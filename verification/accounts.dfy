/**
 The account registry and ledger as both keepers see them at one execution
 context. The model stands a `Ledger` value in for an SDK context: the accounts
 in the order the registry iterates them, and the total stake of each address
 at that context.
 */
module Accounts {
  import opened Base

  /** Raw bytes of an `sdk.AccAddress`. */
  type Address = seq<bv8>

  /** `cbd.AccNumber`, the dense number the registry gives an account. */
  type AccNumber = Uint64

  datatype Account = Account(address: Address, number: AccNumber)

  /** One context's view: registry in iteration order, and the stake the bank
      keeper reports for any address (`GetAccountTotalStake`). */
  datatype Ledger = Ledger(accounts: seq<Account>, stake: Address -> Uint64)

  /** A real registry never gives two accounts one address or one number. */
  ghost predicate WellFormed(l: Ledger)
  {
    forall i, j :: 0 <= i < |l.accounts| && 0 <= j < |l.accounts| && i != j ==>
      l.accounts[i].address != l.accounts[j].address &&
      l.accounts[i].number != l.accounts[j].number
  }

  /** `GetAccount(ctx, addr).GetAccountNumber()`; None where `GetAccount` returns nil. */
  function NumberOf(accounts: seq<Account>, a: Address): (r: Option<AccNumber>)
    ensures r.None? <==> forall i :: 0 <= i < |accounts| ==> accounts[i].address != a
    ensures r.Some? ==> exists i :: 0 <= i < |accounts| && accounts[i] == Account(a, r.value)
  {
    if |accounts| == 0 then None
    else if accounts[0].address == a then Some(accounts[0].number)
    else
      var r := NumberOf(accounts[1..], a);
      assert r.Some? ==> accounts[1..][0..] == accounts[1..];
      r
  }

  /** The number of a registered address at this context. */
  function Lookup(l: Ledger, a: Address): (r: Option<AccNumber>)
  {
    NumberOf(l.accounts, a)
  }

  /** In a well-formed registry, the lookup finds exactly the registered pair. */
  lemma LookupExact(l: Ledger, a: Address, n: AccNumber)
    requires WellFormed(l)
    ensures Lookup(l, a) == Some(n) <==> exists i :: 0 <= i < |l.accounts| && l.accounts[i] == Account(a, n)
  {
  }

  /** Distinct registered addresses have distinct account numbers. */
  lemma LookupInjective(l: Ledger, a: Address, b: Address)
    requires WellFormed(l)
    requires Lookup(l, a).Some? && Lookup(l, a) == Lookup(l, b)
    ensures a == b
  {
  }
}
