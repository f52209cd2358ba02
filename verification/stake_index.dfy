/**
 The bank module's in-memory stake index (`IndexedKeeper`): two generations of
 per-account total stake and the list of addresses touched by transfers in the
 current block.

 - `committed` is `userTotalStake`, the generation the current rank was computed from;
 - `latest` is `userNewTotalStake`, kept up to date block by block;
 - `pending` is `accsToUpdate`, appended to by the transfer hook and drained by `EndBlocker`.

 Every transition is a pure function from one `Index` to the next.
 */
module StakeIndex {
  import opened Base
  import opened Accounts

  type Stakes = map<AccNumber, Uint64>

  datatype Index = Index(committed: Stakes, latest: Stakes, pending: seq<Address>)

  /** Go's map read: an absent key reads as the zero value. */
  function Get(m: Stakes, k: AccNumber): (r: Uint64)
  {
    if k in m then m[k] else 0
  }

  /** The state `NewIndexedKeeper` starts from: nothing pending, no stakes. */
  function New(): (r: Index)
  {
    Index(map[], map[], [])
  }

  /** The transfer hook: appends `from` and then `to`, skipping a nil side. */
  function OnTransfer(s: Index, from: Option<Address>, to: Option<Address>): (r: Index)
    ensures |r.pending| == |s.pending| + (if from.Some? then 1 else 0) + (if to.Some? then 1 else 0)
    ensures r.pending[..|s.pending|] == s.pending
    ensures from.Some? ==> r.pending[|s.pending|] == from.value
    ensures to.Some? ==> r.pending[|r.pending| - 1] == to.value
    ensures forall a :: a in r.pending <==> a in s.pending || from == Some(a) || to == Some(a)
    ensures r.committed == s.committed && r.latest == s.latest
  {
    var afterFrom := if from.Some? then s.pending + [from.value] else s.pending;
    var afterTo := if to.Some? then afterFrom + [to.value] else afterFrom;
    s.(pending := afterTo)
  }

  /** The numbers of the registered addresses among `pending`. */
  function Touched(ctx: Ledger, pending: seq<Address>): (r: set<AccNumber>)
    ensures forall i :: 0 <= i < |pending| && Lookup(ctx, pending[i]).Some? ==> Lookup(ctx, pending[i]).value in r
    ensures forall k :: k in r ==> exists i :: 0 <= i < |pending| && Lookup(ctx, pending[i]) == Some(k)
  {
    set i | 0 <= i < |pending| && Lookup(ctx, pending[i]).Some? :: Lookup(ctx, pending[i]).value
  }

  /** One `IterateAccounts` pass with `getCollectFunc`: every account's number
      is set to its stake, a later account overwriting an earlier one. */
  function Collect(ctx: Ledger): (r: Stakes)
    ensures forall k :: k in r <==> exists i :: 0 <= i < |ctx.accounts| && ctx.accounts[i].number == k
    ensures forall k :: k in r ==>
      exists i :: 0 <= i < |ctx.accounts| && ctx.accounts[i].number == k && r[k] == ctx.stake(ctx.accounts[i].address)
    decreases |ctx.accounts|
  {
    if |ctx.accounts| == 0 then map[]
    else
      var last := ctx.accounts[|ctx.accounts| - 1];
      var prefix := ctx.(accounts := ctx.accounts[..|ctx.accounts| - 1]);
      Collect(prefix)[last.number := ctx.stake(last.address)]
  }

  /** In a well-formed registry every account's number is collected with
      that account's own stake. */
  lemma CollectExact(ctx: Ledger)
    ensures WellFormed(ctx) ==> forall i :: 0 <= i < |ctx.accounts| ==>
      Collect(ctx)[ctx.accounts[i].number] == ctx.stake(ctx.accounts[i].address)
  {
    if WellFormed(ctx) {
      var r := Collect(ctx);
      forall i | 0 <= i < |ctx.accounts|
        ensures r[ctx.accounts[i].number] == ctx.stake(ctx.accounts[i].address)
      {
        var k := ctx.accounts[i].number;
        var j :| 0 <= j < |ctx.accounts| && ctx.accounts[j].number == k && r[k] == ctx.stake(ctx.accounts[j].address);
      }
    }
  }

  /** `Load`: both generations are rebuilt from scratch, the committed one at
      `rankCtx` and the latest one at `freshCtx`. */
  function Load(s: Index, rankCtx: Ledger, freshCtx: Ledger): (r: Index)
    ensures forall k :: k in r.committed <==>
      exists i :: 0 <= i < |rankCtx.accounts| && rankCtx.accounts[i].number == k
    ensures forall k :: k in r.latest <==>
      exists i :: 0 <= i < |freshCtx.accounts| && freshCtx.accounts[i].number == k
    ensures WellFormed(rankCtx) ==> forall i :: 0 <= i < |rankCtx.accounts| ==>
      r.committed[rankCtx.accounts[i].number] == rankCtx.stake(rankCtx.accounts[i].address)
    ensures WellFormed(freshCtx) ==> forall i :: 0 <= i < |freshCtx.accounts| ==>
      r.latest[freshCtx.accounts[i].number] == freshCtx.stake(freshCtx.accounts[i].address)
    ensures r.pending == s.pending
  {
    CollectExact(rankCtx);
    CollectExact(freshCtx);
    Index(Collect(rankCtx), Collect(freshCtx), s.pending)
  }

  /** `UpdateStake`: adds a signed delta to the latest entry, as `uint64`
      arithmetic does, so the sum wraps modulo 2^64. */
  function UpdateStake(s: Index, acc: AccNumber, d: Int64): (r: Index)
    ensures acc in r.latest && r.latest[acc] == (Get(s.latest, acc) + d) % TWO_64
    ensures forall k :: k != acc ==> (k in r.latest <==> k in s.latest)
    ensures forall k :: k != acc && k in s.latest ==> r.latest[k] == s.latest[k]
    ensures r.committed == s.committed && r.pending == s.pending
  {
    s.(latest := s.latest[acc := WrapAdd(Get(s.latest, acc), AsUint64(d))])
  }

  /** `GetTotalStakes`: the committed generation, the input of the next rank computation. */
  function GetTotalStakes(s: Index): (r: Stakes)
  {
    s.committed
  }

  /** True when some latest stake differs from its committed value (absent reads as 0). */
  predicate StakeMoved(s: Index)
  {
    exists k :: k in s.latest && Get(s.committed, k) != s.latest[k]
  }

  datatype Reconciliation = Reconciliation(changed: bool, index: Index)

  /** What `FixUserStake` does, stated over whole maps: every latest entry that
      differs from its committed value is copied into the committed generation. */
  function Reconcile(s: Index): (r: Reconciliation)
    ensures forall k :: k in s.latest ==> Get(r.index.committed, k) == s.latest[k]
    ensures forall k :: k !in s.latest ==> Get(r.index.committed, k) == Get(s.committed, k)
    ensures forall k :: k in r.index.committed <==> k in s.committed || (k in s.latest && s.latest[k] != 0)
    ensures r.index.latest == s.latest && r.index.pending == s.pending
    ensures r.changed <==> StakeMoved(s)
    ensures r.changed <==> r.index.committed != s.committed
    ensures !r.changed ==> r.index == s
  {
    var diff := map k | k in s.latest && Get(s.committed, k) != s.latest[k] :: s.latest[k];
    Reconciliation(StakeMoved(s), s.(committed := s.committed + diff))
  }

  /** `FixUserStake` as the Go loop runs it: latest keys are visited in an
      arbitrary order, and a key is written only when its value differs. */
  method FixUserStake(s: Index) returns (changed: bool, r: Index)
    ensures changed <==> StakeMoved(s)
    ensures forall k :: k in s.latest ==> Get(r.committed, k) == s.latest[k]
    ensures r == Reconcile(s).index
  {
    var committed: Stakes := s.committed;
    changed := false;
    var todo := s.latest.Keys;
    while todo != {}
      invariant todo <= s.latest.Keys
      invariant changed <==> exists k :: k in s.latest && k !in todo && Get(s.committed, k) != s.latest[k]
      invariant forall k :: k in s.latest && k !in todo ==> Get(committed, k) == s.latest[k]
      invariant forall k :: k in committed <==>
        k in s.committed || (k in s.latest && k !in todo && s.latest[k] != 0)
      invariant forall k :: k !in s.latest || k in todo ==> Get(committed, k) == Get(s.committed, k)
      decreases todo
    {
      var k :| k in todo;
      if Get(committed, k) != s.latest[k] {
        changed := true;
        committed := committed[k := s.latest[k]];
      }
      todo := todo - {k};
    }
    r := s.(committed := committed);
    var expected := Reconcile(s).index;
    assert forall k :: k in r.committed ==> r.committed[k] == expected.committed[k] by {
      forall k | k in r.committed
        ensures r.committed[k] == expected.committed[k]
      {
        assert Get(r.committed, k) == Get(expected.committed, k);
      }
    }
  }

  /** Every address in `pending` has an account at `ctx`. */
  predicate AllRegistered(ctx: Ledger, pending: seq<Address>)
  {
    forall i :: 0 <= i < |pending| ==> Lookup(ctx, pending[i]).Some?
  }

  lemma AllRegisteredCons(ctx: Ledger, pending: seq<Address>)
    requires |pending| > 0
    ensures AllRegistered(ctx, pending) <==> Lookup(ctx, pending[0]).Some? && AllRegistered(ctx, pending[1..])
  {
    if Lookup(ctx, pending[0]).Some? && AllRegistered(ctx, pending[1..]) {
      forall i | 0 < i < |pending| ensures Lookup(ctx, pending[i]).Some? {
        assert pending[i] == pending[1..][i - 1];
      }
    }
  }

  /** The loop of `EndBlocker`: each pending address in order overwrites its
      fresh entry with its stake at `ctx`. None where `GetAccount` returns nil,
      on which the Go code panics. */
  function Flush(latest: Stakes, pending: seq<Address>, ctx: Ledger): (r: Option<Stakes>)
    ensures r.Some? <==> AllRegistered(ctx, pending)
    ensures r.Some? ==> forall k :: k in r.value <==> k in latest || k in Touched(ctx, pending)
    ensures r.Some? ==> forall k :: k in latest && k !in Touched(ctx, pending) ==> r.value[k] == latest[k]
    decreases |pending|
  {
    if |pending| == 0 then Some(latest)
    else
      match Lookup(ctx, pending[0])
      case None => None
      case Some(n) =>
        AllRegisteredCons(ctx, pending);
        TouchedCons(ctx, pending);
        Flush(latest[n := ctx.stake(pending[0])], pending[1..], ctx)
  }

  lemma TouchedCons(ctx: Ledger, pending: seq<Address>)
    requires |pending| > 0 && Lookup(ctx, pending[0]).Some?
    ensures Touched(ctx, pending) == {Lookup(ctx, pending[0]).value} + Touched(ctx, pending[1..])
  {
    var t := Touched(ctx, pending);
    var u := {Lookup(ctx, pending[0]).value} + Touched(ctx, pending[1..]);
    forall k | k in u ensures k in t {
      if k in Touched(ctx, pending[1..]) {
        var i :| 0 <= i < |pending[1..]| && Lookup(ctx, pending[1..][i]).Some? && Lookup(ctx, pending[1..][i]).value == k;
        assert pending[i + 1] == pending[1..][i];
      }
    }
    forall k | k in t ensures k in u {
      var i :| 0 <= i < |pending| && Lookup(ctx, pending[i]).Some? && Lookup(ctx, pending[i]).value == k;
      if i > 0 {
        assert pending[1..][i - 1] == pending[i];
      }
    }
  }

  /** The head step of `FlushStakes`: the first pending address keeps the
      stake written for it, because any later write to its number comes from
      the same address. */
  lemma FlushHead(latest: Stakes, rest: seq<Address>, ctx: Ledger, a: Address, n: AccNumber)
    requires WellFormed(ctx) && Lookup(ctx, a) == Some(n)
    requires n in latest && latest[n] == ctx.stake(a)
    requires Flush(latest, rest, ctx).Some?
    requires forall i :: 0 <= i < |rest| ==>
      Flush(latest, rest, ctx).value[Lookup(ctx, rest[i]).value] == ctx.stake(rest[i])
    ensures Flush(latest, rest, ctx).value[n] == ctx.stake(a)
  {
  }

  /** With a well-formed registry, every touched account ends up holding its
      stake at `ctx`, however often and in whatever order it was touched. */
  lemma {:induction false} FlushStakes(latest: Stakes, pending: seq<Address>, ctx: Ledger)
    ensures var r := Flush(latest, pending, ctx);
      r.Some? && WellFormed(ctx) ==>
        forall i :: 0 <= i < |pending| ==> r.value[Lookup(ctx, pending[i]).value] == ctx.stake(pending[i])
    decreases |pending|
  {
    var r := Flush(latest, pending, ctx);
    if r.Some? && WellFormed(ctx) && |pending| > 0 {
      var a := pending[0];
      var n := Lookup(ctx, a).value;
      var latest' := latest[n := ctx.stake(a)];
      var rest := pending[1..];
      assert r == Flush(latest', rest, ctx);
      FlushStakes(latest', rest, ctx);
      FlushHead(latest', rest, ctx, a, n);
      forall i | 0 <= i < |pending|
        ensures r.value[Lookup(ctx, pending[i]).value] == ctx.stake(pending[i])
      {
        if i > 0 {
          assert pending[i] == rest[i - 1];
        }
      }
    }
  }

  /** `EndBlocker`: re-reads the stake of every touched account into the latest
      generation, then empties the pending list. None where the Go code panics
      on an address with no account. */
  function EndBlocker(s: Index, ctx: Ledger): (r: Option<Index>)
    ensures r.Some? <==> AllRegistered(ctx, s.pending)
    ensures r.Some? ==> r.value.pending == [] && r.value.committed == s.committed
    ensures r.Some? ==> forall k :: k in r.value.latest <==> k in s.latest || k in Touched(ctx, s.pending)
    ensures r.Some? ==> forall k :: k in s.latest && k !in Touched(ctx, s.pending) ==> r.value.latest[k] == s.latest[k]
    ensures r.Some? ==> forall i :: 0 <= i < |s.pending| ==> Lookup(ctx, s.pending[i]).value in r.value.latest
    ensures r.Some? && WellFormed(ctx) ==> forall i :: 0 <= i < |s.pending| ==>
      r.value.latest[Lookup(ctx, s.pending[i]).value] == ctx.stake(s.pending[i])
  {
    FlushStakes(s.latest, s.pending, ctx);
    match Flush(s.latest, s.pending, ctx)
    case None => None
    case Some(f) => Some(Index(s.committed, f, []))
  }
}
