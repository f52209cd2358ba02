/**
 Properties that relate the query handlers to each other and to the CID
 registry: pagination defaults, the CID round trip of ranked results, the order
 of error checks shared between handlers, and link existence for one account
 against link existence for any account.
 */
module RankQueryLemmas {
  import opened Base
  import opened Accounts
  import opened RankQuery

  /** A request without pagination is answered as one asking for page 0 with
      10 entries per page. */
  lemma DefaultPagination(env: Env, c: Cid)
    ensures Search(env, Some(SearchRequest(c, None))) == Search(env, Some(SearchRequest(c, Some(PageRequest(0, 10)))))
    ensures Backlinks(env, Some(SearchRequest(c, None))) == Backlinks(env, Some(SearchRequest(c, Some(PageRequest(0, 10)))))
  {
  }

  /** Every ranked CID built from the index's numbers resolves back to the
      number it came from, when the registry is consistent and the index only
      returns registered numbers. */
  lemma RankedCidsResolveBack(g: Graph, entries: seq<RankedNumber>)
    requires Consistent(g)
    requires forall i :: 0 <= i < |entries| ==> entries[i].number in g.numbers.Values
    ensures var r := ToRankedCids(g, entries);
      forall i :: 0 <= i < |entries| ==> r[i].cid in g.numbers && g.numbers[r[i].cid] == entries[i].number
  {
  }

  /** The handlers that take one CID all fail on exactly the unregistered
      CIDs, and then with `CidNotFound`. */
  lemma CidResolutionShared(env: Env, c: Cid, pagination: Option<PageRequest>)
    ensures Rank(env, Some(CidRequest(c))).Err? <==> c !in env.graph.numbers
    ensures Entropy(env, Some(CidRequest(c))).Err? <==> c !in env.graph.numbers
    ensures Luminosity(env, Some(CidRequest(c))).Err? <==> c !in env.graph.numbers
    ensures Search(env, Some(SearchRequest(c, pagination))).Err? <==> c !in env.graph.numbers
    ensures Backlinks(env, Some(SearchRequest(c, pagination))).Err? <==> c !in env.graph.numbers
    ensures c !in env.graph.numbers ==>
      && Rank(env, Some(CidRequest(c))).error == CidNotFound
      && Entropy(env, Some(CidRequest(c))).error == CidNotFound
      && Luminosity(env, Some(CidRequest(c))).error == CidNotFound
      && Search(env, Some(SearchRequest(c, pagination))).error == CidNotFound
      && Backlinks(env, Some(SearchRequest(c, pagination))).error == CidNotFound
  {
  }

  /** A link by one account is a link by some account. */
  lemma LinkImpliesAnyLink(env: Env, from: Cid, to: Cid, address: string)
    requires IsLinkExist(env, Some(LinkRequest(from, to, address))) == Ok(true)
    ensures IsAnyLinkExist(env, Some(AnyLinkRequest(from, to))) == Ok(true)
  {
  }

  /** With a parsable address of a registered account, `IsLinkExist` fails
      exactly when `IsAnyLinkExist` does, and with the same error. */
  lemma LinkErrorsMatchAnyLink(env: Env, from: Cid, to: Cid, address: string)
    requires env.parseAddress(address).Some? && Lookup(env.accounts, env.parseAddress(address).value).Some?
    ensures IsLinkExist(env, Some(LinkRequest(from, to, address))).Ok? <==>
            IsAnyLinkExist(env, Some(AnyLinkRequest(from, to))).Ok?
    ensures !IsLinkExist(env, Some(LinkRequest(from, to, address))).Ok? ==>
            IsLinkExist(env, Some(LinkRequest(from, to, address))) == IsAnyLinkExist(env, Some(AnyLinkRequest(from, to)))
  {
  }

  /** An address is checked before any CID: a bad address fails
      `IsLinkExist` and `Karma` alike, whatever the CIDs, while
      `IsAnyLinkExist` never looks at it. When both CIDs are registered,
      `IsLinkExist` reports the same address or account error as `Karma`. */
  lemma AddressErrorsShared(env: Env, from: Cid, to: Cid, address: string)
    ensures env.parseAddress(address).None? ==>
      && IsLinkExist(env, Some(LinkRequest(from, to, address))) == Err(InvalidAddress)
      && Karma(env, Some(AddressRequest(address))) == Err(InvalidAddress)
    ensures from in env.graph.numbers && to in env.graph.numbers && Karma(env, Some(AddressRequest(address))).Err? ==>
      IsLinkExist(env, Some(LinkRequest(from, to, address))) == Err(Karma(env, Some(AddressRequest(address))).error)
    ensures !IsAnyLinkExist(env, Some(AnyLinkRequest(from, to))).Err? ||
      IsAnyLinkExist(env, Some(AnyLinkRequest(from, to))).error == CidNotFound
  {
  }

  /** An example: "Qx1" and "Qx2" are CIDs 1 and 2, "addr1" is account
      7, which linked 1 to 2, and "addr9" is account 9, which did not. */
  function ExampleEnv(): (r: Env)
  {
    Env(
      Graph(map["Qx1" := 1, "Qx2" := 2], n => if n == 1 then "Qx1" else if n == 2 then "Qx2" else ""),
      RankIndex(n => 0, (n, p, l) => IndexFault, (n, p, l) => IndexFault, (p, l) => IndexFault,
                n => 0, n => 0, a => 0),
      {Link(1, 2, 7)},
      Ledger([Account([1], 7), Account([9], 9)], a => 0),
      s => if s == "addr1" then Some([1]) else if s == "addr9" then Some([9]) else None)
  }

  lemma ExampleScenario()
    ensures IsLinkExist(ExampleEnv(), Some(LinkRequest("Qx1", "Qx2", "addr1"))) == Ok(true)
    ensures IsLinkExist(ExampleEnv(), Some(LinkRequest("Qx1", "Qx2", "addr9"))) == Ok(false)
    ensures IsAnyLinkExist(ExampleEnv(), Some(AnyLinkRequest("Qx1", "Qx2"))) == Ok(true)
    ensures Rank(ExampleEnv(), Some(CidRequest("QxUnknown"))) == Err(CidNotFound)
  {
  }
}
