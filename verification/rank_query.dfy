/**
 The rank module's gRPC query handlers (`StateKeeper`). Each handler checks
 its request, resolves content identifiers (CIDs) and addresses to numbers,
 asks the rank index, and maps the numbers in the answer back to CIDs.

 Everything a handler consults is a value of `Env`: the CID registry, the rank
 index, the link set, the account registry and the address parser.
 */
module RankQuery {
  import opened Base
  import opened Accounts

  type Cid = string
  type CidNumber = Uint64

  /** A float64 held as its bit pattern; rank, entropy, luminosity and karma
      are passed through and never computed with. */
  type Float64 = bv64

  datatype QueryError = InvalidArgument | CidNotFound | InvalidAddress | InvalidAccount

  /** What a handler ends with: a response, a typed error, or a Go panic. */
  datatype Reply<T> = Ok(value: T) | Err(error: QueryError) | Panic

  datatype RankedNumber = RankedNumber(number: CidNumber, rank: Float64)

  /** The index's answer to a paginated query; `IndexFault` is a returned error. */
  datatype IndexPage = IndexPage(entries: seq<RankedNumber>, total: Uint64) | IndexFault

  /** `CompactLink`: one account's link from one CID to another. */
  datatype Link = Link(from: CidNumber, to: CidNumber, account: AccNumber)

  /** The CID registry: `GetCidNumber` is the partial map, `GetCid` its inverse. */
  datatype Graph = Graph(numbers: map<Cid, CidNumber>, cidOf: CidNumber -> Cid)

  datatype RankIndex = RankIndex(
    rankValue: CidNumber -> Float64,
    search: (CidNumber, Uint32, Uint32) -> IndexPage,
    backlinks: (CidNumber, Uint32, Uint32) -> IndexPage,
    top: (Uint32, Uint32) -> IndexPage,
    entropy: CidNumber -> Float64,
    luminosity: CidNumber -> Float64,
    karma: AccNumber -> Float64)

  /** `parseAddress` is `AccAddressFromBech32`, None where it returns an error. */
  datatype Env = Env(
    graph: Graph,
    index: RankIndex,
    links: set<Link>,
    accounts: Ledger,
    parseAddress: string -> Option<Address>)

  datatype PageRequest = PageRequest(page: Uint32, perPage: Uint32)
  datatype CidRequest = CidRequest(cid: Cid)
  datatype SearchRequest = SearchRequest(cid: Cid, pagination: Option<PageRequest>)
  datatype LinkRequest = LinkRequest(from: Cid, to: Cid, address: string)
  datatype AnyLinkRequest = AnyLinkRequest(from: Cid, to: Cid)
  datatype AddressRequest = AddressRequest(address: string)

  datatype RankedCid = RankedCid(cid: Cid, rank: Float64)
  datatype SearchResponse = SearchResponse(result: seq<RankedCid>, total: Uint64)

  /** True when `GetCid` inverts `GetCidNumber` on every registered CID. */
  ghost predicate Consistent(g: Graph)
  {
    forall c :: c in g.numbers ==> g.cidOf(g.numbers[c]) == c
  }

  /** `r` is the response built from an index answer: a panic on an index
      error, otherwise the entries one for one, in order, with each number
      replaced by its CID, and the total unchanged. */
  ghost predicate Answers(r: Reply<SearchResponse>, g: Graph, page: IndexPage)
  {
    match page
    case IndexFault => r == Panic
    case IndexPage(entries, total) =>
      && r.Ok?
      && r.value.total == total
      && |r.value.result| == |entries|
      && forall i :: 0 <= i < |entries| ==>
           r.value.result[i] == RankedCid(g.cidOf(entries[i].number), entries[i].rank)
  }

  /** The loop that turns the index's ranked numbers into ranked CIDs. */
  function ToRankedCids(g: Graph, entries: seq<RankedNumber>): (r: seq<RankedCid>)
    ensures |r| == |entries|
    ensures forall i :: 0 <= i < |entries| ==> r[i].cid == g.cidOf(entries[i].number)
    ensures forall i :: 0 <= i < |entries| ==> r[i].rank == entries[i].rank
  {
    if |entries| == 0 then []
    else [RankedCid(g.cidOf(entries[0].number), entries[0].rank)] + ToRankedCids(g, entries[1..])
  }

  /** The response for one index answer; an index error panics. */
  function Respond(g: Graph, page: IndexPage): (r: Reply<SearchResponse>)
    ensures Answers(r, g, page)
  {
    match page
    case IndexFault => Panic
    case IndexPage(entries, total) => Ok(SearchResponse(ToRankedCids(g, entries), total))
  }

  /** The page and limit `Search` and `Backlinks` pass to the index. */
  function Paging(pagination: Option<PageRequest>): (r: PageRequest)
  {
    match pagination
    case None => PageRequest(0, 10)
    case Some(p) => p
  }

  /** The shared body of `Search` and `Backlinks`, `list` being the index call. */
  function RankedList(env: Env, req: Option<SearchRequest>, list: (CidNumber, Uint32, Uint32) -> IndexPage)
    : (r: Reply<SearchResponse>)
    ensures req.None? ==> r == Err(InvalidArgument)
    ensures req.Some? && req.value.cid !in env.graph.numbers ==> r == Err(CidNotFound)
    ensures req.Some? && req.value.cid in env.graph.numbers && req.value.pagination.None? ==>
      Answers(r, env.graph, list(env.graph.numbers[req.value.cid], 0, 10))
    ensures req.Some? && req.value.cid in env.graph.numbers && req.value.pagination.Some? ==>
      Answers(r, env.graph, list(env.graph.numbers[req.value.cid],
                                 req.value.pagination.value.page, req.value.pagination.value.perPage))
  {
    match req
    case None => Err(InvalidArgument)
    case Some(q) =>
      if q.cid !in env.graph.numbers then Err(CidNotFound)
      else
        var p := Paging(q.pagination);
        Respond(env.graph, list(env.graph.numbers[q.cid], p.page, p.perPage))
  }

  /** `Search`: the ranked CIDs the index relates to a CID, one page of them. */
  function Search(env: Env, req: Option<SearchRequest>): (r: Reply<SearchResponse>)
    ensures req.None? ==> r == Err(InvalidArgument)
    ensures req.Some? && req.value.cid !in env.graph.numbers ==> r == Err(CidNotFound)
    ensures req.Some? && req.value.cid in env.graph.numbers && req.value.pagination.None? ==>
      Answers(r, env.graph, env.index.search(env.graph.numbers[req.value.cid], 0, 10))
    ensures req.Some? && req.value.cid in env.graph.numbers && req.value.pagination.Some? ==>
      Answers(r, env.graph, env.index.search(env.graph.numbers[req.value.cid],
                                             req.value.pagination.value.page, req.value.pagination.value.perPage))
  {
    RankedList(env, req, env.index.search)
  }

  /** `Backlinks`: the ranked CIDs linking to a CID, one page of them. */
  function Backlinks(env: Env, req: Option<SearchRequest>): (r: Reply<SearchResponse>)
    ensures req.None? ==> r == Err(InvalidArgument)
    ensures req.Some? && req.value.cid !in env.graph.numbers ==> r == Err(CidNotFound)
    ensures req.Some? && req.value.cid in env.graph.numbers && req.value.pagination.None? ==>
      Answers(r, env.graph, env.index.backlinks(env.graph.numbers[req.value.cid], 0, 10))
    ensures req.Some? && req.value.cid in env.graph.numbers && req.value.pagination.Some? ==>
      Answers(r, env.graph, env.index.backlinks(env.graph.numbers[req.value.cid],
                                                req.value.pagination.value.page, req.value.pagination.value.perPage))
  {
    RankedList(env, req, env.index.backlinks)
  }

  /** `Top`: the handler's defaults of page 0 and 100 per page are overwritten
      before use, so the request's page and per-page always reach the index. */
  function Top(env: Env, req: Option<PageRequest>): (r: Reply<SearchResponse>)
    ensures req.None? ==> r == Err(InvalidArgument)
    ensures req.Some? ==> Answers(r, env.graph, env.index.top(req.value.page, req.value.perPage))
  {
    match req
    case None => Err(InvalidArgument)
    case Some(p) =>
      Respond(env.graph, env.index.top(p.page, p.perPage))
  }

  /** `Rank`: the rank value of a CID. The handler has no nil check, so a nil
      request is dereferenced and panics. */
  function Rank(env: Env, req: Option<CidRequest>): (r: Reply<Float64>)
    ensures req.None? ==> r == Panic
    ensures req.Some? && req.value.cid !in env.graph.numbers ==> r == Err(CidNotFound)
    ensures req.Some? && req.value.cid in env.graph.numbers ==>
      r == Ok(env.index.rankValue(env.graph.numbers[req.value.cid]))
  {
    match req
    case None => Panic
    case Some(q) =>
      if q.cid !in env.graph.numbers then Err(CidNotFound)
      else Ok(env.index.rankValue(env.graph.numbers[q.cid]))
  }

  /** The shared body of `Entropy` and `Luminosity`. */
  function CidMetric(env: Env, req: Option<CidRequest>, metric: CidNumber -> Float64): (r: Reply<Float64>)
    ensures req.None? ==> r == Err(InvalidArgument)
    ensures req.Some? && req.value.cid !in env.graph.numbers ==> r == Err(CidNotFound)
    ensures req.Some? && req.value.cid in env.graph.numbers ==> r == Ok(metric(env.graph.numbers[req.value.cid]))
  {
    match req
    case None => Err(InvalidArgument)
    case Some(q) =>
      if q.cid !in env.graph.numbers then Err(CidNotFound)
      else Ok(metric(env.graph.numbers[q.cid]))
  }

  function Entropy(env: Env, req: Option<CidRequest>): (r: Reply<Float64>)
    ensures req.None? ==> r == Err(InvalidArgument)
    ensures req.Some? && req.value.cid !in env.graph.numbers ==> r == Err(CidNotFound)
    ensures req.Some? && req.value.cid in env.graph.numbers ==> r == Ok(env.index.entropy(env.graph.numbers[req.value.cid]))
  {
    CidMetric(env, req, env.index.entropy)
  }

  function Luminosity(env: Env, req: Option<CidRequest>): (r: Reply<Float64>)
    ensures req.None? ==> r == Err(InvalidArgument)
    ensures req.Some? && req.value.cid !in env.graph.numbers ==> r == Err(CidNotFound)
    ensures req.Some? && req.value.cid in env.graph.numbers ==> r == Ok(env.index.luminosity(env.graph.numbers[req.value.cid]))
  {
    CidMetric(env, req, env.index.luminosity)
  }

  /** `IsLinkExist`: whether the account behind an address linked `from` to
      `to`. Checks run in a fixed order: request, address, `from`, `to`, account. */
  function IsLinkExist(env: Env, req: Option<LinkRequest>): (r: Reply<bool>)
    ensures req.None? ==> r == Err(InvalidArgument)
    ensures req.Some? && env.parseAddress(req.value.address).None? ==> r == Err(InvalidAddress)
    ensures req.Some? && env.parseAddress(req.value.address).Some? && req.value.from !in env.graph.numbers ==>
      r == Err(CidNotFound)
    ensures (req.Some? && env.parseAddress(req.value.address).Some? && req.value.from in env.graph.numbers &&
             req.value.to !in env.graph.numbers) ==> r == Err(CidNotFound)
    ensures (req.Some? && env.parseAddress(req.value.address).Some? && req.value.from in env.graph.numbers &&
             req.value.to in env.graph.numbers && Lookup(env.accounts, env.parseAddress(req.value.address).value).None?) ==>
      r == Err(InvalidAccount)
    ensures r.Ok? ==>
      (r.value <==> Link(env.graph.numbers[req.value.from], env.graph.numbers[req.value.to],
                         Lookup(env.accounts, env.parseAddress(req.value.address).value).value) in env.links)
    ensures r.Ok? <==>
      (req.Some? && env.parseAddress(req.value.address).Some? &&
       req.value.from in env.graph.numbers && req.value.to in env.graph.numbers &&
       Lookup(env.accounts, env.parseAddress(req.value.address).value).Some?)
    ensures !r.Panic?
  {
    match req
    case None => Err(InvalidArgument)
    case Some(q) =>
      match env.parseAddress(q.address)
      case None => Err(InvalidAddress)
      case Some(addr) =>
        if q.from !in env.graph.numbers then Err(CidNotFound)
        else if q.to !in env.graph.numbers then Err(CidNotFound)
        else
          match Lookup(env.accounts, addr)
          case None => Err(InvalidAccount)
          case Some(account) =>
            Ok(Link(env.graph.numbers[q.from], env.graph.numbers[q.to], account) in env.links)
  }

  /** True when some account linked `from` to `to`. */
  predicate AnyLink(links: set<Link>, from: CidNumber, to: CidNumber)
  {
    exists l :: l in links && l.from == from && l.to == to
  }

  /** `IsAnyLinkExist`: whether any account linked `from` to `to`; no address
      is read, so the only errors are a nil request and an unknown CID. */
  function IsAnyLinkExist(env: Env, req: Option<AnyLinkRequest>): (r: Reply<bool>)
    ensures req.None? ==> r == Err(InvalidArgument)
    ensures req.Some? && req.value.from !in env.graph.numbers ==> r == Err(CidNotFound)
    ensures req.Some? && req.value.from in env.graph.numbers && req.value.to !in env.graph.numbers ==>
      r == Err(CidNotFound)
    ensures r.Ok? <==> req.Some? && req.value.from in env.graph.numbers && req.value.to in env.graph.numbers
    ensures r.Ok? ==> (r.value <==> exists account :: Link(env.graph.numbers[req.value.from],
                                                           env.graph.numbers[req.value.to], account) in env.links)
  {
    match req
    case None => Err(InvalidArgument)
    case Some(q) =>
      if q.from !in env.graph.numbers then Err(CidNotFound)
      else if q.to !in env.graph.numbers then Err(CidNotFound)
      else Ok(AnyLink(env.links, env.graph.numbers[q.from], env.graph.numbers[q.to]))
  }

  /** `Karma`: the karma of the account behind an address. Checks run in a
      fixed order: request, address, account. */
  function Karma(env: Env, req: Option<AddressRequest>): (r: Reply<Float64>)
    ensures req.None? ==> r == Err(InvalidArgument)
    ensures req.Some? && env.parseAddress(req.value.address).None? ==> r == Err(InvalidAddress)
    ensures (req.Some? && env.parseAddress(req.value.address).Some? &&
             Lookup(env.accounts, env.parseAddress(req.value.address).value).None?) ==> r == Err(InvalidAccount)
    ensures (req.Some? && env.parseAddress(req.value.address).Some? &&
             Lookup(env.accounts, env.parseAddress(req.value.address).value).Some?) ==>
      r == Ok(env.index.karma(Lookup(env.accounts, env.parseAddress(req.value.address).value).value))
  {
    match req
    case None => Err(InvalidArgument)
    case Some(q) =>
      match env.parseAddress(q.address)
      case None => Err(InvalidAddress)
      case Some(addr) =>
        match Lookup(env.accounts, addr)
        case None => Err(InvalidAccount)
        case Some(account) => Ok(env.index.karma(account))
  }
}
