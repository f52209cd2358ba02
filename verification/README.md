# Stake index and rank queries, modelled in Dafny

This project models two pieces of the go-cyber chain.

**Stake index** (`x/bank/internal/keeper/index.go`, module `StakeIndex`). The
bank keeper keeps per-account total stake in memory as two generations:

- `committed` (`userTotalStake`) is the generation the current rank was computed from.
- `latest` (`userNewTotalStake`) is the fresh generation, kept up to date block by block.

It also keeps `pending` (`accsToUpdate`), the addresses touched by transfers in
the current block. The transitions are pure functions on an `Index` record:

- `OnTransfer` is the transfer hook.
- `Load` rebuilds both generations. `Collect` is one `IterateAccounts` pass.
- `UpdateStake` applies a signed delta with 64-bit wrap-around.
- `EndBlocker` re-reads the stake of every touched account (its loop is `Flush`).
- `FixUserStake` is the diff-and-commit whose result gates rank recomputation.
  It is modelled twice. The method runs the Go loop over the map keys in an
  arbitrary order. `Reconcile` is a declarative reference. The method is proved
  equal to the reference.

An SDK context is modelled as a `Ledger` (module `Accounts`). A ledger holds the
registry's accounts in iteration order and the stake of every address at that
context. A Go map read of an absent key gives 0 (`StakeIndex.Get`).

**Query handlers** (`x/rank/keeper/grpc_query.go`, module `RankQuery`). Each
handler checks its request, resolves CIDs and addresses to numbers, asks the
rank index, and maps numbers back to CIDs. Everything a handler reads comes from
an `Env` value:

- the CID registry, a partial map plus its inverse;
- the rank index, as opaque functions;
- the link set, as `(from, to, account)` triples;
- the account registry;
- the Bech32 parser, as a partial function.

A handler ends in `Ok`, a typed `Err`, or `Panic`. `Panic` stands for the Go
`panic(err)` on an index error, or a nil dereference.

Three points of the code that are easy to miss:

- `Rank`, unlike the other handlers, has no nil-request check. A nil request is dereferenced, and the model answers `Panic`, not `InvalidArgument`.
- `Top` sets defaults (page 0, 100 per page) and then overwrites them with the request's values before calling the index. The request's values always reach the index.
- `FixUserStake` writes a committed entry only when the values differ. A fresh entry of 0 whose key is absent from the committed map is therefore not added to it.

## Model

| member | source | states |
|---|---|---|
| StakeIndex.OnTransfer | x/bank/internal/keeper/index.go:23-30 | the pending list grows by exactly the number of non-nil sides, with `from` before `to`; old entries and both generations are unchanged |
| StakeIndex.Collect | x/bank/internal/keeper/index.go:45-51 | the collected keys are exactly the registry's account numbers, and each value is the stake of some account with that number (which account, in a well-formed registry, is stated by `Load`) |
| StakeIndex.Load | x/bank/internal/keeper/index.go:36-43 | the committed generation holds exactly the account numbers at `rankCtx`, and in a well-formed registry each account's stake there; the fresh one the same at `freshCtx`; the pending list is kept |
| StakeIndex.UpdateStake | x/bank/internal/keeper/index.go:65-67 | the fresh entry becomes (old value, absent as 0, plus the signed delta) mod 2^64; every other key and the committed generation are unchanged |
| StakeIndexLemmas.UpdateStakeUndo | x/bank/internal/keeper/index.go:65-67 | a delta followed by its Go negation (`Base.Negate`, under which the most negative `int64` is its own negation) restores the fresh value, through any wrap-around |
| StakeIndex.Reconcile | x/bank/internal/keeper/index.go:54-63 | afterwards every fresh key reads its fresh value in the committed generation, other committed entries are unchanged, a key is added only for a non-zero fresh value, and the fresh generation is unchanged; the flag is true iff some fresh value differed from its committed value, which is exactly when the committed generation changes |
| StakeIndex.FixUserStake | x/bank/internal/keeper/index.go:54-63 | the loop over the fresh keys, in any order, reports true iff some fresh value differs from its committed value (absent read as 0), and leaves the state `Reconcile` describes |
| StakeIndexLemmas.ReconcileIdempotent | x/bank/internal/keeper/index.go:54-63 | a second reconciliation with no update in between reports no change and changes nothing |
| StakeIndexLemmas.LoadSameContextIsReconciled | x/bank/internal/keeper/index.go:36-63 | loading both generations at one context leaves nothing for `FixUserStake` to report |
| StakeIndex.Flush | x/bank/internal/keeper/index.go:75-79 | the loop succeeds iff every pending address has an account; it then adds exactly the touched numbers as keys and leaves untouched entries alone |
| StakeIndex.FlushStakes | x/bank/internal/keeper/index.go:75-79 | in a well-formed registry, every touched account ends holding its stake at the block's context, however often and wherever it was touched |
| StakeIndex.EndBlocker | x/bank/internal/keeper/index.go:74-81 | fails exactly when a pending address has no account; otherwise every touched account holds its stake at `ctx`, untouched entries and the committed generation are unchanged, and the pending list is empty |
| StakeIndexLemmas.EndBlockerDeterminedByTouched | x/bank/internal/keeper/index.go:74-81 | in a well-formed registry, the set of touched account numbers alone decides the state `EndBlocker` leaves |
| StakeIndexLemmas.EndBlockerIgnoresDuplicates | x/bank/internal/keeper/index.go:74-81 | in a well-formed registry, two pending lists holding the same addresses, in any order and with any number of repeats, end the block in the same state |
| StakeIndexLemmas.FlushForgetsTouched | x/bank/internal/keeper/index.go:75-79 | in any registry, two fresh generations that agree outside the touched numbers give the same result after the loop: whatever was held at a touched number is overwritten |
| StakeIndexLemmas.EndBlockerSupersedesUpdateStake | x/bank/internal/keeper/index.go:65-81 | in any registry, a delta applied to an account touched in the same block is overwritten: the block ends as if there had been no delta |
| StakeIndexLemmas.TransferReachesCommitted | x/bank/internal/keeper/index.go:23-81 | in a well-formed registry, after a transfer hook between registered accounts with every pending address registered, `EndBlocker` and `FixUserStake`, `GetTotalStakes` reads each party's stake at the block's context, and the reconciliation reports a change whenever a party's committed stake was different |
| RankQuery.ToRankedCids | x/rank/keeper/grpc_query.go:56-59 | the result has the index list's length and order; entry i carries the CID of number i and rank i |
| RankQuery.Respond | x/rank/keeper/grpc_query.go:51-61 | an index error panics; otherwise the response is the mapped list with the index's total unchanged |
| RankQueryLemmas.RankedCidsResolveBack | x/rank/keeper/grpc_query.go:56-59 | with a consistent registry and an index that returns only registered numbers, every CID in a result resolves back to the index number it came from |
| RankQuery.RankedList | x/rank/keeper/grpc_query.go:36-62 | nil request gives InvalidArgument, an unknown CID gives CidNotFound, and otherwise the response answers the index call with page 0 and limit 10 when pagination is absent, or the given page and per-page |
| RankQuery.Search | x/rank/keeper/grpc_query.go:36-62 | InvalidArgument on nil, CidNotFound on an unknown CID, otherwise the index's search list mapped to CIDs with its total, under the 0/10 defaults or the request's paging |
| RankQuery.Backlinks | x/rank/keeper/grpc_query.go:64-90 | the same contract as `Search`, against the index's backlinks list |
| RankQueryLemmas.DefaultPagination | x/rank/keeper/grpc_query.go:47-50 | a search or backlinks request without pagination is answered exactly as one asking for page 0 and 10 per page |
| RankQuery.Top | x/rank/keeper/grpc_query.go:92-113 | InvalidArgument on nil, otherwise the index's top list for the request's own page and per-page, mapped to CIDs, with the total unchanged |
| RankQuery.Rank | x/rank/keeper/grpc_query.go:25-34 | a nil request panics, an unknown CID gives CidNotFound, otherwise the index's rank value for the resolved number |
| RankQuery.CidMetric | x/rank/keeper/grpc_query.go:171-199 | InvalidArgument on nil, CidNotFound on an unknown CID, otherwise the metric of the resolved number |
| RankQuery.Entropy | x/rank/keeper/grpc_query.go:171-184 | InvalidArgument on nil, CidNotFound on an unknown CID, otherwise the index's entropy of the resolved number |
| RankQuery.Luminosity | x/rank/keeper/grpc_query.go:186-199 | InvalidArgument on nil, CidNotFound on an unknown CID, otherwise the index's luminosity of the resolved number |
| RankQueryLemmas.CidResolutionShared | x/rank/keeper/grpc_query.go:25-199 | for a non-nil request, `Rank`, `Entropy`, `Luminosity`, `Search` and `Backlinks` fail exactly when the CID is unregistered, and then with CidNotFound |
| RankQuery.IsLinkExist | x/rank/keeper/grpc_query.go:115-149 | checks run in a fixed order (nil request, address, `from`, `to`, account); it succeeds iff every check passes, and then answers membership of (fromNum, toNum, accNum) in the link set; it never panics |
| RankQuery.IsAnyLinkExist | x/rank/keeper/grpc_query.go:151-169 | errors only on a nil request or an unknown `from` then `to`; it succeeds iff both CIDs resolve, and then answers whether any account linked them |
| RankQueryLemmas.LinkImpliesAnyLink | x/rank/keeper/grpc_query.go:142-166 | a link by the account behind an address is a link by some account |
| RankQueryLemmas.LinkErrorsMatchAnyLink | x/rank/keeper/grpc_query.go:115-168 | with a parsable address of a registered account, `IsLinkExist` fails exactly when `IsAnyLinkExist` does, with the same error |
| RankQuery.Karma | x/rank/keeper/grpc_query.go:201-223 | checks run in a fixed order (nil request, address, account); on success the answer is the karma of the account number |
| RankQueryLemmas.AddressErrorsShared | x/rank/keeper/grpc_query.go:115-223 | a bad address fails `IsLinkExist` and `Karma` alike, whatever the CIDs; with both CIDs registered `IsLinkExist` reports `Karma`'s address or account error; for a non-nil request, `IsAnyLinkExist` only reports CidNotFound |
| RankQueryLemmas.ExampleScenario | x/rank/keeper/grpc_query.go:115-168 | an example: "addr1" (account 7) linked "Qx1" to "Qx2", "addr9" did not, some account did, and an unknown CID gives CidNotFound |

## Left out

- `Params`: it passes the configuration through and holds no logic.
- SDK context unwrapping, gRPC status codes and `sdkerrors` messages: only the error kind is modelled. For example, `Search` wraps an empty message where the others wrap the CID.
- Bech32 address decoding: this is the abstract `parseAddress` function.
- Rank index internals and rank mathematics. Rank, entropy, luminosity and karma are float64 bit patterns passed through unread. Search, backlinks and top are opaque functions returning a list and a total.
- These are properties of the index, not of the handlers, and are not stated: a page holds at most `perPage` entries, the total does not depend on paging, and equal ranks are ordered by number.
- Account iteration order: the registry's sequence order stands in for the store's order.
- `GetAccountTotalStake`: modelled as a pure function of the context. The `int64` to `uint64` conversion of a balance is taken as given non-negative.
- Hook registration: the wiring, where `NewIndexedKeeper` copies the keeper and registers the closure on the original, is not modelled. `StakeIndex.New` is only the starting state.
- In a registry that gives two addresses one number, the order of the pending list decides which stake the number ends with (the last write wins). `EndBlockerIgnoresDuplicates` and `EndBlockerDeterminedByTouched` therefore assume a well-formed registry.
- Nil maps before `Load`: in Go both maps start nil, so `UpdateStake`, or `EndBlocker` with a non-empty pending list, before `Load` would panic. The model starts from empty maps.
- Partial `EndBlocker` writes before a panic: a missing account is modelled as the fatal outcome `None` for the whole step.
- StakeIndex.GetTotalStakes: it has no contract of its own, since it returns the committed generation. Its use is stated in `TransferReachesCommitted`. The model returns a snapshot, while Go returns the live map: a caller holding it sees every later in-place `FixUserStake` write, until `Load` allocates a new map and the held one goes stale. That aliasing is not modelled.
- StakeIndex.Load: the stake each account number holds is stated only for a well-formed registry. Where two accounts share a number, the one iterated last wins, and the model fixes only the key set and that each value is the stake of some account with that number.
- StakeIndex.EndBlocker: the per-account stake guarantee is stated only for a well-formed registry (distinct addresses and distinct numbers). For other registries the model still fixes which keys change and that untouched entries are kept.
- Concurrency and locking: execution is single-threaded, and the model has none.
