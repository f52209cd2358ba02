/**
 Properties that relate several transitions of the stake index: duplicates and
 deltas do not matter to `EndBlocker`, reconciliation is idempotent, signed
 deltas undo each other modulo 2^64, and a transfer reaches the committed
 generation after one block and one reconciliation.
 */
module StakeIndexLemmas {
  import opened Base
  import opened Accounts
  import opened StakeIndex

  /** Two pending lists holding the same addresses touch the same numbers. */
  lemma TouchedSameAddresses(ctx: Ledger, p: seq<Address>, q: seq<Address>)
    requires forall a :: a in p <==> a in q
    ensures Touched(ctx, p) == Touched(ctx, q)
  {
    forall k | k in Touched(ctx, p) ensures k in Touched(ctx, q) {
      var i :| 0 <= i < |p| && Lookup(ctx, p[i]) == Some(k);
      assert p[i] in q;
      var j :| 0 <= j < |q| && q[j] == p[i];
    }
    forall k | k in Touched(ctx, q) ensures k in Touched(ctx, p) {
      var j :| 0 <= j < |q| && Lookup(ctx, q[j]) == Some(k);
      assert q[j] in p;
      var i :| 0 <= i < |p| && p[i] == q[j];
    }
  }

  lemma StakesExtensional(m: Stakes, n: Stakes)
    requires m.Keys == n.Keys
    requires forall k :: k in m ==> m[k] == n[k]
    ensures m == n
  {
  }

  /** Two flushes that both touch number `k` write the same stake to it:
      in a well-formed registry `k` belongs to one address. */
  lemma FlushedValueAgrees(s: Index, t: Index, ctx: Ledger, k: AccNumber, i: nat, j: nat)
    requires WellFormed(ctx)
    requires EndBlocker(s, ctx).Some? && EndBlocker(t, ctx).Some?
    requires i < |s.pending| && Lookup(ctx, s.pending[i]) == Some(k)
    requires j < |t.pending| && Lookup(ctx, t.pending[j]) == Some(k)
    ensures EndBlocker(s, ctx).value.latest[k] == EndBlocker(t, ctx).value.latest[k]
  {
    assert EndBlocker(s, ctx).value.latest[k] == ctx.stake(s.pending[i]);
    assert EndBlocker(t, ctx).value.latest[k] == ctx.stake(t.pending[j]);
    LookupInjective(ctx, s.pending[i], t.pending[j]);
  }

  /** Two flushes over one fresh generation and one touched set agree on
      every number. */
  lemma FlushedPointAgrees(s: Index, t: Index, ctx: Ledger, k: AccNumber)
    requires WellFormed(ctx)
    requires s.latest == t.latest
    requires Touched(ctx, s.pending) == Touched(ctx, t.pending)
    requires EndBlocker(s, ctx).Some? && EndBlocker(t, ctx).Some?
    requires k in EndBlocker(s, ctx).value.latest
    ensures k in EndBlocker(t, ctx).value.latest
    ensures EndBlocker(s, ctx).value.latest[k] == EndBlocker(t, ctx).value.latest[k]
  {
    if k in Touched(ctx, s.pending) {
      var i :| 0 <= i < |s.pending| && Lookup(ctx, s.pending[i]) == Some(k);
      var j :| 0 <= j < |t.pending| && Lookup(ctx, t.pending[j]) == Some(k);
      FlushedValueAgrees(s, t, ctx, k, i, j);
    }
  }

  /** With a well-formed registry, the set of touched numbers alone decides
      the fresh generation `EndBlocker` leaves. */
  lemma FlushedMapsEqual(s: Index, t: Index, ctx: Ledger)
    requires WellFormed(ctx)
    requires s.latest == t.latest
    requires Touched(ctx, s.pending) == Touched(ctx, t.pending)
    requires EndBlocker(s, ctx).Some? && EndBlocker(t, ctx).Some?
    ensures EndBlocker(s, ctx).value.latest == EndBlocker(t, ctx).value.latest
  {
    var ms := EndBlocker(s, ctx).value.latest;
    var mt := EndBlocker(t, ctx).value.latest;
    forall k | k in ms ensures k in mt && ms[k] == mt[k] {
      FlushedPointAgrees(s, t, ctx, k);
    }
    forall k | k in mt ensures k in ms {
      FlushedPointAgrees(t, s, ctx, k);
    }
    StakesExtensional(ms, mt);
  }

  /** The whole index `EndBlocker` leaves is decided by the touched numbers. */
  lemma EndBlockerDeterminedByTouched(s: Index, t: Index, ctx: Ledger)
    requires WellFormed(ctx)
    requires s.committed == t.committed && s.latest == t.latest
    requires Touched(ctx, s.pending) == Touched(ctx, t.pending)
    requires EndBlocker(s, ctx).Some? && EndBlocker(t, ctx).Some?
    ensures EndBlocker(s, ctx) == EndBlocker(t, ctx)
  {
    FlushedMapsEqual(s, t, ctx);
    var a := EndBlocker(s, ctx).value;
    var b := EndBlocker(t, ctx).value;
    assert a.pending == b.pending && a.committed == b.committed;
    assert a == b;
  }

  /** `EndBlocker` depends only on which addresses are pending, not on how
      often or in what order: a duplicate entry changes nothing. */
  lemma EndBlockerIgnoresDuplicates(s: Index, p: seq<Address>, q: seq<Address>, ctx: Ledger)
    requires WellFormed(ctx)
    requires forall a :: a in p <==> a in q
    ensures EndBlocker(s.(pending := p), ctx) == EndBlocker(s.(pending := q), ctx)
  {
    var rp := EndBlocker(s.(pending := p), ctx);
    var rq := EndBlocker(s.(pending := q), ctx);
    TouchedSameAddresses(ctx, p, q);
    if rp.Some? {
      forall j | 0 <= j < |q| ensures Lookup(ctx, q[j]).Some? {
        assert q[j] in p;
      }
      EndBlockerDeterminedByTouched(s.(pending := p), s.(pending := q), ctx);
    } else if rq.Some? {
      forall i | 0 <= i < |p| ensures Lookup(ctx, p[i]).Some? {
        assert p[i] in q;
      }
      assert false;
    }
  }

  /** The flush overwrites every touched number, so what the fresh generation
      held there beforehand does not matter: two fresh generations that agree
      outside the touched numbers flush to the same result, in any registry. */
  lemma {:induction false} FlushForgetsTouched(m1: Stakes, m2: Stakes, pending: seq<Address>, ctx: Ledger)
    requires forall k :: k !in Touched(ctx, pending) ==> (k in m1 <==> k in m2)
    requires forall k :: k in m1 && k !in Touched(ctx, pending) ==> m1[k] == m2[k]
    ensures Flush(m1, pending, ctx) == Flush(m2, pending, ctx)
    decreases |pending|
  {
    if |pending| == 0 {
      StakesExtensional(m1, m2);
    } else if Lookup(ctx, pending[0]).Some? {
      var n := Lookup(ctx, pending[0]).value;
      var v := ctx.stake(pending[0]);
      TouchedCons(ctx, pending);
      FlushForgetsTouched(m1[n := v], m2[n := v], pending[1..], ctx);
    }
  }

  /** A delta applied by `UpdateStake` to an account touched in the same block
      is overwritten by `EndBlocker`: the block ends in the same state. */
  lemma EndBlockerSupersedesUpdateStake(s: Index, a: Address, d: Int64, ctx: Ledger)
    requires a in s.pending && Lookup(ctx, a).Some?
    ensures EndBlocker(UpdateStake(s, Lookup(ctx, a).value, d), ctx) == EndBlocker(s, ctx)
  {
    var n := Lookup(ctx, a).value;
    var u := UpdateStake(s, n, d);
    var i :| 0 <= i < |s.pending| && s.pending[i] == a;
    assert n in Touched(ctx, s.pending);
    FlushForgetsTouched(u.latest, s.latest, s.pending, ctx);
  }

  /** Adding `d` and then Go's `-d` restores the fresh value of the account,
      whatever wrap-around happened in between, the most negative delta
      included; a missing entry comes back as an explicit 0. */
  lemma UpdateStakeUndo(s: Index, acc: AccNumber, d: Int64)
    ensures UpdateStake(UpdateStake(s, acc, d), acc, Negate(d)) == s.(latest := s.latest[acc := Get(s.latest, acc)])
  {
  }

  /** A second `FixUserStake` with no update in between reports no change and
      leaves the index as the first one left it. */
  lemma ReconcileIdempotent(s: Index)
    ensures !Reconcile(Reconcile(s).index).changed
    ensures Reconcile(Reconcile(s).index).index == Reconcile(s).index
  {
  }

  /** Loading both generations from one context leaves nothing to reconcile. */
  lemma LoadSameContextIsReconciled(s: Index, ctx: Ledger)
    ensures !Reconcile(Load(s, ctx, ctx)).changed
  {
  }

  /** One block of the whole pipeline: after a transfer between registered
      accounts, `EndBlocker` and `FixUserStake`, the committed generation holds
      each party's stake at the block's context, and the reconciliation reports
      a change whenever either party's committed stake was different. */
  lemma TransferReachesCommitted(s: Index, from: Address, to: Address, ctx: Ledger)
    requires WellFormed(ctx)
    requires AllRegistered(ctx, s.pending)
    requires Lookup(ctx, from).Some? && Lookup(ctx, to).Some?
    ensures var e := EndBlocker(OnTransfer(s, Some(from), Some(to)), ctx);
      && e.Some?
      && var r := Reconcile(e.value);
      && Get(GetTotalStakes(r.index), Lookup(ctx, from).value) == ctx.stake(from)
      && Get(GetTotalStakes(r.index), Lookup(ctx, to).value) == ctx.stake(to)
      && (Get(s.committed, Lookup(ctx, from).value) != ctx.stake(from) ==> r.changed)
      && (Get(s.committed, Lookup(ctx, to).value) != ctx.stake(to) ==> r.changed)
  {
  }
}
