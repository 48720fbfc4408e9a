/**
 * Orphans: fills in the table that still carry their pending hash although no job will settle them
 * or undo them. How they arise, and that they stay, over every run.
 */
module Orphans {
  import opened Wrappers
  import opened Matching
  import opened Ledger
  import opened LedgerFacts
  import opened Settlement
  import opened Steps
  import opened Invariant
  import opened SettlementTheorems

  /** A live fill that no active job and no fast-path settlement answers for, and the matcher is done with. */
  predicate Orphan(v: View, live: bool, fast: bool) {
    && live && v.inflight.None?
    && (v.job.Some? ==> !Active(v.job.value) && !(fast && v.job.value.status == Confirmed))
  }

  ghost predicate OrphanIn(s: Sys, k: FillKey) { Orphan(Look(s, k), Live(s.db.fills, k), FastPath(s.db.orders, k)) }

  predicate HasActiveJob(v: View) { v.job.Some? && Active(v.job.value) }

  /** The steps that orphan a live fill. */
  predicate Orphans(v: View, a: Action, k: FillKey, fast: bool) {
    match a
    // the matcher dies between persisting and settling
    case MatcherCrash => v.inflight.Some? && !HasActiveJob(v)
    // the settlement is queued onto a job that is finished
    case Settle(answer) => v.inflight.Some? && answer.Accepted? && !fast && v.job.Some? && !HasActiveJob(v)
    // sending fails
    case FailSent => !v.sender.Idle? && HasActiveJob(v) && v.inflight.None?
    case RouteFail(j) => j == k && HasActiveJob(v) && v.inflight.None?
    // the reconciler dies after confirming and before stamping
    case CrashInConfirm(j) => j == k && HasActiveJob(v) && v.inflight.None?
    case _ => false
  }

  lemma ReconcilerViewOrphaned(v: View, a: Action, k: FillKey, live: bool, fast: bool, persisted: Option<Match>)
    requires ByReading(a) || BySender(a)
    requires EnabledAt(v, a, k) && ViewKept(v, k, live, fast) && !Orphan(v, live, fast)
    requires persisted.Some? ==> a.PersistNext?
    ensures Orphan(After(v, a, k, persisted), LiveAfter(v, a, k, live, persisted), fast)
       <==> live && Orphans(v, a, k, fast)
  {
  }

  lemma OtherViewOrphaned(v: View, a: Action, k: FillKey, live: bool, fast: bool, persisted: Option<Match>)
    requires !ByReading(a) && !BySender(a)
    requires EnabledAt(v, a, k) && ViewKept(v, k, live, fast) && !Orphan(v, live, fast)
    requires persisted.Some? ==> a.PersistNext?
    ensures Orphan(After(v, a, k, persisted), LiveAfter(v, a, k, live, persisted), fast)
       <==> live && Orphans(v, a, k, fast)
  {
  }

  lemma ViewOrphaned(v: View, a: Action, k: FillKey, live: bool, fast: bool, persisted: Option<Match>)
    requires EnabledAt(v, a, k) && ViewKept(v, k, live, fast) && !Orphan(v, live, fast)
    requires persisted.Some? ==> a.PersistNext?
    ensures Orphan(After(v, a, k, persisted), LiveAfter(v, a, k, live, persisted), fast)
       <==> live && Orphans(v, a, k, fast)
  {
    if ByReading(a) || BySender(a) {
      ReconcilerViewOrphaned(v, a, k, live, fast, persisted);
    } else {
      OtherViewOrphaned(v, a, k, live, fast, persisted);
    }
  }

  lemma LivePlaced(s: Sys, k: FillKey)
    requires TablesKept(s) && Live(s.db.fills, k)
    ensures Placed(s.db.orders, k)
  {
    var f := s.db.fills[IndexOf(s.db.fills, k)];
    assert f in s.db.fills && FillOk(s.db.orders, f);
  }

  /**
   * A live fill is orphaned exactly when the matcher dies before settling it, when its settlement
   * is queued onto a finished job, when sending it fails in the reconciler or in the route, or when
   * the reconciler dies between confirming the job and stamping the fill.
   */
  lemma OrphanedIff(s: Sys, a: Action, k: FillKey)
    requires Kept(s) && Enabled(s, a) && Live(s.db.fills, k) && !OrphanIn(s, k)
    ensures OrphanIn(Apply(s, a), k) <==> Orphans(Look(s, k), a, k, FastPath(s.db.orders, k))
  {
    LivePlaced(s, k);
    StepFollows(s, a, k);
    ViewOrphaned(Look(s, k), a, k, Live(s.db.fills, k), FastPath(s.db.orders, k), Persisted(s, a, k));
  }

  /** A fill is never an orphan from the start. */
  lemma NewFill(s: Sys, a: Action, k: FillKey)
    requires Kept(s) && Enabled(s, a) && !Live(s.db.fills, k)
    ensures !OrphanIn(Apply(s, a), k)
  {
    StepFollows(s, a, k);
  }

  ghost predicate SomeStepOrphans(s: Sys, actions: seq<Action>, k: FillKey)
    requires Feasible(s, actions)
    decreases |actions|
  {
    actions != [] &&
    ((Live(s.db.fills, k) && Orphans(Look(s, k), actions[0], k, FastPath(s.db.orders, k)))
     || SomeStepOrphans(Apply(s, actions[0]), actions[1..], k))
  }

  /** Over every run there is no other way to an orphan. */
  lemma {:induction false} OrphansOverEveryRun(s: Sys, actions: seq<Action>, k: FillKey)
    requires Kept(s) && Feasible(s, actions) && !OrphanIn(s, k) && OrphanIn(Run(s, actions), k)
    ensures SomeStepOrphans(s, actions, k)
    decreases |actions|
  {
    if actions != [] {
      var a := actions[0];
      StepKept(s, a);
      if Live(s.db.fills, k) { OrphanedIff(s, a, k); } else { NewFill(s, a, k); }
      if !OrphanIn(Apply(s, a), k) { OrphansOverEveryRun(Apply(s, a), actions[1..], k); }
    }
  }

  lemma ViewOrphanStays(v: View, a: Action, k: FillKey, live: bool, fast: bool)
    requires EnabledAt(v, a, k) && ViewKept(v, k, live, fast) && Orphan(v, live, fast) && v.row.None?
    ensures var w := After(v, a, k, None);
      Orphan(w, LiveAfter(v, a, k, live, None), fast) && w.row.None?
  {
  }

  lemma OrphanStep(s: Sys, a: Action, k: FillKey)
    requires Kept(s) && Enabled(s, a) && OrphanIn(s, k) && k !in s.read
    ensures OrphanIn(Apply(s, a), k) && k !in Apply(s, a).read
  {
    LivePlaced(s, k);
    StepFollows(s, a, k);
    ViewOrphanStays(Look(s, k), a, k, Live(s.db.fills, k), FastPath(s.db.orders, k));
    assert Look(Apply(s, a), k).row.None?;
  }

  /** An orphan the reconciler has no row of is neither settled nor undone by any run. */
  lemma {:induction false} OrphanForever(s: Sys, actions: seq<Action>, k: FillKey)
    requires Kept(s) && Feasible(s, actions) && OrphanIn(s, k) && k !in s.read
    ensures OrphanIn(Run(s, actions), k)
    decreases |actions|
  {
    if actions != [] {
      StepKept(s, actions[0]);
      OrphanStep(s, actions[0], k);
      OrphanForever(Apply(s, actions[0]), actions[1..], k);
    }
  }

  /** Where no rollback goes astray, it fills both its orders for good. */
  lemma OrphanKeepsOrdersFilled(base: map<nat, int>, s: Sys, actions: seq<Action>, k: FillKey)
    requires Inv(base, s) && Feasible(s, actions) && OrderlyRun(s, actions) && OrphanIn(s, k) && k !in s.read
    ensures var t := Run(s, actions);
      && OrphanIn(t, k)
      && k.maker in t.db.orders && t.db.orders[k.maker].order.filledSize >= k.fillSize > 0
      && k.taker in t.db.orders && t.db.orders[k.taker].order.filledSize >= k.fillSize
  {
    OrphanForever(s, actions, k);
    RunInv(base, s, actions);
    LiveFill(Run(s, actions).db, k);
  }
}
