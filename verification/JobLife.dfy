/**
 * The life of a settlement job over every run: how its status moves, when its hash is overwritten
 * and when it is sent twice, and when nobody will touch it again. No run is excluded.
 */
module JobLife {
  import opened Wrappers
  import opened Matching
  import opened Ledger
  import opened LedgerFacts
  import opened Settlement
  import opened Steps
  import opened Invariant
  import opened SettlementTheorems

  // ----- statuses -----

  function Rank(status: Status): nat {
    match status case Queued => 0 case Submitted => 1 case _ => 2
  }

  /** The step takes the job out of a terminal status. */
  predicate LeavesTerminal(v: View, a: Action, k: FillKey) {
    match a
    case Settle(answer) =>
      && v.inflight.Some?
      && if answer.Rejected? then StatusIs(v.job, Confirmed)
         else StatusIs(v.job, Failed) && Signed(v.inflight.value.maker) && Signed(v.inflight.value.taker)
    case RouteFail(j) => j == k && StatusIs(v.job, Confirmed)
    case FailSent => !v.sender.Idle? && StatusIs(v.job, Confirmed)
    case ConfirmSent(_) => !v.sender.Idle? && StatusIs(v.job, Failed)
    case CrashInConfirm(j) => j == k && !v.sender.Idle? && StatusIs(v.job, Failed)
    case _ => false
  }

  lemma ReadingViewTerminal(v: View, a: Action, k: FillKey, live: bool, fast: bool, persisted: Option<Match>)
    requires ByReading(a)
    requires EnabledAt(v, a, k) && ViewKept(v, k, live, fast) && v.job.Some? && !Active(v.job.value)
    ensures var job' := After(v, a, k, persisted).job;
      && job'.Some? && !Active(job'.value)
      && (job'.value.status != v.job.value.status <==> LeavesTerminal(v, a, k))
  {
  }

  lemma SenderViewTerminal(v: View, a: Action, k: FillKey, live: bool, fast: bool, persisted: Option<Match>)
    requires BySender(a)
    requires EnabledAt(v, a, k) && ViewKept(v, k, live, fast) && v.job.Some? && !Active(v.job.value)
    ensures var job' := After(v, a, k, persisted).job;
      && job'.Some? && !Active(job'.value)
      && (job'.value.status != v.job.value.status <==> LeavesTerminal(v, a, k))
  {
  }

  lemma OtherViewTerminal(v: View, a: Action, k: FillKey, live: bool, fast: bool, persisted: Option<Match>)
    requires !ByReading(a) && !BySender(a)
    requires EnabledAt(v, a, k) && ViewKept(v, k, live, fast) && v.job.Some? && !Active(v.job.value)
    ensures var job' := After(v, a, k, persisted).job;
      && job'.Some? && !Active(job'.value)
      && (job'.value.status != v.job.value.status <==> LeavesTerminal(v, a, k))
  {
  }

  lemma ViewTerminal(v: View, a: Action, k: FillKey, live: bool, fast: bool, persisted: Option<Match>)
    requires EnabledAt(v, a, k) && ViewKept(v, k, live, fast) && v.job.Some? && !Active(v.job.value)
    ensures var job' := After(v, a, k, persisted).job;
      && job'.Some? && !Active(job'.value)
      && (job'.value.status != v.job.value.status <==> LeavesTerminal(v, a, k))
  {
    if ByReading(a) {
      ReadingViewTerminal(v, a, k, live, fast, persisted);
    } else if BySender(a) {
      SenderViewTerminal(v, a, k, live, fast, persisted);
    } else {
      OtherViewTerminal(v, a, k, live, fast, persisted);
    }
  }

  /**
   * A terminal status is meant to be final. It changes exactly when the matcher settles the same
   * match again and gets the opposite outcome, or when a process that still holds the job writes
   * its own outcome over it.
   */
  lemma TerminalLeftIff(s: Sys, a: Action, k: FillKey)
    requires Kept(s) && Enabled(s, a) && k in s.db.jobs && !Active(s.db.jobs[k])
    ensures var t := Apply(s, a);
      && k in t.db.jobs && !Active(t.db.jobs[k])
      && (t.db.jobs[k].status != s.db.jobs[k].status <==> LeavesTerminal(Look(s, k), a, k))
  {
    StepFollows(s, a, k);
    ViewTerminal(Look(s, k), a, k, Live(s.db.fills, k), FastPath(s.db.orders, k), Persisted(s, a, k));
    assert Look(Apply(s, a), k).job.Some?;
  }

  lemma ReadingViewRank(v: View, a: Action, k: FillKey, live: bool, fast: bool, persisted: Option<Match>)
    requires ByReading(a)
    requires EnabledAt(v, a, k) && ViewKept(v, k, live, fast) && v.job.Some?
    ensures var job' := After(v, a, k, persisted).job;
      && job'.Some? && Rank(v.job.value.status) <= Rank(job'.value.status)
      && (v.job.value.status == Queued ==> job'.value.status != Confirmed)
  {
  }

  lemma SenderViewRank(v: View, a: Action, k: FillKey, live: bool, fast: bool, persisted: Option<Match>)
    requires BySender(a)
    requires EnabledAt(v, a, k) && ViewKept(v, k, live, fast) && v.job.Some?
    ensures var job' := After(v, a, k, persisted).job;
      && job'.Some? && Rank(v.job.value.status) <= Rank(job'.value.status)
      && (v.job.value.status == Queued ==> job'.value.status != Confirmed)
  {
  }

  lemma OtherViewRank(v: View, a: Action, k: FillKey, live: bool, fast: bool, persisted: Option<Match>)
    requires !ByReading(a) && !BySender(a)
    requires EnabledAt(v, a, k) && ViewKept(v, k, live, fast) && v.job.Some?
    ensures var job' := After(v, a, k, persisted).job;
      && job'.Some? && Rank(v.job.value.status) <= Rank(job'.value.status)
      && (v.job.value.status == Queued ==> job'.value.status != Confirmed)
  {
  }

  lemma ViewRank(v: View, a: Action, k: FillKey, live: bool, fast: bool, persisted: Option<Match>)
    requires EnabledAt(v, a, k) && ViewKept(v, k, live, fast) && v.job.Some?
    ensures var job' := After(v, a, k, persisted).job;
      && job'.Some? && Rank(v.job.value.status) <= Rank(job'.value.status)
      && (v.job.value.status == Queued ==> job'.value.status != Confirmed)
  {
    if ByReading(a) {
      ReadingViewRank(v, a, k, live, fast, persisted);
    } else if BySender(a) {
      SenderViewRank(v, a, k, live, fast, persisted);
    } else {
      OtherViewRank(v, a, k, live, fast, persisted);
    }
  }

  /** A job moves QUEUED, SUBMITTED, terminal and never back; from QUEUED it is not confirmed directly. */
  lemma StatusAdvances(s: Sys, a: Action, k: FillKey)
    requires Kept(s) && Enabled(s, a) && k in s.db.jobs
    ensures var t := Apply(s, a);
      && k in t.db.jobs && Rank(s.db.jobs[k].status) <= Rank(t.db.jobs[k].status)
      && (s.db.jobs[k].status == Queued ==> t.db.jobs[k].status != Confirmed)
  {
    StepFollows(s, a, k);
    ViewRank(Look(s, k), a, k, Live(s.db.fills, k), FastPath(s.db.orders, k), Persisted(s, a, k));
    assert Look(Apply(s, a), k).job.Some?;
  }

  // ----- hashes -----

  /** Some process still holds the job. */
  predicate Held(v: View) { v.stage.Some? || !v.sender.Idle? }

  /** A process is yet to record a hash other than the one on record. */
  predicate RouteRecording(v: View) {
    && v.stage.Some?
    && (v.stage.value.RouteClaimed? || (v.job.Some? && v.job.value.submittedHash != Some(v.stage.value.hash)))
  }

  predicate SenderRecording(v: View) {
    v.sender.Claimed? || (v.sender.Sent? && v.job.Some? && v.job.value.submittedHash != Some(v.sender.hash))
  }

  predicate Recording(v: View) { RouteRecording(v) || SenderRecording(v) }

  lemma ReadingViewHash(v: View, a: Action, k: FillKey, live: bool, fast: bool, persisted: Option<Match>)
    requires ByReading(a)
    requires EnabledAt(v, a, k) && ViewKept(v, k, live, fast) && v.job.Some? && v.job.value.submittedHash.Some?
    ensures var w := After(v, a, k, persisted);
      && w.job.Some? && w.job.value.submittedHash.Some?
      && (!Recording(v) ==> w.job.value.submittedHash == v.job.value.submittedHash && !Recording(w))
  {
  }

  lemma SenderViewHash(v: View, a: Action, k: FillKey, live: bool, fast: bool, persisted: Option<Match>)
    requires BySender(a)
    requires EnabledAt(v, a, k) && ViewKept(v, k, live, fast) && v.job.Some? && v.job.value.submittedHash.Some?
    ensures var w := After(v, a, k, persisted);
      && w.job.Some? && w.job.value.submittedHash.Some?
      && (!Recording(v) ==> w.job.value.submittedHash == v.job.value.submittedHash && !Recording(w))
  {
  }

  lemma OtherViewHash(v: View, a: Action, k: FillKey, live: bool, fast: bool, persisted: Option<Match>)
    requires !ByReading(a) && !BySender(a)
    requires EnabledAt(v, a, k) && ViewKept(v, k, live, fast) && v.job.Some? && v.job.value.submittedHash.Some?
    ensures var w := After(v, a, k, persisted);
      && w.job.Some? && w.job.value.submittedHash.Some?
      && (!Recording(v) ==> w.job.value.submittedHash == v.job.value.submittedHash && !Recording(w))
  {
  }

  lemma ViewHash(v: View, a: Action, k: FillKey, live: bool, fast: bool, persisted: Option<Match>)
    requires EnabledAt(v, a, k) && ViewKept(v, k, live, fast) && v.job.Some? && v.job.value.submittedHash.Some?
    ensures var w := After(v, a, k, persisted);
      && w.job.Some? && w.job.value.submittedHash.Some?
      && (!Recording(v) ==> w.job.value.submittedHash == v.job.value.submittedHash && !Recording(w))
  {
    if ByReading(a) {
      ReadingViewHash(v, a, k, live, fast, persisted);
    } else if BySender(a) {
      SenderViewHash(v, a, k, live, fast, persisted);
    } else {
      OtherViewHash(v, a, k, live, fast, persisted);
    }
  }

  /** A recorded hash changes only by the hand of a process that is still recording. */
  lemma HashStep(s: Sys, a: Action, k: FillKey)
    requires Kept(s) && Enabled(s, a) && k in s.db.jobs && s.db.jobs[k].submittedHash.Some?
    ensures var t := Apply(s, a);
      && k in t.db.jobs && t.db.jobs[k].submittedHash.Some?
      && (!Recording(Look(s, k)) ==>
           t.db.jobs[k].submittedHash == s.db.jobs[k].submittedHash && !Recording(Look(t, k)))
  {
    StepFollows(s, a, k);
    ViewHash(Look(s, k), a, k, Live(s.db.fills, k), FastPath(s.db.orders, k), Persisted(s, a, k));
    assert Look(Apply(s, a), k).job.Some?;
  }

  /** The run settles no match with the key of job k. */
  ghost predicate NeverResettled(s: Sys, actions: seq<Action>, k: FillKey)
    requires Feasible(s, actions)
    decreases |actions|
  {
    actions == [] ||
    ((actions[0].Settle? ==> !InflightIs(s.inflight, k)) && NeverResettled(Apply(s, actions[0]), actions[1..], k))
  }

  lemma ViewUnheld(v: View, a: Action, k: FillKey, persisted: Option<Match>)
    requires EnabledAt(v, a, k) && v.job.Some? && !Active(v.job.value) && !Held(v)
    ensures !Held(After(v, a, k, persisted))
  {
  }

  lemma UnheldStep(s: Sys, a: Action, k: FillKey)
    requires Kept(s) && Enabled(s, a) && k in s.db.jobs && !Active(s.db.jobs[k]) && !Held(Look(s, k))
    ensures !Held(Look(Apply(s, a), k))
  {
    StepFollows(s, a, k);
    ViewUnheld(Look(s, k), a, k, Persisted(s, a, k));
  }

  /**
   * Over every run: a job only advances; its recorded hash is permanent once nobody is recording
   * another; and its terminal status is final once nobody holds it, unless the same match is settled
   * again.
   */
  lemma {:induction false} JobsOverEveryRun(s: Sys, actions: seq<Action>, k: FillKey)
    requires Kept(s) && Feasible(s, actions) && k in s.db.jobs
    ensures var t := Run(s, actions);
      && k in t.db.jobs && Rank(s.db.jobs[k].status) <= Rank(t.db.jobs[k].status)
      && (s.db.jobs[k].submittedHash.Some? ==> t.db.jobs[k].submittedHash.Some?)
      && (s.db.jobs[k].submittedHash.Some? && !Recording(Look(s, k)) ==>
           t.db.jobs[k].submittedHash == s.db.jobs[k].submittedHash)
      && (!Active(s.db.jobs[k]) && !Held(Look(s, k)) && NeverResettled(s, actions, k) ==>
           t.db.jobs[k].status == s.db.jobs[k].status)
    decreases |actions|
  {
    if actions != [] {
      var a := actions[0];
      StepKept(s, a);
      StatusAdvances(s, a, k);
      if s.db.jobs[k].submittedHash.Some? { HashStep(s, a, k); }
      if !Active(s.db.jobs[k]) { TerminalLeftIff(s, a, k); }
      if !Active(s.db.jobs[k]) && !Held(Look(s, k)) { UnheldStep(s, a, k); }
      JobsOverEveryRun(Apply(s, a), actions[1..], k);
    }
  }

  lemma ViewFinal(v: View, a: Action, k: FillKey, live: bool, persisted: Option<Match>)
    requires EnabledAt(v, a, k) && ViewKept(v, k, live, true) && v.job.Some? && v.job.value.submittedHash.Some?
    ensures After(v, a, k, persisted).job == v.job && LiveAfter(v, a, k, live, persisted)
  {
  }

  /** A trade settled on the fast path is final over every run. */
  lemma {:induction false} FastPathFinal(s: Sys, actions: seq<Action>, k: FillKey)
    requires Kept(s) && Feasible(s, actions)
    requires k in s.db.jobs && FastPath(s.db.orders, k) && s.db.jobs[k].submittedHash.Some?
    ensures var t := Run(s, actions);
      && s.db.jobs[k].status == Confirmed && k in t.db.jobs && t.db.jobs[k] == s.db.jobs[k] && Live(t.db.fills, k)
    decreases |actions|
  {
    assert KeyKept(s, k);
    assert Look(s, k).job.Some?;
    if actions != [] {
      var a := actions[0];
      StepKept(s, a);
      StepFollows(s, a, k);
      ViewFinal(Look(s, k), a, k, Live(s.db.fills, k), Persisted(s, a, k));
      assert Look(Apply(s, a), k).job.Some?;
      FastPathFinal(Apply(s, a), actions[1..], k);
    }
  }

  // ----- two senders -----

  /** Over every run, each of the two senders sends a job at most once, and both only a job that is contested. */
  lemma SendsOverEveryRun(s: Sys, actions: seq<Action>, k: FillKey)
    requires Initial(s) && Feasible(s, actions)
    ensures var t := Run(s, actions);
      t.sends[k] <= 1 && t.routeSends[k] <= 1 && (t.sends[k] + t.routeSends[k] == 2 ==> k in t.contested)
  {
    EveryRunKept(s, actions);
    assert KeyKept(Run(s, actions), k);
  }

  /** The run ends with job k sent by the reconciler and by the route. */
  ghost predicate SentByBoth(s: Sys, actions: seq<Action>, k: FillKey) {
    Feasible(s, actions) && Run(s, actions).sends[k] > 0 && Run(s, actions).routeSends[k] > 0
  }

  lemma ViewRouteSends(v: View, a: Action, k: FillKey, persisted: Option<Match>)
    requires EnabledAt(v, a, k) && v.job.Some? && v.job.value.status != Queued && v.stage.None?
    ensures After(v, a, k, persisted).stage.None? && After(v, a, k, persisted).routeSends == v.routeSends
  {
  }

  /** A job that has left the queue and that no request holds is never sent by the route any more. */
  lemma {:induction false} NoLateRoute(s: Sys, actions: seq<Action>, k: FillKey)
    requires Kept(s) && Feasible(s, actions)
    requires k in s.db.jobs && s.db.jobs[k].status != Queued && k !in s.route
    ensures Run(s, actions).routeSends[k] == s.routeSends[k]
    decreases |actions|
  {
    if actions != [] {
      var a := actions[0];
      StepKept(s, a);
      StatusAdvances(s, a, k);
      StepFollows(s, a, k);
      ViewRouteSends(Look(s, k), a, k, Persisted(s, a, k));
      assert Look(Apply(s, a), k).stage.None?;
      NoLateRoute(Apply(s, a), actions[1..], k);
    }
  }

  lemma BothSend(s: Sys, k: FillKey) returns (actions: seq<Action>)
    requires s.sender == Claimed(k) && (s.routeSends[k] > 0 || (k in s.route && s.route[k].RouteClaimed?))
    ensures SentByBoth(s, actions, k)
  {
    if s.routeSends[k] > 0 {
      actions := [Send("")];
      RunOne(s, Send(""));
    } else {
      actions := [RouteSend(k, ""), Send("")];
      RunTwo(s, RouteSend(k, ""), Send(""));
    }
  }

  /**
   * The claim is there to prevent a job from being sent twice. When the reconciler claims a job,
   * a double send can follow exactly if the route has claimed the job too: it holds it still, or
   * has sent it. A job that is still QUEUED is safe.
   */
  lemma DoubleSendIff(s: Sys, k: FillKey)
    requires Kept(s) && Enabled(s, Claim(k)) && Claimable(s.db, k)
    ensures (exists actions :: SentByBoth(Apply(s, Claim(k)), actions, k)) <==> k in s.route || s.routeSends[k] > 0
    ensures JobIs(s.db, k, Queued) ==> k !in s.route && s.routeSends[k] == 0
  {
    var t := Apply(s, Claim(k));
    ClaimedView(s, k);
    if k in s.route || s.routeSends[k] > 0 {
      var actions := BothSend(t, k);
    } else {
      StepKept(s, Claim(k));
      forall actions ensures !SentByBoth(t, actions, k) {
        if Feasible(t, actions) { NoLateRoute(t, actions, k); }
      }
    }
  }

  lemma ClaimedView(s: Sys, k: FillKey)
    requires Kept(s) && Enabled(s, Claim(k)) && Claimable(s.db, k)
    ensures var t := Apply(s, Claim(k));
      && t.sender == Claimed(k) && t.route == s.route && t.routeSends == s.routeSends && JobIs(t.db, k, Submitted)
    ensures k in s.route ==> s.routeSends[k] == (if s.route[k].RouteClaimed? then 0 else 1)
    ensures JobIs(s.db, k, Queued) ==> k !in s.route && s.routeSends[k] == 0
  {
    assert KeyKept(s, k);
    assert k in s.route ==> Look(s, k).stage.Some?;
    assert Look(s, k).job.Some?;
  }

  /** The run overwrites the hash on record for job k. */
  ghost predicate Overwrites(s: Sys, actions: seq<Action>, k: FillKey)
    requires k in s.db.jobs
  {
    && Feasible(s, actions)
    && k in Run(s, actions).db.jobs && Run(s, actions).db.jobs[k].submittedHash != s.db.jobs[k].submittedHash
  }

  lemma RouteOverwrites(s: Sys, k: FillKey) returns (actions: seq<Action>)
    requires k in s.db.jobs && s.db.jobs[k].submittedHash.Some? && k in s.route
    requires s.route[k].RouteClaimed? || s.db.jobs[k].submittedHash != Some(s.route[k].hash)
    ensures Overwrites(s, actions, k)
  {
    if s.route[k].RouteClaimed? {
      var hash := s.db.jobs[k].submittedHash.value + "'";
      actions := [RouteSend(k, hash), RouteRecord(k)];
      RunTwo(s, RouteSend(k, hash), RouteRecord(k));
      assert Run(s, actions).db.jobs[k].submittedHash == Some(hash);
    } else {
      actions := [RouteRecord(k)];
      RunOne(s, RouteRecord(k));
    }
  }

  lemma ReconcilerOverwrites(s: Sys, k: FillKey) returns (actions: seq<Action>)
    requires k in s.db.jobs && s.db.jobs[k].submittedHash.Some? && Busy(s.sender, k)
    requires s.sender.Claimed? || (s.sender.Sent? && s.db.jobs[k].submittedHash != Some(s.sender.hash))
    ensures Overwrites(s, actions, k)
  {
    if s.sender.Claimed? {
      var hash := s.db.jobs[k].submittedHash.value + "'";
      actions := [Send(hash), RecordSent];
      RunTwo(s, Send(hash), RecordSent);
      assert Run(s, actions).db.jobs[k].submittedHash == Some(hash);
    } else {
      actions := [RecordSent];
      RunOne(s, RecordSent);
    }
  }

  /** A hash on record can be overwritten exactly while some process is yet to record another one. */
  lemma OverwrittenIff(s: Sys, k: FillKey)
    requires Kept(s) && k in s.db.jobs && s.db.jobs[k].submittedHash.Some?
    ensures (exists actions :: Overwrites(s, actions, k)) <==> Recording(Look(s, k))
  {
    if RouteRecording(Look(s, k)) {
      var actions := RouteOverwrites(s, k);
    } else if SenderRecording(Look(s, k)) {
      var actions := ReconcilerOverwrites(s, k);
    } else {
      forall actions ensures !Overwrites(s, actions, k) {
        if Feasible(s, actions) { JobsOverEveryRun(s, actions, k); }
      }
    }
  }

  /**
   * All of this needs a contested job: one that the reconciler claimed although it was SUBMITTED.
   * Any other is never sent twice; and where no rollback went astray its hash is never overwritten,
   * and whoever holds it finds it SUBMITTED.
   */
  lemma OnlyContested(base: map<nat, int>, s: Sys, k: FillKey)
    requires Inv(base, s) && k in s.db.jobs && k !in s.contested
    ensures s.sends[k] == 0 || s.routeSends[k] == 0
    ensures s.db.jobs[k].submittedHash.Some? ==> !Recording(Look(s, k))
    ensures Held(Look(s, k)) ==> s.db.jobs[k].status == Submitted
  {
    assert KeyKept(s, k) && KeyLive(s, k);
  }

  /** A job becomes contested exactly by a claim that finds it SUBMITTED, with a row read while it was QUEUED. */
  lemma ContestedIff(s: Sys, a: Action, k: FillKey)
    requires Kept(s) && Enabled(s, a) && k !in s.contested
    ensures k in Apply(s, a).contested <==> a == Claim(k) && k in s.db.jobs && Unrecorded(s.db.jobs[k])
    ensures k in Apply(s, a).contested ==> s.read[k].status == Queued && s.sends[k] == 0
  {
    StepFollows(s, a, k);
    ViewContested(Look(s, k), a, k, Live(s.db.fills, k), FastPath(s.db.orders, k), Persisted(s, a, k));
    assert Look(Apply(s, a), k).contested == (k in Apply(s, a).contested);
  }

  lemma ViewContested(v: View, a: Action, k: FillKey, live: bool, fast: bool, persisted: Option<Match>)
    requires EnabledAt(v, a, k) && ViewKept(v, k, live, fast) && !v.contested
    ensures After(v, a, k, persisted).contested <==> a == Claim(k) && v.job.Some? && Unrecorded(v.job.value)
    ensures After(v, a, k, persisted).contested ==> v.row.Some? && v.row.value.status == Queued && v.sends == 0
  {
  }

  // ----- jobs nobody will touch again -----

  /** Someone is still going to look at the job for more than its hash. */
  predicate Attended(v: View) { Held(v) || StatusIs(v.row, Queued) }

  /** SUBMITTED, no transaction known, and nobody who would send it. */
  predicate Stuck(v: View) { v.job.Some? && Unrecorded(v.job.value) && !Attended(v) }

  lemma ViewStuck(v: View, a: Action, k: FillKey, live: bool, fast: bool, persisted: Option<Match>)
    requires EnabledAt(v, a, k) && ViewKept(v, k, live, fast) && Stuck(v) && live && v.inflight.None?
    requires persisted.None?
    ensures var w := After(v, a, k, persisted);
      Stuck(w) && w.job == v.job && w.inflight.None? && LiveAfter(v, a, k, live, persisted)
  {
  }

  lemma StuckStep(s: Sys, a: Action, k: FillKey)
    requires Kept(s) && Enabled(s, a) && Stuck(Look(s, k)) && Live(s.db.fills, k) && !InflightIs(s.inflight, k)
    ensures var t := Apply(s, a);
      && Stuck(Look(t, k)) && t.db.jobs[k] == s.db.jobs[k] && Live(t.db.fills, k) && !InflightIs(t.inflight, k)
  {
    StepFollows(s, a, k);
    ViewStuck(Look(s, k), a, k, Live(s.db.fills, k), FastPath(s.db.orders, k), Persisted(s, a, k));
    assert Look(Apply(s, a), k).job.Some? && Look(Apply(s, a), k).inflight.None?;
  }

  /** A stuck job stays SUBMITTED over every run, and its fill live. */
  lemma {:induction false} StuckForever(s: Sys, actions: seq<Action>, k: FillKey)
    requires Kept(s) && Feasible(s, actions) && Stuck(Look(s, k)) && Live(s.db.fills, k) && !InflightIs(s.inflight, k)
    ensures var t := Run(s, actions);
      Stuck(Look(t, k)) && t.db.jobs[k] == s.db.jobs[k] && Live(t.db.fills, k)
    decreases |actions|
  {
    if actions != [] {
      StepKept(s, actions[0]);
      StuckStep(s, actions[0], k);
      StuckForever(Apply(s, actions[0]), actions[1..], k);
    }
  }

  /** Where no rollback goes astray, it also fills both its orders for good. */
  lemma StuckKeepsOrdersFilled(base: map<nat, int>, s: Sys, actions: seq<Action>, k: FillKey)
    requires Inv(base, s) && Feasible(s, actions) && OrderlyRun(s, actions) && Stuck(Look(s, k))
    ensures var t := Run(s, actions);
      && Stuck(Look(t, k)) && t.db.jobs[k] == s.db.jobs[k] && Live(t.db.fills, k)
      && k.maker in t.db.orders && t.db.orders[k.maker].order.filledSize >= k.fillSize > 0
      && k.taker in t.db.orders && t.db.orders[k.taker].order.filledSize >= k.fillSize
  {
    assert KeyLive(s, k);
    StuckForever(s, actions, k);
    RunInv(base, s, actions);
    LiveFill(Run(s, actions).db, k);
  }

  /** The step lets go of the job, and nobody else attends to it. */
  predicate LetsGo(v: View, a: Action, k: FillKey) {
    match a
    case RouteDies(j) => j == k && v.sender.Idle? && !StatusIs(v.row, Queued)
    case ReconcilerCrash => v.stage.None?
    case LeaveJob => !v.sender.Idle? && v.stage.None?
    case ExpireStale(j) => j == k && v.stage.None?
    case CrashInRollback(_) => v.stage.None?
    case CrashInConfirm(_) => v.stage.None?
    case _ => false
  }

  lemma ReadingViewStuckIff(v: View, a: Action, k: FillKey, live: bool, fast: bool, persisted: Option<Match>)
    requires ByReading(a)
    requires EnabledAt(v, a, k) && ViewKept(v, k, live, fast) && v.job.Some? && !Stuck(v)
    ensures Stuck(After(v, a, k, persisted)) <==> Unrecorded(v.job.value) && LetsGo(v, a, k)
  {
  }

  lemma SenderViewStuckIff(v: View, a: Action, k: FillKey, live: bool, fast: bool, persisted: Option<Match>)
    requires BySender(a)
    requires EnabledAt(v, a, k) && ViewKept(v, k, live, fast) && v.job.Some? && !Stuck(v)
    ensures Stuck(After(v, a, k, persisted)) <==> Unrecorded(v.job.value) && LetsGo(v, a, k)
  {
  }

  lemma OtherViewStuckIff(v: View, a: Action, k: FillKey, live: bool, fast: bool, persisted: Option<Match>)
    requires !ByReading(a) && !BySender(a)
    requires EnabledAt(v, a, k) && ViewKept(v, k, live, fast) && v.job.Some? && !Stuck(v)
    ensures Stuck(After(v, a, k, persisted)) <==> Unrecorded(v.job.value) && LetsGo(v, a, k)
  {
  }

  lemma ViewStuckIff(v: View, a: Action, k: FillKey, live: bool, fast: bool, persisted: Option<Match>)
    requires EnabledAt(v, a, k) && ViewKept(v, k, live, fast) && v.job.Some? && !Stuck(v)
    ensures Stuck(After(v, a, k, persisted)) <==> Unrecorded(v.job.value) && LetsGo(v, a, k)
  {
    if ByReading(a) {
      ReadingViewStuckIff(v, a, k, live, fast, persisted);
    } else if BySender(a) {
      SenderViewStuckIff(v, a, k, live, fast, persisted);
    } else {
      OtherViewStuckIff(v, a, k, live, fast, persisted);
    }
  }

  /**
   * A job gets stuck exactly when the one process that attends to it lets go between the claim and
   * the recording of the hash, or drops a row it read before someone else claimed the job.
   */
  lemma StuckIff(s: Sys, a: Action, k: FillKey)
    requires Kept(s) && Enabled(s, a) && k in s.db.jobs && !Stuck(Look(s, k))
    ensures Stuck(Look(Apply(s, a), k)) <==> Unrecorded(s.db.jobs[k]) && LetsGo(Look(s, k), a, k)
  {
    StepFollows(s, a, k);
    ViewStuckIff(Look(s, k), a, k, Live(s.db.fills, k), FastPath(s.db.orders, k), Persisted(s, a, k));
  }
}
