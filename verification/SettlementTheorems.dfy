/** What holds over every run of the interleaved processes, and the methods of class `Database` as runs. */
module SettlementTheorems {
  import opened Matching
  import opened Ledger
  import opened LedgerFacts
  import opened Settlement
  import opened Steps
  import opened Invariant

  ghost function Base(s: Sys): map<nat, int> {
    map id | id in s.db.markets :: s.db.markets[id].volume
  }

  lemma InitialInv(s: Sys)
    requires Initial(s)
    ensures Inv(Base(s), s)
  {
  }

  lemma {:induction false} RunKept(s: Sys, actions: seq<Action>)
    requires Kept(s) && Feasible(s, actions)
    ensures Kept(Run(s, actions))
    decreases |actions|
  {
    if actions != [] {
      StepKept(s, actions[0]);
      RunKept(Apply(s, actions[0]), actions[1..]);
    }
  }

  /** Whatever every step keeps holds in every state that a run from an empty ledger reaches. */
  lemma EveryRunKept(s: Sys, actions: seq<Action>)
    requires Initial(s) && Feasible(s, actions)
    ensures Kept(Run(s, actions))
  {
    InitialInv(s);
    RunKept(s, actions);
  }

  lemma {:induction false} RunInv(base: map<nat, int>, s: Sys, actions: seq<Action>)
    requires Inv(base, s) && Feasible(s, actions) && OrderlyRun(s, actions)
    ensures Inv(base, Run(s, actions))
    decreases |actions|
  {
    if actions != [] {
      StepInv(base, s, actions[0]);
      RunInv(base, Apply(s, actions[0]), actions[1..]);
    }
  }

  // ----- the ledger over every run -----

  function CountPending(fills: seq<FillRow>, k: FillKey): nat {
    if fills == [] then 0 else (if fills[0].txHash == Pseudo(k) then 1 else 0) + CountPending(fills[1..], k)
  }

  lemma {:induction false} LiveOnce(fills: seq<FillRow>, k: FillKey)
    requires UniquePseudo(fills)
    ensures CountPending(fills, k) == if Live(fills, k) then 1 else 0
  {
    if fills != [] {
      LiveOnce(fills[1..], k);
      if i :| 0 <= i < |fills[1..]| && fills[1..][i].txHash == Pseudo(k) { assert fills[i + 1].txHash == Pseudo(k); }
      if i :| 0 <= i < |fills| && fills[i].txHash == Pseudo(k) { assert i > 0 ==> fills[1..][i - 1] == fills[i]; }
    }
  }

  /**
   * In every reachable state: an order is filled by exactly its live fills and never beyond its
   * size; a job that is still QUEUED or SUBMITTED has exactly one live fill under its pending hash;
   * a market's volume is what it started with, plus the floored notional of its live fills, plus
   * that of the fills the reconciler rolled back. `StepInvIff` says that only the steps excluded
   * here break this.
   */
  lemma LedgerOverEveryRun(s: Sys, actions: seq<Action>)
    requires Initial(s) && Feasible(s, actions) && OrderlyRun(s, actions)
    ensures var t := Run(s, actions);
      && (forall id :: id in t.db.orders ==>
           var o := t.db.orders[id].order; 0 <= o.filledSize == Touched(t.db.fills, id) <= o.size)
      && (forall k :: k in t.db.jobs && Active(t.db.jobs[k]) ==> CountPending(t.db.fills, k) == 1)
      && t.db.markets.Keys == s.db.markets.Keys
      && (forall id :: id in t.db.markets ==>
           t.db.markets[id].volume == s.db.markets[id].volume + VolumeOf(t.db.fills, id) + VolumeOf(t.leaked, id))
  {
    var t := Run(s, actions);
    InitialInv(s);
    RunInv(Base(s), s, actions);
    forall id | id in t.db.orders
      ensures var o := t.db.orders[id].order; 0 <= o.filledSize == Touched(t.db.fills, id) <= o.size
    {
      assert OrderOk(t.db.orders, t.db.fills, id);
    }
    forall k | k in t.db.jobs && Active(t.db.jobs[k]) ensures CountPending(t.db.fills, k) == 1 {
      assert KeyLive(t, k);
      LiveOnce(t.db.fills, k);
    }
  }

  // ----- every run, cut-off rollbacks and outdated rows included -----

  /** No tick of any run leaves a half-written fill: the next match is written completely or is there already. */
  lemma NoHalfWrittenFill(s: Sys, actions: seq<Action>)
    requires Initial(s) && Feasible(s, actions) && Run(s, actions).pending != []
    ensures var t := Run(s, actions);
      var m := t.pending[0];
      && Fits(t.db, m)
      && Persist(t.db, m) == if Live(t.db.fills, KeyOf(m)) then (t.db, false) else (Written(t.db, m), true)
  {
    EveryRunKept(s, actions);
    HeadFits(Run(s, actions));
    PersistComplete(Run(s, actions).db, Run(s, actions).pending[0]);
  }

  /** However often rollbacks are cut off and repeated, no order's filled size leaves 0..size. */
  lemma BoundedOverEveryRun(s: Sys, actions: seq<Action>)
    requires Kept(s) && Feasible(s, actions)
    ensures var t := Run(s, actions);
      forall id :: id in t.db.orders ==> 0 <= t.db.orders[id].order.filledSize <= t.db.orders[id].order.size
  {
    var t := Run(s, actions);
    RunKept(s, actions);
    forall id | id in t.db.orders ensures 0 <= t.db.orders[id].order.filledSize <= t.db.orders[id].order.size {
      assert InBounds(t.db.orders, id);
    }
  }

  // ----- the methods as runs -----

  lemma {:induction false} RunAppend(s: Sys, a: seq<Action>, b: seq<Action>)
    requires Feasible(s, a) && Feasible(Run(s, a), b)
    ensures Feasible(s, a + b) && Run(s, a + b) == Run(Run(s, a), b)
    ensures OrderlyRun(s, a) && OrderlyRun(Run(s, a), b) ==> OrderlyRun(s, a + b)
    decreases |a|
  {
    if a == [] {
      assert a + b == b;
    } else {
      assert (a + b)[1..] == a[1..] + b;
      RunAppend(Apply(s, a[0]), a[1..], b);
    }
  }

  lemma RunOne(s: Sys, a: Action)
    requires Enabled(s, a)
    ensures Feasible(s, [a]) && Run(s, [a]) == Apply(s, a) && (Orderly(s, a) ==> OrderlyRun(s, [a]))
  {
    assert [a][1..] == [];
  }

  lemma RunTwo(s: Sys, a: Action, b: Action)
    requires Enabled(s, a) && Orderly(s, a) && Enabled(Apply(s, a), b) && Orderly(Apply(s, a), b)
    ensures Feasible(s, [a, b]) && OrderlyRun(s, [a, b]) && Run(s, [a, b]) == Apply(Apply(s, a), b)
  {
    assert [a, b][1..] == [b];
    RunOne(Apply(s, a), b);
  }

  lemma RunThree(s: Sys, a: Action, b: Action, c: Action)
    requires Enabled(s, a) && Orderly(s, a)
    requires Enabled(Apply(s, a), b) && Orderly(Apply(s, a), b)
    requires Enabled(Apply(Apply(s, a), b), c) && Orderly(Apply(Apply(s, a), b), c)
    ensures Feasible(s, [a, b, c]) && OrderlyRun(s, [a, b, c]) && Run(s, [a, b, c]) == Apply(Apply(Apply(s, a), b), c)
  {
    assert [a, b, c][1..] == [b, c];
    RunTwo(Apply(s, a), b, c);
  }

  /** What `MatcherTick` does with one match, as actions. */
  function MatchActions(db: Db, m: Match, env: TickEnv, answer: Answer): seq<Action> {
    if !env.InBand(m.fillPrice) then [Skip]
    else if env.Poisoned(m) then
      (if env.sigValid(m.maker) then [] else [CancelOrder(m.maker.Id())])
      + (if env.sigValid(m.taker) then [] else [CancelOrder(m.taker.Id())]) + [Skip]
    else if !Persist(db, m).1 then [PersistNext]
    else if Execute(Persist(db, m).0, m, answer).1 then [PersistNext, Settle(answer)]
    else [PersistNext, Settle(answer), RollbackInflight]
  }

  lemma PersistIsRun(s: Sys, env: TickEnv, answer: Answer)
    requires s.pending != [] && s.inflight.None?
    requires env.InBand(s.pending[0].fillPrice) && !env.Poisoned(s.pending[0])
    ensures var m := s.pending[0];
      var actions := MatchActions(s.db, m, env, answer);
      && Feasible(s, actions) && OrderlyRun(s, actions)
      && Run(s, actions) == s.(db := Process(s.db, m, env, answer), pending := s.pending[1..])
  {
    var m := s.pending[0];
    if !Persist(s.db, m).1 {
      RunOne(s, PersistNext);
    } else if Execute(Persist(s.db, m).0, m, answer).1 {
      RunTwo(s, PersistNext, Settle(answer));
    } else {
      RunThree(s, PersistNext, Settle(answer), RollbackInflight);
    }
  }

  lemma MatchIsRun(s: Sys, env: TickEnv, answer: Answer)
    requires s.pending != [] && s.inflight.None?
    ensures var m := s.pending[0];
      var actions := MatchActions(s.db, m, env, answer);
      && Feasible(s, actions) && OrderlyRun(s, actions)
      && Run(s, actions) == s.(db := Process(s.db, m, env, answer), pending := s.pending[1..])
  {
    var m := s.pending[0];
    var actions := MatchActions(s.db, m, env, answer);
    if !env.InBand(m.fillPrice) {
      RunOne(s, Skip);
    } else if env.Poisoned(m) {
      var a, b := CancelOrder(m.maker.Id()), CancelOrder(m.taker.Id());
      if env.sigValid(m.maker) {
        RunTwo(s, b, Skip);
      } else if env.sigValid(m.taker) {
        RunTwo(s, a, Skip);
      } else {
        RunThree(s, a, b, Skip);
      }
    } else {
      PersistIsRun(s, env, answer);
    }
  }

  lemma {:induction false} MatchesAreRun(s: Sys, env: TickEnv, n: nat) returns (actions: seq<Action>)
    requires s.inflight.None? && n <= |s.pending|
    ensures Feasible(s, actions) && OrderlyRun(s, actions)
    ensures Run(s, actions) == s.(db := ProcessAll(s.db, s.pending[..n], env), pending := s.pending[n..])
  {
    if n == 0 {
      actions := [];
    } else {
      var before := MatchesAreRun(s, env, n - 1);
      var mid := Run(s, before);
      var m, answer := s.pending[n - 1], env.answer(n - 1);
      assert s.pending[..n][..n - 1] == s.pending[..n - 1];
      MatchIsRun(mid, env, answer);
      actions := before + MatchActions(mid.db, m, env, answer);
      RunAppend(s, before, MatchActions(mid.db, m, env, answer));
    }
  }

  /**
   * `Database.MatcherTick`, run without interruption on a freshly loaded book, is a run of the
   * matcher's actions, and so keeps the invariant whatever the oracle, the signatures and the chain say.
   */
  lemma TickKeepsInv(base: map<nat, int>, s: Sys, limits: seq<Order>, markets: seq<Order>, env: TickEnv)
    requires Inv(base, s) && s.pending == [] && s.inflight.None? && LoadedFrom(s.db, limits, markets)
    ensures var matches := MatchSpec(InBand(limits, env.oracle, env.maxDeviationBps), markets).out;
      Inv(base, s.(db := ProcessAll(s.db, matches, env)))
  {
    var load := Load(limits, markets, env.oracle, env.maxDeviationBps);
    StepInv(base, s, load);
    var t := Apply(s, load);
    var actions := MatchesAreRun(t, env, |t.pending|);
    assert t.pending[..|t.pending|] == t.pending;
    RunInv(base, t, actions);
    assert Run(t, actions) == s.(db := ProcessAll(s.db, t.pending, env));
  }

  /** The poll loop of `Database.ResubmitJob`, as actions. */
  function PollActions(polls: seq<Poll>): seq<Action> {
    if polls == [] then [LeaveJob]
    else match polls[0]
      case Success(ledger) => [ConfirmSent(ledger)]
      case NotFound => PollActions(polls[1..])
      case _ => [FailSent]
  }

  lemma {:induction false} PollsAreRun(s: Sys, k: FillKey, hash: string, polls: seq<Poll>)
    requires s.sender == Polling(k, hash) && k in s.read
    ensures Feasible(s, PollActions(polls)) && OrderlyRun(s, PollActions(polls))
    ensures Run(s, PollActions(polls))
         == s.(db := PollResubmitted(s.db, k, s.read[k].payload, hash, polls), sender := Idle, read := s.read - {k})
  {
    if polls == [] {
      RunOne(s, LeaveJob);
    } else {
      match polls[0] {
        case Success(ledger) => RunOne(s, ConfirmSent(ledger));
        case NotFound => PollsAreRun(s, k, hash, polls[1..]);
        case _ => RunOne(s, FailSent);
      }
    }
  }

  /** What `Database.ResubmitJob` does with a row the reconciler read, as actions. */
  function ResubmitActions(db: Db, k: FillKey, send: Answer, polls: seq<Poll>): seq<Action> {
    if !Claimable(db, k) then [Claim(k)]
    else if send.Rejected? then [Claim(k), FailSent]
    else [Claim(k), Send(send.hash), RecordSent] + PollActions(polls)
  }

  /** The state after `Database.ResubmitJob`. */
  function Resubmitted(s: Sys, k: FillKey, send: Answer, polls: seq<Poll>): Sys
    requires k in s.read
  {
    s.(db := Resubmit(s.db, k, s.read[k].payload, send, polls), read := s.read - {k},
       sends := if Claimable(s.db, k) && send.Accepted? then s.sends + multiset{k} else s.sends,
       contested := ClaimRow(s, k).contested)
  }

  lemma SentIsRun(s: Sys, k: FillKey, hash: string)
    requires Enabled(s, Claim(k)) && Claimable(s.db, k)
    ensures var actions := [Claim(k), Send(hash), RecordSent];
      && Feasible(s, actions) && OrderlyRun(s, actions)
      && Run(s, actions) == s.(db := RecordHash(SetStatus(s.db, k, Submitted), k, hash), sender := Polling(k, hash),
                               sends := s.sends + multiset{k}, contested := ClaimRow(s, k).contested)
  {
    RunThree(s, Claim(k), Send(hash), RecordSent);
  }

  lemma RefusedIsRun(s: Sys, k: FillKey, send: Answer, polls: seq<Poll>)
    requires Enabled(s, Claim(k)) && (Claimable(s.db, k) ==> send.Rejected?)
    ensures var actions := ResubmitActions(s.db, k, send, polls);
      && Feasible(s, actions) && OrderlyRun(s, actions)
      && Run(s, actions) == Resubmitted(s, k, send, polls)
  {
    if !Claimable(s.db, k) { RunOne(s, Claim(k)); } else { RunTwo(s, Claim(k), FailSent); }
  }

  lemma ResubmitIsRun(s: Sys, k: FillKey, send: Answer, polls: seq<Poll>)
    requires Enabled(s, Claim(k))
    ensures var actions := ResubmitActions(s.db, k, send, polls);
      && Feasible(s, actions) && OrderlyRun(s, actions)
      && Run(s, actions) == Resubmitted(s, k, send, polls)
  {
    if !Claimable(s.db, k) || send.Rejected? {
      RefusedIsRun(s, k, send, polls);
    } else {
      var claim := [Claim(k), Send(send.hash), RecordSent];
      SentIsRun(s, k, send.hash);
      PollsAreRun(Run(s, claim), k, send.hash, polls);
      RunAppend(s, claim, PollActions(polls));
    }
  }

  /** The reconciler's resubmission, run without interruption on a row it read before, keeps the invariant. */
  lemma ResubmitKeepsInv(base: map<nat, int>, s: Sys, k: FillKey, send: Answer, polls: seq<Poll>)
    requires Inv(base, s) && Enabled(s, Claim(k))
    ensures Inv(base, Resubmitted(s, k, send, polls))
  {
    ResubmitIsRun(s, k, send, polls);
    RunInv(base, s, ResubmitActions(s.db, k, send, polls));
  }

  lemma ExpireOthers(db: Db, k: FillKey, job: Job, j: FillKey)
    requires j != k
    ensures j in Expire(db, k, job).jobs <==> j in db.jobs
    ensures j in db.jobs ==> Expire(db, k, job).jobs[j] == db.jobs[j]
  {
  }

  /** Rows of the stale query, read earlier; none of their jobs was submitted since. */
  ghost predicate StaleRows(s: Sys, stale: seq<(FillKey, Job)>) {
    && (forall i :: 0 <= i < |stale| ==>
         && stale[i].0 in s.read && s.read[stale[i].0] == stale[i].1 && stale[i].1.status == Queued
         && Orderly(s, ExpireStale(stale[i].0)))
    && forall i, j :: 0 <= i < j < |stale| ==> stale[i].0 != stale[j].0
  }

  /** Rows and jobs of other keys are as they were. */
  ghost predicate SameElsewhere(s: Sys, t: Sys, stale: seq<(FillKey, Job)>) {
    forall j | (forall i :: 0 <= i < |stale| ==> stale[i].0 != j) :: SameAt(s, t, j)
  }

  predicate SameAt(s: Sys, t: Sys, j: FillKey) {
    && (j in s.read ==> j in t.read && t.read[j] == s.read[j])
    && (j in t.db.jobs <==> j in s.db.jobs) && (j in s.db.jobs ==> t.db.jobs[j] == s.db.jobs[j])
  }

  lemma ExpireSame(s: Sys, t: Sys, stale: seq<(FillKey, Job)>)
    requires stale != [] && SameElsewhere(s, t, stale[..|stale| - 1])
    requires Enabled(t, ExpireStale(stale[|stale| - 1].0))
    ensures SameElsewhere(s, Apply(t, ExpireStale(stale[|stale| - 1].0)), stale)
  {
    var n := |stale| - 1;
    var k := stale[n].0;
    forall j | (forall i :: 0 <= i < |stale| ==> stale[i].0 != j) ensures SameAt(s, Apply(t, ExpireStale(k)), j) {
      assert forall i :: 0 <= i < n ==> stale[..n][i].0 != j;
      assert SameAt(s, t, j) && stale[n].0 != j;
      ExpireOthers(t.db, k, t.read[k], j);
    }
  }

  /** After the expiry of these rows. */
  ghost predicate Expired(s: Sys, t: Sys, stale: seq<(FillKey, Job)>) {
    t == s.(db := ExpireAll(s.db, stale), read := t.read, leaked := t.leaked) && SameElsewhere(s, t, stale)
  }

  lemma ExpireNext(s: Sys, t: Sys, stale: seq<(FillKey, Job)>)
    requires s.sender.Idle? && StaleRows(s, stale) && stale != [] && Expired(s, t, stale[..|stale| - 1])
    ensures var a := ExpireStale(stale[|stale| - 1].0);
      Enabled(t, a) && Orderly(t, a) && Expired(s, Apply(t, a), stale)
  {
    assert SameAt(s, t, stale[|stale| - 1].0);
    ExpireSame(s, t, stale);
  }

  lemma {:induction false} ExpireAllIsRun(s: Sys, stale: seq<(FillKey, Job)>) returns (actions: seq<Action>)
    requires s.sender.Idle? && StaleRows(s, stale)
    ensures Feasible(s, actions) && OrderlyRun(s, actions) && Expired(s, Run(s, actions), stale)
  {
    if stale == [] {
      actions := [];
    } else {
      var n := |stale| - 1;
      var before := ExpireAllIsRun(s, stale[..n]);
      var (t, a) := (Run(s, before), ExpireStale(stale[n].0));
      ExpireNext(s, t, stale);
      RunOne(t, a);
      RunAppend(s, before, [a]);
      actions := before + [a];
    }
  }

  /** The whole expiry loop, run without interruption on the rows its query returned before, keeps the invariant. */
  lemma ExpireAllKeepsInv(base: map<nat, int>, s: Sys, stale: seq<(FillKey, Job)>) returns (t: Sys)
    requires Inv(base, s) && s.sender.Idle? && StaleRows(s, stale)
    ensures Inv(base, t) && Expired(s, t, stale)
  {
    var actions := ExpireAllIsRun(s, stale);
    RunInv(base, s, actions);
    t := Run(s, actions);
  }
}
