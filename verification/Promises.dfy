/** Where the settlement code falls short of what it promises: for each promise, exactly when it holds. */
module Promises {
  import opened Wrappers
  import opened Matching
  import opened Ledger
  import opened LedgerFacts
  import opened Settlement
  import opened Steps
  import opened Orphans

  lemma {:induction false} PollLeavesTrace(db: Db, k: FillKey, payload: Option<Payload>, hash: string, polls: seq<Poll>)
    requires k in db.jobs && db.jobs[k].status == Submitted
    ensures var db' := PollResubmitted(db, k, payload, hash, polls);
      k in db'.jobs && db'.jobs[k].status != Queued && db'.jobs[k].submittedHash == db.jobs[k].submittedHash
  {
    if polls != [] {
      PollLeavesTrace(db, k, payload, hash, polls[1..]);
    }
  }

  /**
   * A transaction the network lost is to be sent again. It is exactly when the job could be
   * claimed at that moment, which a job that is SUBMITTED with a recorded hash never can.
   */
  lemma LostTransactionResentIff(db: Db, k: FillKey, row: Job, send: Answer, polls: seq<Poll>)
    requires row.submittedHash.Some?
    ensures Reconcile(db, k, row, NotFound, send, polls) != db <==> Ready(row) && Claimable(db, k)
  {
    if Ready(row) && Claimable(db, k) {
      var claimed := SetStatus(db, k, Submitted);
      if send.Accepted? {
        PollLeavesTrace(RecordHash(claimed, k, send.hash), k, row.payload, send.hash, polls);
      }
      assert Reconcile(db, k, row, NotFound, send, polls).jobs[k] != db.jobs[k];
    }
  }

  /**
   * In no reachable state does a lost transaction make the reconciler do anything but drop the row;
   * nor does an unreachable chain, or a row without a hash to ask for.
   */
  lemma LostTransactionIgnored(s: Sys, k: FillKey, poll: Poll, send: Answer, polls: seq<Poll>)
    requires Kept(s) && Enabled(s, PollSubmitted(k, poll, send, polls))
    requires poll.NotFound? || poll.Unreachable? || s.read[k].submittedHash.None?
    ensures Apply(s, PollSubmitted(k, poll, send, polls)) == s.(read := s.read - {k})
  {
    assert KeyKept(s, k);
    PollIdle(s, PollSubmitted(k, poll, send, polls));
    assert s.leaked + [] == s.leaked;
  }

  /**
   * Every terminal failure is to roll its fill back. The fill of a job that fails survives exactly
   * when the failure happened while the job was being sent, by the reconciler or by the sign route.
   */
  lemma FailureRollsBackIff(base: map<nat, int>, s: Sys, a: Action, k: FillKey)
    requires Inv(base, s) && Enabled(s, a)
    requires k in s.db.jobs && Active(s.db.jobs[k]) && JobIs(Apply(s, a).db, k, Failed)
    ensures Live(Apply(s, a).db.fills, k) <==> a.FailSent? || a.RouteFail?
  {
    assert KeyLive(s, k);
    StepFollows(s, a, k);
    ViewFails(Look(s, k), a, k, FastPath(s.db.orders, k), Persisted(s, a, k));
    assert Look(Apply(s, a), k).job.Some?;
  }

  lemma ViewFails(v: View, a: Action, k: FillKey, fast: bool, persisted: Option<Match>)
    requires EnabledAt(v, a, k) && ViewKept(v, k, true, fast) && ViewLive(v, true) && HasActiveJob(v)
    requires StatusIs(After(v, a, k, persisted).job, Failed)
    ensures LiveAfter(v, a, k, true, persisted) <==> a.FailSent? || a.RouteFail?
  {
  }

  /**
   * A rolled-back match is to be matched and settled again. On the signing path the second
   * attempt waits for the reconciler exactly when the first left no job row behind: the upsert
   * does not reopen a finished job, so the new fill stays with nobody to settle or undo it.
   */
  lemma RequeuedIff(base: map<nat, int>, s: Sys, hash: string)
    requires Inv(base, s) && s.inflight.Some?
    requires var m := s.inflight.value; !(Signed(m.maker) && Signed(m.taker))
    ensures var k, t := KeyOf(s.inflight.value), Apply(s, Settle(Accepted(hash)));
      && t.inflight.None? && Live(t.db.fills, k)
      && (k in t.db.jobs && Active(t.db.jobs[k]) <==> k !in s.db.jobs)
  {
    assert KeyLive(s, KeyOf(s.inflight.value));
  }

  /**
   * `expireStaleQueued` rolls back on the row its query returned and looks at the current status
   * only afterwards. That strands a job exactly when the job was submitted in the meantime: it goes
   * on waiting for a transaction whose fill is gone.
   */
  lemma ExpiryRaceIff(s: Sys, k: FillKey)
    requires Kept(s) && Enabled(s, ExpireStale(k)) && !Ready(s.read[k])
    ensures var t := Apply(s, ExpireStale(k));
      k in t.db.jobs && (Active(t.db.jobs[k]) && !Live(t.db.fills, k) <==> JobIs(s.db, k, Submitted))
  {
    StepFollows(s, ExpireStale(k), k);
    ViewExpires(Look(s, k), k, Live(s.db.fills, k), FastPath(s.db.orders, k));
    assert Look(Apply(s, ExpireStale(k)), k).job.Some?;
  }

  lemma ViewExpires(v: View, k: FillKey, live: bool, fast: bool)
    requires EnabledAt(v, ExpireStale(k), k) && ViewKept(v, k, live, fast) && !Ready(v.row.value)
    ensures var job' := After(v, ExpireStale(k), k, None).job;
      && job'.Some? && (Active(job'.value) <==> StatusIs(v.job, Submitted))
      && !LiveAfter(v, ExpireStale(k), k, live, None)
  {
  }

  /**
   * When the chain reports success, exactly the fill of the job takes on the row's hash and the
   * ledger, and the job is confirmed if it is still SUBMITTED.
   */
  lemma ConfirmStampsFill(base: map<nat, int>, s: Sys, k: FillKey, ledger: int, send: Answer, polls: seq<Poll>)
    requires Inv(base, s) && Working(s, k, Submitted) && s.read[k].submittedHash.Some?
    ensures Live(s.db.fills, k)
    ensures var t := Apply(s, PollSubmitted(k, Success(ledger), send, polls));
      var i := IndexOf(s.db.fills, k);
      && (JobIs(s.db, k, Submitted) ==> JobIs(t.db, k, Confirmed)) && t.db.orders == s.db.orders
      && |t.db.fills| == |s.db.fills|
      && t.db.fills[i] == s.db.fills[i].(txHash := Chain(s.read[k].submittedHash.value), ledger := ledger)
      && forall j :: 0 <= j < |s.db.fills| && j != i ==> t.db.fills[j] == s.db.fills[j]
  {
    assert KeyKept(s, k) && KeyLive(s, k);
    assert Look(s, k).row.Some?;
    LiveFill(s.db, k);
  }
}
