/**
 * What one step does, seen from one job: to its row, to those who hold it and to its fill. The
 * invariants and the theorems about jobs are proved from these summaries.
 */
module Steps {
  import opened Wrappers
  import opened Matching
  import opened MatchingTheorems
  import opened Ledger
  import opened LedgerFacts
  import opened Settlement

  // ----- a step as one job sees it -----

  /** The row that a settlement attempt creates. */
  function FirstJob(m: Match, answer: Answer): Job {
    if answer.Rejected? then Job(Failed, None, None)
    else if Signed(m.maker) && Signed(m.taker) then Job(Confirmed, Some(answer.hash), None)
    else Job(Queued, None, Some(Payload(KeyOf(m), false, false)))
  }

  /** The row after a settlement attempt that found it there. */
  function SettledJob(job: Job, m: Match, answer: Answer): Job {
    if answer.Rejected? then job.(status := Failed)
    else if Signed(m.maker) && Signed(m.taker) then job.(status := Confirmed, submittedHash := Some(answer.hash))
    else job.(payload := Some(Payload(KeyOf(m), false, false)))
  }

  function MergedJob(job: Job, byMaker: bool): Job
    requires job.payload.Some?
  {
    var p := job.payload.value;
    job.(payload := Some(if byMaker then p.(makerSigned := true) else p.(takerSigned := true)))
  }

  /** The transaction of the row came to an end. */
  predicate Concluded(row: Job, poll: Poll) { row.submittedHash.Some? && (poll.Success? || poll.Failure?) }

  predicate StatusIs(job: Option<Job>, status: Status) { job.Some? && job.value.status == status }

  /** An UPDATE that finds no row does nothing. */
  function WithStatus(job: Option<Job>, status: Status): Option<Job> {
    if job.None? then None else Some(job.value.(status := status))
  }

  function WithHash(job: Option<Job>, hash: string): Option<Job> {
    if job.None? then None else Some(job.value.(submittedHash := Some(hash)))
  }

  function StatusFrom(job: Option<Job>, from: Status, to: Status): Option<Job> {
    if StatusIs(job, from) then WithStatus(job, to) else job
  }

  predicate ClaimableJob(job: Option<Job>) { job.Some? && (job.value.status == Queued || Unrecorded(job.value)) }

  predicate EnabledUserAt(v: View, a: Action, k: FillKey)
    requires ByUser(a)
  {
    match a
    case MergeEntry(j, _) => j == k ==> v.job.Some? && v.job.value.status == Queued && v.job.value.payload.Some?
    case _ => true
  }

  predicate EnabledMatcherAt(v: View, a: Action, k: FillKey)
    requires ByMatcher(a)
  {
    match a
    case PersistNext => v.inflight.None?
    case _ => true
  }

  predicate EnabledRouteAt(v: View, a: Action, k: FillKey)
    requires ByRoute(a)
  {
    match a
    case RouteClaim(j) => j == k ==> v.job.Some? && v.job.value.status == Queued && Ready(v.job.value)
    case RouteSend(j, _) => j == k ==> v.stage == Some(RouteClaimed)
    case RouteRecord(j) => j == k ==> v.stage.Some? && v.stage.value.RouteSent?
    case RouteFail(j) => j == k ==> v.stage.Some?
    case RouteDies(j) => j == k ==> v.stage.Some?
  }

  predicate EnabledReadingAt(v: View, a: Action, k: FillKey)
    requires ByReading(a)
  {
    match a
    case ReadRow(j) => v.sender.Idle? && (j == k ==> v.job.Some? && Active(v.job.value) && v.row.None?)
    case PollSubmitted(j, _, _, _) => v.sender.Idle? && (j == k ==> v.row.Some? && v.row.value.status == Submitted)
    case ExpireStale(j) => v.sender.Idle? && (j == k ==> v.row.Some? && v.row.value.status == Queued)
    case CrashInRollback(j) =>
      v.sender.Idle? && (j == k ==> v.row.Some? && (v.row.value.status == Queued || v.row.value.submittedHash.Some?))
    case CrashInConfirm(j) =>
      if j == k then v.sender.Polling? || (v.sender.Idle? && v.row.Some? && v.row.value.submittedHash.Some?)
      else v.sender.Idle?
    case _ => true
  }

  predicate EnabledSenderAt(v: View, a: Action, k: FillKey)
    requires BySender(a)
  {
    match a
    case Claim(j) => v.sender.Idle? && (j == k ==> v.row.Some? && v.row.value.status == Queued && Ready(v.row.value))
    case Send(_) => v.sender.Idle? || v.sender.Claimed?
    case RecordSent => v.sender.Idle? || v.sender.Sent?
    case ConfirmSent(_) => v.sender.Idle? || (v.sender.Polling? && v.row.Some?)
    case _ => true
  }

  /** What `Enabled` says about job k. */
  predicate EnabledAt(v: View, a: Action, k: FillKey) {
    if ByUser(a) then EnabledUserAt(v, a, k)
    else if ByMatcher(a) then EnabledMatcherAt(v, a, k)
    else if ByRoute(a) then EnabledRouteAt(v, a, k)
    else if ByReading(a) then EnabledReadingAt(v, a, k)
    else EnabledSenderAt(v, a, k)
  }

  function AfterUser(v: View, a: Action, k: FillKey): View
    requires ByUser(a) && EnabledUserAt(v, a, k)
  {
    match a
    case MergeEntry(j, byMaker) => if j == k then v.(job := Some(MergedJob(v.job.value, byMaker))) else v
    case _ => v
  }

  function AfterMatcher(v: View, a: Action, k: FillKey, persisted: Option<Match>): View
    requires ByMatcher(a) && EnabledMatcherAt(v, a, k)
  {
    match a
    case PersistNext => if persisted.Some? then v.(inflight := persisted) else v
    case Settle(answer) =>
      if v.inflight.None? then v
      else
        var m := v.inflight.value;
        v.(job := Some(if v.job.Some? then SettledJob(v.job.value, m, answer) else FirstJob(m, answer)),
           inflight := if answer.Rejected? then v.inflight else None)
    case RollbackInflight => if v.inflight.None? then v else v.(inflight := None)
    case MatcherCrash => v.(inflight := None)
    case _ => v
  }

  function AfterRoute(v: View, a: Action, k: FillKey): View
    requires ByRoute(a) && EnabledRouteAt(v, a, k)
  {
    match a
    case RouteClaim(j) => if j == k then v.(job := WithStatus(v.job, Submitted), stage := Some(RouteClaimed)) else v
    case RouteSend(j, hash) => if j == k then v.(stage := Some(RouteSent(hash)), routeSends := v.routeSends + 1) else v
    case RouteRecord(j) => if j == k then v.(job := WithHash(v.job, v.stage.value.hash), stage := None) else v
    case RouteFail(j) => if j == k then v.(job := WithStatus(v.job, Failed), stage := None) else v
    case RouteDies(j) => if j == k then v.(stage := None) else v
  }

  function AfterReading(v: View, a: Action, k: FillKey): View
    requires ByReading(a) && EnabledReadingAt(v, a, k)
  {
    match a
    case ReadRow(j) => if j == k then v.(row := v.job) else v
    case PollSubmitted(j, poll, _, _) =>
      if j != k then v
      else if !Concluded(v.row.value, poll) then v.(row := None)
      else
        // only a job that is still SUBMITTED takes the outcome
        v.(job := StatusFrom(v.job, Submitted, if poll.Success? then Confirmed else Failed), row := None)
    case ExpireStale(j) =>
      if j != k then v
      else if Ready(v.row.value) then v.(row := None)
      else v.(job := StatusFrom(v.job, Queued, Failed), row := None)
    case ReconcilerCrash => v.(sender := Idle, row := None)
    case CrashInRollback(_) => v.(row := None)
    case CrashInConfirm(j) =>
      v.(job := if j != k then v.job
                else if v.sender.Idle? then StatusFrom(v.job, Submitted, Confirmed) else WithStatus(v.job, Confirmed),
         sender := Idle, row := None)
  }

  function AfterSender(v: View, a: Action, k: FillKey): View
    requires BySender(a) && EnabledSenderAt(v, a, k)
  {
    match a
    case Claim(j) =>
      if j != k then v
      else if !ClaimableJob(v.job) then v.(row := None)
      else
        v.(job := WithStatus(v.job, Submitted), sender := Claimed(k),
           contested := v.contested || v.job.value.status == Submitted)
    case Send(hash) => if v.sender.Idle? then v else v.(sender := Sent(k, hash), sends := v.sends + 1)
    case RecordSent =>
      if v.sender.Idle? then v
      else v.(job := WithHash(v.job, v.sender.hash), sender := Polling(k, v.sender.hash))
    case ConfirmSent(_) =>
      if v.sender.Idle? then v
      else v.(job := WithStatus(v.job, Confirmed), sender := Idle, row := None)
    case FailSent => if v.sender.Idle? then v else v.(job := WithStatus(v.job, Failed), sender := Idle, row := None)
    case LeaveJob => if v.sender.Idle? then v else v.(sender := Idle, row := None)
  }

  /** The view of job k after a step; `persisted` is the match of key k if the step persists it. */
  function After(v: View, a: Action, k: FillKey, persisted: Option<Match>): View
    requires EnabledAt(v, a, k)
  {
    if ByUser(a) then AfterUser(v, a, k)
    else if ByMatcher(a) then AfterMatcher(v, a, k, persisted)
    else if ByRoute(a) then AfterRoute(v, a, k)
    else if ByReading(a) then AfterReading(v, a, k)
    else AfterSender(v, a, k)
  }

  /** Whether fill k is live after a step. */
  predicate LiveAfter(v: View, a: Action, k: FillKey, live: bool, persisted: Option<Match>)
    requires EnabledAt(v, a, k)
  {
    match a
    case PersistNext => live || persisted.Some?
    case RollbackInflight => live && v.inflight.None?
    case PollSubmitted(j, poll, _, _) => live && !(j == k && Concluded(v.row.value, poll))
    case ConfirmSent(_) => live && v.sender.Idle?
    case ExpireStale(j) => live && !(j == k && !Ready(v.row.value))
    case CrashInRollback(j) => live && j != k
    case _ => live
  }

  /** The match that the step puts in flight, if its key is k. */
  ghost function Persisted(s: Sys, a: Action, k: FillKey): Option<Match>
    requires Enabled(s, a)
  {
    if a.PersistNext? && KeyOf(s.pending[0]) == k && !Live(s.db.fills, k) then Some(s.pending[0]) else None
  }

  /** A job with a recorded hash that is not QUEUED is beyond the claim of `resubmitJob`. */
  lemma NotFoundIdle(db: Db, k: FillKey, row: Job, send: Answer, polls: seq<Poll>)
    requires k in db.jobs && db.jobs[k].status != Queued && db.jobs[k].submittedHash.Some?
    ensures Reconcile(db, k, row, NotFound, send, polls) == db
  {
  }

  /** Any other answer changes nothing: in particular a lost transaction is not sent again. */
  lemma PollIdle(s: Sys, a: Action)
    requires Enabled(s, a) && a.PollSubmitted? && KeyKept(s, a.k) && !Concluded(s.read[a.k], a.poll)
    ensures Apply(s, a).db == s.db
  {
    assert Look(s, a.k).row.Some?;
    if s.read[a.k].submittedHash.Some? && a.poll.NotFound? { NotFoundIdle(s.db, a.k, s.read[a.k], a.send, a.polls); }
  }

  // ----- orders -----

  /** Resubmitting touches statuses, hashes and fills only. */
  ghost predicate OnlyJobs(db: Db, db': Db) {
    && db'.orders == db.orders
    && forall j :: j in db'.jobs ==> j in db.jobs && db'.jobs[j].payload == db.jobs[j].payload
  }

  lemma {:induction false} PollTouches(db: Db, k: FillKey, payload: Option<Payload>, hash: string, polls: seq<Poll>)
    ensures OnlyJobs(db, PollResubmitted(db, k, payload, hash, polls))
  {
    if polls != [] { PollTouches(db, k, payload, hash, polls[1..]); }
  }

  lemma ResubmitTouches(db: Db, k: FillKey, payload: Option<Payload>, send: Answer, polls: seq<Poll>)
    ensures OnlyJobs(db, Resubmit(db, k, payload, send, polls))
  {
    if send.Accepted? {
      PollTouches(RecordHash(SetStatus(db, k, Submitted), k, send.hash), k, payload, send.hash, polls);
    }
  }

  /** No step removes an order or changes its signature. */
  ghost predicate SameSignatures(orders: OrderTable, orders': OrderTable) {
    forall id :: id in orders ==> id in orders' && orders'[id].order.signature == orders[id].order.signature
  }

  lemma LowerSignatures(orders: OrderTable, k: FillKey)
    ensures SameSignatures(orders, LowerBoth(orders, k))
  {
  }

  lemma RollbackSignatures(db: Db, payload: Option<Payload>)
    ensures SameSignatures(db.orders, RollbackJob(db, payload).orders)
  {
    if payload.Some? { LowerSignatures(db.orders, payload.value.pendingTxHash); }
  }

  lemma PersistSignatures(db: Db, m: Match)
    ensures SameSignatures(db.orders, Persist(db, m).0.orders)
  {
  }

  lemma MatcherSignatures(s: Sys, a: Action)
    requires Enabled(s, a) && ByMatcher(a)
    ensures SameSignatures(s.db.orders, Apply(s, a).db.orders)
  {
    if a.RollbackInflight? {
      LowerSignatures(s.db.orders, KeyOf(s.inflight.value));
    } else if a.PersistNext? {
      PersistSignatures(s.db, s.pending[0]);
    } else {
      assert Apply(s, a).db.orders == s.db.orders;
    }
  }

  lemma ReconcilerSignatures(s: Sys, a: Action)
    requires Enabled(s, a) && (ByReading(a) || BySender(a))
    ensures SameSignatures(s.db.orders, Apply(s, a).db.orders)
  {
    if a.PollSubmitted? {
      PollSignatures(s.db, a.k, s.read[a.k], a.poll, a.send, a.polls);
    } else if a.ExpireStale? || a.CrashInRollback? {
      RollbackSignatures(s.db, s.read[a.k].payload);
    } else if a.ConfirmSent? {
      assert Apply(s, a).db.orders == s.db.orders;
    } else {
      KeepsTables(s, a);
    }
  }

  /** Steps of the reconciler that write no more than a job row. */
  predicate WritesJobOnly(a: Action) {
    || a.ReadRow? || a.ReconcilerCrash? || a.CrashInConfirm?
    || a.Claim? || a.Send? || a.RecordSent? || a.FailSent? || a.LeaveJob?
  }

  ghost predicate SameTables(s: Sys, t: Sys) {
    && t.db.orders == s.db.orders && t.db.fills == s.db.fills && t.db.markets == s.db.markets
    && t.leaked == s.leaked && t.inflight == s.inflight && t.pending == s.pending
  }

  lemma ReadingKeepsTables(s: Sys, a: Action)
    requires Enabled(s, a) && ByReading(a) && WritesJobOnly(a)
    ensures SameTables(s, Apply(s, a))
  {
  }

  lemma SenderKeepsTables(s: Sys, a: Action)
    requires Enabled(s, a) && BySender(a) && WritesJobOnly(a)
    ensures SameTables(s, Apply(s, a))
  {
  }

  lemma KeepsTables(s: Sys, a: Action)
    requires Enabled(s, a) && (ByReading(a) || BySender(a)) && WritesJobOnly(a)
    ensures SameTables(s, Apply(s, a))
  {
    if ByReading(a) { ReadingKeepsTables(s, a); } else { SenderKeepsTables(s, a); }
  }

  lemma PollSignatures(db: Db, k: FillKey, row: Job, poll: Poll, send: Answer, polls: seq<Poll>)
    ensures SameSignatures(db.orders, Reconcile(db, k, row, poll, send, polls).orders)
  {
    match poll {
      case NotFound => ResubmitTouches(db, k, row.payload, send, polls);
      case Failure => RollbackSignatures(db, row.payload);
      case _ =>
    }
  }

  lemma OtherSignatures(s: Sys, a: Action)
    requires Enabled(s, a) && !ByMatcher(a) && !(ByReading(a) || BySender(a))
    ensures SameSignatures(s.db.orders, Apply(s, a).db.orders)
  {
  }

  lemma SignaturesStay(s: Sys, a: Action)
    requires Enabled(s, a)
    ensures SameSignatures(s.db.orders, Apply(s, a).db.orders)
  {
    if ByMatcher(a) {
      MatcherSignatures(s, a);
    } else if (ByReading(a) || BySender(a)) {
      ReconcilerSignatures(s, a);
    } else {
      OtherSignatures(s, a);
    }
  }

  // ----- the tick's next match -----

  lemma DropHead(orders: OrderTable, pending: seq<Match>)
    requires PendingOk(orders, pending) && pending != []
    ensures PendingOk(orders, pending[1..])
    ensures forall id :: Touch(pending, id) == Part(pending[0], id) + Touch(pending[1..], id)
  {
    assert Tradable(orders, pending[0]);
    forall id ensures Touch(pending, id) == Part(pending[0], id) + Touch(pending[1..], id) {
      TouchCons(pending, id);
    }
  }

  /** The next match of a tick always has room, whatever the other processes did since the book was loaded. */
  lemma HeadFits(s: Sys)
    requires TablesKept(s) && s.pending != []
    ensures Fits(s.db, s.pending[0])
  {
    var m := s.pending[0];
    DropHead(s.db.orders, s.pending);
    forall id | id in s.db.orders ensures Touch(s.pending[1..], id) >= 0 {
      forall n | n in s.pending[1..] ensures n.fillSize > 0 { assert Tradable(s.db.orders, n); }
      TouchNonNegative(s.pending[1..], id);
    }
    assert Tradable(s.db.orders, m);
    assert Part(m, m.maker.Id()) == Part(m, m.taker.Id()) == m.fillSize;
  }

  // ----- what a step does to the view of job k -----

  ghost predicate Follows(s: Sys, a: Action, k: FillKey, t: Sys)
    requires Enabled(s, a)
  {
    EnabledAt(Look(s, k), a, k) && Look(t, k) == After(Look(s, k), a, k, Persisted(s, a, k))
  }

  lemma UserFollows(s: Sys, a: Action, k: FillKey)
    requires Enabled(s, a) && ByUser(a)
    ensures Follows(s, a, k, Apply(s, a))
  {
  }

  lemma PersistFollows(s: Sys, k: FillKey)
    requires TablesKept(s) && Enabled(s, PersistNext)
    ensures Follows(s, PersistNext, k, Apply(s, PersistNext))
  {
    HeadFits(s);
    PersistComplete(s.db, s.pending[0]);
  }

  lemma SettleFollows(s: Sys, a: Action, k: FillKey)
    requires Enabled(s, a) && a.Settle?
    ensures Follows(s, a, k, Apply(s, a))
  {
  }

  lemma MatcherFollows(s: Sys, a: Action, k: FillKey)
    requires Enabled(s, a) && ByMatcher(a) && !a.Settle? && !a.PersistNext?
    ensures Follows(s, a, k, Apply(s, a))
  {
  }

  lemma RouteFollows(s: Sys, a: Action, k: FillKey)
    requires Enabled(s, a) && ByRoute(a)
    ensures Follows(s, a, k, Apply(s, a))
  {
  }

  lemma PollFollows(s: Sys, a: Action, k: FillKey)
    requires Enabled(s, a) && a.PollSubmitted? && (!Concluded(s.read[a.k], a.poll) ==> Apply(s, a).db == s.db)
    ensures Follows(s, a, k, Apply(s, a))
  {
  }

  lemma ReadingFollows(s: Sys, a: Action, k: FillKey)
    requires Enabled(s, a) && ByReading(a) && !a.PollSubmitted?
    ensures Follows(s, a, k, Apply(s, a))
  {
  }

  lemma ClaimFollows(s: Sys, a: Action, k: FillKey)
    requires Enabled(s, a) && a.Claim?
    ensures Follows(s, a, k, Apply(s, a))
  {
  }

  lemma SenderFollows(s: Sys, a: Action, k: FillKey)
    requires Enabled(s, a) && BySender(a) && !a.Claim?
    ensures Follows(s, a, k, Apply(s, a))
  {
  }

  // ----- what it does to fill k -----

  ghost predicate LiveFollows(s: Sys, a: Action, k: FillKey, t: Sys)
    requires Enabled(s, a)
  {
    EnabledAt(Look(s, k), a, k)
    && (Live(t.db.fills, k) <==> LiveAfter(Look(s, k), a, k, Live(s.db.fills, k), Persisted(s, a, k)))
  }

  lemma PersistLive(s: Sys, k: FillKey)
    requires TablesKept(s) && Enabled(s, PersistNext)
    ensures LiveFollows(s, PersistNext, k, Apply(s, PersistNext))
  {
    HeadFits(s);
    PersistComplete(s.db, s.pending[0]);
    LiveAppend(s.db.fills, RowOf(s.pending[0]), k);
  }

  /** The step deletes fill j. */
  lemma RemovalLive(s: Sys, a: Action, j: FillKey, k: FillKey)
    requires Enabled(s, a) && EnabledAt(Look(s, k), a, k) && Apply(s, a).db.fills == DeleteFills(s.db.fills, Pseudo(j))
    requires LiveAfter(Look(s, k), a, k, Live(s.db.fills, k), Persisted(s, a, k)) == (Live(s.db.fills, k) && j != k)
    ensures LiveFollows(s, a, k, Apply(s, a))
  {
    DeleteLive(s.db.fills, j, k);
  }

  lemma StampLive(s: Sys, a: Action, j: FillKey, k: FillKey, nonces: bool, hash: string, ledger: int)
    requires Enabled(s, a) && EnabledAt(Look(s, k), a, k) && FillsOk(s.db.orders, s.db.fills)
    requires Apply(s, a).db.fills == Stamp(s.db.fills, j, nonces, hash, ledger)
    requires LiveAfter(Look(s, k), a, k, Live(s.db.fills, k), Persisted(s, a, k)) == (Live(s.db.fills, k) && j != k)
    ensures LiveFollows(s, a, k, Apply(s, a))
  {
    StampFills(s.db.orders, s.db.fills, j, nonces, hash, ledger);
  }

  lemma SameLive(s: Sys, a: Action, k: FillKey)
    requires Enabled(s, a) && EnabledAt(Look(s, k), a, k) && Apply(s, a).db.fills == s.db.fills
    requires LiveAfter(Look(s, k), a, k, Live(s.db.fills, k), Persisted(s, a, k)) == Live(s.db.fills, k)
    ensures LiveFollows(s, a, k, Apply(s, a))
  {
  }

  /** Steps that delete and stamp nothing. */
  predicate KeepsFills(s: Sys, a: Action) {
    && !a.PersistNext? && !a.RollbackInflight? && !a.ConfirmSent? && !a.CrashInRollback?
    && (a.PollSubmitted? && a.k in s.read ==> !Concluded(s.read[a.k], a.poll))
    && (a.ExpireStale? && a.k in s.read ==> Ready(s.read[a.k]))
  }

  lemma FillsSame(s: Sys, a: Action)
    requires Enabled(s, a) && KeepsFills(s, a) && (a.PollSubmitted? ==> Apply(s, a).db == s.db)
    ensures Apply(s, a).db.fills == s.db.fills
  {
  }

  /** The row the reconciler works on is about the fill of its job. */
  predicate OwnFill(row: Job, k: FillKey) { row.payload.Some? && row.payload.value.pendingTxHash == k }

  lemma PollLive(s: Sys, a: Action, k: FillKey)
    requires FillsOk(s.db.orders, s.db.fills) && Enabled(s, a) && a.PollSubmitted? && !KeepsFills(s, a)
    requires OwnFill(s.read[a.k], a.k) && EnabledAt(Look(s, k), a, k)
    ensures LiveFollows(s, a, k, Apply(s, a))
  {
    if a.poll.Success? {
      StampLive(s, a, a.k, k, true, s.read[a.k].submittedHash.value, a.poll.ledger);
    } else {
      RemovalLive(s, a, a.k, k);
    }
  }

  lemma RollbackRowLive(s: Sys, a: Action, k: FillKey)
    requires Enabled(s, a) && ((a.ExpireStale? && !KeepsFills(s, a)) || a.CrashInRollback?)
    requires OwnFill(s.read[a.k], a.k) && EnabledAt(Look(s, k), a, k)
    ensures LiveFollows(s, a, k, Apply(s, a))
  {
    RemovalLive(s, a, a.k, k);
  }

  lemma StepLive(s: Sys, a: Action, k: FillKey)
    requires Kept(s) && Enabled(s, a) && EnabledAt(Look(s, k), a, k)
    requires a.PollSubmitted? && !Concluded(s.read[a.k], a.poll) ==> Apply(s, a).db == s.db
    ensures LiveFollows(s, a, k, Apply(s, a))
  {
    if a.PersistNext? {
      PersistLive(s, k);
    } else if KeepsFills(s, a) {
      FillsSame(s, a);
      SameLive(s, a, k);
    } else if a.RollbackInflight? {
      RemovalLive(s, a, KeyOf(s.inflight.value), k);
    } else if a.ConfirmSent? {
      assert KeyKept(s, s.sender.key);
      StampLive(s, a, s.sender.key, k, false, s.sender.hash, a.ledger);
    } else {
      assert KeyKept(s, a.k) && Look(s, a.k).row.Some?;
      if a.PollSubmitted? { PollLive(s, a, k); } else { RollbackRowLive(s, a, k); }
    }
  }

  lemma FastPathSame(orders: OrderTable, orders': OrderTable, k: FillKey)
    requires SameSignatures(orders, orders') && Placed(orders, k)
    ensures Placed(orders', k) && (FastPath(orders', k) <==> FastPath(orders, k))
  {
  }

  lemma ViewFollows(s: Sys, a: Action, k: FillKey)
    requires Kept(s) && Enabled(s, a)
    ensures Follows(s, a, k, Apply(s, a))
    ensures a.PollSubmitted? && !Concluded(s.read[a.k], a.poll) ==> Apply(s, a).db == s.db
  {
    if a.PollSubmitted? && !Concluded(s.read[a.k], a.poll) {
      assert KeyKept(s, a.k);
      PollIdle(s, a);
    }
    if ByUser(a) {
      UserFollows(s, a, k);
    } else if a.PersistNext? {
      PersistFollows(s, k);
    } else if a.Settle? {
      SettleFollows(s, a, k);
    } else if ByMatcher(a) {
      MatcherFollows(s, a, k);
    } else if ByRoute(a) {
      RouteFollows(s, a, k);
    } else if a.PollSubmitted? {
      PollFollows(s, a, k);
    } else if ByReading(a) {
      ReadingFollows(s, a, k);
    } else if a.Claim? {
      ClaimFollows(s, a, k);
    } else {
      SenderFollows(s, a, k);
    }
  }

  /** One step, seen from job k. */
  lemma StepFollows(s: Sys, a: Action, k: FillKey)
    requires Kept(s) && Enabled(s, a)
    ensures KeyKept(s, k) && Follows(s, a, k, Apply(s, a)) && LiveFollows(s, a, k, Apply(s, a))
    ensures Placed(s.db.orders, k) ==>
      Placed(Apply(s, a).db.orders, k) && (FastPath(Apply(s, a).db.orders, k) <==> FastPath(s.db.orders, k))
  {
    ViewFollows(s, a, k);
    StepLive(s, a, k);
    SignaturesStay(s, a);
    if Placed(s.db.orders, k) { FastPathSame(s.db.orders, Apply(s, a).db.orders, k); }
  }
}
