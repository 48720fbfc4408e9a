/**
 * The matcher, the users, the sign route and one reconciler, interleaved over the shared ledger.
 *
 * An `Action` is one group of SQL statements, or one call to the chain, of one of the processes.
 * Between two of them a process remembers what it read: the reconciler the rows its query returned,
 * the sign route the job it claimed. `Run` performs a list of actions in the order given, so a
 * statement about every feasible list is a statement about every interleaving.
 */
module Settlement {
  import opened Wrappers
  import opened Matching
  import opened MatchingTheorems
  import opened Ledger
  import opened LedgerFacts
  import opened Rollbacks

  /** Where the reconciler is inside `resubmitJob`. */
  datatype Sender =
    Idle | Claimed(key: FillKey) | Sent(key: FillKey, hash: string) | Polling(key: FillKey, hash: string)

  /** Where a request of the sign route is with the job it claimed. */
  datatype RouteStage = RouteClaimed | RouteSent(hash: string)

  /**
   * `pending` are the matches the matcher has yet to look at in this tick, `inflight` is the one it
   * has persisted and not yet settled. `read` are the rows the reconciler's query returned and that
   * it has yet to finish with. History variables follow: the transactions that the reconciler and
   * the route sent, the jobs that the reconciler claimed although they were SUBMITTED, and the
   * fills it rolled back.
   */
  datatype Sys = Sys(
    db: Db, pending: seq<Match>, inflight: Option<Match>,
    read: map<FillKey, Job>, sender: Sender, route: map<FillKey, RouteStage>,
    sends: multiset<FillKey>, routeSends: multiset<FillKey>, contested: set<FillKey>, leaked: seq<FillRow>)

  datatype Action =
    // users
    | PlaceOrder(order: Order)
    | CancelOrder(id: OrderId)
    // the matcher's tick
    | Load(limits: seq<Order>, markets: seq<Order>, oracle: Option<nat>, maxDeviationBps: nat)
    | Skip
    | PersistNext
    | Settle(answer: Answer)
    | RollbackInflight
    | MatcherCrash
    // the sign route
    | MergeEntry(k: FillKey, byMaker: bool)
    | RouteClaim(k: FillKey)
    | RouteSend(k: FillKey, hash: string)
    | RouteRecord(k: FillKey)
    | RouteFail(k: FillKey)
    | RouteDies(k: FillKey)
    // the reconciler
    | ReadRow(k: FillKey)
    | PollSubmitted(k: FillKey, poll: Poll, send: Answer, polls: seq<Poll>)
    | Claim(k: FillKey)
    | Send(hash: string)
    | RecordSent
    | ConfirmSent(ledger: int)
    | FailSent
    // the last poll found nothing, or marking the job FAILED fails too
    | LeaveJob
    | ExpireStale(k: FillKey)
    | ReconcilerCrash
    // the reconciler dies after a rollback and before the status update that belongs to it
    | CrashInRollback(k: FillKey)
    // the reconciler dies after marking a job CONFIRMED and before stamping its fill
    | CrashInConfirm(k: FillKey)

  predicate LoadedOrder(db: Db, o: Order) {
    o.Id() in db.orders && db.orders[o.Id()] == OrderRow(o, false) && o.filledSize < o.size
  }

  /** The rows of the two loading queries; which of the open orders are returned is left open. */
  ghost predicate LoadedFrom(db: Db, limits: seq<Order>, markets: seq<Order>) {
    && (forall o :: o in limits ==> LoadedOrder(db, o) && o.limitPrice != 0)
    && (forall o :: o in markets ==> LoadedOrder(db, o) && o.limitPrice == 0)
  }

  predicate JobIs(db: Db, k: FillKey, status: Status) { k in db.jobs && db.jobs[k].status == status }

  /** Both parties' entries are in the payload. */
  predicate Ready(job: Job) { job.payload.Some? && job.payload.value.BothSigned() }

  /** SUBMITTED, and no transaction is known. */
  predicate Unrecorded(job: Job) { job.status == Submitted && job.submittedHash.None? }

  predicate Active(job: Job) { job.status in {Queued, Submitted} }

  /** The reconciler is inside `resubmitJob` with this job. */
  predicate Busy(sender: Sender, k: FillKey) { !sender.Idle? && sender.key == k }

  /** The reconciler works on a row of this status that its query returned. */
  predicate Working(s: Sys, k: FillKey, status: Status) { s.sender.Idle? && k in s.read && s.read[k].status == status }

  // ----- who takes a step -----

  predicate ByUser(a: Action) { a.PlaceOrder? || a.CancelOrder? || a.MergeEntry? }

  predicate ByMatcher(a: Action) {
    a.Load? || a.Skip? || a.PersistNext? || a.Settle? || a.RollbackInflight? || a.MatcherCrash?
  }

  /** The sign route, behind the merging of an entry. */
  predicate ByRoute(a: Action) { a.RouteClaim? || a.RouteSend? || a.RouteRecord? || a.RouteFail? || a.RouteDies? }

  /** The reconciler, on the rows its query returned. */
  predicate ByReading(a: Action) {
    a.ReadRow? || a.PollSubmitted? || a.ExpireStale? || a.ReconcilerCrash? || a.CrashInRollback? || a.CrashInConfirm?
  }

  /** The reconciler, inside `resubmitJob`. */
  predicate BySender(a: Action) {
    a.Claim? || a.Send? || a.RecordSent? || a.ConfirmSent? || a.FailSent? || a.LeaveJob?
  }

  // ----- when a step can be taken -----

  ghost predicate EnabledUser(s: Sys, a: Action)
    requires ByUser(a)
  {
    match a
    case PlaceOrder(o) =>
      && o.Id() !in s.db.orders && o.marketId in s.db.markets
      && o.size > 0 && o.filledSize == 0 && o.limitPrice >= 0
    case CancelOrder(id) => true
    case MergeEntry(k, _) => JobIs(s.db, k, Queued) && s.db.jobs[k].payload.Some?
  }

  ghost predicate EnabledMatcher(s: Sys, a: Action)
    requires ByMatcher(a)
  {
    match a
    case Load(limits, markets, _, _) =>
      && s.pending == [] && s.inflight.None?
      && LoadedFrom(s.db, limits, markets)
    case Skip => s.pending != [] && s.inflight.None?
    case PersistNext => s.pending != [] && s.inflight.None?
    case Settle(_) => s.inflight.Some?
    case RollbackInflight => s.inflight.Some?
    case MatcherCrash => true
  }

  ghost predicate EnabledRoute(s: Sys, a: Action)
    requires ByRoute(a)
  {
    match a
    case RouteClaim(k) => JobIs(s.db, k, Queued) && Ready(s.db.jobs[k])
    case RouteSend(k, _) => k in s.route && s.route[k].RouteClaimed?
    case RouteRecord(k) => k in s.route && s.route[k].RouteSent?
    case RouteFail(k) => k in s.route
    case RouteDies(k) => k in s.route
  }

  ghost predicate EnabledReading(s: Sys, a: Action)
    requires ByReading(a)
  {
    match a
    case ReadRow(k) => s.sender.Idle? && k in s.db.jobs && Active(s.db.jobs[k]) && k !in s.read
    case PollSubmitted(k, _, _, _) => Working(s, k, Submitted)
    case ExpireStale(k) => Working(s, k, Queued)
    case ReconcilerCrash => true
    case CrashInRollback(k) =>
      (Working(s, k, Queued) && !Ready(s.read[k])) || (Working(s, k, Submitted) && s.read[k].submittedHash.Some?)
    case CrashInConfirm(k) =>
      (Working(s, k, Submitted) && s.read[k].submittedHash.Some?) || (s.sender.Polling? && s.sender.key == k)
  }

  ghost predicate EnabledSender(s: Sys, a: Action)
    requires BySender(a)
  {
    match a
    case Claim(k) => Working(s, k, Queued) && Ready(s.read[k])
    case Send(_) => s.sender.Claimed?
    case RecordSent => s.sender.Sent?
    case ConfirmSent(_) => s.sender.Polling? && s.sender.key in s.read
    case FailSent => !s.sender.Idle?
    case LeaveJob => !s.sender.Idle?
  }

  ghost predicate Enabled(s: Sys, a: Action) {
    if ByUser(a) then EnabledUser(s, a)
    else if ByMatcher(a) then EnabledMatcher(s, a)
    else if ByRoute(a) then EnabledRoute(s, a)
    else if ByReading(a) then EnabledReading(s, a)
    else EnabledSender(s, a)
  }

  // ----- what it does -----

  function Merge(db: Db, k: FillKey, byMaker: bool): Db
    requires k in db.jobs && db.jobs[k].payload.Some?
  {
    var p := db.jobs[k].payload.value;
    var p' := if byMaker then p.(makerSigned := true) else p.(takerSigned := true);
    db.(jobs := db.jobs[k := db.jobs[k].(payload := Some(p'))])
  }

  /** The rows that a reconciler step deletes from the fill table. */
  function Lost(fills: seq<FillRow>, payload: Option<Payload>): seq<FillRow> {
    if payload.None? then [] else Deleted(fills, payload.value.pendingTxHash)
  }

  /** The claim looks at the job's current row; without it the reconciler goes on to its next row. */
  function ClaimRow(s: Sys, k: FillKey): Sys {
    if !Claimable(s.db, k) then s.(read := s.read - {k})
    else
      s.(db := SetStatus(s.db, k, Submitted), sender := Claimed(k),
         contested := if JobIs(s.db, k, Submitted) then s.contested + {k} else s.contested)
  }

  /** The reconciler leaves `resubmitJob`. */
  function Finish(s: Sys, db: Db): Sys
    requires !s.sender.Idle?
  {
    s.(db := db, sender := Idle, read := s.read - {s.sender.key})
  }

  ghost function ApplyUser(s: Sys, a: Action): Sys
    requires ByUser(a) && EnabledUser(s, a)
  {
    match a
    case PlaceOrder(o) => s.(db := s.db.(orders := s.db.orders[o.Id() := OrderRow(o, false)]))
    case CancelOrder(id) => s.(db := Cancel(s.db, id))
    case MergeEntry(k, byMaker) => s.(db := Merge(s.db, k, byMaker))
  }

  ghost function ApplyMatcher(s: Sys, a: Action): Sys
    requires ByMatcher(a) && EnabledMatcher(s, a)
  {
    match a
    case Load(limits, markets, oracle, bps) => s.(pending := MatchSpec(InBand(limits, oracle, bps), markets).out)
    case Skip => s.(pending := s.pending[1..])
    case PersistNext =>
      var (db, ok) := Persist(s.db, s.pending[0]);
      s.(db := db, pending := s.pending[1..], inflight := if ok then Some(s.pending[0]) else None)
    case Settle(answer) =>
      var (db, settled) := Execute(s.db, s.inflight.value, answer);
      s.(db := db, inflight := if settled then None else s.inflight)
    case RollbackInflight => s.(db := Rollback(s.db, s.inflight.value), inflight := None)
    case MatcherCrash => s.(pending := [], inflight := None)
  }

  ghost function ApplyRoute(s: Sys, a: Action): Sys
    requires ByRoute(a) && EnabledRoute(s, a)
  {
    match a
    case RouteClaim(k) => s.(db := SetStatus(s.db, k, Submitted), route := s.route[k := RouteClaimed])
    case RouteSend(k, hash) => s.(route := s.route[k := RouteSent(hash)], routeSends := s.routeSends + multiset{k})
    case RouteRecord(k) => s.(db := RecordHash(s.db, k, s.route[k].hash), route := s.route - {k})
    case RouteFail(k) => s.(db := SetStatus(s.db, k, Failed), route := s.route - {k})
    case RouteDies(k) => s.(route := s.route - {k})
  }

  ghost function ApplyReading(s: Sys, a: Action): Sys
    requires ByReading(a) && EnabledReading(s, a)
  {
    match a
    case ReadRow(k) => s.(read := s.read[k := s.db.jobs[k]])
    case PollSubmitted(k, poll, send, polls) =>
      var row := s.read[k];
      s.(db := Reconcile(s.db, k, row, poll, send, polls), read := s.read - {k},
         leaked := s.leaked + if poll.Failure? && row.submittedHash.Some? then Lost(s.db.fills, row.payload) else [])
    case ExpireStale(k) =>
      s.(db := Expire(s.db, k, s.read[k]), read := s.read - {k},
         leaked := s.leaked + if Ready(s.read[k]) then [] else Lost(s.db.fills, s.read[k].payload))
    case ReconcilerCrash => s.(sender := Idle, read := map[])
    case CrashInRollback(k) =>
      s.(db := RollbackJob(s.db, s.read[k].payload), read := map[],
         leaked := s.leaked + Lost(s.db.fills, s.read[k].payload))
    case CrashInConfirm(k) =>
      s.(db := if s.sender.Idle? then SetStatusFrom(s.db, k, Submitted, Confirmed) else SetStatus(s.db, k, Confirmed),
         sender := Idle, read := map[])
  }

  ghost function ApplySender(s: Sys, a: Action): Sys
    requires BySender(a) && EnabledSender(s, a)
  {
    match a
    case Claim(k) => ClaimRow(s, k)
    case Send(hash) => s.(sender := Sent(s.sender.key, hash), sends := s.sends + multiset{s.sender.key})
    case RecordSent =>
      s.(db := RecordHash(s.db, s.sender.key, s.sender.hash), sender := Polling(s.sender.key, s.sender.hash))
    case ConfirmSent(ledger) =>
      Finish(s, ConfirmResubmitted(s.db, s.sender.key, s.read[s.sender.key].payload, s.sender.hash, ledger))
    case FailSent => Finish(s, SetStatus(s.db, s.sender.key, Failed))
    case LeaveJob => Finish(s, s.db)
  }

  ghost function Apply(s: Sys, a: Action): Sys
    requires Enabled(s, a)
  {
    if ByUser(a) then ApplyUser(s, a)
    else if ByMatcher(a) then ApplyMatcher(s, a)
    else if ByRoute(a) then ApplyRoute(s, a)
    else if ByReading(a) then ApplyReading(s, a)
    else ApplySender(s, a)
  }

  // ----- runs -----

  ghost predicate Feasible(s: Sys, actions: seq<Action>)
    decreases |actions|
  {
    actions == [] || (Enabled(s, actions[0]) && Feasible(Apply(s, actions[0]), actions[1..]))
  }

  ghost function Run(s: Sys, actions: seq<Action>): Sys
    requires Feasible(s, actions)
    decreases |actions|
  {
    if actions == [] then s else Run(Apply(s, actions[0]), actions[1..])
  }

  /**
   * The step does not roll back the fill of a job that it leaves active. Only two steps can: a
   * rollback that is cut off before the status update, and an expiry that works on an outdated row.
   */
  predicate Orderly(s: Sys, a: Action) {
    match a
    case ExpireStale(k) => k in s.read ==> Ready(s.read[k]) || !JobIs(s.db, k, Submitted)
    case CrashInRollback(k) => k in s.db.jobs ==> !Active(s.db.jobs[k])
    case _ => true
  }

  ghost predicate OrderlyRun(s: Sys, actions: seq<Action>)
    requires Feasible(s, actions)
    decreases |actions|
  {
    actions == [] || (Orderly(s, actions[0]) && OrderlyRun(Apply(s, actions[0]), actions[1..]))
  }

  /** An empty ledger; the markets may already carry volume. */
  ghost predicate Initial(s: Sys) {
    && s == Sys(Db(map[], [], map[], s.db.markets), [], None, map[], Idle, map[], multiset{}, multiset{}, {}, [])
    && forall id :: id in s.db.markets ==> s.db.markets[id].volume >= 0
  }

  // ----- what every step of every process keeps -----

  /** Both orders carry a stored signature: their fills settle on the fast path and never wait for the reconciler. */
  predicate FastPath(orders: OrderTable, k: FillKey) {
    k.maker in orders && k.taker in orders && Signed(orders[k.maker].order) && Signed(orders[k.taker].order)
  }

  ghost predicate Tradable(orders: OrderTable, m: Match) {
    && m.fillSize > 0 && m.fillPrice >= 0
    && m.maker.Id() in orders && m.taker.Id() in orders && m.maker.Id() != m.taker.Id()
    && m.maker.signature == orders[m.maker.Id()].order.signature
    && m.taker.signature == orders[m.taker.Id()].order.signature
  }

  /** What is filled and what the tick has yet to fill fit together into every order. */
  ghost predicate PendingOk(orders: OrderTable, pending: seq<Match>) {
    && (forall m :: m in pending ==> Tradable(orders, m))
    && forall id :: id in orders ==> orders[id].order.filledSize + Touch(pending, id) <= orders[id].order.size
  }

  predicate InflightIs(inflight: Option<Match>, k: FillKey) { inflight.Some? && KeyOf(inflight.value) == k }

  function At<V>(m: map<FillKey, V>, k: FillKey): Option<V> { if k in m then Some(m[k]) else None }

  /**
   * All that concerns one job: its row, the row the reconciler read, where the route and the
   * reconciler are with it, its match if that is in flight, who sent it, and whether it is
   * contested. Apart from that it matters whether its fill is live and whether it goes the fast path.
   */
  datatype View = View(
    job: Option<Job>, row: Option<Job>, stage: Option<RouteStage>, sender: Sender, inflight: Option<Match>,
    sends: nat, routeSends: nat, contested: bool)

  function Look(s: Sys, k: FillKey): View {
    View(
      At(s.db.jobs, k), At(s.read, k), At(s.route, k), if Busy(s.sender, k) then s.sender else Idle,
      if InflightIs(s.inflight, k) then s.inflight else None,
      s.sends[k], s.routeSends[k], k in s.contested)
  }

  /** A job that may be sent carries its payload and is off the fast path; one settled there stays settled. */
  predicate JobKept(v: View, k: FillKey, live: bool, fast: bool)
    requires v.job.Some?
  {
    var job := v.job.value;
    && k.fillSize > 0
    && (job.payload.Some? ==> job.payload.value.pendingTxHash == k)
    && (Active(job) ==> job.payload.Some? && !fast)
    && (job.status == Queued ==> job.submittedHash.None?)
    && (job.status == Confirmed ==> job.submittedHash.Some?)
    && (fast && job.submittedHash.Some? ==> job.status == Confirmed && live)
  }

  /** The match in flight; on the fast path its fill is live and its job has no hash yet. */
  predicate InflightKept(v: View, live: bool, fast: bool)
    requires v.inflight.Some?
  {
    && (fast <==> Signed(v.inflight.value.maker) && Signed(v.inflight.value.taker))
    && (fast ==> live && (v.job.Some? ==> v.job.value.submittedHash.None?))
  }

  /** A row in the reconciler's hands may be outdated, but a hash once recorded is still there. */
  predicate RowKept(v: View, k: FillKey, fast: bool)
    requires v.row.Some?
  {
    var row := v.row.value;
    && v.job.Some? && Active(row) && row.payload.Some? && row.payload.value.pendingTxHash == k && !fast
    && (row.status == Submitted ==> v.job.value.status != Queued)
    && (row.submittedHash.Some? ==> v.job.value.submittedHash.Some?)
    && (row.status == Queued && v.sender.Idle? ==> v.sends == 0)
  }

  /** A job the route alone has claimed is unsent by the reconciler, and not in its hands. */
  predicate RouteKept(v: View, fast: bool)
    requires v.stage.Some?
  {
    && v.job.Some? && v.job.value.status != Queued && !fast
    && v.routeSends == (if v.stage.value.RouteClaimed? then 0 else 1)
    && (!v.contested ==> v.sender.Idle? && v.sends == 0)
  }

  /** The same for a job the reconciler alone has claimed. */
  predicate SenderKept(v: View)
    requires !v.sender.Idle?
  {
    && v.row.Some? && v.row.value.status == Queued
    && v.job.Some? && v.job.value.status != Queued
    && (v.sender.Claimed? ==> v.sends == 0)
    && (v.sender.Polling? ==> v.job.value.submittedHash.Some?)
    && (!v.contested ==> v.stage.None? && v.routeSends == 0)
  }

  /** Each sender sends a job at most once, none while it is QUEUED, and both only if it is contested. */
  predicate SendsKept(v: View) {
    && v.sends <= 1 && v.routeSends <= 1
    && (v.job.None? || v.job.value.status == Queued ==> v.sends == 0 && v.routeSends == 0)
    && (v.sends > 0 && v.routeSends > 0 ==> v.contested)
  }

  predicate ViewKept(v: View, k: FillKey, live: bool, fast: bool) {
    && (v.job.Some? ==> JobKept(v, k, live, fast))
    && (v.inflight.Some? ==> InflightKept(v, live, fast))
    && (v.row.Some? ==> RowKept(v, k, fast))
    && (v.stage.Some? ==> RouteKept(v, fast))
    && (!v.sender.Idle? ==> SenderKept(v))
    && SendsKept(v)
  }

  /** Both orders of the fill are there. */
  predicate Placed(orders: OrderTable, k: FillKey) { k.maker in orders && k.taker in orders }

  ghost predicate KeyKept(s: Sys, k: FillKey) {
    ViewKept(Look(s, k), k, Live(s.db.fills, k), FastPath(s.db.orders, k)) &&
      (k in s.db.jobs ==> Placed(s.db.orders, k))
  }

  ghost predicate TablesKept(s: Sys) {
    && FillsOk(s.db.orders, s.db.fills) && BoundsOk(s.db.orders) && PendingOk(s.db.orders, s.pending)
    && (s.inflight.Some? ==> Tradable(s.db.orders, s.inflight.value))
  }

  ghost predicate Kept(s: Sys) { TablesKept(s) && forall k :: KeyKept(s, k) }

  // ----- what the orderly steps keep as well -----

  /** Volume is the base, plus the live fills, plus what the reconciler rolled back without returning it. */
  ghost predicate VolumeOk(base: map<nat, int>, markets: MarketTable, fills: seq<FillRow>, leaked: seq<FillRow>) {
    && markets.Keys == base.Keys
    && (forall f :: f in leaked ==> f.fillSize > 0 && f.fillPrice >= 0)
    && forall id :: id in markets ==>
      base[id] >= 0 && markets[id].volume == base[id] + VolumeOf(fills, id) + VolumeOf(leaked, id)
  }

  /** The ledger counts exactly the fills in the table, among them that of the match in flight. */
  ghost predicate Exact(base: map<nat, int>, s: Sys) {
    && OrdersOk(s.db.orders, s.db.fills)
    && VolumeOk(base, s.db.markets, s.db.fills, s.leaked)
    && (s.inflight.Some? ==> LiveAs(s.db, s.inflight.value))
  }

  /**
   * The fill of a job that the reconciler may still act on is live, so that a rollback removes a
   * fill that is really there, and out of the matcher's reach. A job that one process alone has
   * claimed is SUBMITTED, without a hash until that process records it.
   */
  predicate ViewLive(v: View, live: bool) {
    && (v.job.Some? && Active(v.job.value) ==> live)
    && (v.inflight.Some? ==> live && (v.job.Some? ==> !Active(v.job.value)))
    && (v.row.Some? ==> live && v.inflight.None?)
    && (v.stage.Some? && !v.contested ==> v.job.Some? && Unrecorded(v.job.value))
    && (!v.sender.Idle? && !v.contested ==>
         && v.job.Some? && v.job.value.status == Submitted
         && v.job.value.submittedHash == (if v.sender.Polling? then Some(v.sender.hash) else None))
  }

  ghost predicate KeyLive(s: Sys, k: FillKey) { ViewLive(Look(s, k), Live(s.db.fills, k)) }

  ghost predicate Inv(base: map<nat, int>, s: Sys) { Kept(s) && Exact(base, s) && forall k :: KeyLive(s, k) }
}
