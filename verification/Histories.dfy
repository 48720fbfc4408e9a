/**
 * Histories in which a promise breaks. Each starts from a ledger with one market and no orders, and
 * is a run of the users, the matcher, the sign route and the reconciler up to the step that breaks it.
 */
module Histories {
  import opened Wrappers
  import opened Sequences
  import opened BigInt
  import opened Matching
  import opened Ledger
  import opened LedgerFacts
  import opened Settlement
  import opened SettlementTheorems
  import opened JobLife
  import opened Orphans

  // ----- reachable states -----

  ghost predicate Closed(states: iset<Sys>) {
    && (forall s :: Initial(s) ==> s in states)
    && forall s, a :: s in states && Enabled(s, a) && Orderly(s, a) ==> Apply(s, a) in states
  }

  /** In every set of states that holds the empty ledgers and that no orderly step leaves. */
  ghost predicate Reachable(s: Sys) {
    forall states: iset<Sys> :: Closed(states) ==> s in states
  }

  ghost predicate Reaches(start: Sys, actions: seq<Action>, s: Sys) {
    Initial(start) && Feasible(start, actions) && OrderlyRun(start, actions) && Run(start, actions) == s
  }

  lemma Next(s: Sys, a: Action)
    requires Reachable(s) && Enabled(s, a) && Orderly(s, a)
    ensures Reachable(Apply(s, a))
  {
    forall states: iset<Sys> | Closed(states) ensures Apply(s, a) in states { assert s in states; }
  }

  lemma ReachesNext(start: Sys, actions: seq<Action>, s: Sys, a: Action)
    requires Reaches(start, actions, s) && Enabled(s, a) && Orderly(s, a)
    ensures Reaches(start, actions + [a], Apply(s, a))
  {
    RunOne(s, a);
    RunAppend(start, actions, [a]);
  }

  lemma {:induction false} RunReachable(s: Sys, actions: seq<Action>)
    requires Reachable(s) && Feasible(s, actions) && OrderlyRun(s, actions)
    ensures Reachable(Run(s, actions))
    decreases |actions|
  {
    if actions != [] {
      Next(s, actions[0]);
      RunReachable(Apply(s, actions[0]), actions[1..]);
    }
  }

  ghost predicate RunLeadsTo(s: Sys) { exists start, actions :: Reaches(start, actions, s) }

  lemma RunsAreClosed(states: iset<Sys>)
    requires forall s :: s in states <==> RunLeadsTo(s)
    ensures Closed(states)
  {
    forall s | Initial(s) ensures s in states { assert Reaches(s, [], s); }
    forall s, a | s in states && Enabled(s, a) && Orderly(s, a) ensures Apply(s, a) in states {
      var start, actions :| Reaches(start, actions, s);
      ReachesNext(start, actions, s, a);
    }
  }

  lemma LedToIsReachable(s: Sys)
    requires RunLeadsTo(s)
    ensures Reachable(s)
  {
    var start, actions :| Reaches(start, actions, s);
    RunReachable(start, actions);
  }

  /** The reachable states are those to which some orderly run from an empty ledger leads. */
  lemma ReachableIff(s: Sys)
    ensures Reachable(s) <==> RunLeadsTo(s)
  {
    if Reachable(s) {
      var states := iset t | RunLeadsTo(t);
      RunsAreClosed(states);
      assert s in states;
    }
    if RunLeadsTo(s) { LedToIsReachable(s); }
  }

  // ----- one bid for 20 and two asks, none of them with a stored signature -----

  function Bid(filled: int): Order { Order("M", 1, 1, true, 20, 5, false, 0, filled, 0, None) }

  function AskA(filled: int): Order { Order("A", 1, 1, false, 10, 5, false, 0, filled, 1, None) }

  function AskB(filled: int): Order { Order("B", 1, 1, false, 20, 5, false, 0, filled, 2, None) }

  const ID := OrderId("M", 1)
  const ID_A := OrderId("A", 1)
  const ID_B := OrderId("B", 1)

  const KA := FillKey(ID, ID_A, 10)
  const KB := FillKey(ID, ID_B, 10)

  function Table(bid: int, a: int, b: int): OrderTable {
    map[ID := OrderRow(Bid(bid), false), ID_A := OrderRow(AskA(a), false), ID_B := OrderRow(AskB(b), false)]
  }

  lemma Distinct()
    ensures ID != ID_A && ID != ID_B && ID_A != ID_B && KA != KB
    ensures ID.owner != ID_A.owner && ID.owner != ID_B.owner
  {
    assert ID.owner[0] == 'M' && ID_A.owner[0] == 'A' && ID_B.owner[0] == 'B';
  }

  lemma TableRows(db: Db, bid: int, a: int, b: int)
    requires db.orders == Table(bid, a, b)
    ensures bid < 20 ==> LoadedOrder(db, Bid(bid))
    ensures a < 10 ==> LoadedOrder(db, AskA(a))
    ensures b < 20 ==> LoadedOrder(db, AskB(b))
  {
    Distinct();
  }

  lemma RaiseTable(bid: int, a: int, b: int)
    ensures RaiseBoth(Table(bid, a, b), KA) == Table(bid + 10, a + 10, b)
    ensures RaiseBoth(Table(bid, a, b), KB) == Table(bid + 10, a, b + 10)
  {
    Distinct();
  }

  lemma LowerTable(bid: int, a: int, b: int)
    ensures LowerBoth(Table(bid, a, b), KA) == Table(Max(0, bid - 10), Max(0, a - 10), b)
    ensures LowerBoth(Table(bid, a, b), KB) == Table(Max(0, bid - 10), a, Max(0, b - 10))
  {
    Distinct();
  }

  function Fill(k: FillKey): FillRow { FillRow(Pseudo(k), 1, k.maker, k.taker, 10, 5, 0) }

  function Waiting(k: FillKey): Job { Job(Queued, None, Some(Payload(k, false, false))) }

  lemma PairSides(bid: Order, ask: Order)
    requires bid.isLong && !ask.isLong
    ensures LimitBids([bid, ask]) == [bid] && LimitAsks([bid, ask]) == [ask]
  {
    var isBid, isAsk := (o: Order) => o.isLong, (o: Order) => !o.isLong;
    assert [bid, ask][1..] == [ask] && [ask][1..] == [];
    assert Filter(isBid, [ask]) == [] + Filter(isBid, []);
    assert Filter(isBid, [bid, ask]) == [bid] + Filter(isBid, [ask]);
    assert Filter(isAsk, [ask]) == [ask] + Filter(isAsk, []);
    assert Filter(isAsk, [bid, ask]) == [] + Filter(isAsk, [ask]);
    SortOne(BidBefore, bid);
    SortOne(AskBefore, ask);
  }

  lemma OnePair(bid: Order, ask: Order)
    requires bid.isLong && !ask.isLong && bid.owner != ask.owner && bid.limitPrice >= ask.limitPrice
    requires bid.createdAt <= ask.createdAt && Left(bid, map[]) > 0 && Left(ask, map[]) > 0
    ensures MatchSpec([bid, ask], []).out == [Match(bid, ask, Min(Left(bid, map[]), Left(ask, map[])), bid.limitPrice)]
  {
    PairSides(bid, ask);
    assert AfterMarkets([bid, ask], []) == EMPTY_BOOK;
    assert [ask][1..] == [] && [bid][1..] == [];
    assert Row(LimitPass, bid, [ask], EMPTY_BOOK) == Visit(LimitPass, bid, ask, EMPTY_BOOK);
    assert MatchSpec([bid, ask], []) == Scan(LimitPass, [], [ask], Row(LimitPass, bid, [ask], EMPTY_BOOK));
  }

  lemma SortOne<T>(le: (T, T) -> bool, x: T)
    ensures Sort(le, [x]) == [x]
  {
    assert [x][1..] == [];
  }

  lemma BothInBand(bid: Order, ask: Order)
    requires bid.limitPrice == ask.limitPrice == 5
    ensures InBand([bid, ask], Some(5), 0) == [bid, ask]
  {
    var near := (o: Order) => WithinOracleBand(o.limitPrice, 5, 0);
    assert [bid, ask][1..] == [ask] && [ask][1..] == [];
    assert Filter(near, [ask]) == [ask] + Filter(near, []);
    assert Filter(near, [bid, ask]) == [bid] + Filter(near, [ask]);
  }

  /** The processes are at rest. */
  predicate Still(s: Sys) {
    && s.pending == [] && s.inflight.None? && s.read == map[] && s.sender.Idle? && s.route == map[]
    && s.sends == s.routeSends == multiset{}
  }

  lemma OrdersPlaced() returns (s: Sys)
    ensures Reachable(s) && Still(s) && s.db.orders == Table(0, 0, 0) && s.db.fills == [] && s.db.jobs == map[]
  {
    s := Sys(Db(map[], [], map[], map[1 := MarketRow(0, 0)]), [], None, map[], Idle, map[], multiset{}, multiset{},
      {}, []);
    assert Initial(s);
    s := Places(s, Bid(0));
    s := Places(s, AskA(0));
    s := Places(s, AskB(0));
    Distinct();
  }

  lemma Places(s: Sys, o: Order) returns (t: Sys)
    requires Reachable(s) && Enabled(s, PlaceOrder(o))
    ensures Reachable(t) && t == s.(db := s.db.(orders := s.db.orders[o.Id() := OrderRow(o, false)]))
  {
    Next(s, PlaceOrder(o));
    t := Apply(s, PlaceOrder(o));
  }

  /** The two orders can trade 10 at 5, and no such fill is pending. */
  predicate CanTrade(db: Db, bid: Order, ask: Order) {
    && LoadedOrder(db, bid) && LoadedOrder(db, ask) && bid.limitPrice == ask.limitPrice == 5
    && bid.isLong && !ask.isLong && bid.owner != ask.owner && bid.createdAt <= ask.createdAt
    && Min(Left(bid, map[]), Left(ask, map[])) == 10
    && !Live(db.fills, FillKey(bid.Id(), ask.Id(), 10))
  }

  lemma Loaded(s: Sys, bid: Order, ask: Order)
    requires Reachable(s) && s.pending == [] && s.inflight.None? && CanTrade(s.db, bid, ask)
    ensures Reachable(s.(pending := [Match(bid, ask, 10, 5)]))
  {
    var load := Load([bid, ask], [], Some(5), 0);
    BothInBand(bid, ask);
    OnePair(bid, ask);
    Next(s, load);
    assert Apply(s, load) == s.(pending := [Match(bid, ask, 10, 5)]);
  }

  lemma PersistsTrade(db: Db, bid: Order, ask: Order)
    requires CanTrade(db, bid, ask)
    ensures var m := Match(bid, ask, 10, 5);
      Persist(db, m) == (Written(db, m), true)
  {
    var m := Match(bid, ask, 10, 5);
    assert !Conflicts(db.fills, m);
  }

  /** A tick loads the bid and one ask, which trade 10, and persists the fill. */
  lemma Traded(s: Sys, bid: Order, ask: Order) returns (t: Sys)
    requires Reachable(s) && s.pending == [] && s.inflight.None? && CanTrade(s.db, bid, ask)
    ensures var m := Match(bid, ask, 10, 5);
      Reachable(t) && t == s.(db := Written(s.db, m), inflight := Some(m))
  {
    var m := Match(bid, ask, 10, 5);
    var loaded := s.(pending := [m]);
    Loaded(s, bid, ask);
    Next(loaded, PersistNext);
    PersistsTrade(s.db, bid, ask);
    assert [m][1..] == [];
    t := Apply(loaded, PersistNext);
  }

  lemma LiveOne(f: FillRow, k: FillKey)
    ensures Live([f], k) <==> f.txHash == Pseudo(k)
  {
    assert [f][0] == f;
  }

  lemma CanTradeA(db: Db)
    requires db.orders == Table(0, 0, 0) && !Live(db.fills, KA)
    ensures CanTrade(db, Bid(0), AskA(0))
  {
    Distinct();
    TableRows(db, 0, 0, 0);
  }

  lemma CanTradeB(db: Db, a: int, b: int)
    requires db.orders == Table(10, a, b) && 0 <= b <= 10 && !Live(db.fills, KB)
    ensures CanTrade(db, Bid(10), AskB(b))
  {
    Distinct();
    TableRows(db, 10, a, b);
    assert Left(Bid(10), map[]) == 10 && Left(AskB(b), map[]) == 20 - b;
  }

  // ----- two trades wait for their signatures -----

  lemma TradesB(s: Sys, b: int) returns (t: Sys)
    requires Reachable(s) && s.pending == [] && s.inflight.None? && CanTrade(s.db, Bid(10), AskB(b))
    ensures Reachable(t) && InflightIs(t.inflight, KB) && !Signed(t.inflight.value.maker) && Live(t.db.fills, KB)
    ensures t == s.(db := t.db, inflight := t.inflight)
    ensures t.db == s.db.(
      fills := s.db.fills + [Fill(KB)], orders := RaiseBoth(s.db.orders, KB), markets := t.db.markets)
  {
    t := Traded(s, Bid(10), AskB(b));
    LiveAppend(s.db.fills, Fill(KB), KB);
  }

  /** The match in flight is queued for its signatures. */
  lemma Queues(s: Sys) returns (t: Sys)
    requires Reachable(s) && s.inflight.Some? && !Signed(s.inflight.value.maker) &&
      KeyOf(s.inflight.value) !in s.db.jobs
    ensures var k := KeyOf(s.inflight.value);
      Reachable(t) && t == s.(db := s.db.(jobs := s.db.jobs[k := Waiting(k)]), inflight := None)
  {
    Next(s, Settle(Accepted("")));
    t := Apply(s, Settle(Accepted("")));
  }

  lemma OneTrade() returns (s: Sys)
    ensures Reachable(s) && Still(s) && s.db.orders == Table(10, 10, 0) && s.db.fills == [Fill(KA)]
    ensures s.db.jobs == map[KA := Waiting(KA)]
  {
    s := OrdersPlaced();
    CanTradeA(s.db);
    s := Traded(s, Bid(0), AskA(0));
    RaiseTable(0, 0, 0);
    assert KeyOf(s.inflight.value) == KA;
    s := Queues(s);
  }

  predicate Rows2(db: Db) {
    db.orders == Table(20, 10, 10) && db.fills == [Fill(KA), Fill(KB)]
  }

  lemma SecondTrade() returns (s: Sys)
    ensures Reachable(s) && s.pending == [] && s.read == map[] && s.sender.Idle? && s.route == map[]
    ensures s.sends == s.routeSends == multiset{} && Rows2(s.db) && s.db.jobs == map[KA := Waiting(KA)]
    ensures InflightIs(s.inflight, KB) && !Signed(s.inflight.value.maker) && Live(s.db.fills, KB)
  {
    s := OneTrade();
    assert !Live(s.db.fills, KB) by {
      Distinct();
      LiveOne(Fill(KA), KB);
    }
    CanTradeB(s.db, 10, 0);
    s := SecondFill(s);
  }

  /** The table with both fills. */
  lemma SecondFill(s: Sys) returns (t: Sys)
    requires Reachable(s) && s.pending == [] && s.inflight.None? && CanTrade(s.db, Bid(10), AskB(0))
    requires s.db.orders == Table(10, 10, 0) && s.db.fills == [Fill(KA)]
    ensures Reachable(t) && Rows2(t.db) && InflightIs(t.inflight, KB) && !Signed(t.inflight.value.maker)
    ensures t == s.(db := t.db, inflight := t.inflight) && t.db.jobs == s.db.jobs && Live(t.db.fills, KB)
  {
    t := TradesB(s, 0);
    BothRows(s.db, t.db);
  }

  lemma BothRows(db: Db, db': Db)
    requires db.orders == Table(10, 10, 0) && db.fills == [Fill(KA)]
    requires db'.orders == RaiseBoth(db.orders, KB) && db'.fills == db.fills + [Fill(KB)]
    ensures Rows2(db')
  {
    RaiseTable(10, 10, 0);
  }

  lemma TwoTrades() returns (s: Sys)
    ensures Reachable(s) && Still(s) && Rows2(s.db) && Live(s.db.fills, KB)
    ensures KA in s.db.jobs && s.db.jobs[KA] == Waiting(KA) && KB in s.db.jobs && s.db.jobs[KB] == Waiting(KB)
  {
    s := SecondTrade();
    assert KA != KB by { Distinct(); }
    s := Queues(s);
  }

  /** The job of the second trade once both parties have signed. */
  function SignedJob(status: Status, hash: Option<string>): Job { Job(status, hash, Some(Payload(KB, true, true))) }

  function SetJob(s: Sys, job: Job): Sys { s.(db := s.db.(jobs := s.db.jobs[KB := job])) }

  lemma BothSign(s: Sys) returns (t: Sys)
    requires Reachable(s) && KB in s.db.jobs && s.db.jobs[KB] == Waiting(KB)
    ensures Reachable(t) && t == SetJob(s, SignedJob(Queued, None))
  {
    Next(s, MergeEntry(KB, true));
    var half := SetJob(s, Job(Queued, None, Some(Payload(KB, true, false))));
    assert Apply(s, MergeEntry(KB, true)) == half;
    Next(half, MergeEntry(KB, false));
    t := SetJob(s, SignedJob(Queued, None));
    assert Apply(half, MergeEntry(KB, false)).db.jobs == t.db.jobs;
  }

  /** The processes are at rest, the second trade is live, and its job has this row. */
  predicate Rests(s: Sys, job: Job) {
    && s.pending == [] && s.inflight.None? && s.read == map[] && s.sender.Idle? && s.route == map[]
    && s.sends == multiset{} && KB in s.db.jobs && s.db.jobs[KB] == job && Live(s.db.fills, KB)
  }

  lemma BothTradesSigned() returns (s: Sys)
    ensures Reachable(s) && Rests(s, SignedJob(Queued, None)) && Rows2(s.db)
    ensures KA in s.db.jobs && s.db.jobs[KA] == Waiting(KA) && s.routeSends == multiset{}
  {
    Distinct();
    s := TwoTrades();
    s := BothSign(s);
  }

  lemma RouteClaims(s: Sys) returns (t: Sys)
    requires Reachable(s) && KB in s.db.jobs && s.db.jobs[KB] == SignedJob(Queued, None)
    ensures Reachable(t) && t == SetJob(s, SignedJob(Submitted, None)).(route := s.route[KB := RouteClaimed])
  {
    Next(s, RouteClaim(KB));
    t := SetJob(s, SignedJob(Submitted, None)).(route := s.route[KB := RouteClaimed]);
  }

  /** The route sends a job and records the hash "h". */
  lemma RouteSends(s: Sys) returns (t: Sys)
    requires Reachable(s) && s.route == map[KB := RouteClaimed]
    requires KB in s.db.jobs && s.db.jobs[KB] == SignedJob(Submitted, None)
    ensures Reachable(t)
    ensures t == SetJob(s, SignedJob(Submitted, Some("h"))).(route := map[], routeSends := s.routeSends + multiset{KB})
  {
    Next(s, RouteSend(KB, "h"));
    var sent := s.(route := map[KB := RouteSent("h")], routeSends := s.routeSends + multiset{KB});
    assert Apply(s, RouteSend(KB, "h")) == sent;
    Next(sent, RouteRecord(KB));
    t := SetJob(s, SignedJob(Submitted, Some("h"))).(route := map[], routeSends := s.routeSends + multiset{KB});
    assert Apply(sent, RouteRecord(KB)).route == map[];
  }

  /** The route claims the signed job, sends it and records the hash "h". */
  lemma RouteSubmits(s: Sys) returns (t: Sys)
    requires Reachable(s) && Rests(s, SignedJob(Queued, None))
    ensures Reachable(t) && Rests(t, SignedJob(Submitted, Some("h"))) && t.routeSends == s.routeSends + multiset{KB}
    ensures t.db == SetJob(s, SignedJob(Submitted, Some("h"))).db
  {
    t := RouteClaims(s);
    t := RouteSends(t);
  }

  lemma Reads(s: Sys, k: FillKey) returns (t: Sys)
    requires Reachable(s) && Enabled(s, ReadRow(k))
    ensures Reachable(t) && t == s.(read := s.read[k := s.db.jobs[k]])
  {
    Next(s, ReadRow(k));
    t := s.(read := s.read[k := s.db.jobs[k]]);
  }

  // ----- failures while sending -----

  /** The reconciler reads the job QUEUED and claims it, whatever happened in between. */
  lemma ReconcilerClaims(s: Sys) returns (t: Sys)
    requires Reachable(s) && s.read == map[KB := SignedJob(Queued, None)] && s.sender.Idle?
    requires KB in s.db.jobs && s.db.jobs[KB].status in {Queued, Submitted}
    requires s.db.jobs[KB] == SignedJob(s.db.jobs[KB].status, None)
    ensures Reachable(t) && t.sender == Claimed(KB)
    ensures t == SetJob(s, SignedJob(Submitted, None)).(sender := Claimed(KB), contested := t.contested)
  {
    Next(s, Claim(KB));
    t := ClaimRow(s, KB);
  }

  lemma FailSentOrphans(s: Sys)
    requires s.sender == Claimed(KB) && JobIs(s.db, KB, Submitted) && Live(s.db.fills, KB) && s.inflight.None?
    ensures var t := Apply(s, FailSent); JobIs(t.db, KB, Failed) && OrphanIn(t, KB) && KB !in t.read
  {
  }

  /** Sending fails: the job is FAILED for good, and its fill stays with nobody to settle or undo it. */
  lemma FailedSendStrandsFill() returns (s: Sys)
    ensures Reachable(s) && s.sender == Claimed(KB)
    ensures var t := Apply(s, FailSent); JobIs(t.db, KB, Failed) && OrphanIn(t, KB) && KB !in t.read
  {
    s := BothTradesSigned();
    s := Reads(s, KB);
    s := ReconcilerClaims(s);
    FailSentOrphans(s);
  }

  /** A request of the route dies behind its claim: the job stays SUBMITTED and nobody will send it. */
  lemma DeadRequestLeavesJobStuck() returns (s: Sys)
    ensures Reachable(s) && KB in s.route && Stuck(Look(Apply(s, RouteDies(KB)), KB))
  {
    s := BothTradesSigned();
    s := RouteClaims(s);
  }

  // ----- a lost transaction -----

  /** The route submitted the second trade, and the reconciler has read its row. */
  lemma SubmittedRead() returns (s: Sys)
    ensures Reachable(s) && s.pending == [] && s.inflight.None? && s.sender.Idle?
    ensures s.read == map[KB := SignedJob(Submitted, Some("h"))] && Rows2(s.db)
    ensures KB in s.db.jobs && s.db.jobs[KB] == SignedJob(Submitted, Some("h"))
    ensures KA in s.db.jobs && s.db.jobs[KA] == Waiting(KA)
  {
    Distinct();
    s := BothTradesSigned();
    s := RouteSubmits(s);
    s := Reads(s, KB);
  }

  /** The network loses a signed transaction; the reconciler sees that and does nothing. */
  lemma LostTransactionStays() returns (s: Sys)
    ensures Reachable(s) && Working(s, KB, Submitted) && Ready(s.read[KB]) && JobIs(s.db, KB, Submitted)
    ensures Apply(s, PollSubmitted(KB, NotFound, Accepted("again"), [])).db == s.db
  {
    s := SubmittedRead();
  }

  // ----- a trade that failed on chain and trades again -----

  lemma TwoFills()
    ensures DeleteFills([Fill(KA), Fill(KB)], Pseudo(KB)) == [Fill(KA)]
    ensures DeleteFills([Fill(KA), Fill(KB)], Pseudo(KA)) == [Fill(KB)]
  {
    Distinct();
    DeleteAt([Fill(KA), Fill(KB)], KB, 1);
    DeleteAt([Fill(KA), Fill(KB)], KA, 0);
  }

  lemma FailsOnChain(s: Sys) returns (t: Sys)
    requires Reachable(s) && s.sender.Idle? && s.read == map[KB := SignedJob(Submitted, Some("h"))]
    requires KB in s.db.jobs && s.db.jobs[KB] == SignedJob(Submitted, Some("h"))
    ensures Reachable(t) && t.pending == s.pending && t.inflight == s.inflight && JobIs(t.db, KB, Failed)
    ensures t.db.orders == LowerBoth(s.db.orders, KB) && t.db.fills == DeleteFills(s.db.fills, Pseudo(KB))
  {
    Next(s, PollSubmitted(KB, Failure, Rejected, []));
    t := Apply(s, PollSubmitted(KB, Failure, Rejected, []));
  }

  lemma RequeueOrphans(s: Sys, k: FillKey)
    requires InflightIs(s.inflight, k) && JobIs(s.db, k, Failed) && Live(s.db.fills, k) &&
      !Signed(s.inflight.value.maker)
    ensures OrphanIn(Apply(s, Settle(Accepted(""))), k)
  {
  }

  /** The second trade failed on chain and was rolled back. */
  lemma BackInTheBook() returns (s: Sys)
    ensures Reachable(s) && s.pending == [] && s.inflight.None? && JobIs(s.db, KB, Failed)
    ensures CanTrade(s.db, Bid(10), AskB(0))
  {
    s := SubmittedRead();
    s := FailsOnChain(s);
    LowerTable(20, 10, 10);
    TwoFills();
    Distinct();
    LiveOne(Fill(KA), KB);
    CanTradeB(s.db, 10, 0);
  }

  /** The second trade failed on chain and was rolled back; then the same two orders trade again. */
  lemma RequeuedTradeStranded() returns (s: Sys)
    ensures Reachable(s) && InflightIs(s.inflight, KB) && JobIs(s.db, KB, Failed)
    ensures OrphanIn(Apply(s, Settle(Accepted(""))), KB)
  {
    s := BackInTheBook();
    s := TradesB(s, 0);
    RequeueOrphans(s, KB);
  }

  // ----- expiry and repeated rollback -----

  /** The expiry read the job unsigned; both parties sign and the route claims the job before it acts. */
  lemma ExpiryStrandsJob() returns (s: Sys)
    ensures Reachable(s) && Enabled(s, ExpireStale(KB))
    ensures var t := Apply(s, ExpireStale(KB)); JobIs(t.db, KB, Submitted) && !Live(t.db.fills, KB)
  {
    s := TwoTrades();
    s := Reads(s, KB);
    s := SignsAndClaims(s);
    ExpiryDeletes(s);
  }

  lemma SignsAndClaims(s: Sys) returns (t: Sys)
    requires Reachable(s) && KB in s.db.jobs && s.db.jobs[KB] == Waiting(KB)
    ensures Reachable(t) && JobIs(t.db, KB, Submitted) && t.sender == s.sender && t.read == s.read
  {
    t := BothSign(s);
    t := RouteClaims(t);
  }

  lemma ExpiryDeletes(s: Sys)
    requires s.sender.Idle? && KB in s.read && s.read[KB] == Waiting(KB) && JobIs(s.db, KB, Submitted)
    ensures var t := Apply(s, ExpireStale(KB)); JobIs(t.db, KB, Submitted) && !Live(t.db.fills, KB)
  {
    DeleteRemoves(s.db.fills, KB);
  }

  /**
   * The reconciler dies after it rolled the first trade back, and rolls it back again later. The
   * second time takes the size off the bid's other fill: live, and no longer counted.
   */
  lemma RetryTakesFromOtherFill() returns (s: Sys)
    ensures Reachable(s) && Feasible(s, [CrashInRollback(KA), ReadRow(KA), ExpireStale(KA)])
    ensures var t := Run(s, [CrashInRollback(KA), ReadRow(KA), ExpireStale(KA)]);
      ID in t.db.orders && t.db.orders[ID].order.filledSize == 0 && t.db.fills == [Fill(KB)]
  {
    s := TwoTrades();
    s := Reads(s, KA);
    Distinct();
    LowerTable(20, 10, 10);
    TwoFills();
    var cut := CutOff(s);
    ExpiresFirst(cut.(read := map[KA := Waiting(KA)]));
    RetryRun(s, cut);
  }

  lemma CutOff(s: Sys) returns (t: Sys)
    requires s.sender.Idle? && KA in s.read && s.read[KA] == Waiting(KA)
    ensures t == Apply(s, CrashInRollback(KA)) && t.sender.Idle? && t.read == map[] && t.db.jobs == s.db.jobs
    ensures t.db.orders == LowerBoth(s.db.orders, KA) && t.db.fills == DeleteFills(s.db.fills, Pseudo(KA))
  {
    t := Apply(s, CrashInRollback(KA));
  }

  lemma RetryRun(s: Sys, cut: Sys)
    requires Enabled(s, CrashInRollback(KA)) && cut == Apply(s, CrashInRollback(KA))
    requires cut.sender.Idle? && cut.read == map[] && KA in cut.db.jobs && cut.db.jobs[KA] == Waiting(KA)
    ensures Feasible(s, [CrashInRollback(KA), ReadRow(KA), ExpireStale(KA)])
    ensures Run(s, [CrashInRollback(KA), ReadRow(KA), ExpireStale(KA)])
         == Apply(cut.(read := map[KA := Waiting(KA)]), ExpireStale(KA))
  {
    var t := cut.(read := map[KA := Waiting(KA)]);
    assert Apply(cut, ReadRow(KA)) == t;
    RunOne(t, ExpireStale(KA));
    assert [ReadRow(KA), ExpireStale(KA)][1..] == [ExpireStale(KA)];
    assert [CrashInRollback(KA), ReadRow(KA), ExpireStale(KA)][1..] == [ReadRow(KA), ExpireStale(KA)];
  }

  lemma ExpiresFirst(s: Sys)
    requires s.sender.Idle? && KA in s.read && s.read[KA] == Waiting(KA)
    requires s.db.orders == Table(10, 0, 10) && s.db.fills == [Fill(KB)]
    ensures var t := Apply(s, ExpireStale(KA));
      ID in t.db.orders && t.db.orders[ID].order.filledSize == 0 && t.db.fills == [Fill(KB)]
  {
    Distinct();
    LowerTable(10, 0, 10);
    assert !Live(s.db.fills, KA);
    DeleteNone(s.db.fills, KA);
  }

  // ----- a settled trade that is marked FAILED -----

  lemma SucceedsOnChain(s: Sys) returns (t: Sys)
    requires Reachable(s) && s.sender.Idle? && s.read == map[KB := SignedJob(Submitted, Some("h"))]
    requires KB in s.db.jobs && s.db.jobs[KB] == SignedJob(Submitted, Some("h"))
    ensures Reachable(t) && t.pending == s.pending && t.inflight == s.inflight && t.sender.Idle? && t.read == map[]
    ensures JobIs(t.db, KB, Confirmed) && t.db.jobs == s.db.jobs[KB := t.db.jobs[KB]]
    ensures t.db.orders == s.db.orders && t.db.fills == Stamp(s.db.fills, KB, true, "h", 7)
  {
    Next(s, PollSubmitted(KB, Success(7), Rejected, []));
    t := Apply(s, PollSubmitted(KB, Success(7), Rejected, []));
  }

  lemma Expires(s: Sys) returns (t: Sys)
    requires Reachable(s) && s.sender.Idle? && s.read == map[KA := Waiting(KA)] && JobIs(s.db, KA, Queued)
    ensures Reachable(t) && t.pending == s.pending && t.inflight == s.inflight
    ensures t.db.orders == LowerBoth(s.db.orders, KA) && t.db.fills == DeleteFills(s.db.fills, Pseudo(KA))
    ensures KB in s.db.jobs && KB != KA ==> KB in t.db.jobs && t.db.jobs[KB] == s.db.jobs[KB]
  {
    Next(s, ExpireStale(KA));
    t := Apply(s, ExpireStale(KA));
  }

  function Settled(): FillRow { Fill(KB).(txHash := Chain("h"), ledger := 7) }

  lemma SettledFills()
    ensures Stamp([Fill(KA), Fill(KB)], KB, true, "h", 7) == [Fill(KA), Settled()]
    ensures DeleteFills([Fill(KA), Settled()], Pseudo(KA)) == [Settled()]
  {
    Distinct();
    DeleteAt([Fill(KA), Settled()], KA, 0);
  }

  lemma TradeSettled() returns (s: Sys)
    ensures Reachable(s) && s.pending == [] && s.inflight.None? && s.sender.Idle? && s.read == map[]
    ensures JobIs(s.db, KB, Confirmed) && KA in s.db.jobs && s.db.jobs[KA] == Waiting(KA)
    ensures s.db.orders == Table(20, 10, 10) && s.db.fills == [Fill(KA), Settled()]
  {
    s := SubmittedRead();
    s := SucceedsOnChain(s);
    SettledFills();
    assert KA != KB by { Distinct(); }
  }

  /** The second trade is settled and the first one expired; the bid has 10 left again. */
  lemma SettledAndFreed() returns (s: Sys)
    ensures Reachable(s) && s.pending == [] && s.inflight.None? && JobIs(s.db, KB, Confirmed)
    ensures s.db.orders == Table(10, 0, 10) && s.db.fills == [Settled()]
  {
    s := TradeSettled();
    SettledFills();
    assert KA != KB by { Distinct(); }
    s := Reads(s, KA);
    s := Expires(s);
    LowerTable(20, 10, 10);
  }

  lemma CanTradeRest(db: Db)
    requires db.orders == Table(10, 0, 10) && db.fills == [Settled()]
    ensures CanTrade(db, Bid(10), AskB(10)) && Settled() in db.fills
  {
    assert !Live(db.fills, KB) by {
      assert Settled().txHash == Chain("h");
      LiveOne(Settled(), KB);
    }
    CanTradeB(db, 0, 10);
    assert db.fills[0] == Settled();
  }

  /**
   * The second trade settles on chain. The first one expires, which frees the bid, and the same two
   * orders trade the same size again. The new settlement is refused, and the job of the trade that
   * did settle turns from CONFIRMED to FAILED.
   */
  lemma SettledTradeMarkedFailed() returns (s: Sys)
    ensures Reachable(s) && InflightIs(s.inflight, KB) && JobIs(s.db, KB, Confirmed) && Settled() in s.db.fills
    ensures JobIs(Apply(s, Settle(Rejected)).db, KB, Failed)
  {
    s := SettledAndFreed();
    CanTradeRest(s.db);
    s := TradesB(s, 10);
    RefusedFails(s, KB);
  }

  lemma RefusedFails(s: Sys, k: FillKey)
    requires InflightIs(s.inflight, k)
    ensures JobIs(Apply(s, Settle(Rejected)).db, k, Failed)
  {
  }

  // ----- a settled trade that keeps its pending hash -----

  lemma CrashOrphans(s: Sys)
    requires s.sender.Idle? && s.read == map[KB := SignedJob(Submitted, Some("h"))] && s.inflight.None?
    requires JobIs(s.db, KB, Submitted) && Live(s.db.fills, KB) && !FastPath(s.db.orders, KB)
    ensures var t := Apply(s, CrashInConfirm(KB)); JobIs(t.db, KB, Confirmed) && OrphanIn(t, KB) && KB !in t.read
  {
  }

  /** The reconciler dies after confirming the second trade: the trade is settled, its fill pending for good. */
  lemma ConfirmedFillStaysPending() returns (s: Sys)
    ensures Reachable(s) && Enabled(s, CrashInConfirm(KB))
    ensures var t := Apply(s, CrashInConfirm(KB)); JobIs(t.db, KB, Confirmed) && OrphanIn(t, KB) && KB !in t.read
  {
    s := SubmittedRead();
    assert s.db.fills[1].txHash == Pseudo(KB);
    assert !FastPath(s.db.orders, KB) by { Distinct(); }
    CrashOrphans(s);
  }

  // ----- a job in two hands -----

  /** The reconciler reads the signed job, a request of the route claims it, and then the reconciler does too. */
  lemma BothClaim() returns (s: Sys)
    ensures Reachable(s) && s.sender == Claimed(KB) && s.route == map[KB := RouteClaimed] && KB in s.read
    ensures KB in s.db.jobs && s.db.jobs[KB] == SignedJob(Submitted, None)
    ensures s.sends == s.routeSends == multiset{}
  {
    s := BothTradesSigned();
    s := Reads(s, KB);
    s := RouteClaims(s);
    s := ReconcilerClaims(s);
  }

  lemma ReconcilerSends(s: Sys) returns (t: Sys)
    requires Reachable(s) && s.sender == Claimed(KB)
    ensures Reachable(t) && t == s.(sender := Sent(KB, "q"), sends := s.sends + multiset{KB})
  {
    Next(s, Send("q"));
    t := Apply(s, Send("q"));
  }

  /** Both send the job, and the hash of the route's transaction is overwritten by that of the reconciler's. */
  lemma JobSentTwice() returns (s: Sys)
    ensures Reachable(s) && s.sends[KB] == 1 && s.routeSends[KB] == 1 && s.sender.Sent?
    ensures KB in s.db.jobs && s.db.jobs[KB].submittedHash == Some("h")
    ensures var t := Apply(s, RecordSent); KB in t.db.jobs && t.db.jobs[KB].submittedHash == Some("q")
  {
    s := BothClaim();
    s := RouteSends(s);
    s := ReconcilerSends(s);
  }

  /** The reconciler has confirmed the job when the route's own attempt throws and marks it FAILED. */
  lemma ConfirmedJobMarkedFailed() returns (s: Sys)
    ensures Reachable(s) && KB in s.route && JobIs(s.db, KB, Confirmed)
    ensures JobIs(Apply(s, RouteFail(KB)).db, KB, Failed)
  {
    s := BothClaim();
    s := ReconcilerSends(s);
    s := ReconcilerConfirms(s);
  }

  lemma ReconcilerConfirms(s: Sys) returns (t: Sys)
    requires Reachable(s) && s.sender == Sent(KB, "q") && KB in s.read && KB in s.db.jobs
    ensures Reachable(t) && JobIs(t.db, KB, Confirmed) && t.route == s.route
  {
    t := s.(db := RecordHash(s.db, KB, "q"), sender := Polling(KB, "q"));
    Next(s, RecordSent);
    assert Apply(s, RecordSent) == t;
    Next(t, ConfirmSent(7));
    t := Apply(t, ConfirmSent(7));
  }
}
