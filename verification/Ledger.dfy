/**
 * The settlement ledger: the `Order`, `Fill`, `TxJob` and `Market` rows, and the groups of SQL
 * statements that client/scripts/matcher-service.ts and client/scripts/settlement-reconciler.ts
 * run against them. Each group is one function on `Db` and one method of `Database`.
 */
module Ledger {
  import opened Wrappers
  import opened Sequences
  import opened BigInt
  import opened Matching

  // ----- rows -----

  /** What `pseudoTxHash` hashes. The 32-bit hash itself is idealised to be injective. */
  datatype FillKey = FillKey(maker: OrderId, taker: OrderId, fillSize: int)

  /** A fill carries its pseudo hash until the reconciler sees the transaction on chain. */
  datatype TxHash = Pseudo(key: FillKey) | Chain(hash: string)

  datatype FillRow = FillRow(
    txHash: TxHash, marketId: nat, maker: OrderId, taker: OrderId, fillSize: int, fillPrice: int, ledger: int)

  datatype OrderRow = OrderRow(order: Order, cancelled: bool)

  type OrderTable = map<OrderId, OrderRow>

  datatype MarketRow = MarketRow(lastPrice: int, volume: int)

  type MarketTable = map<nat, MarketRow>

  datatype Status = Queued | Submitted | Confirmed | Failed

  /** For the updates that carry no status guard. */
  const ANY_STATUS := {Queued, Submitted, Confirmed, Failed}

  /** The part of `unsignedXdr` that the reconciler reads. */
  datatype Payload = Payload(pendingTxHash: FillKey, makerSigned: bool, takerSigned: bool)
  {
    predicate BothSigned() { makerSigned && takerSigned }
  }

  datatype Job = Job(status: Status, submittedHash: Option<string>, payload: Option<Payload>)

  /** Jobs are unique per (network, kind, payloadHash); the payload hash is the fill's pseudo hash. */
  datatype Db = Db(
    orders: OrderTable, fills: seq<FillRow>, jobs: map<FillKey, Job>, markets: MarketTable)

  function KeyOf(m: Match): FillKey { FillKey(m.maker.Id(), m.taker.Id(), m.fillSize) }

  function RowOf(m: Match): FillRow {
    FillRow(Pseudo(KeyOf(m)), m.maker.marketId, m.maker.Id(), m.taker.Id(), m.fillSize, m.fillPrice, 0)
  }

  function Notional(size: int, price: int): int { TruncDiv(size * price, PRICE_PRECISION) }

  // ----- single statements -----

  predicate HasRoom(orders: OrderTable, id: OrderId, delta: int) {
    id in orders && orders[id].order.filledSize + delta <= orders[id].order.size
  }

  function SetFilled(orders: OrderTable, id: OrderId, filled: int): OrderTable
    requires id in orders
  {
    orders[id := orders[id].(order := orders[id].order.(filledSize := filled))]
  }

  function Raise(orders: OrderTable, id: OrderId, delta: int): OrderTable
    requires id in orders
  {
    SetFilled(orders, id, orders[id].order.filledSize + delta)
  }

  /** GREATEST(0, filledSize - delta); an UPDATE that finds no row does nothing. */
  function Lower(orders: OrderTable, id: OrderId, delta: int): OrderTable {
    if id in orders then SetFilled(orders, id, Max(0, orders[id].order.filledSize - delta)) else orders
  }

  /** Takes a fill's size off both its orders. */
  function LowerBoth(orders: OrderTable, k: FillKey): OrderTable {
    Lower(Lower(orders, k.maker, k.fillSize), k.taker, k.fillSize)
  }

  function DeleteFills(fills: seq<FillRow>, h: TxHash): seq<FillRow> {
    Filter((f: FillRow) => f.txHash != h, fills)
  }

  function AddVolume(markets: MarketTable, m: Match): MarketTable {
    var id := m.maker.marketId;
    if id in markets
    then markets[id := MarketRow(m.fillPrice, markets[id].volume + Notional(m.fillSize, m.fillPrice))]
    else markets
  }

  function ReturnVolume(markets: MarketTable, m: Match): MarketTable {
    var id := m.maker.marketId;
    if id in markets
    then markets[id := markets[id].(volume := Max(0, markets[id].volume - Notional(m.fillSize, m.fillPrice)))]
    else markets
  }

  function Cancel(db: Db, id: OrderId): Db {
    if id in db.orders then db.(orders := db.orders[id := db.orders[id].(cancelled := true)]) else db
  }

  /** Nothing differs but the filled size of one order, if there is such an order. */
  ghost predicate OnlyFilled(orders: OrderTable, orders': OrderTable, id: OrderId) {
    && orders'.Keys == orders.Keys
    && (forall j :: j in orders && j != id ==> orders'[j] == orders[j])
    && (id in orders ==>
         orders'[id] == orders[id].(order := orders[id].order.(filledSize := orders'[id].order.filledSize)))
  }

  lemma RaisedOnly(orders: OrderTable, orders': OrderTable, id: OrderId, delta: int)
    requires OnlyFilled(orders, orders', id) && id in orders
    requires orders'[id].order.filledSize == orders[id].order.filledSize + delta
    ensures orders' == Raise(orders, id, delta)
  {
  }

  lemma LoweredOnly(orders: OrderTable, orders': OrderTable, id: OrderId, delta: int)
    requires OnlyFilled(orders, orders', id)
    requires id in orders ==> orders'[id].order.filledSize == Max(0, orders[id].order.filledSize - delta)
    ensures orders' == Lower(orders, id, delta)
  {
  }

  // ----- the matcher's groups -----

  predicate Conflicts(fills: seq<FillRow>, m: Match) {
    exists f | f in fills ::
      f.txHash == Pseudo(KeyOf(m)) && f.maker == m.maker.Id() && f.taker == m.taker.Id()
  }

  /** `persistFill`: the second and third exit leave a half-written fill behind. */
  function Persist(db: Db, m: Match): (Db, bool) {
    if Conflicts(db.fills, m) then (db, false)
    else
      var inserted := db.(fills := db.fills + [RowOf(m)]);
      if !HasRoom(inserted.orders, m.maker.Id(), m.fillSize) then (inserted, false)
      else
        var made := inserted.(orders := Raise(inserted.orders, m.maker.Id(), m.fillSize));
        if !HasRoom(made.orders, m.taker.Id(), m.fillSize) then (made, false)
        else
          (made.(orders := Raise(made.orders, m.taker.Id(), m.fillSize), markets := AddVolume(made.markets, m)), true)
  }

  /** The matcher's `rollbackFill`, which also gives the volume back. */
  function Rollback(db: Db, m: Match): Db {
    var k := KeyOf(m);
    db.(fills := DeleteFills(db.fills, Pseudo(k)),
        markets := ReturnVolume(db.markets, m),
        orders := LowerBoth(db.orders, k))
  }

  function RecordFailure(db: Db, k: FillKey): Db {
    db.(jobs := db.jobs[k := if k in db.jobs then db.jobs[k].(status := Failed) else Job(Failed, None, None)])
  }

  function ConfirmSigned(db: Db, k: FillKey, hash: string): Db {
    var job := if k in db.jobs then db.jobs[k] else Job(Confirmed, None, None);
    db.(jobs := db.jobs[k := job.(status := Confirmed, submittedHash := Some(hash))])
  }

  /** On conflict only the payload is replaced: a job that is already terminal stays terminal. */
  function QueueSettlement(db: Db, k: FillKey): Db {
    var payload := Some(Payload(k, false, false));
    db.(jobs := db.jobs[k := if k in db.jobs then db.jobs[k].(payload := payload) else Job(Queued, None, payload)])
  }

  /** The chain's answer to a settlement attempt. */
  datatype Answer = Accepted(hash: string) | Rejected

  predicate Signed(o: Order) { o.signature.Some? && o.signature.value != "" }

  function Execute(db: Db, m: Match, answer: Answer): (Db, bool) {
    if answer.Rejected? then (RecordFailure(db, KeyOf(m)), false)
    else if Signed(m.maker) && Signed(m.taker) then (ConfirmSigned(db, KeyOf(m), answer.hash), true)
    else (QueueSettlement(db, KeyOf(m)), true)
  }

  function Quarantine(db: Db, m: Match, sigValid: Order -> bool): Db {
    var db1 := if sigValid(m.maker) then db else Cancel(db, m.maker.Id());
    if sigValid(m.taker) then db1 else Cancel(db1, m.taker.Id())
  }

  /** Everything a tick learns from outside; `answer(i)` is the chain's answer to the i-th match. */
  datatype TickEnv = TickEnv(
    oracle: Option<nat>, maxDeviationBps: nat, sigValid: Order -> bool, answer: nat -> Answer)
  {
    predicate InBand(price: int) { oracle.Some? && WithinOracleBand(price, oracle.value, maxDeviationBps) }

    predicate Poisoned(m: Match) { !sigValid(m.maker) || !sigValid(m.taker) }
  }

  /** What a tick does with one match. */
  function Process(db: Db, m: Match, env: TickEnv, answer: Answer): Db {
    if !env.InBand(m.fillPrice) then db
    else if env.Poisoned(m) then Quarantine(db, m, env.sigValid)
    else
      var (persisted, ok) := Persist(db, m);
      if !ok then persisted
      else
        var (executed, settled) := Execute(persisted, m, answer);
        if settled then executed else Rollback(executed, m)
  }

  function ProcessAll(db: Db, ms: seq<Match>, env: TickEnv): Db {
    if ms == [] then db
    else Process(ProcessAll(db, ms[..|ms| - 1], env), ms[|ms| - 1], env, env.answer(|ms| - 1))
  }

  lemma CancelledOnly(db: Db, orders': OrderTable, id: OrderId)
    requires orders'.Keys == db.orders.Keys && forall j :: j in orders' && j != id ==> orders'[j] == db.orders[j]
    requires id in orders' ==> orders'[id] == OrderRow(db.orders[id].order, true)
    ensures Cancel(db, id) == db.(orders := orders')
  {
  }

  // ----- the reconciler's groups -----

  /** The reconciler's `rollbackFill`: volume is not given back. */
  function RollbackJob(db: Db, payload: Option<Payload>): Db {
    if payload.None? then db
    else
      var k := payload.value.pendingTxHash;
      db.(fills := DeleteFills(db.fills, Pseudo(k)), orders := LowerBoth(db.orders, k))
  }

  function SetStatus(db: Db, k: FillKey, status: Status): Db {
    if k in db.jobs then db.(jobs := db.jobs[k := db.jobs[k].(status := status)]) else db
  }

  function SetStatusFrom(db: Db, k: FillKey, from: Status, to: Status): Db {
    if k in db.jobs && db.jobs[k].status == from then SetStatus(db, k, to) else db
  }

  /** Stamps the chain's hash on the pending fill; only `reconcileSubmitted` compares the nonces too. */
  function Stamp(fills: seq<FillRow>, k: FillKey, nonces: bool, hash: string, ledger: int): seq<FillRow> {
    seq(|fills|, i requires 0 <= i < |fills| =>
      var f := fills[i];
      if f.txHash == Pseudo(k) && f.maker.owner == k.maker.owner && f.taker.owner == k.taker.owner
         && (nonces ==> f.maker.nonce == k.maker.nonce && f.taker.nonce == k.taker.nonce)
      then f.(txHash := Chain(hash), ledger := ledger) else f)
  }

  function StampPayload(db: Db, payload: Option<Payload>, nonces: bool, hash: string, ledger: int): Db {
    if payload.None? then db
    else db.(fills := Stamp(db.fills, payload.value.pendingTxHash, nonces, hash, ledger))
  }

  /** `getTransaction` answers, or throws. */
  datatype Poll = Success(ledger: int) | Failure | NotFound | Unreachable

  predicate Claimable(db: Db, k: FillKey) {
    && k in db.jobs && db.jobs[k].status in {Queued, Submitted}
    && (db.jobs[k].status == Queued || db.jobs[k].submittedHash.None?)
  }

  function RecordHash(db: Db, k: FillKey, hash: string): Db {
    if k in db.jobs then db.(jobs := db.jobs[k := db.jobs[k].(submittedHash := Some(hash))]) else db
  }

  function ConfirmResubmitted(db: Db, k: FillKey, payload: Option<Payload>, hash: string, ledger: int): Db {
    StampPayload(SetStatus(db, k, Confirmed), payload, false, hash, ledger)
  }

  function PollResubmitted(db: Db, k: FillKey, payload: Option<Payload>, hash: string, polls: seq<Poll>): Db {
    if polls == [] then db
    else match polls[0]
      case Success(ledger) => ConfirmResubmitted(db, k, payload, hash, ledger)
      case NotFound => PollResubmitted(db, k, payload, hash, polls[1..])
      case _ => SetStatus(db, k, Failed)
  }

  /** `resubmitJob`: a failed send or poll marks the job FAILED and leaves its fill alone. */
  function Resubmit(db: Db, k: FillKey, payload: Option<Payload>, send: Answer, polls: seq<Poll>): Db {
    if payload.None? || !payload.value.BothSigned() || !Claimable(db, k) then db
    else
      var claimed := SetStatus(db, k, Submitted);
      if send.Rejected? then SetStatus(claimed, k, Failed)
      else PollResubmitted(RecordHash(claimed, k, send.hash), k, payload, send.hash, polls)
  }

  /** `reconcileSubmitted` on the job as the tick's query returned it. */
  function Reconcile(db: Db, k: FillKey, job: Job, poll: Poll, send: Answer, polls: seq<Poll>): Db {
    if job.submittedHash.None? then db
    else match poll
      case Unreachable => db
      case Success(ledger) =>
        StampPayload(SetStatusFrom(db, k, Submitted, Confirmed), job.payload, true, job.submittedHash.value, ledger)
      case Failure => SetStatusFrom(RollbackJob(db, job.payload), k, Submitted, Failed)
      case NotFound => Resubmit(db, k, job.payload, send, polls)
  }

  function Expire(db: Db, k: FillKey, job: Job): Db {
    if job.payload.Some? && job.payload.value.BothSigned() then db
    else SetStatusFrom(RollbackJob(db, job.payload), k, Queued, Failed)
  }

  function ExpireAll(db: Db, stale: seq<(FillKey, Job)>): Db {
    if stale == [] then db
    else var (k, job) := stale[|stale| - 1]; Expire(ExpireAll(db, stale[..|stale| - 1]), k, job)
  }

  // ----- the database -----

  class Database {
    var orders: OrderTable
    var fills: seq<FillRow>
    var jobs: map<FillKey, Job>
    var markets: MarketTable

    function Rows(): Db
      reads this
    {
      Db(orders, fills, jobs, markets)
    }

    constructor (orders: OrderTable, markets: MarketTable)
      ensures Rows() == Db(orders, [], map[], markets)
    {
      this.orders, this.markets := orders, markets;
      fills, jobs := [], map[];
    }

    /** UPDATE "Order" … WHERE id AND filledSize + delta <= size RETURNING id. */
    method RaiseFilled(id: OrderId, delta: int) returns (updated: bool)
      modifies this`orders
      ensures updated <==> HasRoom(old(orders), id, delta)
      ensures OnlyFilled(old(orders), orders, id)
      ensures id in orders ==>
        orders[id].order.filledSize == old(orders)[id].order.filledSize + (if updated then delta else 0)
    {
      updated := id in orders && orders[id].order.filledSize + delta <= orders[id].order.size;
      if updated {
        var row := orders[id];
        orders := orders[id := row.(order := row.order.(filledSize := row.order.filledSize + delta))];
      }
    }

    method LowerFilled(id: OrderId, delta: int)
      modifies this`orders
      ensures OnlyFilled(old(orders), orders, id)
      ensures id in orders ==> orders[id].order.filledSize == Max(0, old(orders)[id].order.filledSize - delta)
    {
      if id in orders {
        var row := orders[id];
        orders := orders[id := row.(order := row.order.(filledSize := Max(0, row.order.filledSize - delta)))];
      }
    }

    method LowerFilledBoth(k: FillKey)
      modifies this`orders
      ensures orders == LowerBoth(old(orders), k)
    {
      LowerFilled(k.maker, k.fillSize);
      LoweredOnly(old(orders), orders, k.maker, k.fillSize);
      ghost var made := orders;
      LowerFilled(k.taker, k.fillSize);
      LoweredOnly(made, orders, k.taker, k.fillSize);
    }

    method PersistFill(m: Match) returns (ok: bool)
      modifies this`fills, this`orders, this`markets
      ensures (Rows(), ok) == Persist(old(Rows()), m)
    {
      if Conflicts(fills, m) { return false; }
      fills := fills + [RowOf(m)];
      ghost var inserted := orders;
      var makerUpdated := RaiseFilled(m.maker.Id(), m.fillSize);
      if !makerUpdated {
        assert orders == inserted;
        return false;
      }
      RaisedOnly(inserted, orders, m.maker.Id(), m.fillSize);
      ghost var made := orders;
      var takerUpdated := RaiseFilled(m.taker.Id(), m.fillSize);
      if !takerUpdated {
        assert orders == made;
        return false;
      }
      RaisedOnly(made, orders, m.taker.Id(), m.fillSize);
      var id := m.maker.marketId;
      if id in markets {
        markets := markets[id := MarketRow(m.fillPrice, markets[id].volume + Notional(m.fillSize, m.fillPrice))];
      }
      return true;
    }

    method RollbackFill(m: Match)
      modifies this`fills, this`orders, this`markets
      ensures Rows() == Rollback(old(Rows()), m)
    {
      fills := DeleteFills(fills, Pseudo(KeyOf(m)));
      var id := m.maker.marketId;
      if id in markets {
        var fillValue := Notional(m.fillSize, m.fillPrice);
        markets := markets[id := markets[id].(volume := Max(0, markets[id].volume - fillValue))];
      }
      LowerFilledBoth(KeyOf(m));
    }

    method RecordSettlementFailure(k: FillKey)
      modifies this`jobs
      ensures jobs.Keys == old(jobs).Keys + {k} && jobs[k].status == Failed
      ensures jobs[k].submittedHash == (if k in old(jobs) then old(jobs)[k].submittedHash else None)
      ensures jobs[k].payload == (if k in old(jobs) then old(jobs)[k].payload else None)
      ensures forall j :: j in old(jobs) && j != k ==> jobs[j] == old(jobs)[j]
    {
      jobs := jobs[k := if k in jobs then jobs[k].(status := Failed) else Job(Failed, None, None)];
    }

    method ExecuteSettlement(m: Match, answer: Answer) returns (settled: bool)
      modifies this`jobs
      ensures (Rows(), settled) == Execute(old(Rows()), m, answer)
    {
      var k := KeyOf(m);
      if answer.Rejected? {
        RecordSettlementFailure(k);
        assert jobs == RecordFailure(old(Rows()), k).jobs;
        return false;
      }
      if Signed(m.maker) && Signed(m.taker) {
        var payload := if k in jobs then jobs[k].payload else None;
        jobs := jobs[k := Job(Confirmed, Some(answer.hash), payload)];
      } else {
        var payload := Some(Payload(k, false, false));
        jobs := jobs[k := if k in jobs then jobs[k].(payload := payload) else Job(Queued, None, payload)];
      }
      return true;
    }

    method CancelPoisonOrder(o: Order)
      modifies this`orders
      ensures orders.Keys == old(orders).Keys
      ensures forall j :: j in orders && j != o.Id() ==> orders[j] == old(orders)[j]
      ensures o.Id() in orders ==> orders[o.Id()] == OrderRow(old(orders)[o.Id()].order, true)
    {
      if o.Id() in orders {
        orders := orders[o.Id() := orders[o.Id()].(cancelled := true)];
      }
    }

    /** One market's share of the matcher's `tick`, from the loaded orders to the last match. */
    method MatcherTick(limitOrders: seq<Order>, marketOrders: seq<Order>, env: TickEnv)
      modifies this
      ensures Rows() == ProcessAll(old(Rows()),
        MatchSpec(InBand(limitOrders, env.oracle, env.maxDeviationBps), marketOrders).out, env)
    {
      var matches := MatchAll(InBand(limitOrders, env.oracle, env.maxDeviationBps), marketOrders);
      for i := 0 to |matches|
        invariant Rows() == ProcessAll(old(Rows()), matches[..i], env)
      {
        var m := matches[i];
        assert matches[..i + 1][..i] == matches[..i];
        if !env.InBand(m.fillPrice) { continue; }
        var poisoned := false;
        ghost var before := Rows();
        if !env.sigValid(m.maker) {
          CancelPoisonOrder(m.maker);
          CancelledOnly(before, orders, m.maker.Id());
          poisoned := true;
        }
        ghost var between := Rows();
        if !env.sigValid(m.taker) {
          CancelPoisonOrder(m.taker);
          CancelledOnly(between, orders, m.taker.Id());
          poisoned := true;
        }
        if poisoned { continue; }
        var ok := PersistFill(m);
        if ok {
          var settled := ExecuteSettlement(m, env.answer(i));
          if !settled {
            RollbackFill(m);
          }
        }
      }
      assert matches[..|matches|] == matches;
    }

    method RollbackJobFill(payload: Option<Payload>)
      modifies this`fills, this`orders
      ensures Rows() == RollbackJob(old(Rows()), payload)
    {
      if payload.None? { return; }
      var k := payload.value.pendingTxHash;
      fills := DeleteFills(fills, Pseudo(k));
      LowerFilledBoth(k);
    }

    method UpdateStatus(k: FillKey, from: set<Status>, to: Status)
      modifies this`jobs
      ensures Rows()
           == if k in old(jobs) && old(jobs)[k].status in from then SetStatus(old(Rows()), k, to) else old(Rows())
    {
      if k in jobs && jobs[k].status in from {
        jobs := jobs[k := jobs[k].(status := to)];
      }
    }

    method ResubmitJob(k: FillKey, payload: Option<Payload>, send: Answer, polls: seq<Poll>)
      modifies this`jobs, this`fills
      ensures Rows() == Resubmit(old(Rows()), k, payload, send, polls)
    {
      if payload.None? || !payload.value.BothSigned() { return; }
      if !Claimable(Rows(), k) { return; }
      UpdateStatus(k, {Queued, Submitted}, Submitted);
      if send.Rejected? {
        UpdateStatus(k, ANY_STATUS, Failed);
        return;
      }
      jobs := jobs[k := jobs[k].(submittedHash := Some(send.hash))];
      ghost var recorded := Rows();
      for i := 0 to |polls|
        invariant Rows() == recorded
        invariant PollResubmitted(recorded, k, payload, send.hash, polls[i..])
               == PollResubmitted(recorded, k, payload, send.hash, polls)
      {
        match polls[i] {
          case Success(ledger) =>
            UpdateStatus(k, ANY_STATUS, Confirmed);
            fills := Stamp(fills, payload.value.pendingTxHash, false, send.hash, ledger);
            return;
          case NotFound =>
          case _ =>
            UpdateStatus(k, ANY_STATUS, Failed);
            return;
        }
      }
    }

    method ReconcileSubmitted(k: FillKey, job: Job, poll: Poll, send: Answer, polls: seq<Poll>)
      modifies this`jobs, this`fills, this`orders
      ensures Rows() == Reconcile(old(Rows()), k, job, poll, send, polls)
    {
      if job.submittedHash.None? { return; }
      match poll {
        case Unreachable =>
        case Success(ledger) =>
          UpdateStatus(k, {Submitted}, Confirmed);
          if job.payload.Some? {
            fills := Stamp(fills, job.payload.value.pendingTxHash, true, job.submittedHash.value, ledger);
          }
        case Failure =>
          RollbackJobFill(job.payload);
          UpdateStatus(k, {Submitted}, Failed);
        case NotFound =>
          ResubmitJob(k, job.payload, send, polls);
      }
    }

    method ExpireStaleQueued(stale: seq<(FillKey, Job)>)
      modifies this`jobs, this`fills, this`orders
      ensures Rows() == ExpireAll(old(Rows()), stale)
    {
      for i := 0 to |stale|
        invariant Rows() == ExpireAll(old(Rows()), stale[..i])
      {
        var (k, job) := stale[i];
        assert stale[..i + 1][..i] == stale[..i];
        if job.payload.Some? && job.payload.value.BothSigned() { continue; }
        RollbackJobFill(job.payload);
        UpdateStatus(k, {Queued}, Failed);
      }
      assert stale[..|stale|] == stale;
    }
  }
}
