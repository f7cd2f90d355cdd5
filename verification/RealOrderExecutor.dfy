/** The gate chain and the two execution branches of app/broker/real_order_executor.py. */
module RealOrderExecutor {
  import opened Wrappers
  import opened OrderCandidates
  import opened RealOrderStore
  import Kis = KisTransport

  datatype Settings = Settings(
    orderDryRun: bool,
    killSwitch: bool,
    tradingSafety: bool,
    realTrading: bool,
    kisOrder: bool,
    maxOrderAmount: real,
    maxDailyAmount: real)

  datatype Factory = NoFactory | FactoryRaises | FactoryGivesFake | FactoryGivesReal

  /** How the executor was built: its own transport is the fake one unless a real one was
      injected; a transport factory, when there is one, serves the real path instead. */
  datatype Wiring = Wiring(injectedReal: bool, factory: Factory)

  /** What one call meets: its two clock readings (at gate 8 and at the row's insertion), the
      verdict of the risk engine, and the broker's reply should an order go out. */
  datatype Call = Call(
    candidateId: nat,
    gateTime: int,
    insertTime: int,
    riskPassed: bool,
    wiring: Wiring,
    reply: Kis.PlaceResult)

  datatype Reason =
    | CandidateNotFound | NotApproved | AlreadyExecuted | DuplicateRealOrder | KillSwitchOn
    | TradingSafetyDisabled | RealTradingDisabled | KisOrderDisabled | AmountExceedsPerOrderCap
    | AmountExceedsDailyCap | RiskRejected | TransportUnavailable | BrokerFailure(cause: Kis.PlaceClass)

  datatype ExecutorStatus = RanDry | Blocked | SentToBroker | FailedAtBroker

  datatype ExecutorResult = ExecutorResult(
    success: bool, dryRun: bool, blocked: Option<Reason>, orderId: Option<nat>, status: ExecutorStatus)

  function BlockedBy(reason: Reason, dryRun: bool, orderId: Option<nat>): ExecutorResult {
    ExecutorResult(false, dryRun, Some(reason), orderId, Blocked)
  }

  predicate RealTransportAvailable(wiring: Wiring) {
    wiring.factory == FactoryGivesReal || (wiring.factory == NoFactory && wiring.injectedReal)
  }

  /** Gates 1 to 10 in the order the executor takes them; None lets the order through. */
  function Gate(store: Store, settings: Settings, call: Call): Option<ExecutorResult> {
    var dry := settings.orderDryRun;
    if call.candidateId >= |store.candidates| then Some(BlockedBy(CandidateNotFound, dry, None))
    else
      var candidate := store.candidates[call.candidateId];
      var existing := LatestActive(store.orders, call.candidateId);
      if candidate.status != Approved then Some(BlockedBy(NotApproved, dry, None))
      else if existing.Some? then
        Some(BlockedBy(if dry then AlreadyExecuted else DuplicateRealOrder, dry, existing))
      else if settings.killSwitch then Some(BlockedBy(KillSwitchOn, dry, None))
      else if !settings.tradingSafety then Some(BlockedBy(TradingSafetyDisabled, dry, None))
      else if !settings.realTrading then Some(BlockedBy(RealTradingDisabled, dry, None))
      else if !settings.kisOrder then Some(BlockedBy(KisOrderDisabled, dry, None))
      else if candidate.estimatedAmount > settings.maxOrderAmount then
        Some(BlockedBy(AmountExceedsPerOrderCap, dry, None))
      else if TodayTotal(store, candidate.accountId, call.gateTime) + candidate.estimatedAmount
              > settings.maxDailyAmount then
        Some(BlockedBy(AmountExceedsDailyCap, dry, None))
      else if !call.riskPassed then Some(BlockedBy(Reason.RiskRejected, dry, None))
      else if !dry && !RealTransportAvailable(call.wiring) then Some(BlockedBy(TransportUnavailable, false, None))
      else None
  }

  function NewOrder(store: Store, call: Call, dryRun: bool): RealOrder
    requires call.candidateId < |store.candidates|
  {
    var c := store.candidates[call.candidateId];
    RealOrder(call.candidateId, c.terms, c.estimatedAmount,
              if dryRun then DryRun else Created, dryRun, call.insertTime, None)
  }

  /** int(limit_price or 0): truncation toward zero. */
  function RequestPrice(terms: OrderTerms): int {
    match terms.limitPrice
    case None => 0
    case Some(p) => if p >= 0.0 then p.Floor else -((-p).Floor)
  }

  /** A dry run places its order on the executor's own transport, whichever that is, before its
      row `id` is on file. */
  function DryCalls(id: nat, row: RealOrder, wiring: Wiring): seq<DryCall> {
    if wiring.injectedReal then [DryCall(id, row.candidateId, row.terms, RequestPrice(row.terms))] else []
  }

  /** The whole effect of one execute call. */
  function Execute(store: Store, settings: Settings, call: Call): (Store, ExecutorResult) {
    var blocked := Gate(store, settings, call);
    if blocked.Some? then (store, blocked.value)
    else
      var id := |store.orders|;
      var row := NewOrder(store, call, settings.orderDryRun);
      if settings.orderDryRun then
        (store.(orders := store.orders + [row], dryCalls := store.dryCalls + DryCalls(id, row, call.wiring)),
         ExecutorResult(true, true, None, Some(id), RanDry))
      else
        var c := Kis.ClassifyPlaceMessage(call.reply.message);
        var placed := PlaceCall(id, row.candidateId, row.terms, RequestPrice(row.terms), call.reply);
        var sent := store.(calls := store.calls + [placed]);
        if c == Kis.Submitted then
          (sent.(orders := store.orders + [row.(status := Submitted)],
                 audits := store.audits + [AuditRow(call.candidateId, RealOrderSubmitted)]),
           ExecutorResult(true, false, None, Some(id), SentToBroker))
        else
          (sent.(orders := store.orders + [row.(status := Failed, errorCode := Some(c))],
                 audits := store.audits + [AuditRow(call.candidateId, RealOrderFailed(c))]),
           ExecutorResult(false, false, Some(BrokerFailure(c)), Some(id), FailedAtBroker))
  }

  /** execute, step by step on the database: an accepted real order is on file as CREATED
      before its single place_order call goes out. */
  method ExecuteOrder(db: Database, settings: Settings, call: Call) returns (result: ExecutorResult)
    modifies db
    ensures (db.Contents(), result) == Execute(old(db.Contents()), settings, call)
  {
    var blocked := Gate(db.Contents(), settings, call);
    if blocked.Some? {
      return blocked.value;
    }
    if settings.orderDryRun {
      var dryRow := NewOrder(db.Contents(), call, true);
      if call.wiring.injectedReal {
        db.PlaceDryRun(dryRow.candidateId, dryRow.terms, RequestPrice(dryRow.terms));
      }
      assert db.dryCalls == old(db.dryCalls) + DryCalls(|db.orders|, dryRow, call.wiring);
      var id := db.CreateOrder(dryRow);
      return ExecutorResult(true, true, None, Some(id), RanDry);
    }
    var row := NewOrder(db.Contents(), call, false);
    var id := db.CreateOrder(row);
    db.PlaceOrder(id, RequestPrice(db.orders[id].terms), call.reply);
    var c := Kis.ClassifyPlaceMessage(call.reply.message);
    if c == Kis.Submitted {
      db.UpdateStatus(id, Submitted);
      assert db.orders == old(db.orders) + [row.(status := Submitted)];
      db.AppendAudit(call.candidateId, RealOrderSubmitted);
      result := ExecutorResult(true, false, None, Some(id), SentToBroker);
    } else {
      db.UpdateStatus(id, Failed);
      db.orders := db.orders[id := db.orders[id].(errorCode := Some(c))];
      assert db.orders == old(db.orders) + [row.(status := Failed, errorCode := Some(c))];
      db.AppendAudit(call.candidateId, RealOrderFailed(c));
      result := ExecutorResult(false, false, Some(BrokerFailure(c)), Some(id), FailedAtBroker);
    }
  }
}
