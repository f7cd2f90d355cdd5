/** What one fill sync does, in the fields of the broker's answer and of the order
    (app/broker/fill_sync_service.py with the decoding of app/broker/kis_order_transport_real.py). */
module SyncLaws {
  import opened Wrappers
  import opened Strings
  import opened RealOrderStore
  import opened RealOrderExecutor
  import opened FillSync
  import opened RealTradingRuns
  import opened FillLedger
  import Kis = KisTransport

  /** The greatest of the numbers. */
  ghost predicate IsGreatest(m: int, among: seq<int>) {
    m in among && forall k :: 0 <= k < |among| ==> among[k] <= m
  }

  // ---------------------------------------------------------------- the total after a report

  /** The fill total after a report on an open order: FULL raises it to the reported and the ordered
      quantity, PARTIAL to the reported one, NONE to zero; never below what it was. Any other report leaves it. */
  lemma ReportSetsTotal(store: Store, id: nat, r: Kis.FillReport)
    requires Open(store, id)
    ensures var total, after := FillTotal(store.fills, id), FillTotal(Sync(store, id, Reported(r)).0.fills, id);
            match r.status
            case Filled => IsGreatest(after, [total, r.filledQuantity, store.orders[id].terms.quantity, 0])
            case PartiallyFilled => IsGreatest(after, [total, r.filledQuantity, 0])
            case Pending => if r.success then IsGreatest(after, [total, 0]) else after == total
            case _ => after == total
  {
    if Cumulative(r) {
      ReportRaisesTotalToMaximum(store, id, r);
      var total, q := FillTotal(store.fills, id), store.orders[id].terms.quantity;
      var after := Max(total, EffectiveTotal(r, q));
      assert [total, r.filledQuantity, q, 0][0] == total && [total, r.filledQuantity, q, 0][1] == r.filledQuantity
          && [total, r.filledQuantity, q, 0][2] == q && [total, r.filledQuantity, q, 0][3] == 0;
      assert [total, r.filledQuantity, 0][0] == total && [total, r.filledQuantity, 0][1] == r.filledQuantity
          && [total, r.filledQuantity, 0][2] == 0;
      assert [total, 0][0] == total && [total, 0][1] == 0;
    }
  }

  // ---------------------------------------------------------------- decoded answers

  /** An answer that says something of the order. */
  predicate Heard(http: Kis.Http<Kis.QueryBody>) {
    http.Answered? && http.statusCode == 200 && http.body.QueryPayload? && http.body.rtCd == "0"
  }

  predicate HasRecord(http: Kis.Http<Kis.QueryBody>) {
    Heard(http) && http.body.record.Some?
  }

  /** A record flag is set. */
  predicate Flag(s: string) {
    Upper(s) == "Y"
  }

  /** A quantity of a record, zero when it does not parse. */
  function Parsed(q: Option<int>): int {
    match q case None => 0 case Some(n) => n
  }

  /** How the sync classes an answer, in the fields of the answer. */
  ghost predicate ClassOfAnswer(http: Kis.Http<Kis.QueryBody>, c: SyncClass) {
    if !Heard(http) then c == SyncFailed
    else match http.body.record
      case None => c == NoFill
      case Some(rec) =>
        var ordered, filled := Parsed(rec.ordQty), Parsed(rec.totCcldQty);
        if Flag(rec.rjctYn) then c == BrokerRejected
        else if Flag(rec.cnclYn) then c == BrokerCanceled
        else if filled == 0 then c == NoFill
        else if filled < 0 then c == SyncFailed
        else if filled < ordered then c == PartialFill
        else if ordered > 0 then c == FullFill
        else c == SyncFailed
  }

  lemma AnswerClassesExactly(http: Kis.Http<Kis.QueryBody>)
    ensures ClassOfAnswer(http, ClassifyReport(Kis.QueryAttempt(http).result))
    ensures var r := Kis.QueryAttempt(http).result;
            if HasRecord(http) then
              var ordered, filled := Parsed(http.body.record.value.ordQty), Parsed(http.body.record.value.totCcldQty);
              r.filledQuantity == filled && IsGreatest(r.remainingQuantity, [ordered - filled, 0])
            else r.filledQuantity == 0 && r.remainingQuantity == 0
  {
    if HasRecord(http) {
      var d := Parsed(http.body.record.value.ordQty) - Parsed(http.body.record.value.totCcldQty);
      assert [d, 0][0] == d && [d, 0][1] == 0;
    }
  }

  /** For an answer that repeats the ordered quantity and reports no more than that executed, and a
      positive quantity, the total becomes the greater of what it was and the executed quantity. */
  lemma DecodedExecutionIsBooked(store: Store, id: nat, http: Kis.Http<Kis.QueryBody>, executed: int)
    requires Open(store, id) && HasRecord(http)
    requires var rec := http.body.record.value;
             && rec.ordQty == Some(store.orders[id].terms.quantity) && rec.totCcldQty == Some(executed)
             && !Flag(rec.rjctYn) && !Flag(rec.cnclYn)
    requires 0 < executed <= store.orders[id].terms.quantity
    ensures IsGreatest(FillTotal(Sync(store, id, Reported(Kis.QueryAttempt(http).result)).0.fills, id),
                       [FillTotal(store.fills, id), executed])
  {
    hide Sync, FillTotal;
    var r := Kis.QueryAttempt(http).result;
    var total, after := FillTotal(store.fills, id), FillTotal(Sync(store, id, Reported(r)).0.fills, id);
    ReportSetsTotal(store, id, r);
    AnswerClassesExactly(http);
    assert r.filledQuantity == executed;
    assert [total, executed][0] == total && [total, executed][1] == executed;
    if r.status == Kis.Filled {
      var among := [total, r.filledQuantity, store.orders[id].terms.quantity, 0];
      assert among[0] == total && among[1] == executed;
    } else {
      var among := [total, r.filledQuantity, 0];
      assert among[0] == total && among[1] == executed;
    }
  }

  // ---------------------------------------------------------------- status, result and audit

  /** An order that takes no reports: a dry run, or one that has ended. */
  ghost predicate Ended(o: RealOrder) {
    o.dryRun || o.status in {DryRun, Filled, Canceled, OrderStatus.Rejected, Failed}
  }

  /** The quantities whose greatest a FULL, PARTIAL or NONE report stands for. */
  function Claims(r: Kis.FillReport, quantity: int): seq<int> {
    match r.status
    case Filled => [r.filledQuantity, quantity, 0]
    case PartiallyFilled => [r.filledQuantity, 0]
    case _ => [0]
  }

  /** The slice that a sync books: of this quantity, at the estimate's price per share or at one, and
      flagged FULL when the total reaches the ordered quantity. */
  ghost predicate IsSlice(f: RealFill, o: RealOrder, id: nat, delta: int, total: int) {
    && f.orderId == id && f.quantity == delta
    && (if o.terms.quantity > 0 && o.estimatedAmount > 0.0 then
          f.unitPrice * (o.terms.quantity as real) == o.estimatedAmount
        else f.unitPrice == 1.0)
    && f.grossAmount == f.unitPrice * (delta as real) && f.netAmount == f.grossAmount
    && (f.isFull <==> o.terms.quantity > 0 && total >= o.terms.quantity)
  }

  lemma NewFillIsIt(o: RealOrder, id: nat, delta: int, before: int)
    ensures IsSlice(NewFill(o, id, delta, before), o, id, delta, before + delta)
  {
    if o.terms.quantity > 0 && o.estimatedAmount > 0.0 {
      var q := o.terms.quantity as real;
      assert o.estimatedAmount / q * q == o.estimatedAmount;
    }
  }

  /** One sync moved the order to a status, appended one audit row of the candidate, and booked a slice
      exactly when the total grew; nothing else changed, and the answer tells it. */
  ghost predicate Moved(store: Store, id: nat, answer: Answer, status: OrderStatus, event: AuditEvent,
                        skipped: Option<SkipReason>, delta: int, booked: int)
    requires id < |store.orders|
  {
    var (after, result) := Sync(store, id, answer);
    var o, total := store.orders[id], FillTotal(store.fills, id);
    && after.candidates == store.candidates && after.calls == store.calls && after.dryCalls == store.dryCalls
    && after.orders == store.orders[id := o.(status := status)]
    && after.audits == store.audits + [AuditRow(o.candidateId, event)]
    && (if booked > 0 then
          && |after.fills| == |store.fills| + 1 && after.fills[..|store.fills|] == store.fills
          && IsSlice(after.fills[|store.fills|], o, id, booked, total + booked)
        else after.fills == store.fills)
    && result.createdFills == (if booked > 0 then 1 else 0)
    && result.skipped == skipped && result.delta == delta
    && result.fillsTotal == total + booked
    && result.orderStatus == Some(status)
  }

  /** The class a report that was recognised goes by in the answer and the audit row. */
  function ClassName(r: Kis.FillReport): SyncClass {
    match r.status
    case Filled => FullFill
    case PartiallyFilled => PartialFill
    case Pending => NoFill
    case RejectedByBroker => BrokerRejected
    case Canceled => BrokerCanceled
  }

  /** Everything one sync of an order that has not ended does, by the report. */
  lemma OpenSyncExactly(store: Store, id: nat, answer: Answer)
    requires id < |store.orders| && !Ended(store.orders[id])
    ensures var o, total := store.orders[id], FillTotal(store.fills, id);
            match answer
            case Raised => Moved(store, id, answer, o.status, FillFailed, Some(TransportRaised), 0, 0)
            case Reported(r) =>
              if r.status == Kis.RejectedByBroker then
                Moved(store, id, answer, OrderStatus.Rejected, FillSynced(BrokerRejected, 0), None, 0, 0)
              else if r.status == Kis.Canceled then
                Moved(store, id, answer, Canceled, FillSynced(BrokerCanceled, 0), None, 0, 0)
              else if r.status == Kis.Pending && !r.success then
                Moved(store, id, answer, o.status, FillFailed, Some(UnrecognisedStatus), 0, 0)
              else
                exists claimed: int :: IsGreatest(claimed, Claims(r, o.terms.quantity)) &&
                  var delta := claimed - total;
                  if delta < 0 then
                    Moved(store, id, answer, o.status, NegativeDelta(delta, total, claimed),
                          Some(NegativeDeltaSkip), delta, 0)
                  else
                    var status := if r.status == Kis.Filled then Filled
                                  else if r.status == Kis.PartiallyFilled then PartiallyFilled else o.status;
                    Moved(store, id, answer, status, FillSynced(ClassName(r), delta), None, delta, delta)
    ensures answer.Reported? && Sync(store, id, answer).1.skipped.None? ==>
              Sync(store, id, answer).1.fillStatus == ClassName(answer.report)
    ensures answer.Raised? || Sync(store, id, answer).1.skipped.Some? ==>
              Sync(store, id, answer).1.fillStatus == SyncFailed
  {
    hide FillTotal, NewFill;
    var o, total := store.orders[id], FillTotal(store.fills, id);
    if answer.Reported? && Cumulative(answer.report) {
      var r := answer.report;
      var claimed := EffectiveTotal(r, o.terms.quantity);
      ClaimIsGreatest(r, o.terms.quantity);
      NewFillIsIt(o, id, claimed - total, total);
      hide IsSlice, IsGreatest, EffectiveTotal;
      assert IsGreatest(claimed, Claims(r, o.terms.quantity));
    }
  }

  lemma ClaimIsGreatest(r: Kis.FillReport, quantity: int)
    requires Cumulative(r)
    ensures IsGreatest(EffectiveTotal(r, quantity), Claims(r, quantity))
  {
    var among := Claims(r, quantity);
    assert among[|among| - 1] == 0 && (|among| > 1 ==> among[0] == r.filledQuantity)
        && (|among| > 2 ==> among[1] == quantity);
  }

  /** A sync of an unknown or ended order changes nothing and says why. */
  lemma EndedSyncExactly(store: Store, id: nat, answer: Answer)
    requires id < |store.orders| ==> Ended(store.orders[id])
    ensures var (after, result) := Sync(store, id, answer);
            && after == store && result.createdFills == 0 && result.delta == 0 && result.fillStatus == NoFill
            && if id >= |store.orders| then
                 result.skipped == Some(OrderNotFound) && result.fillsTotal == 0 && result.orderStatus.None?
               else
                 var o := store.orders[id];
                 && result.fillsTotal == FillTotal(store.fills, id) && result.orderStatus == Some(o.status)
                 && result.skipped == Some(if o.dryRun || o.status == DryRun then DryRunOrderSkipped
                                           else OrderAlreadyTerminal(o.status))
  {
  }

  /** The total of an order is the sum of the quantities of its fills. */
  lemma {:induction false} TotalIsSumOfSlices(fills: seq<RealFill>, id: nat)
    ensures FillTotal([], id) == 0
    ensures fills != [] ==>
              var last := fills[|fills| - 1];
              FillTotal(fills, id)
              == FillTotal(fills[..|fills| - 1], id) + if last.orderId == id then last.quantity else 0
  {
    if fills != [] {
      FillsOfAppend(fills[..|fills| - 1], fills[|fills| - 1], id);
      assert fills == fills[..|fills| - 1] + [fills[|fills| - 1]];
    }
  }

  // ---------------------------------------------------------------- ended for good

  ghost predicate EndedStay(before: Store, after: Store) {
    && |before.orders| <= |after.orders|
    && forall i :: 0 <= i < |before.orders| && Ended(before.orders[i]) ==> after.orders[i] == before.orders[i]
  }

  lemma NextKeepsEnded(store: Store, step: Step)
    ensures EndedStay(store, Next(store, step))
  {
    match step
    case ExecuteCall(settings, call) =>
      if Gate(store, settings, call).None? {
        var o := AcceptedEffect(store, settings, call);
      }
    case SyncCall(id, answer) =>
      SyncEffect(store, id, answer);
      if id < |store.orders| && Ended(store.orders[id]) {
        EndedSyncExactly(store, id, answer);
      }
    case _ =>
  }

  /** Over any run an order that has ended, or is a dry run, never changes again. */
  lemma {:induction false} EndedOrdersStay(store: Store, steps: seq<Step>)
    ensures EndedStay(store, Run(store, steps))
    decreases |steps|
  {
    hide Next;
    if steps != [] {
      NextKeepsEnded(store, steps[0]);
      EndedOrdersStay(Next(store, steps[0]), steps[1..]);
    }
  }
}
