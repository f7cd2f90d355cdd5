/** The delta ledger of app/broker/fill_sync_service.py. */
module FillSync {
  import opened Wrappers
  import opened RealOrderStore
  import Kis = KisTransport

  /** A query that raised, or the report it returned. */
  datatype Answer = Raised | Reported(report: Kis.FillReport)

  datatype SkipReason =
    | OrderNotFound | DryRunOrderSkipped | OrderAlreadyTerminal(status: OrderStatus)
    | TransportRaised | UnrecognisedStatus | NegativeDeltaSkip

  datatype SyncResult = SyncResult(
    fillStatus: SyncClass,
    createdFills: nat,
    skipped: Option<SkipReason>,
    delta: int,
    fillsTotal: int,
    orderStatus: Option<OrderStatus>)

  function ClassifyReport(r: Kis.FillReport): SyncClass {
    match r.status
    case Filled => FullFill
    case PartiallyFilled => PartialFill
    case RejectedByBroker => BrokerRejected
    case Canceled => BrokerCanceled
    case Pending => if r.success then NoFill else SyncFailed
  }

  function Max(a: int, b: int): int {
    if a > b then a else b
  }

  /** The cumulative quantity a report stands for. */
  function EffectiveTotal(r: Kis.FillReport, orderQuantity: int): int {
    match ClassifyReport(r)
    case FullFill => Max(Max(r.filledQuantity, 0), Max(orderQuantity, 0))
    case PartialFill => Max(r.filledQuantity, 0)
    case _ => 0
  }

  function SafeUnitPrice(o: RealOrder): real {
    if o.terms.quantity > 0 && o.estimatedAmount > 0.0 then o.estimatedAmount / (o.terms.quantity as real) else 1.0
  }

  function NewFill(o: RealOrder, orderId: nat, delta: int, existingTotal: int): RealFill {
    var gross := SafeUnitPrice(o) * (delta as real);
    RealFill(orderId, delta, SafeUnitPrice(o), gross, gross,
             existingTotal + delta >= o.terms.quantity && o.terms.quantity > 0)
  }

  function StatusAfter(status: OrderStatus, c: SyncClass): OrderStatus {
    match c
    case FullFill => Filled
    case PartialFill => PartiallyFilled
    case BrokerRejected => OrderStatus.Rejected
    case BrokerCanceled => Canceled
    case _ => status
  }

  /** The effect of a report on an order that is open. */
  function Dispatch(store: Store, id: nat, r: Kis.FillReport): (Store, SyncResult)
    requires id < |store.orders|
  {
    var o := store.orders[id];
    var c := ClassifyReport(r);
    var existing := FillTotal(store.fills, id);
    if c == SyncFailed then
      (store.(audits := store.audits + [AuditRow(o.candidateId, FillFailed)]),
       SyncResult(SyncFailed, 0, Some(UnrecognisedStatus), 0, existing, Some(o.status)))
    else if c == BrokerRejected || c == BrokerCanceled then
      (store.(orders := store.orders[id := o.(status := StatusAfter(o.status, c))],
              audits := store.audits + [AuditRow(o.candidateId, FillSynced(c, 0))]),
       SyncResult(c, 0, None, 0, existing, Some(StatusAfter(o.status, c))))
    else
      var kisTotal := EffectiveTotal(r, o.terms.quantity);
      var delta := kisTotal - existing;
      if delta < 0 then
        (store.(audits := store.audits + [AuditRow(o.candidateId, NegativeDelta(delta, existing, kisTotal))]),
         SyncResult(SyncFailed, 0, Some(NegativeDeltaSkip), delta, existing, Some(o.status)))
      else
        (store.(fills := if delta > 0 then store.fills + [NewFill(o, id, delta, existing)] else store.fills,
                orders := store.orders[id := o.(status := StatusAfter(o.status, c))],
                audits := store.audits + [AuditRow(o.candidateId, FillSynced(c, delta))]),
         SyncResult(c, if delta > 0 then 1 else 0, None, delta, existing + delta, Some(StatusAfter(o.status, c))))
  }

  /** The whole effect of one sync_fills call. */
  function Sync(store: Store, id: nat, answer: Answer): (Store, SyncResult) {
    if id >= |store.orders| then (store, SyncResult(NoFill, 0, Some(OrderNotFound), 0, 0, None))
    else
      var o := store.orders[id];
      var existing := FillTotal(store.fills, id);
      if o.dryRun || o.status == DryRun then
        (store, SyncResult(NoFill, 0, Some(DryRunOrderSkipped), 0, existing, Some(o.status)))
      else if Terminal(o.status) then
        (store, SyncResult(NoFill, 0, Some(OrderAlreadyTerminal(o.status)), 0, existing, Some(o.status)))
      else match answer
        case Raised =>
          (store.(audits := store.audits + [AuditRow(o.candidateId, FillFailed)]),
           SyncResult(SyncFailed, 0, Some(TransportRaised), 0, existing, Some(o.status)))
        case Reported(r) => Dispatch(store, id, r)
  }

  /** sync_fills, step by step on the database. */
  method SyncFills(db: Database, id: nat, answer: Answer) returns (result: SyncResult)
    modifies db
    ensures (db.Contents(), result) == Sync(old(db.Contents()), id, answer)
  {
    if id >= |db.orders| {
      return SyncResult(NoFill, 0, Some(OrderNotFound), 0, 0, None);
    }
    var o := db.orders[id];
    var existing := FillTotal(db.fills, id);
    if o.dryRun || o.status == DryRun {
      return SyncResult(NoFill, 0, Some(DryRunOrderSkipped), 0, existing, Some(o.status));
    }
    if Terminal(o.status) {
      return SyncResult(NoFill, 0, Some(OrderAlreadyTerminal(o.status)), 0, existing, Some(o.status));
    }
    if answer.Raised? {
      db.AppendAudit(o.candidateId, FillFailed);
      return SyncResult(SyncFailed, 0, Some(TransportRaised), 0, existing, Some(o.status));
    }
    result := DispatchStatus(db, id, answer.report);
  }

  method DispatchStatus(db: Database, id: nat, r: Kis.FillReport) returns (result: SyncResult)
    requires id < |db.orders| && !Terminal(db.orders[id].status)
    modifies db
    ensures (db.Contents(), result) == Dispatch(old(db.Contents()), id, r)
  {
    hide NewFill, EffectiveTotal, FillTotal, ClassifyReport;
    var o := db.orders[id];
    var c := ClassifyReport(r);
    var existing := FillTotal(db.fills, id);
    if c == SyncFailed {
      db.AppendAudit(o.candidateId, FillFailed);
      return SyncResult(SyncFailed, 0, Some(UnrecognisedStatus), 0, existing, Some(o.status));
    }
    if c == BrokerRejected || c == BrokerCanceled {
      db.UpdateStatus(id, if c == BrokerRejected then OrderStatus.Rejected else Canceled);
      db.AppendAudit(o.candidateId, FillSynced(c, 0));
      return SyncResult(c, 0, None, 0, existing, Some(db.orders[id].status));
    }
    var kisTotal := EffectiveTotal(r, o.terms.quantity);
    var delta := kisTotal - existing;
    if delta < 0 {
      db.AppendAudit(o.candidateId, NegativeDelta(delta, existing, kisTotal));
      return SyncResult(SyncFailed, 0, Some(NegativeDeltaSkip), delta, existing, Some(o.status));
    }
    var created := 0;
    if delta > 0 {
      db.AppendFill(NewFill(o, id, delta, existing));
      created := 1;
    }
    if c == FullFill {
      db.UpdateStatus(id, Filled);
    } else if c == PartialFill && o.status != PartiallyFilled {
      db.UpdateStatus(id, PartiallyFilled);
    }
    assert db.orders == old(db.orders)[id := o.(status := StatusAfter(o.status, c))];
    db.AppendAudit(o.candidateId, FillSynced(c, delta));
    result := SyncResult(c, created, None, delta, existing + delta, Some(db.orders[id].status));
  }
}
