/** The tables that the real-order executor and the fill sync share, and the log of
    outbound place_order calls. A row's id is its position in its table. */
module RealOrderStore {
  import opened Wrappers
  import opened Sequences
  import opened OrderCandidates
  import Kis = KisTransport

  datatype OrderStatus = DryRun | Created | Submitted | PartiallyFilled | Filled | Canceled | Rejected | Failed

  datatype RealOrder = RealOrder(
    candidateId: nat,
    terms: OrderTerms,
    estimatedAmount: real,
    status: OrderStatus,
    dryRun: bool,
    createdAt: int,
    errorCode: Option<Kis.PlaceClass>)

  datatype RealFill = RealFill(
    orderId: nat,
    quantity: int,
    unitPrice: real,
    grossAmount: real,
    netAmount: real,
    isFull: bool)

  datatype SyncClass = FullFill | PartialFill | NoFill | BrokerRejected | BrokerCanceled | SyncFailed

  datatype AuditEvent =
    | RealOrderSubmitted
    | RealOrderFailed(cause: Kis.PlaceClass)
    | FillSynced(classification: SyncClass, delta: int)
    | FillFailed
    | NegativeDelta(delta: int, existingTotal: int, kisTotal: int)

  datatype AuditRow = AuditRow(candidateId: nat, event: AuditEvent)

  /** A place_order call, with the id of the order row that was on file when it went out. */
  datatype PlaceCall = PlaceCall(anchor: nat, candidateId: nat, terms: OrderTerms, price: int, reply: Kis.PlaceResult)

  /** A place_order call that a dry run makes on an injected transport that is not the fake one,
      with the number of order rows on file when it went out. */
  datatype DryCall = DryCall(rowsOnFile: nat, candidateId: nat, terms: OrderTerms, price: int)

  datatype Store = Store(
    candidates: seq<Candidate>,
    orders: seq<RealOrder>,
    fills: seq<RealFill>,
    audits: seq<AuditRow>,
    calls: seq<PlaceCall>,
    dryCalls: seq<DryCall>)

  /** The statuses that neither gate 2 nor the daily total counts. */
  predicate Inactive(s: OrderStatus) {
    s == Failed || s == OrderStatus.Rejected || s == Canceled
  }

  predicate Terminal(s: OrderStatus) {
    s == DryRun || s == Filled || Inactive(s)
  }

  // ---------------------------------------------------------------- KST days

  const KST_OFFSET := 32400
  const DAY_SECONDS := 86400

  /** The Asia/Seoul calendar day of a UTC second. */
  function KstDay(t: int): int {
    (t + KST_OFFSET) / DAY_SECONDS
  }

  /** Local midnight of the KST day of `now`, as a UTC second. */
  function DayStart(now: int): int {
    KstDay(now) * DAY_SECONDS - KST_OFFSET
  }

  predicate InDayWindow(now: int, t: int) {
    DayStart(now) <= t < DayStart(now) + DAY_SECONDS
  }

  /** The half-open windows the day-total query uses partition time into KST days. */
  lemma WindowsPartitionTime(now: int, t: int)
    ensures InDayWindow(now, t) <==> KstDay(t) == KstDay(now)
    ensures InDayWindow(now, now)
    ensures InDayWindow(now, t) ==> forall u :: InDayWindow(now, u) <==> InDayWindow(t, u)
  {
  }

  /** A KST day runs from 15:00 UTC of the day before to 15:00 UTC. */
  lemma KstDayIsNineHoursAhead(t: int, day: int)
    ensures KstDay(t) == day <==> day * 86400 - 9 * 3600 <= t < (day + 1) * 86400 - 9 * 3600
  {
    var shifted := t + 9 * 3600;
    assert shifted / 86400 * 86400 <= shifted < shifted / 86400 * 86400 + 86400;
  }

  // ---------------------------------------------------------------- reading the tables

  function CandidateWeight(candidates: seq<Candidate>, account: int, counts: bool, o: RealOrder): real {
    if counts && o.candidateId < |candidates| && candidates[o.candidateId].accountId == account && !Inactive(o.status)
    then o.estimatedAmount else 0.0
  }

  function WindowWeight(candidates: seq<Candidate>, account: int, now: int): RealOrder -> real {
    (o: RealOrder) => CandidateWeight(candidates, account, InDayWindow(now, o.createdAt), o)
  }

  function DayWeight(candidates: seq<Candidate>, account: int, day: int): RealOrder -> real {
    (o: RealOrder) => CandidateWeight(candidates, account, KstDay(o.createdAt) == day, o)
  }

  /** The executor's day total: orders of the account inside the window of `now`, joined to
      their candidate, other than failed ones. */
  function TodayTotal(store: Store, account: int, now: int): real {
    SumOf(store.orders, WindowWeight(store.candidates, account, now))
  }

  /** The estimated amounts committed on an account for a KST day. */
  function Exposure(store: Store, account: int, day: int): real {
    SumOf(store.orders, DayWeight(store.candidates, account, day))
  }

  lemma TodayTotalIsExposure(store: Store, account: int, now: int)
    ensures TodayTotal(store, account, now) == Exposure(store, account, KstDay(now))
  {
    var f, g := WindowWeight(store.candidates, account, now), DayWeight(store.candidates, account, KstDay(now));
    forall o: RealOrder ensures f(o) == g(o) {
      WindowsPartitionTime(now, o.createdAt);
    }
    SumCongruence(store.orders, f, g);
  }

  /** The orders of an account that commit money on a KST day: of its candidates, dated between the
      day's midnights, and outside FAILED, REJECTED and CANCELED. */
  function CommittedOn(candidates: seq<Candidate>, account: int, day: int): RealOrder -> bool {
    (o: RealOrder) =>
      && o.candidateId < |candidates| && candidates[o.candidateId].accountId == account
      && o.status !in {Failed, OrderStatus.Rejected, Canceled}
      && day * 86400 - 9 * 3600 <= o.createdAt < (day + 1) * 86400 - 9 * 3600
  }

  function EstimateOf(): RealOrder -> real {
    (o: RealOrder) => o.estimatedAmount
  }

  lemma {:induction false} SumOverCommitted(orders: seq<RealOrder>, candidates: seq<Candidate>, account: int, day: int)
    ensures SumOf(orders, DayWeight(candidates, account, day))
            == SumOf(Filter(orders, CommittedOn(candidates, account, day)), EstimateOf())
  {
    if orders != [] {
      SumOverCommitted(orders[1..], candidates, account, day);
      KstDayIsNineHoursAhead(orders[0].createdAt, day);
      var rest := Filter(orders[1..], CommittedOn(candidates, account, day));
      if CommittedOn(candidates, account, day)(orders[0]) {
        assert ([orders[0]] + rest)[1..] == rest;
      } else {
        assert [] + rest == rest;
      }
    }
  }

  /** The exposure is the sum of the estimates of the committed orders. */
  lemma ExposureIsCommitted(store: Store, account: int, day: int)
    ensures Exposure(store, account, day)
            == SumOf(Filter(store.orders, CommittedOn(store.candidates, account, day)), EstimateOf())
  {
    SumOverCommitted(store.orders, store.candidates, account, day);
  }

  /** The newest order of the candidate that is not failed. */
  function LatestActive(orders: seq<RealOrder>, candidateId: nat): (r: Option<nat>)
    ensures r.Some? ==>
              && r.value < |orders|
              && orders[r.value].candidateId == candidateId
              && !Inactive(orders[r.value].status)
    ensures forall i :: (if r.Some? then r.value + 1 else 0) <= i < |orders| && orders[i].candidateId == candidateId ==>
              Inactive(orders[i].status)
  {
    if orders == [] then None
    else
      var last := |orders| - 1;
      if orders[last].candidateId == candidateId && !Inactive(orders[last].status) then Some(last)
      else LatestActive(orders[..last], candidateId)
  }

  function OfOrder(orderId: nat): RealFill -> bool {
    (f: RealFill) => f.orderId == orderId
  }

  function QuantityOf(): RealFill -> int {
    (f: RealFill) => f.quantity
  }

  function FillsOf(fills: seq<RealFill>, orderId: nat): seq<RealFill> {
    Filter(fills, OfOrder(orderId))
  }

  /** total_filled_quantity of an order. */
  function FillTotal(fills: seq<RealFill>, orderId: nat): int {
    SumInt(FillsOf(fills, orderId), QuantityOf())
  }

  // ---------------------------------------------------------------- the database

  /** The tables as the services update them in place. */
  class Database {
    var candidates: seq<Candidate>
    var orders: seq<RealOrder>
    var fills: seq<RealFill>
    var audits: seq<AuditRow>
    var calls: seq<PlaceCall>
    var dryCalls: seq<DryCall>

    function Contents(): Store
      reads this
    {
      Store(candidates, orders, fills, audits, calls, dryCalls)
    }

    constructor ()
      ensures Contents() == Store([], [], [], [], [], [])
    {
      candidates, orders, fills, audits, calls, dryCalls := [], [], [], [], [], [];
    }

    /** Inserts an order row and returns its id. */
    method CreateOrder(o: RealOrder) returns (id: nat)
      modifies this`orders
      ensures id == |old(orders)| && orders == old(orders) + [o]
    {
      id := |orders|;
      orders := orders + [o];
    }

    /** Moves an order out of a status that is not terminal. */
    method UpdateStatus(id: nat, status: OrderStatus)
      requires id < |orders| && !Terminal(orders[id].status)
      modifies this`orders
      ensures orders == old(orders)[id := old(orders)[id].(status := status)]
    {
      orders := orders[id := orders[id].(status := status)];
    }

    method AppendFill(f: RealFill)
      modifies this`fills
      ensures fills == old(fills) + [f]
    {
      fills := fills + [f];
    }

    method AppendAudit(candidateId: nat, event: AuditEvent)
      modifies this`audits
      ensures audits == old(audits) + [AuditRow(candidateId, event)]
    {
      audits := audits + [AuditRow(candidateId, event)];
    }

    /** Sends a dry run's order through a real transport; its log says which rows were on file. */
    method PlaceDryRun(candidateId: nat, terms: OrderTerms, price: int)
      modifies this`dryCalls
      ensures dryCalls == old(dryCalls) + [DryCall(|orders|, candidateId, terms, price)]
    {
      dryCalls := dryCalls + [DryCall(|orders|, candidateId, terms, price)];
    }

    /** Sends an order to the broker. The order row must already be on file, still CREATED,
        and not itself a dry run; the broker's reply is the argument. */
    method PlaceOrder(anchor: nat, price: int, reply: Kis.PlaceResult)
      requires anchor < |orders| && !orders[anchor].dryRun && orders[anchor].status == Created
      modifies this`calls
      ensures calls == old(calls) + [PlaceCall(anchor, orders[anchor].candidateId, orders[anchor].terms, price, reply)]
    {
      calls := calls + [PlaceCall(anchor, orders[anchor].candidateId, orders[anchor].terms, price, reply)];
    }
  }
}
