/** What the fill ledger means: a running maximum of the broker's cumulative reports, and the
    agreement between an order's status and its fills over every run. */
module FillLedger {
  import opened Wrappers
  import opened Sequences
  import opened Strings
  import opened OrderCandidates
  import opened RealOrderStore
  import opened RealOrderExecutor
  import opened FillSync
  import opened RealTradingRuns
  import Kis = KisTransport

  // ---------------------------------------------------------------- running maximum

  ghost predicate Open(store: Store, id: nat) {
    id < |store.orders| && !store.orders[id].dryRun && !Terminal(store.orders[id].status)
  }

  predicate Cumulative(r: Kis.FillReport) {
    ClassifyReport(r) == FullFill || ClassifyReport(r) == PartialFill || ClassifyReport(r) == NoFill
  }

  lemma FillsOfAppend(fills: seq<RealFill>, f: RealFill, id: nat)
    ensures FillsOf(fills + [f], id) == FillsOf(fills, id) + if f.orderId == id then [f] else []
    ensures FillTotal(fills + [f], id) == FillTotal(fills, id) + if f.orderId == id then f.quantity else 0
  {
    FilterAppend(fills, [f], OfOrder(id));
    assert Filter([f], OfOrder(id)) == if f.orderId == id then [f] else [] by { assert [f][1..] == []; }
    if f.orderId == id {
      SumIntAppend(FillsOf(fills, id), [f], QuantityOf());
      assert SumInt([f], QuantityOf()) == f.quantity by { assert [f][1..] == []; }
    } else {
      assert FillsOf(fills, id) + [] == FillsOf(fills, id);
    }
  }

  /** A FULL, PARTIAL or NONE report on an open order raises its fill total to the broker's
      effective total and never lowers it; it adds a fill row exactly when it raises it, and
      touches no other order's fills. */
  lemma ReportRaisesTotalToMaximum(store: Store, id: nat, r: Kis.FillReport)
    requires Open(store, id) && Cumulative(r)
    ensures var after := Sync(store, id, Reported(r)).0;
            var total, effective := FillTotal(store.fills, id), EffectiveTotal(r, store.orders[id].terms.quantity);
            && FillTotal(after.fills, id) == Max(total, effective)
            && |after.fills| == |store.fills| + (if effective > total then 1 else 0)
            && forall other: nat :: other != id ==> FillsOf(after.fills, other) == FillsOf(store.fills, other)
  {
    var o, total := store.orders[id], FillTotal(store.fills, id);
    var delta := EffectiveTotal(r, o.terms.quantity) - total;
    if delta > 0 {
      var f := NewFill(o, id, delta, total);
      FillsOfAppend(store.fills, f, id);
      forall other: nat | other != id ensures FillsOf(store.fills + [f], other) == FillsOf(store.fills, other) {
        FillsOfAppend(store.fills, f, other);
      }
    }
  }

  /** The reports that leave an order open. */
  predicate LeavesOpen(r: Kis.FillReport) {
    ClassifyReport(r) == PartialFill || ClassifyReport(r) == NoFill || ClassifyReport(r) == SyncFailed
  }

  function SyncAll(store: Store, id: nat, reports: seq<Kis.FillReport>): Store
    decreases |reports|
  {
    if reports == [] then store else SyncAll(Sync(store, id, Reported(reports[0])).0, id, reports[1..])
  }

  /** The least total that is not below `total` nor below any recognised report of `reports`. */
  ghost predicate IsRunningMaximum(m: int, total: int, reports: seq<Kis.FillReport>, quantity: int) {
    && m >= total
    && (forall r :: r in reports && ClassifyReport(r) != SyncFailed ==> m >= EffectiveTotal(r, quantity))
    && (m == total || exists r :: r in reports && ClassifyReport(r) != SyncFailed && m == EffectiveTotal(r, quantity))
  }

  lemma {:induction false} SyncAllIsRunningMaximum(store: Store, id: nat, reports: seq<Kis.FillReport>)
    requires Open(store, id) && forall r :: r in reports ==> LeavesOpen(r)
    ensures var after := SyncAll(store, id, reports);
            && Open(after, id) && after.orders[id].terms == store.orders[id].terms
            && IsRunningMaximum(FillTotal(after.fills, id), FillTotal(store.fills, id), reports,
                               store.orders[id].terms.quantity)
    decreases |reports|
  {
    if reports != [] {
      var r := reports[0];
      assert r in reports;
      var mid := Sync(store, id, Reported(r)).0;
      if ClassifyReport(r) != SyncFailed {
        ReportRaisesTotalToMaximum(store, id, r);
      }
      assert reports == [r] + reports[1..];
      SyncAllIsRunningMaximum(mid, id, reports[1..]);
    }
  }

  /** While an order stays open, repeating or reordering the reports changes no fill total. */
  lemma TotalIgnoresRepeatsAndOrder(store: Store, id: nat, reports: seq<Kis.FillReport>, again: seq<Kis.FillReport>)
    requires Open(store, id)
    requires forall r :: r in reports ==> LeavesOpen(r)
    requires forall r :: r in reports <==> r in again
    ensures FillTotal(SyncAll(store, id, reports).fills, id) == FillTotal(SyncAll(store, id, again).fills, id)
  {
    SyncAllIsRunningMaximum(store, id, reports);
    SyncAllIsRunningMaximum(store, id, again);
  }

  /** A report that can add no fill any more: the order takes no reports, or the ledger has
      reached what this one stands for. */
  ghost predicate Absorbed(store: Store, id: nat, r: Kis.FillReport) {
    || !Open(store, id)
    || !Cumulative(r)
    || EffectiveTotal(r, store.orders[id].terms.quantity) <= FillTotal(store.fills, id)
  }

  lemma AbsorbedAddsNoFill(store: Store, id: nat, r: Kis.FillReport)
    requires Absorbed(store, id, r)
    ensures Sync(store, id, Reported(r)).0.fills == store.fills
  {
    if Open(store, id) && Cumulative(r) {
      ReportRaisesTotalToMaximum(store, id, r);
    }
  }

  /** Processing a report absorbs it, and absorbed reports stay absorbed. */
  lemma SyncAbsorbs(store: Store, id: nat, r: Kis.FillReport, earlier: Kis.FillReport)
    requires earlier == r || Absorbed(store, id, earlier)
    ensures Absorbed(Sync(store, id, Reported(r)).0, id, earlier)
  {
    if Open(store, id) && Cumulative(r) {
      ReportRaisesTotalToMaximum(store, id, r);
    }
  }

  lemma {:induction false} SyncAllAbsorbs(store: Store, id: nat, reports: seq<Kis.FillReport>, r: Kis.FillReport)
    requires r in reports || Absorbed(store, id, r)
    ensures Absorbed(SyncAll(store, id, reports), id, r)
    decreases |reports|
  {
    hide Absorbed;
    if reports != [] {
      if r == reports[0] || Absorbed(store, id, r) {
        SyncAbsorbs(store, id, reports[0], r);
      } else {
        assert reports == [reports[0]] + reports[1..];
      }
      SyncAllAbsorbs(Sync(store, id, Reported(reports[0])).0, id, reports[1..], r);
    }
  }

  /** Delivering any report a second time adds no fill row: whatever the order, the report, and the
      reports that came before and in between. */
  lemma RedeliveryAddsNoFill(store: Store, id: nat, reports: seq<Kis.FillReport>, r: Kis.FillReport)
    requires r in reports
    ensures var after := SyncAll(store, id, reports);
            Sync(after, id, Reported(r)).0.fills == after.fills
  {
    SyncAllAbsorbs(store, id, reports, r);
    AbsorbedAddsNoFill(SyncAll(store, id, reports), id, r);
  }

  /** A FULL report above the ordered quantity is taken as it stands: the order is FILLED with more
      than it asked for. */
  lemma OverfilledOrder() returns (store: Store, r: Kis.FillReport)
    ensures Open(store, 0) && store.orders[0].terms.quantity == 1
    ensures LedgerOk(store.orders[0], FillsOf(store.fills, 0))
    ensures var after := Sync(store, 0, Reported(r)).0;
            after.orders[0].status == Filled && FillTotal(after.fills, 0) == 2
            && !LedgerOk(after.orders[0], FillsOf(after.fills, 0))
  {
    var terms := OrderTerms("005930", Buy, 1, None);
    store := Store([], [RealOrder(0, terms, 100.0, OrderStatus.Submitted, false, 0, None)], [], [], [], []);
    r := Kis.FillReport(true, 2, 0, Kis.Filled);
    ReportRaisesTotalToMaximum(store, 0, r);
    LedgerKeptExactly(store, 0, r);
  }

  // ---------------------------------------------------------------- status and fills agree

  function GrossAmountOf(): RealFill -> real {
    (f: RealFill) => f.grossAmount
  }

  predicate StatusAgrees(status: OrderStatus, total: int, quantity: int) {
    match status
    case PartiallyFilled => 0 < total < quantity
    case Filled => total == quantity
    case Canceled => 0 <= total < quantity
    case Rejected => 0 <= total < quantity
    case _ => total == 0
  }

  ghost predicate SlicesOk(o: RealOrder, fills: seq<RealFill>) {
    forall f :: f in fills ==>
      f.quantity > 0 && f.unitPrice == SafeUnitPrice(o)
      && f.grossAmount == f.unitPrice * (f.quantity as real) && f.netAmount == f.grossAmount
  }

  /** Only the slice that completes the order is flagged FULL. */
  ghost predicate FlagsOk(o: RealOrder, fills: seq<RealFill>) {
    forall k :: 0 <= k < |fills| ==>
      (fills[k].isFull <==> k == |fills| - 1 && SumInt(fills, QuantityOf()) == o.terms.quantity)
  }

  /** The order's fills are positive slices at its unit price that add up to what its status says. */
  ghost predicate LedgerOk(o: RealOrder, fills: seq<RealFill>) {
    && StatusAgrees(o.status, SumInt(fills, QuantityOf()), o.terms.quantity)
    && SlicesOk(o, fills)
    && FlagsOk(o, fills)
  }

  /** Exactly the reports an order's ledger can absorb. */
  predicate Absorbable(r: Kis.FillReport, quantity: int, total: int) {
    match ClassifyReport(r)
    case FullFill => r.filledQuantity <= quantity
    case PartialFill => r.filledQuantity < quantity && (r.filledQuantity > 0 || total > 0)
    case _ => true
  }

  lemma TotalWithSlice(fills: seq<RealFill>, f: RealFill)
    ensures SumInt(fills + [f], QuantityOf()) == SumInt(fills, QuantityOf()) + f.quantity
  {
    SumIntAppend(fills, [f], QuantityOf());
    assert SumInt([f], QuantityOf()) == f.quantity by { assert [f][1..] == []; }
  }

  lemma SliceKeepsFlags(o: RealOrder, fills: seq<RealFill>, f: RealFill)
    requires FlagsOk(o, fills) && SumInt(fills, QuantityOf()) < o.terms.quantity
    requires f.isFull <==> SumInt(fills, QuantityOf()) + f.quantity >= o.terms.quantity
    ensures FlagsOk(o, fills + [f]) <==> SumInt(fills, QuantityOf()) + f.quantity <= o.terms.quantity
  {
    TotalWithSlice(fills, f);
    var after := fills + [f];
    assert after[|fills|] == f;
    forall k | 0 <= k < |fills| ensures !after[k].isFull {
      assert after[k] == fills[k];
    }
  }

  lemma NewFillIsSlice(o: RealOrder, id: nat, delta: int, total: int)
    requires o.terms.quantity > 0 && delta > 0
    ensures var f := NewFill(o, id, delta, total);
            SlicesOk(o, [f]) && f.quantity == delta && (f.isFull <==> total + delta >= o.terms.quantity)
  {
  }

  lemma SliceKeepsLedger(o: RealOrder, fills: seq<RealFill>, id: nat, delta: int, status: OrderStatus)
    requires LedgerOk(o, fills) && !Terminal(o.status) && o.terms.quantity > 0 && delta > 0
    ensures var total := SumInt(fills, QuantityOf());
            LedgerOk(o.(status := status), fills + [NewFill(o, id, delta, total)])
            <==> StatusAgrees(status, total + delta, o.terms.quantity) && total + delta <= o.terms.quantity
  {
    hide SlicesOk, FlagsOk, NewFill, SafeUnitPrice, SumInt;
    var total := SumInt(fills, QuantityOf());
    var f := NewFill(o, id, delta, total);
    NewFillIsSlice(o, id, delta, total);
    TotalWithSlice(fills, f);
    SliceKeepsFlags(o, fills, f);
    SliceKeepsSlices(o, fills, f);
    SameSlices(o, status, fills + [f]);
  }

  lemma SliceKeepsSlices(o: RealOrder, fills: seq<RealFill>, f: RealFill)
    requires SlicesOk(o, fills) && SlicesOk(o, [f])
    ensures SlicesOk(o, fills + [f])
  {
    assert f in [f];
  }

  lemma SameSlices(o: RealOrder, status: OrderStatus, fills: seq<RealFill>)
    ensures SlicesOk(o.(status := status), fills) <==> SlicesOk(o, fills)
    ensures FlagsOk(o.(status := status), fills) <==> FlagsOk(o, fills)
  {
    assert SafeUnitPrice(o.(status := status)) == SafeUnitPrice(o);
  }

  lemma StatusKeepsLedger(o: RealOrder, fills: seq<RealFill>, status: OrderStatus)
    requires LedgerOk(o, fills)
    ensures LedgerOk(o.(status := status), fills)
            <==> StatusAgrees(status, SumInt(fills, QuantityOf()), o.terms.quantity)
  {
    SameSlices(o, status, fills);
  }

  /** What one report does to the order and to its fills. */
  lemma ReportEffect(store: Store, id: nat, r: Kis.FillReport)
    requires Open(store, id)
    ensures var after, o, fills := Sync(store, id, Reported(r)).0, store.orders[id], FillsOf(store.fills, id);
            var total := FillTotal(store.fills, id);
            var delta := EffectiveTotal(r, o.terms.quantity) - total;
            var moved := o.(status := StatusAfter(o.status, ClassifyReport(r)));
            && |after.orders| == |store.orders|
            && if ClassifyReport(r) == SyncFailed || (Cumulative(r) && delta < 0) then
                 after.orders[id] == o && FillsOf(after.fills, id) == fills
               else if Cumulative(r) && delta > 0 then
                 after.orders[id] == moved && FillsOf(after.fills, id) == fills + [NewFill(o, id, delta, total)]
               else
                 after.orders[id] == moved && FillsOf(after.fills, id) == fills
  {
    var o, total := store.orders[id], FillTotal(store.fills, id);
    FillsOfAppend(store.fills, NewFill(o, id, EffectiveTotal(r, o.terms.quantity) - total, total), id);
  }

  /** One report keeps an open order's ledger exactly when the ledger can absorb it. */
  lemma LedgerKeptExactly(store: Store, id: nat, r: Kis.FillReport)
    requires Open(store, id) && store.orders[id].terms.quantity > 0
    requires LedgerOk(store.orders[id], FillsOf(store.fills, id))
    ensures var after := Sync(store, id, Reported(r)).0;
            LedgerOk(after.orders[id], FillsOf(after.fills, id))
            <==> Absorbable(r, store.orders[id].terms.quantity, FillTotal(store.fills, id))
  {
    ReportEffect(store, id, r);
    LedgerAbsorbs(store.orders[id], FillsOf(store.fills, id), id, r);
  }

  lemma LedgerAbsorbs(o: RealOrder, fills: seq<RealFill>, id: nat, r: Kis.FillReport)
    requires !Terminal(o.status) && o.terms.quantity > 0 && LedgerOk(o, fills)
    ensures var total := SumInt(fills, QuantityOf());
            var delta := EffectiveTotal(r, o.terms.quantity) - total;
            var moved := o.(status := StatusAfter(o.status, ClassifyReport(r)));
            Absorbable(r, o.terms.quantity, total) <==>
            if ClassifyReport(r) == SyncFailed || (Cumulative(r) && delta < 0) then LedgerOk(o, fills)
            else if Cumulative(r) && delta > 0 then LedgerOk(moved, fills + [NewFill(o, id, delta, total)])
            else LedgerOk(moved, fills)
  {
    var total := SumInt(fills, QuantityOf());
    var delta := EffectiveTotal(r, o.terms.quantity) - total;
    var status := StatusAfter(o.status, ClassifyReport(r));
    StatusKeepsLedger(o, fills, status);
    if Cumulative(r) && delta > 0 {
      SliceKeepsLedger(o, fills, id, delta, status);
    }
  }

  /** The ledger's money: gross is unit price times quantity, and a FILLED order with a positive
      estimate has spent exactly its estimate. */
  lemma {:induction false} GrossIsPriceTimesTotal(o: RealOrder, fills: seq<RealFill>)
    requires forall f :: f in fills ==>
               f.unitPrice == SafeUnitPrice(o) && f.grossAmount == f.unitPrice * (f.quantity as real)
    ensures SumOf(fills, GrossAmountOf()) == SafeUnitPrice(o) * (SumInt(fills, QuantityOf()) as real)
  {
    if fills != [] {
      GrossIsPriceTimesTotal(o, fills[1..]);
      var rest := SumInt(fills[1..], QuantityOf());
      assert fills[0] in fills;
      assert ((fills[0].quantity + rest) as real) == (fills[0].quantity as real) + (rest as real);
    }
  }

  lemma FilledSpendsItsEstimate(o: RealOrder, fills: seq<RealFill>)
    requires LedgerOk(o, fills) && o.status == Filled && o.estimatedAmount > 0.0 && o.terms.quantity > 0
    ensures SumOf(fills, GrossAmountOf()) == o.estimatedAmount
  {
    GrossIsPriceTimesTotal(o, fills);
    var q := o.terms.quantity as real;
    assert o.estimatedAmount / q * q == o.estimatedAmount;
  }

  // ---------------------------------------------------------------- decoded reports

  /** An answer whose order row, if it has one, repeats the ordered quantity and reports no
      more than that filled. */
  ghost predicate WellReported(http: Kis.Http<Kis.QueryBody>, quantity: int) {
    http.Answered? && http.body.QueryPayload? && http.body.record.Some? ==>
      http.body.record.value.ordQty == Some(quantity)
      && Kis.ParsedQuantity(http.body.record.value.totCcldQty) <= quantity
  }

  lemma DecodedReportIsAbsorbable(http: Kis.Http<Kis.QueryBody>, quantity: int, total: int)
    requires WellReported(http, quantity) && quantity > 0
    ensures Absorbable(Kis.QueryAttempt(http).result, quantity, total)
  {
  }

  /** After a report on an open order the ledger holds what the report says was executed exactly when
      the report is FULL or PARTIAL, or says no more than the ledger held before, or nothing. */
  lemma ReportIsBookedExactly(store: Store, id: nat, r: Kis.FillReport)
    requires Open(store, id)
    ensures FillTotal(Sync(store, id, Reported(r)).0.fills, id) >= r.filledQuantity
            <==> || ClassifyReport(r) == FullFill
                 || ClassifyReport(r) == PartialFill
                 || r.filledQuantity <= FillTotal(store.fills, id)
                 || (ClassifyReport(r) == NoFill && r.filledQuantity <= 0)
  {
    if Cumulative(r) {
      ReportRaisesTotalToMaximum(store, id, r);
    }
  }

  /** A cancelled order of 10 of which 7 were executed: the decoded answer carries the 7, the order
      ends CANCELED, and its ledger stays empty. */
  lemma ExecutedThenCanceled() returns (store: Store, http: Kis.Http<Kis.QueryBody>)
    ensures Open(store, 0) && store.orders[0].terms.quantity == 10
    ensures WellReported(http, 10) && Kis.QueryAttempt(http).result.filledQuantity == 7
    ensures var after := Sync(store, 0, Reported(Kis.QueryAttempt(http).result)).0;
            && after.orders[0].status == Canceled && FillTotal(after.fills, 0) == 0
            && LedgerOk(after.orders[0], FillsOf(after.fills, 0))
  {
    var yes, no := "Y", "N";
    assert Upper(yes) == "Y" && Upper(no) != "Y";
    var record := Kis.FillRecord(Some(10), Some(7), yes, no);
    http := Kis.Answered(200, Kis.QueryPayload("0", Some(record)));
    var terms := OrderTerms("005930", Buy, 10, None);
    store := Store([], [RealOrder(0, terms, 100.0, OrderStatus.Submitted, false, 0, None)], [], [], [], []);
    LedgerKeptExactly(store, 0, Kis.QueryAttempt(http).result);
  }

  /** What a query through the transport can return for an order of this quantity. */
  ghost predicate TrustedAnswer(answer: Answer, quantity: int) {
    answer.Raised? ||
    exists http: Kis.Http<Kis.QueryBody> ::
      WellReported(http, quantity) && answer.report == Kis.QueryAttempt(http).result
  }

  ghost predicate TrustedRun(store: Store, steps: seq<Step>)
    decreases |steps|
  {
    steps == [] ||
    (&& (steps[0].StageCandidate? ==> ValidCandidate(steps[0].candidate))
     && (steps[0].SyncCall? && steps[0].orderId < |store.orders| ==>
           TrustedAnswer(steps[0].answer, store.orders[steps[0].orderId].terms.quantity))
     && TrustedRun(Next(store, steps[0]), steps[1..]))
  }

  ghost predicate LedgersOk(store: Store) {
    && (forall c :: c in store.candidates ==> ValidCandidate(c))
    && (forall f :: f in store.fills ==> f.orderId < |store.orders|)
    && (forall i :: 0 <= i < |store.orders| ==>
          store.orders[i].terms.quantity > 0 && LedgerOk(store.orders[i], FillsOf(store.fills, i)))
  }

  lemma {:induction false} NoFillsYet(fills: seq<RealFill>, id: nat)
    requires forall f :: f in fills ==> f.orderId != id
    ensures FillsOf(fills, id) == []
  {
    if fills != [] { NoFillsYet(fills[1..], id); }
  }

  /** What a report on one order leaves alone. */
  lemma ReportLeavesOthers(store: Store, id: nat, r: Kis.FillReport)
    requires Open(store, id)
    ensures var after := Sync(store, id, Reported(r)).0;
            && after.candidates == store.candidates
            && |after.orders| == |store.orders|
            && after.orders[id].terms == store.orders[id].terms
            && (forall i :: 0 <= i < |store.orders| && i != id ==>
                  after.orders[i] == store.orders[i] && FillsOf(after.fills, i) == FillsOf(store.fills, i))
            && (forall f :: f in after.fills ==> f in store.fills || f.orderId == id)
  {
    hide FillsOf, NewFill, EffectiveTotal, ClassifyReport;
    if Cumulative(r) {
      ReportRaisesTotalToMaximum(store, id, r);
    }
    NewFillOfOrder(store, id, r);
  }

  lemma NewFillOfOrder(store: Store, id: nat, r: Kis.FillReport)
    requires Open(store, id)
    ensures forall delta, total :: NewFill(store.orders[id], id, delta, total).orderId == id
  {
  }

  lemma UnansweredSync(store: Store, id: nat, answer: Answer)
    requires !Open(store, id) || answer.Raised?
    ensures var after := Sync(store, id, answer).0;
            after.orders == store.orders && after.fills == store.fills && after.candidates == store.candidates
  {
  }

  lemma SyncKeepsLedgers(store: Store, id: nat, answer: Answer)
    requires LedgersOk(store)
    requires id < |store.orders| ==> TrustedAnswer(answer, store.orders[id].terms.quantity)
    ensures LedgersOk(Sync(store, id, answer).0)
  {
    hide Sync, LedgerOk, Absorbable, FillsOf, WellReported;
    var after := Sync(store, id, answer).0;
    if !Open(store, id) || answer.Raised? {
      UnansweredSync(store, id, answer);
    } else {
      var http: Kis.Http<Kis.QueryBody> :|
        WellReported(http, store.orders[id].terms.quantity) && answer.report == Kis.QueryAttempt(http).result;
      DecodedReportIsAbsorbable(http, store.orders[id].terms.quantity, FillTotal(store.fills, id));
      LedgerKeptExactly(store, id, answer.report);
      ReportLeavesOthers(store, id, answer.report);
    }
  }

  lemma AcceptedAddsNoFill(store: Store, settings: Settings, call: Call)
    requires Gate(store, settings, call).None?
    ensures var after := Execute(store, settings, call).0;
            && after.fills == store.fills
            && after.orders[|store.orders|].status in {DryRun, OrderStatus.Submitted, Failed}
            && call.candidateId < |store.candidates|
  {
  }

  lemma RefusedEffect(store: Store, settings: Settings, call: Call)
    requires Gate(store, settings, call).Some?
    ensures var after := Execute(store, settings, call).0;
            after.fills == store.fills && after.orders == store.orders && after.candidates == store.candidates
  {
  }

  lemma FreshLedger(o: RealOrder)
    requires o.status in {DryRun, OrderStatus.Submitted, Failed} && o.terms.quantity > 0
    ensures LedgerOk(o, [])
  {
  }

  lemma ExecuteKeepsLedgers(store: Store, settings: Settings, call: Call)
    requires LedgersOk(store)
    ensures LedgersOk(Execute(store, settings, call).0)
  {
    hide Gate, Execute, LedgerOk;
    if Gate(store, settings, call).None? {
      var o := AcceptedEffect(store, settings, call);
      NoFillsYet(store.fills, |store.orders|);
      AcceptedAddsNoFill(store, settings, call);
      assert store.candidates[call.candidateId] in store.candidates;
      FreshLedger(o);
    } else {
      RefusedEffect(store, settings, call);
    }
  }

  lemma NextKeepsLedgers(store: Store, step: Step)
    requires LedgersOk(store)
    requires step.StageCandidate? ==> ValidCandidate(step.candidate)
    requires step.SyncCall? && step.orderId < |store.orders| ==>
               TrustedAnswer(step.answer, store.orders[step.orderId].terms.quantity)
    ensures LedgersOk(Next(store, step))
  {
    match step
    case SyncCall(id, answer) => SyncKeepsLedgers(store, id, answer);
    case ExecuteCall(settings, call) => ExecuteKeepsLedgers(store, settings, call);
    case _ =>
      var after := Next(store, step);
      assert after.orders == store.orders && after.fills == store.fills;
      WorkflowKeepsCandidates(store, step);
  }

  lemma WorkflowKeepsCandidates(store: Store, step: Step)
    requires forall c :: c in store.candidates ==> ValidCandidate(c)
    requires step.MoveCandidate? || (step.StageCandidate? && ValidCandidate(step.candidate))
    ensures forall c :: c in Next(store, step).candidates ==> ValidCandidate(c)
  {
    var after := Next(store, step);
    forall c | c in after.candidates ensures ValidCandidate(c) {
      var i :| 0 <= i < |after.candidates| && after.candidates[i] == c;
      if i < |store.candidates| { assert store.candidates[i] in store.candidates; }
    }
  }

  lemma {:induction false} RunKeepsLedgers(store: Store, steps: seq<Step>)
    requires LedgersOk(store) && TrustedRun(store, steps)
    ensures LedgersOk(Run(store, steps))
    decreases |steps|
  {
    if steps != [] {
      NextKeepsLedgers(store, steps[0]);
      RunKeepsLedgers(Next(store, steps[0]), steps[1..]);
    }
  }

  lemma NothingIsOwed()
    ensures LedgersOk(EMPTY)
  {
  }

  lemma LedgerOf(store: Store, id: nat)
    requires LedgersOk(store) && id < |store.orders|
    ensures LedgerOk(store.orders[id], FillsOf(store.fills, id)) && store.orders[id].terms.quantity > 0
  {
    hide LedgerOk;
  }

  lemma LedgerMoney(o: RealOrder, fills: seq<RealFill>)
    requires LedgerOk(o, fills) && o.terms.quantity > 0
    ensures SumOf(fills, GrossAmountOf()) == SafeUnitPrice(o) * (SumInt(fills, QuantityOf()) as real)
    ensures o.status == Filled && o.estimatedAmount > 0.0 ==> SumOf(fills, GrossAmountOf()) == o.estimatedAmount
  {
    hide SafeUnitPrice, StatusAgrees, FlagsOk;
    GrossIsPriceTimesTotal(o, fills);
    if o.status == Filled && o.estimatedAmount > 0.0 {
      FilledSpendsItsEstimate(o, fills);
    }
  }

  /** In every reachable state of the whole system, on answers the transport decodes from a
      well-behaved broker, every order's ledger agrees with its status: SUBMITTED has no fill,
      PARTIALLY_FILLED is strictly between, FILLED is complete and has spent its estimate. */
  lemma LedgersAgreeWithStatus(steps: seq<Step>, id: nat)
    requires TrustedRun(EMPTY, steps)
    ensures var s := Run(EMPTY, steps);
            id < |s.orders| ==>
              var o, fills := s.orders[id], FillsOf(s.fills, id);
              && LedgerOk(o, fills)
              && SumOf(fills, GrossAmountOf()) == SafeUnitPrice(o) * (FillTotal(s.fills, id) as real)
              && (o.status == Filled && o.estimatedAmount > 0.0 ==> SumOf(fills, GrossAmountOf()) == o.estimatedAmount)
  {
    hide Run, TrustedRun, LedgerOk, SafeUnitPrice, FillsOf;
    NothingIsOwed();
    hide LedgersOk;
    RunKeepsLedgers(EMPTY, steps);
    var s := Run(EMPTY, steps);
    if id < |s.orders| {
      LedgerOf(s, id);
      LedgerMoney(s.orders[id], FillsOf(s.fills, id));
    }
  }
}
