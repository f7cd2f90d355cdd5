/** When an order goes out: the ten gates of app/broker/real_order_executor.py in the fields of the
    tables and settings, and what a call that passes them leaves. */
module ExecutorLaws {
  import opened Wrappers
  import opened OrderCandidates
  import opened RealOrderStore
  import opened RealOrderExecutor
  import opened RealTradingRuns
  import Kis = KisTransport

  const TESTS := 11

  /** The n-th test of a call, once those before it have passed: the candidate is on file, is APPROVED,
      and has no order outside FAILED, REJECTED and CANCELED; the switches; the caps; the risk engine;
      and for a real order the transport. */
  ghost predicate Passes(store: Store, s: Settings, call: Call, n: nat)
    requires n > 0 ==> call.candidateId < |store.candidates|
  {
    match n
    case 0 => call.candidateId < |store.candidates|
    case 1 => store.candidates[call.candidateId].status == Approved
    case 2 =>
      forall i :: 0 <= i < |store.orders| && store.orders[i].candidateId == call.candidateId ==>
        store.orders[i].status in {Failed, OrderStatus.Rejected, Canceled}
    case 3 => !s.killSwitch
    case 4 => s.tradingSafety
    case 5 => s.realTrading
    case 6 => s.kisOrder
    case 7 => store.candidates[call.candidateId].estimatedAmount <= s.maxOrderAmount
    case 8 =>
      var c := store.candidates[call.candidateId];
      Exposure(store, c.accountId, KstDay(call.gateTime)) + c.estimatedAmount <= s.maxDailyAmount
    case 9 => call.riskPassed
    case 10 =>
      || s.orderDryRun
      || call.wiring.factory == FactoryGivesReal
      || (call.wiring.factory == NoFactory && call.wiring.injectedReal)
    case _ => true
  }

  /** The reason the n-th test gives when it fails. */
  function ReasonOf(n: nat, dryRun: bool): Reason
    requires n < TESTS
  {
    [CandidateNotFound, NotApproved, if dryRun then AlreadyExecuted else DuplicateRealOrder, KillSwitchOn,
     TradingSafetyDisabled, RealTradingDisabled, KisOrderDisabled, AmountExceedsPerOrderCap,
     AmountExceedsDailyCap, Reason.RiskRejected, TransportUnavailable][n]
  }

  /** All tests before the n-th pass. */
  ghost predicate PassesBefore(store: Store, s: Settings, call: Call, n: nat) {
    n > 0 ==> call.candidateId < |store.candidates| && forall k: nat :: k < n ==> Passes(store, s, call, k)
  }

  ghost predicate PassesAll(store: Store, s: Settings, call: Call) {
    PassesBefore(store, s, call, TESTS)
  }

  /** The newest order of the candidate outside FAILED, REJECTED and CANCELED. */
  ghost predicate IsNewestActive(store: Store, candidateId: nat, id: Option<nat>) {
    && id.Some? && id.value < |store.orders| && store.orders[id.value].candidateId == candidateId
    && store.orders[id.value].status !in {Failed, OrderStatus.Rejected, Canceled}
    && forall i :: id.value < i < |store.orders| && store.orders[i].candidateId == candidateId ==>
         store.orders[i].status in {Failed, OrderStatus.Rejected, Canceled}
  }

  /** What blocks a call at its n-th test: nothing changes, and the answer names the reason and, for a
      duplicate, the newest active order. */
  ghost predicate BlockedAt(store: Store, s: Settings, call: Call, n: nat)
    requires n < TESTS
  {
    var (after, result) := Execute(store, s, call);
    && after == store
    && !result.success && result.status == Blocked && result.dryRun == s.orderDryRun
    && result.blocked == Some(ReasonOf(n, s.orderDryRun))
    && if n == 2 then IsNewestActive(store, call.candidateId, result.orderId) else result.orderId.None?
  }

  /** A call that fails a test is blocked by the first it fails. */
  lemma BlockedByFirstFailure(store: Store, s: Settings, call: Call, n: nat)
    requires n < TESTS && PassesBefore(store, s, call, n) && !Passes(store, s, call, n)
    ensures BlockedAt(store, s, call, n)
  {
    var existing := LatestActive(store.orders, call.candidateId);
    GateAtFirstFailure(store, s, call, n);
    hide Gate, Passes, PassesBefore;
  }

  lemma GateAtFirstFailure(store: Store, s: Settings, call: Call, n: nat)
    requires n < TESTS && PassesBefore(store, s, call, n) && !Passes(store, s, call, n)
    ensures var existing := LatestActive(store.orders, call.candidateId);
            Gate(store, s, call)
            == Some(BlockedBy(ReasonOf(n, s.orderDryRun), s.orderDryRun, if n == 2 then existing else None))
    ensures n == 2 ==> LatestActive(store.orders, call.candidateId).Some?
  {
    if n > 0 {
      TodayTotalIsExposure(store, store.candidates[call.candidateId].accountId, call.gateTime);
      assert n > 2 ==> LatestActive(store.orders, call.candidateId).None? by {
        if n > 2 { assert Passes(store, s, call, 2); }
      }
      hide TodayTotal, Exposure, LatestActive;
      assert n > 1 ==> Passes(store, s, call, 1);
      assert n > 3 ==> Passes(store, s, call, 3);
      assert n > 4 ==> Passes(store, s, call, 4);
      assert n > 5 ==> Passes(store, s, call, 5);
      assert n > 6 ==> Passes(store, s, call, 6);
      assert n > 7 ==> Passes(store, s, call, 7);
      assert n > 8 ==> Passes(store, s, call, 8);
      assert n > 9 ==> Passes(store, s, call, 9);
    }
  }

  /** Some test is the first that fails, or all pass. */
  lemma {:induction false} FirstFailure(store: Store, s: Settings, call: Call, m: nat) returns (n: nat)
    requires m <= TESTS
    ensures n <= m && PassesBefore(store, s, call, n)
    ensures n < m ==> !Passes(store, s, call, n)
  {
    n := 0;
    if m > 0 {
      n := FirstFailure(store, s, call, m - 1);
      if n == m - 1 && Passes(store, s, call, n) {
        n := m;
      }
    }
  }

  /** What a call that passes all tests leaves: one order row of the candidate's terms, dated by the
      second clock reading; for a dry run the row alone, with its call if a real transport was injected;
      for a real order one call at the price of the terms, and a row and an audit row of its outcome. */
  ghost predicate LetOut(store: Store, s: Settings, call: Call)
    requires call.candidateId < |store.candidates|
  {
    var (after, result) := Execute(store, s, call);
    var c, id := store.candidates[call.candidateId], |store.orders|;
    var submitted := Kis.ClassifyPlaceMessage(call.reply.message) == Kis.Submitted;
    && after.candidates == store.candidates && after.fills == store.fills
    && |after.orders| == id + 1 && after.orders[..id] == store.orders
    && var o := after.orders[id];
       && o.candidateId == call.candidateId && o.terms == c.terms && o.estimatedAmount == c.estimatedAmount
       && o.createdAt == call.insertTime && o.dryRun == s.orderDryRun
       && result.orderId == Some(id) && result.dryRun == s.orderDryRun
       && if s.orderDryRun then
            && o.status == DryRun && o.errorCode.None? && result.success && result.status == RanDry
            && result.blocked.None?
            && after.audits == store.audits && after.calls == store.calls
            && (if call.wiring.injectedReal then
                  && |after.dryCalls| == |store.dryCalls| + 1 && after.dryCalls[..|store.dryCalls|] == store.dryCalls
                  && var d := after.dryCalls[|store.dryCalls|];
                     d.rowsOnFile == id && d.candidateId == call.candidateId && d.terms == c.terms
                     && IsPriceOf(d.price, c.terms)
                else after.dryCalls == store.dryCalls)
          else
            && after.dryCalls == store.dryCalls
            && |after.calls| == |store.calls| + 1 && after.calls[..|store.calls|] == store.calls
            && (var placed := after.calls[|store.calls|];
                && placed.anchor == id && placed.candidateId == call.candidateId && placed.terms == c.terms
                && IsPriceOf(placed.price, c.terms) && placed.reply == call.reply)
            && result.success == submitted
            && if submitted then
                 && o.status == OrderStatus.Submitted && o.errorCode.None?
                 && result.status == SentToBroker && result.blocked.None?
                 && after.audits == store.audits + [AuditRow(call.candidateId, RealOrderSubmitted)]
               else
                 var cause := Kis.ClassifyPlaceMessage(call.reply.message);
                 && o.status == Failed && o.errorCode == Some(cause)
                 && result.status == FailedAtBroker && result.blocked == Some(BrokerFailure(cause))
                 && after.audits == store.audits + [AuditRow(call.candidateId, RealOrderFailed(cause))]
  }

  lemma PassingIsLetOut(store: Store, s: Settings, call: Call)
    requires PassesAll(store, s, call)
    ensures LetOut(store, s, call)
  {
    TodayTotalIsExposure(store, store.candidates[call.candidateId].accountId, call.gateTime);
    RequestPriceIsPrice(store.candidates[call.candidateId].terms);
    hide TodayTotal, Exposure, IsPriceOf, RequestPrice, Kis.ClassifyPlaceMessage;
    assert forall k: nat :: k < TESTS ==> Passes(store, s, call, k);
    assert Passes(store, s, call, 1) && Passes(store, s, call, 2) && Passes(store, s, call, 3);
    assert Passes(store, s, call, 4) && Passes(store, s, call, 5) && Passes(store, s, call, 6);
    assert Passes(store, s, call, 7) && Passes(store, s, call, 8) && Passes(store, s, call, 9);
    assert Passes(store, s, call, 10);
  }

  /** An execute call adds an order row exactly when it passes every test. Otherwise the store is
      unchanged, and the reason is that of the first test it fails. */
  lemma OrderGoesOutExactly(store: Store, s: Settings, call: Call)
    ensures |Execute(store, s, call).0.orders| == |store.orders| + 1 <==> PassesAll(store, s, call)
    ensures PassesAll(store, s, call) ==> LetOut(store, s, call)
    ensures !PassesAll(store, s, call) ==>
              exists n: nat :: n < TESTS && PassesBefore(store, s, call, n) && !Passes(store, s, call, n)
                               && BlockedAt(store, s, call, n)
  {
    hide Passes;
    if PassesAll(store, s, call) {
      PassingIsLetOut(store, s, call);
    } else {
      var n := FirstFailure(store, s, call, TESTS);
      BlockedByFirstFailure(store, s, call, n);
    }
  }
}
