/** What every interleaving of execute and sync_fills calls keeps: one active order per
    candidate, the daily exposure cap, and the match between orders, broker calls and audits. */
module RealTradingRuns {
  import opened Wrappers
  import opened Sequences
  import opened OrderCandidates
  import opened RealOrderStore
  import opened RealOrderExecutor
  import opened FillSync
  import Kis = KisTransport

  /** One step of the system. Candidates are staged and moved by the approval workflow, here
      without restriction; their account, terms and estimate never change. */
  datatype Step =
    | ExecuteCall(settings: Settings, call: Call)
    | SyncCall(orderId: nat, answer: Answer)
    | StageCandidate(candidate: Candidate)
    | MoveCandidate(candidateId: nat, status: CandidateStatus)

  const EMPTY := Store([], [], [], [], [], [])

  function Next(store: Store, step: Step): Store {
    match step
    case ExecuteCall(settings, call) => Execute(store, settings, call).0
    case SyncCall(orderId, answer) => Sync(store, orderId, answer).0
    case StageCandidate(c) => store.(candidates := store.candidates + [c])
    case MoveCandidate(id, status) =>
      if id < |store.candidates| then
        store.(candidates := store.candidates[id := store.candidates[id].(status := status)])
      else store
  }

  function Run(store: Store, steps: seq<Step>): Store
    decreases |steps|
  {
    if steps == [] then store else Run(Next(store, steps[0]), steps[1..])
  }

  /** What the candidate repository accepts. */
  predicate ValidCandidate(c: Candidate) {
    c.terms.quantity > 0 && c.estimatedAmount >= 0.0
  }

  /** Calls run one after another on a clock that does not go back, each under a daily cap of at
      most `cap`. A call reads the clock at its daily gate and again when its row is inserted. */
  ghost predicate Clocked(clock: int, steps: seq<Step>, cap: real)
    decreases |steps|
  {
    steps == [] ||
    match steps[0]
    case ExecuteCall(settings, call) =>
      && settings.maxDailyAmount <= cap
      && clock <= call.gateTime <= call.insertTime
      && Clocked(call.insertTime, steps[1..], cap)
    case StageCandidate(c) => ValidCandidate(c) && Clocked(clock, steps[1..], cap)
    case _ => Clocked(clock, steps[1..], cap)
  }

  // ---------------------------------------------------------------- the invariants

  ghost predicate RowOk(candidates: seq<Candidate>, clock: int, o: RealOrder) {
    && o.candidateId < |candidates|
    && o.terms == candidates[o.candidateId].terms
    && o.terms.quantity > 0
    && o.estimatedAmount == candidates[o.candidateId].estimatedAmount >= 0.0
    && o.createdAt <= clock
    && (o.dryRun <==> o.status == DryRun)
  }

  ghost predicate RowsOk(store: Store, clock: int) {
    && (forall c :: c in store.candidates ==> ValidCandidate(c))
    && (forall i :: 0 <= i < |store.orders| ==> RowOk(store.candidates, clock, store.orders[i]))
  }

  ghost predicate OneActivePerCandidate(store: Store) {
    forall i, j :: 0 <= i < j < |store.orders| ==>
      || Inactive(store.orders[i].status) || Inactive(store.orders[j].status)
      || store.orders[i].candidateId != store.orders[j].candidateId
  }

  function AtLeastZero(cap: real): real {
    if cap > 0.0 then cap else 0.0
  }

  ghost predicate CapKept(store: Store, cap: real) {
    forall account: int, day: int :: Exposure(store, account, day) <= AtLeastZero(cap)
  }

  /** What an order row, a broker call and an audit row each say of one real order. */
  datatype Sent = Sent(orderId: nat, candidateId: nat, terms: OrderTerms, failed: bool)

  datatype Outcome = Outcome(candidateId: nat, failed: bool)

  function SentRows(orders: seq<RealOrder>): seq<Sent> {
    if orders == [] then []
    else
      var last := |orders| - 1;
      var o := orders[last];
      SentRows(orders[..last]) + if o.dryRun then [] else [Sent(last, o.candidateId, o.terms, o.status == Failed)]
  }

  function SentByCall(): PlaceCall -> Sent {
    (c: PlaceCall) => Sent(c.anchor, c.candidateId, c.terms, Kis.ClassifyPlaceMessage(c.reply.message) != Kis.Submitted)
  }

  function OutcomeOf(): Sent -> Outcome {
    (s: Sent) => Outcome(s.candidateId, s.failed)
  }

  function AuditOutcomes(audits: seq<AuditRow>): seq<Outcome> {
    if audits == [] then []
    else
      var last := |audits| - 1;
      AuditOutcomes(audits[..last]) +
      match audits[last].event
      case RealOrderSubmitted => [Outcome(audits[last].candidateId, false)]
      case RealOrderFailed(_) => [Outcome(audits[last].candidateId, true)]
      case _ => []
  }

  /** Row by row, the real orders, the broker calls and the executor's audits tell one story. */
  ghost predicate CallsMatch(store: Store) {
    && SentRows(store.orders) == MapSeq(store.calls, SentByCall())
    && AuditOutcomes(store.audits) == MapSeq(SentRows(store.orders), OutcomeOf())
  }

  // ---------------------------------------------------------------- appends and updates

  lemma SentRowsAppend(orders: seq<RealOrder>, o: RealOrder)
    ensures SentRows(orders + [o]) ==
            SentRows(orders) + if o.dryRun then [] else [Sent(|orders|, o.candidateId, o.terms, o.status == Failed)]
  {
    assert (orders + [o])[..|orders|] == orders;
  }

  lemma AuditOutcomesAppend(audits: seq<AuditRow>, row: AuditRow)
    ensures AuditOutcomes(audits + [row]) ==
            AuditOutcomes(audits) + match row.event
                                    case RealOrderSubmitted => [Outcome(row.candidateId, false)]
                                    case RealOrderFailed(_) => [Outcome(row.candidateId, true)]
                                    case _ => []
  {
    assert (audits + [row])[..|audits|] == audits;
  }

  lemma {:induction false} SentRowsUpdate(orders: seq<RealOrder>, i: nat, o: RealOrder)
    requires i < |orders|
    requires o.dryRun == orders[i].dryRun && o.candidateId == orders[i].candidateId && o.terms == orders[i].terms
    requires (o.status == Failed) == (orders[i].status == Failed)
    ensures SentRows(orders[i := o]) == SentRows(orders)
  {
    var last := |orders| - 1;
    if i == last {
      assert orders[i := o][..last] == orders[..last];
    } else {
      assert orders[i := o][..last] == orders[..last][i := o];
      SentRowsUpdate(orders[..last], i, o);
    }
  }

  lemma MatchAfterSend(store: Store, o: RealOrder, c: PlaceCall, event: AuditEvent)
    requires CallsMatch(store)
    requires !o.dryRun
    requires SentByCall()(c) == Sent(|store.orders|, o.candidateId, o.terms, o.status == Failed)
    requires event.RealOrderSubmitted? || event.RealOrderFailed?
    requires event.RealOrderFailed? <==> o.status == Failed
    ensures CallsMatch(store.(orders := store.orders + [o], calls := store.calls + [c],
                              audits := store.audits + [AuditRow(o.candidateId, event)]))
  {
    SentRowsAppend(store.orders, o);
    AuditOutcomesAppend(store.audits, AuditRow(o.candidateId, event));
    MapAppend(store.calls, [c], SentByCall());
    MapAppend(SentRows(store.orders), [SentByCall()(c)], OutcomeOf());
  }

  // ---------------------------------------------------------------- the daily cap

  lemma ExposureNonNegative(store: Store, clock: int, account: int, day: int)
    requires RowsOk(store, clock)
    ensures Exposure(store, account, day) >= 0.0
  {
    SumNonNegative(store.orders, DayWeight(store.candidates, account, day));
  }

  /** No order row dated by the clock falls on a later day. */
  lemma ExposureOfLaterDay(store: Store, clock: int, account: int, day: int)
    requires RowsOk(store, clock) && KstDay(clock) < day
    ensures Exposure(store, account, day) == 0.0
  {
    var f := DayWeight(store.candidates, account, day);
    forall o | o in store.orders ensures f(o) == 0.0 {
      assert KstDay(o.createdAt) <= KstDay(clock);
    }
    SumZero(store.orders, f);
  }

  lemma ExposureAppend(store: Store, o: RealOrder, account: int, day: int)
    ensures Exposure(store.(orders := store.orders + [o]), account, day) ==
            Exposure(store, account, day) + DayWeight(store.candidates, account, day)(o)
  {
    var f := DayWeight(store.candidates, account, day);
    SumOfAppend(store.orders, [o], f);
    assert SumOf([o], f) == f(o) + SumOf([], f) by { assert [o][1..] == []; }
  }

  /** An accepted order keeps the cap although the gate's clock reading may be from the day
      before the one its row is dated: no row of the later day exists yet. */
  lemma AcceptedKeepsCap(store: Store, settings: Settings, call: Call, o: RealOrder, cap: real)
    requires RowsOk(store, call.gateTime) && CapKept(store, cap) && settings.maxDailyAmount <= cap
    requires Gate(store, settings, call).None? && call.gateTime <= call.insertTime
    requires o.candidateId == call.candidateId && o.createdAt == call.insertTime
    requires o.estimatedAmount == store.candidates[call.candidateId].estimatedAmount >= 0.0
    ensures CapKept(store.(orders := store.orders + [o]), cap)
  {
    var mine := store.candidates[call.candidateId].accountId;
    var after := store.(orders := store.orders + [o]);
    forall account: int, day: int ensures Exposure(after, account, day) <= AtLeastZero(cap) {
      ExposureAppend(store, o, account, day);
      if account == mine && day == KstDay(call.insertTime) {
        TodayTotalIsExposure(store, account, call.gateTime);
        ExposureNonNegative(store, call.gateTime, account, KstDay(call.gateTime));
        if KstDay(call.gateTime) < day {
          ExposureOfLaterDay(store, call.gateTime, account, day);
        }
      } else {
        assert Exposure(store, account, day) <= AtLeastZero(cap);
      }
    }
  }

  /** An order that leaves the counted statuses or keeps them never raises the exposure. */
  lemma UpdateKeepsCap(store: Store, i: nat, o: RealOrder, cap: real)
    requires CapKept(store, cap) && i < |store.orders| && store.orders[i].estimatedAmount >= 0.0
    requires !Inactive(store.orders[i].status) && o == store.orders[i].(status := o.status)
    ensures CapKept(store.(orders := store.orders[i := o]), cap)
  {
    var after := store.(orders := store.orders[i := o]);
    forall account: int, day: int ensures Exposure(after, account, day) <= AtLeastZero(cap) {
      SumOfUpdate(store.orders, i, o, DayWeight(store.candidates, account, day));
      assert Exposure(store, account, day) <= AtLeastZero(cap);
    }
  }

  /** The exposure reads only orders, and the accounts of their candidates. */
  lemma SameOrdersKeepCap(store: Store, after: Store, cap: real)
    requires CapKept(store, cap) && forall o :: o in store.orders ==> o.candidateId < |store.candidates|
    requires after.orders == store.orders
    requires |store.candidates| <= |after.candidates|
    requires forall c :: 0 <= c < |store.candidates| ==> after.candidates[c].accountId == store.candidates[c].accountId
    ensures CapKept(after, cap)
  {
    forall account: int, day: int ensures Exposure(after, account, day) <= AtLeastZero(cap) {
      SumCongruence(store.orders, DayWeight(after.candidates, account, day), DayWeight(store.candidates, account, day));
      assert Exposure(store, account, day) <= AtLeastZero(cap);
    }
  }

  // ---------------------------------------------------------------- single steps

  ghost predicate NoneCreated(store: Store) {
    forall i :: 0 <= i < |store.orders| ==> store.orders[i].status != Created
  }

  /** The price sent for these terms: the limit price cut to a whole number, zero for a MARKET order. */
  ghost predicate IsPriceOf(price: int, terms: OrderTerms) {
    match terms.limitPrice
    case None => price == 0
    case Some(p) =>
      if p >= 0.0 then price as real <= p < (price + 1) as real else (price - 1) as real < p <= price as real
  }

  ghost predicate CallsPriced(store: Store) {
    forall k :: 0 <= k < |store.calls| ==> IsPriceOf(store.calls[k].price, store.calls[k].terms)
  }

  /** The invariants that need neither a clock nor a cap. */
  ghost predicate Sound(store: Store) {
    OneActivePerCandidate(store) && CallsMatch(store) && NoneCreated(store) && CallsPriced(store)
  }

  /** The invariants of a clocked run under a daily cap. */
  ghost predicate Capped(store: Store, clock: int, cap: real) {
    RowsOk(store, clock) && CapKept(store, cap)
  }

  lemma LaterClock(store: Store, clock: int, later: int)
    requires RowsOk(store, clock) && clock <= later
    ensures RowsOk(store, later)
  {
  }

  /** What an accepted call leaves: one row more, and for a real order one call and one audit more. */
  lemma AcceptedEffect(store: Store, settings: Settings, call: Call) returns (o: RealOrder)
    requires Gate(store, settings, call).None?
    ensures var after := Execute(store, settings, call).0;
            && after.orders == store.orders + [o] && after.candidates == store.candidates
            && o.candidateId == call.candidateId && o.createdAt == call.insertTime && o.status != Created
            && o.terms == store.candidates[call.candidateId].terms
            && o.estimatedAmount == store.candidates[call.candidateId].estimatedAmount
            && o.dryRun == settings.orderDryRun && (o.dryRun <==> o.status == DryRun)
            && (o.dryRun ==>
                  after == store.(orders := store.orders + [o],
                                  dryCalls := store.dryCalls + DryCalls(|store.orders|, o, call.wiring)))
            && (!o.dryRun ==> after.dryCalls == store.dryCalls)
  {
    o := Execute(store, settings, call).0.orders[|store.orders|];
  }

  lemma ExecuteKeepsRows(store: Store, settings: Settings, call: Call)
    requires RowsOk(store, call.insertTime)
    ensures RowsOk(Execute(store, settings, call).0, call.insertTime)
  {
    if Gate(store, settings, call).None? {
      var o := AcceptedEffect(store, settings, call);
      assert store.candidates[call.candidateId] in store.candidates;
    }
  }

  lemma ExecuteKeepsOneActive(store: Store, settings: Settings, call: Call)
    requires OneActivePerCandidate(store)
    ensures OneActivePerCandidate(Execute(store, settings, call).0)
  {
    if Gate(store, settings, call).None? {
      var o := AcceptedEffect(store, settings, call);
    }
  }

  lemma ExecuteKeepsCap(store: Store, settings: Settings, call: Call, cap: real)
    requires RowsOk(store, call.gateTime) && CapKept(store, cap) && settings.maxDailyAmount <= cap
    requires call.gateTime <= call.insertTime
    ensures CapKept(Execute(store, settings, call).0, cap)
  {
    if Gate(store, settings, call).None? {
      var o := AcceptedEffect(store, settings, call);
      var after := Execute(store, settings, call).0;
      assert store.candidates[call.candidateId] in store.candidates;
      AcceptedKeepsCap(store, settings, call, o, cap);
      SameOrdersKeepCap(store.(orders := after.orders), after, cap);
    }
  }

  lemma ExecuteKeepsMatch(store: Store, settings: Settings, call: Call)
    requires CallsMatch(store)
    ensures CallsMatch(Execute(store, settings, call).0)
  {
    if Gate(store, settings, call).None? {
      var o := AcceptedEffect(store, settings, call);
      if o.dryRun {
        SentRowsAppend(store.orders, o);
      } else {
        var after := Execute(store, settings, call).0;
        var c, event := after.calls[|store.calls|], after.audits[|store.audits|].event;
        assert o == after.orders[|store.orders|];
        assert c == PlaceCall(|store.orders|, call.candidateId, o.terms, RequestPrice(o.terms), call.reply);
        MatchAfterSend(store, o, c, event);
        assert after == store.(orders := store.orders + [o], calls := store.calls + [c],
                               audits := store.audits + [AuditRow(o.candidateId, event)]);
      }
    }
  }

  /** What a sync leaves: at most one audit row more, and at most the status of one open order
      changed, never to FAILED or DRY_RUN and never back to CREATED. */
  lemma SyncEffect(store: Store, id: nat, answer: Answer)
    ensures var after := Sync(store, id, answer).0;
            && after.candidates == store.candidates && after.calls == store.calls && after.dryCalls == store.dryCalls
            && (after.audits == store.audits ||
                (|after.audits| == |store.audits| + 1 && after.audits[..|store.audits|] == store.audits
                 && !after.audits[|store.audits|].event.RealOrderSubmitted?
                 && !after.audits[|store.audits|].event.RealOrderFailed?))
            && (after.orders == store.orders ||
                (id < |store.orders| && !Terminal(store.orders[id].status) && !store.orders[id].dryRun
                 && after.orders == store.orders[id := store.orders[id].(status := after.orders[id].status)]
                 && after.orders[id].status != Failed && after.orders[id].status != DryRun
                 && (after.orders[id].status == Created ==> store.orders[id].status == Created)))
  {
  }

  lemma SyncKeepsRows(store: Store, id: nat, answer: Answer, clock: int)
    requires RowsOk(store, clock)
    ensures RowsOk(Sync(store, id, answer).0, clock)
  {
    SyncEffect(store, id, answer);
  }

  lemma SyncKeepsOneActive(store: Store, id: nat, answer: Answer)
    requires OneActivePerCandidate(store)
    ensures OneActivePerCandidate(Sync(store, id, answer).0)
  {
    SyncEffect(store, id, answer);
  }

  lemma SyncKeepsCap(store: Store, id: nat, answer: Answer, clock: int, cap: real)
    requires CapKept(store, cap) && RowsOk(store, clock)
    ensures CapKept(Sync(store, id, answer).0, cap)
  {
    SyncEffect(store, id, answer);
    var after := Sync(store, id, answer).0;
    if after.orders != store.orders {
      UpdateKeepsCap(store, id, after.orders[id], cap);
    }
    SameOrdersKeepCap(store.(orders := after.orders), after, cap);
  }

  lemma SyncKeepsMatch(store: Store, id: nat, answer: Answer)
    requires CallsMatch(store)
    ensures CallsMatch(Sync(store, id, answer).0)
  {
    hide Sync, SentRows, AuditOutcomes;
    SyncEffect(store, id, answer);
    var after := Sync(store, id, answer).0;
    if after.orders != store.orders {
      SentRowsUpdate(store.orders, id, after.orders[id]);
    }
    if after.audits != store.audits {
      var row := after.audits[|store.audits|];
      AuditOutcomesAppend(store.audits, row);
      assert after.audits == store.audits + [row];
    }
  }

  function ClockAfter(clock: int, step: Step): int {
    if step.ExecuteCall? then step.call.insertTime else clock
  }

  lemma WorkflowKeepsRows(store: Store, step: Step, clock: int)
    requires RowsOk(store, clock) && !step.ExecuteCall? && !step.SyncCall?
    requires step.StageCandidate? ==> ValidCandidate(step.candidate)
    ensures RowsOk(Next(store, step), clock)
  {
    var after := Next(store, step);
    forall c | c in after.candidates ensures ValidCandidate(c) {
      var i :| 0 <= i < |after.candidates| && after.candidates[i] == c;
      if i < |store.candidates| {
        assert store.candidates[i] in store.candidates;
      }
    }
  }

  /** Every step keeps them: whatever the broker answers, the clock shows and the settings are. */
  lemma NextKeepsSound(store: Store, step: Step)
    requires Sound(store)
    ensures Sound(Next(store, step))
  {
    hide OneActivePerCandidate, CallsMatch, NoneCreated, CallsPriced, Execute, Sync;
    match step
    case ExecuteCall(settings, call) =>
      ExecuteKeepsOneActive(store, settings, call);
      ExecuteKeepsMatch(store, settings, call);
      ExecuteLeavesNoneCreated(store, settings, call);
      ExecutePricesCalls(store, settings, call);
    case SyncCall(orderId, answer) =>
      SyncKeepsOneActive(store, orderId, answer);
      SyncKeepsMatch(store, orderId, answer);
      SyncLeavesNoneCreated(store, orderId, answer);
      SyncSendsNothing(store, orderId, answer);
    case _ => SameRowsStaySound(store, Next(store, step));
  }

  lemma ExecutePricesCalls(store: Store, settings: Settings, call: Call)
    requires CallsPriced(store)
    ensures CallsPriced(Execute(store, settings, call).0)
  {
    if Gate(store, settings, call).None? {
      RequestPriceIsPrice(store.candidates[call.candidateId].terms);
    }
  }

  lemma RequestPriceIsPrice(terms: OrderTerms)
    ensures IsPriceOf(RequestPrice(terms), terms)
  {
  }

  lemma SyncSendsNothing(store: Store, id: nat, answer: Answer)
    requires CallsPriced(store)
    ensures CallsPriced(Sync(store, id, answer).0)
  {
    hide Sync;
    SyncEffect(store, id, answer);
  }

  lemma SameRowsStaySound(store: Store, after: Store)
    requires Sound(store)
    requires after.orders == store.orders && after.calls == store.calls && after.audits == store.audits
    ensures Sound(after)
  {
  }

  lemma SyncLeavesNoneCreated(store: Store, id: nat, answer: Answer)
    requires NoneCreated(store)
    ensures NoneCreated(Sync(store, id, answer).0)
  {
    hide Sync;
    SyncEffect(store, id, answer);
  }

  lemma ExecuteLeavesNoneCreated(store: Store, settings: Settings, call: Call)
    requires NoneCreated(store)
    ensures NoneCreated(Execute(store, settings, call).0)
  {
    if Gate(store, settings, call).None? {
      var o := AcceptedEffect(store, settings, call);
    }
  }

  lemma {:induction false} RunKeepsSound(store: Store, steps: seq<Step>)
    requires Sound(store)
    ensures Sound(Run(store, steps))
    decreases |steps|
  {
    hide Sound;
    if steps != [] {
      NextKeepsSound(store, steps[0]);
      RunKeepsSound(Next(store, steps[0]), steps[1..]);
    }
  }

  lemma EmptyIsSound()
    ensures Sound(EMPTY)
  {
  }

  /** Every step of a clocked run keeps its rows dated and the daily cap. */
  lemma NextKeepsCap(store: Store, step: Step, clock: int, cap: real)
    requires Capped(store, clock, cap)
    requires step.ExecuteCall? ==>
               step.settings.maxDailyAmount <= cap && clock <= step.call.gateTime <= step.call.insertTime
    requires step.StageCandidate? ==> ValidCandidate(step.candidate)
    ensures Capped(Next(store, step), ClockAfter(clock, step), cap)
  {
    match step
    case ExecuteCall(settings, call) =>
      LaterClock(store, clock, call.gateTime);
      LaterClock(store, clock, call.insertTime);
      ExecuteKeepsRows(store, settings, call);
      ExecuteKeepsCap(store, settings, call, cap);
    case SyncCall(orderId, answer) =>
      SyncKeepsRows(store, orderId, answer, clock);
      SyncKeepsCap(store, orderId, answer, clock, cap);
    case _ =>
      WorkflowKeepsRows(store, step, clock);
      SameOrdersKeepCap(store, Next(store, step), cap);
  }

  lemma {:induction false} RunKeepsCap(store: Store, steps: seq<Step>, clock: int, cap: real)
    requires Capped(store, clock, cap) && Clocked(clock, steps, cap)
    ensures CapKept(Run(store, steps), cap)
    decreases |steps|
  {
    if steps != [] {
      NextKeepsCap(store, steps[0], clock, cap);
      RunKeepsCap(Next(store, steps[0]), steps[1..], ClockAfter(clock, steps[0]), cap);
    }
  }

  // ---------------------------------------------------------------- main results

  /** In every reachable state each candidate has at most one order outside FAILED, REJECTED and
      CANCELED; and when the run is clocked and no call's daily cap exceeds `cap`, no account's
      exposure of any KST day exceeds it either. */
  lemma RealTradingIsSafe(steps: seq<Step>)
    ensures OneActivePerCandidate(Run(EMPTY, steps))
    ensures forall clock, cap :: Clocked(clock, steps, cap) ==> CapKept(Run(EMPTY, steps), cap)
  {
    EmptyIsSound();
    RunKeepsSound(EMPTY, steps);
    forall clock, cap | Clocked(clock, steps, cap) ensures CapKept(Run(EMPTY, steps), cap) {
      RunKeepsCap(EMPTY, steps, clock, cap);
    }
  }

  lemma SentRowsStep(orders: seq<RealOrder>)
    requires orders != []
    ensures var last := |orders| - 1;
            var o := orders[last];
            SentRows(orders) == SentRows(orders[..last])
                                + if o.dryRun then [] else [Sent(last, o.candidateId, o.terms, o.status == Failed)]
  {
  }

  lemma {:induction false} SentRowIds(orders: seq<RealOrder>)
    ensures forall k :: 0 <= k < |SentRows(orders)| ==>
              var s := SentRows(orders)[k];
              s.orderId < |orders| && !orders[s.orderId].dryRun && s.candidateId == orders[s.orderId].candidateId
              && s.terms == orders[s.orderId].terms && s.failed == (orders[s.orderId].status == Failed)
    ensures forall j, k :: 0 <= j < k < |SentRows(orders)| ==> SentRows(orders)[j].orderId < SentRows(orders)[k].orderId
  {
    if orders != [] {
      SentRowIds(orders[..|orders| - 1]);
      SentRowsStep(orders);
      hide SentRows;
    }
  }

  lemma {:induction false} RealRowsAreSent(orders: seq<RealOrder>, i: nat) returns (k: nat)
    requires i < |orders| && !orders[i].dryRun
    ensures k < |SentRows(orders)| && SentRows(orders)[k].orderId == i
    decreases |orders|
  {
    hide SentRows;
    var last := |orders| - 1;
    SentRowsStep(orders);
    if i < last {
      k := RealRowsAreSent(orders[..last], i);
    } else {
      k := |SentRows(orders[..last])|;
    }
  }

  /** Broker calls and real order rows correspond one to one, in order, with the same terms and the
      price of those terms: an order is FAILED exactly when its call's reply was not SUBMITTED, and none is
      left CREATED. */
  ghost predicate CallsPairOrders(s: Store) {
    && (forall k :: 0 <= k < |s.calls| ==>
          var call := s.calls[k];
          && call.anchor < |s.orders|
          && !s.orders[call.anchor].dryRun
          && call.candidateId == s.orders[call.anchor].candidateId
          && call.terms == s.orders[call.anchor].terms
          && IsPriceOf(call.price, call.terms)
          && (s.orders[call.anchor].status == Failed
              <==> Kis.ClassifyPlaceMessage(call.reply.message) != Kis.Submitted))
    && (forall j, k :: 0 <= j < k < |s.calls| ==> s.calls[j].anchor < s.calls[k].anchor)
    && (forall i :: 0 <= i < |s.orders| && !s.orders[i].dryRun ==>
          s.orders[i].status != Created && exists k :: 0 <= k < |s.calls| && s.calls[k].anchor == i)
  }

  /** The executor's k-th audit row is of the k-th call's candidate, and says FAILED exactly
      when that call's order is failed. */
  ghost predicate AuditsPairCalls(s: Store)
    requires CallsPairOrders(s)
  {
    && |AuditOutcomes(s.audits)| == |s.calls|
    && forall k :: 0 <= k < |s.calls| ==>
         AuditOutcomes(s.audits)[k] == Outcome(s.calls[k].candidateId, s.orders[s.calls[k].anchor].status == Failed)
  }

  lemma MatchGivesPairs(s: Store)
    requires CallsMatch(s) && CallsPriced(s)
    requires forall i :: 0 <= i < |s.orders| ==> s.orders[i].status != Created
    ensures CallsPairOrders(s)
  {
    SentRowIds(s.orders);
    var rows := SentRows(s.orders);
    forall k | 0 <= k < |s.calls| ensures rows[k] == SentByCall()(s.calls[k]) {
    }
    forall i | 0 <= i < |s.orders| && !s.orders[i].dryRun
      ensures exists k :: 0 <= k < |s.calls| && s.calls[k].anchor == i
    {
      var k := RealRowsAreSent(s.orders, i);
      assert rows[k].orderId == i && s.calls[k].anchor == i;
    }
  }

  lemma MatchGivesAudits(s: Store)
    requires CallsMatch(s) && CallsPairOrders(s)
    ensures AuditsPairCalls(s)
  {
    SentRowIds(s.orders);
    forall k | 0 <= k < |s.calls|
      ensures AuditOutcomes(s.audits)[k]
              == Outcome(s.calls[k].candidateId, s.orders[s.calls[k].anchor].status == Failed)
    {
      assert SentRows(s.orders)[k] == SentByCall()(s.calls[k]);
    }
  }

  /** In every reachable state: one broker call and one audit row for every real order. */
  lemma OneCallAndOneAuditPerRealOrder(steps: seq<Step>)
    ensures CallsPairOrders(Run(EMPTY, steps))
    ensures AuditsPairCalls(Run(EMPTY, steps))
  {
    hide Run, OneActivePerCandidate, CallsMatch, CallsPriced, CallsPairOrders, AuditsPairCalls;
    EmptyIsSound();
    RunKeepsSound(EMPTY, steps);
    MatchGivesPairs(Run(EMPTY, steps));
    MatchGivesAudits(Run(EMPTY, steps));
  }

  // ---------------------------------------------------------------- dry runs and the broker

  /** The settings and wirings that calls may meet. */
  type Configurations = (Settings, Wiring) -> bool

  /** Every candidate staged is one the repository accepts, and every call meets an allowed
      configuration; these may differ from call to call. */
  ghost predicate RunsUnder(steps: seq<Step>, allowed: Configurations) {
    forall k :: 0 <= k < |steps| ==>
      && (steps[k].StageCandidate? ==> ValidCandidate(steps[k].candidate))
      && (steps[k].ExecuteCall? ==> allowed(steps[k].settings, steps[k].call.wiring))
  }

  /** A configuration in which a dry run reaches the broker: a real transport was injected, and the
      switches and caps let at least an order of amount zero through. */
  predicate DryRunsReachBroker(settings: Settings, wiring: Wiring) {
    && settings.orderDryRun && wiring.injectedReal
    && !settings.killSwitch && settings.tradingSafety && settings.realTrading && settings.kisOrder
    && settings.maxOrderAmount >= 0.0 && settings.maxDailyAmount >= 0.0
  }

  ghost predicate EstimatesOk(store: Store) {
    && (forall c :: c in store.candidates ==> ValidCandidate(c))
    && (forall o :: o in store.orders ==> o.estimatedAmount >= 0.0)
  }

  lemma NextKeepsEstimates(store: Store, step: Step)
    requires EstimatesOk(store)
    requires step.StageCandidate? ==> ValidCandidate(step.candidate)
    ensures EstimatesOk(Next(store, step))
  {
    var after := Next(store, step);
    match step
    case ExecuteCall(settings, call) =>
      if Gate(store, settings, call).None? {
        var o := AcceptedEffect(store, settings, call);
        assert store.candidates[call.candidateId] in store.candidates;
      }
    case SyncCall(orderId, answer) =>
      SyncEffect(store, orderId, answer);
      forall o | o in after.orders ensures o.estimatedAmount >= 0.0 {
        var i :| 0 <= i < |after.orders| && after.orders[i] == o;
        assert store.orders[i] in store.orders;
      }
    case _ =>
      forall c | c in after.candidates ensures ValidCandidate(c) {
        var i :| 0 <= i < |after.candidates| && after.candidates[i] == c;
        if i < |store.candidates| { assert store.candidates[i] in store.candidates; }
      }
  }

  lemma StepSendsNoDryCall(store: Store, step: Step)
    requires EstimatesOk(store)
    requires step.ExecuteCall? ==> !DryRunsReachBroker(step.settings, step.call.wiring)
    ensures Next(store, step).dryCalls == store.dryCalls
  {
    match step
    case ExecuteCall(settings, call) =>
      if Gate(store, settings, call).None? {
        var o := AcceptedEffect(store, settings, call);
        assert store.candidates[call.candidateId] in store.candidates;
        SumNonNegative(store.orders,
                       WindowWeight(store.candidates, store.candidates[call.candidateId].accountId, call.gateTime));
      }
    case SyncCall(orderId, answer) => SyncEffect(store, orderId, answer);
    case _ =>
  }

  lemma {:induction false} RunSendsNoDryCall(store: Store, steps: seq<Step>, allowed: Configurations)
    requires RunsUnder(steps, allowed) && EstimatesOk(store)
    requires forall settings, wiring :: allowed(settings, wiring) ==> !DryRunsReachBroker(settings, wiring)
    ensures Run(store, steps).dryCalls == store.dryCalls
    decreases |steps|
  {
    hide EstimatesOk, DryRunsReachBroker;
    if steps != [] {
      StepSendsNoDryCall(store, steps[0]);
      NextKeepsEstimates(store, steps[0]);
      assert forall k :: 0 <= k < |steps[1..]| ==> steps[1..][k] == steps[k + 1];
      RunSendsNoDryCall(Next(store, steps[0]), steps[1..], allowed);
    }
  }

  /** One approved candidate of amount zero, executed as a dry run on an injected real transport:
      the order goes out, and no real order row or audit row tells of it. */
  lemma DryRunSends(settings: Settings, wiring: Wiring) returns (steps: seq<Step>)
    requires DryRunsReachBroker(settings, wiring)
    ensures forall allowed: Configurations :: allowed(settings, wiring) ==> RunsUnder(steps, allowed)
    ensures |Run(EMPTY, steps).dryCalls| == 1 && Run(EMPTY, steps).audits == []
    ensures Run(EMPTY, steps).dryCalls[0].rowsOnFile == 0
    ensures forall i :: 0 <= i < |Run(EMPTY, steps).orders| ==> Run(EMPTY, steps).orders[i].dryRun
  {
    var c := Candidate(7, OrderTerms("005930", Buy, 1, None), 0.0, Approved, None);
    var call := Call(0, 0, 0, true, wiring, Kis.PlaceResult(true, "", ""));
    steps := [StageCandidate(c), ExecuteCall(settings, call)];
    var staged := Next(EMPTY, steps[0]);
    assert staged == Store([c], [], [], [], [], []);
    assert Gate(staged, settings, call).None?;
    var last := steps[1..];
    assert last == [steps[1]] && last[1..] == [];
    assert Run(staged, last) == Run(Next(staged, last[0]), last[1..]) == Next(staged, steps[1]);
  }

  /** When the allowed configurations are given, no dry run of any run under them reaches the broker,
      so that the calls that pair with real orders are all there are, exactly when none of them is
      one of those above. */
  lemma DryRunsStayHomeExactly(allowed: Configurations)
    ensures (forall steps :: RunsUnder(steps, allowed) ==> Run(EMPTY, steps).dryCalls == [])
            <==> (forall settings, wiring :: allowed(settings, wiring) ==> !DryRunsReachBroker(settings, wiring))
  {
    if settings, wiring :| allowed(settings, wiring) && DryRunsReachBroker(settings, wiring) {
      var steps := DryRunSends(settings, wiring);
      assert RunsUnder(steps, allowed) && Run(EMPTY, steps).dryCalls != [];
    } else {
      forall steps | RunsUnder(steps, allowed) ensures Run(EMPTY, steps).dryCalls == [] {
        RunSendsNoDryCall(EMPTY, steps, allowed);
      }
    }
  }

  /** Each dry call went out when its DRY_RUN row was not on file yet: the row is the next one, and
      no other call's. */
  ghost predicate DryCallsPrecedeRows(store: Store) {
    && (forall k :: 0 <= k < |store.dryCalls| ==>
          var d := store.dryCalls[k];
          && d.rowsOnFile < |store.orders|
          && store.orders[d.rowsOnFile].dryRun
          && d.candidateId == store.orders[d.rowsOnFile].candidateId
          && d.terms == store.orders[d.rowsOnFile].terms)
    && (forall j, k :: 0 <= j < k < |store.dryCalls| ==> store.dryCalls[j].rowsOnFile < store.dryCalls[k].rowsOnFile)
  }

  ghost predicate DryRowsHaveCalls(store: Store) {
    forall i :: 0 <= i < |store.orders| && store.orders[i].dryRun ==>
      exists k :: 0 <= k < |store.dryCalls| && store.dryCalls[k].rowsOnFile == i
  }

  lemma NextKeepsDryCalls(store: Store, step: Step)
    requires DryCallsPrecedeRows(store)
    ensures DryCallsPrecedeRows(Next(store, step))
  {
    match step
    case ExecuteCall(settings, call) =>
      if Gate(store, settings, call).None? {
        var o := AcceptedEffect(store, settings, call);
      }
    case SyncCall(orderId, answer) => SyncEffect(store, orderId, answer);
    case _ =>
  }

  lemma NextKeepsDryRows(store: Store, step: Step)
    requires DryRowsHaveCalls(store)
    requires step.ExecuteCall? && step.settings.orderDryRun ==> step.call.wiring.injectedReal
    ensures DryRowsHaveCalls(Next(store, step))
  {
    var after := Next(store, step);
    match step
    case ExecuteCall(settings, call) =>
      if Gate(store, settings, call).None? {
        var o := AcceptedEffect(store, settings, call);
        forall i | 0 <= i < |after.orders| && after.orders[i].dryRun
          ensures exists k :: 0 <= k < |after.dryCalls| && after.dryCalls[k].rowsOnFile == i
        {
          if i < |store.orders| {
            var k :| 0 <= k < |store.dryCalls| && store.dryCalls[k].rowsOnFile == i;
            assert after.dryCalls[k].rowsOnFile == i;
          } else {
            assert after.dryCalls[|store.dryCalls|].rowsOnFile == i;
          }
        }
      }
    case SyncCall(orderId, answer) => SyncEffect(store, orderId, answer);
    case _ =>
  }

  lemma {:induction false} RunKeepsDryCalls(store: Store, steps: seq<Step>)
    requires DryCallsPrecedeRows(store)
    ensures DryCallsPrecedeRows(Run(store, steps))
    decreases |steps|
  {
    hide DryCallsPrecedeRows;
    if steps != [] {
      NextKeepsDryCalls(store, steps[0]);
      RunKeepsDryCalls(Next(store, steps[0]), steps[1..]);
    }
  }

  /** Every dry run of the run places its order on an injected real transport. */
  ghost predicate DryRunsInjectReal(steps: seq<Step>) {
    forall k :: 0 <= k < |steps| && steps[k].ExecuteCall? && steps[k].settings.orderDryRun ==>
      steps[k].call.wiring.injectedReal
  }

  lemma {:induction false} RunKeepsDryRows(store: Store, steps: seq<Step>)
    requires DryRowsHaveCalls(store) && DryRunsInjectReal(steps)
    ensures DryRowsHaveCalls(Run(store, steps))
    decreases |steps|
  {
    hide DryRowsHaveCalls;
    if steps != [] {
      NextKeepsDryRows(store, steps[0]);
      assert forall k :: 0 <= k < |steps[1..]| ==> steps[1..][k] == steps[k + 1];
      RunKeepsDryRows(Next(store, steps[0]), steps[1..]);
    }
  }

  /** In every reachable state the dry runs' calls to the broker precede their own DRY_RUN rows, one
      each; and when every dry run had a real transport injected, every DRY_RUN row had its call. */
  lemma DryCallsHaveRows(steps: seq<Step>)
    ensures DryCallsPrecedeRows(Run(EMPTY, steps))
    ensures DryRunsInjectReal(steps) ==> DryRowsHaveCalls(Run(EMPTY, steps))
  {
    RunKeepsDryCalls(EMPTY, steps);
    if DryRunsInjectReal(steps) {
      RunKeepsDryRows(EMPTY, steps);
    }
  }

  // ---------------------------------------------------------------- when nothing is known of the clock

  /** Calls whose two clock readings are given, under a positive daily cap, keep the cap from
      every state that keeps it exactly when the readings fall on the same KST day. */
  lemma CapKeptExactlyOnOneDay(gateTime: int, insertTime: int, cap: real, clock: int)
    requires cap > 0.0 && gateTime <= insertTime <= clock
    ensures (forall store: Store, settings: Settings, call: Call ::
               RowsOk(store, clock) && CapKept(store, cap) && settings.maxDailyAmount == cap
               && call.gateTime == gateTime && call.insertTime == insertTime
               ==> CapKept(Execute(store, settings, call).0, cap))
            <==> KstDay(gateTime) == KstDay(insertTime)
  {
    if KstDay(gateTime) == KstDay(insertTime) {
      forall store: Store, settings: Settings, call: Call |
        RowsOk(store, clock) && CapKept(store, cap) && settings.maxDailyAmount == cap
        && call.gateTime == gateTime && call.insertTime == insertTime
        ensures CapKept(Execute(store, settings, call).0, cap)
      {
        SameDayKeepsCap(store, settings, call, clock);
      }
    } else {
      var store, settings, call := StraddlingCall(gateTime, insertTime, cap, clock);
      assert !CapKept(Execute(store, settings, call).0, cap);
    }
  }

  lemma SameDayKeepsCap(store: Store, settings: Settings, call: Call, clock: int)
    requires RowsOk(store, clock) && CapKept(store, settings.maxDailyAmount)
    requires KstDay(call.gateTime) == KstDay(call.insertTime)
    ensures CapKept(Execute(store, settings, call).0, settings.maxDailyAmount)
  {
    var cap := settings.maxDailyAmount;
    if Gate(store, settings, call).None? {
      var o := AcceptedEffect(store, settings, call);
      var after := Execute(store, settings, call).0;
      var mine := store.candidates[call.candidateId].accountId;
      assert store.candidates[call.candidateId] in store.candidates;
      var mid := store.(orders := after.orders);
      forall account: int, day: int ensures Exposure(mid, account, day) <= AtLeastZero(cap) {
        ExposureAppend(store, o, account, day);
        TodayTotalIsExposure(store, mine, call.gateTime);
        assert Exposure(store, account, day) <= AtLeastZero(cap);
      }
      SameOrdersKeepCap(mid, after, cap);
    }
  }

  /** Two candidates of one account at the full cap each: one order already dated on the later
      day, the other accepted because its gate still read the earlier day. */
  lemma StraddlingCall(gateTime: int, insertTime: int, cap: real, clock: int)
    returns (store: Store, settings: Settings, call: Call)
    requires cap > 0.0 && gateTime <= insertTime <= clock && KstDay(gateTime) != KstDay(insertTime)
    ensures RowsOk(store, clock) && CapKept(store, cap) && settings.maxDailyAmount == cap
    ensures call.gateTime == gateTime && call.insertTime == insertTime
    ensures !CapKept(Execute(store, settings, call).0, cap)
  {
    var c := Candidate(7, OrderTerms("005930", Buy, 1, None), cap, Approved, None);
    var placed := RealOrder(0, c.terms, cap, DryRun, true, insertTime, None);
    store := Store([c, c], [placed], [], [], [], []);
    settings := Settings(true, false, true, true, true, cap, cap);
    call := Call(1, gateTime, insertTime, true, Wiring(false, NoFactory), Kis.PlaceResult(true, "", ""));
    forall account: int, day: int ensures Exposure(store, account, day) <= AtLeastZero(cap) {
      ExposureAppend(store.(orders := []), placed, account, day);
      assert [] + [placed] == [placed];
    }
    TodayTotalIsExposure(store, 7, gateTime);
    ExposureAppend(store.(orders := []), placed, 7, KstDay(gateTime));
    assert [] + [placed] == [placed];
    assert LatestActive([placed], 1).None? by { assert [placed][..0] == []; }
    var after := Execute(store, settings, call).0;
    var o := NewOrder(store, call, true);
    ExposureAppend(store, o, 7, KstDay(insertTime));
    ExposureAppend(store.(orders := []), placed, 7, KstDay(insertTime));
    assert Exposure(after, 7, KstDay(insertTime)) == cap + cap;
  }
}
