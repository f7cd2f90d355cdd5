/** What every run of the approval workflow keeps: the audit trail determines each candidate's
    status, statuses only move forward, and an executed candidate owns one paper order. */
module ApprovalRuns {
  import opened Wrappers
  import opened Strings
  import opened OrderCandidates
  import opened ApprovalService
  import opened CostModel
  import PnlTracker
  import PaperRuns
  import Broker = SimulationBroker
  import RealOrderStore
  import RealOrderExecutor

  datatype Action =
    | CreateCall(settings: Settings, request: CandidateRequest, riskPassed: bool)
    | ApproveCall(settings: Settings, id: nat, riskPassed: bool)
    | RejectCall(settings: Settings, id: nat)
    | ExpireCall(id: nat)
    | BrokerCall(rates: FillRates, op: PaperRuns.Operation)
    | RealOrderNote(id: nat)

  /** A call either lands or is rolled back by its caller. */
  datatype Step = Step(action: Action, committed: bool)

  function Perform(desk: Desk, a: Action): Desk
    requires Broker.BookOk(desk.book)
  {
    match a
    case CreateCall(s, r, passed) => Create(desk, s, r, passed).0
    case ApproveCall(s, id, passed) => Approve(desk, s, id, passed).0
    case RejectCall(s, id) => Reject(desk, s, id).0
    case ExpireCall(id) => Expire(desk, id).0
    case BrokerCall(rates, op) => desk.(book := PaperRuns.Apply(desk.book, rates, op))
    case RealOrderNote(id) =>
      if id < |desk.candidates| then desk.(audits := desk.audits + [AuditRow(id, RealOrderEvent)]) else desk
  }

  function Next(desk: Desk, step: Step): (r: Desk)
    requires Broker.BookOk(desk.book)
    ensures Broker.BookOk(r.book)
  {
    if step.committed then
      PerformKeepsBook(desk, step.action);
      Perform(desk, step.action)
    else desk
  }

  function Run(desk: Desk, steps: seq<Step>): (r: Desk)
    requires Broker.BookOk(desk.book)
    ensures Broker.BookOk(r.book)
  {
    if steps == [] then desk else Next(Run(desk, steps[..|steps| - 1]), steps[|steps| - 1])
  }

  lemma PerformKeepsBook(desk: Desk, a: Action)
    requires Broker.BookOk(desk.book)
    ensures Broker.BookOk(Perform(desk, a).book)
  {
    if a.BrokerCall? {
      hide Broker.BookOk, PaperRuns.Apply;
      PaperRuns.ApplyAllStep(desk.book, a.rates, a.op);
    }
  }

  function Opening(accounts: map<int, PnlTracker.Account>): Desk {
    Desk([], [], Broker.Book(accounts, [], []))
  }

  // ---------------------------------------------------------------- replaying the audit trail

  /** What one audit row says happened to a candidate of this status. */
  function ReplayEvent(status: CandidateStatus, e: Event): CandidateStatus {
    match e
    case CandidateCreated => RiskChecking
    case RiskChecked(passed) => if passed then PendingApproval else RiskRejected
    case RiskRejectedEvent => if status == PendingApproval then Rejected else status
    case ApprovedEvent => Approved
    case RejectedEvent => Rejected
    case ExpiredEvent => Expired
    case ExecutedPaperEvent(_, _) => ExecutedPaper
    case KillSwitchBlocked => status
    case RealOrderEvent => status
  }

  /** The status the audit log implies for a candidate. */
  function Replay(audits: seq<AuditRow>, id: nat): CandidateStatus {
    if audits == [] then Draft
    else
      var last := |audits| - 1;
      var before := Replay(audits[..last], id);
      if audits[last].candidateId == id then ReplayEvent(before, audits[last].event) else before
  }

  ghost predicate TrailOk(desk: Desk) {
    && (forall row :: row in desk.audits ==> row.candidateId < |desk.candidates|)
    && (forall id :: 0 <= id < |desk.candidates| ==> Replay(desk.audits, id) == desk.candidates[id].status)
    && (forall id :: 0 <= id < |desk.candidates| ==>
          desk.candidates[id].status != Draft && desk.candidates[id].status != RiskChecking)
  }

  lemma ReplayAppend(audits: seq<AuditRow>, row: AuditRow, id: nat)
    ensures Replay(audits + [row], id) ==
            if row.candidateId == id then ReplayEvent(Replay(audits, id), row.event) else Replay(audits, id)
  {
    assert (audits + [row])[..|audits|] == audits;
  }

  lemma {:induction false} ReplayOfNobody(audits: seq<AuditRow>, id: nat)
    requires forall row :: row in audits ==> row.candidateId != id
    ensures Replay(audits, id) == Draft
  {
    if audits != [] { ReplayOfNobody(audits[..|audits| - 1], id); }
  }

  lemma MovedKeepsTrail(desk: Desk, id: nat, status: CandidateStatus, event: Event)
    requires TrailOk(desk) && id < |desk.candidates|
    requires status == ReplayEvent(desk.candidates[id].status, event) && status != Draft && status != RiskChecking
    ensures TrailOk(Moved(desk, id, status, event))
  {
    var after := Moved(desk, id, status, event);
    forall k | 0 <= k < |desk.candidates| ensures Replay(after.audits, k) == after.candidates[k].status {
      ReplayAppend(desk.audits, AuditRow(id, event), k);
    }
  }

  lemma NotedKeepsTrail(desk: Desk, id: nat, event: Event)
    requires TrailOk(desk) && id < |desk.candidates| && (event == KillSwitchBlocked || event == RealOrderEvent)
    ensures TrailOk(desk.(audits := desk.audits + [AuditRow(id, event)]))
  {
    forall k | 0 <= k < |desk.candidates|
      ensures Replay(desk.audits + [AuditRow(id, event)], k) == desk.candidates[k].status
    {
      ReplayAppend(desk.audits, AuditRow(id, event), k);
    }
  }

  lemma CreateKeepsTrail(desk: Desk, s: Settings, r: CandidateRequest, riskPassed: bool)
    requires TrailOk(desk)
    ensures TrailOk(Create(desk, s, r, riskPassed).0)
  {
    var result := Create(desk, s, r, riskPassed);
    if result.1.Success? {
      hide Replay, ReplayEvent, Create, CreateEvents;
      var n := |desk.candidates|;
      ReplayOfNobody(desk.audits, n);
      CreateEffect(desk, s, r, riskPassed);
      forall k | 0 <= k <= n ensures Replay(result.0.audits, k) == result.0.candidates[k].status {
        CreateTrail(desk.audits, n, riskPassed, k);
      }
    }
  }

  lemma CreateEffect(desk: Desk, s: Settings, r: CandidateRequest, riskPassed: bool)
    requires Create(desk, s, r, riskPassed).1.Success?
    ensures var after, n := Create(desk, s, r, riskPassed).0, |desk.candidates|;
            && |after.candidates| == n + 1 && after.candidates[..n] == desk.candidates
            && after.candidates[n].status == (if riskPassed then PendingApproval else RiskRejected)
            && after.audits == desk.audits + Rows(n, CreateEvents(riskPassed))
  {
  }

  /** What the rows of a creation replay to. */
  lemma CreateTrail(audits: seq<AuditRow>, n: nat, riskPassed: bool, k: nat)
    requires k == n ==> Replay(audits, n) == Draft
    ensures Replay(audits + Rows(n, CreateEvents(riskPassed)), k) ==
            if k != n then Replay(audits, k) else if riskPassed then PendingApproval else RiskRejected
  {
    hide Replay;
    var one := audits + [AuditRow(n, CandidateCreated)];
    var two := one + [AuditRow(n, RiskChecked(riskPassed))];
    ReplayAppend(audits, AuditRow(n, CandidateCreated), k);
    ReplayAppend(one, AuditRow(n, RiskChecked(riskPassed)), k);
    var rows := Rows(n, CreateEvents(riskPassed));
    if riskPassed {
      assert audits + rows == two;
    } else {
      ReplayAppend(two, AuditRow(n, RiskRejectedEvent), k);
      assert audits + rows == two + [AuditRow(n, RiskRejectedEvent)];
    }
  }

  lemma SameTrail(desk: Desk, after: Desk)
    requires TrailOk(desk) && after.audits == desk.audits && |after.candidates| == |desk.candidates|
    requires forall k :: 0 <= k < |desk.candidates| ==> after.candidates[k].status == desk.candidates[k].status
    ensures TrailOk(after)
  {
  }

  lemma ApproveKeepsTrail(desk: Desk, s: Settings, id: nat, riskPassed: bool)
    requires TrailOk(desk)
    ensures TrailOk(Approve(desk, s, id, riskPassed).0)
  {
    hide TrailOk, Broker.Submit;
    var admission := Admission(desk, s, id);
    if admission.1.None? {
      if !riskPassed {
        MovedKeepsTrail(desk, id, Rejected, RiskRejectedEvent);
      } else {
        MovedKeepsTrail(desk, id, Approved, ApprovedEvent);
        var approved := Moved(desk, id, Approved, ApprovedEvent);
        var result := Approve(desk, s, id, riskPassed);
        if result.1.Success? {
          var event := result.0.audits[|approved.audits|].event;
          MovedKeepsTrail(approved, id, ExecutedPaper, event);
          SameTrail(Moved(approved, id, ExecutedPaper, event), result.0);
        }
      }
    } else if admission.0 != desk {
      NotedKeepsTrail(desk, id, KillSwitchBlocked);
    }
  }

  lemma PerformKeepsTrail(desk: Desk, a: Action)
    requires Broker.BookOk(desk.book) && TrailOk(desk)
    ensures TrailOk(Perform(desk, a))
  {
    match a
    case CreateCall(s, r, passed) => CreateKeepsTrail(desk, s, r, passed);
    case ApproveCall(s, id, passed) => ApproveKeepsTrail(desk, s, id, passed);
    case RejectCall(s, id) =>
      if Admission(desk, s, id).1.None? {
        MovedKeepsTrail(desk, id, Rejected, RejectedEvent);
      } else if Admission(desk, s, id).0 != desk {
        NotedKeepsTrail(desk, id, KillSwitchBlocked);
      }
    case ExpireCall(id) =>
      if id < |desk.candidates| && desk.candidates[id].status == PendingApproval {
        MovedKeepsTrail(desk, id, Expired, ExpiredEvent);
      }
    case BrokerCall(_, _) =>
    case RealOrderNote(id) =>
      if id < |desk.candidates| { NotedKeepsTrail(desk, id, RealOrderEvent); }
  }

  /** After any run, replaying a candidate's audit rows yields its current status. */
  lemma {:induction false} ReplayYieldsStatus(accounts: map<int, PnlTracker.Account>, steps: seq<Step>)
    ensures TrailOk(Run(Opening(accounts), steps))
  {
    if steps != [] {
      var last := |steps| - 1;
      ReplayYieldsStatus(accounts, steps[..last]);
      if steps[last].committed {
        PerformKeepsTrail(Run(Opening(accounts), steps[..last]), steps[last].action);
      }
    }
  }

  // ---------------------------------------------------------------- statuses only move forward

  /** Reachable along the edges of the state machine. */
  predicate Forward(from: CandidateStatus, to: CandidateStatus) {
    from == to ||
    match from
    case Draft => true
    case RiskChecking => to != Draft
    case PendingApproval => to == Approved || to == ExecutedPaper || to == Rejected || to == Expired
    case Approved => to == ExecutedPaper
    case _ => false
  }

  /** Forward is the order the edges generate: it contains every edge, is transitive, and has no cycle. */
  lemma ForwardIsAnOrder(a: CandidateStatus, b: CandidateStatus, c: CandidateStatus)
    ensures AllowedTransition(a, b) ==> Forward(a, b) && a != b
    ensures Forward(a, b) && Forward(b, c) ==> Forward(a, c)
    ensures Forward(a, b) && Forward(b, a) ==> a == b
    ensures Forward(a, c) && a != c ==> exists next :: AllowedTransition(a, next) && Forward(next, c)
  {
    if Forward(a, c) && a != c {
      match a {
        case Draft => assert AllowedTransition(a, RiskChecking) && Forward(RiskChecking, c);
        case RiskChecking =>
          if c == RiskRejected {
            assert AllowedTransition(a, RiskRejected) && Forward(RiskRejected, c);
          } else {
            assert AllowedTransition(a, PendingApproval) && Forward(PendingApproval, c);
          }
        case PendingApproval =>
          if c == ExecutedPaper {
            assert AllowedTransition(a, Approved) && Forward(Approved, c);
          } else {
            assert AllowedTransition(a, c) && Forward(c, c);
          }
        case Approved => assert AllowedTransition(a, ExecutedPaper) && Forward(ExecutedPaper, c);
        case _ =>
      }
    }
  }

  /** Candidates are never removed, re-priced or moved back; and once a call has left one APPROVED
      without its paper order, no later call of the workflow moves it again. */
  ghost predicate Advances(before: Desk, after: Desk) {
    && |before.candidates| <= |after.candidates|
    && forall id :: 0 <= id < |before.candidates| ==>
         var c, d := before.candidates[id], after.candidates[id];
         && Forward(c.status, d.status)
         && d.terms == c.terms && d.accountId == c.accountId && d.estimatedAmount == c.estimatedAmount
         && (c.status == Approved ==> d == c)
  }

  lemma PerformAdvances(desk: Desk, a: Action)
    requires Broker.BookOk(desk.book)
    ensures Advances(desk, Perform(desk, a))
  {
  }

  /** Over any run: status only moves forward, and APPROVED is left only inside the approving call. */
  lemma {:induction false} RunAdvances(desk: Desk, steps: seq<Step>)
    requires Broker.BookOk(desk.book)
    ensures Advances(desk, Run(desk, steps))
  {
    if steps != [] {
      var mid, last := Run(desk, steps[..|steps| - 1]), steps[|steps| - 1];
      RunAdvances(desk, steps[..|steps| - 1]);
      PerformAdvances(mid, last.action);
      var after := Run(desk, steps);
      forall id | 0 <= id < |desk.candidates| ensures Forward(desk.candidates[id].status, after.candidates[id].status) {
        ForwardIsAnOrder(desk.candidates[id].status, mid.candidates[id].status, after.candidates[id].status);
      }
    }
  }

  // ---------------------------------------------------------------- under the approval routes

  ghost predicate NoneApproved(desk: Desk) {
    forall id :: 0 <= id < |desk.candidates| ==> desk.candidates[id].status != Approved
  }

  /** A caller that commits no approval that failed, as the approval routes do. */
  ghost predicate CommitsOnlySuccess(desk: Desk, step: Step) {
    step.committed && step.action.ApproveCall? ==>
      Approve(desk, step.action.settings, step.action.id, step.action.riskPassed).1.Success?
  }

  ghost predicate Routed(desk: Desk, steps: seq<Step>)
    requires Broker.BookOk(desk.book)
  {
    forall k :: 0 <= k < |steps| ==> CommitsOnlySuccess(Run(desk, steps[..k]), steps[k])
  }

  lemma NextLeavesNoneApproved(desk: Desk, step: Step)
    requires Broker.BookOk(desk.book) && NoneApproved(desk) && CommitsOnlySuccess(desk, step)
    ensures NoneApproved(Next(desk, step))
  {
  }

  /** Under such callers no candidate is ever APPROVED between calls. */
  lemma {:induction false} RoutesLeaveNoneApproved(accounts: map<int, PnlTracker.Account>, steps: seq<Step>)
    requires Routed(Opening(accounts), steps)
    ensures NoneApproved(Run(Opening(accounts), steps))
  {
    hide Next, CommitsOnlySuccess;
    if steps != [] {
      var last := |steps| - 1;
      var front := steps[..last];
      assert forall k :: 0 <= k < last ==> front[..k] == steps[..k];
      RoutesLeaveNoneApproved(accounts, front);
      NextLeavesNoneApproved(Run(Opening(accounts), front), steps[last]);
    }
  }

  /** Hence the executor's first gate refuses every candidate of theirs: no order row, no call and no
      audit row comes of it, dry or real, whatever the settings. */
  lemma RoutedCandidatesNeverExecute(accounts: map<int, PnlTracker.Account>, steps: seq<Step>,
                                     store: RealOrderStore.Store, settings: RealOrderExecutor.Settings,
                                     call: RealOrderExecutor.Call)
    requires Routed(Opening(accounts), steps)
    requires store.candidates == Run(Opening(accounts), steps).candidates
    ensures var (after, result) := RealOrderExecutor.Execute(store, settings, call);
            && after == store
            && result.blocked == Some(if call.candidateId < |store.candidates| then RealOrderExecutor.NotApproved
                                      else RealOrderExecutor.CandidateNotFound)
  {
    RoutesLeaveNoneApproved(accounts, steps);
  }

  // ---------------------------------------------------------------- one paper order per candidate

  /** No account has two orders of one key. */
  ghost predicate KeysUnique(book: Broker.Book) {
    forall i, j :: 0 <= i < j < |book.orders| ==>
      || book.orders[i].key.None?
      || book.orders[i].key != book.orders[j].key
      || book.orders[i].accountId != book.orders[j].accountId
  }

  /** A candidate is linked to an order of its own key on its own account exactly when it is EXECUTED_PAPER. */
  ghost predicate Linked(desk: Desk, id: nat)
    requires id < |desk.candidates|
  {
    var c := desk.candidates[id];
    if c.status == ExecutedPaper then
      c.virtualOrderId.Some? && c.virtualOrderId.value < |desk.book.orders|
      && desk.book.orders[c.virtualOrderId.value].accountId == c.accountId
      && desk.book.orders[c.virtualOrderId.value].key == Some(ApprovalKey(id))
    else c.virtualOrderId.None?
  }

  ghost predicate LinksOk(desk: Desk) {
    KeysUnique(desk.book) && forall id :: 0 <= id < |desk.candidates| ==> Linked(desk, id)
  }

  /** Orders stay on file with their account, terms and key. */
  ghost predicate OrdersStay(before: Broker.Book, after: Broker.Book) {
    && |before.orders| <= |after.orders|
    && forall i :: 0 <= i < |before.orders| ==>
         after.orders[i].accountId == before.orders[i].accountId && after.orders[i].terms == before.orders[i].terms
         && after.orders[i].key == before.orders[i].key
  }

  lemma SubmitKeepsKeys(book: Broker.Book, enabled: bool, r: Broker.OrderRequest)
    requires KeysUnique(book)
    ensures KeysUnique(Broker.Submit(book, enabled, r).0) && OrdersStay(book, Broker.Submit(book, enabled, r).0)
  {
  }

  lemma BrokerKeepsKeys(book: Broker.Book, rates: FillRates, op: PaperRuns.Operation)
    requires Broker.BookOk(book) && KeysUnique(book)
    ensures KeysUnique(PaperRuns.Apply(book, rates, op)) && OrdersStay(book, PaperRuns.Apply(book, rates, op))
  {
    match op
    case SubmitOp(enabled, request) => SubmitKeepsKeys(book, enabled, request);
    case CancelOp(id) =>
    case ExecuteOp(prices, account) =>
      Broker.CandidatesMembers(book.orders, account);
      var after := Broker.RunList(book, rates, prices, Broker.Candidates(book.orders, account)).book;
      assert OrdersStay(book, after) && |after.orders| == |book.orders|;
  }

  lemma PerformKeepsLinks(desk: Desk, a: Action)
    requires Broker.BookOk(desk.book) && LinksOk(desk)
    ensures LinksOk(Perform(desk, a)) && OrdersStay(desk.book, Perform(desk, a).book)
  {
    match a
    case BrokerCall(rates, op) =>
      BrokerKeepsKeys(desk.book, rates, op);
      forall id | 0 <= id < |desk.candidates| ensures Linked(Perform(desk, a), id) {
        assert Linked(desk, id);
      }
    case ApproveCall(s, id, passed) =>
      ApproveKeepsLinks(desk, s, id, passed);
    case _ =>
      var after := Perform(desk, a);
      assert after.book == desk.book;
      forall other | 0 <= other < |desk.candidates| ensures Linked(after, other) {
        assert Linked(desk, other);
      }
  }

  lemma ApproveKeepsLinks(desk: Desk, s: Settings, id: nat, riskPassed: bool)
    requires LinksOk(desk)
    ensures LinksOk(Approve(desk, s, id, riskPassed).0)
            && OrdersStay(desk.book, Approve(desk, s, id, riskPassed).0.book)
  {
    var after := Approve(desk, s, id, riskPassed).0;
    if id < |desk.candidates| {
      SubmitKeepsKeys(desk.book, s.paperEnabled, OrderOf(desk.candidates[id], id));
      forall other | 0 <= other < |desk.candidates| ensures Linked(after, other) {
        assert Linked(desk, other);
        if other == id && Approve(desk, s, id, riskPassed).1.Success? {
          ApprovalLinksOwnOrder(desk, s, id, riskPassed);
        }
      }
    }
  }

  lemma {:induction false} RunKeepsLinks(accounts: map<int, PnlTracker.Account>, steps: seq<Step>)
    ensures LinksOk(Run(Opening(accounts), steps))
  {
    if steps != [] {
      RunKeepsLinks(accounts, steps[..|steps| - 1]);
      PerformKeepsLinks(Run(Opening(accounts), steps[..|steps| - 1]), steps[|steps| - 1].action);
    }
  }

  lemma KeysAreInjective(i: nat, j: nat)
    requires ApprovalKey(i) == ApprovalKey(j)
    ensures i == j
  {
    var prefix := "approval-";
    assert (prefix + Numeral(i))[|prefix|..] == Numeral(i);
    assert (prefix + Numeral(j))[|prefix|..] == Numeral(j);
    NumeralRoundTrip(i);
    NumeralRoundTrip(j);
  }

  /** After any run, at most one order has a candidate's key on its account, an EXECUTED_PAPER
      candidate is linked to it, no other candidate is linked at all, and no two share an order. */
  lemma ExecutedCandidatesOwnOneOrder(accounts: map<int, PnlTracker.Account>, steps: seq<Step>)
    ensures var desk := Run(Opening(accounts), steps);
            && LinksOk(desk)
            && forall i, j :: 0 <= i < j < |desk.candidates| && desk.candidates[i].status == ExecutedPaper
                           && desk.candidates[j].status == ExecutedPaper
                 ==> desk.candidates[i].virtualOrderId != desk.candidates[j].virtualOrderId
  {
    RunKeepsLinks(accounts, steps);
    var desk := Run(Opening(accounts), steps);
    forall i, j | 0 <= i < j < |desk.candidates| && desk.candidates[i].status == ExecutedPaper
                  && desk.candidates[j].status == ExecutedPaper
      ensures desk.candidates[i].virtualOrderId != desk.candidates[j].virtualOrderId
    {
      assert Linked(desk, i) && Linked(desk, j);
      if desk.candidates[i].virtualOrderId == desk.candidates[j].virtualOrderId {
        KeysAreInjective(i, j);
      }
    }
  }

  // ---------------------------------------------------------------- whose terms the order has

  /** Whether an order with the candidate's key was already on its account. */
  predicate KeyTaken(desk: Desk, id: nat)
    requires id < |desk.candidates|
  {
    Broker.FindKey(desk.book.orders, desk.candidates[id].accountId, ApprovalKey(id)) < |desk.book.orders|
  }

  /** An approval that succeeds links an order with the candidate's own terms, newly created, when
      the key was free; when it was taken it links the earlier order as it stands. */
  lemma ApprovalLinksOwnOrder(desk: Desk, s: Settings, id: nat, riskPassed: bool)
    requires Approve(desk, s, id, riskPassed).1.Success?
    ensures id < |desk.candidates|
    ensures var after, orderId := Approve(desk, s, id, riskPassed).0, Approve(desk, s, id, riskPassed).1.value;
            && (orderId == |desk.book.orders| <==> !KeyTaken(desk, id))
            && orderId < |after.book.orders|
            && after.book.orders[orderId].accountId == desk.candidates[id].accountId
            && after.book.orders[orderId].key == Some(ApprovalKey(id))
            && after.candidates[id] == desk.candidates[id].(status := ExecutedPaper, virtualOrderId := Some(orderId))
            && (!KeyTaken(desk, id) ==> after.book.orders[orderId].terms == desk.candidates[id].terms)
            && (KeyTaken(desk, id) ==> after.book == desk.book)
  {
  }

  /** A key is a numeral's key only. */
  ghost predicate ApprovalKeyFree(op: PaperRuns.Operation) {
    op.SubmitOp? && op.request.key.Some? ==> forall id: nat :: op.request.key.value != ApprovalKey(id)
  }

  /** Every order with an approval key is the linked order of that candidate, with its terms. */
  ghost predicate OrdersMatchCandidates(desk: Desk) {
    forall k: nat, id: nat :: k < |desk.book.orders| && desk.book.orders[k].key == Some(ApprovalKey(id)) ==>
      id < |desk.candidates| && desk.candidates[id].status == ExecutedPaper
      && desk.candidates[id].virtualOrderId == Some(k) && desk.book.orders[k].terms == desk.candidates[id].terms
  }

  lemma ApproveKeepsMatch(desk: Desk, s: Settings, id: nat, riskPassed: bool)
    requires LinksOk(desk) && OrdersMatchCandidates(desk)
    ensures OrdersMatchCandidates(Approve(desk, s, id, riskPassed).0)
  {
    var result := Approve(desk, s, id, riskPassed);
    if result.1.Success? {
      ApprovalLinksOwnOrder(desk, s, id, riskPassed);
      var after := result.0;
      forall k: nat, other: nat | k < |after.book.orders| && after.book.orders[k].key == Some(ApprovalKey(other))
        ensures other < |after.candidates| && after.candidates[other].status == ExecutedPaper
        ensures after.candidates[other].virtualOrderId == Some(k)
                && after.book.orders[k].terms == after.candidates[other].terms
      {
        if k == |desk.book.orders| {
          KeysAreInjective(other, id);
        } else {
          assert desk.book.orders[k].key == Some(ApprovalKey(other));
        }
      }
    }
  }

  lemma BrokerKeepsMatch(desk: Desk, rates: FillRates, op: PaperRuns.Operation)
    requires Broker.BookOk(desk.book) && OrdersMatchCandidates(desk) && ApprovalKeyFree(op) && KeysUnique(desk.book)
    ensures OrdersMatchCandidates(desk.(book := PaperRuns.Apply(desk.book, rates, op)))
  {
    hide KeysUnique, PaperRuns.Apply, ApprovalKey;
    BrokerKeepsKeys(desk.book, rates, op);
    var after := PaperRuns.Apply(desk.book, rates, op);
    forall k: nat, id: nat | k < |after.orders| && after.orders[k].key == Some(ApprovalKey(id))
      ensures k < |desk.book.orders| && desk.book.orders[k].key == Some(ApprovalKey(id))
    {
      if k >= |desk.book.orders| {
        PaperRuns.NewOrdersAreSubmitted(desk.book, rates, op, k);
      }
    }
  }

  lemma PerformKeepsMatch(desk: Desk, a: Action)
    requires Broker.BookOk(desk.book) && LinksOk(desk) && OrdersMatchCandidates(desk)
    requires a.BrokerCall? ==> ApprovalKeyFree(a.op)
    ensures OrdersMatchCandidates(Perform(desk, a))
  {
    match a
    case ApproveCall(s, id, passed) => ApproveKeepsMatch(desk, s, id, passed);
    case BrokerCall(rates, op) => BrokerKeepsMatch(desk, rates, op);
    case CreateCall(s, r, passed) =>
      assert forall id :: 0 <= id < |desk.candidates| ==> Perform(desk, a).candidates[id] == desk.candidates[id];
    case _ =>
      var after := Perform(desk, a);
      assert after.book == desk.book;
      assert forall id :: 0 <= id < |desk.candidates| && desk.candidates[id].status == ExecutedPaper ==>
          after.candidates[id] == desk.candidates[id];
  }

  lemma OpeningMatches(accounts: map<int, PnlTracker.Account>)
    ensures OrdersMatchCandidates(Opening(accounts))
  {
  }

  /** When nobody else submits under an approval key, the linked order always carries the
      candidate's own terms. */
  lemma {:induction false} LinkedOrderHasOwnTerms(accounts: map<int, PnlTracker.Account>, steps: seq<Step>)
    requires forall i :: 0 <= i < |steps| && steps[i].action.BrokerCall? ==> ApprovalKeyFree(steps[i].action.op)
    ensures OrdersMatchCandidates(Run(Opening(accounts), steps))
  {
    hide Perform, LinksOk, OrdersMatchCandidates, ApprovalKeyFree;
    OpeningMatches(accounts);
    if steps != [] {
      var last := |steps| - 1;
      LinkedOrderHasOwnTerms(accounts, steps[..last]);
      RunKeepsLinks(accounts, steps[..last]);
      PerformKeepsMatch(Run(Opening(accounts), steps[..last]), steps[last].action);
    }
  }

  function RunOf(accounts: map<int, PnlTracker.Account>, actions: seq<Action>): (r: Desk)
    ensures Broker.BookOk(r.book)
  {
    Run(Opening(accounts), seq(|actions|, i requires 0 <= i < |actions| => Step(actions[i], true)))
  }

  lemma RunOfNone(accounts: map<int, PnlTracker.Account>)
    ensures RunOf(accounts, []) == Opening(accounts)
  {
  }

  lemma RunOfSnoc(accounts: map<int, PnlTracker.Account>, actions: seq<Action>, a: Action)
    ensures RunOf(accounts, actions + [a]) == Perform(RunOf(accounts, actions), a)
  {
    var n := |actions|;
    var steps := seq(n + 1, i requires 0 <= i < n + 1 => Step((actions + [a])[i], true));
    assert steps[..n] == seq(n, i requires 0 <= i < n => Step(actions[i], true));
    assert steps[n] == Step(a, true);
  }

  /** A market BUY of a symbol under the first candidate's key. */
  function KeyedBuy(symbol: string, quantity: int): Broker.OrderRequest {
    Broker.OrderRequest(7, symbol, Buy, quantity, Broker.Market, None, Some(ApprovalKey(0)))
  }

  const ALL_ON := Settings(true, false, true)

  /** A book with that key taken, and one pending candidate: approved, it links the order there is. */
  lemma ApprovalTakesKeyedOrder(desk: Desk)
    requires |desk.candidates| == 1 && desk.candidates[0].status == PendingApproval
    requires desk.candidates[0].accountId == 7 && PaperOpen(desk, ALL_ON, 7)
    requires |desk.book.orders| == 1 && desk.book.orders[0].accountId == 7
    requires desk.book.orders[0].key == Some(ApprovalKey(0))
    requires Broker.ValidRequest(OrderOf(desk.candidates[0], 0))
    ensures var after := Approve(desk, ALL_ON, 0, true).0;
            && after.book == desk.book && |after.candidates| == 1
            && after.candidates[0] == desk.candidates[0].(status := ExecutedPaper, virtualOrderId := Some(0))
  {
    hide Broker.ValidRequest, ApprovalKey;
  }

  lemma KeyedBuyTaken(accounts: map<int, PnlTracker.Account>, symbol: string, quantity: int)
    requires 7 in accounts && accounts[7].paperEnabled && quantity > 0 && Strip(symbol) != []
    ensures var desk := Opening(accounts);
            Broker.Submit(desk.book, true, KeyedBuy(symbol, quantity)).0
            == desk.book.(orders := [Broker.VirtualOrder(7, OrderTerms(symbol, Buy, quantity, None), Broker.Created,
                                                        Some(ApprovalKey(0)))])
  {
    hide Strip, ApprovalKey;
  }

  /** Someone submits an order of two shares under the first candidate's key; then a candidate of
      one share is created and approved. It is EXECUTED_PAPER by the order of two. */
  lemma TakenKeyLinksForeignOrder() returns (accounts: map<int, PnlTracker.Account>, actions: seq<Action>)
    ensures var desk := RunOf(accounts, actions);
            && |desk.candidates| == 1 && |desk.book.orders| == 1
            && desk.candidates[0].status == ExecutedPaper && desk.candidates[0].virtualOrderId == Some(0)
            && desk.candidates[0].terms.quantity == 1 && desk.book.orders[0].terms.quantity == 2
  {
    hide Run, RunOf, Strip, StripLeft, StripRight, Upper, Broker.Submit, Approve, ApprovalKey;
    accounts := map[7 := PnlTracker.Account(1000.0, true, [])];
    var symbol := "005930";
    assert HasText(symbol) by { assert !IsSpace(symbol[0]); }
    StripEmpty(symbol);
    var request := CandidateRequest(7, symbol, Buy, 1, Broker.Market, None, 100.0);
    var submit := BrokerCall(PAPER_RATES, PaperRuns.SubmitOp(true, KeyedBuy(symbol, 2)));
    var create, approve := CreateCall(ALL_ON, request, true), ApproveCall(ALL_ON, 0, true);
    actions := [submit] + [create] + [approve];
    assert [] + [submit] == [submit];
    RunOfSnoc(accounts, [], submit);
    RunOfSnoc(accounts, [submit], create);
    RunOfSnoc(accounts, [submit] + [create], approve);
    RunOfNone(accounts);
    KeyedBuyTaken(accounts, symbol, 2);
    NewCandidateIsOrderable(request, 0, PendingApproval);
    hide HasText;
    ApprovalTakesKeyedOrder(RunOf(accounts, [submit] + [create]));
  }

  // ---------------------------------------------------------------- when an approval fails

  /** Each candidate's order is one that the paper broker takes. */
  ghost predicate Orderable(desk: Desk) {
    forall id :: 0 <= id < |desk.candidates| ==> Broker.ValidRequest(OrderOf(desk.candidates[id], id))
  }

  lemma NewCandidateIsOrderable(r: CandidateRequest, id: nat, status: CandidateStatus)
    requires ValidCandidateRequest(r)
    ensures Broker.ValidRequest(OrderOf(NewCandidate(r).(status := status), id))
  {
    StripEmpty(r.symbol);
    StripEmpty(Upper(Strip(r.symbol)));
  }

  lemma PerformKeepsOrderable(desk: Desk, a: Action)
    requires Broker.BookOk(desk.book) && Orderable(desk)
    ensures Orderable(Perform(desk, a))
  {
    hide Broker.ValidRequest;
    var after := Perform(desk, a);
    PerformAdvances(desk, a);
    forall id | 0 <= id < |after.candidates| ensures Broker.ValidRequest(OrderOf(after.candidates[id], id)) {
      if id < |desk.candidates| {
        assert Broker.ValidRequest(OrderOf(desk.candidates[id], id));
        assert OrderOf(after.candidates[id], id) == OrderOf(desk.candidates[id], id);
      } else {
        assert a.CreateCall?;
        NewCandidateIsOrderable(a.request, id, after.candidates[id].status);
      }
    }
  }

  lemma {:induction false} RunKeepsOrderable(accounts: map<int, PnlTracker.Account>, steps: seq<Step>)
    ensures Orderable(Run(Opening(accounts), steps))
  {
    hide Perform, Broker.ValidRequest;
    if steps != [] {
      RunKeepsOrderable(accounts, steps[..|steps| - 1]);
      PerformKeepsOrderable(Run(Opening(accounts), steps[..|steps| - 1]), steps[|steps| - 1].action);
    }
  }

  /** Paper trading is on, for the platform and for an account on file. */
  predicate PaperOpen(desk: Desk, s: Settings, account: int) {
    s.paperEnabled && account in desk.book.accounts && desk.book.accounts[account].paperEnabled
  }

  /** In every reachable state an approval succeeds exactly when trading safety is on and the kill switch
      off, the candidate is PENDING_APPROVAL and passes the risk re-check, and paper trading is on for the
      platform and an account on file; the order itself is never the reason of a failure. */
  lemma ApprovalFailsExactly(accounts: map<int, PnlTracker.Account>, steps: seq<Step>, s: Settings, id: nat,
                             riskPassed: bool)
    ensures var desk := Run(Opening(accounts), steps);
            var result := Approve(desk, s, id, riskPassed).1;
            && (result.Success? <==>
                  && s.tradingSafety && !s.killSwitch
                  && id < |desk.candidates| && desk.candidates[id].status == PendingApproval
                  && riskPassed && s.paperEnabled
                  && var account := desk.candidates[id].accountId;
                     account in desk.book.accounts && desk.book.accounts[account].paperEnabled)
            && (result.Failure? ==> result.error != PaperExecutionFailed(Broker.InvalidOrder))
  {
    hide Run, Broker.ValidRequest;
    RunKeepsOrderable(accounts, steps);
    var desk := Run(Opening(accounts), steps);
    if id < |desk.candidates| {
      assert Broker.ValidRequest(OrderOf(desk.candidates[id], id));
    }
  }
}
