/** The approval workflow of app/approval/approval_service.py over the candidate table, the
    audit log and the paper broker. */
module ApprovalService {
  import opened Wrappers
  import opened Strings
  import opened OrderCandidates
  import Broker = SimulationBroker

  datatype Event =
    | CandidateCreated
    | RiskChecked(passed: bool)
    | RiskRejectedEvent
    | ApprovedEvent
    | RejectedEvent
    | ExpiredEvent
    | ExecutedPaperEvent(orderId: nat, deduplicated: bool)
    | KillSwitchBlocked
    | RealOrderEvent

  datatype AuditRow = AuditRow(candidateId: nat, event: Event)

  datatype Desk = Desk(candidates: seq<Candidate>, audits: seq<AuditRow>, book: Broker.Book)

  datatype Settings = Settings(tradingSafety: bool, killSwitch: bool, paperEnabled: bool)

  datatype ApprovalError =
    | TradingSafetyDisabled | KillSwitchOn | CandidateNotFound | InvalidCandidate
    | WrongStatus(current: CandidateStatus) | RiskRecheckFailed | PaperExecutionFailed(cause: Broker.SubmitError)

  datatype CandidateRequest = CandidateRequest(
    accountId: int, symbol: string, side: Side, quantity: int,
    orderType: Broker.OrderType, limitPrice: Option<real>, estimatedAmount: real)

  // ---------------------------------------------------------------- create

  predicate ValidCandidateRequest(r: CandidateRequest) {
    && r.quantity > 0
    && Strip(r.symbol) != []
    && (r.orderType == Broker.Limit ==> r.limitPrice.Some? && r.limitPrice.value > 0.0)
    && r.estimatedAmount >= 0.0
  }

  function NewCandidate(r: CandidateRequest): Candidate {
    Candidate(r.accountId,
              OrderTerms(Upper(Strip(r.symbol)), r.side, r.quantity,
                         if r.orderType == Broker.Limit then r.limitPrice else None),
              r.estimatedAmount, Draft, None)
  }

  function CreateEvents(riskPassed: bool): seq<Event> {
    [CandidateCreated, RiskChecked(riskPassed)] + if riskPassed then [] else [RiskRejectedEvent]
  }

  function Rows(id: nat, events: seq<Event>): (rows: seq<AuditRow>)
    ensures |rows| == |events| && forall k :: 0 <= k < |events| ==> rows[k] == AuditRow(id, events[k])
  {
    seq(|events|, k requires 0 <= k < |events| => AuditRow(id, events[k]))
  }

  function Create(desk: Desk, s: Settings, r: CandidateRequest, riskPassed: bool): (Desk, Result<nat, ApprovalError>) {
    if !s.tradingSafety then (desk, Failure(TradingSafetyDisabled))
    else if s.killSwitch then (desk, Failure(KillSwitchOn))
    else if !ValidCandidateRequest(r) then (desk, Failure(InvalidCandidate))
    else
      var id := |desk.candidates|;
      var status := if riskPassed then PendingApproval else RiskRejected;
      (desk.(candidates := desk.candidates + [NewCandidate(r).(status := status)],
             audits := desk.audits + Rows(id, CreateEvents(riskPassed))),
       Success(id))
  }

  // ---------------------------------------------------------------- approve, reject, expire

  function ApprovalKey(id: nat): string {
    "approval-" + Numeral(id)
  }

  function OrderOf(c: Candidate, id: nat): Broker.OrderRequest {
    Broker.OrderRequest(c.accountId, c.terms.symbol, c.terms.side, c.terms.quantity,
                        if c.terms.limitPrice.Some? then Broker.Limit else Broker.Market, c.terms.limitPrice,
                        Some(ApprovalKey(id)))
  }

  function Moved(desk: Desk, id: nat, status: CandidateStatus, event: Event): Desk
    requires id < |desk.candidates|
  {
    desk.(candidates := desk.candidates[id := desk.candidates[id].(status := status)],
          audits := desk.audits + [AuditRow(id, event)])
  }

  /** The checks that approve and reject share; a blocked kill switch leaves an audit row. */
  function Admission(desk: Desk, s: Settings, id: nat): (Desk, Option<ApprovalError>) {
    if !s.tradingSafety then (desk, Some(TradingSafetyDisabled))
    else if id >= |desk.candidates| then (desk, Some(CandidateNotFound))
    else if desk.candidates[id].status != PendingApproval then (desk, Some(WrongStatus(desk.candidates[id].status)))
    else if s.killSwitch then (desk.(audits := desk.audits + [AuditRow(id, KillSwitchBlocked)]), Some(KillSwitchOn))
    else (desk, None)
  }

  function Approve(desk: Desk, s: Settings, id: nat, riskPassed: bool): (Desk, Result<nat, ApprovalError>) {
    var admission := Admission(desk, s, id);
    if admission.1.Some? then (admission.0, Failure(admission.1.value))
    else if !riskPassed then (Moved(desk, id, Rejected, RiskRejectedEvent), Failure(RiskRecheckFailed))
    else
      var approved := Moved(desk, id, Approved, ApprovedEvent);
      var submission := Broker.Submit(desk.book, s.paperEnabled, OrderOf(desk.candidates[id], id));
      match submission.1
      case Failure(e) => (approved, Failure(PaperExecutionFailed(e)))
      case Success(done) =>
        var executed := approved.candidates[id].(status := ExecutedPaper, virtualOrderId := Some(done.orderId));
        (Desk(approved.candidates[id := executed],
              approved.audits + [AuditRow(id, ExecutedPaperEvent(done.orderId, done.deduplicated))],
              submission.0),
         Success(done.orderId))
  }

  function Reject(desk: Desk, s: Settings, id: nat): (Desk, Option<ApprovalError>) {
    var admission := Admission(desk, s, id);
    if admission.1.Some? then admission else (Moved(desk, id, Rejected, RejectedEvent), None)
  }

  function Expire(desk: Desk, id: nat): (Desk, Option<ApprovalError>) {
    if id >= |desk.candidates| then (desk, Some(CandidateNotFound))
    else if !AllowedTransition(desk.candidates[id].status, Expired) then
      (desk, Some(WrongStatus(desk.candidates[id].status)))
    else (Moved(desk, id, Expired, ExpiredEvent), None)
  }

  // ---------------------------------------------------------------- the service on its tables

  class Workflow {
    var candidates: seq<Candidate>
    var audits: seq<AuditRow>
    const broker: Broker.PaperBroker

    function Contents(): Desk
      reads this, broker
    {
      Desk(candidates, audits, broker.Contents())
    }

    constructor (broker: Broker.PaperBroker)
      ensures this.broker == broker && candidates == [] && audits == []
    {
      this.broker := broker;
      candidates, audits := [], [];
    }

    /** Only edges of the candidate state machine can be taken. */
    method UpdateStatus(id: nat, status: CandidateStatus)
      requires id < |candidates| && AllowedTransition(candidates[id].status, status)
      modifies this`candidates
      ensures candidates == old(candidates)[id := old(candidates)[id].(status := status)]
    {
      candidates := candidates[id := candidates[id].(status := status)];
    }

    method Append(id: nat, event: Event)
      modifies this`audits
      ensures audits == old(audits) + [AuditRow(id, event)]
    {
      audits := audits + [AuditRow(id, event)];
    }

    method CreateCandidate(s: Settings, r: CandidateRequest, riskPassed: bool)
      returns (result: Result<nat, ApprovalError>)
      modifies this
      ensures (Contents(), result) == Create(old(Contents()), s, r, riskPassed)
    {
      if !s.tradingSafety {
        return Failure(TradingSafetyDisabled);
      }
      if s.killSwitch {
        return Failure(KillSwitchOn);
      }
      if !ValidCandidateRequest(r) {
        return Failure(InvalidCandidate);
      }
      var id := |candidates|;
      candidates := candidates + [NewCandidate(r)];
      Append(id, CandidateCreated);
      UpdateStatus(id, RiskChecking);
      Append(id, RiskChecked(riskPassed));
      if riskPassed {
        UpdateStatus(id, PendingApproval);
      } else {
        UpdateStatus(id, RiskRejected);
        Append(id, RiskRejectedEvent);
      }
      ghost var reached := if riskPassed then PendingApproval else RiskRejected;
      assert candidates == old(candidates) + [NewCandidate(r).(status := reached)];
      assert audits == old(audits) + Rows(id, CreateEvents(riskPassed));
      result := Success(id);
    }

    method Admit(s: Settings, id: nat) returns (error: Option<ApprovalError>)
      modifies this`audits
      ensures (Contents(), error) == Admission(old(Contents()), s, id)
      ensures error.None? ==> audits == old(audits) && id < |candidates| && candidates[id].status == PendingApproval
    {
      if !s.tradingSafety {
        return Some(TradingSafetyDisabled);
      }
      if id >= |candidates| {
        return Some(CandidateNotFound);
      }
      if candidates[id].status != PendingApproval {
        return Some(WrongStatus(candidates[id].status));
      }
      if s.killSwitch {
        Append(id, KillSwitchBlocked);
        return Some(KillSwitchOn);
      }
      error := None;
    }

    method ApproveCandidate(s: Settings, id: nat, riskPassed: bool) returns (result: Result<nat, ApprovalError>)
      modifies this, broker
      ensures (Contents(), result) == Approve(old(Contents()), s, id, riskPassed)
    {
      var error := Admit(s, id);
      if error.Some? {
        return Failure(error.value);
      }
      if !riskPassed {
        UpdateStatus(id, Rejected);
        Append(id, RiskRejectedEvent);
        return Failure(RiskRecheckFailed);
      }
      UpdateStatus(id, Approved);
      Append(id, ApprovedEvent);
      var submission := broker.SubmitOrder(s.paperEnabled, OrderOf(candidates[id], id));
      if submission.Failure? {
        return Failure(PaperExecutionFailed(submission.error));
      }
      var orderId := submission.value.orderId;
      candidates := candidates[id := candidates[id].(virtualOrderId := Some(orderId))];
      UpdateStatus(id, ExecutedPaper);
      ghost var executed := old(candidates)[id].(status := ExecutedPaper, virtualOrderId := Some(orderId));
      assert candidates == old(candidates)[id := executed];
      assert candidates == Approve(old(Contents()), s, id, riskPassed).0.candidates;
      Append(id, ExecutedPaperEvent(orderId, submission.value.deduplicated));
      result := Success(orderId);
    }

    method RejectCandidate(s: Settings, id: nat) returns (error: Option<ApprovalError>)
      modifies this
      ensures (Contents(), error) == Reject(old(Contents()), s, id)
    {
      error := Admit(s, id);
      if error.Some? {
        return;
      }
      UpdateStatus(id, Rejected);
      Append(id, RejectedEvent);
    }

    method ExpireCandidate(id: nat) returns (error: Option<ApprovalError>)
      modifies this
      ensures (Contents(), error) == Expire(old(Contents()), id)
    {
      if id >= |candidates| {
        return Some(CandidateNotFound);
      }
      if !AllowedTransition(candidates[id].status, Expired) {
        return Some(WrongStatus(candidates[id].status));
      }
      UpdateStatus(id, Expired);
      Append(id, ExpiredEvent);
      error := None;
    }
  }
}
