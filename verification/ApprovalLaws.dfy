/** What each call of the approval workflow does, in the fields of its settings, request and candidate
    (app/approval/approval_service.py). */
module ApprovalLaws {
  import opened Wrappers
  import opened Strings
  import opened OrderCandidates
  import opened ApprovalService
  import Broker = SimulationBroker

  /** The call changed nothing but the log, which grew by these rows of the candidate. */
  ghost predicate OnlyLogged(desk: Desk, after: Desk, id: nat, events: seq<Event>) {
    && after.candidates == desk.candidates && after.book == desk.book
    && |after.audits| == |desk.audits| + |events| && after.audits[..|desk.audits|] == desk.audits
    && forall k :: 0 <= k < |events| ==> after.audits[|desk.audits| + k] == AuditRow(id, events[k])
  }

  /** The call moved the candidate to a status and logged these events of it; nothing else changed. */
  ghost predicate MovedTo(desk: Desk, after: Desk, id: nat, status: CandidateStatus, events: seq<Event>)
    requires id < |desk.candidates|
  {
    && OnlyLogged(desk, after.(candidates := desk.candidates), id, events)
    && after.candidates == desk.candidates[id := desk.candidates[id].(status := status)]
  }

  // ---------------------------------------------------------------- create

  /** A request that the repository accepts. */
  ghost predicate Acceptable(r: CandidateRequest) {
    && r.quantity > 0 && HasText(r.symbol) && r.estimatedAmount >= 0.0
    && (r.orderType == Broker.Limit ==> r.limitPrice.Some? && r.limitPrice.value > 0.0)
  }

  /** A creation succeeds exactly when trading safety is on, the kill switch off and the request
      acceptable. It adds a candidate of the request's terms, waiting for approval or turned down by the
      risk engine, and logs the verdict; a refusal leaves no trace. */
  lemma CreateExactly(desk: Desk, s: Settings, r: CandidateRequest, riskPassed: bool)
    ensures var (after, result) := Create(desk, s, r, riskPassed);
            && (result.Success? <==> s.tradingSafety && !s.killSwitch && Acceptable(r))
            && (result.Failure? ==>
                  && after == desk
                  && result.error == if !s.tradingSafety then TradingSafetyDisabled
                                     else if s.killSwitch then KillSwitchOn else InvalidCandidate)
            && (result.Success? ==>
                  var id := |desk.candidates|;
                  && result.value == id && |after.candidates| == id + 1
                  && OnlyLogged(desk, after.(candidates := desk.candidates), id,
                                if riskPassed then [CandidateCreated, RiskChecked(true)]
                                else [CandidateCreated, RiskChecked(false), RiskRejectedEvent])
                  && after.candidates[..id] == desk.candidates
                  && var c := after.candidates[id];
                     && c.accountId == r.accountId && c.estimatedAmount == r.estimatedAmount && c.virtualOrderId.None?
                     && c.terms.symbol == Upper(Strip(r.symbol)) && c.terms.side == r.side
                     && c.terms.quantity == r.quantity
                     && c.terms.limitPrice == (if r.orderType == Broker.Limit then r.limitPrice else None)
                     && c.status == (if riskPassed then PendingApproval else RiskRejected))
  {
    StripEmpty(r.symbol);
    hide Strip, Upper, HasText;
  }

  // ---------------------------------------------------------------- approve and reject

  /** Why approve and reject do not admit a call, in the sequence of their checks. */
  ghost predicate Refused(desk: Desk, s: Settings, id: nat, error: ApprovalError) {
    if !s.tradingSafety then error == TradingSafetyDisabled
    else if id >= |desk.candidates| then error == CandidateNotFound
    else if desk.candidates[id].status != PendingApproval then error == WrongStatus(desk.candidates[id].status)
    else s.killSwitch && error == KillSwitchOn
  }

  /** Trading safety is on, the kill switch off, and the candidate waits for approval. */
  ghost predicate Admitted(desk: Desk, s: Settings, id: nat) {
    s.tradingSafety && !s.killSwitch && id < |desk.candidates| && desk.candidates[id].status == PendingApproval
  }

  /** A call that is not admitted leaves one KILL_SWITCH_BLOCKED row, if it is the kill switch that stops a
      waiting candidate under trading safety, and otherwise no trace. */
  ghost predicate LeftAlone(desk: Desk, after: Desk, s: Settings, id: nat) {
    OnlyLogged(desk, after, id,
               if s.tradingSafety && s.killSwitch
                  && id < |desk.candidates| && desk.candidates[id].status == PendingApproval
               then [KillSwitchBlocked] else [])
  }

  /** The paper order of a candidate: its terms, under the key "approval-<id>". */
  ghost predicate IsOrderOf(r: Broker.OrderRequest, c: Candidate, id: nat) {
    && r.accountId == c.accountId && r.symbol == c.terms.symbol && r.side == c.terms.side
    && r.quantity == c.terms.quantity
    && r.limitPrice == c.terms.limitPrice && (r.orderType == Broker.Limit <==> c.terms.limitPrice.Some?)
    && r.key == Some("approval-" + Numeral(id))
  }

  /** Every path of an approval: not admitted; turned down by the risk re-check, which rejects the
      candidate; refused by the paper broker, which leaves it APPROVED; or executed and linked to the order
      that the broker answered with. */
  lemma ApproveExactly(desk: Desk, s: Settings, id: nat, riskPassed: bool)
    ensures var (after, result) := Approve(desk, s, id, riskPassed);
            if !Admitted(desk, s, id) then
              result.Failure? && Refused(desk, s, id, result.error) && LeftAlone(desk, after, s, id)
            else if !riskPassed then
              result == Failure(RiskRecheckFailed) && MovedTo(desk, after, id, Rejected, [RiskRejectedEvent])
            else
              exists r: Broker.OrderRequest :: IsOrderOf(r, desk.candidates[id], id) &&
                var (book, submission) := Broker.Submit(desk.book, s.paperEnabled, r);
                match submission
                case Failure(e) =>
                  && result == Failure(PaperExecutionFailed(e))
                  && MovedTo(desk, after, id, Approved, [ApprovedEvent])
                case Success(done) =>
                  && result == Success(done.orderId) && after.book == book
                  && |after.candidates| == |desk.candidates|
                  && after.candidates[id]
                     == desk.candidates[id].(status := ExecutedPaper, virtualOrderId := Some(done.orderId))
                  && (forall k :: 0 <= k < |desk.candidates| && k != id ==> after.candidates[k] == desk.candidates[k])
                  && OnlyLogged(desk, after.(candidates := desk.candidates, book := desk.book), id,
                                [ApprovedEvent, ExecutedPaperEvent(done.orderId, done.deduplicated)])
  {
    if Admitted(desk, s, id) && riskPassed {
      OrderOfIsIt(desk.candidates[id], id);
      SubmissionFailsClean(desk.book, s.paperEnabled, OrderOf(desk.candidates[id], id));
    }
  }

  lemma OrderOfIsIt(c: Candidate, id: nat)
    ensures IsOrderOf(OrderOf(c, id), c, id)
  {
  }

  lemma SubmissionFailsClean(book: Broker.Book, enabled: bool, r: Broker.OrderRequest)
    ensures Broker.Submit(book, enabled, r).1.Failure? ==> Broker.Submit(book, enabled, r).0 == book
  {
  }

  /** A rejection: not admitted, or the candidate REJECTED. */
  lemma RejectExactly(desk: Desk, s: Settings, id: nat)
    ensures var (after, error) := Reject(desk, s, id);
            if Admitted(desk, s, id) then error.None? && MovedTo(desk, after, id, Rejected, [RejectedEvent])
            else error.Some? && Refused(desk, s, id, error.value) && LeftAlone(desk, after, s, id)
  {
  }

  /** An expiry needs a waiting candidate and nothing else. */
  lemma ExpireExactly(desk: Desk, id: nat)
    ensures var (after, error) := Expire(desk, id);
            if id < |desk.candidates| && desk.candidates[id].status == PendingApproval then
              error.None? && MovedTo(desk, after, id, Expired, [ExpiredEvent])
            else
              && after == desk
              && error == Some(if id >= |desk.candidates| then CandidateNotFound
                               else WrongStatus(desk.candidates[id].status))
  {
  }

  /** With the kill switch on, nothing is created, approved or rejected: candidates and orders stay, and an
      approval or rejection leaves exactly one KILL_SWITCH_BLOCKED row, exactly when trading safety is on and
      the candidate waits for approval. */
  lemma KillSwitchStops(desk: Desk, s: Settings, id: nat, riskPassed: bool, r: CandidateRequest)
    requires s.killSwitch
    ensures Create(desk, s, r, riskPassed).0 == desk && Create(desk, s, r, riskPassed).1.Failure?
    ensures var waiting := s.tradingSafety && id < |desk.candidates| && desk.candidates[id].status == PendingApproval;
            forall after: Desk :: after == Approve(desk, s, id, riskPassed).0 || after == Reject(desk, s, id).0 ==>
              && after.candidates == desk.candidates && after.book == desk.book
              && after.audits == desk.audits + if waiting then [AuditRow(id, KillSwitchBlocked)] else []
    ensures Approve(desk, s, id, riskPassed).1.Failure? && Reject(desk, s, id).1.Some?
  {
  }

  /** Without trading safety nothing is created, approved or rejected, and nothing is logged. */
  lemma TradingSafetyStops(desk: Desk, s: Settings, id: nat, riskPassed: bool, r: CandidateRequest)
    requires !s.tradingSafety
    ensures Create(desk, s, r, riskPassed) == (desk, Failure(TradingSafetyDisabled))
    ensures Approve(desk, s, id, riskPassed) == (desk, Failure(TradingSafetyDisabled))
    ensures Reject(desk, s, id) == (desk, Some(TradingSafetyDisabled))
  {
  }
}
