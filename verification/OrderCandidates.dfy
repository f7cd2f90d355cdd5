/** The staged order that both the approval workflow and the real-order executor act on. */
module OrderCandidates {
  import opened Wrappers

  datatype Side = Buy | Sell

  /** What is ordered; a LIMIT order is one that carries a limit price. */
  datatype OrderTerms = OrderTerms(symbol: string, side: Side, quantity: int, limitPrice: Option<real>)

  datatype CandidateStatus =
    | Draft | RiskChecking | RiskRejected | PendingApproval
    | Approved | ExecutedPaper | Rejected | Expired

  datatype Candidate = Candidate(
    accountId: int,
    terms: OrderTerms,
    estimatedAmount: real,
    status: CandidateStatus,
    virtualOrderId: Option<nat>)

  /** The edges of the candidate state machine. */
  predicate AllowedTransition(from: CandidateStatus, to: CandidateStatus) {
    match from
    case Draft => to == RiskChecking
    case RiskChecking => to == RiskRejected || to == PendingApproval
    case PendingApproval => to == Approved || to == Rejected || to == Expired
    case Approved => to == ExecutedPaper
    case _ => false
  }
}
