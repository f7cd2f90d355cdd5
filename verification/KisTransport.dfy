/** The retry loop and the answer classification of the KIS order transport
    (app/broker/kis_order_transport_real.py). The HTTP exchange itself is a parameter:
    the outcome of the k-th attempt. */
module KisTransport {
  import opened Wrappers
  import opened Strings

  datatype PlaceClass = Submitted | Rejected | Timeout | NetworkError | Unknown

  datatype PlaceResult = PlaceResult(success: bool, orderNo: string, message: string)

  datatype BrokerStatus = Pending | PartiallyFilled | Filled | Canceled | RejectedByBroker

  datatype FillReport = FillReport(success: bool, filledQuantity: int, remainingQuantity: int, status: BrokerStatus)

  datatype CancelResult = CancelResult(success: bool, message: string)

  /** One HTTP attempt: no answer in time, no connection, or an answer. */
  datatype Http<+B> = TimedOut | ConnectionFailed(error: string) | Answered(statusCode: int, body: B)

  datatype PlaceBody = PlaceNotJson | PlaceNotObject | PlacePayload(rtCd: string, msg1: string, odno: string)

  /** An order row of a fill answer; a quantity that does not parse is None. */
  datatype FillRecord = FillRecord(ordQty: Option<int>, totCcldQty: Option<int>, cnclYn: string, rjctYn: string)

  datatype QueryBody = QueryNotJson | QueryNotObject | QueryPayload(rtCd: string, record: Option<FillRecord>)

  datatype Attempt<+R> = Attempt(result: R, shouldRetry: bool)

  const PLACE_ORDER_MAX_RETRIES := 0
  const QUERY_FILL_MAX_RETRIES := 2
  const CANCEL_ORDER_MAX_RETRIES := 2

  // ---------------------------------------------------------------- retry loop

  /** Calls the operation until its first definitive attempt, at most 1 + maxRetries times. */
  method RunWithRetries<R>(operation: nat -> Attempt<R>, maxRetries: int) returns (last: Attempt<R>, used: nat)
    ensures 1 <= used && (used == 1 || used <= 1 + maxRetries)
    ensures last == operation(used - 1)
    ensures forall k :: 0 <= k < used - 1 ==> operation(k).shouldRetry
    ensures last.shouldRetry ==> used >= 1 + maxRetries
  {
    last := operation(0);
    used := 1;
    while last.shouldRetry && used <= maxRetries
      invariant 1 <= used && (used == 1 || used <= 1 + maxRetries)
      invariant last == operation(used - 1)
      invariant forall k :: 0 <= k < used - 1 ==> operation(k).shouldRetry
      decreases maxRetries + 1 - used
    {
      last := operation(used);
      used := used + 1;
    }
  }

  // ---------------------------------------------------------------- place_order

  function Truncated(s: string, limit: nat): string {
    if |s| <= limit then s else s[..limit]
  }

  function ClassifyPlaceResponse(statusCode: int, body: PlaceBody, statusText: string): PlaceResult {
    if statusCode >= 500 then PlaceResult(false, "", "UNKNOWN" + (": KIS HTTP " + statusText + " (server error)"))
    else if statusCode >= 400 then PlaceResult(false, "", "REJECTED" + (": KIS HTTP " + statusText))
    else if statusCode != 200 then PlaceResult(false, "", "UNKNOWN" + (": KIS HTTP " + statusText))
    else match body
      case PlaceNotJson => PlaceResult(false, "", "UNKNOWN" + ": KIS HTTP 200 but body is not valid JSON")
      case PlaceNotObject => PlaceResult(false, "", "UNKNOWN" + ": KIS HTTP 200 but body is not a JSON object")
      case PlacePayload(rtCd, msg1, odno) =>
        var shown := Truncated(msg1, 120);
        if rtCd == "0" then
          PlaceResult(true, odno, if shown != "" then "SUBMITTED" + (": " + shown) else "SUBMITTED")
        else
          PlaceResult(false, "", Strip("REJECTED:" + (" rt_cd=" + (if rtCd == "" then "?" else rtCd) + " " + shown)))
  }

  /** `clock` and `statusText` are the rendered timeout and status code. */
  function PlaceAttempt(http: Http<PlaceBody>, clock: string, statusText: string): Attempt<PlaceResult> {
    match http
    case TimedOut =>
      Attempt(PlaceResult(false, "", "TIMEOUT" + (": KIS place_order exceeded " + clock + "s")), true)
    case ConnectionFailed(error) =>
      Attempt(PlaceResult(false, "", "NETWORK_ERROR" + (": " + error)), true)
    case Answered(statusCode, body) =>
      Attempt(ClassifyPlaceResponse(statusCode, body, statusText), false)
  }

  /** One place_order call makes exactly one HTTP attempt, whatever its outcome. */
  method PlaceOrder(http: nat -> Http<PlaceBody>, clock: string, statusText: string)
    returns (result: PlaceResult, attempts: nat)
    ensures attempts == 1
    ensures result == PlaceAttempt(http(0), clock, statusText).result
  {
    var last;
    last, attempts := RunWithRetries((k: nat) => PlaceAttempt(http(k), clock, statusText), PLACE_ORDER_MAX_RETRIES);
    result := last.result;
  }

  /** The outcome table of the transport's documentation for place_order. */
  function PlaceTable(http: Http<PlaceBody>): PlaceClass {
    match http
    case TimedOut => Timeout
    case ConnectionFailed(_) => NetworkError
    case Answered(statusCode, body) =>
      if 400 <= statusCode < 500 then Rejected
      else if statusCode == 200 && body.PlacePayload? then
        if body.rtCd == "0" then Submitted else Rejected
      else Unknown
  }

  /** The token the executor parses back off a result message
      (app/broker/real_order_executor.py, _classify_place_message). */
  function ClassifyPlaceMessage(message: string): PlaceClass {
    var head := Upper(Strip(Before(message, ':')));
    if message == "" then Unknown
    else if head == "SUBMITTED" then Submitted
    else if head == "REJECTED" then Rejected
    else if head == "TIMEOUT" then Timeout
    else if head == "NETWORK_ERROR" then NetworkError
    else Unknown
  }

  function TokenOf(c: PlaceClass): string {
    match c
    case Submitted => "SUBMITTED"
    case Rejected => "REJECTED"
    case Timeout => "TIMEOUT"
    case NetworkError => "NETWORK_ERROR"
    case Unknown => "UNKNOWN"
  }

  lemma ClassRecovered(c: PlaceClass, text: string)
    requires text == "" || text[0] == ':'
    ensures ClassifyPlaceMessage(TokenOf(c) + text) == c
  {
    hide Strip, Upper, Before;
    var token := TokenOf(c);
    TokenIsToken(c);
    TokenRecovered(token, ':', text);
    assert (token + text)[0] == token[0];
    TokensDiffer(c, token);
  }

  lemma TokenIsToken(c: PlaceClass)
    ensures IsToken(TokenOf(c), ':')
  {
  }

  /** The class whose token a head is. */
  lemma TokensDiffer(c: PlaceClass, head: string)
    requires head == TokenOf(c)
    ensures c == if head == "SUBMITTED" then Submitted
                 else if head == "REJECTED" then Rejected
                 else if head == "TIMEOUT" then Timeout
                 else if head == "NETWORK_ERROR" then NetworkError
                 else Unknown
  {
    assert |"SUBMITTED"| == 9 && |"REJECTED"| == 8 && |"NETWORK_ERROR"| == 13;
    assert "TIMEOUT"[0] == 'T' && "UNKNOWN"[0] == 'U';
  }

  lemma RejectedMessage(text: string)
    ensures ClassifyPlaceMessage(Strip("REJECTED:" + text)) == Rejected
  {
    var m := "REJECTED:" + text;
    assert StripLeft(m) == m by { assert m[0] == 'R'; }
    StripRightKeepsFront("REJECTED:", text);
    assert "REJECTED:" + StripRight(text) == TokenOf(Rejected) + (":" + StripRight(text));
    ClassRecovered(Rejected, ":" + StripRight(text));
  }

  lemma PayloadClass(rtCd: string, msg1: string, odno: string, statusText: string)
    ensures var result := ClassifyPlaceResponse(200, PlacePayload(rtCd, msg1, odno), statusText);
            ClassifyPlaceMessage(result.message) == (if rtCd == "0" then Submitted else Rejected) &&
            (result.success <==> rtCd == "0")
  {
    var shown := Truncated(msg1, 120);
    if rtCd == "0" {
      ClassRecovered(Submitted, if shown != "" then ": " + shown else "");
      assert "SUBMITTED" + "" == "SUBMITTED";
    } else {
      RejectedMessage(" rt_cd=" + (if rtCd == "" then "?" else rtCd) + " " + shown);
    }
  }

  lemma AnswerClass(statusCode: int, body: PlaceBody, statusText: string)
    ensures var result := ClassifyPlaceResponse(statusCode, body, statusText);
            && ClassifyPlaceMessage(result.message) == PlaceTable(Answered(statusCode, body))
            && (result.success <==> PlaceTable(Answered(statusCode, body)) == Submitted)
            && result.orderNo == (if result.success then body.odno else "")
            && (result.success ==>
                  result.message
                  == "SUBMITTED" + if |body.msg1| == 0 then ""
                                   else ": " + body.msg1[..if |body.msg1| < 120 then |body.msg1| else 120])
  {
    ClassRecovered(Unknown, ": KIS HTTP " + statusText + " (server error)");
    ClassRecovered(Rejected, ": KIS HTTP " + statusText);
    ClassRecovered(Unknown, ": KIS HTTP " + statusText);
    ClassRecovered(Unknown, ": KIS HTTP 200 but body is not valid JSON");
    ClassRecovered(Unknown, ": KIS HTTP 200 but body is not a JSON object");
    if statusCode == 200 && body.PlacePayload? {
      assert "SUBMITTED" + "" == "SUBMITTED";
      PayloadClass(body.rtCd, body.msg1, body.odno, statusText);
    }
  }

  /** Whatever the broker answers, the class the executor reads off the message is the
      one the transport decided, and only SUBMITTED goes with success. */
  lemma ExecutorReadsTransportClass(http: Http<PlaceBody>, clock: string, statusText: string)
    ensures var result := PlaceAttempt(http, clock, statusText).result;
            ClassifyPlaceMessage(result.message) == PlaceTable(http) &&
            (result.success <==> PlaceTable(http) == Submitted)
  {
    match http
    case TimedOut => ClassRecovered(Timeout, ": KIS place_order exceeded " + clock + "s");
    case ConnectionFailed(error) => ClassRecovered(NetworkError, ": " + error);
    case Answered(statusCode, body) => AnswerClass(statusCode, body, statusText);
  }

  /** A token is read in any letter case and with white space around it. */
  lemma PaddedTokenIsRead(c: PlaceClass, before: string, token: string, after: string, rest: string)
    requires AllSpace(before) && AllSpace(after) && Upper(token) == TokenOf(c)
    requires rest == "" || rest[0] == ':'
    ensures ClassifyPlaceMessage(before + token + after + rest) == c
  {
    var head := before + token + after;
    TokenIsToken(c);
    LetterForLetter(token, TokenOf(c));
    forall i | 0 <= i < |head| ensures head[i] != ':' {
      if i < |before| {
        assert head[i] == before[i];
      } else if i < |before| + |token| {
        assert head[i] == token[i - |before|] && Upper(token)[i - |before|] != ':';
      } else {
        assert head[i] == after[i - |before| - |token|];
      }
    }
    BeforeSeparator(head, ':', rest);
    StripPadded(before, token, after);
    TokensDiffer(c, TokenOf(c));
    assert |head| > 0;
  }

  /** The ends of a text that upper-cases to a token are no white space. */
  lemma LetterForLetter(token: string, upper: string)
    requires Upper(token) == upper && IsToken(upper, ':')
    ensures token != [] && !IsSpace(token[0]) && !IsSpace(token[|token| - 1])
  {
    assert upper[0] == UpperChar(token[0]) && upper[|upper| - 1] == UpperChar(token[|token| - 1]);
  }

  /** Any other head reads as UNKNOWN. */
  lemma OtherHeadIsUnknown(message: string)
    requires forall c: PlaceClass :: c != Unknown ==> Upper(Strip(Before(message, ':'))) != TokenOf(c)
    ensures ClassifyPlaceMessage(message) == Unknown
  {
    assert TokenOf(Submitted) == "SUBMITTED" && TokenOf(Rejected) == "REJECTED";
    assert TokenOf(Timeout) == "TIMEOUT" && TokenOf(NetworkError) == "NETWORK_ERROR";
  }

  // ---------------------------------------------------------------- query_fill_status

  datatype FillClass = Full | Partial | NoFill | BrokerRejected | BrokerCanceled | Undecided

  function FillStatusOf(c: FillClass): BrokerStatus {
    match c
    case Full => Filled
    case Partial => PartiallyFilled
    case NoFill => Pending
    case BrokerRejected => RejectedByBroker
    case BrokerCanceled => Canceled
    case Undecided => Pending
  }

  predicate FillSuccessOf(c: FillClass) {
    c == Full || c == Partial || c == NoFill
  }

  const UNDECIDED_REPORT := FillReport(false, 0, 0, Pending)

  function ParsedQuantity(q: Option<int>): int {
    if q.Some? then q.value else 0
  }

  function DecodeRecord(record: FillRecord): FillReport {
    var ordered := ParsedQuantity(record.ordQty);
    var filled := ParsedQuantity(record.totCcldQty);
    var c :=
      if Upper(record.rjctYn) == "Y" then BrokerRejected
      else if Upper(record.cnclYn) == "Y" then BrokerCanceled
      else if filled > 0 && filled >= ordered && ordered > 0 then Full
      else if filled > 0 && filled < ordered then Partial
      else if filled == 0 then NoFill
      else Undecided;
    FillReport(FillSuccessOf(c), filled, if ordered > filled then ordered - filled else 0, FillStatusOf(c))
  }

  function ClassifyFillResponse(statusCode: int, body: QueryBody): FillReport {
    if statusCode != 200 || !body.QueryPayload? || body.rtCd != "0" then UNDECIDED_REPORT
    else if body.record.None? then FillReport(FillSuccessOf(NoFill), 0, 0, FillStatusOf(NoFill))
    else DecodeRecord(body.record.value)
  }

  function QueryAttempt(http: Http<QueryBody>): Attempt<FillReport> {
    match http
    case Answered(statusCode, body) => Attempt(ClassifyFillResponse(statusCode, body), false)
    case _ => Attempt(UNDECIDED_REPORT, true)
  }

  /** A fill query makes one to three attempts, stopping at the first answer. */
  method QueryFillStatus(http: nat -> Http<QueryBody>) returns (report: FillReport, attempts: nat)
    ensures 1 <= attempts <= 3
    ensures forall k :: 0 <= k < attempts - 1 ==> !http(k).Answered?
    ensures attempts < 3 ==> http(attempts - 1).Answered?
    ensures report == QueryAttempt(http(attempts - 1)).result
  {
    var operation := (k: nat) => QueryAttempt(http(k));
    var last;
    last, attempts := RunWithRetries(operation, QUERY_FILL_MAX_RETRIES);
    forall k | 0 <= k < attempts - 1 ensures !http(k).Answered? {
      assert operation(k).shouldRetry;
    }
    report := last.result;
  }

  // ---------------------------------------------------------------- cancel_order

  function ClassifyCancelResponse(statusCode: int, body: PlaceBody, statusText: string): CancelResult {
    if statusCode >= 500 then CancelResult(false, "UNKNOWN" + (": KIS HTTP " + statusText + " (server error)"))
    else if statusCode >= 400 then CancelResult(false, "REJECTED" + (": KIS HTTP " + statusText))
    else if statusCode != 200 then CancelResult(false, "UNKNOWN" + (": KIS HTTP " + statusText))
    else match body
      case PlaceNotJson => CancelResult(false, "UNKNOWN" + ": KIS HTTP 200 but body is not valid JSON")
      case PlaceNotObject => CancelResult(false, "UNKNOWN" + ": KIS HTTP 200 but body is not a JSON object")
      case PlacePayload(rtCd, msg1, _) =>
        var shown := Truncated(msg1, 120);
        if rtCd == "0" then CancelResult(true, if shown != "" then "CANCELED" + (": " + shown) else "CANCELED")
        else CancelResult(false, Strip("REJECTED:" + (" rt_cd=" + (if rtCd == "" then "?" else rtCd) + " " + shown)))
  }

  function CancelAttempt(http: Http<PlaceBody>, clock: string, statusText: string): Attempt<CancelResult> {
    match http
    case TimedOut => Attempt(CancelResult(false, "TIMEOUT" + (": KIS cancel_order exceeded " + clock + "s")), true)
    case ConnectionFailed(error) => Attempt(CancelResult(false, "NETWORK_ERROR" + (": " + error)), true)
    case Answered(statusCode, body) => Attempt(ClassifyCancelResponse(statusCode, body, statusText), false)
  }

  /** The documented outcome of a cancel, as the token its message starts with. */
  function CancelToken(http: Http<PlaceBody>): string {
    match PlaceTable(http)
    case Submitted => "CANCELED"
    case c => TokenOf(c)
  }

  /** The message of a cancel starts with the documented token, and only CANCELED goes with success. */
  lemma CancelClassExactly(http: Http<PlaceBody>, clock: string, statusText: string)
    ensures var result := CancelAttempt(http, clock, statusText).result;
            && Before(result.message, ':') == CancelToken(http)
            && (result.success <==> PlaceTable(http) == Submitted)
  {
    hide Before, Strip, Truncated;
    match http
    case TimedOut => MessageHead("TIMEOUT", ": KIS cancel_order exceeded " + clock + "s");
    case ConnectionFailed(error) => MessageHead("NETWORK_ERROR", ": " + error);
    case Answered(statusCode, body) =>
      MessageHead("UNKNOWN", ": KIS HTTP " + statusText + " (server error)");
      MessageHead("UNKNOWN", ": KIS HTTP " + statusText);
      MessageHead("REJECTED", ": KIS HTTP " + statusText);
      MessageHead("UNKNOWN", ": KIS HTTP 200 but body is not valid JSON");
      MessageHead("UNKNOWN", ": KIS HTTP 200 but body is not a JSON object");
      if statusCode == 200 && body.PlacePayload? {
        CancelPayloadClass(body.rtCd, body.msg1, body.odno, statusText);
      }
  }

  lemma MessageHead(token: string, text: string)
    requires forall i :: 0 <= i < |token| ==> token[i] != ':'
    requires text == "" || text[0] == ':'
    ensures Before(token + text, ':') == token
  {
    BeforeSeparator(token, ':', text);
  }

  lemma CancelPayloadClass(rtCd: string, msg1: string, odno: string, statusText: string)
    ensures var result := ClassifyCancelResponse(200, PlacePayload(rtCd, msg1, odno), statusText);
            && Before(result.message, ':') == (if rtCd == "0" then "CANCELED" else "REJECTED")
            && (result.success <==> rtCd == "0")
  {
    hide Before, Strip, Truncated;
    var shown := Truncated(msg1, 120);
    if rtCd == "0" {
      MessageHead("CANCELED", ": " + shown);
      MessageHead("CANCELED", "");
      assert "CANCELED" + "" == "CANCELED";
    } else {
      RefusalHead(" rt_cd=" + (if rtCd == "" then "?" else rtCd) + " " + shown);
    }
  }

  lemma RefusalHead(text: string)
    ensures Before(Strip("REJECTED:" + text), ':') == "REJECTED"
  {
    var m := "REJECTED:" + text;
    assert StripLeft(m) == m by { assert m[0] == 'R'; }
    StripRightKeepsFront("REJECTED:", text);
    assert "REJECTED:" + StripRight(text) == "REJECTED" + (":" + StripRight(text));
    MessageHead("REJECTED", ":" + StripRight(text));
  }

  /** A cancel makes one to three attempts, stopping at the first answer; it succeeds only
      on an HTTP 200 answer with business code 0. */
  method CancelOrder(http: nat -> Http<PlaceBody>, clock: string, statusText: string)
    returns (result: CancelResult, attempts: nat)
    ensures 1 <= attempts <= 3
    ensures forall k :: 0 <= k < attempts - 1 ==> !http(k).Answered?
    ensures attempts < 3 ==> http(attempts - 1).Answered?
    ensures result == CancelAttempt(http(attempts - 1), clock, statusText).result
    ensures result.success <==> PlaceTable(http(attempts - 1)) == Submitted
    ensures Before(result.message, ':') == CancelToken(http(attempts - 1))
  {
    var operation := (k: nat) => CancelAttempt(http(k), clock, statusText);
    var last;
    last, attempts := RunWithRetries(operation, CANCEL_ORDER_MAX_RETRIES);
    forall k | 0 <= k < attempts - 1 ensures !http(k).Answered? {
      assert operation(k).shouldRetry;
    }
    result := last.result;
    CancelClassExactly(http(attempts - 1), clock, statusText);
  }
}
