/** How the client turns what the server answered into the value or the error of each
    call (HttpClient.java: the response handlers of getInfo, getClusterHealth, bulk,
    putTemplate, count, search and putPipeline). */
module Responses {
  import opened Wrappers
  import opened JavaText

  const Ok := 200
  const BadRequest := 400

  /** An HTTP answer: its status code and its body, None when there was no body. */
  datatype Reply = Reply(status: int, body: Option<string>)

  /** The ways a call fails. */
  datatype Error =
    | NullPointer           // a null reference was dereferenced
    | IllegalArgument       // an enum name that is not one of the constants
    | Transport             // no answer: connection refused, reset or timed out
    | Deserialization       // the body does not map to the expected type
    | Elasticsearch(message: string)

  /** The level at which a failed call is logged. */
  datatype LogLevel = Silent | WarnLevel | ErrorLevel

  const BulkFailure := "Unable to bulk index data"
  const TemplateFailure := "Unable to put template mapping"
  const CountFailure := "Unable to count"
  const SearchFailure := "Unable to search"

  /** getInfo and getClusterHealth: the body is parsed whatever the status code. `answer` is
      None when no answer arrived; `parsed` is the body mapped to the result type, or None
      when it does not map. */
  function Parse<T>(answer: Option<Reply>, parsed: Option<T>): (r: Result<T, Error>)
    ensures answer.None? ==> r == Failure(Transport)
    ensures answer.Some? ==> (r.Success? <==> parsed.Some?)
    ensures r.Success? ==> r.value == parsed.value
    ensures r.Failure? ==> r.error == Transport || r.error == Deserialization
  {
    if answer.None? then Failure(Transport)
    else if parsed.None? then Failure(Deserialization)
    else Success(parsed.value)
  }

  /** count, search and the URL overload of count: only 200 is accepted; any other status
      fails with `message` before the body is looked at. */
  function ExpectOk<T>(answer: Option<Reply>, parsed: Option<T>, message: string): (r: Result<T, Error>)
    ensures r.Success? <==> answer.Some? && answer.value.status == Ok && parsed.Some?
    ensures r.Success? ==> r.value == parsed.value
    ensures answer.Some? && answer.value.status != Ok ==> r == Failure(Elasticsearch(message))
  {
    if answer.None? then Failure(Transport)
    else if answer.value.status != Ok then Failure(Elasticsearch(message))
    else Parse(answer, parsed)
  }

  /** putTemplate: completes on 200 and fails with `message` otherwise; the body is ignored. */
  function ExpectOkCompletion(answer: Option<Reply>, message: string): (r: Outcome<Error>)
    ensures r.Pass? <==> answer.Some? && answer.value.status == Ok
    ensures answer.Some? && answer.value.status != Ok ==> r == Fail(Elasticsearch(message))
  {
    if answer.None? then Fail(Transport)
    else if answer.value.status != Ok then Fail(Elasticsearch(message))
    else Pass
  }

  /** A rejected answer yields the same error whatever its body and whatever it would parse to. */
  lemma RejectionIgnoresBody<T>(status: int, body1: Option<string>, body2: Option<string>,
                                parsed1: Option<T>, parsed2: Option<T>, message: string)
    requires status != Ok
    ensures ExpectOk(Some(Reply(status, body1)), parsed1, message) ==
            ExpectOk(Some(Reply(status, body2)), parsed2, message)
    ensures ExpectOkCompletion(Some(Reply(status, body1)), message) ==
            ExpectOkCompletion(Some(Reply(status, body2)), message)
  {
  }

  /** Where the status is 200 both handlers agree: a status check adds nothing then. */
  lemma ExpectOkAgreesWithParseOn200<T>(body: Option<string>, parsed: Option<T>, message: string)
    ensures ExpectOk(Some(Reply(Ok, body)), parsed, message) == Parse(Some(Reply(Ok, body)), parsed)
  {
  }

  /** getInfo does not check the status: an error page that happens to parse is accepted. */
  lemma ParseAcceptsAnyStatus<T>(status: int, body: Option<string>, value: T, message: string)
    requires status != Ok
    ensures Parse(Some(Reply(status, body)), Some(value)) == Success(value)
    ensures ExpectOk(Some(Reply(status, body)), Some(value), message).Failure?
  {
  }

  // ---------------------------------------------------------------- putPipeline

  /** The message of the error putPipeline fails with: the format
      "Unable to create ES pipeline '%s': status[%s] response[%s]" filled with the name,
      the status code and the body (a null name or body prints as "null"). */
  function PipelineMessage(name: Option<string>, status: int, body: Option<string>): (m: string)
    ensures |m| == |PipelinePrefix(name)| + |Decimal(status)| + |PipelineTail(body)|
    ensures m[..|PipelinePrefix(name)|] == PipelinePrefix(name)
    ensures m[|PipelinePrefix(name)|..|m| - |PipelineTail(body)|] == Decimal(status)
    ensures m[|m| - |PipelineTail(body)|..] == PipelineTail(body)
  {
    var prefix, digits, tail := PipelinePrefix(name), Decimal(status), PipelineTail(body);
    var m := prefix + digits + tail;
    assert m[..|prefix|] == prefix;
    assert m[|prefix|..|m| - |tail|] == digits;
    assert m[|m| - |tail|..] == tail;
    m
  }

  function PipelinePrefix(name: Option<string>): string
  {
    "Unable to create ES pipeline '" + Text(name) + "': status["
  }

  function PipelineTail(body: Option<string>): string
  {
    "] response[" + Text(body) + "]"
  }

  /** putPipeline: 200 completes; 400 and every other status fail with the same message. */
  function PipelineOutcome(name: Option<string>, answer: Option<Reply>): (r: Outcome<Error>)
    ensures r.Pass? <==> answer.Some? && answer.value.status == Ok
    ensures answer.Some? && answer.value.status != Ok ==>
      r == Fail(Elasticsearch(PipelineMessage(name, answer.value.status, answer.value.body)))
  {
    if answer.None? then Fail(Transport)
    else
      match answer.value.status
      case 200 => Pass
      case _ => Fail(Elasticsearch(PipelineMessage(name, answer.value.status, answer.value.body)))
  }

  /** How a putPipeline answer is logged: not at all on 200, as a warning on 400, as an error otherwise. */
  function PipelineLogLevel(status: int): (level: LogLevel)
    ensures level == Silent <==> status == Ok
    ensures level == WarnLevel <==> status == BadRequest
  {
    match status
    case 200 => Silent
    case 400 => WarnLevel
    case _ => ErrorLevel
  }

  /** The message of a failed putPipeline tells the status codes apart: two answers with the
      same name and body give the same message only when their statuses are the same. */
  lemma PipelineMessageShowsStatus(name: Option<string>, body: Option<string>, s1: int, s2: int)
    ensures PipelineMessage(name, s1, body) == PipelineMessage(name, s2, body) ==> s1 == s2
  {
    if PipelineMessage(name, s1, body) == PipelineMessage(name, s2, body) {
      SameFrame(PipelinePrefix(name), Decimal(s1), Decimal(s2), PipelineTail(body));
      DecimalInjective(s1, s2);
    }
  }

  /** A bad request and a server error fail alike, only the log level tells them apart. */
  lemma PipelineRejectionsAlike(name: Option<string>, body: Option<string>, status: int)
    requires status != Ok && status != BadRequest
    ensures PipelineOutcome(name, Some(Reply(BadRequest, body))).Fail?
    ensures PipelineOutcome(name, Some(Reply(status, body))).Fail?
    ensures PipelineLogLevel(BadRequest) != PipelineLogLevel(status)
  {
  }
}
