/** The client's error taxonomy: the ApiException family the io handler
    throws for HTTP status errors and response-processing failures, and the
    ApiClientException record the org handler throws. */
module Errors {
  import opened Wrappers
  import opened Text
  import opened Http

  /** The Java exception classes, other than the client's own, that the
      handlers throw or let through. */
  datatype ExceptionClass =
    | FrameworkException
    | JsonParseException
    | JsonMappingException
    | IOException
    | IllegalArgumentException
    | NullPointerException
    | ClassCastException
    | UnsupportedOperationException
    | CompletionException
  {
    /** The fully qualified class name. */
    function Name(): string {
      match this
      case FrameworkException => "io.github.itech_framework.core.exceptions.FrameworkException"
      case JsonParseException => "com.fasterxml.jackson.core.JsonParseException"
      case JsonMappingException => "com.fasterxml.jackson.databind.JsonMappingException"
      case IOException => "java.io.IOException"
      case IllegalArgumentException => "java.lang.IllegalArgumentException"
      case NullPointerException => "java.lang.NullPointerException"
      case ClassCastException => "java.lang.ClassCastException"
      case UnsupportedOperationException => "java.lang.UnsupportedOperationException"
      case CompletionException => "java.util.concurrent.CompletionException"
    }
  }

  /** The message prefix both handlers use for a non-JSON content type. */
  const UnexpectedContentTypePrefix := "Unexpected content type: "

  /** The message of the org handler's JSON parsing failure. */
  const ParseFailed := "Failed to parse JSON response"

  /** The NullPointerException a dereference of null throws; its message is
      the JVM's and is not modelled. */
  const NullDereference := Fault(NullPointerException, None)

  /** A Java exception other than the client's own, kept as its class name
      and its (possibly null) message. */
  datatype Fault = Fault(className: ExceptionClass, message: Option<string>) {
    /** Throwable.toString(): the class name, then ": " and the message when
        the message is not null. */
    function ToString(): string {
      className.Name() + (if message.Some? then ": " + message.value else "")
    }
  }

  /** The ApiException class hierarchy as one datatype: one constructor per
      subclass. The eight named subclasses fix the status code; ClientError,
      ServerError and the base class take it from the caller; only the base
      class has a constructor that takes a cause. */
  datatype ApiException =
    | BadRequestException(message: string, responseBody: Option<string>, errorCode: Option<string>)
    | UnauthorizedException(message: string, responseBody: Option<string>, errorCode: Option<string>)
    | ForbiddenException(message: string, responseBody: Option<string>, errorCode: Option<string>)
    | NotFoundException(message: string, responseBody: Option<string>, errorCode: Option<string>)
    | ConflictException(message: string, responseBody: Option<string>, errorCode: Option<string>)
    | TooManyRequestsException(message: string, responseBody: Option<string>, errorCode: Option<string>)
    | InternalServerErrorException(message: string, responseBody: Option<string>, errorCode: Option<string>)
    | ServiceUnavailableException(message: string, responseBody: Option<string>, errorCode: Option<string>)
    | ClientErrorException(message: string, status: int, responseBody: Option<string>, errorCode: Option<string>)
    | ServerErrorException(message: string, status: int, responseBody: Option<string>, errorCode: Option<string>)
    | BaseApiException(message: string, status: int, responseBody: Option<string>, errorCode: Option<string>,
                       cause: Option<Fault>)
  {
    /** getStatusCode(). */
    function StatusCode(): int {
      match this
      case BadRequestException(_, _, _) => 400
      case UnauthorizedException(_, _, _) => 401
      case ForbiddenException(_, _, _) => 403
      case NotFoundException(_, _, _) => 404
      case ConflictException(_, _, _) => 409
      case TooManyRequestsException(_, _, _) => 429
      case InternalServerErrorException(_, _, _) => 500
      case ServiceUnavailableException(_, _, _) => 503
      case ClientErrorException(_, s, _, _) => s
      case ServerErrorException(_, s, _, _) => s
      case BaseApiException(_, s, _, _, _) => s
    }

    /** getCause(): only the base class's five-argument constructor sets one. */
    function Cause(): Option<Fault> {
      if BaseApiException? then cause else None
    }
  }

  /** new ApiException(message, statusCode, responseBody, errorCode). */
  function NewApiException(message: string, statusCode: int, responseBody: Option<string>,
                           errorCode: Option<string>): (e: ApiException)
    ensures e.StatusCode() == statusCode && e.responseBody == responseBody
    ensures e.errorCode == errorCode && e.message == message && e.Cause() == None
    ensures e.BaseApiException?
  {
    BaseApiException(message, statusCode, responseBody, errorCode, None)
  }

  /** new ApiException(message, statusCode, responseBody, errorCode, cause):
      the same three fields as the four-argument constructor, plus the cause. */
  function NewApiExceptionWithCause(message: string, statusCode: int, responseBody: Option<string>,
                                    errorCode: Option<string>, cause: Fault): (e: ApiException)
    ensures e.StatusCode() == statusCode && e.responseBody == responseBody
    ensures e.errorCode == errorCode && e.message == message && e.Cause() == Some(cause)
  {
    BaseApiException(message, statusCode, responseBody, errorCode, Some(cause))
  }

  /** The status each named subclass fixes, and None for the three classes
      that pass the caller's status through. */
  function FixedStatus(e: ApiException): Option<int> {
    match e
    case BadRequestException(_, _, _) => Some(400)
    case UnauthorizedException(_, _, _) => Some(401)
    case ForbiddenException(_, _, _) => Some(403)
    case NotFoundException(_, _, _) => Some(404)
    case ConflictException(_, _, _) => Some(409)
    case TooManyRequestsException(_, _, _) => Some(429)
    case InternalServerErrorException(_, _, _) => Some(500)
    case ServiceUnavailableException(_, _, _) => Some(503)
    case _ => None
  }

  /** Every subclass reports the status it fixes, whatever the other
      arguments; the pass-through classes report the status they were given;
      message, body and error code are kept unchanged. */
  lemma SubclassesFixOrPassStatus(m: string, s: int, b: Option<string>, c: Option<string>)
    ensures forall e: ApiException :: FixedStatus(e).Some? ==> e.StatusCode() == FixedStatus(e).value
    ensures BadRequestException(m, b, c).StatusCode() == 400
    ensures UnauthorizedException(m, b, c).StatusCode() == 401
    ensures ForbiddenException(m, b, c).StatusCode() == 403
    ensures NotFoundException(m, b, c).StatusCode() == 404
    ensures ConflictException(m, b, c).StatusCode() == 409
    ensures TooManyRequestsException(m, b, c).StatusCode() == 429
    ensures InternalServerErrorException(m, b, c).StatusCode() == 500
    ensures ServiceUnavailableException(m, b, c).StatusCode() == 503
    ensures ClientErrorException(m, s, b, c).StatusCode() == s
    ensures ServerErrorException(m, s, b, c).StatusCode() == s
    ensures forall e: ApiException :: e.Cause() == None || e.BaseApiException?
  {
  }

  const MessageLabel := "ApiClientException{message='"
  const StatusCodeLabel := "', statusCode="
  const ReasonPhraseLabel := ", reasonPhrase='"
  const ResponseBodyLabel := ", responseBody='"
  const CauseLabel := ", cause="

  /** The ApiClientException record: message, status code, response body,
      reason phrase and cause. */
  datatype ApiClientException = ApiClientException(
    message: string,
    statusCode: int,
    responseBody: Option<string>,
    reasonPhrase: Option<string>,
    cause: Option<Fault>)
  {
    /** toString(): message, statusCode, reasonPhrase, responseBody and cause,
        in that order, each after its label, with null shown as "null". */
    function ToString(): (r: string)
      ensures var head := MessageLabel + message + StatusCodeLabel + IntToString(statusCode);
              var reason := ReasonPhraseLabel + NullableText(reasonPhrase) + "'";
              var body := ResponseBodyLabel + NullableText(responseBody) + "'";
              var causeText := CauseText(cause);
              var i1, i2, i3 := |head|, |head| + |reason|, |head| + |reason| + |body|;
              && |r| == i3 + |causeText| + 1
              && r[..i1] == head
              && r[i1..i2] == reason
              && r[i2..i3] == body
              && r[i3..|r| - 1] == causeText
              && r[|r| - 1] == '}'
    {
      var head := MessageLabel + message + StatusCodeLabel + IntToString(statusCode);
      var reason := ReasonPhraseLabel + NullableText(reasonPhrase) + "'";
      var body := ResponseBodyLabel + NullableText(responseBody) + "'";
      var causeText := CauseText(cause);
      FiveParts(head, reason, body, causeText, "}");
      head + reason + body + causeText + "}"
    }
  }

  /** The cause segment of toString(): its label, then the cause's own
      toString(), or "null". */
  function CauseText(cause: Option<Fault>): string {
    CauseLabel + (if cause.Some? then cause.value.ToString() else "null")
  }

  /** Where each part of a five-part concatenation sits. */
  lemma FiveParts(a: string, b: string, c: string, d: string, e: string)
    ensures var s := a + b + c + d + e;
      && |s| == |a| + |b| + |c| + |d| + |e|
      && s[..|a|] == a
      && s[|a|..|a| + |b|] == b
      && s[|a| + |b|..|a| + |b| + |c|] == c
      && s[|a| + |b| + |c|..|a| + |b| + |c| + |d|] == d
      && s[|a| + |b| + |c| + |d|..] == e
  {
    var s := a + b + c + d + e;
    assert s == a + (b + (c + (d + e)));
    assert s[|a|..] == b + (c + (d + e));
    assert s[|a| + |b|..] == c + (d + e);
    assert s[|a| + |b| + |c|..] == d + e;
  }

  /** The four-argument constructor: no cause. */
  function ClientExceptionNoCause(message: string, statusCode: int, responseBody: Option<string>,
                                  reasonPhrase: Option<string>): (e: ApiClientException)
    ensures e.message == message && e.statusCode == statusCode
    ensures e.responseBody == responseBody && e.reasonPhrase == reasonPhrase && e.cause == None
  {
    ApiClientException(message, statusCode, responseBody, reasonPhrase, None)
  }

  /** The three-argument constructor: no body and no cause. */
  function ClientExceptionNoBody(message: string, statusCode: int, reasonPhrase: Option<string>): (e: ApiClientException)
    ensures e == ClientExceptionNoCause(message, statusCode, None, reasonPhrase)
    ensures e.responseBody == None && e.cause == None
  {
    ApiClientException(message, statusCode, None, reasonPhrase, None)
  }

  /** The two-argument constructor: body, reason and cause all null. */
  function ClientExceptionMinimal(message: string, statusCode: int): (e: ApiClientException)
    ensures e == ClientExceptionNoBody(message, statusCode, None)
    ensures e.responseBody == None && e.reasonPhrase == None && e.cause == None
  {
    ApiClientException(message, statusCode, None, None, None)
  }

  /** ApiClientException.fromResponse: status code and reason phrase come
      from the response's status line; message and body are kept. */
  function FromResponse(message: string, response: Response, responseBody: Option<string>): (e: ApiClientException)
    ensures e.statusCode == response.statusLine.code && e.reasonPhrase == response.statusLine.reasonPhrase
    ensures e.message == message && e.responseBody == responseBody && e.cause == None
  {
    ClientExceptionNoCause(message, response.statusLine.code, responseBody, response.statusLine.reasonPhrase)
  }
}
