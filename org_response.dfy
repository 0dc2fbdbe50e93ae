/** The org handler's response classifier: a narrower success range than the
    io handler's, no trimming, no String shortcut, and only the entity
    released in its finally block. */
module OrgResponse {
  import opened Wrappers
  import opened Text
  import opened Http
  import opened Json
  import opened Errors
  import IoResponse

  /** What processResponse throws: the ApiClientException it builds itself,
      or an exception it lets through (the IOException of a failed read, a
      Jackson failure other than JsonParseException). */
  datatype Thrown = ClientFailure(exception: ApiClientException) | Propagated(fault: Fault)

  const RequestFailed := "API request failed"

  const InvalidContentTypePhrase := "Invalid Content-Type"
  const JsonParsingPhrase := "JSON Parsing Error"

  /** The outcome of processResponse together with its finally block. */
  datatype Handled<V> = Handled(result: Result<IoResponse.Returned<V>, Thrown>, release: IoResponse.Release)

  /** Success in the org handler: the 2xx class of section 15.3 of RFC 9110. */
  predicate Successful(status: int) {
    200 <= status < 300
  }

  /** The decision inside the try block, once the body has been read.
      `decode` is the Jackson readValue into the declared return type. */
  function Classify<V>(resp: Response, body: Option<string>, decode: string -> Jackson<V>): (r: Result<IoResponse.Returned<V>, Thrown>)
    ensures r.Failure? && r.error.Propagated? ==> body.Some? && decode(body.value).MappingFailure?
    ensures r.Failure? && r.error.ClientFailure? ==> r.error.exception.responseBody == body
  {
    var status := resp.statusLine.code;
    if !Successful(status) then Failure(ClientFailure(FromResponse(RequestFailed, resp, body)))
    else if body.None? || body.value == "" then Success(IoResponse.Null)
    else
      var contentType := ResponseContentType(resp);
      if !EqualsIgnoreCase(contentType.mimeType, ApplicationJson.mimeType) then
        Failure(ClientFailure(ClientExceptionNoCause(UnexpectedContentTypePrefix + contentType.ToString(), status, body,
                                                     Some(InvalidContentTypePhrase))))
      else match decode(body.value)
        case Parsed(v) => Success(IoResponse.Decoded(v))
        case ParseFailure(message) =>
          Failure(ClientFailure(ApiClientException(ParseFailed, status, body, Some(JsonParsingPhrase),
                                                   Some(Fault(JsonParseException, Some(message))))))
        case MappingFailure(message) => Failure(Propagated(Fault(JsonMappingException, Some(message))))
  }

  /** processResponse: a failed read propagates its IOException; the finally
      block consumes the entity but never closes the response. */
  function ProcessResponse<V>(resp: Response, decode: string -> Jackson<V>): (h: Handled<V>)
    ensures h.release == IoResponse.Release(true, false)
    ensures ReadBody(resp).Failure? ==> h.result == Failure(Propagated(Fault(IOException, ReadBody(resp).error)))
    ensures h.result.Success? ==> !h.result.value.RawBody?
  {
    var result :=
      match ReadBody(resp)
      case Failure(message) => Failure(Propagated(Fault(IOException, message)))
      case Success(body) => Classify(resp, body, decode);
    Handled(result, IoResponse.Release(true, false))
  }

  /** Success is exactly the 2xx range: any other status, 1xx and 3xx
      included, is the "API request failed" exception carrying the status
      line's code and reason phrase and the body; no other exception has
      that message. */
  lemma FailsOutside2xx<V>(resp: Response, body: Option<string>, decode: string -> Jackson<V>)
    ensures var r := Classify(resp, body, decode);
      (r.Failure? && r.error.ClientFailure? && r.error.exception.message == RequestFailed)
        <==> !Successful(resp.statusLine.code)
    ensures var r := Classify(resp, body, decode);
      !Successful(resp.statusLine.code) ==>
        r == Failure(ClientFailure(ApiClientException(RequestFailed, resp.statusLine.code, body,
                                                      resp.statusLine.reasonPhrase, None)))
  {
    var r := Classify(resp, body, decode);
    if Successful(resp.statusLine.code) && r.Failure? && r.error.ClientFailure? {
      var m := r.error.exception.message;
      assert m[0] != RequestFailed[0];
    }
  }

  /** Only a null or empty body is null: a whitespace-only body of a 2xx
      response goes on to the content-type check, and with a non-JSON type
      it raises "Invalid Content-Type" keeping status and body. There is no
      String shortcut: a successful call never returns the raw body. */
  lemma OnlyEmptyBodyIsNull<V>(resp: Response, body: Option<string>, decode: string -> Jackson<V>)
    requires Successful(resp.statusLine.code)
    ensures Classify(resp, body, decode) == Success(IoResponse.Null) <==> body.None? || body.value == ""
    ensures body.Some? && body.value != ""
            && !EqualsIgnoreCase(ResponseContentType(resp).mimeType, ApplicationJson.mimeType) ==>
      var r := Classify(resp, body, decode);
      && r.Failure? && r.error.ClientFailure?
      && r.error.exception.reasonPhrase == Some(InvalidContentTypePhrase)
      && r.error.exception.statusCode == resp.statusLine.code
      && r.error.exception.responseBody == body
  {
  }

  /** Only JsonParseException is wrapped, as "JSON Parsing Error" with status
      and body kept and the parser's exception as cause; any other decoder
      failure escapes unwrapped. */
  lemma OnlyParseErrorsWrapped<V>(resp: Response, body: string, decode: string -> Jackson<V>)
    requires Successful(resp.statusLine.code) && body != ""
    requires EqualsIgnoreCase(ResponseContentType(resp).mimeType, ApplicationJson.mimeType)
    ensures decode(body).ParseFailure? ==>
      Classify(resp, Some(body), decode)
        == Failure(ClientFailure(ApiClientException(ParseFailed, resp.statusLine.code, Some(body), Some(JsonParsingPhrase),
                                                    Some(Fault(JsonParseException, Some(decode(body).message))))))
    ensures decode(body).MappingFailure? ==>
      Classify(resp, Some(body), decode).Failure? && Classify(resp, Some(body), decode).error.Propagated?
    ensures decode(body).Parsed? ==> Classify(resp, Some(body), decode) == Success(IoResponse.Decoded(decode(body).value))
  {
  }

  /** Where the two handlers part: a 3xx response is an error for the org
      handler only, and a whitespace-only non-JSON 2xx body is null for the
      io handler but an "Invalid Content-Type" error for the org one. The io
      handler also closes the response, the org handler does not. */
  lemma HandlersDiffer<V>(resp: Response, decode: string -> Jackson<V>, readTree: string -> Option<Json>)
    requires ReadBody(resp).Success?
    ensures var body := ReadBody(resp).value;
      300 <= resp.statusLine.code < 400 && (body.None? || IsBlank(body.value)) ==>
        && IoResponse.ProcessResponse(resp, false, decode, readTree).result == Success(IoResponse.Null)
        && ProcessResponse(resp, decode).result
             == Failure(ClientFailure(FromResponse(RequestFailed, resp, body)))
    ensures var body := ReadBody(resp).value;
      Successful(resp.statusLine.code) && body.Some? && body.value != "" && IsBlank(body.value)
      && !EqualsIgnoreCase(ResponseContentType(resp).mimeType, ApplicationJson.mimeType) ==>
        && IoResponse.ProcessResponse(resp, false, decode, readTree).result == Success(IoResponse.Null)
        && ProcessResponse(resp, decode).result.Failure?
    ensures IoResponse.ProcessResponse(resp, false, decode, readTree).release.responseClosed
    ensures !ProcessResponse(resp, decode).release.responseClosed
  {
  }
}
