/** The io handler's response classifier: processResponse with its two
    helpers, the status-to-exception table and the best-effort error-code
    extraction. */
module IoResponse {
  import opened Wrappers
  import opened Text
  import opened Http
  import opened Json
  import opened Errors

  /** What the finally block did to the response: whether the entity was
      consumed and whether the response was closed. */
  datatype Release = Release(entityConsumed: bool, responseClosed: bool)

  /** What processResponse returns: null, the body itself (a String return
      type), or the value the JSON decoder produced. */
  datatype Returned<V> = Null | RawBody(text: string) | Decoded(value: V)

  /** The outcome of processResponse together with its finally block. */
  datatype Handled<V> = Handled(result: Result<Returned<V>, ApiException>, release: Release)

  const UnknownError := "UNKNOWN_ERROR"
  const ProcessingError := "PROCESSING_ERROR"
  const InvalidContentType := "INVALID_CONTENT_TYPE"
  const JsonParseError := "JSON_PARSE_ERROR"
  const ProcessingPrefix := "Unexpected error processing response: "

  /** The exception JsonUtils.fromJson throws for every Jackson failure. */
  const DeserializationFailed := Fault(FrameworkException, Some(DeserializationMessage))
  const DeserializationMessage := "JSON deserialization failed"

  const StatusPrefix := "API request failed with status "

  /** The eight statuses with a class of their own. */
  predicate NamedStatus(status: int) {
    status == 400 || status == 401 || status == 403 || status == 404
    || status == 409 || status == 429 || status == 500 || status == 503
  }

  /** getDefaultMessageForStatusCode: the reason phrase section 15 of RFC
      9110 gives for the eight named statuses, and "HTTP Error" for all
      others. */
  function DefaultMessage(status: int): (m: string)
    ensures m == "HTTP Error" <==> !NamedStatus(status)
    ensures status == 400 ==> m == "Bad Request"
    ensures status == 401 ==> m == "Unauthorized"
    ensures status == 403 ==> m == "Forbidden"
    ensures status == 404 ==> m == "Not Found"
    ensures status == 409 ==> m == "Conflict"
    ensures status == 429 ==> m == "Too Many Requests"
    ensures status == 500 ==> m == "Internal Server Error"
    ensures status == 503 ==> m == "Service Unavailable"
  {
    match status
    case 400 => "Bad Request"
    case 401 => "Unauthorized"
    case 403 => "Forbidden"
    case 404 => "Not Found"
    case 409 => "Conflict"
    case 429 => "Too Many Requests"
    case 500 => "Internal Server Error"
    case 503 => "Service Unavailable"
    case _ => "HTTP Error"
  }

  // ------------------------------------------------------- error codes

  /** extractErrorCodeFromResponse. `readTree` is JsonUtils.fromJson(body,
      JsonNode.class), with None for the FrameworkException a malformed body
      raises; every failure ends as UNKNOWN_ERROR. */
  function ExtractErrorCode(body: Option<string>, readTree: string -> Option<Json>): (code: string)
    ensures body.None? || IsBlank(body.value) ==> code == UnknownError
    ensures body.Some? && readTree(body.value).None? ==> code == UnknownError
  {
    if body.None? || IsBlank(body.value) then UnknownError
    else match readTree(body.value)
      case None => UnknownError
      case Some(node) =>
        if Has(node, "code") then AsText(Get(node, "code").value)
        else if Has(node, "errorCode") then AsText(Get(node, "errorCode").value)
        else if Has(node, "error") then
          var err := Get(node, "error").value;
          if Has(err, "code") then AsText(Get(err, "code").value) else AsText(err)
        else UnknownError
  }

  /** The node reached by following the field names in `path`. */
  function Lookup(node: Json, path: seq<string>): (r: Option<Json>)
    ensures path == [] ==> r == Some(node)
    decreases |path|
  {
    if path == [] then Some(node)
    else match Get(node, path[0])
      case None => None
      case Some(child) => Lookup(child, path[1..])
  }

  /** The first path in `paths` that leads somewhere, and where it leads. */
  function FirstFound(node: Json, paths: seq<seq<string>>): (r: Option<Json>)
    ensures r.Some? ==> exists i :: 0 <= i < |paths| && Lookup(node, paths[i]) == r &&
                                    forall j :: 0 <= j < i ==> Lookup(node, paths[j]).None?
    ensures r.None? <==> forall i :: 0 <= i < |paths| ==> Lookup(node, paths[i]).None?
    decreases |paths|
  {
    if paths == [] then None
    else match Lookup(node, paths[0])
      case Some(found) => Some(found)
      case None =>
        var r := FirstFound(node, paths[1..]);
        assert forall i :: 1 <= i < |paths| ==> paths[i] == paths[1..][i - 1];
        assert r.Some? ==> exists i :: 0 <= i < |paths| && Lookup(node, paths[i]) == r &&
                                       forall j :: 0 <= j < i ==> Lookup(node, paths[j]).None? by {
          if r.Some? {
            var k :| 0 <= k < |paths[1..]| && Lookup(node, paths[1..][k]) == r &&
                     forall j :: 0 <= j < k ==> Lookup(node, paths[1..][j]).None?;
            assert Lookup(node, paths[k + 1]) == r;
            assert forall j :: 0 <= j < k + 1 ==> Lookup(node, paths[j]).None?;
          }
        }
        r
  }

  /** The places an error code is looked for, most preferred first. */
  const CodePaths: seq<seq<string>> := [["code"], ["errorCode"], ["error", "code"], ["error"]]

  /** The extraction is a priority search: the text of the first of `code`,
      `errorCode`, `error.code` and `error` that the body's JSON has, and
      UNKNOWN_ERROR when it has none of them. */
  lemma ErrorCodeIsFirstFound(body: string, readTree: string -> Option<Json>)
    requires !IsBlank(body) && readTree(body).Some?
    ensures var found := FirstFound(readTree(body).value, CodePaths);
      ExtractErrorCode(Some(body), readTree) == (if found.Some? then AsText(found.value) else UnknownError)
  {
    var node := readTree(body).value;
    assert Lookup(node, ["code"]) == Get(node, "code");
    assert Lookup(node, ["errorCode"]) == Get(node, "errorCode");
    assert Lookup(node, ["error"]) == Get(node, "error");
    if Has(node, "error") {
      var err := Get(node, "error").value;
      assert Lookup(node, ["error", "code"]) == Lookup(err, ["code"]) == Get(err, "code");
    } else {
      assert Lookup(node, ["error", "code"]) == None;
    }
  }

  /** A top-level "code" wins over everything else the body holds, and a body
      that is not a JSON object yields UNKNOWN_ERROR. */
  lemma ErrorCodePrecedence(body: string, readTree: string -> Option<Json>)
    requires !IsBlank(body) && readTree(body).Some?
    ensures Has(readTree(body).value, "code") ==>
      ExtractErrorCode(Some(body), readTree) == AsText(readTree(body).value.fields["code"])
    ensures !readTree(body).value.JObject? ==> ExtractErrorCode(Some(body), readTree) == UnknownError
    ensures var node := readTree(body).value;
      !Has(node, "code") && !Has(node, "errorCode") && Has(node, "error") && node.fields["error"].JString? ==>
        ExtractErrorCode(Some(body), readTree) == node.fields["error"].s
  {
  }

  // ------------------------------------------------------- status errors

  /** createExceptionForStatusCode: the message names the status and its
      default phrase; the eight named statuses get their own class, other
      4xx statuses ClientErrorException, statuses from 500 up
      ServerErrorException and anything else the base class. */
  function CreateExceptionForStatusCode(status: int, body: Option<string>, readTree: string -> Option<Json>): (e: ApiException)
    ensures e.StatusCode() == status
    ensures e.message == StatusPrefix + IntToString(status) + ": " + DefaultMessage(status)
    ensures e.responseBody == body && e.errorCode == Some(ExtractErrorCode(body, readTree)) && e.Cause() == None
    ensures FixedStatus(e).Some? <==> NamedStatus(status)
    ensures !NamedStatus(status) && 400 <= status < 500 ==> e.ClientErrorException?
    ensures !NamedStatus(status) && 500 <= status ==> e.ServerErrorException?
    ensures status < 400 ==> e.BaseApiException?
  {
    var code := Some(ExtractErrorCode(body, readTree));
    var message := StatusPrefix + IntToString(status) + ": " + DefaultMessage(status);
    match status
    case 400 => BadRequestException(message, body, code)
    case 401 => UnauthorizedException(message, body, code)
    case 403 => ForbiddenException(message, body, code)
    case 404 => NotFoundException(message, body, code)
    case 409 => ConflictException(message, body, code)
    case 429 => TooManyRequestsException(message, body, code)
    case 500 => InternalServerErrorException(message, body, code)
    case 503 => ServiceUnavailableException(message, body, code)
    case _ =>
      if 400 <= status < 500 then ClientErrorException(message, status, body, code)
      else if status >= 500 then ServerErrorException(message, status, body, code)
      else NewApiException(message, status, body, code)
  }

  // ------------------------------------------------------- processResponse

  /** What processResponse does once the body has been read: the decision
      inside its try block. */
  function Classify<V>(status: int, body: Option<string>, contentType: ContentType, returnsString: bool,
                       decode: string -> Jackson<V>, readTree: string -> Option<Json>): (r: Result<Returned<V>, ApiException>)
    ensures r.Failure? ==> r.error.StatusCode() == status && r.error.responseBody == body
  {
    if status >= 400 then Failure(CreateExceptionForStatusCode(status, body, readTree))
    else if body.None? || IsBlank(body.value) then Success(Null)
    else if returnsString then Success(RawBody(body.value))
    else if !EqualsIgnoreCase(contentType.mimeType, ApplicationJson.mimeType) then
      Failure(NewApiException(UnexpectedContentTypePrefix + contentType.ToString(), status, body,
                              Some(InvalidContentType)))
    else match decode(body.value)
      case Parsed(v) => Success(Decoded(v))
      case _ =>
        Failure(NewApiExceptionWithCause(ProcessingPrefix + DeserializationMessage, status, body,
                                         Some(ProcessingError), DeserializationFailed))
  }

  /** processResponse. `returnsString` says whether the declared return type
      is String; `decode` is Jackson's readValue into that type and
      `readTree` its readValue into a JsonNode. Whatever happens, the finally
      block consumes the entity and closes the response. */
  function ProcessResponse<V>(resp: Response, returnsString: bool, decode: string -> Jackson<V>,
                              readTree: string -> Option<Json>): (h: Handled<V>)
    ensures h.release == Release(true, true)
    ensures h.result.Failure? ==> h.result.error.StatusCode() == resp.statusLine.code
    ensures ReadBody(resp).Failure? ==> h.result.Failure? && h.result.error.errorCode == Some(ProcessingError)
  {
    var status := resp.statusLine.code;
    var result :=
      match ReadBody(resp)
      case Failure(message) =>
        Failure(NewApiExceptionWithCause(ProcessingPrefix + NullableText(message), status, None,
                                         Some(ProcessingError), Fault(IOException, message)))
      case Success(body) => Classify(status, body, ResponseContentType(resp), returnsString, decode, readTree);
    Handled(result, Release(true, true))
  }

  /** The decision order, once the body is read: a status from 400 up is
      the typed exception whatever the body; below that a null or blank body
      is null whatever the return and content types; a String return type
      gets the body as it is; a non-JSON content type (compared ignoring
      case) is INVALID_CONTENT_TYPE; only a JSON body reaches the decoder. */
  lemma DecisionOrder<V>(status: int, body: Option<string>, contentType: ContentType, returnsString: bool,
                         decode: string -> Jackson<V>, readTree: string -> Option<Json>)
    ensures var r := Classify(status, body, contentType, returnsString, decode, readTree);
      && (status >= 400 ==> r == Failure(CreateExceptionForStatusCode(status, body, readTree)))
      && (status < 400 && (body.None? || IsBlank(body.value)) ==> r == Success(Null))
      && (status < 400 && body.Some? && !IsBlank(body.value) && returnsString ==> r == Success(RawBody(body.value)))
      && (status < 400 && body.Some? && !IsBlank(body.value) && !returnsString
          && !EqualsIgnoreCase(contentType.mimeType, ApplicationJson.mimeType) ==>
            r == Failure(NewApiException(UnexpectedContentTypePrefix + contentType.ToString(), status, body,
                                         Some(InvalidContentType))))
      && (status < 400 && body.Some? && !IsBlank(body.value) && !returnsString
          && EqualsIgnoreCase(contentType.mimeType, ApplicationJson.mimeType) && decode(body.value).Parsed? ==>
            r == Success(Decoded(decode(body.value).value)))
  {
  }

  /** A successful call had a status below 400; a decoded value comes only
      from a non-blank JSON body that the decoder accepted, and the raw body
      only for a String return type. */
  lemma SuccessMeans<V>(status: int, body: Option<string>, contentType: ContentType, returnsString: bool,
                        decode: string -> Jackson<V>, readTree: string -> Option<Json>)
    requires Classify(status, body, contentType, returnsString, decode, readTree).Success?
    ensures status < 400
    ensures var r := Classify(status, body, contentType, returnsString, decode, readTree).value;
      && (r.RawBody? ==> returnsString && body == Some(r.text) && !IsBlank(r.text))
      && (r.Decoded? ==> !returnsString && body.Some? && !IsBlank(body.value)
                         && decode(body.value) == Parsed(r.value)
                         && EqualsIgnoreCase(contentType.mimeType, ApplicationJson.mimeType))
      && (r.Null? ==> body.None? || IsBlank(body.value))
  {
  }

  /** The catch of JsonParseException is dead code: JsonUtils turns every
      Jackson failure into a FrameworkException, so a body that is not JSON
      surfaces as PROCESSING_ERROR with that exception as cause. */
  lemma MalformedJsonIsProcessingError<V>(status: int, body: string, contentType: ContentType,
                                          decode: string -> Jackson<V>, readTree: string -> Option<Json>)
    requires status < 400 && !IsBlank(body)
    requires EqualsIgnoreCase(contentType.mimeType, ApplicationJson.mimeType)
    requires !decode(body).Parsed?
    ensures Classify(status, Some(body), contentType, false, decode, readTree)
         == Failure(NewApiExceptionWithCause(ProcessingPrefix + DeserializationMessage, status, Some(body),
                                             Some(ProcessingError), DeserializationFailed))
  {
  }

  /** Below 400 the classifier's own exceptions carry one of its two fixed
      codes and a message starting "Unexpected"; only the typed status
      exceptions carry a code taken from the body. */
  lemma OwnExceptionCodes<V>(status: int, body: Option<string>, contentType: ContentType, returnsString: bool,
                             decode: string -> Jackson<V>, readTree: string -> Option<Json>)
    requires status < 400
    requires Classify(status, body, contentType, returnsString, decode, readTree).Failure?
    ensures var e := Classify(status, body, contentType, returnsString, decode, readTree).error;
      && (e.errorCode == Some(InvalidContentType) || e.errorCode == Some(ProcessingError))
      && |e.message| > 0 && e.message[0] == 'U'
  {
    var e := Classify(status, body, contentType, returnsString, decode, readTree).error;
    if !EqualsIgnoreCase(contentType.mimeType, ApplicationJson.mimeType) {
      var m := UnexpectedContentTypePrefix + contentType.ToString();
      assert e.message == m && e.errorCode == Some(InvalidContentType);
      assert m[0] == 'U';
    } else {
      var m := ProcessingPrefix + DeserializationMessage;
      assert e.message == m && e.errorCode == Some(ProcessingError);
      assert m[0] == 'U';
    }
  }

  /** No exception the classifier throws is the "Failed to parse JSON
      response" one, and JSON_PARSE_ERROR appears only when an error body
      names it as its own code. */
  lemma JsonParseErrorUnreachable<V>(resp: Response, returnsString: bool, decode: string -> Jackson<V>,
                                     readTree: string -> Option<Json>)
    ensures var r := ProcessResponse(resp, returnsString, decode, readTree).result;
      r.Failure? ==> r.error.message != ParseFailed
    ensures var r := ProcessResponse(resp, returnsString, decode, readTree).result;
      r.Failure? && r.error.errorCode == Some(JsonParseError) ==> resp.statusLine.code >= 400
  {
    var status := resp.statusLine.code;
    match ReadBody(resp)
    case Failure(message) =>
      var m := ProcessingPrefix + NullableText(message);
      assert m[0] == 'U';
    case Success(body) =>
      var r := Classify(status, body, ResponseContentType(resp), returnsString, decode, readTree);
      if r.Failure? && status < 400 {
        OwnExceptionCodes(status, body, ResponseContentType(resp), returnsString, decode, readTree);
      } else if r.Failure? {
        var m := StatusPrefix + IntToString(status) + ": " + DefaultMessage(status);
        assert r.error.message == m;
        assert m[0] == 'A';
      }
  }
}
