/** The HTTP values the client exchanges: verbs, status lines, content types,
    entities, responses, and the wire request the builder produces. */
module Http {
  import opened Wrappers

  datatype Verb = GET | POST | PUT | DELETE | OPTIONS

  /** A (name, value) pair: a header, a query parameter or a form field. */
  type Pair = (string, string)

  /** Requests of these verbs can carry an entity (Apache's
      HttpEntityEnclosingRequest: HttpPost and HttpPut). */
  predicate EnclosesEntity(v: Verb) {
    v == POST || v == PUT
  }

  /** Status code and reason phrase of a response; the phrase may be null. */
  datatype StatusLine = StatusLine(code: int, reasonPhrase: Option<string>)

  /** A MIME type with its optional charset parameter. */
  datatype ContentType = ContentType(mimeType: string, charset: Option<string>) {
    /** ContentType.toString(): the MIME type, then "; charset=" and the
        charset name when there is one. */
    function ToString(): string {
      mimeType + (if charset.Some? then "; charset=" + charset.value else "")
    }
  }

  /** ContentType.APPLICATION_JSON. */
  const ApplicationJson := ContentType("application/json", Some("UTF-8"))

  /** ContentType.DEFAULT_TEXT, what ContentType.getOrDefault yields for an
      entity that declares no content type. */
  const DefaultText := ContentType("text/plain", Some("ISO-8859-1"))

  /** The outcome of EntityUtils.toString on a response entity: the decoded
      text, or an IOException with its (possibly null) message. */
  datatype BodyRead = Read(text: string) | ReadFailed(message: Option<string>)

  /** A response entity: its content as read, and its declared content type. */
  datatype Entity = Entity(content: BodyRead, contentType: Option<ContentType>)

  datatype Response = Response(statusLine: StatusLine, entity: Option<Entity>)

  /** ContentType.getOrDefault(response.getEntity()): the entity's declared
      type, or DEFAULT_TEXT when there is no entity or it declares none. */
  function ResponseContentType(resp: Response): (ct: ContentType)
    ensures resp.entity.None? ==> ct == DefaultText
  {
    if resp.entity.Some? then resp.entity.value.contentType.GetOr(DefaultText) else DefaultText
  }

  /** The body as EntityUtils.toString reads it: None (a null body) for a
      response without an entity, the IOException's message when reading
      fails. */
  function ReadBody(resp: Response): (r: Result<Option<string>, Option<string>>)
    ensures r.Success? && r.value.Some? ==> resp.entity.Some? && resp.entity.value.content == Read(r.value.value)
    ensures resp.entity.None? ==> r == Success(None)
  {
    match resp.entity
    case None => Success(None)
    case Some(e) =>
      match e.content
      case Read(text) => Success(Some(text))
      case ReadFailed(message) => Failure(message)
  }

  /** A JSON request entity (StringEntity with its content type). */
  datatype RequestEntity = RequestEntity(text: string, contentType: ContentType)

  /** The request as it goes on the wire: verb, the URL without its query,
      the query parameters and headers in the order they were added, and the
      optional entity. */
  datatype WireRequest = WireRequest(
    verb: Verb,
    url: string,
    query: seq<Pair>,
    headers: seq<Pair>,
    body: Option<RequestEntity>)
}
