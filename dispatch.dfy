/** invoke: how each handler routes a call on the proxy. The io handler
    answers the methods declared by java.lang.Object itself; both send a
    method returning CompletableFuture down the asynchronous path and every
    other method down the synchronous one. */
module Dispatch {
  import opened Wrappers
  import opened Http
  import opened Errors
  import opened Descriptor

  /** A declared return type, as far as invoke and the response classifier
      look at it. A CompletableFuture carries its type argument, None for the
      raw type. */
  datatype JavaType = StringType | FutureType(typeArgument: Option<JavaType>) | OtherType(name: string)

  const UnsupportedPrefix := "Unsupported Object method: "
  const ProxyPrefix := "ApiClientProxy["

  /** The Method a proxy call arrives with. */
  datatype InvokedMethod = InvokedMethod(endpoint: Endpoint, declaredByObject: bool, returnType: JavaType)

  /** Where a call goes: the Object-method answer, or processResponse with
      the type to decode the body into. On the asynchronous path that type
      is the future's type argument, and a raw CompletableFuture makes the
      ParameterizedType cast fail inside the task. */
  datatype Route = ObjectMethod | Sync(responseType: JavaType) | Async(elementType: Result<JavaType, Fault>)

  /** new CompletionException(cause): its message is the cause's toString(). */
  function Completion(cause: Fault): (f: Fault)
    ensures f.className == CompletionException && f.message == Some(cause.ToString())
  {
    Fault(CompletionException, Some(cause.ToString()))
  }

  /** The org handler's invoke. */
  function RouteOrg(m: InvokedMethod): Route {
    match m.returnType
    case FutureType(argument) =>
      Async(if argument.Some? then Success(argument.value) else Failure(Completion(Fault(ClassCastException, None))))
    case other => Sync(other)
  }

  /** The io handler's invoke: Object's own methods first. */
  function RouteIo(m: InvokedMethod): Route {
    if m.declaredByObject then ObjectMethod else RouteOrg(m)
  }

  /** Whether processResponse sees String as its target type and so takes
      the io handler's raw-body shortcut. */
  predicate ReturnsString(r: Route) {
    (r.Sync? && r.responseType == StringType) || (r.Async? && r.elementType == Success(StringType))
  }

  /** Exactly the calls whose return type is CompletableFuture go
      asynchronous, in both handlers once Object's methods are set aside;
      the future resolves to its type argument, and the String shortcut
      applies to `String` and to `CompletableFuture<String>` alike. */
  lemma ExactlyFuturesGoAsync(m: InvokedMethod)
    ensures RouteOrg(m).Async? <==> m.returnType.FutureType?
    ensures RouteOrg(m).Sync? <==> !m.returnType.FutureType?
    ensures !m.declaredByObject ==> RouteIo(m) == RouteOrg(m)
    ensures m.declaredByObject <==> RouteIo(m).ObjectMethod?
    ensures RouteOrg(m).Sync? ==> RouteOrg(m).responseType == m.returnType
    ensures m.returnType.FutureType? && m.returnType.typeArgument.Some? ==>
      RouteOrg(m) == Async(Success(m.returnType.typeArgument.value))
    ensures ReturnsString(RouteOrg(m)) <==>
      m.returnType == StringType || m.returnType == FutureType(Some(StringType))
  {
  }

  /** The task handleAsync hands to the executor: executeRequest, then the
      cast of the return type to ParameterizedType, then processResponse.
      Any exception on the way completes the future with a
      CompletionException wrapping it. `execute` is executeRequest's outcome
      (the response, or what it threw), and `process` is processResponse on
      that response and the element type. */
  function AsyncTask<Resp, V>(m: InvokedMethod, execute: Result<Resp, Fault>,
                              process: (Resp, JavaType) -> Result<V, Fault>): (r: Result<V, Fault>)
    requires m.returnType.FutureType?
    ensures execute.Failure? ==> r == Failure(Completion(execute.error))
    ensures execute.Success? && m.returnType.typeArgument.Some? ==>
      var processed := process(execute.value, m.returnType.typeArgument.value);
      && (processed.Success? ==> r == processed)
      && (processed.Failure? ==> r == Failure(Completion(processed.error)))
    ensures r.Failure? ==> r.error.className == CompletionException
  {
    match execute
    case Failure(f) => Failure(Completion(f))
    case Success(response) =>
      match RouteOrg(m).elementType
      case Failure(f) => Failure(f)
      case Success(element) =>
        match process(response, element)
        case Success(v) => Success(v)
        case Failure(f) => Failure(Completion(f))
  }

  /** A raw CompletableFuture return type: executeRequest still runs first,
      and whatever it throws is what the future completes with. Only once it
      has returned a response does the ParameterizedType cast fail; the
      future then completes with a CompletionException wrapping the
      ClassCastException, and the response is never processed. */
  lemma RawFutureFails<Resp, V>(m: InvokedMethod, execute: Result<Resp, Fault>,
                                process: (Resp, JavaType) -> Result<V, Fault>)
    requires m.returnType == FutureType(None)
    ensures RouteOrg(m).Async? && RouteOrg(m).elementType.Failure?
    ensures execute.Failure? ==> AsyncTask(m, execute, process) == Failure(Completion(execute.error))
    ensures execute.Success? ==> AsyncTask(m, execute, process) == Failure(Completion(Fault(ClassCastException, None)))
    ensures execute.Success? ==> AsyncTask(m, execute, process).error.message == Some(ClassCastException.Name())
  {
    assert Fault(ClassCastException, None).ToString() == ClassCastException.Name() + "";
    assert ClassCastException.Name() + "" == ClassCastException.Name();
  }

  /** A future-returning method without a verb annotation: executeRequest
      throws getHttpMethodInfo's IllegalArgumentException before anything
      is sent, and the future completes with it, raw type or not. */
  lemma UnannotatedFutureFailsOnVerb<Resp, V>(m: InvokedMethod, execute: Result<Resp, Fault>,
                                              process: (Resp, JavaType) -> Result<V, Fault>)
    requires m.returnType.FutureType?
    requires forall w: Verb :: Annotated(m.endpoint.verbs, w).None?
    requires GetHttpMethodInfo(m.endpoint.name, m.endpoint.verbs).Failure? ==>
      execute == Failure(GetHttpMethodInfo(m.endpoint.name, m.endpoint.verbs).error)
    ensures AsyncTask(m, execute, process)
         == Failure(Completion(Fault(IllegalArgumentException, Some(NoVerbPrefix + m.endpoint.name))))
  {
  }

  /** What handleObjectMethod returns. */
  datatype ObjectAnswer = TextAnswer(text: string) | IntAnswer(hash: int) | BoolAnswer(same: bool)

  /** handleObjectMethod: toString names the interface, hashCode is the
      proxy's identity hash, equals is reference identity with the argument;
      any other name is unsupported. The identity hash and the identity test
      are given, as the JVM computes them. */
  function HandleObjectMethod(interfaceName: string, methodName: string, identityHash: int,
                              argumentIsProxy: bool): (r: Result<ObjectAnswer, Fault>)
    ensures r.Failure? <==> methodName != "toString" && methodName != "hashCode" && methodName != "equals"
    ensures r.Failure? ==> r.error == Fault(UnsupportedOperationException, Some(UnsupportedPrefix + methodName))
    ensures methodName == "toString" ==> r == Success(TextAnswer(ProxyPrefix + interfaceName + "]"))
    ensures methodName == "hashCode" ==> r == Success(IntAnswer(identityHash))
    ensures methodName == "equals" ==> r == Success(BoolAnswer(argumentIsProxy))
  {
    match methodName
    case "toString" => Success(TextAnswer(ProxyPrefix + interfaceName + "]"))
    case "hashCode" => Success(IntAnswer(identityHash))
    case "equals" => Success(BoolAnswer(argumentIsProxy))
    case _ => Failure(Fault(UnsupportedOperationException, Some(UnsupportedPrefix + methodName)))
  }

  /** The org handler has no Object-method check: toString, which carries
      no verb annotation and returns String, goes down the synchronous path
      and the request builder rejects it, where the io handler answers it. */
  lemma OrgSendsObjectMethodsToBuilder(m: InvokedMethod, interfaceName: string)
    requires m.declaredByObject && m.endpoint.name == "toString" && m.returnType == StringType
    requires forall w: Verb :: Annotated(m.endpoint.verbs, w).None?
    ensures RouteOrg(m) == Sync(StringType)
    ensures GetHttpMethodInfo(m.endpoint.name, m.endpoint.verbs)
         == Failure(Fault(IllegalArgumentException, Some(NoVerbPrefix + "toString")))
    ensures RouteIo(m) == ObjectMethod
    ensures HandleObjectMethod(interfaceName, m.endpoint.name, 0, false).Success?
  {
    assert NoVerbPrefix + m.endpoint.name == NoVerbPrefix + "toString";
  }
}
