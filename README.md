# api-client request and response core, in Dafny

This project models the part of the itech-framework api-client library that
turns a call on a proxied Java interface into an HTTP request and the response
back into a value or an exception. The library ships two copies of its
`ApiClientInvocationHandler`: one in package `io.github.itech_framework` and an
older one in package `org.itech.framework.fx`. The model covers both:

- **Routing (`invoke`).** Object methods are answered by the io handler only.
  A `CompletableFuture` return type takes the asynchronous path and every
  other return type takes the synchronous one (module `Dispatch`).
- **Request building (`executeRequest`).** The steps run in this order: verb
  annotation, `@Path` extraction and `{name}` substitution, `@Query`
  parameters, `createRequest`, the `@Body` entity, `@Header` and `@Headers`,
  then authentication. Authentication covers Basic, API key, Bearer and
  OAuth2 (modules `Descriptor`, `PathTemplate`, `RequestBuilder` and
  `Pipeline`). The Apache request object is a class whose fields each step
  updates in place.
- **Base-URL resolution.** `resolveBaseUrl` picks the URL, and
  `resolvePlaceholders` rewrites its `${key}` placeholders (module
  `Placeholders`).
- **`TokenManager`.** This is the OAuth2 client-credentials and refresh-token
  cache, a class over a map (module `Tokens`).
- **Response classification (`processResponse`).** Each handler has its own:
  the io one throws the `ApiException` family, the org one throws
  `ApiClientException` (modules `IoResponse`, `OrgResponse` and `Errors`).

Supporting modules:

| module | what it holds |
|---|---|
| `Wrappers` | Option and Result |
| `Text` | the `java.lang.String` operations the handlers use |
| `Json` | the Jackson tree and its `has`, `get` and `asText` |
| `Base64` | UTF-8 and Base64 (section 4 of RFC 4648), used by Basic authentication |
| `Http` | the HTTP values |

The network, the clock, the property store, JSON parsing and JSON
serialization are all parameters of the model. The token endpoint is a
function from the request sent to the reply received. The clock is a
`now: int` in epoch seconds. The properties are a `map<string, string>`.
Jackson's parser and mapper are oracle functions.

## Model

Paths are relative to the repository root. "io handler" and "org handler" below are these two files:

- `src/main/java/io/github/itech_framework/api_client/handlers/ApiClientInvocationHandler.java`
- `src/main/java/org/itech/framework/fx/api_client/handlers/ApiClientInvocationHandler.java`

| member | source | states |
|---|---|---|
| Dispatch.ExactlyFuturesGoAsync | src/main/java/io/github/itech_framework/api_client/handlers/ApiClientInvocationHandler.java:107-117 | Object's own methods are answered directly. Otherwise exactly the calls returning CompletableFuture go asynchronous and decode into the future's type argument. The String shortcut applies to `String` and `CompletableFuture<String>` alike. The org handler routes the same way, but without the Object-method check, in `src/main/java/org/itech/framework/fx/api_client/handlers/ApiClientInvocationHandler.java:56-62`. |
| Dispatch.AsyncTask | src/main/java/io/github/itech_framework/api_client/handlers/ApiClientInvocationHandler.java:130-145 | handleAsync's task. An exception from executeRequest completes the future with a CompletionException wrapping it. With a parameterized future, processResponse's value is the result, and its exception is wrapped the same way. Every failure is a CompletionException. The org handler does the same, in `src/main/java/org/itech/framework/fx/api_client/handlers/ApiClientInvocationHandler.java:75-91`. |
| Dispatch.RawFutureFails | src/main/java/io/github/itech_framework/api_client/handlers/ApiClientInvocationHandler.java:130-145 | For a raw CompletableFuture, executeRequest still runs first, and an exception it throws is what the future completes with, wrapped in a CompletionException. Only once it has returned a response does the ParameterizedType cast fail: the future completes with a CompletionException whose message is the ClassCastException's toString(), and the response is never processed. JVM message text is modelled as absent, so that message is the class name "java.lang.ClassCastException" alone. The org handler does the same, in `src/main/java/org/itech/framework/fx/api_client/handlers/ApiClientInvocationHandler.java:75-91`. |
| Dispatch.UnannotatedFutureFailsOnVerb | src/main/java/io/github/itech_framework/api_client/handlers/ApiClientInvocationHandler.java:130-149 | A future-returning method without a verb annotation completes with a CompletionException wrapping getHttpMethodInfo's IllegalArgumentException "No HTTP method annotation found on method: <name>", raw type or not. |
| Dispatch.Completion | src/main/java/org/itech/framework/fx/api_client/handlers/ApiClientInvocationHandler.java:75-91 | A CompletionException wrapping a cause carries the cause's toString() as its message. |
| Dispatch.HandleObjectMethod | src/main/java/io/github/itech_framework/api_client/handlers/ApiClientInvocationHandler.java:170-177 | toString gives "ApiClientProxy[<interface>]", hashCode gives the identity hash, and equals gives reference identity. Any other name, and only those, is UnsupportedOperationException "Unsupported Object method: <name>". |
| Dispatch.OrgSendsObjectMethodsToBuilder | src/main/java/org/itech/framework/fx/api_client/handlers/ApiClientInvocationHandler.java:56-62 | In the org handler, toString goes down the synchronous path and the builder rejects it with "No HTTP method annotation found on method: toString". The io handler answers it instead. |
| Descriptor.GetHttpMethodInfo | src/main/java/io/github/itech_framework/api_client/handlers/ApiClientInvocationHandler.java:179-192 | The result is the verb and path of an annotation that is present, and no earlier-ranked annotation (GET, POST, PUT, DELETE, OPTION) is present. It fails iff there is no annotation, with IllegalArgumentException naming the method. The org handler makes the same choice, in `src/main/java/org/itech/framework/fx/api_client/handlers/ApiClientInvocationHandler.java:111-124`. |
| Descriptor.FirstVerbWins | src/main/java/io/github/itech_framework/api_client/handlers/ApiClientInvocationHandler.java:179-192 | Adding an annotation of a later-ranked verb never changes the verb or path chosen. |
| Descriptor.ResolveAuth | src/main/java/io/github/itech_framework/api_client/handlers/ApiClientInvocationHandler.java:286-319 | There is no plan iff @Authenticated is on neither the method nor the interface. The credentials applied are of the scheme chosen, method level first. Missing details means neither level declares them. |
| Descriptor.MethodLevelWins | src/main/java/io/github/itech_framework/api_client/handlers/ApiClientInvocationHandler.java:286-319 | A method that names a scheme and carries its details is authenticated with them, whatever the interface declares. |
| Descriptor.DetailsFallBackToInterface | src/main/java/io/github/itech_framework/api_client/handlers/ApiClientInvocationHandler.java:286-319 | For the chosen scheme, the details come from the method if it has them, else from the interface. Otherwise the plan dereferences a missing annotation. The org handler performs the same two lookups, in `src/main/java/org/itech/framework/fx/api_client/handlers/ApiClientInvocationHandler.java:218-245`. |
| PathTemplate.ExtractPathParams | src/main/java/io/github/itech_framework/api_client/handlers/ApiClientInvocationHandler.java:194-204 | The loop over the parameters computes exactly the bindings PathBindings specifies. |
| PathTemplate.PathBindingsMeaning | src/main/java/io/github/itech_framework/api_client/handlers/ApiClientInvocationHandler.java:194-204 | Extraction fails iff some @Path argument is null. Otherwise the keys are exactly the @Path names, and each name maps to the text of the last argument declared under it. The org handler extracts the same way, in `src/main/java/org/itech/framework/fx/api_client/handlers/ApiClientInvocationHandler.java:126-136`. |
| PathTemplate.ReplacePathParams | src/main/java/io/github/itech_framework/api_client/handlers/ApiClientInvocationHandler.java:206-211 | The result is one String.replace per binding along an order that lists every key exactly once, since HashMap order is unspecified; whatever that order, a brace-free template with brace-free bindings comes out with every bound hole filled and every other hole kept. |
| PathTemplate.ReplacePathParamsFillsTemplate | src/main/java/io/github/itech_framework/api_client/handlers/ApiClientInvocationHandler.java:206-211 | Suppose no brace occurs in the literal text, the names or the values. Then, in any iteration order, every bound `{name}` becomes its value, every unbound one stays verbatim, and literal text is kept. |
| PathTemplate.ReplaceOrderMatters | src/main/java/org/itech/framework/fx/api_client/handlers/ApiClientInvocationHandler.java:138-143 | Without that condition the HashMap order shows in the URL: "{{id}}" becomes "x" or "{name}" depending on the order. |
| PathTemplate.ReplaceFillsHole | src/main/java/io/github/itech_framework/api_client/handlers/ApiClientInvocationHandler.java:208-210 | One replace fills exactly the hole it names and passes everything else through. |
| Text.ReplaceAllAbsent | src/main/java/io/github/itech_framework/api_client/handlers/ApiClientInvocationHandler.java:208-210 | String.replace leaves a string without the target unchanged. |
| Text.ReplaceAllSelf | src/main/java/io/github/itech_framework/api_client/handlers/ApiClientInvocationHandler.java:208-210 | Replacing a target by itself is the identity. |
| RequestBuilder.ProcessQueryParams | src/main/java/io/github/itech_framework/api_client/handlers/ApiClientInvocationHandler.java:213-221 | The loop adds exactly QueryPairs, or fails with the NullPointerException of the first null @Query argument. |
| RequestBuilder.QueryPairsMeaning | src/main/java/io/github/itech_framework/api_client/handlers/ApiClientInvocationHandler.java:213-221 | The query fails iff some @Query argument is null. Otherwise each @Query parameter contributes its (name, text) pair, and each pair comes from one. The org handler builds the query the same way, in `src/main/java/org/itech/framework/fx/api_client/handlers/ApiClientInvocationHandler.java:145-153`. |
| RequestBuilder.QueryPairsGrowByAppending | src/main/java/io/github/itech_framework/api_client/handlers/ApiClientInvocationHandler.java:213-221 | The query is built by appending in declaration order: the pairs of a prefix of the parameters are a prefix of the query. |
| RequestBuilder.HttpRequest.constructor | src/main/java/io/github/itech_framework/api_client/handlers/ApiClientInvocationHandler.java:223-232 | A new request has the chosen verb, URL and query, no headers and no entity. |
| RequestBuilder.CreateRequest | src/main/java/io/github/itech_framework/api_client/handlers/ApiClientInvocationHandler.java:223-232 | createRequest yields a fresh request of the chosen verb on the built URI, with no headers and no entity. |
| RequestBuilder.HttpRequest.AddHeader | src/main/java/io/github/itech_framework/api_client/handlers/ApiClientInvocationHandler.java:281-282 | addHeader appends the header and never replaces one. Nothing else changes. |
| RequestBuilder.HttpRequest.SetEntity | src/main/java/io/github/itech_framework/api_client/handlers/ApiClientInvocationHandler.java:234-246 | setEntity is only available on POST and PUT. It sets the entity and changes nothing else. |
| RequestBuilder.HttpRequest.AddQueryParameter | src/main/java/io/github/itech_framework/api_client/handlers/ApiClientInvocationHandler.java:327-339 | The query-parameter API key goes after the pairs already in the query. Nothing else changes. |
| RequestBuilder.FirstBody | src/main/java/io/github/itech_framework/api_client/handlers/ApiClientInvocationHandler.java:234-246 | The index found is a @Body parameter with none before it. It is None iff there is no @Body parameter. |
| RequestBuilder.BodyEntity | src/main/java/io/github/itech_framework/api_client/utils/JsonUtils.java:22-30 | A null body argument fails with IllegalArgumentException "Source string may not be null". A serializer failure is FrameworkException "JSON serialization failed". Otherwise the result is the JSON text with type application/json. |
| RequestBuilder.RequestBodyOnlyFromFirst | src/main/java/io/github/itech_framework/api_client/handlers/ApiClientInvocationHandler.java:234-246 | A body goes only on POST and PUT, only from the first @Body argument, and always as application/json. The arguments after the first one are never read. |
| RequestBuilder.ProcessRequestBody | src/main/java/io/github/itech_framework/api_client/handlers/ApiClientInvocationHandler.java:234-246 | The scan sets exactly the entity RequestBody specifies, or returns its exception. URL, query and headers are unchanged. The org handler attaches the body the same way, in `src/main/java/org/itech/framework/fx/api_client/handlers/ApiClientInvocationHandler.java:166-178`. |
| RequestBuilder.ProcessMethodHeaders | src/main/java/io/github/itech_framework/api_client/handlers/ApiClientInvocationHandler.java:253-258 | The method's @Header annotations are appended in order. |
| RequestBuilder.MapHeaders | src/main/java/io/github/itech_framework/api_client/handlers/ApiClientInvocationHandler.java:278-284 | A header is added iff the map has that entry with a non-null key and value. |
| RequestBuilder.AddHeadersFromMap | src/main/java/io/github/itech_framework/api_client/handlers/ApiClientInvocationHandler.java:278-284 | The map's usable entries are appended in its iteration order. |
| RequestBuilder.ProcessParameterHeaders | src/main/java/io/github/itech_framework/api_client/handlers/ApiClientInvocationHandler.java:260-276 | The entries of every @Headers map are appended. It fails iff a @Headers argument is not a Map (null included), with FrameworkException "@Headers parameter must be a Map<String, String>". |
| RequestBuilder.ParamHeadersMeaning | src/main/java/io/github/itech_framework/api_client/handlers/ApiClientInvocationHandler.java:260-276 | There is no failure iff every @Headers argument is a Map. Every header added is a non-null entry of one of those maps. |
| RequestBuilder.AddHeaders | src/main/java/io/github/itech_framework/api_client/handlers/ApiClientInvocationHandler.java:248-251 | The @Header annotations come first and the @Headers entries after them. Headers are only appended. The org handler adds headers the same way, in `src/main/java/org/itech/framework/fx/api_client/handlers/ApiClientInvocationHandler.java:180-216`. |
| RequestBuilder.BasicHeaderDecodes | src/main/java/io/github/itech_framework/api_client/handlers/ApiClientInvocationHandler.java:321-325 | The Basic Authorization value is "Basic " plus Base64 of the UTF-8 bytes of user:password (section 2 of RFC 7617). For any Dafny string it decodes back to exactly user:password. |
| RequestBuilder.BearerHeader | src/main/java/io/github/itech_framework/api_client/handlers/ApiClientInvocationHandler.java:341-348 | The Authorization value is "Bearer " followed by the token (section 2.1 of RFC 6750). |
| RequestBuilder.Authorize | src/main/java/io/github/itech_framework/api_client/handlers/ApiClientInvocationHandler.java:286-348 | Authentication keeps verb, URL and body. It only appends, and at most one header or query pair. It fails iff the plan fails. |
| RequestBuilder.AuthorizeBySchemes | src/main/java/io/github/itech_framework/api_client/handlers/ApiClientInvocationHandler.java:286-348 | No declaration leaves the request unchanged. A missing details annotation is a NullPointerException. Basic, Bearer and OAuth2 add exactly their Authorization header. A token failure is passed on unchanged. An API key in the header, the annotation's default, is appended as one header with the key's name and value. A query-side API key is appended to the query. The org handler authenticates the same way, in `src/main/java/org/itech/framework/fx/api_client/handlers/ApiClientInvocationHandler.java:218-274`. |
| RequestBuilder.ApplyAuthentication | src/main/java/io/github/itech_framework/api_client/handlers/ApiClientInvocationHandler.java:286-348 | The request becomes what Authorize specifies for the plan. The token cache changes exactly as one getToken call for an OAuth2 plan, and not at all otherwise. |
| Pipeline.BuildRequest | src/main/java/io/github/itech_framework/api_client/handlers/ApiClientInvocationHandler.java:155-165 | The request is what Built specifies: query, then body, then headers, then authentication. The token cache is consulted iff the build reaches OAuth2 authentication. |
| Pipeline.ExecuteRequest | src/main/java/io/github/itech_framework/api_client/handlers/ApiClientInvocationHandler.java:147-168 | A verb failure wins, then a null @Path argument, with the cache untouched. Otherwise the URL is the base URL plus the template rewritten along an enumeration of the bindings, and the request and cache follow Built. The org handler runs the same sequence of steps, in `src/main/java/org/itech/framework/fx/api_client/handlers/ApiClientInvocationHandler.java:93-109`. |
| Pipeline.BuildStepOrder | src/main/java/io/github/itech_framework/api_client/handlers/ApiClientInvocationHandler.java:151-165 | A null @Query argument beats a bad body, and a bad body beats a bad @Headers argument. Without an auth declaration, the built request is the prepared one. |
| Pipeline.QueryPairsNullOnly | src/main/java/io/github/itech_framework/api_client/handlers/ApiClientInvocationHandler.java:213-221 | The query step throws nothing but the null dereference. |
| Pipeline.BuiltShape | src/main/java/io/github/itech_framework/api_client/handlers/ApiClientInvocationHandler.java:147-168 | A finished request keeps verb, URL and the chosen body. The @Query pairs are a prefix of its query, and the @Header then @Headers entries are a prefix of its headers. At most one more entry is added. |
| Placeholders.ResolvePlaceholders | src/main/java/io/github/itech_framework/api_client/handlers/ApiClientInvocationHandler.java:522-535 | The find / appendReplacement / appendTail loop produces exactly Resolve: left to right, each `${key}` becomes the property's value or "", and other text is copied. The org handler rewrites placeholders the same way, in `src/main/java/org/itech/framework/fx/api_client/handlers/ApiClientInvocationHandler.java:353-366`. |
| Placeholders.CloseIsShortest | src/main/java/io/github/itech_framework/api_client/handlers/ApiClientInvocationHandler.java:523 | The reluctant group ends at the first brace that can close it, and there is no match iff no brace can. |
| Placeholders.ResolveSubstitutes | src/main/java/io/github/itech_framework/api_client/handlers/ApiClientInvocationHandler.java:522-535 | In text without "${", a placeholder with a closing brace and no line break is replaced by its property value, or removed when the property is absent. |
| Placeholders.ResolveKeepsPlainText | src/main/java/io/github/itech_framework/api_client/handlers/ApiClientInvocationHandler.java:522-535 | Text without "${" is unchanged. |
| Placeholders.ResolveKeepsUnclosed | src/main/java/io/github/itech_framework/api_client/handlers/ApiClientInvocationHandler.java:522-535 | Text without '}' is unchanged. |
| Placeholders.ShortestMatchWins | src/main/java/io/github/itech_framework/api_client/handlers/ApiClientInvocationHandler.java:523 | "${a}b}" resolves the key "a" and keeps "b}". |
| Placeholders.LineBreakBlocksMatch | src/main/java/io/github/itech_framework/api_client/handlers/ApiClientInvocationHandler.java:523 | A line break inside the braces prevents the match. |
| Placeholders.ResolveBaseUrl | src/main/java/io/github/itech_framework/api_client/handlers/ApiClientInvocationHandler.java:515-520 | A non-empty @ApiClient baseUrl is resolved. An empty one falls back to the `flexi.api.baseUrl` property, or "" when that is absent. The org handler picks the base URL the same way, in `src/main/java/org/itech/framework/fx/api_client/handlers/ApiClientInvocationHandler.java:344-351`. |
| Tokens.NewTokenData | src/main/java/io/github/itech_framework/api_client/auth/TokenManager.java:92-102 | A TokenData exists iff the access token is non-null and non-empty, and it keeps all three fields. Otherwise the result is IllegalArgumentException "Invalid token data". |
| Tokens.CacheKeySeparatesClients | src/main/java/io/github/itech_framework/api_client/auth/TokenManager.java:88-90 | For client ids without '@', two configurations share a cache key iff client id and token URL both agree. |
| Tokens.CacheKeyCollision | src/main/java/io/github/itech_framework/api_client/auth/TokenManager.java:88-90 | With an '@' in a client id, two different configurations share one key, and so one token. |
| Tokens.TokenRequestForm | src/main/java/io/github/itech_framework/api_client/auth/TokenManager.java:55-68 | The form starts with client_id and client_secret. |
| Tokens.TokenRequestFormGrant | src/main/java/io/github/itech_framework/api_client/auth/TokenManager.java:55-68 | The grant is refresh_token, with that token sent, iff the previous entry had a refresh token (section 6 of RFC 6749). Otherwise it is client_credentials (section 4.4.2 of RFC 6749) and no refresh_token is sent. |
| Tokens.Wrap32 | src/main/java/io/github/itech_framework/api_client/auth/TokenManager.java:80 | Java int arithmetic: the result is in int range, equals the exact value when that fits, and is congruent to it modulo 2^32. |
| Tokens.CastString | src/main/java/io/github/itech_framework/api_client/auth/TokenManager.java:73-74 | The cast yields a string iff the field is present and is a JSON string, and that string is the field's value. It yields null iff the field is absent or JSON null. Any other value fails with ClassCastException. |
| Tokens.ExpiresIn | src/main/java/io/github/itech_framework/api_client/auth/TokenManager.java:75 | A missing expires_in is 3600. A present int-range integer is returned as is. JSON null is a NullPointerException. Any value obtained is in int range and is either the default or the field's own value. |
| Tokens.ParseTokenResponse | src/main/java/io/github/itech_framework/api_client/auth/TokenManager.java:70-82 | A body that is not JSON is the "JSON deserialization failed" FrameworkException, and a JSON null is a NullPointerException. A parsed token always has a non-empty access token. |
| Tokens.ParsedFromReply | src/main/java/io/github/itech_framework/api_client/auth/TokenManager.java:70-82 | Every parsed token comes from a JSON object reply. Its access token is the reply's access_token, and its refresh token is the reply's refresh_token (null when absent or JSON null). Its expiration is now plus expires_in - 60 in int arithmetic, with expires_in defaulting to 3600. |
| Tokens.ParsedExpiration | src/main/java/io/github/itech_framework/api_client/auth/TokenManager.java:70-82 | For a reply with a non-empty access_token, whatever its refresh_token: the token expires expires_in - 60 seconds after now (int arithmetic, exact when no overflow), or 3540 seconds after now when expires_in is missing. The stored refresh token is the one the reply carries. A refresh_token that is neither a string nor null fails the cast. |
| Tokens.RefreshToken | src/main/java/io/github/itech_framework/api_client/auth/TokenManager.java:34-53 | Success needs a 2xx reply and gives a valid token. A non-2xx status is FrameworkException "OAuth2 token request failed: <status>", and an IOException is "OAuth2 token request failed". |
| Tokens.CacheHit | src/main/java/io/github/itech_framework/api_client/auth/TokenManager.java:22-32 | A present, unexpired entry is returned with no request and no change. |
| Tokens.CacheMiss | src/main/java/io/github/itech_framework/api_client/auth/TokenManager.java:22-53 | A missing or expired entry sends one request to the token URL, with the refresh grant iff the old entry has a refresh token. On success the new token is stored under the key and returned. |
| Tokens.FailureLeavesCache | src/main/java/io/github/itech_framework/api_client/auth/TokenManager.java:22-32 | A failed fetch leaves the whole cache unchanged. |
| Tokens.OtherKeysUnchanged | src/main/java/io/github/itech_framework/api_client/auth/TokenManager.java:22-32 | Only the entry for this key is added or replaced. |
| Tokens.CachedTokensStayValid | src/main/java/io/github/itech_framework/api_client/auth/TokenManager.java:92-102 | Cached and returned tokens stay non-empty. |
| Tokens.FetchedThenServed | src/main/java/io/github/itech_framework/api_client/auth/TokenManager.java:22-32 | A token just fetched is served from the cache, without a request, until its expiration instant, since a token counts as expired only strictly after that instant. |
| Tokens.TokenManager.constructor | src/main/java/io/github/itech_framework/api_client/auth/TokenManager.java:15 | The cache starts empty. |
| Tokens.TokenManager.GetToken | src/main/java/io/github/itech_framework/api_client/auth/TokenManager.java:22-53 | The result and the new cache are those of GetTokenSpec, and the request log grows by at most the one request sent. It keeps the invariant that no cached token is empty. |
| Errors.NewApiException | src/main/java/io/github/itech_framework/api_client/exceptions/ApiException.java:13-18 | The exception keeps message, status, body and error code, and has no cause. |
| Errors.NewApiExceptionWithCause | src/main/java/io/github/itech_framework/api_client/exceptions/ApiException.java:20-25 | The same fields are kept, and the cause is set. |
| Errors.SubclassesFixOrPassStatus | src/main/java/io/github/itech_framework/api_client/exceptions/BadRequestException.java:9-10 | Each named subclass reports its own status whatever its arguments: BadRequestException 400, UnauthorizedException 401, ForbiddenException 403, NotFoundException 404, ConflictException 409, TooManyRequestsException 429, InternalServerErrorException 500 and ServiceUnavailableException 503. Each does so at lines 9-10 of its own file in `src/main/java/io/github/itech_framework/api_client/exceptions/`. ClientErrorException and ServerErrorException report the status they were given. Only the base class carries a cause. |
| Errors.ApiClientException.ToString | src/main/java/io/github/itech_framework/api_client/exceptions/ApiClientException.java:53-62 | The text is "ApiClientException{message='<message>', statusCode=<code>", then ", reasonPhrase='<reason>'", ", responseBody='<body>'" and ", cause=<cause>", in that order, then '}'. Each segment sits exactly at the stated position, and null shows as "null". |
| Errors.ClientExceptionNoCause | src/main/java/io/github/itech_framework/api_client/exceptions/ApiClientException.java:33-38 | All four fields are kept, and there is no cause. |
| Errors.ClientExceptionNoBody | src/main/java/io/github/itech_framework/api_client/exceptions/ApiClientException.java:41-45 | This is the four-argument form with a null body. |
| Errors.ClientExceptionMinimal | src/main/java/io/github/itech_framework/api_client/exceptions/ApiClientException.java:48-51 | This is the three-argument form with a null reason phrase. |
| Errors.FromResponse | src/main/java/io/github/itech_framework/api_client/exceptions/ApiClientException.java:65-76 | Status code and reason phrase come from the response's status line. Message and body are kept, and there is no cause. |
| IoResponse.DefaultMessage | src/main/java/io/github/itech_framework/api_client/handlers/ApiClientInvocationHandler.java:467-488 | The message is "HTTP Error" iff the status is not one of the eight named ones. Each named status gets its RFC 9110 reason phrase: 400 "Bad Request", 401 "Unauthorized", 403 "Forbidden", 404 "Not Found", 409 "Conflict", 429 "Too Many Requests", 500 "Internal Server Error" and 503 "Service Unavailable". |
| IoResponse.ExtractErrorCode | src/main/java/io/github/itech_framework/api_client/handlers/ApiClientInvocationHandler.java:442-465 | A null, blank or malformed body gives UNKNOWN_ERROR. |
| IoResponse.ErrorCodeIsFirstFound | src/main/java/io/github/itech_framework/api_client/handlers/ApiClientInvocationHandler.java:442-465 | The code is the text of the first of `code`, `errorCode`, `error.code` and `error` present, and UNKNOWN_ERROR when none is. |
| IoResponse.ErrorCodePrecedence | src/main/java/io/github/itech_framework/api_client/handlers/ApiClientInvocationHandler.java:442-465 | A top-level `code` wins. A body that is not a JSON object gives UNKNOWN_ERROR. A string `error` is the code when neither `code` nor `errorCode` is present. |
| IoResponse.FirstFound | src/main/java/io/github/itech_framework/api_client/handlers/ApiClientInvocationHandler.java:449-458 | The node found is reached by some path, and every earlier path leads nowhere. The result is None iff no path leads anywhere. |
| IoResponse.CreateExceptionForStatusCode | src/main/java/io/github/itech_framework/api_client/handlers/ApiClientInvocationHandler.java:408-440 | The exception reports the status and the message "API request failed with status <s>: <phrase>". It keeps the body and the extracted code, with no cause. The class is a named subclass iff the status is named. Otherwise 4xx is ClientErrorException, 500 and up is ServerErrorException, and below 400 is the base class. |
| IoResponse.Classify | src/main/java/io/github/itech_framework/api_client/handlers/ApiClientInvocationHandler.java:364-396 | Every exception thrown after the read carries the response's status and body. |
| IoResponse.ProcessResponse | src/main/java/io/github/itech_framework/api_client/handlers/ApiClientInvocationHandler.java:350-406 | The finally block always consumes the entity and closes the response. Every exception carries the status. A failed read is PROCESSING_ERROR. |
| IoResponse.DecisionOrder | src/main/java/io/github/itech_framework/api_client/handlers/ApiClientInvocationHandler.java:364-387 | From 400 up, the result is the typed exception whatever the body. Below 400, a null or blank body is null. A String return type gets the raw body. A non-JSON content type, compared ignoring case, is INVALID_CONTENT_TYPE. A JSON body is decoded. |
| IoResponse.SuccessMeans | src/main/java/io/github/itech_framework/api_client/handlers/ApiClientInvocationHandler.java:364-387 | A success had status below 400. A decoded value comes only from a non-blank JSON body the decoder accepted, and the raw body only for a String return type. |
| IoResponse.MalformedJsonIsProcessingError | src/main/java/io/github/itech_framework/api_client/handlers/ApiClientInvocationHandler.java:387-396 | A JSON-typed body the decoder rejects is PROCESSING_ERROR "Unexpected error processing response: JSON deserialization failed", with the FrameworkException as cause. JsonUtils wraps every Jackson failure in FrameworkException (`src/main/java/io/github/itech_framework/api_client/utils/JsonUtils.java:42-48`). |
| IoResponse.OwnExceptionCodes | src/main/java/io/github/itech_framework/api_client/handlers/ApiClientInvocationHandler.java:382-396 | Below 400, the handler's own exceptions carry INVALID_CONTENT_TYPE or PROCESSING_ERROR and a message starting with "Unexpected". |
| IoResponse.JsonParseErrorUnreachable | src/main/java/io/github/itech_framework/api_client/handlers/ApiClientInvocationHandler.java:389-390 | The JsonParseException catch is dead: no exception has its message. JSON_PARSE_ERROR appears only as the code an error body names. |
| Text.Trim | src/main/java/io/github/itech_framework/api_client/handlers/ApiClientInvocationHandler.java:368 | `trim().isEmpty()` holds iff every char is at most U+0020, which is IsBlank. |
| OrgResponse.Classify | src/main/java/org/itech/framework/fx/api_client/handlers/ApiClientInvocationHandler.java:293-328 | Only a non-parse decoder failure escapes unwrapped. Every ApiClientException the handler throws carries the body. |
| OrgResponse.ProcessResponse | src/main/java/org/itech/framework/fx/api_client/handlers/ApiClientInvocationHandler.java:276-331 | The finally block consumes the entity and never closes the response. A failed read propagates its IOException. The raw body is never returned. |
| OrgResponse.FailsOutside2xx | src/main/java/org/itech/framework/fx/api_client/handlers/ApiClientInvocationHandler.java:293-299 | "API request failed" is thrown iff the status is outside 200-299, with status line, reason phrase and body. |
| OrgResponse.OnlyEmptyBodyIsNull | src/main/java/org/itech/framework/fx/api_client/handlers/ApiClientInvocationHandler.java:301-317 | For 2xx, null is returned iff the body is null or empty. A non-empty body with a non-JSON type is "Invalid Content-Type" with status and body. |
| OrgResponse.OnlyParseErrorsWrapped | src/main/java/org/itech/framework/fx/api_client/handlers/ApiClientInvocationHandler.java:319-328 | A JsonParseException becomes "Failed to parse JSON response" / "JSON Parsing Error" with the parser's exception as cause. Any other mapping failure escapes. A parsed value is returned. |
| OrgResponse.HandlersDiffer | src/main/java/org/itech/framework/fx/api_client/handlers/ApiClientInvocationHandler.java:293-331 | A 3xx with a blank body is null for the io handler and "API request failed" for the org one. A whitespace-only, non-JSON 2xx body is null for io and an error for org. Only io closes the response. |
| Http.ReadBody | src/main/java/io/github/itech_framework/api_client/handlers/ApiClientInvocationHandler.java:358-362 | A body is read only from an entity holding that text. No entity means a null body. |
| Http.ResponseContentType | src/main/java/io/github/itech_framework/api_client/handlers/ApiClientInvocationHandler.java:378 | Without an entity, the content type is text/plain; charset=ISO-8859-1. |
| Base64.Base64RoundTrip | src/main/java/io/github/itech_framework/api_client/handlers/ApiClientInvocationHandler.java:321-325 | Decoding an encoding gives back the bytes (section 4 of RFC 4648). |
| Base64.Utf8RoundTrip | src/main/java/io/github/itech_framework/api_client/handlers/ApiClientInvocationHandler.java:321-325 | Decoding the UTF-8 encoding of a string gives back the string. |
| Base64.Encode | src/main/java/io/github/itech_framework/api_client/handlers/ApiClientInvocationHandler.java:321-325 | The encoding has 4 characters per started group of 3 bytes. |

## Left out

- Sending the request: HttpClient.execute, TLS, timeouts, redirects and the logging interceptor are not modelled. ExecuteRequest stops at the request handed to the client, and the response is a parameter of ProcessResponse.
- handleSync and handleAsync beyond routing: the executor, the threads and the future itself are not modelled. Dispatch gives the route and, in AsyncTask, the outcome the asynchronous task completes with, given executeRequest's outcome and processResponse as parameters. AsyncTask does not express that, for a raw future, the response executeRequest returned is left unconsumed and unclosed.
- `close()`, `createHttpClient` and the constructor's wiring are left out. They involve the thread pool and client lifecycle.
- Concurrency: TokenManager is `synchronized` over a ConcurrentHashMap. The model runs one call at a time.
- Reflection: annotations, parameter roles and generic return types are given explicitly as values (Descriptor.Endpoint, Dispatch.InvokedMethod).
- System.identityHashCode and the identity comparison are parameters of HandleObjectMethod.
- URIBuilder's parsing and percent-encoding are not modelled. The URL is a string, and the query is a list of pairs appended in order. URISyntaxException and the unreachable default branch of createRequest are left out.
- JSON parsing and serialization are oracle functions: `decode`, `readTree`, `parse` and `serialize`. Jackson itself is not modelled.
- Character sets: EntityUtils.toString is abstracted into the text it produced or the IOException it raised. ContentType.getOrDefault can also throw, for a Content-Type with an unknown charset (UnsupportedCharsetException) or an illegal or malformed header (IllegalCharsetNameException, ParseException). The io handler turns that into PROCESSING_ERROR with the exception as cause, and the org handler lets it escape. The model has no separate path for this: Http.ReadBody can only fail with an IOException, so such a failure is given the IOException class.
- Text.EqualsIgnoreCase: folds ASCII letters only. Java folds the whole of Unicode. This affects only non-ASCII MIME types.
- JVM exception messages (NullPointerException, ClassCastException) are modelled as absent. FrameworkException's getMessage is taken to be its message.
- The org package's JsonUtils, TokenManager and ApiClientException are not part of this model. The org handler is modelled over the io versions of TokenManager and ApiClientException.
- OrgResponse.Classify: its decoder is an assumption. The org package's own JsonUtils is assumed to let Jackson's JsonParseException through unwrapped, which the io JsonUtils does not do, and to propagate other Jackson failures. If the org JsonUtils wraps failures the way the io one does, the JsonParseException catch of the org handler is dead too. A malformed body would then escape as a FrameworkException, which OrgResponse.Propagated(Fault(JsonMappingException, …)) does not express.
- Text.IntToString: assumes a default locale whose digits are ASCII. String.format's %d, used for the status in the io handler's exception message, writes localized digits otherwise.
- HashMap iteration order is a ghost `order` that enumerates the bindings. Results are proved for every order.
- The empty ApiInterceptor hook in executeRequest does nothing and is left out. So is logging.
- Tokens.TokenManager.GetToken: reads the clock once per call and uses that reading for both the expiry test and the new expiration instant.
- The static PropertiesLoader is a `map<string, string>` parameter.
- The AuthType enum is not part of this model. Descriptor.AuthType assumes it has exactly the four constants the authentication switch names (BASIC, API_KEY, BEARER, OAUTH2). A further constant would fall through the switch and leave the request unchanged, which the datatype cannot express.
- Http.ContentType.ToString: prints only the MIME type and charset. HttpCore's ContentType.toString() prints a parsed header's own parameters as sent (for example "text/html; q=0.9"). So the "Unexpected content type: …" message can differ for such headers.
- RequestBuilder.BasicHeaderDecodes: Dafny strings cannot hold an unpaired UTF-16 surrogate. Java's getBytes(UTF_8) turns one into '?', so for such credentials the Java header does not decode back to user:password.
- Tokens.RefreshToken: OkHttp's Request.Builder.url rejects a token URL that is not http or https with an IllegalArgumentException. Only IOException is caught, so that exception escapes getToken with the cache unchanged. TokenReply cannot express this, and the model always sends the request.
