/**
 * The iOS scheme handler, `HybridWebViewHandler.SchemeHandler`:
 * `GetResponseBytes` answers an `app://0.0.0.0/` request from the proxy
 * handler, the built-in file or the app bundle, else with an empty 404;
 * `StartUrlSchemeTask` hands a 200 to WebKit and does nothing at all for a
 * 404.
 *
 * `NSBundle.MainBundle.ResourcePath` is the parameter `resourcePath`;
 * `File.Exists` followed by `File.ReadAllBytes` is the parameter `files`.
 */
module IosHandler {
  import opened Wrappers
  import opened Text
  import opened PathUtils
  import opened QueryStringHelper
  import opened KnownStaticFileProvider
  import opened Interception
  import ProxyEventArgs

  const Sep: char := '/'

  datatype Env = Env(
    origin: string -> OriginCheck,
    mainFile: string,
    hybridAssetRoot: string,
    resourcePath: string,
    proxyRequestPath: string,
    handler: Handler,
    manifest: string -> Option<Bytes>,
    files: string -> Option<Bytes>)   // None where `File.Exists` is false

  /** The tuple `GetResponseBytes` returns, and which sources it consulted. */
  datatype ResponseData = ResponseData(responseBytes: Bytes, contentType: string, statusCode: int, consulted: seq<Provider>)

  /** What the handler tells WebKit, in order. */
  datatype TaskAction =
    | DidReceiveResponse(statusCode: int, httpVersion: string, headers: map<string, string>)
    | DidReceiveData(data: Bytes)
    | DidFinish

  /** The empty 404 of every request the bundle cannot answer. */
  function NotFound(consulted: seq<Provider>): ResponseData {
    ResponseData([], "", 404, consulted)
  }

  /** The relative path with '\' turned into '/', the main file standing in for the origin itself. */
  function RelativePathOf(env: Env, relative: string): string {
    var relativePath := ReplaceChar(relative, '\\', '/');
    if relativePath == [] then ReplaceChar(env.mainFile, '\\', '/') else relativePath
  }

  /** The content type of a request: "text/html" for the origin itself, else by extension. */
  function ContentTypeOf(relative: string): string {
    ContentTypeForRequest(ReplaceChar(relative, '\\', '/'), {Sep})
  }

  /** The built-in file for a relative path. */
  function BuiltInStream(env: Env, relativePath: string): Option<Bytes> {
    GetKnownResourceStream(relativePath, Sep, env.manifest)
  }

  /** The bundle file under the resource path and the hybrid asset root, if it exists. */
  function BundleFile(env: Env, relativePath: string): Option<Bytes> {
    env.files(Combine(Combine(env.resourcePath, env.hybridAssetRoot, {Sep}, Sep, false), relativePath, {Sep}, Sep, false))
  }

  /** A 200 carrying `body` and `contentType`. */
  predicate Serves(data: ResponseData, body: Bytes, contentType: string) {
    data.statusCode == 200 && data.responseBytes == body && data.contentType == contentType
  }

  /**
   * The lookup chain for a request inside the app origin: the first source
   * with a stream answers, in the order proxy handler (only for the proxy
   * path), built-in file, bundle file; with none of them the empty 404.
   */
  function ServeInOrigin(env: Env, url: string, relative: string): (r: Result<ResponseData, Fault>)
    ensures r.Failure? ==> r.error != UriFormat && RelativePathOf(env, relative) == env.proxyRequestPath
    ensures var path := RelativePathOf(env, relative);
            var eligible := path == env.proxyRequestPath;
            && (ProxyThrows(eligible, url, None, env.handler) ==> r == Failure(ProxyFault(url, None, env.handler)))
            && (ProxyAnswers(eligible, url, None, env.handler) ==>
                  var answer := HandlerAnswer(url, None, env.handler, PlainText);
                  r.Success? && Serves(r.value, answer.stream, answer.contentType))
            && (ProxyDeclines(eligible, url, None, env.handler) ==>
                  && r.Success?
                  && (BuiltInStream(env, path).Some? ==> Serves(r.value, BuiltInStream(env, path).value, ContentTypeOf(relative)))
                  && (BuiltInStream(env, path).None? && BundleFile(env, path).Some? ==>
                        Serves(r.value, BundleFile(env, path).value, ContentTypeOf(relative)))
                  && (BuiltInStream(env, path).None? && BundleFile(env, path).None? ==> r.value == NotFound(r.value.consulted)))
    ensures r.Success? ==>
              && r.value.statusCode in {200, 404}
              && 1 <= |r.value.consulted|
              && InLookupOrder(r.value.consulted)
              && (ProxyHandler in r.value.consulted <==> RelativePathOf(env, relative) == env.proxyRequestPath)
              && (r.value.statusCode == 404 ==>
                    r.value == NotFound(r.value.consulted) && r.value.consulted[|r.value.consulted| - 1] == AssetFile)
  {
    var relativePath := RelativePathOf(env, relative);
    var eligible := relativePath == env.proxyRequestPath;
    match RunProxy(eligible, url, None, env.handler, PlainText)
    case Failure(e) => Failure(e)
    case Success(proxy) =>
      var resolution := Resolve(eligible, proxy, BuiltInStream(env, relativePath), BundleFile(env, relativePath),
                                ContentTypeOf(relative));
      Success(FromResolution(resolution))
  }

  /** The 200 of the first source that answered, else the empty 404. */
  function FromResolution(resolution: Resolution): (r: ResponseData)
    ensures r.consulted == resolution.consulted
    ensures r.statusCode == 200 <==> resolution.hit.Some?
    ensures resolution.hit.None? ==> r == NotFound(resolution.consulted)
    ensures r.statusCode == 404 ==> resolution.hit.None?
    ensures resolution.hit.Some? ==>
              r.responseBytes == resolution.hit.value.body && r.contentType == resolution.hit.value.contentType
  {
    match resolution.hit
    case None => NotFound(resolution.consulted)
    case Some(hit) => ResponseData(hit.body, hit.contentType, 200, resolution.consulted)
  }

  /**
   * `GetResponseBytes`; `url` is the full URL, query included. An empty or
   * malformed URL throws; one outside the app origin is an empty 404.
   */
  function GetResponseBytes(env: Env, url: string): (r: Result<ResponseData, Fault>)
    ensures r.Failure? && r.error == UriFormat <==> CheckOrigin(env.origin, RemovePossibleQueryString(Some(url))).Malformed?
    ensures CheckOrigin(env.origin, RemovePossibleQueryString(Some(url))).Outside? ==> r == Success(NotFound([]))
    ensures r.Success? ==> r.value.statusCode in {200, 404}
    ensures r.Success? && r.value.statusCode == 404 ==> r.value.responseBytes == [] && r.value.contentType == ""
    ensures CheckOrigin(env.origin, RemovePossibleQueryString(Some(url))).Inside? ==>
              r == ServeInOrigin(env, url, CheckOrigin(env.origin, RemovePossibleQueryString(Some(url))).relative)
  {
    match CheckOrigin(env.origin, RemovePossibleQueryString(Some(url)))
    case Malformed => Failure(UriFormat)
    case Outside => Success(NotFound([]))
    case Inside(relative) => ServeInOrigin(env, url, relative)
  }

  /** The headers of a 200: the body's length in decimal, its type, and caching disabled. */
  function ResponseHeaders(data: ResponseData): (r: map<string, string>)
    ensures r.Keys == {"Content-Length", "Content-Type", "Cache-Control"}
    ensures IsDecimalOf(r["Content-Length"], |data.responseBytes|)
    ensures r["Content-Type"] == data.contentType && r["Cache-Control"] == NoCacheValue
  {
    NatToStringValue(|data.responseBytes|);
    map["Content-Length" := NatToString(|data.responseBytes|),
        "Content-Type" := data.contentType,
        "Cache-Control" := NoCacheValue]
  }

  /** What `StartUrlSchemeTask` did: the calls it made on the task, or the exception that ended it. */
  datatype TaskOutcome = Completed(actions: seq<TaskAction>) | Crashed(fault: Fault)

  /**
   * The calls on the task for one `GetResponseBytes` result: for a 200 a
   * response (when the request has a URL), the data and a finish; for any
   * other status nothing at all, so WebKit is never told the task finished.
   */
  function TaskActions(data: ResponseData, hasUrl: bool): (r: seq<TaskAction>)
    ensures DidFinish in r <==> data.statusCode == 200
    ensures data.statusCode != 200 ==> r == []
    ensures data.statusCode == 200 ==>
              && |r| == (if hasUrl then 3 else 2)
              && r[|r| - 2] == DidReceiveData(data.responseBytes)
              && r[|r| - 1] == DidFinish
              && (hasUrl ==> r[0] == DidReceiveResponse(200, "HTTP/1.1", ResponseHeaders(data)))
  {
    if data.statusCode != 200 then []
    else
      var response := if hasUrl then [DidReceiveResponse(data.statusCode, "HTTP/1.1", ResponseHeaders(data))] else [];
      response + [DidReceiveData(data.responseBytes), DidFinish]
  }

  /** `StartUrlSchemeTask`; `requestUrl` is the request's `Url`, `None` for null. */
  function StartUrlSchemeTask(env: Env, requestUrl: Option<string>): (r: TaskOutcome)
    ensures r.Crashed? <==> GetResponseBytes(env, requestUrl.GetOr("")).Failure?
    ensures r.Completed? ==> r.actions == TaskActions(GetResponseBytes(env, requestUrl.GetOr("")).value, requestUrl.Some?)
  {
    match GetResponseBytes(env, requestUrl.GetOr(""))
    case Failure(e) => Crashed(e)
    case Success(data) => Completed(TaskActions(data, requestUrl.Some?))
  }

  /**
   * A null request URL becomes "", which `new Uri` rejects: the handler
   * throws before the null check that guards the response.
   */
  lemma NullUrlThrows(env: Env)
    ensures StartUrlSchemeTask(env, None) == Crashed(UriFormat)
  {
    assert RemovePossibleQueryString(Some("")) == [];
  }

  /** The built-in script is served from the manifest as JavaScript, without consulting the bundle. */
  lemma BuiltInScriptServed(env: Env, url: string)
    requires '?' !in url
    requires CheckOrigin(env.origin, url) == Inside(ScriptPath('/'))
    requires env.proxyRequestPath != ScriptPath('/')
    requires env.manifest(ScriptManifestName).Some?
    ensures GetResponseBytes(env, url)
         == Success(ResponseData(env.manifest(ScriptManifestName).value, "application/javascript", 200, [BuiltInFile]))
  {
    var relative := ScriptPath('/');
    RemoveWithoutQuery(url);
    ScriptPathIsItsOwnRelativePath(env);
    BuiltInScriptLookup(env);
    ScriptContentType();
    var bytes := env.manifest(ScriptManifestName).value;
    assert RunProxy(false, url, None, env.handler, PlainText) == Success(None);
    assert ServeInOrigin(env, url, relative) == Success(ResponseData(bytes, "application/javascript", 200, [BuiltInFile]));
  }

  lemma ScriptPathIsItsOwnRelativePath(env: Env)
    ensures RelativePathOf(env, ScriptPath('/')) == ScriptPath('/')
    ensures ReplaceChar(ScriptPath('/'), '\\', '/') == ScriptPath('/')
  {
    var relative := ScriptPath('/');
    assert forall i :: 0 <= i < |relative| ==> relative[i] != '\\';
  }

  lemma BuiltInScriptLookup(env: Env)
    ensures GetKnownResourceStream(ScriptPath('/'), Sep, env.manifest) == env.manifest(ScriptManifestName)
  {
    ResolvesUnderEitherSlash('/', Sep);
  }

  lemma ScriptContentType()
    ensures ContentTypeForRequest(ScriptPath('/'), {Sep}) == "application/javascript"
  {
    ContentTypeTable(ScriptPath('/'), {Sep});
    assert EndsWith(ScriptPath('/'), ".js") by {
      assert ScriptPath('/')[|ScriptPath('/')| - 3..] == ScriptName[|ScriptName| - 3..];
    }
  }

  /**
   * A proxy request whose handler sets a stream is answered with that stream
   * and the handler's content type ("text/plain" when it cleared it); no
   * other source is consulted.
   */
  lemma ProxyAnswerServed(env: Env, url: string, args: ProxyEventArgs.ProxyEventArgs, after: ProxyEventArgs.ProxyEventArgs)
    requires CheckOrigin(env.origin, RemovePossibleQueryString(Some(url))) == Inside(env.proxyRequestPath)
    requires '\\' !in env.proxyRequestPath && env.proxyRequestPath != []
    requires ProxyEventArgs.Create(url) == Success(args)
    requires env.handler(args) == Success(after) && after.Handled()
    ensures GetResponseBytes(env, url)
         == Success(ResponseData(after.responseStream.value, after.responseContentType.GetOr(PlainText), 200, [ProxyHandler]))
  {
    var p := env.proxyRequestPath;
    assert ReplaceChar(p, '\\', '/') == p;
    assert RelativePathOf(env, p) == p;
    var answer := AdoptProxyAnswer(after, PlainText);
    assert RunProxy(true, url, None, env.handler, PlainText) == Success(answer);
    assert answer.Some?;
  }

  /** An exception from the proxy handler is not caught: the scheme task ends with it and WebKit gets no call. */
  lemma HandlerExceptionCrashesTask(env: Env, url: string, args: ProxyEventArgs.ProxyEventArgs, exception: string)
    requires CheckOrigin(env.origin, RemovePossibleQueryString(Some(url))) == Inside(env.proxyRequestPath)
    requires '\\' !in env.proxyRequestPath && env.proxyRequestPath != []
    requires ProxyEventArgs.Create(url) == Success(args)
    requires env.handler(args) == Failure(exception)
    ensures StartUrlSchemeTask(env, Some(url)) == Crashed(HandlerFault(exception))
  {
    var p := env.proxyRequestPath;
    assert ReplaceChar(p, '\\', '/') == p;
    assert RelativePathOf(env, p) == p;
    assert RunProxy(true, url, None, env.handler, PlainText) == Failure(HandlerFault(exception));
  }
}
