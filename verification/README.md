# HybridWebView bridge: a Dafny model

HybridWebView is a .NET MAUI control. It hosts a web page from the app's own
assets and lets the page's JavaScript and the app's .NET code call each other.
This project models the deterministic decision logic of that bridge and proves
properties about it:

- **URL and path helpers.**
  - `QueryStringHelper` strips a query string and parses `k=v&k2=v2` into a dictionary.
  - `PathUtils.NormalizePath` rewrites separators.
  - `KnownStaticFileProvider` maps `_hwv/HybridWebView.js` to the library's one built-in script.
- **The request-interception pipelines.** There are five of them:
  - Android: the current client and the older one.
  - iOS.
  - Mac Catalyst.
  - Windows.

  Each one:
  - checks the request against the app origin;
  - computes a relative path and a content type;
  - looks up the body and answers 404 when nothing is found: the older Android client opens the app's asset file directly, and the other four try the proxy handler, then the built-in file, then the app's asset file;
  - builds the response headers.
- **`HybridWebViewObjectHost`.** It holds the object registry, dispatches invoke messages from JavaScript, builds .NET argument arrays, and delivers results back as `ResolveCallback`/`RejectCallback` scripts.
- **The script-side hosts.** There are two revisions of them.
  - The newer `HybridWebViewDotNetHost` has a callback table.
  - Both build message envelopes and choose a transport.
  - The older one also has an AJAX-over-proxy-URL variant.
- **Logic in the sample apps.**
  - The todo store.
  - The `Fibonacci` invoke target.
  - The two sample proxy handlers and the configured proxy `MainFile`.
  - The XYZ→TMS row flip in `MBTileManager.GetTile`.

The modules follow the source files: one Dafny module per file, plus shared helpers.

- `Wrappers` provides `Option`/`Result`.
- `Text` provides the .NET string and integer primitives: `IndexOf`, `Split`, `Replace`, `StartsWith`, `IsNullOrWhiteSpace`, `int.ToString`, and 32/64-bit wrap-around.
- `PercentEncoding` provides `encodeURIComponent` and `Uri.UnescapeDataString`.
- `Interception` holds what the pipelines share: the origin check, the extension table, adopting a proxy answer, and the lookup chain.

Collaborators the source calls but does not show become parameters or fields of an `Env` record:
- `System.Uri` parsing (`IsBaseOf`, `MakeRelativeUri`) is the `origin` function.
- The remaining parameters are `PathUtils.GetRelativePathAndContentType`, `GetMimeType`, `ProxyRequestPath` and `PlanTextMimeType`.
- So are the manifest-resource, asset and bundle lookups, the proxy event handler, JSON (de)serialisation, reflection's `Invoke`, `fetch`, and the SQLite query.

`null` is `None`. A thrown exception is a `Failure` or an outcome constructor named for it.

## Model

| member | source | states |
|---|---|---|
| QueryStringHelper.RemovePossibleQueryString | HybridWebView/QueryStringHelper.cs:5-15 | null or "" gives ""; the result is a prefix of the URL with no '?', and it stops exactly at the first '?' when shorter |
| QueryStringHelper.RemoveWithoutQuery | HybridWebView/QueryStringHelper.cs:11-13 | a URL without '?' comes back unchanged |
| QueryStringHelper.RemoveIdempotent | HybridWebView/QueryStringHelper.cs:11-14 | stripping the query twice is stripping it once |
| QueryStringHelper.QueryOf | HybridWebView/QueryStringHelper.cs:30 | the text after the first '?' is exactly what follows the stripped URL and the '?'; with no '?' it is the whole URL |
| QueryStringHelper.ParsePairsKeys | HybridWebView/QueryStringHelper.cs:33-36 | a successful parse has exactly the pieces' '='-prefixes as keys |
| QueryStringHelper.ParsePairsValues | HybridWebView/QueryStringHelper.cs:35-36 | each piece's key maps to its unescaped second '='-segment, and later segments are dropped |
| QueryStringHelper.ParsePairsSucceedsIff | HybridWebView/QueryStringHelper.cs:35-36 | parsing succeeds exactly when every piece has '=' and no key repeats |
| QueryStringHelper.ParsePairsFailure | HybridWebView/QueryStringHelper.cs:35-36 | a missing-value failure names a piece without '=', and a duplicate-key failure names a key of the input |
| QueryStringHelper.GetKeyValuePairs | HybridWebView/QueryStringHelper.cs:25-41 | a null or empty URL, or an empty or whitespace query, gives the empty dictionary |
| QueryStringHelper.GetKeyValuePairsSpec | HybridWebView/QueryStringHelper.cs:30-36 | for a non-blank query: success iff the '&'-pieces are well formed; the keys and values are those of the pieces |
| QueryStringHelper.NoQuestionMarkParsesWholeUrl | HybridWebView/QueryStringHelper.cs:30 | without '?', `IndexOf` gives -1 and the whole URL is parsed as the query |
| QueryStringHelper.DuplicateKeyFails | HybridWebView/QueryStringHelper.cs:36 | a repeated key makes the parse fail (`ToDictionary` throws) rather than overwrite |
| QueryStringHelper.PieceWithoutValueFails | HybridWebView/QueryStringHelper.cs:35-36 | a piece with no '=' fails with an index error naming that piece |
| PathUtils.NormalizePath | HybridWebView/PathUtils.cs:5-8 | same length; every '\\' and '/' becomes the separator, and every other character is kept |
| PathUtils.NormalizeLeavesOnlySeparator | HybridWebView/PathUtils.cs:5-8 | the only slash left in a normalized path is the separator |
| PathUtils.NormalizeIdempotent | HybridWebView/PathUtils.cs:5-8 | normalizing twice is normalizing once |
| PathUtils.NormalizeIgnoresSlashKind | HybridWebView/PathUtils.cs:5-8 | paths that differ only in which slash they use normalize to the same text |
| PathUtils.ExtensionOfSuffix | HybridWebView/Platforms/Android/HybridWebViewClient.cs:31 | a path ending in '.' plus a dot- and separator-free tail has that tail as its extension |
| PathUtils.ExtensionOfTrailingDot | HybridWebView/Platforms/Android/HybridWebViewClient.cs:31 | a path ending in '.' has no extension |
| PathUtils.FileNameAfterSeparator | MauiCSharpInteropWebView/LoadFromFileSystemSample.xaml.cs:56 | a separator-free name after a separator, or at the start, is the file name |
| PathUtils.CombineKeepsFileName | MauiCSharpInteropWebView/LoadFromFileSystemSample.xaml.cs:56 | joining a directory with a bare, unrooted file name keeps that file name |
| KnownStaticFileProvider.KnownResourceName | HybridWebView/KnownStaticFileProvider.cs:11-26 | a manifest name is asked for iff the normalized path is exactly the "_hwv"+separator prefix followed by "HybridWebView.js", and the name asked for is "HybridWebView.KnownStaticFiles.HybridWebView.js" |
| KnownStaticFileProvider.GetKnownResourceStream | HybridWebView/KnownStaticFileProvider.cs:11-27 | null without a known name; otherwise whatever the manifest holds for the script |
| KnownStaticFileProvider.ResolvesUnderEitherSlash | HybridWebView/KnownStaticFileProvider.cs:13-26 | "_hwv", either slash, then the script name resolves to the script's manifest resource |
| KnownStaticFileProvider.EitherSlashResolves | HybridWebView/KnownStaticFileProvider.cs:13 | "_hwv/HybridWebView.js" and "_hwv\\HybridWebView.js" resolve to the same resource |
| KnownStaticFileProvider.NestedPathNotServed | HybridWebView/KnownStaticFileProvider.cs:19-24 | a nested path such as "_hwv/js/HybridWebView.js" is not served |
| ProxyEventArgs.Create | HybridWebView/HybridWebViewProxyEventArgs.cs:12-16 | construction fails exactly when query parsing fails; otherwise the full URL, the parsed query, content type "text/plain", no stream and no custom headers (not handled) |
| ProxyEventArgs.CreateWithContentType | HybridWebView/HybridWebViewProxyEventArgs.cs:23-28 | as above, but with the given content type |
| Interception.CheckOrigin | HybridWebView/Platforms/MacCatalyst/HybridWebViewHandler.MacCatalyst.cs:122 | an empty URL is malformed (`new Uri("")` throws); any other URL is judged by the origin |
| Interception.ContentTypeTable | HybridWebView/Platforms/Android/HybridWebViewClient.cs:31-38 | ".htm"/".html" give text/html, ".js" application/javascript, ".css" text/css; another case or no extension gives text/plain |
| Interception.AdoptProxyAnswer | HybridWebView/Platforms/Android/AndroidHybridWebViewClient.cs:40-45 | an answer is adopted iff the handler set a stream; a null content type falls back to plain text, and custom headers are carried along |
| Interception.Resolve | HybridWebView/Platforms/Android/AndroidHybridWebViewClient.cs:33-57 | the sources are tried in the order proxy, built-in file, asset; the proxy only when eligible; the first hit wins; a miss ends at the asset; only a proxy hit carries custom headers |
| Interception.RunProxy | HybridWebView/Platforms/Android/AndroidHybridWebViewClient.cs:33-46 | the proxy step hands the request on iff it is not for the proxy path or the handler set no stream; when the handler set one, its adopted answer is the result; an unparsable query or the handler's exception escapes; a query failure happens exactly when the query does not parse |
| Interception.ProxyOutcomesPartition | HybridWebView/Platforms/Android/AndroidHybridWebViewClient.cs:33-46 | the proxy step declines, answers or throws, and exactly one of the three |
| AndroidHybridWebViewClient.GetHeaders | HybridWebView/Platforms/Android/AndroidHybridWebViewClient.cs:94-117 | Content-Type is always the resolved type; every other custom header is copied, except Content-Length |
| AndroidHybridWebViewClient.PackageFileIgnoresSlashKind | HybridWebView/Platforms/Android/AndroidHybridWebViewClient.cs:80-92 | the asset lookup does not care which slash a path uses |
| AndroidHybridWebViewClient.NotFoundResponse | HybridWebView/Platforms/Android/AndroidHybridWebViewClient.cs:59-66 | the 404 is plain text and its only header is Content-Type: text/plain |
| AndroidHybridWebViewClient.ServeInOrigin | HybridWebView/Platforms/Android/AndroidHybridWebViewClient.cs:27-72 | a proxy answer is served 200 with its stream, type and custom headers; otherwise a built-in file, else a package asset, is served 200 with its bytes and the path's type; with neither the 404 "text/plain" response; the handler's or the query's exception escapes; the proxy is consulted iff the path is the non-empty proxy path |
| AndroidHybridWebViewClient.ShouldInterceptRequest | HybridWebView/Platforms/Android/AndroidHybridWebViewClient.cs:18-78 | delegates iff the URL is null, empty or outside the origin; throws `UriFormat` iff it is malformed; a URL under the origin gets the lookup chain's answer |
| AndroidLegacyClient.GetHeaders | HybridWebView/Platforms/Android/HybridWebViewClient.cs:86-89 | the header map has exactly one entry, Content-Type |
| AndroidLegacyClient.LegacyRelativePath | HybridWebView/Platforms/Android/HybridWebViewClient.cs:21 | the relative path keeps its length and has no '/' left |
| AndroidLegacyClient.ShouldInterceptRequest | HybridWebView/Platforms/Android/HybridWebViewClient.cs:17-63 | delegates iff the URL is outside the origin and throws iff it is malformed; otherwise a missing asset gives the 404 and a found one gives 200 with the extension-table type |
| AndroidLegacyClient.ShouldOverrideUrlLoading | HybridWebView/Platforms/Android/HybridWebViewClient.cs:91-94 | every navigation is overridden |
| AndroidLegacyClient.LegacyAssetPathIsForwardSlashPath | HybridWebView/Platforms/Android/HybridWebViewClient.cs:21-67 | after normalization, the '\\'-rewritten asset path opens the same asset as the unrewritten one |
| IosHandler.ServeInOrigin | HybridWebView/Platforms/iOS/HybridWebViewHandler.iOS.cs:105-164 | a proxy answer is served 200 with its stream and type; otherwise the built-in file, else the bundle file, is served 200 with its bytes and the extension's type; with neither the empty 404 after the bundle lookup; only the proxy step can throw, and it is consulted iff the path is the proxy path |
| IosHandler.FromResolution | HybridWebView/Platforms/iOS/HybridWebViewHandler.iOS.cs:149-164 | 200 with the hit's bytes and type iff a source hit, else the empty 404 |
| IosHandler.GetResponseBytes | HybridWebView/Platforms/iOS/HybridWebViewHandler.iOS.cs:96-165 | throws `UriFormat` iff the stripped URL is malformed; a URL outside the origin gets the empty 404; one inside gets the lookup chain's answer for its relative path |
| IosHandler.ResponseHeaders | HybridWebView/Platforms/iOS/HybridWebViewHandler.iOS.cs:78-83 | exactly Content-Length (the byte count in decimal), Content-Type, and the no-cache Cache-Control |
| IosHandler.TaskActions | HybridWebView/Platforms/iOS/HybridWebViewHandler.iOS.cs:76-93 | nothing is sent unless the status is 200; then the response (only with a URL), the data, then finish |
| IosHandler.StartUrlSchemeTask | HybridWebView/Platforms/iOS/HybridWebViewHandler.iOS.cs:70-94 | a null URL becomes ""; the task crashes iff the lookup throws, else it performs the actions for that lookup's answer |
| IosHandler.NullUrlThrows | HybridWebView/Platforms/iOS/HybridWebViewHandler.iOS.cs:72-103 | a task without a URL makes `new Uri("")` throw |
| IosHandler.BuiltInScriptServed | HybridWebView/Platforms/iOS/HybridWebViewHandler.iOS.cs:118-153 | a request for `_hwv/HybridWebView.js` is answered 200 from the built-in script as application/javascript |
| IosHandler.ProxyAnswerServed | HybridWebView/Platforms/iOS/HybridWebViewHandler.iOS.cs:131-153 | a handled proxy request is answered 200 with the handler's stream and content type, after consulting the proxy alone |
| IosHandler.HandlerExceptionCrashesTask | HybridWebView/Platforms/iOS/HybridWebViewHandler.iOS.cs:131-135 | an exception from the proxy handler ends the scheme task, with no call on it |
| MacCatalystHandler.FromResolution | HybridWebView/Platforms/MacCatalyst/HybridWebViewHandler.MacCatalyst.cs:149-165 | 200 with the hit's bytes, type and custom headers iff a source hit, else the empty 404 |
| MacCatalystHandler.ServeInOrigin | HybridWebView/Platforms/MacCatalyst/HybridWebViewHandler.MacCatalyst.cs:124-162 | a proxy answer is served 200 with its stream, type and custom headers; otherwise the built-in file, else the bundle file, is served 200 with its bytes, the computed type and no custom headers; with neither the empty 404; only the proxy step can throw, and it is consulted iff the path is the proxy path |
| MacCatalystHandler.GetResponseBytes | HybridWebView/Platforms/MacCatalyst/HybridWebViewHandler.MacCatalyst.cs:115-166 | an empty URL or one outside the origin gets the empty 404; throws `UriFormat` iff a non-empty stripped URL is malformed; one inside gets the lookup chain's answer |
| MacCatalystHandler.CopiedCustomHeaders | HybridWebView/Platforms/MacCatalyst/HybridWebViewHandler.MacCatalyst.cs:84-94 | exactly the custom headers other than Content-Length and Content-Type |
| MacCatalystHandler.BaseHeaders | HybridWebView/Platforms/MacCatalyst/HybridWebViewHandler.MacCatalyst.cs:81-94 | Content-Length is the byte count and Content-Type the computed type; every other entry is a copied custom header |
| MacCatalystHandler.ResponseHeadersAsWritten | HybridWebView/Platforms/MacCatalyst/HybridWebViewHandler.MacCatalyst.cs:81-101 | the headers as written: Content-Length, Content-Type and the copied custom headers, with the forced no-cache Cache-Control present iff the custom headers are null or already contain Cache-Control |
| MacCatalystHandler.CachingLeftOnAsWritten | HybridWebView/Platforms/MacCatalyst/HybridWebViewHandler.MacCatalyst.cs:97 | a proxy answer with custom headers that do not mention caching gets no Cache-Control at all |
| MacCatalystHandler.CustomCacheControlLostAsWritten | HybridWebView/Platforms/MacCatalyst/HybridWebViewHandler.MacCatalyst.cs:97-100 | a proxy answer's own Cache-Control is replaced by no-cache |
| MacCatalystHandler.ResponseHeaders | HybridWebView/Platforms/MacCatalyst/HybridWebViewHandler.MacCatalyst.cs:81-101 | the corrected headers: the custom Cache-Control when given, else no-cache; Content-Length and Content-Type as computed; other custom headers copied |
| MacCatalystHandler.HeadersAgreeWithoutCustomHeaders | HybridWebView/Platforms/MacCatalyst/HybridWebViewHandler.MacCatalyst.cs:96-101 | without custom headers the headers as written and the corrected ones are the same |
| MacCatalystHandler.TaskActions | HybridWebView/Platforms/MacCatalyst/HybridWebViewHandler.MacCatalyst.cs:77-112 | nothing is sent unless the status is 200; then the response with the headers as written (only with a URL), the data, then finish |
| MacCatalystHandler.StartUrlSchemeTask | HybridWebView/Platforms/MacCatalyst/HybridWebViewHandler.MacCatalyst.cs:71-113 | a null URL becomes ""; the task crashes iff the lookup throws, else it performs the actions for that lookup's answer |
| MacCatalystHandler.TaskLeavesCachingOnAsWritten | HybridWebView/Platforms/MacCatalyst/HybridWebViewHandler.MacCatalyst.cs:97-106 | a 200 with custom headers {"X-Request-Id": "1"} reaches WebKit without any Cache-Control |
| MacCatalystHandler.NullUrlGetsNoAnswer | HybridWebView/Platforms/MacCatalyst/HybridWebViewHandler.MacCatalyst.cs:73-165 | a task without a URL gets the 404 and so no call at all |
| WindowsWebView.HeaderStringLines | HybridWebView/Platforms/Windows/HybridWebView.Windows.cs:138-140 | the header string is exactly the Content-Type line and the Content-Length line |
| WindowsWebView.NotFoundResponse | HybridWebView/Platforms/Windows/HybridWebView.Windows.cs:102-111 | no content, status 404, headers text/plain with the length 24 of "Resource not found (404)" |
| WindowsWebView.OkResponse | HybridWebView/Platforms/Windows/HybridWebView.Windows.cs:112-120 | status 200 with the body as content; for a body shorter than 2^31 bytes, the headers carry its type and length |
| WindowsWebView.FromResolution | HybridWebView/Platforms/Windows/HybridWebView.Windows.cs:102-120 | 200 with the hit's body and type iff a source hit, else the 404 |
| WindowsWebView.ServeInOrigin | HybridWebView/Platforms/Windows/HybridWebView.Windows.cs:54-120 | a proxy answer is served 200 with its stream and type; otherwise the built-in file, else the package asset, is served 200 with its bytes and the extension's type; with neither the 404; only the proxy step can throw, and it is consulted iff the '\\'-separated path is the proxy path |
| WindowsWebView.WebResourceRequested | HybridWebView/Platforms/Windows/HybridWebView.Windows.cs:45-126 | throws `UriFormat` iff the stripped URI is malformed; leaves the response unset iff it is outside the origin; otherwise the lookup chain's answer for its relative path |
| WindowsWebView.SlashedProxyPathNeverMatches | HybridWebView/Platforms/Windows/HybridWebView.Windows.cs:54-77 | a proxy path containing '/' can never match, because the relative path has its '/' rewritten first |
| WindowsWebView.ProxyAnswerServed | HybridWebView/Platforms/Windows/HybridWebView.Windows.cs:77-120 | a handled proxy request is answered 200 with the handler's stream and type, after consulting the proxy alone |
| HybridWebViewObjectHost.AddObject | HybridWebView/HybridWebViewObjectHost.cs:37-40 | true iff the name was absent; then the object is inserted, otherwise the registry is unchanged; other entries are untouched |
| HybridWebViewObjectHost.RemoveObject | HybridWebView/HybridWebViewObjectHost.cs:42-45 | true iff the name was present; afterwards it is absent and other entries are untouched |
| HybridWebViewObjectHost.AddThenRemove | HybridWebView/HybridWebViewObjectHost.cs:37-45 | removing a freshly added name succeeds and gives the registry back |
| HybridWebViewObjectHost.AddTakenIsNoOp | HybridWebView/HybridWebViewObjectHost.cs:37-40 | adding under a taken name returns false and changes nothing |
| HybridWebViewObjectHost.GetMethod | HybridWebView/HybridWebViewObjectHost.cs:63-70 | no method iff none has that name; a found method is the only one with that name; two with the name are ambiguous |
| HybridWebViewObjectHost.DecodeAll | HybridWebView/HybridWebViewObjectHost.cs:120-135 | succeeds iff every value deserializes to its parameter type, giving each decoded value in order; otherwise it fails with the first failure |
| HybridWebViewObjectHost.GetMethodParams | HybridWebView/HybridWebViewObjectHost.cs:99-140 | null args iff there are no parameters and no values; the zero-parameter and params-array errors; an argument array of the declared size, decoding the values and padding with Missing; too many values or a bad value fails |
| HybridWebViewObjectHost.TooManyValuesFail | HybridWebView/HybridWebViewObjectHost.cs:127-134 | more values than parameters runs off the argument array (index out of range) |
| HybridWebViewObjectHost.AfterHook | HybridWebView/HybridWebViewObjectHost.cs:50-54 | the resolve hook is raised iff the class is absent and a handler is attached; its exception escapes; otherwise the registry is the one the handler left, or unchanged when not raised |
| HybridWebViewObjectHost.CallMethod | HybridWebView/HybridWebViewObjectHost.cs:72-96 | an argument error rejects with its text; once the arguments are built, the method is called with them: an exception from the call rejects with its text, a Task or ValueTask return is deferred with that task, and a plain return resolves with its serialization, or rejects with the serializer's exception |
| HybridWebViewObjectHost.InvokeDotNetMethod | HybridWebView/HybridWebViewObjectHost.cs:47-97 | a null class name, the hook's exception, a null method name of a present class and an ambiguous method escape, and nothing else does; an unknown class rejects with "Invalid class name X." and an unknown method with "Invalid method X.M."; a unique method is called through `CallMethod`; the reply carries the callback id |
| HybridWebViewObjectHost.RegisteredMethodIsCalled | HybridWebView/HybridWebViewObjectHost.cs:50-76 | a registered class with exactly one method of the name gets that method called, with no hook and no registry change |
| HybridWebViewObjectHost.HookRegisteredClassIsFound | HybridWebView/HybridWebViewObjectHost.cs:50-76 | a missing class that the ResolveObject handler adds is dispatched to in the handler's registry |
| HybridWebViewObjectHost.ResolveTask | HybridWebView/HybridWebViewObjectHost.cs:142-154 | a faulted task sends nothing; otherwise it resolves with the serialized Result for a generic task and null for a plain one |
| HybridWebViewObjectHost.ScriptsNow | HybridWebView/HybridWebViewObjectHost.cs:78-171 | a dispatch that replies runs exactly one script unless a task is pending: the resolve or reject script as written, with the JSON or message pasted in unescaped |
| HybridWebViewObjectHost.RejectScriptNowCarriesPlainMessage | HybridWebView/HybridWebViewObjectHost.cs:169-171 | for a message without quotes, backslashes or line breaks, the reject script run hands exactly that message to the script side |
| HybridWebViewObjectHost.ReadEscapeRoundTrip | HybridWebView/HybridWebViewObjectHost.cs:157-179 | an escaped text inside single quotes reads back as exactly that text |
| HybridWebViewObjectHost.RejectScriptCarriesMessage | HybridWebView/HybridWebViewObjectHost.cs:169-179 | the corrected reject script's literal denotes exactly the message |
| HybridWebViewObjectHost.ResolveScriptCarriesJson | HybridWebView/HybridWebViewObjectHost.cs:157-167 | the corrected resolve script's literal denotes exactly the JSON |
| HybridWebViewObjectHost.RejectScriptsAgreeOnPlainText | HybridWebView/HybridWebViewObjectHost.cs:171 | for text without quotes, backslashes or line breaks the corrected script is the script as written |
| HybridWebViewObjectHost.QuoteInClassNameBreaksScriptAsWritten | HybridWebView/HybridWebViewObjectHost.cs:169-179 | as written, class name "a'b" ends the literal early, so the rest of the message becomes code |
| HybridWebViewObjectHost.EscapedJsonAlteredAsWritten | HybridWebView/HybridWebViewObjectHost.cs:159 | as written, a JSON string holding "\\n" reaches JavaScript with a real line break instead |
| ScriptBridge.Get | MauiCSharpInteropWebView/Resources/Raw/hybrid_root/js/HybridWebView.js:32-36 | a property read gives undefined on a non-object or a missing key, and otherwise the value of the key's first field |
| ScriptBridge.ChooseTransport | MauiCSharpInteropWebView/Resources/Raw/hybrid_root/js/HybridWebView.js:29-44 | chrome.webview if present, else the webkit webwindowinterop handler, else the Android host: the three cases are exclusive and cover all windows |
| ScriptBridge.SendMessageToDotNet | HybridWebView/KnownStaticFiles/HybridWebView.js:66-81 | the envelope keeps the type and content and goes out on the preferred transport |
| ScriptBridge.SendRawMessageToDotNet | MauiCSharpInteropWebView/Resources/Raw/hybrid_root/js/HybridWebView.js:11-13 | sends type 0 with the message unchanged, on the preferred transport; the built-in script's copy does the same |
| ScriptBridge.StringifyEach | MauiCSharpInteropWebView/Resources/Raw/hybrid_root/js/HybridWebView.js:20 | every parameter is JSON-encoded on its own, in order |
| DotNetHostScript.InitialValid | MauiCSharpInteropWebView/Resources/Raw/hybrid_root/js/HybridWebView.js:5-8 | the host starts with an empty table and next id 1 |
| DotNetHostScript.CreateCallback | MauiCSharpInteropWebView/Resources/Raw/hybrid_root/js/HybridWebView.js:76-88 | returns the next id, which is fresh; adds exactly that pending entry and advances the counter |
| DotNetHostScript.ResolveCallback | MauiCSharpInteropWebView/Resources/Raw/hybrid_root/js/HybridWebView.js:59-66 | an unknown id is ignored; a known id whose message parses settles with the parsed value, and one whose message does not parse throws the parse error; entries are never removed |
| DotNetHostScript.RejectCallback | MauiCSharpInteropWebView/Resources/Raw/hybrid_root/js/HybridWebView.js:68-74 | an unknown id is ignored; a pending one is resolved, not rejected, with the raw message; nothing else changes |
| DotNetHostScript.ParamList | MauiCSharpInteropWebView/Resources/Raw/hybrid_root/js/HybridWebView.js:15-20 | undefined becomes [], an array is kept, a truthy value is wrapped; a falsy non-undefined value cannot be mapped |
| DotNetHostScript.SendInvokeMessageToDotNet | MauiCSharpInteropWebView/Resources/Raw/hybrid_root/js/HybridWebView.js:15-27 | throws iff the parameters cannot be listed; otherwise creates a fresh callback and sends type 1 with the class, method, that id and the stringified parameters |
| DotNetHostScript.ProxyCallSendsArguments | MauiCSharpInteropWebView/Resources/Raw/hybrid_root/js/HybridWebView.js:46-57 | calling a method on a proxy sends that method's name and each argument, stringified, in order |
| DotNetHostScript.Step | MauiCSharpInteropWebView/Resources/Raw/hybrid_root/js/HybridWebView.js:11-88 | one call keeps the host valid, posts at most one message, and never lowers the counter or drops an entry |
| DotNetHostScript.Run | MauiCSharpInteropWebView/Resources/Raw/hybrid_root/js/HybridWebView.js:11-88 | any sequence of calls keeps the host valid |
| DotNetHostScript.StepInvokeIds | MauiCSharpInteropWebView/Resources/Raw/hybrid_root/js/HybridWebView.js:79 | an invoke uses the current counter and advances it by one; every other call leaves it alone |
| DotNetHostScript.RunIssuesIncreasingIds | MauiCSharpInteropWebView/Resources/Raw/hybrid_root/js/HybridWebView.js:5-88 | the ids sent by any run are strictly increasing, lie in the range the counter passed over, and all stay in the table |
| DotNetHostScript.SettledStaysSettled | MauiCSharpInteropWebView/Resources/Raw/hybrid_root/js/HybridWebView.js:59-74 | a settled promise is not changed by a later resolve or reject |
| DotNetHostScript.RejectFulfilsWithMessage | MauiCSharpInteropWebView/Resources/Raw/hybrid_root/js/HybridWebView.js:68-74 | rejecting a fresh invoke's callback fulfils its promise with the message |
| StaticScript.StringifiedParams | HybridWebView/KnownStaticFiles/HybridWebView.js:9-16 | undefined stays unset; an array is stringified element by element; another value becomes one stringified element |
| StaticScript.CallerArrayAfter | HybridWebView/KnownStaticFiles/HybridWebView.js:13-15 | a caller's array is rewritten in place to its stringified elements; any other value is untouched |
| StaticScript.SendInvokeMessageToDotNet | HybridWebView/KnownStaticFiles/HybridWebView.js:8-19 | sends type 1 with the method name and no class or callback id; the parameters are unset iff undefined, else the JSON text of each element (or of the one non-array value) |
| StaticScript.AsyncBody | HybridWebView/KnownStaticFiles/HybridWebView.js:22-38 | ParamValues is in the body iff there is at least one parameter, and then it holds them stringified |
| StaticScript.RequestUrl | HybridWebView/KnownStaticFiles/HybridWebView.js:44 | the URL is the proxy base followed by text with no '?', '&' or '=' |
| StaticScript.RequestUrlRoundTrip | HybridWebView/KnownStaticFiles/HybridWebView.js:44 | the .NET query parser reads the request URL back as exactly {"__ajax": message} for an ASCII message |
| StaticScript.AsyncResult | HybridWebView/KnownStaticFiles/HybridWebView.js:42-63 | an error or a falsy response gives null; IsJson gives the parsed Result (null if parsing throws); otherwise the raw Result |
| StaticScript.AnswerShapes | HybridWebView/KnownStaticFiles/HybridWebView.js:54-60 | a JSON answer yields the parsed value and a plain answer yields its Result |
| Fibonacci.Fibonacci | ExampleWrappedHybridWebViewLibrary/MyCustomControl.cs:104-117 | 0 for n = 0, 1 for every other n below 2, and F(n) wrapped to 32 bits for n ≥ 1 |
| Fibonacci.ExactUpTo46 | MauiCSharpInteropWebView/LoadFromFileSystemSample.xaml.cs:96-109 | the wrapped result is exact up to n = 46, and F(n) no longer fits in 32 bits from n = 47 |
| Fibonacci.FibMonotone | MauiCSharpInteropWebView/LoadFromFileSystemSample.xaml.cs:100-107 | the Fibonacci numbers never decrease |
| TodoDataStore.Single | MauiReactJSHybridApp/TodoDataStore.cs:33-47 | succeeds with the one position holding the id; fails with no match iff none has it, and with several iff two do |
| TodoDataStore.AddTask | MauiReactJSHybridApp/TodoDataStore.cs:23-28 | appends the task without checking ids, keeps the earlier tasks, and raises one change |
| TodoDataStore.EditTask | MauiReactJSHybridApp/TodoDataStore.cs:30-35 | fails iff `Single` fails; otherwise renames only that task and raises one change |
| TodoDataStore.DeleteTask | MauiReactJSHybridApp/TodoDataStore.cs:37-42 | fails iff `Single` fails; otherwise removes only that task, keeps the order of the rest, and raises one change |
| TodoDataStore.ToggleCompletedTask | MauiReactJSHybridApp/TodoDataStore.cs:44-50 | fails iff `Single` fails; otherwise flips only that task's flag and raises one change |
| TodoDataStore.EditAndToggleKeepIds | MauiReactJSHybridApp/TodoDataStore.cs:30-50 | renaming and toggling keep every id in its place |
| TodoDataStore.ToggleTwice | MauiReactJSHybridApp/TodoDataStore.cs:44-50 | toggling twice restores the tasks and raises two changes |
| TodoDataStore.AddThenDelete | MauiReactJSHybridApp/TodoDataStore.cs:23-42 | deleting a freshly added task with a new id restores the list |
| TodoDataStore.DuplicateIdBlocksSingle | MauiReactJSHybridApp/TodoDataStore.cs:26-40 | adding a task with a used id makes later edits and deletes of that id fail |
| TodoDataStore.SingleOfDistinct | MauiReactJSHybridApp/TodoDataStore.cs:33 | with distinct ids every task's id finds that task |
| TodoDataStore.InitialIdsResolve | MauiReactJSHybridApp/TodoDataStore.cs:7-12 | the three initial tasks have distinct ids and each resolves to its own position |
| SampleProxyHandlers.NonBlankParam | ExampleWrappedHybridWebViewLibrary/MyCustomControl.cs:69 | the parameter is taken iff present and not whitespace |
| SampleProxyHandlers.ManifestResourceName | ExampleWrappedHybridWebViewLibrary/MyCustomControl.cs:73 | the assembly name, '.', then the resource name with every '/' turned into '.' |
| SampleProxyHandlers.EmbeddedResourceHandler | ExampleWrappedHybridWebViewLibrary/MyCustomControl.cs:61-91 | acts only for operation "embeddedResource" with a non-blank resourceName whose manifest resource exists, then sets that stream and its MIME type; otherwise the args are unchanged |
| SampleProxyHandlers.MainFileQuery | ExampleWrappedHybridWebViewLibrary/MyCustomControl.cs:28 | the configured MainFile parses to exactly operation=embeddedResource and resourceName=EmbeddedWebPageResource.html |
| SampleProxyHandlers.FileSystemHandler | MauiCSharpInteropWebView/LoadFromFileSystemSample.xaml.cs:46-83 | only the stream changes, and only for operation "loadFromFileSystem" with a non-blank fileName whose file reads; a missing file or failed read leaves the args unchanged |
| SampleProxyHandlers.LookupStaysInAppData | MauiCSharpInteropWebView/LoadFromFileSystemSample.xaml.cs:56 | the file looked up sits directly inside the app-data directory and keeps the requested file name |
| MBTileManager.PowerAsLong | MauiCSharpInteropWebView/MBTileManager.cs:60 | 2^z exactly for 0 ≤ z ≤ 62, and 0 for negative z |
| MBTileManager.FlipInRange | MauiCSharpInteropWebView/MBTileManager.cs:60 | a row on the map flips to 2^z − 1 − y, which is also on the map |
| MBTileManager.FlipInvolution | MauiCSharpInteropWebView/MBTileManager.cs:60 | flipping twice gives every 64-bit row back, wrap-around included |
| MBTileManager.TopRowIsLastTmsRow | MauiCSharpInteropWebView/MBTileManager.cs:60 | XYZ row 0 is TMS row 2^z − 1 |
| MBTileManager.GetTile | MauiCSharpInteropWebView/MBTileManager.cs:55-71 | null without a connection or with any null coordinate; otherwise it queries column x, flipped row and zoom z, and returns the first row's tile data iff there is a row with data |
| Text.JoinSplit | HybridWebView/QueryStringHelper.cs:34-35 | splitting on a character loses nothing: joining the pieces gives the text back |
| Text.NatToStringValue | HybridWebView/Platforms/iOS/HybridWebViewHandler.iOS.cs:80 | the decimal rendering of a count reads back as that count |
| Text.Wrap64Reflect | MauiCSharpInteropWebView/MBTileManager.cs:60 | subtracting from the same value twice under 64-bit wrap-around returns any 64-bit operand |
| PercentEncoding.UnescapeEncodeRoundTrip | HybridWebView/QueryStringHelper.cs:36 | unescaping what `encodeURIComponent` produced gives an ASCII text back |
| PercentEncoding.EncodedHasNoDelimiters | HybridWebView/KnownStaticFiles/HybridWebView.js:44 | encoded text contains no '?', '&' or '=' |
| PercentEncoding.UnescapeWithoutPercent | HybridWebView/QueryStringHelper.cs:36 | text without '%' unescapes to itself |

## Left out

- Platform embedding is left out: WebView2, WKWebView and Android WebView set-up, the JavaScript interfaces, navigation, the handler's property mapper and DI registration. They are host-API plumbing with no decisions of their own.
- Stream, file and database I/O is left out:
  - manifest-resource, asset, bundle and app-data reads are `Option` or `FileRead` results supplied as parameters;
  - copying, disposing and `Content-Length` of streams are replaced by whole byte sequences;
  - the SQLite connection and query are a function parameter.
- `System.Uri` is left out. Parsing and the origin test are the `origin` parameter, which says Malformed, Outside or Inside with the relative path. `PathUtils.GetRelativePathAndContentType`, `GetMimeType`, `PlanTextMimeType` and `ProxyRequestPath` are parameters because their definitions are not part of this model.
- JSON is left out. `JsonSerializer.Serialize`/`Deserialize`, `JSON.stringify` and `JSON.parse` are parameters that may fail.
- Reflection is left out. A method is a `MethodInfo` descriptor: its name, parameter types and params-array flag. `Invoke` is a parameter returning a plain value or a task.
- Async code is modelled sequentially:
  - `await`, `.Wait()`, `async void` and JavaScript promises are sequential steps;
  - a pending .NET task is the `Deferred` reply, settled later by `ResolveTask`;
  - the `EvaluateJavaScriptAsync` continuations, which only drop faults, are left out.
- Concurrency is left out: `ConcurrentDictionary` thread-safety and interleaved requests. The registry is a `map`.
- `HybridWebViewObjectHost.InvokeDotNetMethod`: an escaping exception is named by its kind only (`ArgumentNull` with the parameter name, `AmbiguousMatch`, or the `ResolveObject` handler's own exception); the .NET exception objects are not modelled.
- A proxy handler's exception is the text naming it (`HandlerFault`). On Android `.Wait()` wraps it in an `AggregateException`; the model does not tell the two apart.
- `ValueTask` and `Task` are modelled alike, as a `TaskRun` whose `isGenericType` flag is the runtime task type's `IsGenericType`.
- `PercentEncoding.UnescapeDataString`: decodes only `%HH` escapes of ASCII characters and leaves every other `%` sequence as it is. Multi-byte UTF-8 escapes are not decoded. So the round trip through `encodeURIComponent` is proved for ASCII text only.
- `QueryStringHelper.GetKeyValuePairs`: finds the '?' by ordinal search. The source's `url.IndexOf("?")` (HybridWebView/QueryStringHelper.cs:30) is the culture-sensitive string overload, unlike the ordinal search at line 11. Under ICU the two can differ, for example on a '?' followed by a combining mark, and culture-aware comparison is not modelled. `QueryStringHelper.QueryOf` makes the same simplification.
- `PathUtils.GetFileName`: ignores the Windows volume separator ':'. `Path.Combine` is modelled for the separators and the rooted-path rule only.
- `MBTileManager.PowerAsLong`: for z > 62 the value of `(long)Math.Pow(2, z)` is the `hugePower` parameter. The double-to-long conversion of an out-of-range power is not modelled.
- `Fibonacci.Fibonacci`: returns the `int` the loop computes. The exact int-to-double conversion of the return value is left out.
- `WindowsWebView.OkResponse`: states the headers only for bodies shorter than 2^31 bytes. Above that, the `(int)` cast wraps, and the model computes the wrapped length without a separate contract.
- The Windows header string uses "\n" between its two lines, which is the line break of the verbatim string in the source.
- `NSMutableDictionary.Add` on an existing key is modelled as overwriting the value.
- `TodoDataStore`:
  - `TaskDataChanged` is the `changes` counter, which counts raised events;
  - the `Debug.WriteLine` traces are left out;
  - `GetData` returning the live list is left out, and so is the aliasing of `TodoTask` objects between caller and store.
- UI code is left out: both `MainPage.xaml.cs` files, `extra_code.js`, the event-args classes that only carry data, and `HybridWebView.cs`. These hold no decisions.
- Repeated query keys: `ToDictionary` throws on a repeated key, so a query such as `a=1&a=2` makes the proxy event args' constructor throw (`QueryStringHelper.DuplicateKeyFails`).
- On iOS, `StartUrlSchemeTask` checks `Request.Url` for null, but that check can never matter. A null URL becomes "", and `new Uri("")` throws first (`IosHandler.NullUrlThrows`). On Mac Catalyst, the same URL gets the 404, so nothing is sent (`MacCatalystHandler.NullUrlGetsNoAnswer`).
- `DotNetHostScript.ProxyCall` has no contract of its own. `DotNetHostScript.ProxyCallSendsArguments` states what a proxy call does.

## Findings

| source | as written | input that shows it | evidently intended | confidence | as-written member | corrected member |
|---|---|---|---|---|---|---|
| HybridWebView/Platforms/MacCatalyst/HybridWebViewHandler.MacCatalyst.cs:96-101 | the no-cache Cache-Control is added when the custom headers are null OR already contain "Cache-Control" | a proxy answer with custom headers {"X-Request-Id": "1"} gets no Cache-Control; one with {"Cache-Control": "max-age=60"} has it replaced by no-cache | force no-cache only when the custom headers do not set Cache-Control themselves, as the comment on line 96 says | not executed; high | MacCatalystHandler.ResponseHeadersAsWritten, MacCatalystHandler.CachingLeftOnAsWritten, MacCatalystHandler.CustomCacheControlLostAsWritten, MacCatalystHandler.TaskLeavesCachingOnAsWritten | MacCatalystHandler.ResponseHeaders |
| HybridWebView/HybridWebViewObjectHost.cs:157-179 | the message or JSON is pasted between single quotes of a JavaScript literal without escaping | class name "a'b": the reject literal ends after "Invalid class name a" and "b.')" becomes code; the JSON string "\"a\\nb\"" arrives with a real line break | the literal denotes exactly the message or JSON | not executed; high | HybridWebViewObjectHost.QuoteInClassNameBreaksScriptAsWritten, HybridWebViewObjectHost.EscapedJsonAlteredAsWritten | HybridWebViewObjectHost.RejectScriptCarriesMessage, HybridWebViewObjectHost.ResolveScriptCarriesJson |
