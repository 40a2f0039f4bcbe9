/**
 * The older Android pipeline, `HybridWebViewClient`: requests under the app
 * origin are answered from the app package's assets only (no proxy, no
 * built-in file), with the content type taken from the extension table;
 * link navigation is always cancelled.
 */
module AndroidLegacyClient {
  import opened Wrappers
  import opened Text
  import opened PathUtils
  import opened Interception
  import Android = AndroidHybridWebViewClient

  const Sep: char := '/'

  datatype Env = Env(
    origin: string -> OriginCheck,
    mainFile: string,
    hybridAssetRoot: string,
    assets: string -> Option<Bytes>)   // Assets.Open; None where it throws FileNotFoundException

  datatype Outcome =
    | Delegated
    | Responded(response: Android.WebResourceResponse)
    | Threw(fault: Fault)

  /** `GetHeaders`: the Content-Type header alone. */
  function GetHeaders(contentType: string): (r: map<string, string>)
    ensures r.Keys == {"Content-Type"} && r["Content-Type"] == contentType
  {
    map["Content-Type" := contentType]
  }

  /** The relative path as this client keeps it: every '/' turned into '\'. */
  function LegacyRelativePath(relative: string): (r: string)
    ensures '/' !in r
    ensures |r| == |relative|
  {
    ReplaceChar(relative, '/', '\\')
  }

  /** `FileSystemUtils.NormalizePath` then `Assets.Open`. */
  function PlatformOpenAppPackageFile(env: Env, filename: string): Option<Bytes> {
    env.assets(NormalizePath(filename, Sep))
  }

  /** The asset path asked for: the main file for the origin itself, else the relative path under the asset root. */
  function AssetPath(env: Env, relative: string): string {
    var relativePath := LegacyRelativePath(relative);
    Combine(env.hybridAssetRoot, if relativePath == [] then env.mainFile else relativePath, {Sep}, Sep, false)
  }

  function NotFoundResponse(): Android.WebResourceResponse {
    Android.WebResourceResponse("text/plain", "UTF-8", 404, "Not Found", GetHeaders("text/plain"), NotFoundBytes())
  }

  /** `ShouldInterceptRequest`. */
  function ShouldInterceptRequest(env: Env, url: string): (r: Outcome)
    ensures r.Delegated? <==> CheckOrigin(env.origin, url).Outside?
    ensures r.Threw? <==> CheckOrigin(env.origin, url).Malformed?
    ensures r.Responded? ==>
              var relative := CheckOrigin(env.origin, url).relative;
              var asset := PlatformOpenAppPackageFile(env, AssetPath(env, relative));
              && (asset.None? ==> r.response == NotFoundResponse())
              && (asset.Some? ==>
                    var contentType := ContentTypeForRequest(LegacyRelativePath(relative), {Sep});
                    r.response == Android.WebResourceResponse(contentType, "UTF-8", 200, "OK", GetHeaders(contentType), asset.value))
  {
    match CheckOrigin(env.origin, url)
    case Malformed => Threw(UriFormat)
    case Outside => Delegated
    case Inside(relative) =>
      var contentType := ContentTypeForRequest(LegacyRelativePath(relative), {Sep});
      match PlatformOpenAppPackageFile(env, AssetPath(env, relative))
      case None => Responded(NotFoundResponse())
      case Some(content) => Responded(Android.WebResourceResponse(contentType, "UTF-8", 200, "OK", GetHeaders(contentType), content))
  }

  /** `ShouldOverrideUrlLoading`: every navigation the page starts is cancelled. */
  function ShouldOverrideUrlLoading(url: string): (r: bool)
    ensures r
  {
    true
  }

  /** Prefixing the same text keeps two slash-agnostic spellings slash-agnostic after normalizing. */
  lemma NormalizeAfterPrefix(p: string, a: string, b: string)
    requires |a| == |b|
    requires forall i :: 0 <= i < |a| ==> a[i] == b[i] || (IsSlash(a[i]) && IsSlash(b[i]))
    ensures NormalizePath(p + a, Sep) == NormalizePath(p + b, Sep)
  {
    var x, y := p + a, p + b;
    forall i | 0 <= i < |x| ensures x[i] == y[i] || (IsSlash(x[i]) && IsSlash(y[i])) {
      if i >= |p| {
        assert x[i] == a[i - |p|] && y[i] == b[i - |p|];
      }
    }
    NormalizeIgnoresSlashKind(x, y, Sep);
  }

  /**
   * Turning '/' into '\' and normalizing back loses nothing: the asset opened
   * for a nested relative path is the one its forward-slash spelling names.
   */
  lemma LegacyAssetPathIsForwardSlashPath(env: Env, relative: string)
    requires relative != [] && relative[0] != '/'
    ensures NormalizePath(AssetPath(env, relative), Sep)
         == NormalizePath(Combine(env.hybridAssetRoot, relative, {Sep}, Sep, false), Sep)
  {
    var b := LegacyRelativePath(relative);
    var root := env.hybridAssetRoot;
    assert b[0] == relative[0];
    var p := if root == [] then [] else if root[|root| - 1] == Sep then root else root + [Sep];
    assert Combine(root, b, {Sep}, Sep, false) == p + b;
    assert Combine(root, relative, {Sep}, Sep, false) == p + relative;
    NormalizeAfterPrefix(p, b, relative);
  }
}
