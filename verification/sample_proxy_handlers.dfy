/**
 * The proxy handlers of the two samples. Each looks for an `operation`
 * query key and, for its own operation and a non-blank name parameter,
 * fills in the response; anything else leaves the arguments as they came.
 *
 * `MyCustomControl` serves embedded resources: the manifest store is
 * `manifest`, and `PathUtils.GetMimeType` (not part of this model) is
 * `mimeType`. `LoadFromFileSystemSample` serves files of the app-data
 * directory; reading a file is `read`, whose `ReadFailed` stands for an
 * exception while opening or copying.
 */
module SampleProxyHandlers {
  import opened Wrappers
  import opened Text
  import opened PathUtils
  import QueryStringHelper
  import PercentEncoding
  import opened ProxyEventArgs

  /** The query value under `key` when it is present and not blank. */
  function NonBlankParam(query: map<string, string>, key: string): (r: Option<string>)
    ensures r.Some? <==> key in query && !IsEmptyOrWhiteSpace(query[key])
    ensures r.Some? ==> r.value == query[key]
  {
    if key in query && !IsEmptyOrWhiteSpace(query[key]) then Some(query[key]) else None
  }

  /** The query key naming the operation a proxy request asks for. */
  const OperationKey: string := "operation"

  /** The handler's operation is asked for. */
  predicate Asks(args: ProxyEventArgs, operation: string) {
    OperationKey in args.queryParams && args.queryParams[OperationKey] == operation
  }

  // ---- MyCustomControl ----

  const EmbeddedResourceOperation: string := "embeddedResource"

  const ResourceNameKey: string := "resourceName"

  /** The embedded page the main file names. */
  const MainPageResource: string := "EmbeddedWebPageResource.html"

  /** The manifest name of an embedded resource: the assembly name, '.', and the name with '/' made '.'. */
  function ManifestResourceName(assemblyName: string, resourceName: string): (r: string)
    ensures |r| == |assemblyName| + 1 + |resourceName|
    ensures r[..|assemblyName|] == assemblyName && r[|assemblyName|] == '.'
    ensures forall i :: 0 <= i < |resourceName| ==>
              r[|assemblyName| + 1 + i] == (if resourceName[i] == '/' then '.' else resourceName[i])
    ensures '/' !in r[|assemblyName|..]
  {
    assemblyName + "." + ReplaceChar(resourceName, '/', '.')
  }

  /** `MyCustomControl.WebView_ProxyRequestReceived`. */
  function EmbeddedResourceHandler(args: ProxyEventArgs, assemblyName: string,
                                   manifest: string -> Option<Bytes>, mimeType: string -> string)
    : (r: ProxyEventArgs)
    ensures r.url == args.url && r.queryParams == args.queryParams
    ensures r.customResponseHeaders == args.customResponseHeaders
    ensures r != args ==> Asks(args, EmbeddedResourceOperation)
    ensures var name := NonBlankParam(args.queryParams, ResourceNameKey);
            if Asks(args, EmbeddedResourceOperation) && name.Some?
               && manifest(ManifestResourceName(assemblyName, name.value)).Some?
            then r.responseStream == manifest(ManifestResourceName(assemblyName, name.value))
                 && r.responseContentType == Some(mimeType(name.value))
            else r == args
  {
    var name := NonBlankParam(args.queryParams, ResourceNameKey);
    if Asks(args, EmbeddedResourceOperation) && name.Some? then
      match manifest(ManifestResourceName(assemblyName, name.value))
      case None => args
      case Some(bytes) => args.(responseStream := Some(bytes), responseContentType := Some(mimeType(name.value)))
    else args
  }

  /** The main page `MyCustomControl` configures: it is itself a proxy request. */
  const CustomControlMainFile: string :=
    "proxy" + "?" + (OperationKey + "=" + EmbeddedResourceOperation + "&" + ResourceNameKey + "=" + MainPageResource)

  /** A `key=value` piece with plain parts parses to that pair. */
  lemma PlainPiece(key: string, value: string)
    requires '=' !in key && '=' !in value && '%' !in value
    ensures QueryStringHelper.KeyOf(key + "=" + value) == key
    ensures '=' in key + "=" + value
    ensures QueryStringHelper.ValueOf(key + "=" + value) == value
  {
    assert key + "=" + value == key + ['='] + value;
    QueryStringHelper.SplitPair(key, '=', value);
    assert (key + "=" + value)[|key|] == '=';
    PercentEncoding.UnescapeWithoutPercent(value);
  }

  /** Two pieces with different keys parse to both pairs. */
  lemma TwoPieces(p1: string, p2: string)
    requires '=' in p1 && '=' in p2
    requires QueryStringHelper.KeyOf(p1) != QueryStringHelper.KeyOf(p2)
    ensures QueryStringHelper.ParsePairs([p1, p2]) == Success(map[
              QueryStringHelper.KeyOf(p1) := QueryStringHelper.ValueOf(p1),
              QueryStringHelper.KeyOf(p2) := QueryStringHelper.ValueOf(p2)])
  {
    assert [p1, p2][..1] == [p1];
    assert [p1][..0] == [];
    assert QueryStringHelper.ParsePairs([]) == Success(map[]);
  }

  predicate Plain(s: string) {
    '&' !in s && '=' !in s && '%' !in s && '?' !in s
  }

  /** A URL whose query is two plain pairs with different keys parses to exactly those two pairs. */
  lemma TwoPairQuery(prefix: string, k1: string, v1: string, k2: string, v2: string)
    requires '?' !in prefix && Plain(k1) && Plain(v1) && Plain(k2) && Plain(v2)
    requires k1 != k2 && k1 != [] && !IsWhiteSpace(k1[0])
    ensures QueryStringHelper.GetKeyValuePairs(Some(prefix + "?" + (k1 + "=" + v1 + "&" + k2 + "=" + v2)))
            == Success(map[k1 := v1, k2 := v2])
  {
    var p1, p2 := k1 + "=" + v1, k2 + "=" + v2;
    var query := p1 + "&" + p2;
    assert k1 + "=" + v1 + "&" + k2 + "=" + v2 == query;
    QueryStringHelper.QueryAfterFirstMark(prefix, query);
    assert '&' !in p1 && '&' !in p2;
    QueryStringHelper.SplitPair(p1, '&', p2);
    assert query[0] == k1[0];
    PlainPiece(k1, v1);
    PlainPiece(k2, v2);
    TwoPieces(p1, p2);
  }

  /** The configured main file parses to exactly the two keys the handler reads. */
  lemma MainFileQuery()
    ensures QueryStringHelper.GetKeyValuePairs(Some(CustomControlMainFile))
            == Success(map[OperationKey := EmbeddedResourceOperation, ResourceNameKey := MainPageResource])
  {
    MainFileKeysPlain();
    MainFileValuesPlain();
    TwoPairQuery("proxy", OperationKey, EmbeddedResourceOperation, ResourceNameKey, MainPageResource);
  }

  lemma MainFileKeysPlain()
    ensures Plain(OperationKey) && Plain(ResourceNameKey) && OperationKey[0] != ResourceNameKey[0]
    ensures '?' !in "proxy"
  {
  }

  lemma MainFileValuesPlain()
    ensures Plain(EmbeddedResourceOperation) && Plain(MainPageResource)
  {
    var name := MainPageResource;
    forall i | 0 <= i < |name| ensures name[i] != '&' && name[i] != '=' && name[i] != '%' && name[i] != '?' {
    }
  }

  // ---- LoadFromFileSystemSample ----

  /** What reading a file gives: no such file, an exception while reading, or its bytes. */
  datatype FileRead = NoFile | ReadFailed | Contents(bytes: Bytes)

  /** The file looked up: the last component of the requested name, directly inside the app-data directory. */
  function AppDataPath(appDataDirectory: string, fileName: string, seps: set<char>, sep: char, drives: bool): string
    requires sep in seps
  {
    Combine(appDataDirectory, GetFileName(fileName, seps), seps, sep, drives)
  }

  /** `LoadFromFileSystemSample.WebView_ProxyRequestReceived`; the content type is left as it came. */
  function FileSystemHandler(args: ProxyEventArgs, appDataDirectory: string, read: string -> FileRead,
                             seps: set<char>, sep: char, drives: bool): (r: ProxyEventArgs)
    requires sep in seps
    ensures r == args || r == args.(responseStream := r.responseStream)
    ensures r != args ==> Asks(args, "loadFromFileSystem")
    ensures var name := NonBlankParam(args.queryParams, "fileName");
            if Asks(args, "loadFromFileSystem") && name.Some?
               && read(AppDataPath(appDataDirectory, name.value, seps, sep, drives)).Contents?
            then r.responseStream == Some(read(AppDataPath(appDataDirectory, name.value, seps, sep, drives)).bytes)
            else r == args
  {
    var name := NonBlankParam(args.queryParams, "fileName");
    if Asks(args, "loadFromFileSystem") && name.Some? then
      match read(AppDataPath(appDataDirectory, name.value, seps, sep, drives))
      case Contents(bytes) => args.(responseStream := Some(bytes))
      case _ => args
    else args
  }

  /**
   * Whatever directories the requested name climbs through, the file read
   * is the requested name's last component, directly under the app-data
   * directory.
   */
  lemma LookupStaysInAppData(appDataDirectory: string, fileName: string, seps: set<char>, sep: char, drives: bool)
    requires sep in seps
    requires GetFileName(fileName, seps) != []
    requires !drives || |GetFileName(fileName, seps)| < 2 || GetFileName(fileName, seps)[1] != ':'
    ensures var path := AppDataPath(appDataDirectory, fileName, seps, sep, drives);
            && GetFileName(path, seps) == GetFileName(fileName, seps)
            && StartsWith(path, appDataDirectory)
            && (appDataDirectory == [] || |path| - |GetFileName(fileName, seps)| <= |appDataDirectory| + 1)
  {
    var name := GetFileName(fileName, seps);
    CombineKeepsFileName(appDataDirectory, name, seps, sep, drives);
    if appDataDirectory == [] {
    } else {
      assert !IsPathRooted(name, seps, drives);
    }
  }
}
