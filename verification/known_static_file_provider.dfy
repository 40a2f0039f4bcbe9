/**
 * `KnownStaticFileProvider`: serves the bridge's one built-in script,
 * addressed as `_hwv/HybridWebView.js`, from the library's own manifest
 * resources.
 *
 * The manifest lookup itself is the parameter `manifest`; the decision of
 * WHICH resource to ask for is `KnownResourceName`, `None` where the source
 * returns null without asking.
 */
module KnownStaticFileProvider {
  import opened Wrappers
  import opened Text
  import opened PathUtils

  /** The one built-in script's file name. */
  const ScriptName: string := "HybridWebView.js"

  const KnownStaticFilesNames: seq<string> := [ScriptName]

  const ManifestNamePrefix: string := "HybridWebView.KnownStaticFiles."

  /** The manifest resource holding the built-in script. */
  const ScriptManifestName: string := ManifestNamePrefix + ScriptName

  /** `"_hwv" + Path.DirectorySeparatorChar`. */
  function KnownStaticFilePrefix(sep: char): string {
    "_hwv" + [sep]
  }

  /**
   * The manifest name asked for: only a path that normalizes to the prefix
   * followed by exactly a known name has one, and it is the manifest prefix
   * followed by that name.
   */
  function KnownResourceName(resourceRelativeUrl: string, sep: char): (r: Option<string>)
    ensures r.Some? <==> NormalizePath(resourceRelativeUrl, sep) == KnownStaticFilePrefix(sep) + ScriptName
    ensures r.Some? ==> r.value == ScriptManifestName
  {
    var normalized := NormalizePath(resourceRelativeUrl, sep);
    var prefix := KnownStaticFilePrefix(sep);
    PrefixThenRest(normalized, prefix, ScriptName);
    if !StartsWith(normalized, prefix) then None
    else
      var resourceName := normalized[|prefix|..];
      if resourceName !in KnownStaticFilesNames then None
      else Some(ManifestNamePrefix + resourceName)
  }

  /** `s` is `p` followed by `t` exactly when it starts with `p` and continues with `t`. */
  lemma PrefixThenRest(s: string, p: string, t: string)
    ensures s == p + t <==> StartsWith(s, p) && s[|p|..] == t
  {
    if StartsWith(s, p) {
      assert s == s[..|p|] + s[|p|..];
    }
  }

  /** `GetKnownResourceStream`: null unless the name is known, else whatever the manifest holds. */
  function GetKnownResourceStream(resourceRelativeUrl: string, sep: char, manifest: string -> Option<Bytes>)
    : (r: Option<Bytes>)
    ensures KnownResourceName(resourceRelativeUrl, sep).None? ==> r.None?
    ensures KnownResourceName(resourceRelativeUrl, sep).Some? ==>
              r == manifest(ScriptManifestName)
  {
    match KnownResourceName(resourceRelativeUrl, sep)
    case None => None
    case Some(name) => manifest(name)
  }

  /** `_hwv`, either slash, then a slash-free name, normalizes to the known-file prefix and the name. */
  lemma NormalizeUnderHwv(slash: char, name: string, sep: char)
    requires IsSlash(slash)
    requires forall i :: 0 <= i < |name| ==> !IsSlash(name[i])
    ensures NormalizePath("_hwv" + [slash] + name, sep) == KnownStaticFilePrefix(sep) + name
  {
    var path := "_hwv" + [slash] + name;
    var expected := KnownStaticFilePrefix(sep) + name;
    forall i | 0 <= i < |path| ensures NormalizePath(path, sep)[i] == expected[i] {
      if i >= 5 {
        assert path[i] == name[i - 5] && expected[i] == name[i - 5];
      }
    }
  }

  /** The path the script side requests the built-in script by, with either slash. */
  function ScriptPath(slash: char): string {
    "_hwv" + [slash] + ScriptName
  }

  /** `_hwv`, either slash, then the script's name, resolves to the script's manifest resource. */
  lemma ResolvesUnderEitherSlash(slash: char, sep: char)
    requires IsSlash(slash)
    ensures KnownResourceName(ScriptPath(slash), sep) == Some(ScriptManifestName)
  {
    assert forall i :: 0 <= i < |ScriptName| ==> !IsSlash(ScriptName[i]);
    NormalizeUnderHwv(slash, ScriptName, sep);
  }

  /** Both slash spellings of the built-in script's path resolve, and to the same resource. */
  lemma EitherSlashResolves(sep: char)
    ensures KnownResourceName(ScriptPath('/'), sep)
         == KnownResourceName(ScriptPath('\\'), sep)
         == Some(ScriptManifestName)
  {
    ResolvesUnderEitherSlash('/', sep);
    ResolvesUnderEitherSlash('\\', sep);
  }

  /** A file nested below `_hwv`, even one named like the built-in script, is not served. */
  lemma NestedPathNotServed(sep: char)
    ensures KnownResourceName("_hwv/js/HybridWebView.js", sep).None?
  {
    var expected := KnownStaticFilePrefix(sep) + "HybridWebView.js";
    assert |NormalizePath("_hwv/js/HybridWebView.js", sep)| != |expected|;
  }
}
