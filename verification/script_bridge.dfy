/**
 * What the two revisions of the page-side `HybridWebView.js` share: the
 * script values they pass around, JavaScript truthiness and property
 * access, and `SendMessageToDotNet`, which wraps a message in a
 * `{MessageType, MessageContent}` envelope and posts it over the first
 * transport the page offers, and `SendRawMessageToDotNet`, which both
 * revisions define alike.
 *
 * Messages are kept as structured records; the JSON text
 * `JSON.stringify` would make of them is not modelled.
 */
module ScriptBridge {
  import opened Wrappers

  /** The script values the bridge handles; numbers are integers here. */
  datatype JsValue =
    | Undefined
    | Null
    | Bool(b: bool)
    | Num(n: int)
    | Str(s: string)
    | Arr(items: seq<JsValue>)
    | Obj(fields: seq<(string, JsValue)>)

  /** JavaScript truthiness: `undefined`, `null`, `false`, `0` and `""` are falsy. */
  predicate Truthy(v: JsValue) {
    match v
    case Undefined => false
    case Null => false
    case Bool(b) => b
    case Num(n) => n != 0
    case Str(s) => s != []
    case Arr(_) => true
    case Obj(_) => true
  }

  /** `v[key]`: the first field of that name of an object, `undefined` for anything else. */
  function Get(v: JsValue, key: string): (r: JsValue)
    ensures !v.Obj? ==> r == Undefined
    ensures v.Obj? && (forall i :: 0 <= i < |v.fields| ==> v.fields[i].0 != key) ==> r == Undefined
    ensures v.Obj? && |v.fields| > 0 && v.fields[0].0 == key ==> r == v.fields[0].1
    ensures v.Obj? && (exists i :: 0 <= i < |v.fields| && v.fields[i].0 == key) ==>
              exists i :: 0 <= i < |v.fields| && v.fields[i].0 == key && r == v.fields[i].1
                          && forall j :: 0 <= j < i ==> v.fields[j].0 != key
    decreases if v.Obj? then |v.fields| else 0
  {
    if !v.Obj? || v.fields == [] then Undefined
    else if v.fields[0].0 == key then v.fields[0].1
    else
      var rest := v.fields[1..];
      var r := Get(Obj(rest), key);
      // a later occurrence is the first one in the rest, one position further on
      assert (exists i :: 0 <= i < |v.fields| && v.fields[i].0 == key) ==>
               exists i :: 0 <= i < |v.fields| && v.fields[i].0 == key && r == v.fields[i].1
                           && forall j :: 0 <= j < i ==> v.fields[j].0 != key
      by {
        if i :| 0 <= i < |v.fields| && v.fields[i].0 == key {
          assert rest[i - 1].0 == key;
          var k :| 0 <= k < |rest| && rest[k].0 == key && r == rest[k].1 && forall j :: 0 <= j < k ==> rest[j].0 != key;
          assert v.fields[k + 1] == rest[k];
          assert forall j :: 0 < j < k + 1 ==> v.fields[j] == rest[j - 1];
        }
      }
      r
  }

  /** The page's bridge objects, as the truthiness of each step of the property chains tested. */
  datatype Window = Window(
    chrome: bool, chromeWebview: bool,
    webkit: bool, messageHandlers: bool, webwindowinterop: bool)

  /** Where a message goes: WebView2, the WKWebView script handler, or the Android host object. */
  datatype Transport = ChromeWebView | WebKitInterop | AndroidHost

  /** The transport of one send, in fixed order of preference. */
  function ChooseTransport(w: Window): (t: Transport)
    ensures t == ChromeWebView <==> w.chrome && w.chromeWebview
    ensures t == WebKitInterop <==> !(w.chrome && w.chromeWebview) && w.webkit && w.messageHandlers && w.webwindowinterop
    ensures t == AndroidHost <==> !(w.chrome && w.chromeWebview) && !(w.webkit && w.messageHandlers && w.webwindowinterop)
  {
    if w.chrome && w.chromeWebview then ChromeWebView
    else if w.webkit && w.messageHandlers && w.webwindowinterop then WebKitInterop
    else AndroidHost
  }

  /** The body of a message: type 0 carries raw content, type 1 an invoke request. */
  datatype Content =
    | RawContent(message: JsValue)
    | InvokeContent(className: Option<JsValue>, methodName: JsValue, callbackId: Option<int>,
                    paramValues: Option<seq<JsValue>>)

  /** The envelope `{MessageType, MessageContent}` and the transport it was posted on. */
  datatype Posted = Posted(transport: Transport, messageType: int, content: Content)

  const RawMessage: int := 0
  const InvokeMessage: int := 1

  /** `SendMessageToDotNet`. */
  function SendMessageToDotNet(w: Window, messageType: int, content: Content): (p: Posted)
    ensures p.messageType == messageType && p.content == content
    ensures p.transport == ChooseTransport(w)
  {
    Posted(ChooseTransport(w), messageType, content)
  }

  /** `SendRawMessageToDotNet`, the same in both script revisions: type 0, the message as it is. */
  function SendRawMessageToDotNet(w: Window, message: JsValue): (p: Posted)
    ensures p.messageType == RawMessage && p.content == RawContent(message)
    ensures p.transport == ChooseTransport(w)
  {
    SendMessageToDotNet(w, RawMessage, RawContent(message))
  }

  /** `JSON.stringify(x)` as an array element: `undefined` where stringify gives no text. */
  function StringifiedElement(stringify: JsValue -> Option<string>, x: JsValue): (r: JsValue)
    ensures r.Str? || r == Undefined
  {
    match stringify(x)
    case Some(text) => Str(text)
    case None => Undefined
  }

  /** `items.map(x => JSON.stringify(x))`. */
  function StringifyEach(stringify: JsValue -> Option<string>, items: seq<JsValue>): (r: seq<JsValue>)
    ensures |r| == |items|
    ensures forall i :: 0 <= i < |items| ==> r[i] == StringifiedElement(stringify, items[i])
  {
    seq(|items|, i requires 0 <= i < |items| => StringifiedElement(stringify, items[i]))
  }
}
