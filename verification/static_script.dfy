/**
 * The built-in `HybridWebView.js` served under `_hwv/`: a plain
 * `window.HybridWebView` object with fire-and-forget sends and an
 * asynchronous invoke that goes through the proxy URL as a GET request.
 *
 * `JSON.stringify` of a parameter is `stringify`; the JSON text of the
 * async request body is `bodyJson`; `JSON.parse` is `parse`; the fetch and
 * `rawResponse.json()` together are `fetched`.
 */
module StaticScript {
  import opened Wrappers
  import opened Text
  import opened ScriptBridge
  import PercentEncoding
  import QueryStringHelper

  /**
   * The parameter list after the in-place rewrite: `undefined` stays absent;
   * anything else (`null` included) that is not an array is wrapped; every
   * element is replaced by its JSON text.
   */
  function StringifiedParams(paramValues: JsValue, stringify: JsValue -> Option<string>): (r: Option<seq<JsValue>>)
    ensures paramValues == Undefined <==> r.None?
    ensures paramValues.Arr? ==> r == Some(StringifyEach(stringify, paramValues.items))
    ensures paramValues != Undefined && !paramValues.Arr? ==> r == Some([StringifiedElement(stringify, paramValues)])
  {
    if paramValues == Undefined then None
    else if paramValues.Arr? then Some(StringifyEach(stringify, paramValues.items))
    else
      var one := StringifyEach(stringify, [paramValues]);
      assert one == [StringifiedElement(stringify, paramValues)];
      Some(one)
  }

  /** What the caller's argument holds afterwards: an array passed in has been rewritten in place. */
  function CallerArrayAfter(paramValues: JsValue, stringify: JsValue -> Option<string>): (r: JsValue)
    ensures !paramValues.Arr? ==> r == paramValues
    ensures paramValues.Arr? ==> r == Arr(StringifiedParams(paramValues, stringify).value)
  {
    if paramValues.Arr? then Arr(StringifiedParams(paramValues, stringify).value) else paramValues
  }

  /** `SendInvokeMessageToDotNet`: type 1 with `{MethodName, ParamValues}`; no class name and no callback id. */
  function SendInvokeMessageToDotNet(w: Window, methodName: JsValue, paramValues: JsValue,
                                     stringify: JsValue -> Option<string>): (p: Posted)
    ensures p.messageType == InvokeMessage && p.transport == ChooseTransport(w)
    ensures p.content.InvokeContent? && p.content.className.None? && p.content.callbackId.None?
    ensures p.content.methodName == methodName
    ensures p.content.paramValues.None? <==> paramValues == Undefined
    ensures paramValues != Undefined ==>
              |p.content.paramValues.value| == (if paramValues.Arr? then |paramValues.items| else 1)
    ensures p.content.paramValues == StringifiedParams(paramValues, stringify)
  {
    SendMessageToDotNet(w, InvokeMessage, InvokeContent(None, methodName, None, StringifiedParams(paramValues, stringify)))
  }

  /** The body of the async request: `ParamValues` only when at least one parameter is left. */
  datatype AjaxBody = AjaxBody(methodName: JsValue, paramValues: Option<seq<JsValue>>)

  function AsyncBody(methodName: JsValue, paramValues: JsValue, stringify: JsValue -> Option<string>): (b: AjaxBody)
    ensures b.methodName == methodName
    ensures b.paramValues.Some? <==> paramValues != Undefined && !(paramValues.Arr? && paramValues.items == [])
    ensures b.paramValues.Some? ==> b.paramValues == StringifiedParams(paramValues, stringify)
  {
    var params := StringifiedParams(paramValues, stringify);
    if params.Some? && |params.value| > 0 then AjaxBody(methodName, params) else AjaxBody(methodName, None)
  }

  /** The proxy endpoint the async invoke fetches from. */
  const ProxyPath: string := "https://0.0.0.0/proxy"

  /** The query key the body travels under. */
  const AjaxKey: string := "__ajax"

  const ProxyBase: string := ProxyPath + "?" + AjaxKey + "="

  /** The request URL: the JSON body, percent-encoded, as the `__ajax` query value. */
  function RequestUrl(message: string): (url: string)
    ensures StartsWith(url, ProxyBase)
    ensures forall i :: |ProxyBase| <= i < |url| ==> url[i] != '?' && url[i] != '&' && url[i] != '='
  {
    var encoded := PercentEncoding.EncodeUriComponent(message);
    PercentEncoding.EncodedHasNoDelimiters(message);
    assert forall i :: |ProxyBase| <= i < |ProxyBase + encoded| ==> (ProxyBase + encoded)[i] == encoded[i - |ProxyBase|];
    ProxyBase + encoded
  }

  /**
   * The host's query parser reads the request URL back as exactly one pair,
   * `__ajax` mapped to the body text, for any ASCII body.
   */
  lemma RequestUrlRoundTrip(message: string)
    requires PercentEncoding.IsAscii(message)
    ensures QueryStringHelper.GetKeyValuePairs(Some(RequestUrl(message))) == Success(map[AjaxKey := message])
  {
    var encoded := PercentEncoding.EncodeUriComponent(message);
    PercentEncoding.EncodedHasNoDelimiters(message);
    AjaxQueryParses(encoded);
    QueryOfRequestUrl(message);
    ParsedQuery(RequestUrl(message), AjaxKey + "=" + encoded);
    PercentEncoding.UnescapeEncodeRoundTrip(message);
  }

  /** The `__ajax` query of an encoded body parses to its one pair. */
  lemma AjaxQueryParses(encoded: string)
    requires '&' !in encoded && '=' !in encoded
    ensures QueryStringHelper.ParsePairs(Split(AjaxKey + "=" + encoded, '&'))
            == Success(map[AjaxKey := PercentEncoding.UnescapeDataString(encoded)])
    ensures !IsEmptyOrWhiteSpace(AjaxKey + "=" + encoded)
  {
    assert '&' !in AjaxKey && '=' !in AjaxKey && AjaxKey[0] == '_';
    SinglePair(AjaxKey, encoded);
  }

  /** A URL whose query is not blank parses as that query's pieces. */
  lemma ParsedQuery(url: string, query: string)
    requires QueryStringHelper.QueryOf(url) == query && !IsEmptyOrWhiteSpace(query)
    ensures QueryStringHelper.GetKeyValuePairs(Some(url)) == QueryStringHelper.ParsePairs(Split(query, '&'))
  {
    assert url != [];
  }

  /** The query the host parses is `__ajax=` and the encoded body. */
  lemma QueryOfRequestUrl(message: string)
    ensures QueryStringHelper.QueryOf(RequestUrl(message)) == AjaxKey + "=" + PercentEncoding.EncodeUriComponent(message)
  {
    var encoded := PercentEncoding.EncodeUriComponent(message);
    assert RequestUrl(message) == ProxyPath + "?" + (AjaxKey + "=" + encoded);
    assert '?' !in ProxyPath;
    QueryStringHelper.QueryAfterFirstMark(ProxyPath, AjaxKey + "=" + encoded);
  }

  /** A query that is one `key=value` piece parses to that single pair. */
  lemma SinglePair(key: string, value: string)
    requires key != [] && key[0] == '_'
    requires '&' !in key && '=' !in key && '&' !in value && '=' !in value
    ensures QueryStringHelper.ParsePairs(Split(key + "=" + value, '&'))
            == Success(map[key := PercentEncoding.UnescapeDataString(value)])
    ensures !IsEmptyOrWhiteSpace(key + "=" + value)
  {
    var piece := key + "=" + value;
    assert piece[0] == '_';
    assert '&' !in piece by {
      assert '&' !in key + "=";
    }
    SplitWithout(piece, '&');
    QueryStringHelper.SplitPair(key, '=', value);
    assert key + ['='] + value == piece;
    assert [piece][..0] == [];
    assert QueryStringHelper.ParsePairs([]) == Success(map[]);
  }

  /**
   * The value the async invoke resolves to: `JSON.parse(Result)` when
   * `IsJson` is truthy, `Result` otherwise, and `null` for a falsy response
   * or any error on the way (a failed fetch, bad JSON).
   */
  function AsyncResult(fetched: Result<JsValue, string>, parse: JsValue -> Result<JsValue, string>): (r: JsValue)
    ensures fetched.Failure? ==> r == Null
    ensures fetched.Success? && !Truthy(fetched.value) ==> r == Null
    ensures fetched.Success? && Truthy(fetched.value) && !Truthy(Get(fetched.value, "IsJson")) ==>
              r == Get(fetched.value, "Result")
    ensures fetched.Success? && Truthy(fetched.value) && Truthy(Get(fetched.value, "IsJson")) ==>
              r == (if parse(Get(fetched.value, "Result")).Success? then parse(Get(fetched.value, "Result")).value else Null)
  {
    match fetched
    case Failure(_) => Null
    case Success(response) =>
      if !Truthy(response) then Null
      else if Truthy(Get(response, "IsJson")) then
        match parse(Get(response, "Result"))
        case Failure(_) => Null
        case Success(v) => v
      else Get(response, "Result")
  }

  /** A host answer `{IsJson: true, Result: json}` yields the parsed value; `{IsJson: false, Result: v}` yields `v`. */
  lemma AnswerShapes(json: JsValue, v: JsValue, parse: JsValue -> Result<JsValue, string>)
    ensures parse(json).Success? ==>
              AsyncResult(Success(Obj([("IsJson", Bool(true)), ("Result", json)])), parse) == parse(json).value
    ensures AsyncResult(Success(Obj([("IsJson", Bool(false)), ("Result", v)])), parse) == v
  {
    var yes := Obj([("IsJson", Bool(true)), ("Result", json)]);
    var no := Obj([("IsJson", Bool(false)), ("Result", v)]);
    assert Get(yes, "Result") == Get(Obj(yes.fields[1..]), "Result");
    assert Get(no, "Result") == Get(Obj(no.fields[1..]), "Result");
  }
}
