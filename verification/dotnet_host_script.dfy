/**
 * The newer page-side `HybridWebView.js`: the `HybridWebViewDotNetHost`
 * object, whose callback table pairs each invoke message with the promise
 * the caller awaits, and which the host's `ResolveCallback` and
 * `RejectCallback` scripts settle.
 *
 * Promises are reduced to their state; `JSON.parse` and `JSON.stringify`
 * are the parameters `parse` and `stringify`.
 */
module DotNetHostScript {
  import opened Wrappers
  import opened ScriptBridge

  /** A promise's state: a promise settles once, and later resolves are ignored. */
  datatype PromiseState = Pending | Fulfilled(value: JsValue)

  /** The host object: the next callback id and the table of callbacks by id. */
  datatype Host = Host(nextCallbackId: int, callbacks: map<int, PromiseState>)

  /** The object the constructor builds. */
  const Initial: Host := Host(1, map[])

  /** Every id in the table was handed out before: it lies in `[1, nextCallbackId)`. */
  predicate Valid(h: Host) {
    1 <= h.nextCallbackId && forall id :: id in h.callbacks ==> 1 <= id < h.nextCallbackId
  }

  lemma InitialValid()
    ensures Valid(Initial) && Initial.callbacks == map[]
  {
  }

  /** `CreateCallback`: the next id, with a new pending entry under it. */
  function CreateCallback(h: Host): (r: (int, Host))
    requires Valid(h)
    ensures r.0 == h.nextCallbackId && r.0 !in h.callbacks
    ensures r.1.nextCallbackId == r.0 + 1
    ensures r.1.callbacks == h.callbacks[r.0 := Pending]
    ensures Valid(r.1)
  {
    var id := h.nextCallbackId;
    (id, Host(id + 1, h.callbacks[id := Pending]))
  }

  /** Resolving a promise: only a pending one changes. */
  function Settle(s: PromiseState, v: JsValue): (r: PromiseState)
    ensures s.Pending? ==> r == Fulfilled(v)
    ensures s.Fulfilled? ==> r == s
  {
    if s.Pending? then Fulfilled(v) else s
  }

  /** `ResolveCallback`: an unknown id is ignored; a known one resolves with the parsed message (a parse error throws). */
  function ResolveCallback(h: Host, id: int, message: string, parse: string -> Result<JsValue, string>)
    : (r: Result<Host, string>)
    ensures id !in h.callbacks ==> r == Success(h)
    ensures id in h.callbacks && parse(message).Failure? ==> r == Failure(parse(message).error)
    ensures r.Success? ==> r.value.nextCallbackId == h.nextCallbackId && r.value.callbacks.Keys == h.callbacks.Keys
    ensures r.Success? && id in h.callbacks ==>
              r.value.callbacks == h.callbacks[id := Settle(h.callbacks[id], parse(message).value)]
    ensures id in h.callbacks && parse(message).Success? ==>
              r == Success(Host(h.nextCallbackId, h.callbacks[id := Settle(h.callbacks[id], parse(message).value)]))
  {
    if id !in h.callbacks then Success(h)
    else match parse(message)
      case Failure(e) => Failure(e)
      case Success(obj) => Success(Host(h.nextCallbackId, h.callbacks[id := Settle(h.callbacks[id], obj)]))
  }

  /** `RejectCallback`: an unknown id is ignored; a known one is *resolved*, with the raw message text. */
  function RejectCallback(h: Host, id: int, message: string): (r: Host)
    ensures r.nextCallbackId == h.nextCallbackId && r.callbacks.Keys == h.callbacks.Keys
    ensures id !in h.callbacks ==> r == h
    ensures id in h.callbacks && h.callbacks[id].Pending? ==> r.callbacks[id] == Fulfilled(Str(message))
    ensures forall k :: k in h.callbacks && (k != id || h.callbacks[k].Fulfilled?) ==> r.callbacks[k] == h.callbacks[k]
  {
    if id !in h.callbacks then h
    else Host(h.nextCallbackId, h.callbacks[id := Settle(h.callbacks[id], Str(message))])
  }

  /**
   * The parameter list `SendInvokeMessageToDotNet` sends: a missing list is
   * `[]`, a truthy non-array is wrapped, an array is taken as it is, and a
   * falsy non-array has no `map`, which throws a `TypeError` (`None`).
   */
  function ParamList(paramValues: JsValue): (r: Option<seq<JsValue>>)
    ensures paramValues == Undefined ==> r == Some([])
    ensures paramValues.Arr? ==> r == Some(paramValues.items)
    ensures !paramValues.Arr? && Truthy(paramValues) ==> r == Some([paramValues])
    ensures r.None? <==> paramValues != Undefined && !Truthy(paramValues)
  {
    if paramValues == Undefined then Some([])
    else if paramValues.Arr? then Some(paramValues.items)
    else if Truthy(paramValues) then Some([paramValues])
    else None
  }

  /** What an invoke produced: the new host, the message posted and the id of the promise returned. */
  datatype Invoked = Invoked(host: Host, posted: Posted, callbackId: int)

  /** `SendInvokeMessageToDotNet`; a `TypeError` leaves the host untouched and posts nothing. */
  function SendInvokeMessageToDotNet(h: Host, w: Window, className: JsValue, methodName: JsValue, paramValues: JsValue,
                                     stringify: JsValue -> Option<string>): (r: Result<Invoked, string>)
    requires Valid(h)
    ensures r.Failure? <==> ParamList(paramValues).None?
    ensures r.Success? ==>
              && r.value.callbackId == h.nextCallbackId && r.value.callbackId !in h.callbacks
              && r.value.host == Host(h.nextCallbackId + 1, h.callbacks[h.nextCallbackId := Pending])
              && Valid(r.value.host)
              && r.value.posted.messageType == InvokeMessage
              && r.value.posted.transport == ChooseTransport(w)
              && r.value.posted.content ==
                 InvokeContent(Some(className), methodName, Some(r.value.callbackId),
                               Some(StringifyEach(stringify, ParamList(paramValues).value)))
  {
    match ParamList(paramValues)
    case None => Failure("TypeError")
    case Some(items) =>
      var params := StringifyEach(stringify, items);
      var (id, h') := CreateCallback(h);
      var content := InvokeContent(Some(className), methodName, Some(id), Some(params));
      Success(Invoked(h', SendMessageToDotNet(w, InvokeMessage, content), id))
  }

  /** `CreateProxy(className)[methodName](...args)`: an invoke with the arguments as the list. */
  function ProxyCall(h: Host, w: Window, className: JsValue, methodName: string, args: seq<JsValue>,
                     stringify: JsValue -> Option<string>): (r: Result<Invoked, string>)
    requires Valid(h)
  {
    SendInvokeMessageToDotNet(h, w, className, Str(methodName), Arr(args), stringify)
  }

  /** A proxy call never throws, and it sends each argument, stringified, in order. */
  lemma ProxyCallSendsArguments(h: Host, w: Window, className: JsValue, methodName: string, args: seq<JsValue>,
                                stringify: JsValue -> Option<string>)
    requires Valid(h)
    ensures var r := ProxyCall(h, w, className, methodName, args, stringify);
            && r.Success?
            && r.value.posted.content.methodName == Str(methodName)
            && |r.value.posted.content.paramValues.value| == |args|
            && forall i :: 0 <= i < |args| ==>
                 r.value.posted.content.paramValues.value[i] == StringifiedElement(stringify, args[i])
  {
  }

  /** One call made on the host object, by page code or by a callback script from the host. */
  datatype Call =
    | Invoke(className: JsValue, methodName: JsValue, paramValues: JsValue)
    | Raw(content: JsValue)
    | Resolve(id: int, message: string)
    | Reject(id: int, message: string)

  /** One call: the host afterwards and what it posted (nothing when it throws). */
  function Step(h: Host, w: Window, c: Call, stringify: JsValue -> Option<string>, parse: string -> Result<JsValue, string>)
    : (r: (Host, seq<Posted>))
    requires Valid(h)
    ensures Valid(r.0) && |r.1| <= 1
    ensures h.nextCallbackId <= r.0.nextCallbackId && h.callbacks.Keys <= r.0.callbacks.Keys
  {
    match c
    case Invoke(className, methodName, paramValues) =>
      (match SendInvokeMessageToDotNet(h, w, className, methodName, paramValues, stringify)
       case Failure(_) => (h, [])
       case Success(inv) => (inv.host, [inv.posted]))
    case Raw(message) => (h, [SendRawMessageToDotNet(w, message)])
    case Resolve(id, message) =>
      (match ResolveCallback(h, id, message, parse)
       case Failure(_) => (h, [])
       case Success(h') => (h', []))
    case Reject(id, message) => (RejectCallback(h, id, message), [])
  }

  /** The callback ids of the invoke messages posted, in order. */
  function InvokeIds(posted: seq<Posted>): seq<int> {
    if posted == [] then []
    else
      var c := posted[0].content;
      (if c.InvokeContent? && c.callbackId.Some? then [c.callbackId.value] else []) + InvokeIds(posted[1..])
  }

  lemma {:induction false} InvokeIdsAppend(a: seq<Posted>, b: seq<Posted>)
    ensures InvokeIds(a + b) == InvokeIds(a) + InvokeIds(b)
  {
    if a == [] {
      assert a + b == b;
    } else {
      assert (a + b)[0] == a[0] && (a + b)[1..] == a[1..] + b;
      InvokeIdsAppend(a[1..], b);
    }
  }

  /** A run of calls, in order: the final host and every message posted. */
  function Run(h: Host, w: Window, calls: seq<Call>, stringify: JsValue -> Option<string>,
               parse: string -> Result<JsValue, string>): (r: (Host, seq<Posted>))
    requires Valid(h)
    ensures Valid(r.0)
    decreases |calls|
  {
    if calls == [] then (h, [])
    else
      var (h1, posted) := Step(h, w, calls[0], stringify, parse);
      var (h2, rest) := Run(h1, w, calls[1..], stringify, parse);
      (h2, posted + rest)
  }

  predicate StrictlyIncreasing(ids: seq<int>) {
    forall i, j :: 0 <= i < j < |ids| ==> ids[i] < ids[j]
  }

  /** An invoke message posted by one step carries the id that step handed out. */
  lemma StepInvokeIds(h: Host, w: Window, c: Call, stringify: JsValue -> Option<string>, parse: string -> Result<JsValue, string>)
    requires Valid(h)
    ensures var (h', posted) := Step(h, w, c, stringify, parse);
            && (InvokeIds(posted) == [] || InvokeIds(posted) == [h.nextCallbackId])
            && (InvokeIds(posted) == [] ==> h'.nextCallbackId == h.nextCallbackId)
            && (InvokeIds(posted) != [] ==> h'.nextCallbackId == h.nextCallbackId + 1)
  {
    var (h', posted) := Step(h, w, c, stringify, parse);
    if posted != [] {
      assert InvokeIds(posted) == InvokeIds([posted[0]]) by {
        assert posted == [posted[0]];
      }
    }
  }

  /**
   * Over any run of calls the host never removes an entry, and the ids of the
   * invoke messages it posts are strictly increasing, all issued in this run,
   * and all still in the table at the end.
   */
  lemma {:induction false} RunIssuesIncreasingIds(h: Host, w: Window, calls: seq<Call>,
                                                  stringify: JsValue -> Option<string>,
                                                  parse: string -> Result<JsValue, string>)
    requires Valid(h)
    ensures var (h', posted) := Run(h, w, calls, stringify, parse);
            var ids := InvokeIds(posted);
            && h.callbacks.Keys <= h'.callbacks.Keys
            && StrictlyIncreasing(ids)
            && (forall i :: 0 <= i < |ids| ==> h.nextCallbackId <= ids[i] < h'.nextCallbackId && ids[i] in h'.callbacks)
    decreases |calls|
  {
    if calls != [] {
      var step := Step(h, w, calls[0], stringify, parse);
      var h1, posted := step.0, step.1;
      var run := Run(h1, w, calls[1..], stringify, parse);
      assert Run(h, w, calls, stringify, parse) == (run.0, posted + run.1);
      StepInvokeIds(h, w, calls[0], stringify, parse);
      RunIssuesIncreasingIds(h1, w, calls[1..], stringify, parse);
      InvokeIdsAppend(posted, run.1);
      if InvokeIds(posted) != [] {
        StepIssuesEntry(h, w, calls[0], stringify, parse);
      }
      RunAdvances(h1, w, calls[1..], stringify, parse);
      IncreasingAfterOne(InvokeIds(posted), InvokeIds(run.1), h.nextCallbackId, h1.nextCallbackId, run.0.nextCallbackId);
    }
  }

  /** A run never moves the next id back. */
  lemma {:induction false} RunAdvances(h: Host, w: Window, calls: seq<Call>, stringify: JsValue -> Option<string>,
                                       parse: string -> Result<JsValue, string>)
    requires Valid(h)
    ensures h.nextCallbackId <= Run(h, w, calls, stringify, parse).0.nextCallbackId
    decreases |calls|
  {
    if calls != [] {
      RunAdvances(Step(h, w, calls[0], stringify, parse).0, w, calls[1..], stringify, parse);
    }
  }

  /** A step that posts an invoke leaves a table entry under the id it posted. */
  lemma StepIssuesEntry(h: Host, w: Window, c: Call, stringify: JsValue -> Option<string>, parse: string -> Result<JsValue, string>)
    requires Valid(h)
    requires InvokeIds(Step(h, w, c, stringify, parse).1) != []
    ensures h.nextCallbackId in Step(h, w, c, stringify, parse).0.callbacks
  {
  }

  /** At most one id, followed by larger increasing ids, is increasing. */
  lemma IncreasingAfterOne(first: seq<int>, later: seq<int>, lo: int, mid: int, hi: int)
    requires first == [] || first == [lo]
    requires mid == lo + |first|
    requires StrictlyIncreasing(later) && forall i :: 0 <= i < |later| ==> mid <= later[i] < hi
    requires mid <= hi
    ensures StrictlyIncreasing(first + later)
    ensures forall i :: 0 <= i < |first + later| ==> lo <= (first + later)[i] < hi
  {
  }

  /** The first resolve of a pending callback wins; later resolves and rejects leave it as it is. */
  lemma SettledStaysSettled(h: Host, id: int, message: string, parse: string -> Result<JsValue, string>)
    requires id in h.callbacks && h.callbacks[id].Fulfilled?
    ensures RejectCallback(h, id, message) == h
    ensures ResolveCallback(h, id, message, parse).Success? ==> ResolveCallback(h, id, message, parse).value == h
  {
    assert h.callbacks[id := h.callbacks[id]] == h.callbacks;
  }

  /** A rejection from the host reaches the awaiting caller as a fulfilled value: the raw message text. */
  lemma RejectFulfilsWithMessage(h: Host, w: Window, className: JsValue, methodName: JsValue, paramValues: JsValue,
                                 message: string, stringify: JsValue -> Option<string>)
    requires Valid(h) && ParamList(paramValues).Some?
    ensures var inv := SendInvokeMessageToDotNet(h, w, className, methodName, paramValues, stringify).value;
            RejectCallback(inv.host, inv.callbackId, message).callbacks[inv.callbackId] == Fulfilled(Str(message))
  {
  }
}
