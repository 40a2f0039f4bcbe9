/**
 * `HybridWebViewObjectHost`: the registry of objects script code may call,
 * and the dispatcher that turns one invoke message into exactly one
 * resolve or reject of the script-side promise (or, for a method returning
 * a task, a resolve once the task completes).
 *
 * Reflection is replaced by descriptors: a host object is its method
 * descriptors, and `GetMethod` is a lookup by exact name among them.
 * JSON (de)serialisation, the reflective call itself and the text of
 * `Exception.ToString()` are the parameters `deserialize`, `invoke`,
 * `serialize` and `describe`; `V` is the type of the values they produce.
 */
module HybridWebViewObjectHost {
  import opened Wrappers
  import opened Text

  /** A public instance method: its name, its parameters' types, and whether the last one is `params`. */
  datatype MethodInfo = MethodInfo(name: string, parameterTypes: seq<string>, hasParamArray: bool)

  /** A registered object, seen through its public instance methods. */
  datatype HostObject = HostObject(typeName: string, methods: seq<MethodInfo>)

  type Registry = map<string, HostObject>

  /** `AddObject` (`TryAdd`): adds and answers true only for a new name; an existing name keeps its object. */
  function AddObject(registry: Registry, name: string, obj: HostObject): (r: (bool, Registry))
    ensures r.0 <==> name !in registry
    ensures name in r.1 && r.1[name] == (if r.0 then obj else registry[name])
    ensures r.1.Keys == registry.Keys + {name}
    ensures forall k :: k in registry && k != name ==> r.1[k] == registry[k]
  {
    if name in registry then (false, registry) else (true, registry[name := obj])
  }

  /** `RemoveObject` (`TryRemove`): true exactly when the name was there; the name is gone afterwards. */
  function RemoveObject(registry: Registry, name: string): (r: (bool, Registry))
    ensures r.0 <==> name in registry
    ensures r.1.Keys == registry.Keys - {name}
    ensures forall k :: k in r.1 ==> r.1[k] == registry[k]
  {
    (name in registry, registry - {name})
  }

  /** Adding a new name and removing it again restores the registry. */
  lemma AddThenRemove(registry: Registry, name: string, obj: HostObject)
    requires name !in registry
    ensures RemoveObject(AddObject(registry, name, obj).1, name) == (true, registry)
  {
    var removed := RemoveObject(AddObject(registry, name, obj).1, name).1;
    assert removed.Keys == registry.Keys;
    assert forall k :: k in removed ==> removed[k] == registry[k];
    assert removed == registry;
  }

  /** Adding under a taken name changes nothing, however often it is tried. */
  lemma AddTakenIsNoOp(registry: Registry, name: string, obj: HostObject)
    requires name in registry
    ensures AddObject(registry, name, obj) == (false, registry)
  {
    var r := AddObject(registry, name, obj).1;
    assert r.Keys == registry.Keys;
  }

  /** What `Type.GetMethod(name, ...)` finds. */
  datatype MethodLookup = NoMethod | Method(info: MethodInfo) | Ambiguous

  /** `GetMethod` by exact, case-sensitive name: none, the only one, or an ambiguity (which throws). */
  function GetMethod(obj: HostObject, name: string): (r: MethodLookup)
    ensures r.NoMethod? <==> forall i :: 0 <= i < |obj.methods| ==> obj.methods[i].name != name
    ensures r.Method? ==> exists k :: 0 <= k < |obj.methods| && obj.methods[k] == r.info && r.info.name == name
                                      && forall i :: 0 <= i < |obj.methods| && obj.methods[i].name == name ==> i == k
    ensures r.Ambiguous? <==> exists i, j :: 0 <= i < j < |obj.methods| && obj.methods[i].name == name
                                              && obj.methods[j].name == name
  {
    var found := PositionsFrom(obj.methods, (m: MethodInfo) => m.name == name, 0);
    if |found| == 0 then NoMethod
    else if |found| == 1 then
      assert found[0] in found;
      Method(obj.methods[found[0]])
    else
      assert found[0] in found && found[1] in found;
      Ambiguous
  }

  /** An exception raised while dispatching. */
  datatype HostException =
    | ArgumentNull(paramName: string)   // a null class or method name
    | AmbiguousMatch                    // `GetMethod` found overloads
    | InvalidOperation(message: string) // thrown by `GetMethodParams`
    | IndexOutOfRange                   // more values than parameters
    | NullReference                     // `ParamValues` missing from the message
    | Raised(detail: string)            // thrown by deserialisation, the method itself or serialisation

  /** One argument of the reflective call: a decoded value, or `Type.Missing`. */
  datatype Arg<V> = Decoded(value: V) | Missing

  /** Decoding `values` against the first parameter types in order; the first failure is thrown. */
  function DecodeAll<V>(values: seq<string>, types: seq<string>, deserialize: (string, string) -> Result<V, HostException>)
    : (r: Result<seq<Arg<V>>, HostException>)
    requires |values| <= |types|
    ensures r.Success? <==> forall i :: 0 <= i < |values| ==> deserialize(values[i], types[i]).Success?
    ensures r.Success? ==> |r.value| == |values|
                           && forall i :: 0 <= i < |values| ==> r.value[i] == Decoded(deserialize(values[i], types[i]).value)
    ensures r.Failure? ==> exists i :: 0 <= i < |values| && deserialize(values[i], types[i]) == Failure(r.error)
                                       && forall j :: 0 <= j < i ==> deserialize(values[j], types[j]).Success?
  {
    if values == [] then Success([])
    else match deserialize(values[0], types[0])
      case Failure(e) => Failure(e)
      case Success(v) =>
        match DecodeAll(values[1..], types[1..], deserialize)
        case Failure(e) =>
          ghost var i :| 0 <= i < |values| - 1 && deserialize(values[1..][i], types[1..][i]) == Failure(e)
                         && forall j :: 0 <= j < i ==> deserialize(values[1..][j], types[1..][j]).Success?;
          assert deserialize(values[i + 1], types[i + 1]) == Failure(e);
          forall j | 0 < j < i + 1 ensures deserialize(values[j], types[j]).Success? {
            assert values[j] == values[1..][j - 1] && types[j] == types[1..][j - 1];
          }
          Failure(e)
        case Success(rest) => Success([Decoded(v)] + rest)
  }

  function ZeroParametersMessage(className: string, methodName: string, count: nat): string {
    "The method " + className + "." + methodName + " takes Zero(0) parameters, was called "
    + NatToString(count) + " parameter(s)."
  }

  function ParamArrayMessage(className: string, methodName: string): string {
    "The method " + className + "." + methodName
    + " has a parameter array as it's last argument which is not currently supported."
  }

  /**
   * `GetMethodParams`: the argument array for the call, `None` for null.
   * `paramValues` is `None` when the message had no `ParamValues`.
   */
  function GetMethodParams<V>(className: string, methodName: string, info: MethodInfo,
                              paramValues: Option<seq<string>>,
                              deserialize: (string, string) -> Result<V, HostException>)
    : (r: Result<Option<seq<Arg<V>>>, HostException>)
    ensures r == Success(None) <==> info.parameterTypes == [] && paramValues == Some([])
    ensures info.parameterTypes == [] && paramValues.Some? && paramValues.value != [] ==>
              r == Failure(InvalidOperation(ZeroParametersMessage(className, methodName, |paramValues.value|)))
    ensures info.parameterTypes != [] && info.hasParamArray ==>
              r == Failure(InvalidOperation(ParamArrayMessage(className, methodName)))
    ensures paramValues.None? ==> r.Failure?
    ensures r.Success? && r.value.Some? ==>
              var args, values, n := r.value.value, paramValues.value, |info.parameterTypes|;
              && |args| == n && |values| <= n && !info.hasParamArray
              && (forall i :: 0 <= i < |values| ==>
                    deserialize(values[i], info.parameterTypes[i]).Success?
                    && args[i] == Decoded(deserialize(values[i], info.parameterTypes[i]).value))
              && (forall i :: |values| <= i < n ==> args[i] == Missing)
    ensures paramValues.Some? && 0 < |info.parameterTypes| < |paramValues.value| ==> r.Failure?
    ensures paramValues.Some? && info.parameterTypes != [] && !info.hasParamArray && r.Failure? ==>
              || (r.error == IndexOutOfRange && |info.parameterTypes| < |paramValues.value|)
              || exists i :: 0 <= i < |paramValues.value| && i < |info.parameterTypes|
                             && deserialize(paramValues.value[i], info.parameterTypes[i]) == Failure(r.error)
  {
    var types := info.parameterTypes;
    if types == [] && paramValues.None? then Failure(NullReference)
    else if types == [] && paramValues.value == [] then Success(None)
    else if types == [] then Failure(InvalidOperation(ZeroParametersMessage(className, methodName, |paramValues.value|)))
    else if info.hasParamArray then Failure(InvalidOperation(ParamArrayMessage(className, methodName)))
    else if paramValues.None? then Failure(NullReference)
    else
      var values := paramValues.value;
      if |values| > |types| then
        // the loop decodes one value per parameter, then indexes past the last parameter
        var decoded :- DecodeAll(values[..|types|], types, deserialize);
        Failure(IndexOutOfRange)
      else
        var decoded :- DecodeAll(values, types, deserialize);
        Success(Some(decoded + seq(|types| - |values|, _ => Missing)))
  }

  /** More values than parameters is an error even when every value decodes. */
  lemma TooManyValuesFail<V>(className: string, methodName: string, info: MethodInfo,
                             values: seq<string>, deserialize: (string, string) -> Result<V, HostException>)
    requires 0 < |info.parameterTypes| < |values| && !info.hasParamArray
    requires forall i :: 0 <= i < |info.parameterTypes| ==> deserialize(values[i], info.parameterTypes[i]).Success?
    ensures GetMethodParams(className, methodName, info, Some(values), deserialize) == Failure(IndexOutOfRange)
  {
    var n := |info.parameterTypes|;
    assert forall i :: 0 <= i < n ==> values[..n][i] == values[i];
  }

  /** A task's run: whether its runtime type is generic, and its `Result` or the exception it faults with. */
  datatype TaskRun<V> = TaskRun(isGenericType: bool, outcome: Result<Option<V>, HostException>)

  /** What the reflective call returned: a `ValueTask` or a `Task` (awaited later), or any other value. */
  datatype ReturnValue<V> =
    | ValueTaskReturn(task: TaskRun<V>)
    | TaskReturn(task: TaskRun<V>)
    | PlainReturn(value: Option<V>)

  /** The one reply a dispatch makes: resolve now, reject now, or resolve when the task completes. */
  datatype Reply<V> =
    | Resolved(id: int, json: string)
    | Rejected(id: int, message: string)
    | Deferred(id: int, task: TaskRun<V>)

  /** The message of an invoke call from script code; `None` for a missing field. */
  datatype InvokeData = InvokeData(
    className: Option<string>, methodName: Option<string>, callbackId: int, paramValues: Option<seq<string>>)

  datatype Env<!V> = Env(
    resolveObject: Option<(Registry, string) -> Result<Registry, HostException>>, // the ResolveObject event, when it has a subscriber
    deserialize: (string, string) -> Result<V, HostException>,
    invoke: (HostObject, MethodInfo, Option<seq<Arg<V>>>) -> Result<ReturnValue<V>, HostException>,
    serialize: Option<V> -> Result<string, HostException>,
    describe: HostException -> string)

  /** A dispatch ends with the registry as the hook left it and one reply, or an exception escapes it. */
  datatype Dispatch<V> =
    | Replied(registry: Registry, hookRaised: bool, reply: Reply<V>)
    | Escaped(error: HostException)

  /**
   * The registry after the `ResolveObject` hook, which is raised only when
   * the class is missing; whether it was raised. The hook runs outside the
   * `try`, so an exception from its handler escapes.
   */
  function AfterHook<V>(env: Env<V>, registry: Registry, className: string): (r: Result<(bool, Registry), HostException>)
    ensures r.Failure? <==>
              className !in registry && env.resolveObject.Some? && env.resolveObject.value(registry, className).Failure?
    ensures r.Failure? ==> r.error == env.resolveObject.value(registry, className).error
    ensures r.Success? ==> (r.value.0 <==> className !in registry && env.resolveObject.Some?)
    ensures r.Success? && !r.value.0 ==> r.value.1 == registry
    ensures r.Success? && r.value.0 ==> r.value.1 == env.resolveObject.value(registry, className).value
  {
    if className !in registry && env.resolveObject.Some? then
      match env.resolveObject.value(registry, className)
      case Failure(e) => Failure(e)
      case Success(after) => Success((true, after))
    else Success((false, registry))
  }

  /** The part of a dispatch inside `try`: arguments, the call, and the reply to what it returned. */
  function CallMethod<V>(env: Env<V>, target: HostObject, className: string, info: MethodInfo, data: InvokeData)
    : (r: Reply<V>)
    ensures r.id == data.callbackId
    ensures GetMethodParams(className, info.name, info, data.paramValues, env.deserialize).Failure? ==>
              r == Rejected(data.callbackId, env.describe(GetMethodParams(className, info.name, info, data.paramValues, env.deserialize).error))
    ensures r.Deferred? ==>
              var args := GetMethodParams(className, info.name, info, data.paramValues, env.deserialize);
              && args.Success?
              && env.invoke(target, info, args.value).Success?
              && !env.invoke(target, info, args.value).value.PlainReturn?
              && r.task == env.invoke(target, info, args.value).value.task
    ensures r.Resolved? ==>
              var args := GetMethodParams(className, info.name, info, data.paramValues, env.deserialize);
              && args.Success?
              && env.invoke(target, info, args.value).Success?
              && env.invoke(target, info, args.value).value.PlainReturn?
              && env.serialize(env.invoke(target, info, args.value).value.value) == Success(r.json)
    ensures GetMethodParams(className, info.name, info, data.paramValues, env.deserialize).Success? ==>
              var args := GetMethodParams(className, info.name, info, data.paramValues, env.deserialize).value;
              match env.invoke(target, info, args)
              case Failure(e) => r == Rejected(data.callbackId, env.describe(e))
              case Success(ValueTaskReturn(task)) => r == Deferred(data.callbackId, task)
              case Success(TaskReturn(task)) => r == Deferred(data.callbackId, task)
              case Success(PlainReturn(value)) =>
                match env.serialize(value)
                case Failure(e) => r == Rejected(data.callbackId, env.describe(e))
                case Success(json) => r == Resolved(data.callbackId, json)
  {
    var id := data.callbackId;
    match GetMethodParams(className, info.name, info, data.paramValues, env.deserialize)
    case Failure(e) => Rejected(id, env.describe(e))
    case Success(args) =>
      match env.invoke(target, info, args)
      case Failure(e) => Rejected(id, env.describe(e))
      case Success(ValueTaskReturn(task)) => Deferred(id, task)
      case Success(TaskReturn(task)) => Deferred(id, task)
      case Success(PlainReturn(value)) =>
        match env.serialize(value)
        case Failure(e) => Rejected(id, env.describe(e))
        case Success(json) => Resolved(id, json)
  }

  /**
   * `InvokeDotNetMethod`: look the class up (after giving the hook a chance
   * to add it), then the method, then call it. A missing class or method is
   * a reject; a null name, an ambiguous method name or the hook's exception
   * escapes, as they are all outside the `try`.
   */
  function InvokeDotNetMethod<V>(env: Env<V>, registry: Registry, data: InvokeData): (r: Dispatch<V>)
    ensures data.className.None? ==> r == Escaped(ArgumentNull("key"))
    ensures data.className.Some? && AfterHook(env, registry, data.className.value).Failure? ==>
              r == Escaped(AfterHook(env, registry, data.className.value).error)
    ensures data.className.Some? && AfterHook(env, registry, data.className.value).Success? ==>
              var className, hooked := data.className.value, AfterHook(env, registry, data.className.value).value;
              var current := hooked.1;
              && (className !in current ==>
                    r == Replied(current, hooked.0, Rejected(data.callbackId, "Invalid class name " + className + ".")))
              && (className in current && data.methodName.None? ==> r == Escaped(ArgumentNull("name")))
              && (className in current && data.methodName.Some? ==>
                    match GetMethod(current[className], data.methodName.value)
                    case Ambiguous => r == Escaped(AmbiguousMatch)
                    case NoMethod =>
                      r == Replied(current, hooked.0,
                                   Rejected(data.callbackId, "Invalid method " + className + "." + data.methodName.value + "."))
                    case Method(info) =>
                      r == Replied(current, hooked.0, CallMethod(env, current[className], className, info, data)))
    ensures r.Replied? ==>
              && data.className.Some?
              && r.reply.id == data.callbackId
              && (r.hookRaised <==> data.className.value !in registry && env.resolveObject.Some?)
              && r.registry == AfterHook(env, registry, data.className.value).value.1
    ensures r.Escaped? <==>
              || data.className.None?
              || AfterHook(env, registry, data.className.value).Failure?
              || (data.className.value in AfterHook(env, registry, data.className.value).value.1
                  && (data.methodName.None?
                      || GetMethod(AfterHook(env, registry, data.className.value).value.1[data.className.value],
                                   data.methodName.value).Ambiguous?))
  {
    if data.className.None? then Escaped(ArgumentNull("key"))
    else
      var className := data.className.value;
      match AfterHook(env, registry, className)
      case Failure(e) => Escaped(e)
      case Success((hookRaised, current)) =>
        if className !in current then
          Replied(current, hookRaised, Rejected(data.callbackId, "Invalid class name " + className + "."))
        else if data.methodName.None? then Escaped(ArgumentNull("name"))
        else
          var target := current[className];
          match GetMethod(target, data.methodName.value)
          case Ambiguous => Escaped(AmbiguousMatch)
          case NoMethod =>
            Replied(current, hookRaised, Rejected(data.callbackId, "Invalid method " + className + "." + data.methodName.value + "."))
          case Method(info) => Replied(current, hookRaised, CallMethod(env, target, className, info, data))
  }

  /**
   * A class that is registered, with exactly one public method of the asked
   * name, gets that method called; the hook is not raised and the registry
   * is unchanged.
   */
  lemma RegisteredMethodIsCalled<V>(env: Env<V>, registry: Registry, data: InvokeData, k: nat)
    requires data.className.Some? && data.className.value in registry && data.methodName.Some?
    requires var methods := registry[data.className.value].methods;
             k < |methods| && methods[k].name == data.methodName.value
             && forall i :: 0 <= i < |methods| && methods[i].name == data.methodName.value ==> i == k
    ensures var className := data.className.value;
            InvokeDotNetMethod(env, registry, data)
            == Replied(registry, false, CallMethod(env, registry[className], className, registry[className].methods[k], data))
  {
    var target := registry[data.className.value];
    var lookup := GetMethod(target, data.methodName.value);
    assert !lookup.NoMethod? by {
      assert target.methods[k].name == data.methodName.value;
    }
    assert !lookup.Ambiguous?;
  }

  /**
   * A missing class that the `ResolveObject` handler registers is dispatched
   * to as if it had been there; the hook counts as raised.
   */
  lemma HookRegisteredClassIsFound<V>(env: Env<V>, registry: Registry, data: InvokeData, after: Registry)
    requires data.className.Some? && data.className.value !in registry && data.methodName.Some?
    requires env.resolveObject.Some? && env.resolveObject.value(registry, data.className.value) == Success(after)
    requires data.className.value in after
    requires GetMethod(after[data.className.value], data.methodName.value).Method?
    ensures var className := data.className.value;
            InvokeDotNetMethod(env, registry, data)
            == Replied(after, true, CallMethod(env, after[className], className,
                                               GetMethod(after[className], data.methodName.value).info, data))
  {
  }

  /**
   * `ResolveTask`: once the task completes, resolve with its `Result` if its
   * type is generic and with null otherwise; a task that faults (or a result
   * that does not serialise) produces no reply at all.
   */
  function ResolveTask<V>(id: int, task: TaskRun<V>, serialize: Option<V> -> Result<string, HostException>)
    : (r: Option<Reply<V>>)
    ensures task.outcome.Failure? ==> r.None?
    ensures r.Some? ==> r.value.Resolved? && r.value.id == id
    ensures task.outcome.Success? && task.isGenericType ==>
              (r.Some? <==> serialize(task.outcome.value).Success?)
              && (r.Some? ==> r.value.json == serialize(task.outcome.value).value)
    ensures task.outcome.Success? && !task.isGenericType ==>
              (r.Some? <==> serialize(None).Success?)
              && (r.Some? ==> r.value.json == serialize(None).value)
  {
    match task.outcome
    case Failure(_) => None
    case Success(result) =>
      var value := if task.isGenericType then result else None;
      match serialize(value)
      case Failure(_) => None
      case Success(json) => Some(Resolved(id, json))
  }

  /**
   * The scripts a dispatch evaluates now: one for a resolve or reject, none
   * while a task is pending. They are built as the source builds them, with
   * the text pasted between the quotes unescaped.
   */
  function ScriptsNow<V>(r: Dispatch<V>): (scripts: seq<string>)
    ensures r.Escaped? ==> scripts == []
    ensures r.Replied? ==> (|scripts| == 1 <==> !r.reply.Deferred?) && |scripts| <= 1
    ensures r.Replied? && r.reply.Resolved? ==> scripts == [ResolveCallbackScriptAsWritten(r.reply.id, r.reply.json)]
    ensures r.Replied? && r.reply.Rejected? ==> scripts == [RejectCallbackScriptAsWritten(r.reply.id, r.reply.message)]
  {
    if r.Escaped? then []
    else match r.reply
      case Resolved(id, json) => [ResolveCallbackScriptAsWritten(id, json)]
      case Rejected(id, message) => [RejectCallbackScriptAsWritten(id, message)]
      case Deferred(_, _) => []
  }

  /**
   * For a reject message with no quote, backslash or line break, the script
   * a dispatch evaluates hands exactly that message to the script side.
   */
  lemma RejectScriptNowCarriesPlainMessage<V>(r: Dispatch<V>)
    requires r.Replied? && r.reply.Rejected?
    requires var m := r.reply.message;
             forall i :: 0 <= i < |m| ==> m[i] != '\'' && m[i] != '\\' && m[i] != '\n' && m[i] != '\r'
    ensures var prefix := "HybridWebViewDotNetHost.Current.RejectCallback(" + IntToString(r.reply.id) + ", '";
            var script := ScriptsNow(r)[0];
            StartsWith(script, prefix) && ReadLiteral(script[|prefix|..]) == Some((r.reply.message, ")"))
  {
    RejectScriptsAgreeOnPlainText(r.reply.id, r.reply.message);
    RejectScriptCarriesMessage(r.reply.id, r.reply.message);
  }

  // ---- The callback scripts ----

  /** The value a JavaScript single-character escape `\c` stands for; `None` for escapes not modelled here (`\x`, `\u`, digits). */
  function SimpleEscape(c: char): Option<char> {
    if c == 'n' then Some('\n')
    else if c == 'r' then Some('\r')
    else if c == 't' then Some('\t')
    else if c == 'b' then Some('\U{8}')
    else if c == 'f' then Some('\U{C}')
    else if c == 'v' then Some('\U{B}')
    else if c == 'x' || c == 'u' || IsDigit(c) || c == '\n' || c == '\r' then None
    else Some(c)
  }

  function Prepend(c: char, r: Option<(string, string)>): Option<(string, string)> {
    if r.None? then None else Some(([c] + r.value.0, r.value.1))
  }

  /**
   * Reading a single-quoted JavaScript string literal after its opening
   * quote (section 12.9.4 of ECMA-262): the text it denotes and what follows
   * the closing quote. `None` where the literal is unterminated, holds a bare
   * line break, or uses an escape not modelled here.
   */
  function ReadLiteral(s: string): (r: Option<(string, string)>)
    decreases |s|
  {
    if s == [] then None
    else if s[0] == '\'' then Some(([], s[1..]))
    else if s[0] == '\n' || s[0] == '\r' then None
    else if s[0] == '\\' then
      if |s| < 2 then None
      else match SimpleEscape(s[1])
        case None => None
        case Some(c) => Prepend(c, ReadLiteral(s[2..]))
    else Prepend(s[0], ReadLiteral(s[1..]))
  }

  /** Escaping one character for a single-quoted literal. */
  function EscapeChar(c: char): (r: string)
    ensures |r| >= 1
  {
    if c == '\\' then "\\\\"
    else if c == '\'' then "\\'"
    else if c == '\n' then "\\n"
    else if c == '\r' then "\\r"
    else [c]
  }

  function EscapeLiteral(s: string): string {
    if s == [] then [] else EscapeChar(s[0]) + EscapeLiteral(s[1..])
  }

  /** The script as the source builds it: the text pasted between the quotes as it is. */
  function RejectCallbackScriptAsWritten(id: int, message: string): string {
    "HybridWebViewDotNetHost.Current.RejectCallback(" + IntToString(id) + ", '" + message + "')"
  }

  function ResolveCallbackScriptAsWritten(id: int, json: string): string {
    "HybridWebViewDotNetHost.Current.ResolveCallback(" + IntToString(id) + ", '" + json + "')"
  }

  /** The script with the text escaped, so that the literal denotes exactly that text. */
  function RejectCallbackScript(id: int, message: string): string {
    "HybridWebViewDotNetHost.Current.RejectCallback(" + IntToString(id) + ", '" + EscapeLiteral(message) + "')"
  }

  function ResolveCallbackScript(id: int, json: string): string {
    "HybridWebViewDotNetHost.Current.ResolveCallback(" + IntToString(id) + ", '" + EscapeLiteral(json) + "')"
  }

  lemma ReadEscapedChar(c: char, rest: string)
    ensures ReadLiteral(EscapeChar(c) + rest) == Prepend(c, ReadLiteral(rest))
  {
    var s := EscapeChar(c) + rest;
    if c == '\\' || c == '\'' || c == '\n' || c == '\r' {
      assert s[0] == '\\' && s[2..] == rest;
    } else {
      assert s[0] == c && s[1..] == rest;
    }
  }

  /** An escaped text, closed by a quote, reads back as exactly that text, and the literal ends there. */
  lemma {:induction false} ReadEscapeRoundTrip(text: string, rest: string)
    ensures ReadLiteral(EscapeLiteral(text) + "'" + rest) == Some((text, rest))
  {
    if text == [] {
      assert EscapeLiteral(text) + "'" + rest == "'" + rest;
    } else {
      assert EscapeLiteral(text) + "'" + rest == EscapeChar(text[0]) + (EscapeLiteral(text[1..]) + "'" + rest);
      ReadEscapedChar(text[0], EscapeLiteral(text[1..]) + "'" + rest);
      ReadEscapeRoundTrip(text[1..], rest);
      assert [text[0]] + text[1..] == text;
    }
  }

  /** The argument literal of the escaped reject script denotes the message, followed by `)`. */
  lemma RejectScriptCarriesMessage(id: int, message: string)
    ensures var prefix := "HybridWebViewDotNetHost.Current.RejectCallback(" + IntToString(id) + ", '";
            var script := RejectCallbackScript(id, message);
            StartsWith(script, prefix) && ReadLiteral(script[|prefix|..]) == Some((message, ")"))
  {
    var prefix := "HybridWebViewDotNetHost.Current.RejectCallback(" + IntToString(id) + ", '";
    var script := RejectCallbackScript(id, message);
    assert script == prefix + (EscapeLiteral(message) + "'" + ")");
    assert script[|prefix|..] == EscapeLiteral(message) + "'" + ")";
    ReadEscapeRoundTrip(message, ")");
  }

  /** The argument literal of the escaped resolve script denotes the JSON text, followed by `)`. */
  lemma ResolveScriptCarriesJson(id: int, json: string)
    ensures var prefix := "HybridWebViewDotNetHost.Current.ResolveCallback(" + IntToString(id) + ", '";
            var script := ResolveCallbackScript(id, json);
            StartsWith(script, prefix) && ReadLiteral(script[|prefix|..]) == Some((json, ")"))
  {
    var prefix := "HybridWebViewDotNetHost.Current.ResolveCallback(" + IntToString(id) + ", '";
    var script := ResolveCallbackScript(id, json);
    assert script == prefix + (EscapeLiteral(json) + "'" + ")");
    assert script[|prefix|..] == EscapeLiteral(json) + "'" + ")";
    ReadEscapeRoundTrip(json, ")");
  }

  /** Text with no quote, backslash or line break is left as it is by the escaping. */
  lemma {:induction false} EscapePlainText(s: string)
    requires forall i :: 0 <= i < |s| ==> s[i] != '\'' && s[i] != '\\' && s[i] != '\n' && s[i] != '\r'
    ensures EscapeLiteral(s) == s
  {
    if s != [] {
      EscapePlainText(s[1..]);
      assert [s[0]] + s[1..] == s;
    }
  }

  /** A plain reject message gives the same script either way. */
  lemma RejectScriptsAgreeOnPlainText(id: int, message: string)
    requires forall i :: 0 <= i < |message| ==> message[i] != '\'' && message[i] != '\\' && message[i] != '\n' && message[i] != '\r'
    ensures RejectCallbackScript(id, message) == RejectCallbackScriptAsWritten(id, message)
  {
    EscapePlainText(message);
  }

  /** Whatever the source pastes in is read starting right after the opening quote. */
  lemma RejectTailAsWritten(id: int, message: string)
    ensures var prefix := "HybridWebViewDotNetHost.Current.RejectCallback(" + IntToString(id) + ", '";
            var script := RejectCallbackScriptAsWritten(id, message);
            StartsWith(script, prefix) && script[|prefix|..] == message + "')"
  {
    var prefix := "HybridWebViewDotNetHost.Current.RejectCallback(" + IntToString(id) + ", '";
    assert RejectCallbackScriptAsWritten(id, message) == prefix + (message + "')");
  }

  lemma ResolveTailAsWritten(id: int, json: string)
    ensures var prefix := "HybridWebViewDotNetHost.Current.ResolveCallback(" + IntToString(id) + ", '";
            var script := ResolveCallbackScriptAsWritten(id, json);
            StartsWith(script, prefix) && script[|prefix|..] == json + "')"
  {
    var prefix := "HybridWebViewDotNetHost.Current.ResolveCallback(" + IntToString(id) + ", '";
    assert ResolveCallbackScriptAsWritten(id, json) == prefix + (json + "')");
  }

  /** Reading plain characters copies them up to the first quote. */
  lemma ReadPlainPrefix(plain: string, rest: string)
    requires forall i :: 0 <= i < |plain| ==> plain[i] != '\'' && plain[i] != '\\' && plain[i] != '\n' && plain[i] != '\r'
    ensures ReadLiteral(plain + "'" + rest) == Some((plain, rest))
  {
    EscapePlainText(plain);
    ReadEscapeRoundTrip(plain, rest);
  }

  /**
   * As written, a class name with a quote ends the literal early: the
   * promise would be rejected with only part of the message, and `b.')` is
   * left over, which is a syntax error, so the script does not run at all.
   */
  lemma QuoteInClassNameBreaksScriptAsWritten()
    ensures var prefix := "HybridWebViewDotNetHost.Current.RejectCallback(" + IntToString(1) + ", '";
            var script := RejectCallbackScriptAsWritten(1, "Invalid class name a'b.");
            StartsWith(script, prefix) && ReadLiteral(script[|prefix|..]) == Some(("Invalid class name a", "b.')"))
  {
    var plain := "Invalid class name a";
    RejectTailAsWritten(1, "Invalid class name a'b.");
    assert "Invalid class name a'b." + "')" == plain + "'" + "b.')";
    ReadPlainPrefix(plain, "b.')");
  }

  /**
   * As written, the JSON of a string holding a line break (`"a\nb"`, with a
   * backslash) reaches `JSON.parse` with a raw line break inside the string,
   * which `JSON.parse` rejects.
   */
  lemma EscapedJsonAlteredAsWritten()
    ensures var prefix := "HybridWebViewDotNetHost.Current.ResolveCallback(" + IntToString(1) + ", '";
            var script := ResolveCallbackScriptAsWritten(1, "\"a\\nb\"");
            StartsWith(script, prefix) && ReadLiteral(script[|prefix|..]) == Some(("\"a\nb\"", ")"))
  {
    ResolveTailAsWritten(1, "\"a\\nb\"");
    var decoded := "\"a\nb\"";
    assert EscapeLiteral(decoded) == "\"a\\nb\"" by {
      assert EscapeLiteral(decoded[4..]) == "\"";
      assert EscapeLiteral(decoded[3..]) == "b\"";
      assert EscapeLiteral(decoded[2..]) == "\\nb\"";
      assert EscapeLiteral(decoded[1..]) == "a\\nb\"";
    }
    assert "\"a\\nb\"" + "')" == EscapeLiteral(decoded) + "'" + ")";
    ReadEscapeRoundTrip(decoded, ")");
  }
}
