/** The webview side of the extension: the reply helper `invokeCallback`,
    the table of message handlers, and the callback that dispatches every
    message the webview sends. What the extension does in answer is an
    ordered trace of visible effects (messages posted to the webview and
    notifications shown in the window); the configuration section
    "login-demo" is a map. */
module WebviewHelper {
  import opened Host
  import Util

  const UnknownErrorMessage: string := "发生未知错误！"
  const ConfigSavedMessage: string := "修改配置成功！"

  /** The error text for a message type that has no handler. */
  function UnknownHandlerMessage(kind: string): (text: string)
    ensures "未找到名为 " <= text
    ensures |text| == |"未找到名为 "| + |kind| + |" 回调方法!"|
  {
    "未找到名为 " + kind + " 回调方法!"
  }

  /** An inbound webview message. Fields the webview did not send are
      `Undefined`. */
  datatype Message = Message(kind: string, data: Value, key: string, value: Value, cbid: Value)

  /** A message posted to the webview: a reply `{cmd: 'vscodeCallback',
      cbid, data}` or a push `{type, data}` that carries no `cbid`. */
  datatype Posted = Callback(cbid: Value, data: Value) | Push(kind: string, data: Value)

  /** One visible effect, in the order the extension produced it. */
  datatype Effect = Post(msg: Posted) | Show(notice: Notice)

  /** Whether a handler ran to its end or threw a TypeError. */
  type Outcome = Completion<()>

  /** The webview outbox that a trace produces. */
  function Posts(trace: seq<Effect>): seq<Posted>
  {
    if trace == [] then []
    else
      match trace[0]
      case Post(msg) => [msg] + Posts(trace[1..])
      case Show(_) => Posts(trace[1..])
  }

  /** The notifications that a trace produces. */
  function Shown(trace: seq<Effect>): seq<Notice>
  {
    if trace == [] then []
    else
      match trace[0]
      case Show(notice) => [notice] + Shown(trace[1..])
      case Post(_) => Shown(trace[1..])
  }

  /** The correlation ids of the replies in a trace, in order. */
  function ReplyIds(trace: seq<Effect>): seq<Value>
  {
    if trace == [] then []
    else
      match trace[0]
      case Post(Callback(cbid, _)) => [cbid] + ReplyIds(trace[1..])
      case _ => ReplyIds(trace[1..])
  }

  lemma {:induction false} PostsAppend(a: seq<Effect>, b: seq<Effect>)
    ensures Posts(a + b) == Posts(a) + Posts(b)
  {
    if a == [] {
      assert a + b == b;
    } else {
      assert (a + b)[1..] == a[1..] + b;
      PostsAppend(a[1..], b);
    }
  }

  lemma {:induction false} ShownAppend(a: seq<Effect>, b: seq<Effect>)
    ensures Shown(a + b) == Shown(a) + Shown(b)
  {
    if a == [] {
      assert a + b == b;
    } else {
      assert (a + b)[1..] == a[1..] + b;
      ShownAppend(a[1..], b);
    }
  }

  lemma {:induction false} ReplyIdsAppend(a: seq<Effect>, b: seq<Effect>)
    ensures ReplyIds(a + b) == ReplyIds(a) + ReplyIds(b)
  {
    if a == [] {
      assert a + b == b;
    } else {
      assert (a + b)[1..] == a[1..] + b;
      ReplyIdsAppend(a[1..], b);
    }
  }

  /** `getConfiguration('login-demo').get(key)`: `undefined` when unset. */
  function ReadConfig(config: map<string, Value>, key: string): (v: Value)
    ensures v != Undefined ==> key in config && config[key] == v
    ensures key !in config ==> v == Undefined
  {
    if key in config then config[key] else Undefined
  }

  // ---------------------------------------------------------------------
  // invokeCallback
  // ---------------------------------------------------------------------

  /** A handler result is an error result when it is an object whose `code`
      is a number in [400, 600). */
  predicate HasErrorCode(resp: Value)
    ensures HasErrorCode(resp) ==>
      Typeof(resp) == "object" && GetProperty(resp, "code").Normal? && Truthy(GetProperty(resp, "code").value)
  {
    resp.Obj? && "code" in resp.fields && resp.fields["code"].Num?
    && 400.0 <= resp.fields["code"].n < 600.0
  }

  /** The test `typeof resp == 'object' && resp.code && resp.code >= 400 &&
      resp.code < 600`, evaluated left to right; on `null` the access to
      `resp.code` throws. */
  function ClassifyResult(resp: Value): (r: Completion<bool>)
    ensures r.Thrown? <==> resp == Null
    ensures resp != Null ==> r == Normal(HasErrorCode(resp))
  {
    if Typeof(resp) != "object" then Normal(false)
    else
      match GetProperty(resp, "code")
      case Thrown => Thrown
      case Normal(code) => Normal(Truthy(code) && AtLeast(code, 400.0) && Below(code, 600.0))
  }

  /** The classification's boundaries: 400 and 599 are errors, 399 and 600
      are not. */
  lemma ErrorCodeBoundaries(message: Value)
    ensures ClassifyResult(Obj(map["code" := Num(400.0), "message" := message])) == Normal(true)
    ensures ClassifyResult(Obj(map["code" := Num(599.0), "message" := message])) == Normal(true)
    ensures ClassifyResult(Obj(map["code" := Num(399.0), "message" := message])) == Normal(false)
    ensures ClassifyResult(Obj(map["code" := Num(600.0), "message" := message])) == Normal(false)
  {
  }

  /** `resp.message || '发生未知错误！'`. */
  function ErrorText(resp: Value): (text: Value)
    requires resp.Obj?
    ensures Truthy(text)
  {
    var message := GetProperty(resp, "message").value;
    if Truthy(message) then message else Str(UnknownErrorMessage)
  }

  /** What a handler does, given the configuration before it runs. */
  datatype Step = Step(effects: seq<Effect>, config: map<string, Value>, outcome: Outcome)

  /** `invokeCallback(webview, message, resp)`. */
  function CallbackStep(m: Message, resp: Value, config: map<string, Value>): (s: Step)
    ensures s.config == config
    ensures s.outcome.Thrown? <==> resp == Null
    ensures s.outcome.Thrown? ==> s.effects == []
    ensures s.outcome.Normal? ==>
      && Posts(s.effects) == [Callback(m.cbid, resp)]
      && s.effects[|s.effects| - 1] == Post(Callback(m.cbid, resp))
      && Shown(s.effects) == (if HasErrorCode(resp) then [ErrorNotice(ErrorText(resp))] else [])
  {
    match ClassifyResult(resp)
    case Thrown => Step([], config, Thrown)
    case Normal(isError) =>
      var reply := [Post(Callback(m.cbid, resp))];
      assert reply[1..] == [];
      if isError then
        var notice := [Show(ErrorNotice(ErrorText(resp)))];
        assert (notice + reply)[1..] == reply;
        assert Shown(reply) == [];
        Step(notice + reply, config, Normal(()))
      else Step(reply, config, Normal(()))
  }

  // ---------------------------------------------------------------------
  // The handler table and the dispatch
  // ---------------------------------------------------------------------

  /** The five entries of `messageHandler`. */
  datatype Handler = GetConfig | SetConfig | Hello | Hello2 | Hello3

  /** The key of a handler in the table. */
  function HandlerName(h: Handler): (name: string)
    ensures name in {"getConfig", "setConfig", "hello", "hello2", "hello3"}
    ensures "hello" <= name <==> h in {Hello, Hello2, Hello3}
  {
    match h
    case GetConfig => assert "getConfig"[0] != 'h'; "getConfig"
    case SetConfig => assert "setConfig"[0] != 'h'; "setConfig"
    case Hello => "hello"
    case Hello2 => "hello2"
    case Hello3 => "hello3"
  }

  /** `messageHandler[type]`, restricted to the table's own keys. */
  function Lookup(kind: string): (r: Option<Handler>)
    ensures r.Some? <==> kind in {"getConfig", "setConfig", "hello", "hello2", "hello3"}
    ensures r.Some? ==> HandlerName(r.value) == kind
  {
    if kind == "getConfig" then Some(GetConfig)
    else if kind == "setConfig" then Some(SetConfig)
    else if kind == "hello" then Some(Hello)
    else if kind == "hello2" then Some(Hello2)
    else if kind == "hello3" then Some(Hello3)
    else None
  }

  /** Every handler is found under its own key, and under no other. */
  lemma LookupInvertsName(h: Handler, kind: string)
    ensures Lookup(HandlerName(h)) == Some(h)
    ensures Lookup(kind) == Some(h) ==> kind == HandlerName(h)
  {
  }

  /** What each entry of the table does. `hello2` and `hello3` delegate to
      `hello` with their own message. */
  function HandlerStep(h: Handler, m: Message, now: int, config: map<string, Value>): (s: Step)
    ensures s.config == if h == SetConfig then config[m.key := m.value] else config
    ensures s.outcome.Thrown? ==> h == GetConfig && s.effects == []
    ensures h != GetConfig ==> ReplyIds(s.effects) == [] && s.outcome.Normal?
  {
    match h
    case GetConfig => CallbackStep(m, ReadConfig(config, m.key), config)
    case SetConfig =>
      var saved := [Show(InfoNotice(Str(ConfigSavedMessage)))];
      assert saved[1..] == [];
      Step(saved, config[m.key := m.value], Normal(()))
    case Hello => HelloStep(m, now, config)
    case Hello2 => HelloStep(m, now, config)
    case Hello3 => HelloStep(m, now, config)
  }

  /** The `hello` entry: show the message's data, then push the message's
      own type with the current time. */
  function HelloStep(m: Message, now: int, config: map<string, Value>): (s: Step)
    ensures s.config == config && s.outcome.Normal?
    ensures Shown(s.effects) == [InfoNotice(m.data)]
    ensures Posts(s.effects) == [Push(m.kind, Num(now as real))]
    ensures ReplyIds(s.effects) == []
  {
    var effects := [Show(InfoNotice(m.data)), Post(Push(m.kind, Num(now as real)))];
    var push := effects[1..];
    assert push == [Post(Push(m.kind, Num(now as real)))] && push[1..] == [];
    assert Shown(push) == [];
    assert Posts(push) == [Push(m.kind, Num(now as real))];
    assert ReplyIds(push) == [];
    Step(effects, config, Normal(()))
  }

  /** The body of the `onDidReceiveMessage` callback. */
  function DispatchStep(m: Message, now: int, config: map<string, Value>): (s: Step)
    ensures s.outcome.Thrown? ==> s.effects == [] && s.config == config
    ensures Lookup(m.kind).None? ==> Posts(s.effects) == [] && s.config == config
  {
    match Lookup(m.kind)
    case Some(h) => HandlerStep(h, m, now, config)
    case None =>
      var unknown := [Show(ErrorNotice(Str(UnknownHandlerMessage(m.kind))))];
      assert unknown[1..] == [];
      Step(unknown, config, Normal(()))
  }

  /** What one inbound message posts to the webview: one reply carrying the
      message's `cbid` for `getConfig` (unless the stored value is `null`),
      one push of the message's own type and the time for the `hello`
      family, and nothing otherwise, whatever `cbid` the message carries. */
  lemma DispatchPosts(m: Message, now: int, config: map<string, Value>)
    ensures Posts(DispatchStep(m, now, config).effects) ==
      match Lookup(m.kind)
      case Some(GetConfig) =>
        if ReadConfig(config, m.key) == Null then [] else [Callback(m.cbid, ReadConfig(config, m.key))]
      case Some(SetConfig) => []
      case Some(_) => [Push(m.kind, Num(now as real))]
      case None => []
  {
  }

  /** What one inbound message shows to the user: for `getConfig` an error
      notice exactly when the stored value is an error result; one info
      notice for `setConfig` and for the `hello` family; one error notice
      naming the type when no handler has it. */
  lemma DispatchNotices(m: Message, now: int, config: map<string, Value>)
    ensures Shown(DispatchStep(m, now, config).effects) ==
      match Lookup(m.kind)
      case Some(GetConfig) =>
        if HasErrorCode(ReadConfig(config, m.key)) then [ErrorNotice(ErrorText(ReadConfig(config, m.key)))] else []
      case Some(SetConfig) => [InfoNotice(Str(ConfigSavedMessage))]
      case Some(_) => [InfoNotice(m.data)]
      case None => [ErrorNotice(Str(UnknownHandlerMessage(m.kind)))]
  {
  }

  /** Only `setConfig` changes the configuration, and only at its key; only
      `getConfig` on a stored `null` throws, and then nothing is shown or
      posted. */
  lemma DispatchConfig(m: Message, now: int, config: map<string, Value>)
    ensures DispatchStep(m, now, config).config ==
      if Lookup(m.kind) == Some(SetConfig) then config[m.key := m.value] else config
    ensures DispatchStep(m, now, config).outcome.Thrown?
      <==> Lookup(m.kind) == Some(GetConfig) && ReadConfig(config, m.key) == Null
    ensures DispatchStep(m, now, config).outcome.Thrown? ==> DispatchStep(m, now, config).effects == []
  {
  }

  /** The error shown for an unknown type contains that type. */
  lemma UnknownMessageNamesType(kind: string)
    ensures Util.OccursAt(UnknownHandlerMessage(kind), kind, |"未找到名为 "|)
  {
    var text := UnknownHandlerMessage(kind);
    var start := |"未找到名为 "|;
    assert text[start..start + |kind|] == kind;
  }

  /** The replies one inbound message produces: exactly one, carrying the
      message's `cbid`, for a `getConfig` that does not throw; none
      otherwise. */
  lemma {:induction false} DispatchReplyIds(m: Message, now: int, config: map<string, Value>)
    ensures ReplyIds(DispatchStep(m, now, config).effects) ==
      if m.kind == "getConfig" && ReadConfig(config, m.key) != Null then [m.cbid] else []
  {
    var s := DispatchStep(m, now, config);
    match Lookup(m.kind)
    case Some(GetConfig) =>
      var resp := ReadConfig(config, m.key);
      if resp != Null {
        var reply := [Post(Callback(m.cbid, resp))];
        assert reply[1..] == [];
        assert ReplyIds(reply) == [m.cbid];
        if HasErrorCode(resp) {
          var notice := [Show(ErrorNotice(ErrorText(resp)))];
          assert notice[1..] == [];
          assert s.effects == notice + reply;
          ReplyIdsAppend(notice, reply);
        }
      }
    case Some(SetConfig) =>
      assert s.effects[1..] == [];
    case Some(h) =>
      var info := [Show(InfoNotice(m.data))];
      var push := [Post(Push(m.kind, Num(now as real)))];
      assert info[1..] == [] && push[1..] == [];
      assert s.effects == info + push;
      ReplyIdsAppend(info, push);
    case None =>
      assert s.effects[1..] == [];
  }

  /** A value written with `setConfig` is what the next `getConfig` on the
      same key replies with. */
  lemma SetThenGet(write: Message, read: Message, now: int, later: int, config: map<string, Value>)
    requires write.kind == "setConfig" && read.kind == "getConfig"
    requires read.key == write.key && write.value != Null
    ensures var after := DispatchStep(write, now, config).config;
      Posts(DispatchStep(read, later, after).effects) == [Callback(read.cbid, write.value)]
  {
  }

  // ---------------------------------------------------------------------
  // The extension's state as the webview sees it
  // ---------------------------------------------------------------------

  /** The cbids of the `getConfig` messages among those received. */
  function RequestIds(received: seq<Message>): seq<Value>
  {
    if received == [] then []
    else
      var last := received[|received| - 1];
      RequestIds(received[..|received| - 1]) + (if last.kind == "getConfig" then [last.cbid] else [])
  }

  /** Each cbid is replied to in the trace at most as often as a
      `getConfig` message among those received carried it. */
  ghost predicate RepliesRequested(trace: seq<Effect>, received: seq<Message>)
  {
    multiset(ReplyIds(trace)) <= multiset(RequestIds(received))
  }

  /** Dispatching one more message keeps every reply accounted for by a
      `getConfig` request with the same cbid. */
  lemma DispatchKeepsRepliesRequested(
    trace: seq<Effect>, received: seq<Message>, m: Message, now: int, config: map<string, Value>)
    requires RepliesRequested(trace, received)
    ensures RepliesRequested(trace + DispatchStep(m, now, config).effects, received + [m])
  {
    ReplyIdsAppend(trace, DispatchStep(m, now, config).effects);
    DispatchReplyIds(m, now, config);
    assert (received + [m])[..|received + [m]| - 1] == received;
  }

  /** Appending effects that post no reply keeps every reply requested. */
  lemma NoRepliesKeepRequested(trace: seq<Effect>, extra: seq<Effect>, received: seq<Message>)
    requires RepliesRequested(trace, received) && ReplyIds(extra) == []
    ensures RepliesRequested(trace + extra, received)
  {
    ReplyIdsAppend(trace, extra);
  }

  /** One webview panel of the extension: everything it has posted and
      shown so far, in order, and the configuration section. */
  class WebviewHost {
    var trace: seq<Effect>
    var config: map<string, Value>
    /** The messages the webview has sent, in order. */
    ghost var received: seq<Message>

    /** No reply is ever posted that a `getConfig` request did not ask for:
        each cbid is replied to at most as often as a `getConfig` message
        carried it. */
    ghost predicate Valid()
      reads this
    {
      RepliesRequested(trace, received)
    }

    /** The messages posted to the webview so far. */
    function Outbox(): seq<Posted>
      reads this
    {
      Posts(trace)
    }

    /** The notifications shown so far. */
    function Notifications(): seq<Notice>
      reads this
    {
      Shown(trace)
    }

    constructor (initial: map<string, Value>)
      ensures Valid()
      ensures trace == [] && config == initial && received == []
    {
      trace := [];
      config := initial;
      received := [];
    }

    /** `invokeCallback(webview, message, resp)`: warn when `resp` is an
        error result, then reply to the message. A step inside a handler
        run, not an entry point: it records no received message and its
        reply is accounted for only by the dispatch that called it, so it
        does not keep `Valid()` on its own. */
    method InvokeCallback(m: Message, resp: Value) returns (outcome: Outcome)
      modifies this
      ensures var s := CallbackStep(m, resp, old(config));
        trace == old(trace) + s.effects && config == s.config && outcome == s.outcome
      ensures received == old(received)
    {
      var isError := ClassifyResult(resp);
      if isError.Thrown? {
        return Thrown;
      }
      if isError.value {
        trace := trace + [Show(ErrorNotice(ErrorText(resp)))];
      }
      trace := trace + [Post(Callback(m.cbid, resp))];
      return Normal(());
    }

    /** The `getConfig` handler: reply with the stored value under the
        message's key. Like `InvokeCallback`, a step of
        `OnDidReceiveMessage`, which restores `Valid()` around it. */
    method GetConfig(m: Message) returns (outcome: Outcome)
      modifies this
      ensures var s := HandlerStep(Handler.GetConfig, m, 0, old(config));
        trace == old(trace) + s.effects && config == s.config && outcome == s.outcome
      ensures received == old(received)
    {
      var result := ReadConfig(config, m.key);
      outcome := InvokeCallback(m, result);
    }

    /** The `setConfig` handler: store the value under the key and confirm. */
    method SetConfig(m: Message)
      requires Valid()
      modifies this
      ensures Valid()
      ensures var s := HandlerStep(Handler.SetConfig, m, 0, old(config));
        trace == old(trace) + s.effects && config == s.config
      ensures received == old(received)
    {
      var saved := [Show(InfoNotice(Str(ConfigSavedMessage)))];
      NoRepliesKeepRequested(trace, saved, received);
      config := config[m.key := m.value];
      trace := trace + saved;
    }

    /** The `hello` handler: show the data, push the type and the time. */
    method Hello(m: Message, now: int)
      requires Valid()
      modifies this
      ensures Valid()
      ensures var s := HandlerStep(Handler.Hello, m, now, old(config));
        trace == old(trace) + s.effects && config == s.config
      ensures received == old(received)
    {
      var effects := [Show(InfoNotice(m.data)), Post(Push(m.kind, Num(now as real)))];
      NoRepliesKeepRequested(trace, HelloStep(m, now, config).effects, received);
      trace := trace + effects;
    }

    /** The `hello2` handler, which delegates to `hello`. */
    method Hello2(m: Message, now: int)
      requires Valid()
      modifies this
      ensures Valid()
      ensures var s := HandlerStep(Handler.Hello2, m, now, old(config));
        trace == old(trace) + s.effects && config == s.config
      ensures received == old(received)
    {
      Hello(m, now);
    }

    /** The `hello3` handler, which delegates to `hello`. */
    method Hello3(m: Message, now: int)
      requires Valid()
      modifies this
      ensures Valid()
      ensures var s := HandlerStep(Handler.Hello3, m, now, old(config));
        trace == old(trace) + s.effects && config == s.config
      ensures received == old(received)
    {
      Hello(m, now);
    }

    /** `messageHandler[name](webview, message)` for a handler of the table:
        a step of `OnDidReceiveMessage`. Only a `getConfig` run may leave
        `Valid()` broken, since its reply belongs to a message the dispatch
        records afterwards. */
    method RunHandler(h: Handler, m: Message, now: int) returns (outcome: Outcome)
      requires Valid()
      modifies this
      ensures h != Handler.GetConfig ==> Valid()
      ensures var s := HandlerStep(h, m, now, old(config));
        trace == old(trace) + s.effects && config == s.config && outcome == s.outcome
      ensures received == old(received)
    {
      outcome := Normal(());
      match h {
        case GetConfig => outcome := GetConfig(m);
        case SetConfig => SetConfig(m);
        case Hello => Hello(m, now);
        case Hello2 => Hello2(m, now);
        case Hello3 => Hello3(m, now);
      }
    }

    /** The `onDidReceiveMessage` callback: runs the handler registered
        under the message's type, or reports that there is none. */
    method OnDidReceiveMessage(m: Message, now: int) returns (outcome: Outcome)
      requires Valid()
      modifies this
      ensures Valid()
      ensures received == old(received) + [m]
      ensures var s := DispatchStep(m, now, old(config));
        trace == old(trace) + s.effects && config == s.config && outcome == s.outcome
      ensures var s := DispatchStep(m, now, old(config));
        Outbox() == old(Outbox()) + Posts(s.effects) && Notifications() == old(Notifications()) + Shown(s.effects)
    {
      ghost var step := DispatchStep(m, now, config);
      var handler := Lookup(m.kind);
      if handler.Some? {
        outcome := RunHandler(handler.value, m, now);
      } else {
        trace := trace + [Show(ErrorNotice(Str(UnknownHandlerMessage(m.kind))))];
        outcome := Normal(());
      }
      assert trace == old(trace) + step.effects && config == step.config;
      PostsAppend(old(trace), step.effects);
      ShownAppend(old(trace), step.effects);
      DispatchKeepsRepliesRequested(old(trace), received, m, now, old(config));
      received := received + [m];
    }
  }
}
