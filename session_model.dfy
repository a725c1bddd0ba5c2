/**
 * The call-session component of components/Agent.tsx, as values: the status
 * enum, the provider's message shape, the saved transcript, the provider's
 * listener registry, and what each event handler does to the component state.
 * The class in agent.dfy runs these handlers imperatively and is proved
 * against the functions here; the lemmas below state what the source promises.
 */
module SessionModel {
  import opened Base

  datatype CallStatus = Inactive | Connecting | Active | Finished | Error | Completed

  datatype Role = User | System | Assistant
  datatype MessageType = Transcript | FunctionCall | FunctionCallResult | AddMessage
  datatype TranscriptType = Partial | Final

  /** The provider's `Message` payload (types/vapi.d.ts). */
  datatype Message = Message(
    kind: MessageType,
    role: Role,
    transcriptType: Option<TranscriptType>,
    transcript: Option<string>)

  /** One transcript entry; the timestamp is the client clock, passed in. */
  datatype SavedMessage = SavedMessage(role: Role, content: string, timestamp: string)

  /**
   * The event names listeners are registered under; Name gives the string the
   * source uses.
   */
  datatype Channel =
    | CallStartChannel | CallEndChannel | MessageChannel | SpeechStartChannel
    | SpeechEndChannel | ErrorChannel | CallEndedChannel

  function Name(c: Channel): string {
    match c
    case CallStartChannel => "call-start"
    case CallEndChannel => "call-end"
    case MessageChannel => "message"
    case SpeechStartChannel => "speech-start"
    case SpeechEndChannel => "speech-end"
    case ErrorChannel => "error"
    case CallEndedChannel => "callEnded"
  }

  /**
   * Each channel has a name of its own, and `callEnded`, which handleCall
   * listens to, is none of the six names of the mount table.
   */
  lemma NamesDistinct(c: Channel, d: Channel)
    ensures Name(c) == Name(d) <==> c == d
    ensures Name(c) == "callEnded" <==> c == CallEndedChannel
  {
  }

  /** An event as the provider emits it; ChannelOf is the name it is emitted under. */
  datatype ProviderEvent =
    | CallStart
    | CallEnd
    | MessageEvent(message: Message)
    | SpeechStart
    | SpeechEnd
    | ErrorEvent(errorMessage: string)
    | CallEnded

  function ChannelOf(e: ProviderEvent): Channel {
    match e
    case CallStart => CallStartChannel
    case CallEnd => CallEndChannel
    case MessageEvent(_) => MessageChannel
    case SpeechStart => SpeechStartChannel
    case SpeechEnd => SpeechEndChannel
    case ErrorEvent(_) => ErrorChannel
    case CallEnded => CallEndedChannel
  }

  /** The nine closures of the component: six made by the mount effect, three by handleCall. */
  datatype HandlerKind =
    | OnCallStart | OnCallEnd | OnMessage | OnSpeechStart | OnSpeechEnd | OnError
    | HandleMessage | HandleCallEnded | HandleError

  /** The event name the source registers each closure under. */
  function ListensTo(k: HandlerKind): Channel {
    match k
    case OnCallStart => CallStartChannel
    case OnCallEnd => CallEndChannel
    case OnMessage => MessageChannel
    case OnSpeechStart => SpeechStartChannel
    case OnSpeechEnd => SpeechEndChannel
    case OnError => ErrorChannel
    case HandleMessage => MessageChannel
    case HandleCallEnded => CallEndedChannel
    case HandleError => ErrorChannel
  }

  const MountKinds: seq<HandlerKind> := [OnCallStart, OnCallEnd, OnMessage, OnSpeechStart, OnSpeechEnd, OnError]

  /** The environment a closure is created in: one per run of the mount effect, one per call of handleCall. */
  class Scope {
    constructor () {}
  }

  /** A closure. Two handlers are the same function exactly when kind and creating scope agree. */
  datatype Handler = Handler(kind: HandlerKind, scope: Scope)

  /** One `on(event, handler)` registration. */
  datatype Listener = Listener(event: Channel, handler: Handler)

  /** Every registered pair names the event its handler is written for. */
  predicate WellFormed(ls: seq<Listener>) {
    forall i :: 0 <= i < |ls| ==> ls[i].event == ListensTo(ls[i].handler.kind)
  }

  /** No registered pair was created in scope `sc`. */
  predicate ScopeAbsent(ls: seq<Listener>, sc: Scope) {
    forall i :: 0 <= i < |ls| ==> ls[i].handler.scope != sc
  }

  /** The handlers called for an event named `name`, in registration order. */
  function ListenersFor(ls: seq<Listener>, name: Channel): (hs: seq<Handler>)
    ensures |hs| <= |ls|
    ensures forall i :: 0 <= i < |hs| ==> Listener(name, hs[i]) in ls
    ensures forall j :: 0 <= j < |ls| && ls[j].event == name ==> ls[j].handler in hs
  {
    if ls == [] then []
    else (if ls[0].event == name then [ls[0].handler] else []) + ListenersFor(ls[1..], name)
  }

  /** `off(event, handler)`: every occurrence of that pair is removed. */
  function Without(ls: seq<Listener>, l: Listener): (r: seq<Listener>)
    ensures |r| <= |ls|
    ensures forall i :: 0 <= i < |r| ==> r[i] in ls
    ensures l !in r
    ensures forall x :: x in ls && x != l ==> x in r
  {
    if ls == [] then []
    else (if ls[0] == l then [] else [ls[0]]) + Without(ls[1..], l)
  }

  /** One `off` call per pair of `rs`, in the order of `rs`. */
  function RemoveAll(ls: seq<Listener>, rs: seq<Listener>): (r: seq<Listener>)
    ensures forall i :: 0 <= i < |r| ==> r[i] in ls
  {
    if rs == [] then ls
    else Without(RemoveAll(ls, rs[..|rs| - 1]), rs[|rs| - 1])
  }

  /** Reference definition: the pairs of `ls` not among `rs`, order kept. */
  function Keep(ls: seq<Listener>, rs: seq<Listener>): seq<Listener> {
    if ls == [] then [] else (if ls[0] in rs then [] else [ls[0]]) + Keep(ls[1..], rs)
  }

  /** The six pairs the mount effect registers (components/Agent.tsx, eventHandlers). */
  function MountTable(sc: Scope): seq<Listener> {
    [ Listener(CallStartChannel, Handler(OnCallStart, sc)),
      Listener(CallEndChannel, Handler(OnCallEnd, sc)),
      Listener(MessageChannel, Handler(OnMessage, sc)),
      Listener(SpeechStartChannel, Handler(OnSpeechStart, sc)),
      Listener(SpeechEndChannel, Handler(OnSpeechEnd, sc)),
      Listener(ErrorChannel, Handler(OnError, sc)) ]
  }

  /** The three pairs handleCall registers, in the order it registers (and removes) them. */
  function CallTable(sc: Scope): seq<Listener> {
    [ Listener(MessageChannel, Handler(HandleMessage, sc)),
      Listener(CallEndedChannel, Handler(HandleCallEnded, sc)),
      Listener(ErrorChannel, Handler(HandleError, sc)) ]
  }

  /** The component state that provider events can change, with the provider's registry. */
  datatype State = State(
    status: CallStatus,
    messages: seq<SavedMessage>,
    isSpeaking: bool,
    error: string,
    listeners: seq<Listener>)

  /** The mount-time onMessage guard. */
  predicate IsFinalTranscript(m: Message) {
    m.kind == Transcript && m.transcriptType == Some(Final) && Truthy(m.transcript)
  }

  /** The guard of handleCall's handleMessage: any type, any transcriptType. */
  predicate IsAssistantUtterance(m: Message) {
    m.role == Assistant && Truthy(m.transcript)
  }

  /** Whether a handler of kind `k` appends message `m` to the transcript. */
  predicate Accepts(k: HandlerKind, m: Message) {
    (k == OnMessage && IsFinalTranscript(m)) || (k == HandleMessage && IsAssistantUtterance(m))
  }

  /** The entry both message handlers build. */
  function Entry(m: Message, now: string): SavedMessage {
    SavedMessage(m.role, m.transcript.GetOr(""), now)
  }

  /** What one handler does when called with event `e` at client time `now`. */
  function Apply(s: State, h: Handler, e: ProviderEvent, now: string): State {
    match h.kind
    case OnCallStart => s.(status := Active, error := "")
    case OnCallEnd => s.(status := Finished)
    case OnSpeechStart => s.(isSpeaking := true)
    case OnSpeechEnd => s.(isSpeaking := false)
    case OnError =>
      if e.ErrorEvent? then s.(error := e.errorMessage, status := Error) else s
    case OnMessage | HandleMessage =>
      if e.MessageEvent? && Accepts(h.kind, e.message)
      then s.(messages := s.messages + [Entry(e.message, now)])
      else s
    case HandleCallEnded =>
      s.(status := Completed, listeners := RemoveAll(s.listeners, CallTable(h.scope)))
    case HandleError =>
      if e.ErrorEvent?
      then s.(error := e.errorMessage, status := Completed, listeners := RemoveAll(s.listeners, CallTable(h.scope)))
      else s
  }

  /** The handlers `hs` called one after the other on the same event. */
  function Dispatch(s: State, hs: seq<Handler>, e: ProviderEvent, now: string): State
    decreases |hs|
  {
    if hs == [] then s
    else Apply(Dispatch(s, hs[..|hs| - 1], e, now), hs[|hs| - 1], e, now)
  }

  /** The number of handlers of `hs` that append `m`. */
  function AcceptCount(hs: seq<Handler>, m: Message): nat
    decreases |hs|
  {
    if hs == [] then 0
    else AcceptCount(hs[..|hs| - 1], m) + (if Accepts(hs[|hs| - 1].kind, m) then 1 else 0)
  }

  function Repeat(x: SavedMessage, n: nat): seq<SavedMessage> {
    if n == 0 then [] else Repeat(x, n - 1) + [x]
  }

  // ---------------------------------------------------------------------
  // The registry: on/off and cleanup
  // ---------------------------------------------------------------------

  lemma {:induction false} ListenersForConcat(a: seq<Listener>, b: seq<Listener>, name: Channel)
    ensures ListenersFor(a + b, name) == ListenersFor(a, name) + ListenersFor(b, name)
  {
    if a == [] {
      assert a + b == b;
    } else {
      assert (a + b)[1..] == a[1..] + b;
      ListenersForConcat(a[1..], b, name);
    }
  }

  lemma {:induction false} KeepConcat(a: seq<Listener>, b: seq<Listener>, rs: seq<Listener>)
    ensures Keep(a + b, rs) == Keep(a, rs) + Keep(b, rs)
  {
    if a == [] {
      assert a + b == b;
    } else {
      assert (a + b)[1..] == a[1..] + b;
      KeepConcat(a[1..], b, rs);
    }
  }

  lemma {:induction false} KeepDisjoint(ls: seq<Listener>, rs: seq<Listener>)
    requires forall l :: l in ls ==> l !in rs
    ensures Keep(ls, rs) == ls
  {
    if ls != [] {
      KeepDisjoint(ls[1..], rs);
    }
  }

  lemma {:induction false} KeepCovered(ls: seq<Listener>, rs: seq<Listener>)
    requires forall l :: l in ls ==> l in rs
    ensures Keep(ls, rs) == []
  {
    if ls != [] {
      KeepCovered(ls[1..], rs);
    }
  }

  lemma {:induction false} WithoutKeep(ls: seq<Listener>, rs: seq<Listener>, r: Listener)
    ensures Without(Keep(ls, rs), r) == Keep(ls, rs + [r])
  {
    if ls != [] {
      var k := Keep(ls[1..], rs);
      WithoutKeep(ls[1..], rs, r);
      assert (ls[0] in rs + [r]) == (ls[0] in rs || ls[0] == r);
      if ls[0] in rs {
        assert Keep(ls, rs) == k;
      } else {
        assert Keep(ls, rs) == [ls[0]] + k;
        assert ([ls[0]] + k)[1..] == k;
      }
    }
  }

  /** The successive `off` calls remove exactly the listed pairs and keep the order of the rest. */
  lemma {:induction false} RemoveAllIsKeep(ls: seq<Listener>, rs: seq<Listener>)
    ensures RemoveAll(ls, rs) == Keep(ls, rs)
    decreases |rs|
  {
    if rs == [] {
      KeepDisjoint(ls, rs);
    } else {
      var init := rs[..|rs| - 1];
      RemoveAllIsKeep(ls, init);
      WithoutKeep(ls, init, rs[|rs| - 1]);
      assert init + [rs[|rs| - 1]] == rs;
    }
  }

  /** Removing a table registered between two disjoint stretches gives back those stretches. */
  lemma Unregister(before: seq<Listener>, table: seq<Listener>, after: seq<Listener>)
    requires forall l :: l in before ==> l !in table
    requires forall l :: l in after ==> l !in table
    ensures RemoveAll(before + table + after, table) == before + after
  {
    var bt := before + table;
    RemoveAllIsKeep(bt + after, table);
    KeepConcat(bt, after, table);
    KeepConcat(before, table, table);
    assert Keep(before, table) == before by {
      KeepDisjoint(before, table);
    }
    assert Keep(table, table) == [] by {
      KeepCovered(table, table);
    }
    assert Keep(after, table) == after by {
      KeepDisjoint(after, table);
    }
    assert before + [] == before;
  }

  /**
   * The mount effect's cleanup removes exactly its six pairs: whatever was
   * registered before mounting or while mounted by other closures stays, in order.
   */
  lemma MountCleanupRestores(before: seq<Listener>, after: seq<Listener>, sc: Scope)
    requires ScopeAbsent(before, sc) && ScopeAbsent(after, sc)
    ensures RemoveAll(before + MountTable(sc) + after, MountTable(sc)) == before + after
  {
    Unregister(before, MountTable(sc), after);
  }

  /** handleCall's callEnded and error paths remove exactly the three pairs that call registered. */
  lemma CallCleanupRestores(before: seq<Listener>, after: seq<Listener>, sc: Scope)
    requires ScopeAbsent(before, sc) && ScopeAbsent(after, sc)
    ensures RemoveAll(before + CallTable(sc) + after, CallTable(sc)) == before + after
  {
    Unregister(before, CallTable(sc), after);
  }

  /** Three `on` calls in table order append the call table, and keep every pair well formed. */
  lemma AppendCallTable(ls: seq<Listener>, sc: Scope)
    ensures ls + [Listener(MessageChannel, Handler(HandleMessage, sc))]
       + [Listener(CallEndedChannel, Handler(HandleCallEnded, sc))]
       + [Listener(ErrorChannel, Handler(HandleError, sc))] == ls + CallTable(sc)
    ensures WellFormed(ls) ==> WellFormed(ls + CallTable(sc))
  {
  }

  function Only(c: Channel, name: Channel, h: Handler): seq<Handler> {
    if c == name then [h] else []
  }

  lemma ListenersForOne(l: Listener, name: Channel)
    ensures ListenersFor([l], name) == Only(l.event, name, l.handler)
  {
    assert [l][1..] == [];
  }

  lemma MountTableListeners(sc: Scope, name: Channel)
    ensures ListenersFor(MountTable(sc), name) ==
      Only(CallStartChannel, name, Handler(OnCallStart, sc)) + Only(CallEndChannel, name, Handler(OnCallEnd, sc)) +
      Only(MessageChannel, name, Handler(OnMessage, sc)) + Only(SpeechStartChannel, name, Handler(OnSpeechStart, sc)) +
      Only(SpeechEndChannel, name, Handler(OnSpeechEnd, sc)) + Only(ErrorChannel, name, Handler(OnError, sc))
  {
    var t := MountTable(sc);
    var p1, p2, p3, p4 := [t[0]], [t[0]] + [t[1]], [t[0]] + [t[1]] + [t[2]], [t[0]] + [t[1]] + [t[2]] + [t[3]];
    var p5 := p4 + [t[4]];
    assert t == p5 + [t[5]];
    ListenersForOne(t[0], name);
    ListenersForOne(t[1], name);
    ListenersForOne(t[2], name);
    ListenersForOne(t[3], name);
    ListenersForOne(t[4], name);
    ListenersForOne(t[5], name);
    ListenersForConcat(p1, [t[1]], name);
    ListenersForConcat(p2, [t[2]], name);
    ListenersForConcat(p3, [t[3]], name);
    ListenersForConcat(p4, [t[4]], name);
    ListenersForConcat(p5, [t[5]], name);
  }

  lemma CallTableListeners(sc: Scope, name: Channel)
    ensures ListenersFor(CallTable(sc), name) ==
      Only(MessageChannel, name, Handler(HandleMessage, sc)) + Only(CallEndedChannel, name, Handler(HandleCallEnded, sc)) +
      Only(ErrorChannel, name, Handler(HandleError, sc))
  {
    var t := CallTable(sc);
    assert t == [t[0]] + [t[1]] + [t[2]];
    ListenersForOne(t[0], name);
    ListenersForOne(t[1], name);
    ListenersForOne(t[2], name);
    ListenersForConcat([t[0]], [t[1]], name);
    ListenersForConcat([t[0]] + [t[1]], [t[2]], name);
  }

  lemma MountTableFor(sc: Scope, k: HandlerKind)
    requires k in MountKinds
    ensures ListenersFor(MountTable(sc), ListensTo(k)) == [Handler(k, sc)]
  {
    MountTableListeners(sc, ListensTo(k));
  }

  /** Mounting adds exactly one handler to each of the six provider events and none to "callEnded". */
  lemma MountRegistersOnePerEvent(ls: seq<Listener>, sc: Scope)
    ensures forall k :: k in MountKinds ==>
      ListenersFor(ls + MountTable(sc), ListensTo(k)) == ListenersFor(ls, ListensTo(k)) + [Handler(k, sc)]
    ensures ListenersFor(ls + MountTable(sc), CallEndedChannel) == ListenersFor(ls, CallEndedChannel)
  {
    forall k | k in MountKinds
      ensures ListenersFor(ls + MountTable(sc), ListensTo(k)) == ListenersFor(ls, ListensTo(k)) + [Handler(k, sc)]
    {
      ListenersForConcat(ls, MountTable(sc), ListensTo(k));
      MountTableFor(sc, k);
    }
    ListenersForConcat(ls, MountTable(sc), CallEndedChannel);
    MountTableListeners(sc, CallEndedChannel);
  }

  /** handleCall adds one handler each to "message", "callEnded" and "error", and nothing else. */
  lemma CallRegistersThree(ls: seq<Listener>, sc: Scope)
    ensures ListenersFor(ls + CallTable(sc), MessageChannel) == ListenersFor(ls, MessageChannel) + [Handler(HandleMessage, sc)]
    ensures ListenersFor(ls + CallTable(sc), CallEndedChannel) == ListenersFor(ls, CallEndedChannel) + [Handler(HandleCallEnded, sc)]
    ensures ListenersFor(ls + CallTable(sc), ErrorChannel) == ListenersFor(ls, ErrorChannel) + [Handler(HandleError, sc)]
    ensures forall name :: name != MessageChannel && name != CallEndedChannel && name != ErrorChannel ==>
      ListenersFor(ls + CallTable(sc), name) == ListenersFor(ls, name)
  {
    forall name: Channel
      ensures ListenersFor(ls + CallTable(sc), name) == ListenersFor(ls, name) +
        (Only(MessageChannel, name, Handler(HandleMessage, sc)) + Only(CallEndedChannel, name, Handler(HandleCallEnded, sc)) +
         Only(ErrorChannel, name, Handler(HandleError, sc)))
    {
      ListenersForConcat(ls, CallTable(sc), name);
      CallTableListeners(sc, name);
    }
  }

  /** Each of the six events of a freshly mounted component has exactly its own handler. */
  lemma MountedHandlers(sc: Scope)
    ensures ListenersFor(MountTable(sc), CallStartChannel) == [Handler(OnCallStart, sc)]
    ensures ListenersFor(MountTable(sc), CallEndChannel) == [Handler(OnCallEnd, sc)]
    ensures ListenersFor(MountTable(sc), MessageChannel) == [Handler(OnMessage, sc)]
    ensures ListenersFor(MountTable(sc), SpeechStartChannel) == [Handler(OnSpeechStart, sc)]
    ensures ListenersFor(MountTable(sc), SpeechEndChannel) == [Handler(OnSpeechEnd, sc)]
    ensures ListenersFor(MountTable(sc), ErrorChannel) == [Handler(OnError, sc)]
  {
    MountTableListeners(sc, CallStartChannel);
    MountTableListeners(sc, CallEndChannel);
    MountTableListeners(sc, MessageChannel);
    MountTableListeners(sc, SpeechStartChannel);
    MountTableListeners(sc, SpeechEndChannel);
    MountTableListeners(sc, ErrorChannel);
  }

  /** The handlers while a handleCall session in scope `b` is live beside the mount scope `a`. */
  lemma SessionHandlers(a: Scope, b: Scope)
    ensures ListenersFor(MountTable(a) + CallTable(b), CallStartChannel) == [Handler(OnCallStart, a)]
    ensures ListenersFor(MountTable(a) + CallTable(b), MessageChannel) == [Handler(OnMessage, a), Handler(HandleMessage, b)]
    ensures ListenersFor(MountTable(a) + CallTable(b), ErrorChannel) == [Handler(OnError, a), Handler(HandleError, b)]
  {
    ListenersForConcat(MountTable(a), CallTable(b), CallStartChannel);
    ListenersForConcat(MountTable(a), CallTable(b), MessageChannel);
    ListenersForConcat(MountTable(a), CallTable(b), ErrorChannel);
    MountTableListeners(a, CallStartChannel);
    MountTableListeners(a, MessageChannel);
    MountTableListeners(a, ErrorChannel);
    CallTableListeners(b, CallStartChannel);
    CallTableListeners(b, MessageChannel);
    CallTableListeners(b, ErrorChannel);
  }

  // ---------------------------------------------------------------------
  // Events: what a dispatch does to the state
  // ---------------------------------------------------------------------

  /** One more handler: the dispatch of a prefix extended by the next handler. */
  lemma DispatchStep(s: State, hs: seq<Handler>, i: nat, e: ProviderEvent, now: string)
    requires i < |hs|
    ensures Dispatch(s, hs[..i + 1], e, now) == Apply(Dispatch(s, hs[..i], e, now), hs[i], e, now)
  {
    assert hs[..i + 1][..i] == hs[..i];
  }

  lemma {:induction false} DispatchKeepsWellFormed(s: State, hs: seq<Handler>, e: ProviderEvent, now: string)
    requires WellFormed(s.listeners)
    ensures WellFormed(Dispatch(s, hs, e, now).listeners)
    ensures forall l :: l in Dispatch(s, hs, e, now).listeners ==> l in s.listeners
    decreases |hs|
  {
    if hs != [] {
      DispatchKeepsWellFormed(s, hs[..|hs| - 1], e, now);
    }
  }

  predicate IsEntryFor(x: SavedMessage, e: ProviderEvent, now: string) {
    e.MessageEvent? && Truthy(e.message.transcript) &&
    x == SavedMessage(e.message.role, e.message.transcript.value, now)
  }

  /**
   * The transcript is append-only: any dispatch keeps the old entries as a
   * prefix, adds at most one entry per handler, and every added entry carries
   * the event's role, its non-empty transcript and the capture time. Events
   * other than "message" add nothing.
   */
  lemma {:induction false} DispatchAppendOnly(s: State, hs: seq<Handler>, e: ProviderEvent, now: string)
    ensures var r := Dispatch(s, hs, e, now);
      && s.messages <= r.messages
      && |r.messages| <= |s.messages| + |hs|
      && (forall i :: |s.messages| <= i < |r.messages| ==> IsEntryFor(r.messages[i], e, now))
      && (!e.MessageEvent? ==> r.messages == s.messages)
    decreases |hs|
  {
    if hs != [] {
      DispatchAppendOnly(s, hs[..|hs| - 1], e, now);
    }
  }

  /** Call-handler cleanup aside, every closure whose kind is a "constant" setter overrides the one before. */
  predicate IsSetter(k: HandlerKind) {
    k == OnCallStart || k == OnCallEnd || k == OnSpeechStart || k == OnSpeechEnd
  }

  lemma {:induction false} SetterDispatch(s: State, hs: seq<Handler>, e: ProviderEvent, now: string)
    requires hs != []
    requires forall h :: h in hs ==> h.kind == hs[0].kind
    requires IsSetter(hs[0].kind)
    ensures Dispatch(s, hs, e, now) == Apply(s, hs[0], e, now)
    decreases |hs|
  {
    if |hs| > 1 {
      var init := hs[..|hs| - 1];
      assert init[0] == hs[0];
      SetterDispatch(s, init, e, now);
    }
  }

  /**
   * call-start sets ACTIVE and clears the error; call-end sets FINISHED;
   * speech-start and speech-end set the speaking flag. Each changes nothing
   * else, in particular not the transcript or the registry.
   */
  lemma LifecycleEvents(s: State, e: ProviderEvent, now: string)
    requires WellFormed(s.listeners)
    requires e.CallStart? || e.CallEnd? || e.SpeechStart? || e.SpeechEnd?
    requires ListenersFor(s.listeners, ChannelOf(e)) != []
    ensures Dispatch(s, ListenersFor(s.listeners, ChannelOf(e)), e, now) ==
      match e
      case CallStart => s.(status := Active, error := "")
      case CallEnd => s.(status := Finished)
      case SpeechStart => s.(isSpeaking := true)
      case _ => s.(isSpeaking := false)
  {
    var hs := ListenersFor(s.listeners, ChannelOf(e));
    assert forall i :: 0 <= i < |hs| ==> ListensTo(hs[i].kind) == ChannelOf(e);
    LifecycleDispatch(s, hs, e, now);
  }

  lemma LifecycleDispatch(s: State, hs: seq<Handler>, e: ProviderEvent, now: string)
    requires e.CallStart? || e.CallEnd? || e.SpeechStart? || e.SpeechEnd?
    requires hs != []
    requires forall i :: 0 <= i < |hs| ==> ListensTo(hs[i].kind) == ChannelOf(e)
    ensures Dispatch(s, hs, e, now) ==
      match e
      case CallStart => s.(status := Active, error := "")
      case CallEnd => s.(status := Finished)
      case SpeechStart => s.(isSpeaking := true)
      case _ => s.(isSpeaking := false)
  {
    SetterChannel(hs, ChannelOf(e));
    SetterDispatch(s, hs, e, now);
  }

  /** Exactly one closure kind listens to each of the four lifecycle events. */
  lemma SetterChannel(hs: seq<Handler>, c: Channel)
    requires hs != []
    requires c == CallStartChannel || c == CallEndChannel || c == SpeechStartChannel || c == SpeechEndChannel
    requires forall i :: 0 <= i < |hs| ==> ListensTo(hs[i].kind) == c
    ensures forall h :: h in hs ==> h.kind == hs[0].kind
    ensures IsSetter(hs[0].kind) && ListensTo(hs[0].kind) == c
  {
  }

  lemma {:induction false} ErrorDispatch(s: State, hs: seq<Handler>, msg: string, now: string)
    requires hs != []
    requires forall h :: h in hs ==> h.kind == OnError || h.kind == HandleError
    ensures var r := Dispatch(s, hs, ErrorEvent(msg), now);
      && r.error == msg
      && r.status == (if hs[|hs| - 1].kind == OnError then Error else Completed)
      && r.messages == s.messages
      && r.isSpeaking == s.isSpeaking
    decreases |hs|
  {
    if |hs| > 1 {
      ErrorDispatch(s, hs[..|hs| - 1], msg, now);
    }
  }

  /**
   * An "error" event records its message and leaves the transcript and the
   * speaking flag alone. The status is ERROR when the mount-time handler runs
   * last and COMPLETED when a handleCall error handler runs last.
   */
  lemma ErrorEventOutcome(s: State, msg: string, now: string)
    requires WellFormed(s.listeners)
    requires ListenersFor(s.listeners, ErrorChannel) != []
    ensures var hs := ListenersFor(s.listeners, ErrorChannel);
      var r := Dispatch(s, hs, ErrorEvent(msg), now);
      && r.error == msg
      && r.status == (if hs[|hs| - 1].kind == OnError then Error else Completed)
      && r.messages == s.messages
      && r.isSpeaking == s.isSpeaking
  {
    var hs := ListenersFor(s.listeners, ErrorChannel);
    assert forall i :: 0 <= i < |hs| ==> ListensTo(hs[i].kind) == ErrorChannel;
    ErrorDispatch(s, hs, msg, now);
  }

  lemma {:induction false} MessageDispatch(s: State, hs: seq<Handler>, m: Message, now: string)
    requires forall h :: h in hs ==> h.kind == OnMessage || h.kind == HandleMessage
    ensures Dispatch(s, hs, MessageEvent(m), now) ==
      s.(messages := s.messages + Repeat(Entry(m, now), AcceptCount(hs, m)))
    decreases |hs|
  {
    if hs != [] {
      MessageDispatch(s, hs[..|hs| - 1], m, now);
    }
  }

  /**
   * A "message" event appends the event's entry once per registered handler
   * that accepts it, at the end, and changes nothing but the transcript.
   */
  lemma MessageEventOutcome(s: State, m: Message, now: string)
    requires WellFormed(s.listeners)
    ensures var hs := ListenersFor(s.listeners, MessageChannel);
      Dispatch(s, hs, MessageEvent(m), now) ==
        s.(messages := s.messages + Repeat(Entry(m, now), AcceptCount(hs, m)))
  {
    var hs := ListenersFor(s.listeners, MessageChannel);
    assert forall i :: 0 <= i < |hs| ==> ListensTo(hs[i].kind) == MessageChannel;
    MessageDispatch(s, hs, m, now);
  }

  /**
   * With only the mount-time handler listening, a message is appended exactly
   * once, at the end, when it is a final, non-empty transcript; otherwise the
   * state is unchanged.
   */
  lemma MountedMessage(s: State, sc: Scope, m: Message, now: string)
    requires ListenersFor(s.listeners, MessageChannel) == [Handler(OnMessage, sc)]
    ensures Dispatch(s, ListenersFor(s.listeners, MessageChannel), MessageEvent(m), now) ==
      s.(messages := s.messages + if IsFinalTranscript(m) then [Entry(m, now)] else [])
  {
    var hs := ListenersFor(s.listeners, MessageChannel);
    MessageDispatch(s, hs, m, now);
    assert hs[..0] == [];
  }

  /**
   * While a handleCall is live beside the mount-time handler, one event can
   * append twice: an assistant final transcript is saved by both handlers, and
   * an assistant partial transcript is saved by handleCall's handler alone.
   */
  lemma DuplicatedDuringCall(s: State, a: Scope, b: Scope, m: Message, now: string)
    requires ListenersFor(s.listeners, MessageChannel) == [Handler(OnMessage, a), Handler(HandleMessage, b)]
    ensures Dispatch(s, ListenersFor(s.listeners, MessageChannel), MessageEvent(m), now).messages ==
      s.messages + Repeat(Entry(m, now),
        (if IsFinalTranscript(m) then 1 else 0) + (if IsAssistantUtterance(m) then 1 else 0))
  {
    PairMessageDispatch(s, a, b, m, now);
  }

  lemma PairMessageDispatch(s: State, a: Scope, b: Scope, m: Message, now: string)
    ensures Dispatch(s, [Handler(OnMessage, a), Handler(HandleMessage, b)], MessageEvent(m), now).messages ==
      s.messages + Repeat(Entry(m, now),
        (if IsFinalTranscript(m) then 1 else 0) + (if IsAssistantUtterance(m) then 1 else 0))
  {
    var hs := [Handler(OnMessage, a), Handler(HandleMessage, b)];
    MessageDispatch(s, hs, m, now);
    assert hs[..1] == [Handler(OnMessage, a)];
    assert hs[..1][..0] == [];
    var x := Entry(m, now);
    assert AcceptCount(hs[..1][..0], m) == 0;
    assert AcceptCount(hs[..1], m) == (if IsFinalTranscript(m) then 1 else 0);
    assert Repeat(x, 0) == [];
    assert Repeat(x, 2) == [x, x] by {
      assert Repeat(x, 1) == [x];
    }
  }

  // ---------------------------------------------------------------------
  // The FINISHED effect and the feedback step
  // ---------------------------------------------------------------------

  datatype AgentType = Generate | Interview | Call

  /** What one run of the FINISHED effect does. */
  datatype EffectStep = NoEffect | NavigateHome | MissingIds | RequestFeedback(interviewId: string, userId: string)

  /**
   * Only FINISHED triggers anything: "generate" navigates home without
   * requesting feedback, a missing interview or user id stops the step, and
   * otherwise feedback is requested with both ids.
   */
  function FinishedEffect(status: CallStatus, kind: AgentType, interviewId: Option<string>, userId: Option<string>): (r: EffectStep)
    ensures r != NoEffect <==> status == Finished
    ensures r == NavigateHome <==> status == Finished && kind == Generate
    ensures r.RequestFeedback? <==> status == Finished && kind != Generate && Truthy(interviewId) && Truthy(userId)
    ensures r.RequestFeedback? ==> r.interviewId == interviewId.value && r.userId == userId.value
  {
    if status != Finished then NoEffect
    else if kind == Generate then NavigateHome
    else if !Truthy(interviewId) || !Truthy(userId) then MissingIds
    else RequestFeedback(interviewId.value, userId.value)
  }

  /** The dependencies of the FINISHED effect that can change (the props are fixed per component). */
  datatype EffectDeps = EffectDeps(messages: seq<SavedMessage>, status: CallStatus)

  /**
   * One commit: the effect runs only when its dependencies differ from the
   * previous run's (on the first commit there is none), and then does what
   * FinishedEffect says.
   */
  function EffectRun(last: Option<EffectDeps>, deps: EffectDeps, kind: AgentType,
                     interviewId: Option<string>, userId: Option<string>): EffectStep
  {
    if last == Some(deps) then NoEffect else FinishedEffect(deps.status, kind, interviewId, userId)
  }

  /** A recorded call of createFeedback. */
  datatype FeedbackRequest = FeedbackRequest(
    interviewId: string,
    userId: string,
    transcript: seq<SavedMessage>,
    feedbackId: Option<string>)

  /** How the awaited createFeedback call settled: its result, or a rejection (an Error's message if any). */
  datatype FeedbackOutcome = Resolved(success: bool, feedbackId: Option<string>) | Rejected(reason: Option<string>)

  /** Where handleGenerateFeedback navigates and what it records with setError (None: setError not called). */
  datatype FeedbackResult = FeedbackResult(route: string, error: Option<string>)

  function FeedbackRoute(interviewId: string): string {
    "/interview/" + interviewId + "/feedback"
  }

  /**
   * Success with a non-empty feedback id goes to the interview's feedback
   * page and sets no error; every other outcome sets an error and goes home.
   */
  function AfterFeedback(outcome: FeedbackOutcome, interviewId: string): (r: FeedbackResult)
    ensures r.error.None? <==> outcome.Resolved? && outcome.success && Truthy(outcome.feedbackId)
    ensures r.error.None? ==> r.route == FeedbackRoute(interviewId)
    ensures r.error.Some? ==> r.route == "/"
    ensures outcome.Rejected? ==> r.error == Some(outcome.reason.GetOr("Failed to save feedback"))
    ensures outcome.Resolved? && r.error.Some? ==> r.error == Some("Failed to save feedback")
  {
    match outcome
    case Resolved(success, id) =>
      if success && Truthy(id) then FeedbackResult(FeedbackRoute(interviewId), None)
      else FeedbackResult("/", Some("Failed to save feedback"))
    case Rejected(reason) =>
      FeedbackResult("/", Some(reason.GetOr("Failed to save feedback")))
  }

  /** How the awaited provider start settled. */
  datatype StartOutcome = StartResolved | StartRejected(reason: Option<string>)

  /** The assistant configuration handleCall passes to the provider's start. */
  datatype AssistantConfig = AssistantConfig(
    name: string,
    firstMessage: string,
    voiceProvider: string,
    voiceId: string,
    modelProvider: string,
    model: string)

  /** A template literal renders a missing position as "undefined". */
  function AssistantConfigFor(userName: string, position: Option<string>): AssistantConfig {
    AssistantConfig(
      "Interview Assistant",
      "Hello " + userName + "! I'm your AI interviewer for the " + position.GetOr("undefined")
        + " position. Are you ready to begin the interview?",
      "azure", "andrew", "anthropic", "claude-3-opus-20240229")
  }

  // ---------------------------------------------------------------------
  // Derived view state
  // ---------------------------------------------------------------------

  /** The text shown under the cards: the content of the newest entry, or "". */
  function LastMessage(msgs: seq<SavedMessage>): string {
    if |msgs| > 0 then msgs[|msgs| - 1].content else ""
  }

  predicate StartButtonShown(status: CallStatus) {
    status != Active
  }

  predicate StartButtonDisabled(status: CallStatus) {
    StartButtonShown(status) && status == Connecting
  }

  predicate DisconnectButtonShown(status: CallStatus) {
    !StartButtonShown(status)
  }

  function StartButtonLabel(kind: AgentType): string {
    if kind == Call then "Request Call" else "Start Interview"
  }

  /** A call request is labelled as one; the other two kinds share the interview label. */
  lemma StartButtonLabels(kind: AgentType, other: AgentType)
    ensures StartButtonLabel(kind) == "Request Call" <==> kind == Call
    ensures StartButtonLabel(kind) == StartButtonLabel(other) <==> (kind == Call <==> other == Call)
  {
  }

  /**
   * After a dispatch, the displayed line is the newest transcript when
   * something was appended and the previous line otherwise.
   */
  lemma LastMessageAfterDispatch(s: State, hs: seq<Handler>, e: ProviderEvent, now: string)
    ensures var r := Dispatch(s, hs, e, now);
      && (|r.messages| > |s.messages| ==>
            e.MessageEvent? && Truthy(e.message.transcript) && LastMessage(r.messages) == e.message.transcript.value)
      && (|r.messages| == |s.messages| ==> LastMessage(r.messages) == LastMessage(s.messages))
  {
    var r := Dispatch(s, hs, e, now);
    DispatchAppendOnly(s, hs, e, now);
    if |r.messages| > |s.messages| {
      assert IsEntryFor(r.messages[|r.messages| - 1], e, now);
    } else {
      assert r.messages == s.messages;
    }
  }

  /**
   * The user has a button to press in every status but CONNECTING: the
   * disconnect button while ACTIVE, the enabled start button otherwise.
   */
  lemma CallControls(status: CallStatus)
    ensures (StartButtonShown(status) && !StartButtonDisabled(status)) || DisconnectButtonShown(status)
      <==> status != Connecting
  {
  }

  // ---------------------------------------------------------------------
  // Runs of the component as written
  // ---------------------------------------------------------------------

  /**
   * There is no guard against a second feedback request: after the effect
   * has run on FINISHED, a final transcript that arrives later is appended,
   * the messages dependency changes, and the next commit requests feedback
   * again, now with the longer transcript.
   */
  lemma LateTranscriptRequestsFeedbackAgain(s: State, sc: Scope, m: Message, now: string,
      kind: AgentType, interviewId: Option<string>, userId: Option<string>)
    requires s.status == Finished && kind != Generate && Truthy(interviewId) && Truthy(userId)
    requires ListenersFor(s.listeners, MessageChannel) == [Handler(OnMessage, sc)]
    requires IsFinalTranscript(m)
    ensures var r := Dispatch(s, ListenersFor(s.listeners, MessageChannel), MessageEvent(m), now);
      && r.status == Finished
      && r.messages == s.messages + [Entry(m, now)]
      && EffectRun(Some(EffectDeps(s.messages, s.status)), EffectDeps(r.messages, r.status), kind, interviewId, userId)
           == RequestFeedback(interviewId.value, userId.value)
  {
    MountedMessage(s, sc, m, now);
    var r := Dispatch(s, ListenersFor(s.listeners, MessageChannel), MessageEvent(m), now);
    assert |r.messages| == |s.messages| + 1;
  }

  /**
   * With a handleCall session live beside the mount-time handlers, an
   * assistant's final transcript is saved twice, one copy after the other.
   */
  lemma AssistantReplySavedTwice(s: State, a: Scope, b: Scope, m: Message, now: string)
    requires s.listeners == MountTable(a) + CallTable(b)
    requires IsFinalTranscript(m) && m.role == Assistant
    ensures Dispatch(s, ListenersFor(s.listeners, MessageChannel), MessageEvent(m), now).messages
      == s.messages + [Entry(m, now), Entry(m, now)]
  {
    SessionHandlers(a, b);
    DuplicatedDuringCall(s, a, b, m, now);
    var x := Entry(m, now);
    assert Repeat(x, 2) == [x, x] by {
      assert Repeat(x, 1) == [x];
    }
  }

  /**
   * An error during a handleCall session: the mount-time handler sets ERROR,
   * then handleCall's handler sets COMPLETED and removes its three pairs. The
   * error alone leaves the status short of FINISHED, so the commit after it
   * requests no feedback.
   */
  lemma ErrorDuringCallSkipsFeedback(s: State, a: Scope, b: Scope, msg: string, now: string,
      last: Option<EffectDeps>, kind: AgentType, interviewId: Option<string>, userId: Option<string>)
    requires a != b
    requires s.listeners == MountTable(a) + CallTable(b)
    ensures var r := Dispatch(s, ListenersFor(s.listeners, ErrorChannel), ErrorEvent(msg), now);
      && r.status == Completed && r.error == msg
      && r.messages == s.messages
      && r.listeners == MountTable(a)
      && EffectRun(last, EffectDeps(r.messages, r.status), kind, interviewId, userId) == NoEffect
  {
    assert ListenersFor(s.listeners, ErrorChannel) == [Handler(OnError, a), Handler(HandleError, b)] by {
      SessionHandlers(a, b);
    }
    ErrorPair(s, a, b, msg, now);
    CallCleanupLeavesMount(a, b);
  }

  /**
   * The mount-time call-end handler outlives the session's cleanup: a
   * call-end after that error still sets FINISHED, and the next commit
   * requests feedback with the transcript as it was.
   */
  lemma ErrorThenCallEndRequestsFeedback(s: State, a: Scope, b: Scope, msg: string, now: string, later: string,
      kind: AgentType, interviewId: Option<string>, userId: Option<string>)
    requires a != b
    requires s.listeners == MountTable(a) + CallTable(b)
    requires kind != Generate && Truthy(interviewId) && Truthy(userId)
    ensures var r1 := Dispatch(s, ListenersFor(s.listeners, ErrorChannel), ErrorEvent(msg), now);
      var r2 := Dispatch(r1, ListenersFor(r1.listeners, CallEndChannel), CallEnd, later);
      && r1.status == Completed
      && r2 == r1.(status := Finished)
      && r2.messages == s.messages && r2.error == msg
      && EffectRun(Some(EffectDeps(r1.messages, r1.status)), EffectDeps(r2.messages, r2.status), kind, interviewId, userId)
           == RequestFeedback(interviewId.value, userId.value)
  {
    var r1 := Dispatch(s, ListenersFor(s.listeners, ErrorChannel), ErrorEvent(msg), now);
    ErrorDuringCallSkipsFeedback(s, a, b, msg, now, None, kind, interviewId, userId);
    assert ListenersFor(r1.listeners, CallEndChannel) == [Handler(OnCallEnd, a)] by {
      MountTableListeners(a, CallEndChannel);
    }
    DispatchOne(r1, Handler(OnCallEnd, a), CallEnd, later);
    var r2 := Dispatch(r1, [Handler(OnCallEnd, a)], CallEnd, later);
    assert Some(EffectDeps(r1.messages, r1.status)) != Some(EffectDeps(r2.messages, r2.status));
  }

  lemma DispatchOne(s: State, h: Handler, e: ProviderEvent, now: string)
    ensures Dispatch(s, [h], e, now) == Apply(s, h, e, now)
  {
    assert [h][..0] == [];
  }

  /** The mount-time error handler followed by handleCall's. */
  lemma ErrorPair(s: State, a: Scope, b: Scope, msg: string, now: string)
    ensures Dispatch(s, [Handler(OnError, a), Handler(HandleError, b)], ErrorEvent(msg), now) ==
      s.(error := msg, status := Completed, listeners := RemoveAll(s.listeners, CallTable(b)))
  {
    DispatchTwo(s, Handler(OnError, a), Handler(HandleError, b), ErrorEvent(msg), now);
  }

  lemma DispatchTwo(s: State, h0: Handler, h1: Handler, e: ProviderEvent, now: string)
    ensures Dispatch(s, [h0, h1], e, now) == Apply(Apply(s, h0, e, now), h1, e, now)
  {
    var hs := [h0, h1];
    DispatchStep(s, hs, 0, e, now);
    DispatchStep(s, hs, 1, e, now);
    assert hs[..0] == [] && hs[..2] == hs;
  }

  /** Removing a session's three pairs leaves the mount-time pairs of another scope. */
  lemma CallCleanupLeavesMount(a: Scope, b: Scope)
    requires a != b
    ensures RemoveAll(MountTable(a) + CallTable(b), CallTable(b)) == MountTable(a)
  {
    MountScopeAbsent(a, b);
    CallCleanupRestores(MountTable(a), [], b);
    assert MountTable(a) + CallTable(b) + [] == MountTable(a) + CallTable(b);
  }

  lemma MountScopeAbsent(a: Scope, b: Scope)
    requires a != b
    ensures ScopeAbsent(MountTable(a), b)
  {
  }
}
