/**
 * The Agent component of components/Agent.tsx as objects. Agent holds the
 * component's props and React state as fields and has one method per handler
 * and user action; Provider stands for the `vapi` singleton: its listener
 * registry and a record of the start and stop calls made on it. Every method
 * is proved against the functions of SessionModel, whose lemmas state what
 * the handlers promise.
 */
module AgentComponent {
  import opened Base
  import opened SessionModel

  /** The provider singleton as the component sees it. */
  class Provider {
    var listeners: seq<Listener>
    var startCalls: seq<AssistantConfig>
    var stopCalls: nat

    constructor ()
      ensures listeners == [] && startCalls == [] && stopCalls == 0
    {
      listeners := [];
      startCalls := [];
      stopCalls := 0;
    }

    method On(event: Channel, handler: Handler)
      modifies this`listeners
      ensures listeners == old(listeners) + [Listener(event, handler)]
    {
      listeners := listeners + [Listener(event, handler)];
    }

    method Off(event: Channel, handler: Handler)
      modifies this`listeners
      ensures listeners == Without(old(listeners), Listener(event, handler))
    {
      listeners := Without(listeners, Listener(event, handler));
    }

    /** `start(config)`: the configuration is recorded; the session itself is the provider's. */
    method Start(config: AssistantConfig)
      modifies this`startCalls
      ensures startCalls == old(startCalls) + [config]
    {
      startCalls := startCalls + [config];
    }

    method Stop()
      modifies this`stopCalls
      ensures stopCalls == old(stopCalls) + 1
    {
      stopCalls := stopCalls + 1;
    }
  }

  class Agent {
    const vapi: Provider

    // props
    const userName: string
    const userId: Option<string>
    const interviewId: Option<string>
    const feedbackId: Option<string>
    const kind: AgentType
    const position: Option<string>

    // React state
    var callStatus: CallStatus
    var messages: seq<SavedMessage>
    var isSpeaking: bool
    var error: string

    // the scope of the mount effect's closures while mounted
    var mountScope: Option<Scope>
    // the dependencies the FINISHED effect last ran with
    var lastEffectDeps: Option<EffectDeps>
    // provider starts and createFeedback calls awaited but not settled
    var pendingStarts: nat
    var pendingFeedback: nat
    // recorded effects: router.push targets and createFeedback requests
    var navigations: seq<string>
    var feedbackRequests: seq<FeedbackRequest>

    ghost predicate Valid()
      reads this, vapi
    {
      && WellFormed(vapi.listeners)
      && (pendingFeedback > 0 ==> kind != Generate && Truthy(interviewId) && Truthy(userId))
    }

    /** The part of the state provider events act on. */
    function View(): State
      reads this, vapi
    {
      State(callStatus, messages, isSpeaking, error, vapi.listeners)
    }

    constructor (vapi: Provider, userName: string, userId: Option<string>, interviewId: Option<string>,
                 feedbackId: Option<string>, kind: AgentType, position: Option<string>)
      requires WellFormed(vapi.listeners)
      ensures Valid()
      ensures this.vapi == vapi && this.userName == userName && this.userId == userId
      ensures this.interviewId == interviewId && this.feedbackId == feedbackId
      ensures this.kind == kind && this.position == position
      ensures callStatus == Inactive && messages == [] && !isSpeaking && error == ""
      ensures mountScope == None && lastEffectDeps == None
      ensures pendingStarts == 0 && pendingFeedback == 0 && navigations == [] && feedbackRequests == []
    {
      this.vapi := vapi;
      this.userName := userName;
      this.userId := userId;
      this.interviewId := interviewId;
      this.feedbackId := feedbackId;
      this.kind := kind;
      this.position := position;
      callStatus := Inactive;
      messages := [];
      isSpeaking := false;
      error := "";
      mountScope := None;
      lastEffectDeps := None;
      pendingStarts := 0;
      pendingFeedback := 0;
      navigations := [];
      feedbackRequests := [];
    }

    // -------------------------------------------------------------------
    // The mount effect: six handlers, registered and cleaned up together
    // -------------------------------------------------------------------

    method Mount()
      requires Valid() && mountScope == None
      modifies this`mountScope, vapi`listeners
      ensures Valid()
      ensures mountScope.Some? && fresh(mountScope.value)
      ensures vapi.listeners == old(vapi.listeners) + MountTable(mountScope.value)
    {
      var sc := new Scope();
      var table := MountTable(sc);
      for i := 0 to |table|
        invariant vapi.listeners == old(vapi.listeners) + table[..i]
      {
        vapi.On(table[i].event, table[i].handler);
        assert table[..i + 1] == table[..i] + [table[i]];
      }
      assert table[..|table|] == table;
      mountScope := Some(sc);
    }

    /** The effect's cleanup: `off` for each of the six pairs it registered. */
    method Unmount()
      requires Valid() && mountScope.Some?
      modifies this`mountScope, vapi`listeners
      ensures Valid() && mountScope == None
      ensures vapi.listeners == RemoveAll(old(vapi.listeners), MountTable(old(mountScope).value))
    {
      var table := MountTable(mountScope.value);
      for i := 0 to |table|
        invariant vapi.listeners == RemoveAll(old(vapi.listeners), table[..i])
      {
        vapi.Off(table[i].event, table[i].handler);
        assert table[..i + 1][..i] == table[..i];
      }
      assert table[..|table|] == table;
      mountScope := None;
    }

    method OnCallStart()
      modifies this`callStatus, this`error
      ensures callStatus == Active && error == ""
    {
      callStatus := Active;
      error := "";
    }

    method OnCallEnd()
      modifies this`callStatus
      ensures callStatus == Finished
    {
      callStatus := Finished;
    }

    method OnMessage(m: Message, now: string)
      modifies this`messages
      ensures messages == old(messages) + if IsFinalTranscript(m) then [Entry(m, now)] else []
    {
      if IsFinalTranscript(m) {
        messages := messages + [Entry(m, now)];
      }
    }

    method OnSpeechStart()
      modifies this`isSpeaking
      ensures isSpeaking
    {
      isSpeaking := true;
    }

    method OnSpeechEnd()
      modifies this`isSpeaking
      ensures !isSpeaking
    {
      isSpeaking := false;
    }

    method OnError(msg: string)
      modifies this`error, this`callStatus
      ensures error == msg && callStatus == Error
    {
      error := msg;
      callStatus := Error;
    }

    // -------------------------------------------------------------------
    // handleCall and its three handlers
    // -------------------------------------------------------------------

    /**
     * handleCall up to the awaited `start`: clears the error, goes to
     * CONNECTING and, with a token, registers its three handlers in a fresh
     * scope and starts the provider with the assistant configuration. Without
     * a token it ends COMPLETED with the configuration error. The transcript
     * is never cleared.
     */
    method HandleCall(token: Option<string>) returns (ghost scope: Option<Scope>)
      requires Valid()
      modifies this`callStatus, this`error, this`pendingStarts, vapi`listeners, vapi`startCalls
      ensures Valid()
      ensures messages == old(messages)
      ensures !Truthy(token) ==>
        && callStatus == Completed && error == "VAPI token is not configured"
        && vapi.listeners == old(vapi.listeners) && vapi.startCalls == old(vapi.startCalls)
        && pendingStarts == old(pendingStarts) && scope == None
      ensures Truthy(token) ==>
        && callStatus == Connecting && error == ""
        && scope.Some? && fresh(scope.value)
        && vapi.listeners == old(vapi.listeners) + CallTable(scope.value)
        && vapi.startCalls == old(vapi.startCalls) + [AssistantConfigFor(userName, position)]
        && pendingStarts == old(pendingStarts) + 1
    {
      error := "";
      callStatus := Connecting;
      if !Truthy(token) {
        error := "VAPI token is not configured";
        callStatus := Completed;
        scope := None;
        return;
      }
      var sc := new Scope();
      var config := AssistantConfigFor(userName, position);
      AppendCallTable(vapi.listeners, sc);
      vapi.On(MessageChannel, Handler(HandlerKind.HandleMessage, sc));
      vapi.On(CallEndedChannel, Handler(HandlerKind.HandleCallEnded, sc));
      vapi.On(ErrorChannel, Handler(HandlerKind.HandleError, sc));
      vapi.Start(config);
      pendingStarts := pendingStarts + 1;
      scope := Some(sc);
    }

    /** The awaited `start` settles: a rejection ends COMPLETED with its message; the handlers stay registered. */
    method StartSettled(outcome: StartOutcome)
      requires Valid() && pendingStarts > 0
      modifies this`pendingStarts, this`error, this`callStatus
      ensures Valid()
      ensures pendingStarts == old(pendingStarts) - 1
      ensures outcome.StartResolved? ==> callStatus == old(callStatus) && error == old(error)
      ensures outcome.StartRejected? ==>
        callStatus == Completed && error == outcome.reason.GetOr("Failed to start interview")
    {
      pendingStarts := pendingStarts - 1;
      if outcome.StartRejected? {
        error := outcome.reason.GetOr("Failed to start interview");
        callStatus := Completed;
      }
    }

    method HandleMessage(m: Message, now: string)
      modifies this`messages
      ensures messages == old(messages) + if IsAssistantUtterance(m) then [Entry(m, now)] else []
    {
      if IsAssistantUtterance(m) {
        messages := messages + [Entry(m, now)];
      }
    }

    /** The three `off` calls of handleCallEnded and handleError. */
    method RemoveCallHandlers(sc: Scope)
      modifies vapi`listeners
      ensures vapi.listeners == RemoveAll(old(vapi.listeners), CallTable(sc))
    {
      var table := CallTable(sc);
      for i := 0 to |table|
        invariant vapi.listeners == RemoveAll(old(vapi.listeners), table[..i])
      {
        vapi.Off(table[i].event, table[i].handler);
        assert table[..i + 1][..i] == table[..i];
      }
      assert table[..|table|] == table;
    }

    method HandleCallEnded(sc: Scope)
      modifies this`callStatus, vapi`listeners
      ensures callStatus == Completed
      ensures vapi.listeners == RemoveAll(old(vapi.listeners), CallTable(sc))
    {
      callStatus := Completed;
      RemoveCallHandlers(sc);
    }

    method HandleError(sc: Scope, msg: string)
      modifies this`error, this`callStatus, vapi`listeners
      ensures error == msg && callStatus == Completed
      ensures vapi.listeners == RemoveAll(old(vapi.listeners), CallTable(sc))
    {
      error := msg;
      callStatus := Completed;
      RemoveCallHandlers(sc);
    }

    /** handleDisconnect: FINISHED, then the provider is stopped. */
    method HandleDisconnect()
      modifies this`callStatus, vapi`stopCalls
      ensures callStatus == Finished
      ensures vapi.stopCalls == old(vapi.stopCalls) + 1
    {
      callStatus := Finished;
      vapi.Stop();
    }

    // -------------------------------------------------------------------
    // Event delivery
    // -------------------------------------------------------------------

    /** Calls handler `h` with event `e`. */
    method Invoke(h: Handler, e: ProviderEvent, now: string)
      modifies this`callStatus, this`messages, this`isSpeaking, this`error, vapi`listeners
      ensures View() == Apply(old(View()), h, e, now)
    {
      match h.kind
      case OnCallStart => OnCallStart();
      case OnCallEnd => OnCallEnd();
      case OnSpeechStart => OnSpeechStart();
      case OnSpeechEnd => OnSpeechEnd();
      case OnError =>
        if e.ErrorEvent? {
          OnError(e.errorMessage);
        }
      case OnMessage =>
        if e.MessageEvent? {
          OnMessage(e.message, now);
        }
      case HandleMessage =>
        if e.MessageEvent? {
          HandleMessage(e.message, now);
        }
      case HandleCallEnded => HandleCallEnded(h.scope);
      case HandleError =>
        if e.ErrorEvent? {
          HandleError(h.scope, e.errorMessage);
        }
    }

    /** Calls the handlers `hs` in order with event `e`. */
    method InvokeAll(hs: seq<Handler>, e: ProviderEvent, now: string)
      modifies this`callStatus, this`messages, this`isSpeaking, this`error, vapi`listeners
      ensures View() == Dispatch(old(View()), hs, e, now)
    {
      ghost var s0 := View();
      for i := 0 to |hs|
        invariant View() == Dispatch(s0, hs[..i], e, now)
      {
        DispatchStep(s0, hs, i, e, now);
        Invoke(hs[i], e, now);
      }
      assert hs[..|hs|] == hs;
    }

    /**
     * The provider emits `e`: the handlers registered under its name when it
     * is emitted are called in registration order; removals made by one of
     * them do not affect this emission.
     */
    method Deliver(e: ProviderEvent, now: string)
      requires Valid()
      modifies this`callStatus, this`messages, this`isSpeaking, this`error, vapi`listeners
      ensures Valid()
      ensures View() == Dispatch(old(View()), ListenersFor(old(vapi.listeners), ChannelOf(e)), e, now)
    {
      ghost var s0 := View();
      InvokeAll(ListenersFor(vapi.listeners, ChannelOf(e)), e, now);
      DispatchKeepsWellFormed(s0, ListenersFor(s0.listeners, ChannelOf(e)), e, now);
    }

    // -------------------------------------------------------------------
    // The FINISHED effect and handleGenerateFeedback
    // -------------------------------------------------------------------

    /** The synchronous part of handleGenerateFeedback: the id check and the createFeedback call. */
    method HandleGenerateFeedback()
      requires Valid() && kind != Generate
      modifies this`feedbackRequests, this`pendingFeedback
      ensures Valid()
      ensures var requested := Truthy(interviewId) && Truthy(userId);
        && feedbackRequests == old(feedbackRequests) +
             (if requested then [FeedbackRequest(interviewId.value, userId.value, messages, feedbackId)] else [])
        && pendingFeedback == old(pendingFeedback) + (if requested then 1 else 0)
    {
      if !Truthy(interviewId) || !Truthy(userId) {
        return;
      }
      feedbackRequests := feedbackRequests + [FeedbackRequest(interviewId.value, userId.value, messages, feedbackId)];
      pendingFeedback := pendingFeedback + 1;
    }

    /**
     * React commits a render. The FINISHED effect runs when messages or
     * callStatus differ from its previous run (always on the first commit);
     * there is no guard against running it again while FINISHED.
     */
    method Commit()
      requires Valid()
      modifies this`lastEffectDeps, this`navigations, this`feedbackRequests, this`pendingFeedback
      ensures Valid()
      ensures lastEffectDeps == Some(EffectDeps(messages, callStatus))
      ensures var step := EffectRun(old(lastEffectDeps), EffectDeps(messages, callStatus), kind, interviewId, userId);
        && navigations == old(navigations) + (if step == NavigateHome then ["/"] else [])
        && feedbackRequests == old(feedbackRequests) +
             (if step.RequestFeedback? then [FeedbackRequest(step.interviewId, step.userId, messages, feedbackId)] else [])
        && pendingFeedback == old(pendingFeedback) + (if step.RequestFeedback? then 1 else 0)
    {
      var deps := EffectDeps(messages, callStatus);
      var due := lastEffectDeps != Some(deps);
      lastEffectDeps := Some(deps);
      if due && callStatus == Finished {
        if kind == Generate {
          navigations := navigations + ["/"];
        } else {
          HandleGenerateFeedback();
        }
      }
    }

    /** The awaited createFeedback settles: navigate to the feedback page, or record the error and go home. */
    method FeedbackSettled(outcome: FeedbackOutcome)
      requires Valid() && pendingFeedback > 0
      modifies this`pendingFeedback, this`navigations, this`error
      ensures Valid()
      ensures var r := AfterFeedback(outcome, interviewId.value);
        && pendingFeedback == old(pendingFeedback) - 1
        && navigations == old(navigations) + [r.route]
        && error == r.error.GetOr(old(error))
    {
      pendingFeedback := pendingFeedback - 1;
      match outcome
      case Resolved(success, id) =>
        if success && Truthy(id) {
          navigations := navigations + [FeedbackRoute(interviewId.value)];
        } else {
          error := "Failed to save feedback";
          navigations := navigations + ["/"];
        }
      case Rejected(reason) =>
        error := reason.GetOr("Failed to save feedback");
        navigations := navigations + ["/"];
    }
  }
}

