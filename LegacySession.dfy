/** The older call handling (App.tsx), no longer mounted: an incoming
    connection becomes a pending call, and the connection's events change
    `connected` according to which side opened it. */
module LegacySession {
  import opened Common

  /** Which handler set a connection was given: the one registered for an
      incoming connection (App.tsx:40-57) or for a dialled one (App.tsx:76-92). */
  datatype Handlers = IncomingHandlers | OutgoingHandlers

  datatype AppState = AppState(
    hasPeer: bool,
    remotePeerId: string,
    connected: bool,
    incomingCall: Option<ConnId>,
    showModal: bool,
    listeners: map<ConnId, Handlers>)

  /** The state the component mounts with (App.tsx:10-17). */
  const Initial := AppState(false, "", false, None, false, map[])

  /** The peer's `connection` handler (App.tsx:35-38). */
  function OnIncoming(s: AppState, c: ConnId): AppState
  {
    s.(incomingCall := Some(c), showModal := true, listeners := s.listeners[c := IncomingHandlers])
  }

  /** `connectToPeer`: registers handlers on the new connection and records
      nothing else (App.tsx:72-75). */
  function ConnectToPeer(s: AppState, c: ConnId): AppState
  {
    if s.hasPeer && s.remotePeerId != "" then s.(listeners := s.listeners[c := OutgoingHandlers]) else s
  }

  /** A connection's `open` handler (App.tsx:40-42, 76-79). */
  function OnOpen(s: AppState, c: ConnId): AppState
  {
    if c !in s.listeners then s
    else match s.listeners[c]
      case IncomingHandlers => s.(connected := true)
      case OutgoingHandlers => s.(connected := true, incomingCall := None)
  }

  /** A connection's `close` or `error` handler (App.tsx:48-57, 85-92). */
  function OnCloseOrError(s: AppState, c: ConnId): AppState
  {
    if c !in s.listeners then s
    else match s.listeners[c]
      case IncomingHandlers => s.(connected := false, incomingCall := None)
      case OutgoingHandlers => s.(connected := false)
  }

  /** `acceptCall` (App.tsx:129-136). */
  function AcceptCall(s: AppState): AppState
  {
    if s.incomingCall.Some? then s.(connected := true, showModal := false) else s
  }

  /** `rejectCall` (App.tsx:138-144); it closes `s.incomingCall`. */
  function RejectCall(s: AppState): AppState
  {
    if s.incomingCall.Some? then s.(incomingCall := None, showModal := false) else s
  }

  function Step(s: AppState, e: CallEvent): AppState
  {
    match e
    case PeerCreated => s.(hasPeer := true)
    case RemoteIdTyped(id) => s.(remotePeerId := id)
    case Incoming(c) => OnIncoming(s, c)
    case Dial(c) => ConnectToPeer(s, c)
    case Opened(c) => OnOpen(s, c)
    case Closed(c) => OnCloseOrError(s, c)
    case Failed(c) => OnCloseOrError(s, c)
    case AcceptPressed => AcceptCall(s)
    case RejectPressed => RejectCall(s)
  }

  function Run(s: AppState, events: seq<CallEvent>): AppState
    decreases |events|
  {
    if events == [] then s else Run(Step(s, events[0]), events[1..])
  }

  /** Sender and receiver render as soon as a peer exists (App.tsx:209-214). */
  predicate TransferShown(s: AppState) { s.hasPeer }

  /** The remote-id form (App.tsx:186-196). */
  predicate ConnectFormShown(s: AppState) { !s.connected }

  /** The incoming-call modal (App.tsx:198-207). */
  predicate ModalShown(s: AppState) { s.showModal }

  /** Unlike the mounted component, `open` on an incoming connection
      connects before the call is accepted; the modal stays up. */
  lemma OpenConnectsBeforeAccept(s: AppState, c: ConnId)
    ensures var t := Run(s, [Incoming(c), Opened(c)]);
      t.connected && t.incomingCall == Some(c) && ModalShown(t)
  {
    var s1 := Step(s, Incoming(c));
    assert Run(s, [Incoming(c), Opened(c)]) == Run(s1, [Opened(c)]);
    var s2 := Step(s1, Opened(c));
    assert Run(s1, [Opened(c)]) == Run(s2, []);
  }

  /** Dialling records no connection and changes no flag. */
  lemma DialChangesOnlyListeners(s: AppState, c: ConnId)
    ensures Step(s, Dial(c)) == s.(listeners := Step(s, Dial(c)).listeners)
    ensures !s.hasPeer || s.remotePeerId == "" ==> Step(s, Dial(c)) == s
  {
  }

  /** On a dialled connection, `open` connects and clears the pending call;
      `close` and `error` clear only `connected`. On an incoming one, `close`
      and `error` clear both. */
  lemma ConnectionEvents(s: AppState, c: ConnId)
    requires c in s.listeners
    ensures s.listeners[c] == OutgoingHandlers ==>
      Step(s, Opened(c)) == s.(connected := true, incomingCall := None) &&
      Step(s, Closed(c)) == s.(connected := false) &&
      Step(s, Failed(c)) == s.(connected := false)
    ensures s.listeners[c] == IncomingHandlers ==>
      Step(s, Opened(c)) == s.(connected := true) &&
      Step(s, Closed(c)) == s.(connected := false, incomingCall := None) &&
      Step(s, Failed(c)) == s.(connected := false, incomingCall := None)
  {
  }

  /** Accept and reject act only on a pending call. */
  lemma AcceptRejectGuards(s: AppState)
    ensures s.incomingCall.None? ==> Step(s, AcceptPressed) == s && Step(s, RejectPressed) == s
    ensures s.incomingCall.Some? ==> Step(s, AcceptPressed) == s.(connected := true, showModal := false)
    ensures s.incomingCall.Some? ==> Step(s, RejectPressed) == s.(incomingCall := None, showModal := false)
  {
  }

  /** `connected` is set only by an `open` event or by accepting. */
  lemma {:induction false} ConnectedOnlyByOpenOrAccept(s: AppState, events: seq<CallEvent>)
    requires !s.connected
    requires forall i :: 0 <= i < |events| ==> !events[i].Opened? && !events[i].AcceptPressed?
    ensures !Run(s, events).connected
    decreases |events|
  {
    if events != [] {
      ConnectedOnlyByOpenOrAccept(Step(s, events[0]), events[1..]);
    }
  }

  /** The transfer components render on a bare peer, with no connection. */
  lemma TransferShownWithoutConnection()
    ensures var t := Run(Initial, [PeerCreated]);
      TransferShown(t) && !t.connected && t.incomingCall.None?
  {
    assert Run(Initial, [PeerCreated]) == Run(Step(Initial, PeerCreated), []);
  }

  /** A pending call whose connection closes leaves the modal up with no
      call behind it; neither button can then dismiss it. */
  lemma ModalOutlivesCall(c: ConnId)
    ensures var t := Run(Initial, [PeerCreated, Incoming(c), Closed(c)]);
      ModalShown(t) && t.incomingCall.None? &&
      Step(t, AcceptPressed) == t && Step(t, RejectPressed) == t
  {
    var s1 := Step(Initial, PeerCreated);
    assert Run(Initial, [PeerCreated, Incoming(c), Closed(c)]) == Run(s1, [Incoming(c), Closed(c)]);
    var s2 := Step(s1, Incoming(c));
    assert Run(s1, [Incoming(c), Closed(c)]) == Run(s2, [Closed(c)]);
    var s3 := Step(s2, Closed(c));
    assert Run(s2, [Closed(c)]) == Run(s3, []);
  }

  /** The component: state fields and handlers. */
  class App {
    var hasPeer: bool
    var remotePeerId: string
    var connected: bool
    var incomingCall: Option<ConnId>
    var showModal: bool
    var listeners: map<ConnId, Handlers>

    function State(): AppState
      reads this
    {
      AppState(hasPeer, remotePeerId, connected, incomingCall, showModal, listeners)
    }

    constructor ()
      ensures State() == Initial
    {
      hasPeer, remotePeerId, connected := false, "", false;
      incomingCall, showModal, listeners := None, false, map[];
    }

    /** The mount effect creates the peer (App.tsx:23-60). */
    method Mount()
      modifies this
      ensures State() == Step(old(State()), PeerCreated)
    {
      hasPeer := true;
    }

    method SetRemotePeerId(id: string)
      modifies this
      ensures State() == Step(old(State()), RemoteIdTyped(id))
    {
      remotePeerId := id;
    }

    method HandleIncoming(c: ConnId)
      modifies this
      ensures State() == Step(old(State()), Incoming(c))
    {
      incomingCall := Some(c);
      showModal := true;
      listeners := listeners[c := IncomingHandlers];
    }

    method ConnectToPeer(c: ConnId)
      modifies this
      ensures State() == Step(old(State()), Dial(c))
    {
      if hasPeer && remotePeerId != "" {
        listeners := listeners[c := OutgoingHandlers];
      }
    }

    method HandleOpen(c: ConnId)
      modifies this
      ensures State() == Step(old(State()), Opened(c))
    {
      if c in listeners {
        connected := true;
        if listeners[c] == OutgoingHandlers {
          incomingCall := None;
        }
      }
    }

    /** The `close` handler; the `error` handler does the same. */
    method HandleClose(c: ConnId)
      modifies this
      ensures State() == Step(old(State()), Closed(c))
      ensures State() == Step(old(State()), Failed(c))
    {
      if c in listeners {
        connected := false;
        if listeners[c] == IncomingHandlers {
          incomingCall := None;
        }
      }
    }

    method AcceptCall()
      modifies this
      ensures State() == Step(old(State()), AcceptPressed)
    {
      if incomingCall.Some? {
        connected := true;
        showModal := false;
      }
    }

    /** Returns the pending connection whose `close()` is called. */
    method RejectCall() returns (closed: Option<ConnId>)
      modifies this
      ensures State() == Step(old(State()), RejectPressed)
      ensures closed == old(incomingCall)
    {
      closed := incomingCall;
      if incomingCall.Some? {
        incomingCall := None;
        showModal := false;
      }
    }
  }
}
