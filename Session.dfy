/** The call/session state machine of the mounted component (home.tsx): a
    peer dials out or is dialled, the responder accepts or rejects, the
    connection's events open or tear the session down, and the rendered
    output decides which side of a transfer is active. */
module Session {
  import opened Common

  /** The component's state. `listeners` records, for every connection whose
      handlers were registered, the `isSender` flag those handlers captured
      (true for a connection this side dialled). */
  datatype HomeState = HomeState(
    hasPeer: bool,
    remotePeerId: string,
    connected: bool,
    dataConnection: Option<ConnId>,
    showModal: bool,
    isInitiator: bool,
    listeners: map<ConnId, bool>)

  /** The state the component mounts with (home.tsx:8-16). */
  const Initial := HomeState(false, "", false, None, false, false, map[])

  /** The peer's `connection` handler (home.tsx:34-39). */
  function OnIncoming(s: HomeState, c: ConnId): HomeState
  {
    s.(dataConnection := Some(c), showModal := true, isInitiator := false,
       listeners := s.listeners[c := false])
  }

  /** `connectToPeer`, where `c` is the connection `peer.connect` returns
      (home.tsx:51-59). */
  function ConnectToPeer(s: HomeState, c: ConnId): HomeState
  {
    if s.hasPeer && s.remotePeerId != "" then
      s.(dataConnection := Some(c), isInitiator := true, listeners := s.listeners[c := true])
    else s
  }

  /** A connection's `open` handler: only a dialled connection's handler
      connects and hides the dialog (home.tsx:62-66). */
  function OnOpen(s: HomeState, c: ConnId): HomeState
  {
    if c in s.listeners && s.listeners[c] then s.(connected := true, showModal := false) else s
  }

  /** A connection's `close` or `error` handler (home.tsx:72-81). */
  function OnCloseOrError(s: HomeState, c: ConnId): HomeState
  {
    if c in s.listeners then s.(connected := false, dataConnection := None) else s
  }

  /** `acceptCall` (home.tsx:84-89). */
  function AcceptCall(s: HomeState): HomeState
  {
    if s.dataConnection.Some? then s.(connected := true, showModal := false) else s
  }

  /** `rejectCall` (home.tsx:91-97); the channel it closes is `ClosedByReject(s)`. */
  function RejectCall(s: HomeState): HomeState
  {
    if s.dataConnection.Some? then s.(dataConnection := None, showModal := false) else s
  }

  /** The connection `rejectCall` closes, if any. */
  function ClosedByReject(s: HomeState): Option<ConnId>
  {
    s.dataConnection
  }

  function Step(s: HomeState, e: CallEvent): HomeState
  {
    match e
    case PeerCreated => s.(hasPeer := true)
    case RemoteIdTyped(id) => s.(remotePeerId := id)
    case Incoming(c) => OnIncoming(s, c)
    case Dial(c) => ConnectToPeer(s, c)
    case Opened(c) => OnOpen(s, c)
    case Closed(c) => OnCloseOrError(s, c)
    case Failed(c) => OnCloseOrError(s, c)
    case AcceptPressed => AcceptCall(s)
    case RejectPressed => RejectCall(s)
  }

  /** The state after `events`, in order. */
  function Run(s: HomeState, events: seq<CallEvent>): HomeState
    decreases |events|
  {
    if events == [] then s else Run(Step(s, events[0]), events[1..])
  }

  /** The transfer components are mounted (home.tsx:159-164). */
  predicate TransferShown(s: HomeState) { s.connected && s.dataConnection.Some? }

  /** The incoming-call dialog is shown (home.tsx:150). */
  predicate DialogShown(s: HomeState) { s.showModal && s.dataConnection.Some? }

  /** The peer-id form is shown (home.tsx:119). */
  predicate ConnectFormShown(s: HomeState) { !s.connected }

  /** FileSender renders only for the initiator (file-sender.tsx:84). */
  predicate SenderActive(s: HomeState) { TransferShown(s) && s.isInitiator }

  /** FileReceiver listens and renders only for the responder
      (file-receiver.tsx:47-52,81). */
  predicate ReceiverActive(s: HomeState) { TransferShown(s) && !s.isInitiator }

  /** The recorded role is the role the current connection's handlers were
      registered with. */
  ghost predicate Inv(s: HomeState)
  {
    s.dataConnection.Some? ==>
      s.dataConnection.value in s.listeners && s.listeners[s.dataConnection.value] == s.isInitiator
  }

  lemma StepKeepsInv(s: HomeState, e: CallEvent)
    requires Inv(s)
    ensures Inv(Step(s, e))
  {
  }

  lemma {:induction false} RunKeepsInv(s: HomeState, events: seq<CallEvent>)
    requires Inv(s)
    ensures Inv(Run(s, events))
    decreases |events|
  {
    if events != [] {
      StepKeepsInv(s, events[0]);
      RunKeepsInv(Step(s, events[0]), events[1..]);
    }
  }

  /** Exactly one transfer side is active once the transfer is shown: the
      sender on a connection this side dialled, the receiver on one it was
      dialled on. */
  lemma ActiveSideMatchesDirection(s: HomeState)
    requires Inv(s)
    ensures TransferShown(s) ==> SenderActive(s) != ReceiverActive(s)
    ensures SenderActive(s) ==> s.listeners[s.dataConnection.value]
    ensures ReceiverActive(s) ==> !s.listeners[s.dataConnection.value]
  {
  }

  /** A side that has dialled nobody becomes connected only by accepting:
      `open` events on connections it was dialled on never connect it. */
  lemma {:induction false} ResponderWaitsForAccept(s: HomeState, events: seq<CallEvent>)
    requires !s.connected
    requires forall c :: c in s.listeners ==> !s.listeners[c]
    requires forall i :: 0 <= i < |events| ==> !events[i].AcceptPressed? && !events[i].Dial?
    ensures !Run(s, events).connected
    ensures forall c :: c in Run(s, events).listeners ==> !Run(s, events).listeners[c]
    decreases |events|
  {
    if events != [] {
      ResponderWaitsForAccept(Step(s, events[0]), events[1..]);
    }
  }

  /** An incoming connection records the connection, shows the dialog and
      makes this side the responder, replacing any connection held before. */
  lemma IncomingCall(s: HomeState, c: ConnId)
    ensures Step(s, Incoming(c)).dataConnection == Some(c)
    ensures DialogShown(Step(s, Incoming(c)))
    ensures !Step(s, Incoming(c)).isInitiator
    ensures Step(s, Incoming(c)).connected == s.connected
  {
  }

  /** Dialling needs a peer and a non-empty remote id; otherwise nothing
      changes. Dialling records the connection and makes this side the
      initiator, and its `open` event connects and hides the dialog. */
  lemma DialThenOpen(s: HomeState, c: ConnId)
    ensures !s.hasPeer || s.remotePeerId == "" ==> Step(s, Dial(c)) == s
    ensures s.hasPeer && s.remotePeerId != "" ==>
      var t := Run(s, [Dial(c), Opened(c)]);
      t.connected && t.dataConnection == Some(c) && t.isInitiator && !t.showModal && SenderActive(t)
  {
    if s.hasPeer && s.remotePeerId != "" {
      var s1 := Step(s, Dial(c));
      assert Run(s, [Dial(c), Opened(c)]) == Run(s1, [Opened(c)]);
      var s2 := Step(s1, Opened(c));
      assert Run(s1, [Opened(c)]) == Run(s2, []);
    }
  }

  /** On the responder, `open` leaves it unconnected with the dialog up;
      accepting then connects it as the receiver. */
  lemma IncomingThenAccept(s: HomeState, c: ConnId)
    requires !s.connected
    ensures var t := Run(s, [Incoming(c), Opened(c)]);
      !t.connected && DialogShown(t) && !TransferShown(t)
    ensures var t := Run(s, [Incoming(c), Opened(c), AcceptPressed]);
      t.connected && !t.showModal && ReceiverActive(t)
  {
    var s1 := Step(s, Incoming(c));
    assert Run(s, [Incoming(c), Opened(c), AcceptPressed]) == Run(s1, [Opened(c), AcceptPressed]);
    var s2 := Step(s1, Opened(c));
    assert Run(s1, [Opened(c), AcceptPressed]) == Run(s2, [AcceptPressed]);
    var s3 := Step(s2, AcceptPressed);
    assert Run(s2, [AcceptPressed]) == Run(s3, []);
    assert Run(s, [Incoming(c), Opened(c)]) == Run(s1, [Opened(c)]);
    assert Run(s1, [Opened(c)]) == Run(s2, []);
  }

  /** A call arriving during a live session replaces the held connection
      while `connected` stays set, so the receiver is mounted on the new
      connection at once, and registers its data handler, with the dialog
      still up and before any accept. */
  lemma IncomingDuringSessionMountsReceiver(c: ConnId, d: ConnId)
    ensures var t := Run(Initial, [PeerCreated, RemoteIdTyped("1234"), Dial(c), Opened(c), Incoming(d)]);
      ReceiverActive(t) && t.dataConnection == Some(d) && DialogShown(t)
  {
    var s1 := Step(Initial, PeerCreated);
    assert Run(Initial, [PeerCreated, RemoteIdTyped("1234"), Dial(c), Opened(c), Incoming(d)])
        == Run(s1, [RemoteIdTyped("1234"), Dial(c), Opened(c), Incoming(d)]);
    var s2 := Step(s1, RemoteIdTyped("1234"));
    assert Run(s1, [RemoteIdTyped("1234"), Dial(c), Opened(c), Incoming(d)]) == Run(s2, [Dial(c), Opened(c), Incoming(d)]);
    var s3 := Step(s2, Dial(c));
    assert Run(s2, [Dial(c), Opened(c), Incoming(d)]) == Run(s3, [Opened(c), Incoming(d)]);
    var s4 := Step(s3, Opened(c));
    assert Run(s3, [Opened(c), Incoming(d)]) == Run(s4, [Incoming(d)]);
    var s5 := Step(s4, Incoming(d));
    assert Run(s4, [Incoming(d)]) == Run(s5, []);
  }

  /** Accept and reject do nothing without a connection. Reject closes the
      held connection, drops it and hides the dialog. */
  lemma AcceptRejectGuards(s: HomeState)
    ensures s.dataConnection.None? ==> Step(s, AcceptPressed) == s && Step(s, RejectPressed) == s
    ensures s.dataConnection.Some? ==>
      Step(s, AcceptPressed).connected && !Step(s, AcceptPressed).showModal
    ensures s.dataConnection.Some? ==>
      ClosedByReject(s) == s.dataConnection && Step(s, RejectPressed).dataConnection.None?
      && !Step(s, RejectPressed).showModal && Step(s, RejectPressed).connected == s.connected
  {
  }

  /** A `close` or `error` on any registered connection disconnects and
      drops the held connection, whatever the state; the role and the
      dialog flag stay. */
  lemma CloseOrErrorTearsDown(s: HomeState, e: CallEvent)
    requires e.Closed? || e.Failed?
    requires e.conn in s.listeners
    ensures !Step(s, e).connected && Step(s, e).dataConnection.None?
    ensures Step(s, e).isInitiator == s.isInitiator && Step(s, e).showModal == s.showModal
    ensures !TransferShown(Step(s, e)) && !DialogShown(Step(s, e))
  {
  }

  /** An incoming call that is rejected never mounts a transfer component. */
  lemma RejectedCallNeverTransfers(c: ConnId)
    ensures var t := Run(Initial, [PeerCreated, Incoming(c)]);
      !TransferShown(t) && DialogShown(t)
    ensures var t := Run(Initial, [PeerCreated, Incoming(c), RejectPressed]);
      !TransferShown(t) && !DialogShown(t) && t.dataConnection.None?
  {
    var s1 := Step(Initial, PeerCreated);
    assert Run(Initial, [PeerCreated, Incoming(c), RejectPressed]) == Run(s1, [Incoming(c), RejectPressed]);
    var s2 := Step(s1, Incoming(c));
    assert Run(s1, [Incoming(c), RejectPressed]) == Run(s2, [RejectPressed]);
    var s3 := Step(s2, RejectPressed);
    assert Run(s2, [RejectPressed]) == Run(s3, []);
    assert Run(Initial, [PeerCreated, Incoming(c)]) == Run(s1, [Incoming(c)]);
    assert Run(s1, [Incoming(c)]) == Run(s2, []);
  }

  /** The dialog flag is not cleared by `close`: after an incoming call that
      closed, dialling out shows the incoming-call dialog for the dialled
      connection until its `open` event. */
  lemma StaleDialogOnDialler(c: ConnId, d: ConnId)
    ensures var t := Run(Initial, [PeerCreated, RemoteIdTyped("1234"), Incoming(c), Closed(c), Dial(d)]);
      DialogShown(t) && t.isInitiator && t.dataConnection == Some(d)
  {
    var s1 := Step(Initial, PeerCreated);
    assert Run(Initial, [PeerCreated, RemoteIdTyped("1234"), Incoming(c), Closed(c), Dial(d)]) == Run(s1, [RemoteIdTyped("1234"), Incoming(c), Closed(c), Dial(d)]);
    var s2 := Step(s1, RemoteIdTyped("1234"));
    assert Run(s1, [RemoteIdTyped("1234"), Incoming(c), Closed(c), Dial(d)]) == Run(s2, [Incoming(c), Closed(c), Dial(d)]);
    var s3 := Step(s2, Incoming(c));
    assert Run(s2, [Incoming(c), Closed(c), Dial(d)]) == Run(s3, [Closed(c), Dial(d)]);
    var s4 := Step(s3, Closed(c));
    assert Run(s3, [Closed(c), Dial(d)]) == Run(s4, [Dial(d)]);
    var s5 := Step(s4, Dial(d));
    assert Run(s4, [Dial(d)]) == Run(s5, []);
  }

  /** Rejecting a second call that arrives while connected, before that
      call's `open`, leaves the flag `connected` set with no connection:
      neither the peer-id form nor a transfer component is shown. Whether the
      `close()` it calls later fires a `close` event is up to the channel. */
  lemma RejectWhileConnectedShowsNothing(c: ConnId, d: ConnId)
    ensures var t := Run(Initial, [PeerCreated, RemoteIdTyped("1234"), Dial(c), Opened(c), Incoming(d), RejectPressed]);
      t.connected && !ConnectFormShown(t) && !TransferShown(t) && !DialogShown(t)
  {
    var s1 := Step(Initial, PeerCreated);
    assert Run(Initial, [PeerCreated, RemoteIdTyped("1234"), Dial(c), Opened(c), Incoming(d), RejectPressed]) == Run(s1, [RemoteIdTyped("1234"), Dial(c), Opened(c), Incoming(d), RejectPressed]);
    var s2 := Step(s1, RemoteIdTyped("1234"));
    assert Run(s1, [RemoteIdTyped("1234"), Dial(c), Opened(c), Incoming(d), RejectPressed]) == Run(s2, [Dial(c), Opened(c), Incoming(d), RejectPressed]);
    var s3 := Step(s2, Dial(c));
    assert Run(s2, [Dial(c), Opened(c), Incoming(d), RejectPressed]) == Run(s3, [Opened(c), Incoming(d), RejectPressed]);
    var s4 := Step(s3, Opened(c));
    assert Run(s3, [Opened(c), Incoming(d), RejectPressed]) == Run(s4, [Incoming(d), RejectPressed]);
    var s5 := Step(s4, Incoming(d));
    assert Run(s4, [Incoming(d), RejectPressed]) == Run(s5, [RejectPressed]);
    var s6 := Step(s5, RejectPressed);
    assert Run(s5, [RejectPressed]) == Run(s6, []);
  }

  /** The character of a decimal digit. */
  function DigitChar(d: nat): char
    requires d < 10
  {
    (48 + d) as char
  }

  /** The number a string of decimal digits denotes. */
  function DecimalValue(s: string): int
  {
    if s == [] then 0 else DecimalValue(s[..|s| - 1]) * 10 + (s[|s| - 1] as int - 48)
  }

  /** `generateRandomPin`, given `draw == Math.floor(Math.random() * 9000)`:
      a four-digit decimal string denoting a number in [1000, 9999]. */
  function Pin(draw: nat): (pin: string)
    requires draw < 9000
    ensures |pin| == 4
    ensures forall i :: 0 <= i < |pin| ==> '0' <= pin[i] <= '9'
    ensures pin[0] != '0'
    ensures DecimalValue(pin) == 1000 + draw
  {
    var n := 1000 + draw;
    var pin := [DigitChar(n / 1000), DigitChar(n / 100 % 10), DigitChar(n / 10 % 10), DigitChar(n % 10)];
    assert pin[..1][..0] == [] && pin[..2][..1] == pin[..1] && pin[..3][..2] == pin[..2] && pin[..4][..3] == pin[..3];
    assert DecimalValue(pin[..1]) == n / 1000;
    assert DecimalValue(pin[..2]) == n / 100;
    assert DecimalValue(pin[..3]) == n / 10;
    assert pin[..4] == pin;
    pin
  }

  /** The component: its state fields and its handlers, each one atomic. */
  class Home {
    var hasPeer: bool
    var remotePeerId: string
    var connected: bool
    var dataConnection: Option<ConnId>
    var showModal: bool
    var isInitiator: bool
    var listeners: map<ConnId, bool>

    function State(): HomeState
      reads this
    {
      HomeState(hasPeer, remotePeerId, connected, dataConnection, showModal, isInitiator, listeners)
    }

    ghost predicate Valid()
      reads this
    {
      Inv(State())
    }

    constructor ()
      ensures State() == Initial && Valid()
    {
      hasPeer, remotePeerId, connected := false, "", false;
      dataConnection, showModal, isInitiator := None, false, false;
      listeners := map[];
    }

    /** The mount effect: creates the peer under a random four-digit id
        (home.tsx:26-42). */
    method Mount(draw: nat) returns (requestedId: string)
      requires Valid() && draw < 9000
      modifies this
      ensures Valid() && State() == Step(old(State()), PeerCreated)
      ensures requestedId == Pin(draw)
    {
      requestedId := Pin(draw);
      hasPeer := true;
    }

    method SetRemotePeerId(id: string)
      requires Valid()
      modifies this
      ensures Valid() && State() == Step(old(State()), RemoteIdTyped(id))
    {
      remotePeerId := id;
    }

    method HandleIncoming(c: ConnId)
      requires Valid()
      modifies this
      ensures Valid() && State() == Step(old(State()), Incoming(c))
    {
      dataConnection := Some(c);
      showModal := true;
      isInitiator := false;
      listeners := listeners[c := false];
    }

    method ConnectToPeer(c: ConnId)
      requires Valid()
      modifies this
      ensures Valid() && State() == Step(old(State()), Dial(c))
    {
      if hasPeer && remotePeerId != "" {
        dataConnection := Some(c);
        isInitiator := true;
        listeners := listeners[c := true];
      }
    }

    method HandleOpen(c: ConnId)
      requires Valid()
      modifies this
      ensures Valid() && State() == Step(old(State()), Opened(c))
    {
      if c in listeners && listeners[c] {
        connected := true;
        showModal := false;
      }
    }

    /** The `close` handler; the `error` handler does the same. */
    method HandleClose(c: ConnId)
      requires Valid()
      modifies this
      ensures Valid() && State() == Step(old(State()), Closed(c))
      ensures State() == Step(old(State()), Failed(c))
    {
      if c in listeners {
        connected := false;
        dataConnection := None;
      }
    }

    method AcceptCall()
      requires Valid()
      modifies this
      ensures Valid() && State() == Step(old(State()), AcceptPressed)
    {
      if dataConnection.Some? {
        connected := true;
        showModal := false;
      }
    }

    /** Returns the connection whose `close()` is called. */
    method RejectCall() returns (closed: Option<ConnId>)
      requires Valid()
      modifies this
      ensures Valid() && State() == Step(old(State()), RejectPressed)
      ensures closed == ClosedByReject(old(State()))
    {
      closed := dataConnection;
      if dataConnection.Some? {
        dataConnection := None;
        showModal := false;
      }
    }
  }
}
