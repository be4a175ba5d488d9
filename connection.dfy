/** The connection state of the WhatsApp service as pure values: the four fields
    the service object keeps, the `connection.update` event, and the transition
    each event and each run of `initialize` makes. The class in module Service
    performs these transitions in place and is proved against them. */
module Connection {
  import opened Common

  /** The values `connectionStatus` takes. */
  datatype ConnectionStatus =
    | Disconnected
    | QrReady
    | Reconnecting
    | LoggedOut
    | Connected
    | Connecting
    | Error
  {
    /** The string the service stores and reports. */
    function Name(): string {
      match this
      case Disconnected => "disconnected"
      case QrReady => "qr_ready"
      case Reconnecting => "reconnecting"
      case LoggedOut => "logged_out"
      case Connected => "connected"
      case Connecting => "connecting"
      case Error => "error"
    }
  }

  /** Distinct statuses are reported as distinct strings. */
  lemma NameInjective(a: ConnectionStatus, b: ConnectionStatus)
    ensures a.Name() == b.Name() ==> a == b
  {
  }

  /** The `connection` field of an update; an absent field is None. */
  datatype ConnectionEvent = Close | Open | Opening

  /** `DisconnectReason.loggedOut` of the protocol library. */
  const LoggedOutCode: int := 401

  /** The fields of a `connection.update` the handler reads: `connection`,
      `lastDisconnect?.error?.output?.statusCode` and `qr`. */
  datatype ConnectionUpdate = ConnectionUpdate(
    connection: Option<ConnectionEvent>,
    closeCode: Option<int>,
    qr: Option<string>)

  /** The socket is identified by the number of sockets made before it. */
  type SocketId = nat

  /** The fields of the service object: `sock`, `isConnected`,
      `connectionStatus` and `qrCode`, with the number of sockets made so far. */
  datatype State = State(
    sock: Option<SocketId>,
    isConnected: bool,
    status: ConnectionStatus,
    qrCode: Option<string>,
    socketsMade: nat)

  /** The state the constructor builds. */
  const Initial: State := State(None, false, Disconnected, None, 0)

  /** `if (qr)`: the payload is present and non-empty. */
  predicate CarriesQr(u: ConnectionUpdate) {
    u.qr.Some? && u.qr.value != ""
  }

  /** A close whose code is not `loggedOut` (an absent code included). */
  predicate ShouldReconnect(u: ConnectionUpdate) {
    u.connection == Some(Close) && u.closeCode != Some(LoggedOutCode)
  }

  /** The `connection.update` handler: first the `qr` branch, then at most one
      of the `close` / `open` / `connecting` branches. */
  function Apply(s: State, u: ConnectionUpdate): (t: State)
    ensures t.sock == s.sock && t.socketsMade == s.socketsMade
    ensures u.connection.None? && CarriesQr(u) ==> t == s.(qrCode := u.qr, status := QrReady)
    ensures u.connection.None? && !CarriesQr(u) ==> t == s
    ensures u.connection == Some(Close) ==>
      && !t.isConnected
      && t.status == (if ShouldReconnect(u) then Reconnecting else LoggedOut)
      && t.qrCode == (if CarriesQr(u) then u.qr else s.qrCode)
    ensures u.connection == Some(Open) ==> t.isConnected && t.status == Connected && t.qrCode.None?
    ensures u.connection == Some(Opening) ==>
      && t.status == Connecting
      && t.isConnected == s.isConnected
      && t.qrCode == (if CarriesQr(u) then u.qr else s.qrCode)
    ensures t.isConnected != s.isConnected ==> u.connection == Some(Open) || u.connection == Some(Close)
  {
    var s1 := if CarriesQr(u) then s.(qrCode := u.qr, status := QrReady) else s;
    match u.connection
    case Some(Close) =>
      if ShouldReconnect(u) then s1.(status := Reconnecting, isConnected := false)
      else s1.(status := LoggedOut, isConnected := false)
    case Some(Open) => s1.(status := Connected, isConnected := true, qrCode := None)
    case Some(Opening) => s1.(status := Connecting)
    case None => s1
  }

  /** The number of times the handler calls `initialize()` again: once for a
      close that is not a logout, never otherwise. */
  function ReinitRequests(u: ConnectionUpdate): (n: nat)
    ensures n <= 1
    ensures n == 1 <==> u.connection == Some(Close) && u.closeCode != Some(LoggedOutCode)
  {
    if ShouldReconnect(u) then 1 else 0
  }

  /** Applying `open` twice is the same as applying it once. */
  lemma OpenIdempotent(s: State, u: ConnectionUpdate)
    requires u.connection == Some(Open)
    ensures Apply(Apply(s, u), u) == Apply(s, u)
  {
  }

  /** How a run of `initialize` ends: the socket was made and the handlers
      installed, or one of the library calls threw. */
  datatype InitOutcome = InitSucceeded | InitFailed

  /** `initialize()`: success stores a new socket and leaves every other field
      alone; failure sets status `error` and leaves every other field alone. */
  function Initialize(s: State, outcome: InitOutcome): (t: State)
    ensures t.isConnected == s.isConnected && t.qrCode == s.qrCode
    ensures outcome == InitFailed ==> t == s.(status := Error)
    ensures outcome == InitSucceeded ==>
      t.sock == Some(s.socketsMade) && t.socketsMade == s.socketsMade + 1 && t.status == s.status
  {
    match outcome
    case InitSucceeded => s.(sock := Some(s.socketsMade), socketsMade := s.socketsMade + 1)
    case InitFailed => s.(status := Error)
  }

  /** What can happen to the service: a run of `initialize` ends, or the
      current socket delivers a `connection.update`. */
  datatype Event = Init(outcome: InitOutcome) | Update(update: ConnectionUpdate)

  /** One event. An update can only be delivered once a socket exists, since
      the handler is installed on it. */
  function Step(s: State, e: Event): State {
    match e
    case Init(outcome) => Initialize(s, outcome)
    case Update(u) => if s.sock.Some? then Apply(s, u) else s
  }

  /** A sequence of events, in order. */
  function Run(s: State, events: seq<Event>): State
    decreases |events|
  {
    if events == [] then s else Run(Step(s, events[0]), events[1..])
  }

  /** The relations between the fields that every reachable state keeps. */
  predicate Consistent(s: State) {
    && (s.sock.Some? ==> s.sock.value < s.socketsMade)
    && (s.isConnected ==> s.sock.Some?)
    && (s.status == Connected ==> s.isConnected && s.qrCode.None?)
    && (s.status in {Disconnected, Reconnecting, LoggedOut} ==> !s.isConnected)
    && (s.status == QrReady ==> s.qrCode.Some? && s.qrCode.value != "")
  }

  lemma InitialConsistent()
    ensures Consistent(Initial)
  {
  }

  /** Every event keeps the field relations. */
  lemma StepConsistent(s: State, e: Event)
    requires Consistent(s)
    ensures Consistent(Step(s, e))
  {
  }

  /** Every run keeps the field relations. */
  lemma {:induction false} RunConsistent(s: State, events: seq<Event>)
    requires Consistent(s)
    ensures Consistent(Run(s, events))
    decreases |events|
  {
    if events != [] {
      StepConsistent(s, events[0]);
      RunConsistent(Step(s, events[0]), events[1..]);
    }
  }

  /** Hence every state reachable from the constructor's keeps them. */
  lemma ReachableConsistent(events: seq<Event>)
    ensures Consistent(Run(Initial, events))
  {
    RunConsistent(Initial, events);
  }

  /** `isConnected` only ever changes on an `open` or a `close`: a run with no
      such update leaves it as it was. */
  lemma {:induction false} FlagNeedsOpenOrClose(s: State, events: seq<Event>)
    requires forall i :: 0 <= i < |events| && events[i].Update? ==>
      events[i].update.connection.None? || events[i].update.connection == Some(Opening)
    ensures Run(s, events).isConnected == s.isConnected
    decreases |events|
  {
    if events != [] {
      FlagNeedsOpenOrClose(Step(s, events[0]), events[1..]);
    }
  }

  /** `isConnected` does not mean the status is `connected`: a `connecting`
      update after `open` leaves the flag set with status `connecting`. */
  lemma FlagOutlivesConnectedStatus()
    ensures var t := Run(Initial, [Init(InitSucceeded), Update(ConnectionUpdate(Some(Open), None, None)),
                                   Update(ConnectionUpdate(Some(Opening), None, None))]);
      t.isConnected && t.status == Connecting
  {
  }
}
