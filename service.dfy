/** The singleton WhatsApp service object: its four connection fields, the
    `connection.update` and `messages.upsert` handlers, `initialize`, the two
    text send methods, `getStatus` and `isServiceAlive`. The socket is
    abstract: every call made on it is appended to `calls`, and each
    `initialize()` the close handler starts is counted in `initRequests`. */
module Service {
  import opened Common
  import opened StrUtil
  import opened Connection
  import opened Socket
  import Jid
  import Watermark
  import AntiMention

  /** What `getStatus()` reports (its timestamp is not modelled). */
  datatype StatusReport = StatusReport(isConnected: bool, connectionStatus: ConnectionStatus, qrCode: Option<string>)

  const NotConnectedError: string := "WhatsApp not connected"
  const PersonalSentMessage: string := "Message sent successfully"
  const GroupSentMessage: string := "Group message sent successfully"

  class WhatsAppService {
    var sock: Option<SocketId>
    var isConnected: bool
    var connectionStatus: ConnectionStatus
    var qrCode: Option<string>
    /** Sockets made so far; the next one gets this number. */
    var socketsMade: nat
    /** Every call made on a socket, oldest first. */
    var calls: seq<SockCall>
    /** `initialize()` calls started by the close handler. */
    var initRequests: nat
    /** `name` and `author` of the package manifest. */
    const packageName: string
    const packageAuthor: string

    /** The connection fields as a value. */
    function Snapshot(): State
      reads this
    {
      State(sock, isConnected, connectionStatus, qrCode, socketsMade)
    }

    predicate Valid()
      reads this
    {
      Consistent(Snapshot()) && packageName != []
    }

    constructor (packageName: string, packageAuthor: string)
      requires packageName != []
      ensures Valid() && Snapshot() == Initial
      ensures calls == [] && initRequests == 0
      ensures this.packageName == packageName && this.packageAuthor == packageAuthor
    {
      this.packageName := packageName;
      this.packageAuthor := packageAuthor;
      sock := None;
      isConnected := false;
      connectionStatus := Disconnected;
      qrCode := None;
      socketsMade := 0;
      calls := [];
      initRequests := 0;
    }

    /** One run of `initialize()` to its end: on success a new socket with its
        handlers installed, on failure status `error`. */
    method Initialize(outcome: InitOutcome)
      requires Valid()
      modifies this`sock, this`socketsMade, this`connectionStatus
      ensures Valid()
      ensures Snapshot() == Connection.Initialize(old(Snapshot()), outcome)
    {
      match outcome
      case InitSucceeded =>
        sock := Some(socketsMade);
        socketsMade := socketsMade + 1;
      case InitFailed =>
        connectionStatus := Error;
    }

    /** The `connection.update` handler. */
    method HandleConnectionUpdate(u: ConnectionUpdate)
      requires Valid() && sock.Some?
      modifies this`isConnected, this`connectionStatus, this`qrCode, this`initRequests
      ensures Valid()
      ensures Snapshot() == Apply(old(Snapshot()), u)
      ensures initRequests == old(initRequests) + ReinitRequests(u)
    {
      if CarriesQr(u) {
        qrCode := u.qr;
        connectionStatus := QrReady;
      }
      if u.connection == Some(Close) {
        var shouldReconnect := u.closeCode != Some(LoggedOutCode);
        if shouldReconnect {
          connectionStatus := Reconnecting;
          isConnected := false;
          initRequests := initRequests + 1;
        } else {
          connectionStatus := LoggedOut;
          isConnected := false;
        }
      } else if u.connection == Some(Open) {
        connectionStatus := Connected;
        isConnected := true;
        qrCode := None;
      } else if u.connection == Some(Opening) {
        connectionStatus := Connecting;
      }
    }

    /** The `messages.upsert` handler: the first message of a non-empty batch
        goes through the anti-mention rule. */
    method HandleMessagesUpsert(messages: Option<seq<InboundMessage>>)
      requires Valid()
      modifies this`calls
      ensures Valid()
      ensures calls == old(calls) +
        if messages.Some? && |messages.value| > 0
        then AntiMention.Actions(messages.value[0], packageName, packageAuthor) else []
    {
      if messages.Some? && |messages.value| > 0 {
        var message := messages.value[0];
        calls := calls + AntiMention.Actions(message, packageName, packageAuthor);
      }
    }

    /** `sendMessage(phoneNumber, message)`. `sockError` is the socket's answer:
        None when it accepts the message, Some(e) when it rejects it with e. */
    method SendMessage(phoneNumber: string, message: string, sockError: Option<string>) returns (r: Attempt<string>)
      requires Valid()
      modifies this`calls
      ensures Valid()
      ensures !isConnected ==> r == Threw(NotConnectedError) && calls == old(calls)
      ensures isConnected ==>
        && calls == old(calls) + [SendText(Jid.PersonalJid(phoneNumber), Watermark.Stamp(message, packageName, packageAuthor))]
        && r == if sockError.Some? then Threw(sockError.value) else Returned(PersonalSentMessage)
    {
      if !isConnected {
        return Threw(NotConnectedError);
      }
      var formattedNumber := Jid.DigitsOnly(phoneNumber);
      if !StartsWith(formattedNumber, "62") {
        if StartsWith(formattedNumber, "0") {
          formattedNumber := "62" + formattedNumber[1..];
        } else {
          formattedNumber := "62" + formattedNumber;
        }
      }
      var jid := formattedNumber + "@s.whatsapp.net";
      var text := message;
      text := text + Watermark.Suffix(packageName, packageAuthor);
      calls := calls + [SendText(jid, text)];
      if sockError.Some? {
        return Threw(sockError.value);
      }
      return Returned(PersonalSentMessage);
    }

    /** `sendGroupMessage(groupId, message)`, with the socket's answer as in
        SendMessage. */
    method SendGroupMessage(groupId: string, message: string, sockError: Option<string>) returns (r: Attempt<string>)
      requires Valid()
      modifies this`calls
      ensures Valid()
      ensures !isConnected ==> r == Threw(NotConnectedError) && calls == old(calls)
      ensures isConnected ==>
        && calls == old(calls) + [SendText(Jid.GroupJid(groupId), Watermark.Stamp(message, packageName, packageAuthor))]
        && r == if sockError.Some? then Threw(sockError.value) else Returned(GroupSentMessage)
    {
      if !isConnected {
        return Threw(NotConnectedError);
      }
      var jid := if Contains(groupId, "@g.us") then groupId else groupId + "@g.us";
      var text := message;
      text := text + Watermark.Suffix(packageName, packageAuthor);
      calls := calls + [SendText(jid, text)];
      if sockError.Some? {
        return Threw(sockError.value);
      }
      return Returned(GroupSentMessage);
    }

    /** `getStatus()`. */
    method GetStatus() returns (r: StatusReport)
      ensures r.isConnected == isConnected && r.connectionStatus == connectionStatus && r.qrCode == qrCode
    {
      r := StatusReport(isConnected, connectionStatus, qrCode);
    }

    /** `isServiceAlive()`: a socket has been made. */
    method IsServiceAlive() returns (alive: bool)
      ensures alive <==> sock.Some?
    {
      alive := sock != None;
    }
  }

  /** A sequence of send attempts with the service disconnected throughout
      leaves the socket untouched: each call fails and none reaches the socket. */
  method SendWhileDisconnected(svc: WhatsAppService, phoneNumber: string, groupId: string, message: string)
    returns (personal: Attempt<string>, group: Attempt<string>)
    requires svc.Valid() && !svc.isConnected
    modifies svc`calls
    ensures personal == Threw(NotConnectedError) && group == Threw(NotConnectedError)
    ensures svc.calls == old(svc.calls)
  {
    personal := svc.SendMessage(phoneNumber, message, None);
    group := svc.SendGroupMessage(groupId, message, None);
  }

  /** The path from a fresh service to a delivered text: a socket is made, a
      QR code is shown, the phone pairs, and a message to a local number is
      sent with the watermark to the normalised address:
      `0<local>` goes to `62<local>@s.whatsapp.net`. */
  method PairAndSend(name: string, author: string, qr: string, local: string) returns (svc: WhatsAppService, r: Attempt<string>)
    requires name != [] && qr != "" && AllDigits(local)
    ensures svc.Valid()
    ensures svc.connectionStatus == Connected && svc.isConnected && svc.qrCode.None?
    ensures r == Returned(PersonalSentMessage)
    ensures svc.calls == [SendText(Jid.CountryCode + local + Jid.PersonalSuffix, Watermark.Stamp("hi", name, author))]
  {
    svc := new WhatsAppService(name, author);
    svc.Initialize(InitSucceeded);
    svc.HandleConnectionUpdate(ConnectionUpdate(None, None, Some(qr)));
    assert svc.connectionStatus == QrReady && svc.qrCode == Some(qr);
    svc.HandleConnectionUpdate(ConnectionUpdate(Some(Open), None, None));
    r := svc.SendMessage("0" + local, "hi", None);
    Jid.TrunkPrefixReplaced(local);
  }
}
