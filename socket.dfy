/** The protocol socket, seen from outside: the inbound messages it delivers and
    the calls the core makes on it. The socket itself is not modelled; every
    call on it is recorded as a value. */
module Socket {
  import opened Common

  /** `message.key`. */
  datatype MessageKey = MessageKey(remoteJid: Option<string>, participant: Option<string>, id: string)

  /** The `message` field of an inbound message: no such key, a key holding
      null or undefined, or an object with these keys. */
  datatype MessageBody = NoBody | NullBody | Body(keys: set<string>)

  /** An inbound message as `messages.upsert` delivers it. */
  datatype InboundMessage = InboundMessage(key: MessageKey, body: MessageBody)

  /** A call made on the socket. */
  datatype SockCall =
      /** `sock.sendMessage(jid, { text })` */
    | SendText(jid: string, text: string)
      /** `sock.sendMessage(jid, { text, mentions }, { quoted })` */
    | SendQuotedText(jid: string, text: string, mentions: seq<string>, quoted: InboundMessage)
      /** `sock.sendMessage(jid, { delete: key })` */
    | DeleteMessage(jid: string, key: MessageKey)
      /** `sock.groupParticipantsUpdate(jid, participants, action)`, run by a
          timer `delayMs` milliseconds later */
    | UpdateParticipants(jid: string, participants: seq<string>, action: string, delayMs: nat)
}
