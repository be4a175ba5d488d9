/** The anti-mention moderation rule run on the first message of every
    `messages.upsert` batch: a group-status mention in one of two watched groups
    is answered, deleted, and its sender removed ten seconds later. */
module AntiMention {
  import opened Common
  import opened StrUtil
  import opened Socket

  /** The two groups the rule watches. */
  const WatchedGroups: seq<string> := ["120363399423653389@g.us", "120363025783457581@g.us"]

  const MentionKey: string := "groupStatusMentionMessage"

  /** Delay before the sender is removed, in milliseconds. */
  const RemoveDelayMs: nat := 10000

  const ReplyLead: string := "Cung yang kena spam *mention group* sama si dongo satu ini \U{261D}\U{FE0F}@"

  /** The message is a group-status mention: its `message` object exists and
      has the mention key. */
  predicate IsGroupMention(m: InboundMessage) {
    m.body.Body? && MentionKey in m.body.keys
  }

  /** `groupJids.includes(groupId)`; an absent `remoteJid` is never included. */
  predicate InWatchedGroup(m: InboundMessage) {
    m.key.remoteJid.Some? && m.key.remoteJid.value in WatchedGroups
  }

  /** The reply text: the lead, `@` and the sender's number (the participant
      address up to its first `@`), then the package signature. */
  function ReplyText(participant: string, name: string, author: string): (text: string)
    ensures StartsWith(text, ReplyLead + Before(participant, '@'))
  {
    var lead := ReplyLead + Before(participant, '@');
    var text := lead + "\n\n> Sent via " + name + "\n> @" + author + "/" + name + ".git";
    assert text[..|lead|] == lead;
    text
  }

  /** The socket calls `antiGroupMention` makes, in order. A `message` field
      holding null, or a missing `participant`, makes the call throw before its
      first socket call, so nothing is issued then either. */
  function Actions(m: InboundMessage, name: string, author: string): (calls: seq<SockCall>)
    ensures calls == [] || |calls| == 3
    ensures |calls| == 3 <==> IsGroupMention(m) && InWatchedGroup(m) && m.key.participant.Some?
    ensures |calls| == 3 ==>
      var group := m.key.remoteJid.value;
      var who := m.key.participant.value;
      && calls[0] == SendQuotedText(group, ReplyText(who, name, author), [who], m)
      && calls[1] == DeleteMessage(group, m.key)
      && calls[2] == UpdateParticipants(group, [who], "remove", RemoveDelayMs)
  {
    match m.body
    case NoBody => []
    case NullBody => []
    case Body(keys) =>
      if MentionKey !in keys then []
      else if !InWatchedGroup(m) then []
      else if m.key.participant.None? then []
      else
        var group := m.key.remoteJid.value;
        var who := m.key.participant.value;
        [ SendQuotedText(group, ReplyText(who, name, author), [who], m),
          DeleteMessage(group, m.key),
          UpdateParticipants(group, [who], "remove", RemoveDelayMs) ]
  }

  /** Every call the rule makes goes to the group the mention was posted in,
      which is a watched group. */
  lemma ActionsStayInGroup(m: InboundMessage, name: string, author: string, i: nat)
    requires i < |Actions(m, name, author)|
    ensures Actions(m, name, author)[i].jid == m.key.remoteJid.value
    ensures Actions(m, name, author)[i].jid in WatchedGroups
  {
  }
}
