/** The message pane of an open conversation: relative time, which messages
    are the signed-in user's own, how each message renders, and the in-place
    edit state with its save, cancel and delete actions. */
module MessageList {
  import opened Wrappers
  import opened BackendTypes
  import Js
  import ConversationList
  import MessagingContext
  import Lists

  // ---------------------------------------------------------------------
  // formatTimestamp
  // ---------------------------------------------------------------------

  /** `TimeOfDay` and `DateAndTime` stand for the locale renderings of the instant. */
  datatype MessageTime = JustNow | MinutesAgo(m: int) | TimeOfDay(ms: int) | DateAndTime(ms: int)

  function FormatTimestamp(nowMs: int, timestampNs: int): (t: MessageTime)
    ensures var age := nowMs - Js.NsToMs(timestampNs);
      && (t == JustNow <==> age < ConversationList.MinuteMs)
      && (t.MinutesAgo? <==> ConversationList.MinuteMs <= age < ConversationList.HourMs)
      && (t.TimeOfDay? <==> ConversationList.HourMs <= age < ConversationList.DayMs)
      && (t.DateAndTime? <==> ConversationList.DayMs <= age)
      && (t.MinutesAgo? ==>
            1 <= t.m < 60 && t.m * ConversationList.MinuteMs <= age < (t.m + 1) * ConversationList.MinuteMs)
      && (t.TimeOfDay? || t.DateAndTime? ==> t.ms == Js.NsToMs(timestampNs))
  {
    var date := Js.NsToMs(timestampNs);
    var diffMs := nowMs - date;
    var diffMins := diffMs / ConversationList.MinuteMs;
    if diffMins < 1 then JustNow
    else if diffMins < 60 then MinutesAgo(diffMins)
    else if diffMs < ConversationList.DayMs then TimeOfDay(date)
    else DateAndTime(date)
  }

  /** The label shown: a minute label reads back as its minute count. */
  function TimeText(t: MessageTime, localeTime: int -> string, localeDateTime: int -> string): (r: string)
    ensures t == JustNow ==> r == "Just now"
    ensures t.MinutesAgo? && t.m >= 0 ==>
      |r| > 5 && r[|r| - 5..] == "m ago" && Js.ParseNat(r[..|r| - 5]) == t.m
    ensures t.TimeOfDay? ==> r == localeTime(t.ms)
    ensures t.DateAndTime? ==> r == localeDateTime(t.ms)
  {
    match t
    case JustNow => "Just now"
    case MinutesAgo(m) =>
      if m >= 0 then
        Js.ParseNatToString(m);
        var shown := Js.NatToString(m) + "m ago";
        assert shown[..|shown| - 5] == Js.NatToString(m);
        shown
      else "m ago"
    case TimeOfDay(ms) => localeTime(ms)
    case DateAndTime(ms) => localeDateTime(ms)
  }

  /** The pane and the sidebar cut at the same thresholds: the same instant is
      "just now" in both, carries the same minute count, and the pane's
      time of day covers exactly the sidebar's hours. */
  lemma AgreesWithSidebar(nowMs: int, timestampNs: int)
    ensures var t := FormatTimestamp(nowMs, timestampNs);
      var l := ConversationList.FormatTimestamp(nowMs, timestampNs);
      && (t == JustNow <==> l == ConversationList.JustNow)
      && (t.MinutesAgo? <==> l.Minutes?)
      && (t.MinutesAgo? ==> t.m == l.m)
      && (t.TimeOfDay? <==> l.Hours?)
      && (t.DateAndTime? <==> l.Days? || l.CalendarDate?)
  {
    var t := FormatTimestamp(nowMs, timestampNs);
    var l := ConversationList.FormatTimestamp(nowMs, timestampNs);
    if t.MinutesAgo? {
      var age := nowMs - Js.NsToMs(timestampNs);
      MinutesUnique(age, t.m, l.m);
    }
  }

  /** Two minute counts bracketing the same age are equal. */
  lemma MinutesUnique(age: int, a: int, b: int)
    requires a * ConversationList.MinuteMs <= age < (a + 1) * ConversationList.MinuteMs
    requires b * ConversationList.MinuteMs <= age < (b + 1) * ConversationList.MinuteMs
    ensures a == b
  {
  }

  // ---------------------------------------------------------------------
  // Own messages and rendering
  // ---------------------------------------------------------------------

  /** `isCurrentUser(message)`: with no identity the principal is `undefined`,
      which no sender string equals. */
  function IsCurrentUser(m: Message, identity: Option<string>): (own: bool)
    ensures own <==> identity == Some(m.sender)
  {
    identity.Some? && m.sender == identity.value
  }

  /** A message on screen: a centred system notice, or a bubble. A bubble
      carries the sender's initials, the sender label (only on others'
      messages), the edit and delete options (only on one's own), the edited
      mark, and whether the editor replaces the content. */
  datatype Rendering =
    | SystemNotice(text: string)
    | Bubble(own: bool, initials: string, senderLabel: Option<string>, showsOptions: bool,
             editing: bool, edited: bool)

  /** The value read by `message.messageType.system` on the JavaScript form of
      the Candid variant: the `system` tag carries `null`, any other tag has
      no such key. */
  datatype FieldRead = Undefined | Null

  function ReadSystemKey(t: MessageType): (f: FieldRead)
    ensures f == Null <==> t == System
  {
    if t == System then Null else Undefined
  }

  /** Neither `null` nor `undefined` is truthy. */
  predicate TruthyRead(f: FieldRead) {
    match f
    case Undefined => false
    case Null => false
  }

  /** One message's bubble. While the message is being edited the editor takes
      the place of its content, so neither the `(edited)` mark nor the edit and
      delete options are drawn. */
  function BubbleFor(m: Message, identity: Option<string>, editingMessageId: Option<string>): (r: Rendering)
    ensures r.Bubble? && r.own == IsCurrentUser(m, identity)
    ensures r.senderLabel.Some? <==> !r.own
    ensures r.showsOptions == (r.own && !r.editing)
    ensures r.senderLabel.Some? ==> r.senderLabel.value == m.senderName
    ensures r.initials == ConversationList.Initials(m.senderName)
    ensures r.editing <==> editingMessageId == Some(m.id)
    ensures r.edited == (m.isEdited && !r.editing)
  {
    var own := IsCurrentUser(m, identity);
    var editing := editingMessageId == Some(m.id);
    Bubble(own, ConversationList.Initials(m.senderName), if own then None else Some(m.senderName),
           own && !editing, editing, m.isEdited && !editing)
  }

  /** `renderMessageContent` as written: the notice branch tests the value
      under the `system` key, which is `null` even for a system message. */
  function RenderAsWritten(m: Message, identity: Option<string>, editingMessageId: Option<string>): (r: Rendering)
    ensures r.Bubble?
  {
    if TruthyRead(ReadSystemKey(m.messageType)) then SystemNotice(m.content)
    else BubbleFor(m, identity, editingMessageId)
  }

  /** A system message shows up as an ordinary bubble, with edit and delete
      options when its sender field is the viewer's principal. */
  lemma SystemMessageRenderedAsBubble(m: Message, identity: Option<string>, editingMessageId: Option<string>)
    requires m.messageType == System
    ensures RenderAsWritten(m, identity, editingMessageId) != Render(m, identity, editingMessageId)
  {
  }

  /** `renderMessageContent` testing for the tag, as the branch intends
      (`'system' in message.messageType`). */
  function Render(m: Message, identity: Option<string>, editingMessageId: Option<string>): (r: Rendering)
    ensures r.SystemNotice? <==> m.messageType == System
    ensures r.SystemNotice? ==> r.text == m.content
    ensures r.Bubble? ==> r == BubbleFor(m, identity, editingMessageId)
  {
    if m.messageType == System then SystemNotice(m.content)
    else BubbleFor(m, identity, editingMessageId)
  }

  /** Edit and delete are offered exactly on the viewer's own messages that
      are not system notices and are not being edited. */
  lemma OptionsOnlyOnOwn(m: Message, identity: Option<string>, editingMessageId: Option<string>)
    ensures var r := Render(m, identity, editingMessageId);
      (r.Bubble? && r.showsOptions) <==>
        m.messageType != System && identity == Some(m.sender) && editingMessageId != Some(m.id)
  {
  }

  // ---------------------------------------------------------------------
  // Edit state
  // ---------------------------------------------------------------------

  const DeleteConfirmText: string := "Are you sure you want to delete this message?"

  class MessageEditor {
    var editingMessageId: Option<string>
    var editContent: string

    constructor ()
      ensures editingMessageId == None && editContent == ""
    {
      editingMessageId := None;
      editContent := "";
    }

    predicate Idle()
      reads this
    {
      editingMessageId == None && editContent == ""
    }

    /** `handleEdit(message)`. */
    method HandleEdit(m: Message)
      modifies this`editingMessageId, this`editContent
      ensures editingMessageId == Some(m.id) && editContent == m.content
    {
      editingMessageId := Some(m.id);
      editContent := m.content;
    }

    /** The edit textarea's `onChange`. */
    method SetEditContent(text: string)
      modifies this`editContent
      ensures editContent == text
    {
      editContent := text;
    }

    /** `handleSaveEdit(messageId)`: the store's `editMessage` runs with the
        trimmed text only when that is not empty; the editor goes idle either way. */
    method HandleSaveEdit(messageId: string, store: MessagingContext.MessagingStore,
                          editMessage: (string, string) -> Reply<Message>)
      returns (sentContent: Option<string>)
      modifies this`editingMessageId, this`editContent, store`messages, store`error
      ensures Idle()
      ensures sentContent == if Js.IsBlank(old(editContent)) then None else Some(Js.Trim(old(editContent)))
      ensures sentContent.None? ==> store.messages == old(store.messages) && store.error == old(store.error)
      ensures sentContent.Some? && store.messagingActor.Some? ==>
        var reply := editMessage(messageId, sentContent.value);
        store.messages == (if reply.Ok? then Lists.ReplaceById(old(store.messages), MessageId, messageId, reply.value)
                           else old(store.messages))
        && store.error == MessagingContext.ErrorAfter(reply, MessagingContext.EditFailedText, old(store.error))
      ensures sentContent.Some? && store.messagingActor.None? ==>
        store.messages == old(store.messages) && store.error == old(store.error)
    {
      var content := Js.Trim(editContent);
      if content != "" {
        var _ := store.EditMessage(messageId, content, editMessage);
        sentContent := Some(content);
      } else {
        sentContent := None;
      }
      editingMessageId := None;
      editContent := "";
    }

    /** `handleCancelEdit()`: idle again, nothing sent. */
    method HandleCancelEdit()
      modifies this`editingMessageId, this`editContent
      ensures Idle()
    {
      editingMessageId := None;
      editContent := "";
    }

    /** `handleDelete(messageId)`: `confirmed` is the answer to the confirmation
        dialog; the store's `deleteMessage` runs only on a yes. */
    method HandleDelete(messageId: string, confirmed: bool, store: MessagingContext.MessagingStore,
                        deleteMessage: string -> Reply<()>,
                        getConversationMessages: (string, nat, nat) -> Reply<seq<Message>>)
      modifies store`messages, store`error, store`loading
      ensures !confirmed ==>
        store.messages == old(store.messages) && store.error == old(store.error)
        && store.loading == old(store.loading)
      ensures confirmed && store.messagingActor.None? ==>
        store.messages == old(store.messages) && store.error == old(store.error)
        && store.loading == old(store.loading)
      ensures confirmed && store.messagingActor.Some? && deleteMessage(messageId).Ok?
              && store.currentConversation.Some? ==>
        var page := getConversationMessages(store.currentConversation.value.id, MessagingContext.DefaultPageLimit, 0);
        store.messages == MessagingContext.WindowAfter(page, old(store.messages))
        && store.error == MessagingContext.ErrorAfter(page, MessagingContext.LoadMessagesFailedText, old(store.error))
        && !store.loading
      ensures confirmed && store.messagingActor.Some? && deleteMessage(messageId).Ok?
              && store.currentConversation.None? ==>
        store.messages == old(store.messages) && store.error == old(store.error)
        && store.loading == old(store.loading)
      ensures confirmed && store.messagingActor.Some? && !deleteMessage(messageId).Ok? ==>
        store.messages == old(store.messages)
        && store.error == MessagingContext.ErrorAfter(deleteMessage(messageId), MessagingContext.DeleteFailedText,
                                                      old(store.error))
        && store.loading == old(store.loading)
    {
      if confirmed {
        var _ := store.DeleteMessage(messageId, deleteMessage, getConversationMessages);
      }
    }
  }
}
