/** The messaging cache store (`MessagingProvider`): the conversation list,
    the message window of the open conversation, the unread counter, the
    privacy settings and the last error, each updated from one backend reply. */
module MessagingContext {
  import opened Wrappers
  import opened BackendTypes
  import Lists

  /** The actor the store talks to: the declarations' default export, or one
      created with the signed-in identity (given by its principal text). */
  datatype MessagingActor = DefaultExport | CreatedWith(identity: string)

  const InitFailedText: string := "Failed to initialize messaging"
  const LoadConversationsFailedText: string := "Failed to load conversations"
  const LoadMessagesFailedText: string := "Failed to load messages"
  const SendFailedText: string := "Failed to send message"
  const CreateFailedText: string := "Failed to create conversation"
  const UpdatePrivacyFailedText: string := "Failed to update privacy settings"
  const EditFailedText: string := "Failed to edit message"
  const DeleteFailedText: string := "Failed to delete message"

  /** `loadMessages`' default page: 50 messages from offset 0. */
  const DefaultPageLimit: nat := 50

  // ---------------------------------------------------------------------
  // Requests
  // ---------------------------------------------------------------------

  /** The record `sendMessage` submits; optional fields use the Candid `[] | [x]` encoding. */
  datatype SendRequest = SendRequest(
    conversationId: string,
    content: string,
    messageType: MessageType,
    replyTo: seq<string>,
    attachments: seq<string>)

  /** The record `createConversation` submits. */
  datatype CreateRequest = CreateRequest(
    participants: seq<string>,
    participantNames: seq<string>,
    title: seq<string>,
    isGroup: bool,
    initialMessage: seq<string>)

  /** The send request: every argument is passed through, and a truthy `replyTo`
      survives the Candid encoding while a falsy one (null, '') is sent as absent. */
  function SendRequestFor(conversationId: string, content: string, messageType: MessageType,
                          replyTo: Option<string>, attachments: seq<string>): (r: SendRequest)
    ensures r.conversationId == conversationId && r.content == content
    ensures r.messageType == messageType && r.attachments == attachments
    ensures FromCandidOpt(r.replyTo) == (if Truthy(replyTo) then replyTo else None)
  {
    SendRequest(conversationId, content, messageType, CandidOpt(replyTo), attachments)
  }

  /** The create request: participants, names and the group flag are passed through;
      title and initial message are present exactly when truthy. */
  function CreateRequestFor(participants: seq<string>, participantNames: seq<string>,
                            title: Option<string>, isGroup: bool,
                            initialMessage: Option<string>): (r: CreateRequest)
    ensures r.participants == participants && r.participantNames == participantNames
    ensures r.isGroup == isGroup
    ensures FromCandidOpt(r.title) == (if Truthy(title) then title else None)
    ensures FromCandidOpt(r.initialMessage) == (if Truthy(initialMessage) then initialMessage else None)
  {
    CreateRequest(participants, participantNames, CandidOpt(title), isGroup, CandidOpt(initialMessage))
  }

  // ---------------------------------------------------------------------
  // Specification functions of the state updates
  // ---------------------------------------------------------------------

  /** The error slot after a reply: unchanged on `ok`, the backend's `err`
      text, or the handler's fixed text when the call threw. */
  function ErrorAfter<T>(reply: Reply<T>, thrownText: string, prior: Option<string>): Option<string>
  {
    match reply
    case Ok(_) => prior
    case Err(e) => Some(e)
    case Threw(_) => Some(thrownText)
  }

  /** The conversation list after a `getUserConversations` reply. */
  function ListAfter(reply: Reply<seq<Conversation>>, prior: seq<Conversation>): seq<Conversation>
  {
    if reply.Ok? then reply.value else prior
  }

  /** The message window after a `getConversationMessages` reply: the page, oldest first. */
  function WindowAfter(reply: Reply<seq<Message>>, prior: seq<Message>): seq<Message>
  {
    if reply.Ok? then Lists.Reverse(reply.value) else prior
  }

  /** The unread counter after a `getUnreadMessageCount` reply. */
  function CountAfter(reply: Reply<nat>, prior: nat): nat
  {
    if reply.Ok? then reply.value else prior
  }

  predicate IsCurrent(current: Option<Conversation>, conversationId: string) {
    current.Some? && current.value.id == conversationId
  }

  /** `unreadCounts.map(([userId, _]) => [userId, 0])`. */
  function ZeroUnread(entries: seq<UnreadEntry>): (r: seq<UnreadEntry>)
    ensures |r| == |entries|
    ensures forall i :: 0 <= i < |r| ==> r[i].userId == entries[i].userId && r[i].count == 0
  {
    if entries == [] then [] else [UnreadEntry(entries[0].userId, 0)] + ZeroUnread(entries[1..])
  }

  function MarkRead(c: Conversation): Conversation {
    c.(unreadCounts := ZeroUnread(c.unreadCounts))
  }

  /** The conversation list after a successful `markConversationAsRead(id)`. */
  function MarkReadIn(convs: seq<Conversation>, id: string): (r: seq<Conversation>)
    ensures |r| == |convs|
    ensures forall i :: 0 <= i < |convs| && convs[i].id == id ==>
      r[i] == convs[i].(unreadCounts := r[i].unreadCounts)
      && |r[i].unreadCounts| == |convs[i].unreadCounts|
      && forall k :: 0 <= k < |r[i].unreadCounts| ==>
        r[i].unreadCounts[k] == UnreadEntry(convs[i].unreadCounts[k].userId, 0)
    ensures forall i :: 0 <= i < |convs| && convs[i].id != id ==> r[i] == convs[i]
  {
    if convs == [] then []
    else [if convs[0].id == id then MarkRead(convs[0]) else convs[0]] + MarkReadIn(convs[1..], id)
  }

  // ---------------------------------------------------------------------
  // Properties of the updates
  // ---------------------------------------------------------------------

  /** Messages ordered newest first (as a page arrives) or oldest first (as shown). */
  predicate NewestFirst(ms: seq<Message>) {
    forall i, j :: 0 <= i < j < |ms| ==> ms[i].timestamp >= ms[j].timestamp
  }

  predicate OldestFirst(ms: seq<Message>) {
    forall i, j :: 0 <= i < j < |ms| ==> ms[i].timestamp <= ms[j].timestamp
  }

  /** A page delivered newest first is shown oldest first, with the same messages. */
  lemma {:induction false} LoadedPageOldestFirst(page: seq<Message>, prior: seq<Message>)
    requires NewestFirst(page)
    ensures OldestFirst(WindowAfter(Ok(page), prior))
    ensures multiset(WindowAfter(Ok(page), prior)) == multiset(page)
  {
    var w := Lists.Reverse(page);
    forall i, j | 0 <= i < j < |w| ensures w[i].timestamp <= w[j].timestamp {
      Lists.ReverseAt(page, i);
      Lists.ReverseAt(page, j);
    }
    Lists.ReverseMultiset(page);
  }

  /** After a conversation is marked read, every unread entry of it is zero,
      with the same user ids; the list keeps its conversation ids in order. */
  lemma MarkReadZeroes(convs: seq<Conversation>, id: string, i: nat)
    requires i < |convs| && convs[i].id == id
    ensures var r := MarkReadIn(convs, id);
      (forall k :: 0 <= k < |r[i].unreadCounts| ==> r[i].unreadCounts[k].count == 0)
      && |r[i].unreadCounts| == |convs[i].unreadCounts|
  {
  }

  /** Marking the same conversation read twice changes nothing more. */
  lemma {:induction false} MarkReadIdempotent(convs: seq<Conversation>, id: string)
    ensures MarkReadIn(MarkReadIn(convs, id), id) == MarkReadIn(convs, id)
  {
    if convs != [] {
      MarkReadIdempotent(convs[1..], id);
      if convs[0].id == id {
        ZeroUnreadIdempotent(convs[0].unreadCounts);
      }
      assert MarkReadIn(convs, id)[1..] == MarkReadIn(convs[1..], id);
    }
  }

  lemma ZeroUnreadIdempotent(entries: seq<UnreadEntry>)
    ensures ZeroUnread(ZeroUnread(entries)) == ZeroUnread(entries)
  {
  }

  /** Marking read keeps the conversation ids, so the open conversation and
      every row of the list stay where they were. */
  lemma MarkReadKeepsIds(convs: seq<Conversation>, id: string, i: nat)
    requires i < |convs|
    ensures MarkReadIn(convs, id)[i].id == convs[i].id
  {
  }

  // ---------------------------------------------------------------------
  // The store
  // ---------------------------------------------------------------------

  class MessagingStore {
    var messagingActor: Option<MessagingActor>
    var conversations: seq<Conversation>
    var currentConversation: Option<Conversation>
    var messages: seq<Message>
    var unreadCount: nat
    var loading: bool
    var error: Option<string>
    var privacySettings: Option<PrivacySettings>

    /** The provider's initial state. */
    constructor ()
      ensures messagingActor == None && conversations == [] && currentConversation == None
      ensures messages == [] && unreadCount == 0 && !loading && error == None
      ensures privacySettings == None
    {
      messagingActor := None;
      conversations := [];
      currentConversation := None;
      messages := [];
      unreadCount := 0;
      loading := false;
      error := None;
      privacySettings := None;
    }

    /** The actor effect, run whenever `isLoggedIn` or `identity` changes. `declarations`
        is the dynamic import: it fails, or yields whether a default actor export exists. */
    method InitMessagingActor(isLoggedIn: bool, identity: Option<string>, declarations: Call<bool>)
      modifies this`messagingActor, this`error
      ensures !(isLoggedIn && identity.Some?) ==> messagingActor == None && error == old(error)
      ensures isLoggedIn && identity.Some? && declarations.Raised? ==>
        messagingActor == old(messagingActor) && error == Some(InitFailedText)
      ensures isLoggedIn && identity.Some? && declarations.Returned? ==>
        error == old(error)
        && messagingActor == Some(if declarations.value then DefaultExport else CreatedWith(identity.value))
    {
      if isLoggedIn && identity.Some? {
        match declarations
        case Raised(_) =>
          error := Some(InitFailedText);
        case Returned(hasDefault) =>
          messagingActor := Some(if hasDefault then DefaultExport else CreatedWith(identity.value));
      } else {
        messagingActor := None;
      }
    }

    /** `loadConversations()`. */
    method LoadConversations(reply: Reply<seq<Conversation>>)
      modifies this`conversations, this`error, this`loading
      ensures messagingActor.None? ==>
        conversations == old(conversations) && error == old(error) && loading == old(loading)
      ensures messagingActor.Some? ==>
        conversations == ListAfter(reply, old(conversations))
        && error == ErrorAfter(reply, LoadConversationsFailedText, old(error))
        && !loading
    {
      if messagingActor.None? {
        return;
      }
      loading := true;
      match reply {
        case Ok(list) => conversations := list;
        case Err(e) => error := Some(e);
        case Threw(_) => error := Some(LoadConversationsFailedText);
      }
      loading := false;
    }

    /** `loadMessages(conversationId, limit, offset)`; `getConversationMessages`
        is the backend's answer to each possible request. */
    method LoadMessages(conversationId: string, limit: nat, offset: nat,
                        getConversationMessages: (string, nat, nat) -> Reply<seq<Message>>)
      modifies this`messages, this`error, this`loading
      ensures messagingActor.None? ==>
        messages == old(messages) && error == old(error) && loading == old(loading)
      ensures messagingActor.Some? ==>
        var reply := getConversationMessages(conversationId, limit, offset);
        messages == WindowAfter(reply, old(messages))
        && error == ErrorAfter(reply, LoadMessagesFailedText, old(error))
        && !loading
    {
      if messagingActor.None? {
        return;
      }
      loading := true;
      var reply := getConversationMessages(conversationId, limit, offset);
      match reply {
        case Ok(page) => messages := Lists.Reverse(page);
        case Err(e) => error := Some(e);
        case Threw(_) => error := Some(LoadMessagesFailedText);
      }
      loading := false;
    }

    /** `sendMessage(...)`; on success the conversation list is reloaded with `reloaded`. */
    method SendMessage(conversationId: string, content: string, messageType: MessageType,
                       replyTo: Option<string>, attachments: seq<string>,
                       sendMessage: SendRequest -> Reply<Message>, reloaded: Reply<seq<Conversation>>)
      returns (sent: Option<Message>)
      modifies this`messages, this`conversations, this`error, this`loading
      ensures messagingActor.None? ==>
        sent == None
        && messages == old(messages) && conversations == old(conversations)
        && error == old(error) && loading == old(loading)
      ensures messagingActor.Some? ==>
        var reply := sendMessage(SendRequestFor(conversationId, content, messageType, replyTo, attachments));
        (sent == if reply.Ok? then Some(reply.value) else None)
        && messages == (if reply.Ok? && IsCurrent(currentConversation, conversationId)
                        then old(messages) + [reply.value] else old(messages))
        && (reply.Ok? ==>
              conversations == ListAfter(reloaded, old(conversations))
              && error == ErrorAfter(reloaded, LoadConversationsFailedText, old(error))
              && !loading)
        && (!reply.Ok? ==>
              conversations == old(conversations)
              && error == ErrorAfter(reply, SendFailedText, old(error))
              && loading == old(loading))
    {
      if messagingActor.None? {
        return None;
      }
      var reply := sendMessage(SendRequestFor(conversationId, content, messageType, replyTo, attachments));
      match reply
      case Ok(m) =>
        if IsCurrent(currentConversation, conversationId) {
          messages := messages + [m];
        }
        LoadConversations(reloaded);
        sent := Some(m);
      case Err(e) =>
        error := Some(e);
        sent := None;
      case Threw(_) =>
        error := Some(SendFailedText);
        sent := None;
    }

    /** `createConversation(...)`; on success the conversation list is reloaded with `reloaded`. */
    method CreateConversation(participants: seq<string>, participantNames: seq<string>,
                              title: Option<string>, isGroup: bool, initialMessage: Option<string>,
                              createConversation: CreateRequest -> Reply<Conversation>,
                              reloaded: Reply<seq<Conversation>>)
      returns (created: Option<Conversation>)
      modifies this`conversations, this`error, this`loading
      ensures messagingActor.None? ==>
        created == None
        && conversations == old(conversations) && error == old(error) && loading == old(loading)
      ensures messagingActor.Some? ==>
        var reply := createConversation(
          CreateRequestFor(participants, participantNames, title, isGroup, initialMessage));
        (created == if reply.Ok? then Some(reply.value) else None)
        && (reply.Ok? ==>
              conversations == ListAfter(reloaded, old(conversations))
              && error == ErrorAfter(reloaded, LoadConversationsFailedText, old(error))
              && !loading)
        && (!reply.Ok? ==>
              conversations == old(conversations)
              && error == ErrorAfter(reply, CreateFailedText, old(error))
              && loading == old(loading))
    {
      if messagingActor.None? {
        return None;
      }
      var reply := createConversation(
        CreateRequestFor(participants, participantNames, title, isGroup, initialMessage));
      match reply
      case Ok(c) =>
        LoadConversations(reloaded);
        created := Some(c);
      case Err(e) =>
        error := Some(e);
        created := None;
      case Threw(_) =>
        error := Some(CreateFailedText);
        created := None;
    }

    /** `markConversationAsRead(id)`: failures are only logged; on success the
        unread counter is reloaded with `unreadReply`. */
    method MarkConversationAsRead(conversationId: string, markRead: string -> Reply<()>,
                                  unreadReply: Reply<nat>)
      modifies this`conversations, this`unreadCount
      ensures messagingActor.None? ==>
        conversations == old(conversations) && unreadCount == old(unreadCount)
      ensures messagingActor.Some? ==>
        var reply := markRead(conversationId);
        conversations == (if reply.Ok? then MarkReadIn(old(conversations), conversationId)
                          else old(conversations))
        && unreadCount == (if reply.Ok? then CountAfter(unreadReply, old(unreadCount))
                           else old(unreadCount))
    {
      if messagingActor.None? {
        return;
      }
      var reply := markRead(conversationId);
      if reply.Ok? {
        conversations := MarkReadIn(conversations, conversationId);
        LoadUnreadCount(unreadReply);
      }
    }

    /** `loadUnreadCount()`: failures are only logged. */
    method LoadUnreadCount(reply: Reply<nat>)
      modifies this`unreadCount
      ensures unreadCount == if messagingActor.Some? then CountAfter(reply, old(unreadCount))
                             else old(unreadCount)
    {
      if messagingActor.Some? && reply.Ok? {
        unreadCount := reply.value;
      }
    }

    /** `loadPrivacySettings()`: failures are only logged. */
    method LoadPrivacySettings(reply: Reply<PrivacySettings>)
      modifies this`privacySettings
      ensures privacySettings == if messagingActor.Some? && reply.Ok? then Some(reply.value)
                                 else old(privacySettings)
    {
      if messagingActor.Some? && reply.Ok? {
        privacySettings := Some(reply.value);
      }
    }

    /** `updatePrivacySettings(settings)`: caches exactly the submitted settings on success. */
    method UpdatePrivacySettings(settings: PrivacySettings, setPrivacySettings: PrivacySettings -> Reply<()>)
      returns (ok: bool)
      modifies this`privacySettings, this`error
      ensures messagingActor.None? ==>
        !ok && privacySettings == old(privacySettings) && error == old(error)
      ensures messagingActor.Some? ==>
        var reply := setPrivacySettings(settings);
        (ok <==> reply.Ok?)
        && privacySettings == (if reply.Ok? then Some(settings) else old(privacySettings))
        && error == ErrorAfter(reply, UpdatePrivacyFailedText, old(error))
    {
      if messagingActor.None? {
        return false;
      }
      var reply := setPrivacySettings(settings);
      match reply
      case Ok(_) =>
        privacySettings := Some(settings);
        ok := true;
      case Err(e) =>
        error := Some(e);
        ok := false;
      case Threw(_) =>
        error := Some(UpdatePrivacyFailedText);
        ok := false;
    }

    /** `editMessage(messageId, newContent)`: the returned message replaces
        every message in the window carrying that id. */
    method EditMessage(messageId: string, newContent: string, editMessage: (string, string) -> Reply<Message>)
      returns (edited: Option<Message>)
      modifies this`messages, this`error
      ensures messagingActor.None? ==> edited == None && messages == old(messages) && error == old(error)
      ensures messagingActor.Some? ==>
        var reply := editMessage(messageId, newContent);
        (edited == if reply.Ok? then Some(reply.value) else None)
        && messages == (if reply.Ok? then Lists.ReplaceById(old(messages), MessageId, messageId, reply.value)
                        else old(messages))
        && error == ErrorAfter(reply, EditFailedText, old(error))
    {
      if messagingActor.None? {
        return None;
      }
      var reply := editMessage(messageId, newContent);
      match reply
      case Ok(m) =>
        messages := Lists.ReplaceById(messages, MessageId, messageId, m);
        edited := Some(m);
      case Err(e) =>
        error := Some(e);
        edited := None;
      case Threw(_) =>
        error := Some(EditFailedText);
        edited := None;
    }

    /** `deleteMessage(messageId)`: on success the open conversation's first page is reloaded. */
    method DeleteMessage(messageId: string, deleteMessage: string -> Reply<()>,
                         getConversationMessages: (string, nat, nat) -> Reply<seq<Message>>)
      returns (ok: bool)
      modifies this`messages, this`error, this`loading
      ensures messagingActor.None? ==>
        !ok && messages == old(messages) && error == old(error) && loading == old(loading)
      ensures messagingActor.Some? ==>
        var reply := deleteMessage(messageId);
        (ok <==> reply.Ok?)
        && (reply.Ok? && currentConversation.Some? ==>
              var page := getConversationMessages(currentConversation.value.id, DefaultPageLimit, 0);
              messages == WindowAfter(page, old(messages))
              && error == ErrorAfter(page, LoadMessagesFailedText, old(error))
              && !loading)
        && (reply.Ok? && currentConversation.None? ==>
              messages == old(messages) && error == old(error) && loading == old(loading))
        && (!reply.Ok? ==>
              messages == old(messages) && error == ErrorAfter(reply, DeleteFailedText, old(error))
              && loading == old(loading))
    {
      if messagingActor.None? {
        return false;
      }
      var reply := deleteMessage(messageId);
      match reply
      case Ok(_) =>
        if currentConversation.Some? {
          LoadMessages(currentConversation.value.id, DefaultPageLimit, 0, getConversationMessages);
        }
        ok := true;
      case Err(e) =>
        error := Some(e);
        ok := false;
      case Threw(_) =>
        error := Some(DeleteFailedText);
        ok := false;
    }

    /** `selectConversation(conversation)`: open it, load its first page and mark it read;
        deselecting clears the window. */
    method SelectConversation(conversation: Option<Conversation>,
                              getConversationMessages: (string, nat, nat) -> Reply<seq<Message>>,
                              markRead: string -> Reply<()>, unreadReply: Reply<nat>)
      modifies this`currentConversation, this`messages, this`error, this`loading
      modifies this`conversations, this`unreadCount
      ensures currentConversation == conversation
      ensures conversation.None? ==>
        messages == [] && error == old(error) && loading == old(loading)
        && conversations == old(conversations) && unreadCount == old(unreadCount)
      ensures conversation.Some? && messagingActor.None? ==>
        messages == old(messages)
        && error == old(error) && loading == old(loading)
        && conversations == old(conversations) && unreadCount == old(unreadCount)
      ensures conversation.Some? && messagingActor.Some? ==>
        var id := conversation.value.id;
        var page := getConversationMessages(id, DefaultPageLimit, 0);
        messages == WindowAfter(page, old(messages))
        && error == ErrorAfter(page, LoadMessagesFailedText, old(error))
        && !loading
        && conversations == (if markRead(id).Ok? then MarkReadIn(old(conversations), id)
                             else old(conversations))
        && unreadCount == (if markRead(id).Ok? then CountAfter(unreadReply, old(unreadCount))
                           else old(unreadCount))
    {
      currentConversation := conversation;
      if conversation.Some? {
        LoadMessages(conversation.value.id, DefaultPageLimit, 0, getConversationMessages);
        MarkConversationAsRead(conversation.value.id, markRead, unreadReply);
      } else {
        messages := [];
      }
    }

    /** The refresh effect once an actor is present: conversations, unread
        counter and privacy settings are loaded. */
    method OnActorReady(conversationsReply: Reply<seq<Conversation>>, unreadReply: Reply<nat>,
                        privacyReply: Reply<PrivacySettings>)
      modifies this`conversations, this`error, this`loading, this`unreadCount, this`privacySettings
      ensures messagingActor.None? ==>
        conversations == old(conversations) && error == old(error)
        && loading == old(loading) && unreadCount == old(unreadCount)
        && privacySettings == old(privacySettings)
      ensures messagingActor.Some? ==>
        conversations == ListAfter(conversationsReply, old(conversations))
        && error == ErrorAfter(conversationsReply, LoadConversationsFailedText, old(error))
        && !loading
        && unreadCount == CountAfter(unreadReply, old(unreadCount))
        && privacySettings == (if privacyReply.Ok? then Some(privacyReply.value) else old(privacySettings))
    {
      if messagingActor.Some? {
        LoadConversations(conversationsReply);
        LoadUnreadCount(unreadReply);
        LoadPrivacySettings(privacyReply);
      }
    }

    /** One tick of the periodic refresh: conversations and unread counter. */
    method PollTick(conversationsReply: Reply<seq<Conversation>>, unreadReply: Reply<nat>)
      modifies this`conversations, this`error, this`loading, this`unreadCount
      ensures messagingActor.None? ==>
        conversations == old(conversations) && error == old(error)
        && loading == old(loading) && unreadCount == old(unreadCount)
      ensures messagingActor.Some? ==>
        conversations == ListAfter(conversationsReply, old(conversations))
        && error == ErrorAfter(conversationsReply, LoadConversationsFailedText, old(error))
        && !loading
        && unreadCount == CountAfter(unreadReply, old(unreadCount))
    {
      if messagingActor.Some? {
        LoadConversations(conversationsReply);
        LoadUnreadCount(unreadReply);
      }
    }

    /** The error timer firing: a truthy error is cleared. */
    method ErrorTimeout()
      modifies this`error
      ensures error == if Truthy(old(error)) then None else old(error)
    {
      if Truthy(error) {
        error := None;
      }
    }

    /** The exported `setError`. */
    method SetError(e: Option<string>)
      modifies this`error
      ensures error == e
    {
      error := e;
    }

    /** The exported `setCurrentConversation`. */
    method SetCurrentConversation(c: Option<Conversation>)
      modifies this`currentConversation
      ensures currentConversation == c
    {
      currentConversation := c;
    }
  }
}
