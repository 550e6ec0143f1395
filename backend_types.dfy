/** The records the front end receives from its backend actors and caches.
    The backend's own declarations are not part of this model; identifiers and
    principals are kept as text, optional texts as `''` when absent. */
module BackendTypes {
  import opened Wrappers

  /** A backend actor, identified by the principal of the identity its agent
      signs with and the host the agent talks to. */
  datatype BackendActor = BackendActor(principal: string, host: string)

  datatype Profile = Profile(name: string, bio: string, id: string)

  datatype Comment = Comment(id: string, authorName: string, content: string, timestamp: int)

  datatype Post = Post(id: string, authorName: string, content: string, timestamp: int,
                       likes: nat, comments: seq<Comment>)

  function PostId(p: Post): string { p.id }

  /** One `[userId, count]` pair of a conversation's `unreadCounts`. */
  datatype UnreadEntry = UnreadEntry(userId: string, count: nat)

  datatype Conversation = Conversation(
    id: string,
    participants: seq<string>,
    participantNames: seq<string>,
    isGroup: bool,
    title: string,
    lastMessage: string,
    lastMessageAt: int,
    unreadCounts: seq<UnreadEntry>)

  /** The message-type variant; the front end only distinguishes text and system messages. */
  datatype MessageType = Text | System | Other(tag: string)

  datatype Message = Message(
    id: string,
    conversationId: string,
    sender: string,
    senderName: string,
    content: string,
    messageType: MessageType,
    timestamp: int,
    isEdited: bool,
    replyTo: Option<string>,
    attachments: seq<string>)

  function MessageId(m: Message): string { m.id }

  /** `allowMessagesFrom` is the option's tag as the settings form holds it, e.g. 'followersOnly'. */
  datatype PrivacySettings = PrivacySettings(
    allowMessagesFrom: string,
    allowGroupInvites: bool,
    showOnlineStatus: bool,
    showReadReceipts: bool)
}
