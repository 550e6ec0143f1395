/** How the stores and views meet: the authentication provider's exported
    value feeds the messaging store and the conversation and message views,
    and a read receipt shows up in the sidebar's badge. */
module App {
  import opened Wrappers
  import opened BackendTypes
  import AuthContext
  import MessagingContext
  import ConversationList
  import MessageList
  import Lists

  // ---------------------------------------------------------------------
  // How the messaging store reaches the authentication provider
  // ---------------------------------------------------------------------

  /** The names `AuthContext.jsx` exports; the context object itself is a
      module-local `const`. */
  const AuthContextExports: set<string> := {"AuthProvider", "useAuth"}

  /** An ES module's named import links exactly when the imported module exports
      that name; otherwise the importing module fails to load (a link-time
      `SyntaxError` in the browser, a missing-export error in the bundler). */
  function LinkNamedImport(exports: set<string>, name: string): (r: Call<string>)
    ensures r.Returned? <==> name in exports
    ensures r.Returned? ==> r.value == name
  {
    if name in exports then Returned(name) else Raised("does not provide an export named " + name)
  }

  /** As written: `MessagingContext.jsx` imports `{ AuthContext }`, which the
      provider's module does not export, so the messaging module never loads. */
  function MessagingImportAsWritten(): (r: Call<string>)
    ensures r.Raised?
  {
    LinkNamedImport(AuthContextExports, "AuthContext")
  }

  /** Corrected: import the exported `useAuth` hook, which reads the same
      context and so yields the provider's value, `AuthStore.Exported()`. */
  function MessagingImport(): (r: Call<string>)
    ensures r == Returned("useAuth")
  {
    LinkNamedImport(AuthContextExports, "useAuth")
  }

  // ---------------------------------------------------------------------
  // Creating the messaging actor from the exported value
  // ---------------------------------------------------------------------

  /** The messaging store's actor effect reading `isLoggedIn` and `identity`
      from the provider as it is written: no actor is ever created, so every
      messaging action stays a no-op. */
  method ConnectAsWritten(auth: AuthContext.AuthStore, store: MessagingContext.MessagingStore,
                          declarations: Call<bool>)
    modifies store`messagingActor, store`error
    ensures store.messagingActor == None
    ensures store.error == old(store.error)
  {
    var exported := auth.Exported();
    store.InitMessagingActor(exported.isLoggedIn, exported.identity, declarations);
  }

  /** The same effect reading the export that carries the signed-in principal:
      a signed-in user gets an actor as soon as the declarations load. */
  method Connect(auth: AuthContext.AuthStore, store: MessagingContext.MessagingStore, declarations: Call<bool>)
    modifies store`messagingActor, store`error
    ensures !(auth.isLoggedIn && auth.userPrincipal.Some?) ==> store.messagingActor == None
    ensures auth.isLoggedIn && auth.userPrincipal.Some? && declarations.Returned? ==>
      store.messagingActor == Some(if declarations.value then MessagingContext.DefaultExport
                                   else MessagingContext.CreatedWith(auth.userPrincipal.value))
    ensures auth.isLoggedIn && auth.userPrincipal.Some? && declarations.Raised? ==>
      store.messagingActor == old(store.messagingActor) && store.error == Some(MessagingContext.InitFailedText)
  {
    var exported := auth.IntendedExport();
    store.InitMessagingActor(exported.isLoggedIn, exported.identity, declarations);
  }

  // ---------------------------------------------------------------------
  // What the views show with each export
  // ---------------------------------------------------------------------

  /** With the export as written the views see no identity: no conversation
      shows an unread count, no message is one's own, and a direct chat is
      titled with its first-listed participant's name, which is the user's own
      name whenever the user is listed first. */
  lemma ExportHidesUser(auth: AuthContext.AuthStore, c: Conversation, m: Message)
    ensures ConversationList.UnreadCount(c, auth.Exported().identity) == 0
    ensures !MessageList.IsCurrentUser(m, auth.Exported().identity)
    ensures !c.isGroup && |c.participants| > 0 && |c.participantNames| > 0 ==>
      ConversationList.DisplayName(c, auth.Exported().identity) == c.participantNames[0]
  {
  }

  /** With the intended export a signed-in user's own messages are theirs, the
      unread count is their own entry's, and a direct chat with someone else in
      it is titled with the name of a participant who is not the user. */
  lemma IntendedExportShowsUser(auth: AuthContext.AuthStore, c: Conversation, m: Message, p: string)
    requires auth.userPrincipal == Some(p)
    ensures MessageList.IsCurrentUser(m, auth.IntendedExport().identity) <==> m.sender == p
    ensures forall k :: 0 <= k < |c.unreadCounts| && c.unreadCounts[k].userId == p
                        && (forall j :: 0 <= j < k ==> c.unreadCounts[j].userId != p) ==>
      ConversationList.UnreadCount(c, auth.IntendedExport().identity) == c.unreadCounts[k].count
    ensures !c.isGroup && |c.participants| <= |c.participantNames|
            && (exists j :: 0 <= j < |c.participants| && c.participants[j] != p) ==>
      exists k :: 0 <= k < |c.participants| && c.participants[k] != p
                  && ConversationList.DisplayName(c, auth.IntendedExport().identity) == c.participantNames[k]
  {
  }

  // ---------------------------------------------------------------------
  // Read receipts and the sidebar
  // ---------------------------------------------------------------------

  /** Once a conversation is marked read, its row shows no unread count and no
      badge, whoever is signed in. */
  lemma MarkedReadShowsNoBadge(convs: seq<Conversation>, id: string, i: nat, principal: Option<string>)
    requires i < |convs| && convs[i].id == id
    ensures ConversationList.UnreadCount(MessagingContext.MarkReadIn(convs, id)[i], principal) == 0
    ensures ConversationList.UnreadBadge(
              ConversationList.UnreadCount(MessagingContext.MarkReadIn(convs, id)[i], principal)).None?
  {
    var c := MessagingContext.MarkReadIn(convs, id)[i];
    if principal.Some? {
      var k := Lists.FindIndex(c.unreadCounts, ConversationList.IsUser(principal.value));
      if k != -1 {
        assert c.unreadCounts[k].count == 0;
      }
    }
  }

  /** Marking one conversation read leaves every other row's count as it was. */
  lemma MarkReadKeepsOtherCounts(convs: seq<Conversation>, id: string, i: nat, principal: Option<string>)
    requires i < |convs| && convs[i].id != id
    ensures ConversationList.UnreadCount(MessagingContext.MarkReadIn(convs, id)[i], principal)
         == ConversationList.UnreadCount(convs[i], principal)
  {
  }
}
