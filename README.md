# chained-social front end: a Dafny model of its stores and views

The chained-social web client is a React application in front of a set of
Internet Computer canisters. This project models its client-side core:

- the **authentication store** (`AuthProvider`): the backend actor, the
  signed-in principal, the cached profile, the profile form and the
  username-availability check;
- the **login hook** (`useLogin`):
  - environment detection from the hostname;
  - the seeded development identity kept in `localStorage`;
  - NFID initialization and delegation with three attempts each;
  - the mapping from a failure to the text shown to the user;
- the **messaging store** (`MessagingProvider`):
  - the conversation list, the message window of the open conversation and
    the unread counter;
  - the privacy settings and the last error;
  - each of these updated from one backend reply;
- the views that read and drive these stores:
  - the conversation sidebar;
  - the new-conversation dialog;
  - the message pane with in-place editing;
  - the message composer;
  - the post feed;
  - the profile page;
  - the messaging privacy dialog.

## How the model is built

Stateful components and providers become classes whose fields are the
component's state. Each handler is one method:

- its `modifies` clause names exactly the state fields it sets;
- its `ensures` clauses give the whole new state as a function of the old
  state and of the backend's answer.

Row helpers and request builders become functions, and their properties are
proved as lemmas.

Backend answers are inputs of the model:

- A result-wrapped call (`{ok}` / `{err}` / a thrown error) is a
  `Wrappers.Reply`.
- A call that returns a bare value or throws is a `Wrappers.Call`.
- Where the request's arguments matter, the answer is a function parameter
  from request to reply. The contract then says which request was sent.

Modules:

| module | models |
|---|---|
| `Wrappers`, `BackendTypes` | reply shapes, truthiness, the Candid `[] \| [x]` optional; the records the client caches |
| `Js` | the JavaScript string operations the client relies on (`trim`, `includes`, `split`, `join`, case mapping, integer printing, the nanosecond-to-millisecond `Date` conversion) |
| `Lists` | `reverse`, `findIndex`, `filter`, and the map that replaces the element with a given id |
| `Browser` | `localStorage` |
| `MessagingContext` | the messaging store |
| `AuthContext` | the authentication store |
| `UseLogin` | the login hook |
| `ConversationList`, `NewConversationModal`, `MessageList`, `MessageInput`, `PostList`, `Profile`, `MessagingPrivacySettings` | the components of the same names |
| `App` | how the authentication store's exported value reaches the messaging store and the views |

## Model

All source paths are relative to the repository root.

| member | source | states |
|---|---|---|
| Wrappers.CandidOpt | frontend/src/contexts/MessagingContext.jsx:111 | an optional argument is encoded as a one-element list exactly when it is truthy, holding the argument itself |
| Wrappers.CandidOptRoundTrip | frontend/src/contexts/MessagingContext.jsx:147-149 | reading back the Candid encoding of a truthy argument yields the argument |
| Browser.LocalStorage.GetItem | frontend/src/hooks/useLogin.js:90 | `getItem` yields a value exactly when the key is stored, and that value is the stored one |
| Browser.LocalStorage.SetItem | frontend/src/hooks/useLogin.js:93 | the key maps to the new value and every other key is unchanged |
| Browser.LocalStorage.RemoveItem | frontend/src/contexts/AuthContext.jsx:63 | the key is gone and every other key is unchanged |
| Js.Trim | frontend/src/components/MessageInput.jsx:18 | the result is the input's characters after its leading whitespace, and everything after the result is whitespace; it is empty exactly when the input is blank, and otherwise starts and ends with a non-whitespace character |
| Js.TrimIdempotent | frontend/src/components/MessageInput.jsx:18 | trimming twice is trimming once |
| Js.IncludesIffOccurs | frontend/src/hooks/useLogin.js:71-75 | `includes` holds exactly when the needle occurs at some index |
| Js.IncludesTransitive | frontend/src/hooks/useLogin.js:73 | a string containing `u` contains everything `u` contains |
| Js.JoinIncludesEach | frontend/src/components/MessageInput.jsx:36 | a joined string contains every part |
| Js.JoinSplit | frontend/src/components/ConversationList.jsx:52-59 | joining the parts of a split with the separator rebuilds the string |
| Js.ParseNatToString | frontend/src/components/ConversationList.jsx:16-18 | the decimal text of a count reads back as that count |
| Js.NatToStringInjective | frontend/src/components/ConversationList.jsx:125-128 | different counts print differently |
| Js.NsToMs | frontend/src/components/ConversationList.jsx:8 | `new Date(ns / 1e6)`: the millisecond instant is the exact quotient truncated toward zero, so it lies less than one millisecond from the quotient, on the side of zero |
| Lists.ReverseAt | frontend/src/contexts/MessagingContext.jsx:89 | element `i` of a reversed list is element `n-1-i` of the original |
| Lists.ReverseMultiset | frontend/src/contexts/MessagingContext.jsx:89 | reversing keeps the same elements |
| Lists.FindIndex | frontend/src/components/ConversationList.jsx:31-32 | the first index whose element satisfies the test, or -1 when none does |
| Lists.ReplaceById | frontend/src/contexts/MessagingContext.jsx:258-260 | same length; elements with the id become the new value, all others are unchanged |
| Lists.FilterIsSubsequence | frontend/src/components/NewConversationModal.jsx:47-50 | a filtered list keeps the original order |
| Lists.FilterMember | frontend/src/components/Profile.jsx:56 | an element is kept exactly when it is in the list and passes the test |
| MessagingContext.SendRequestFor | frontend/src/contexts/MessagingContext.jsx:107-113 | every argument is passed through; a truthy `replyTo` survives the encoding and a falsy one is sent as absent |
| MessagingContext.CreateRequestFor | frontend/src/contexts/MessagingContext.jsx:144-150 | participants, names and the group flag are passed through; title and first message are present exactly when truthy |
| MessagingContext.ZeroUnread | frontend/src/contexts/MessagingContext.jsx:180 | the same user ids in the same order, each with a zero count |
| MessagingContext.MarkReadIn | frontend/src/contexts/MessagingContext.jsx:176-182 | the conversation with the id has every unread entry zeroed and nothing else changed; every other conversation is unchanged |
| MessagingContext.LoadedPageOldestFirst | frontend/src/contexts/MessagingContext.jsx:88-90 | a page delivered newest first is shown oldest first, holding the same messages |
| MessagingContext.MarkReadZeroes | frontend/src/contexts/MessagingContext.jsx:176-182 | after marking read, every entry of that conversation counts zero and the number of entries is kept |
| MessagingContext.MarkReadIdempotent | frontend/src/contexts/MessagingContext.jsx:170-192 | marking the same conversation read twice changes nothing more |
| MessagingContext.MarkReadKeepsIds | frontend/src/contexts/MessagingContext.jsx:176-182 | every conversation keeps its id and its place in the list |
| MessagingContext.MessagingStore.constructor | frontend/src/contexts/MessagingContext.jsx:16-23 | the provider's initial state: no actor, empty lists, zero unread, not loading, no error, no settings |
| MessagingContext.MessagingStore.InitMessagingActor | frontend/src/contexts/MessagingContext.jsx:26-56 | an actor exists only while logged in with an identity: the default export, or one created with the identity; a failed import sets the init error and keeps the actor |
| MessagingContext.MessagingStore.LoadConversations | frontend/src/contexts/MessagingContext.jsx:59-78 | without an actor nothing changes; otherwise an `ok` list replaces the cache, an `err` or a throw sets the error, and loading ends false |
| MessagingContext.MessagingStore.LoadMessages | frontend/src/contexts/MessagingContext.jsx:81-100 | the window becomes the requested page reversed to oldest first; errors as for conversations; loading ends false |
| MessagingContext.MessagingStore.SendMessage | frontend/src/contexts/MessagingContext.jsx:103-137 | the request built from the arguments is sent; the sent message is appended only when its conversation is open, and the list is reloaded; a failure leaves list and window and sets the error |
| MessagingContext.MessagingStore.CreateConversation | frontend/src/contexts/MessagingContext.jsx:140-167 | the request built from the arguments is sent; on success the created conversation is returned and the list is reloaded; a failure sets the error |
| MessagingContext.MessagingStore.MarkConversationAsRead | frontend/src/contexts/MessagingContext.jsx:170-192 | on success that conversation's counts are zeroed and the unread counter is reloaded; a failure changes nothing (it is only logged) |
| MessagingContext.MessagingStore.LoadUnreadCount | frontend/src/contexts/MessagingContext.jsx:195-209 | the counter takes an `ok` answer; anything else keeps it |
| MessagingContext.MessagingStore.LoadPrivacySettings | frontend/src/contexts/MessagingContext.jsx:212-226 | the settings take an `ok` answer; anything else keeps them |
| MessagingContext.MessagingStore.UpdatePrivacySettings | frontend/src/contexts/MessagingContext.jsx:229-248 | reports success exactly when the backend accepts; then exactly the submitted settings are cached; a failure sets the error and keeps the old settings |
| MessagingContext.MessagingStore.EditMessage | frontend/src/contexts/MessagingContext.jsx:251-273 | the returned message replaces every message in the window with that id; a failure sets the error |
| MessagingContext.MessagingStore.DeleteMessage | frontend/src/contexts/MessagingContext.jsx:276-298 | on success the open conversation's first 50 messages are reloaded; a failure sets the error and keeps the window |
| MessagingContext.MessagingStore.SelectConversation | frontend/src/contexts/MessagingContext.jsx:301-309 | the conversation becomes current; selecting loads its first page and marks it read; deselecting empties the window |
| MessagingContext.MessagingStore.OnActorReady | frontend/src/contexts/MessagingContext.jsx:312-318 | with an actor, conversations, unread counter and privacy settings are each loaded |
| MessagingContext.MessagingStore.PollTick | frontend/src/contexts/MessagingContext.jsx:319-326 | one periodic refresh: conversations and unread counter are reloaded |
| MessagingContext.MessagingStore.ErrorTimeout | frontend/src/contexts/MessagingContext.jsx:329-336 | a truthy error is cleared; any other value stays |
| MessagingContext.MessagingStore.SetError | frontend/src/contexts/MessagingContext.jsx:338-361 | the exported setter stores its argument |
| MessagingContext.MessagingStore.SetCurrentConversation | frontend/src/contexts/MessagingContext.jsx:338-361 | the exported setter stores its argument |
| AuthContext.LoginToast | frontend/src/contexts/AuthContext.jsx:24-50 | a four-second success toast: welcome-back with the profile name when the lookup answered `ok`, otherwise the set-up-your-profile notice with the principal |
| AuthContext.AvailabilityFor | frontend/src/contexts/AuthContext.jsx:89-111 | unchecked without an actor or for a blank name; `current` exactly for the cached profile's own name; otherwise the backend's answer, or unchecked when the call throws |
| AuthContext.AuthStore.constructor | frontend/src/contexts/AuthContext.jsx:7-14 | the provider's initial state: no actor, logged out, no profile, empty form |
| AuthContext.AuthStore.HandleBackendActorSet | frontend/src/contexts/AuthContext.jsx:16-51 | actor and principal are stored and the user is logged in; the profile is cached only when the lookup answered `ok`; the toast is `LoginToast` |
| AuthContext.AuthStore.HandleLogout | frontend/src/contexts/AuthContext.jsx:53-71 | every piece of user state is reset and the stored session key is removed; a three-second toast |
| AuthContext.AuthStore.ShowLoginError | frontend/src/contexts/AuthContext.jsx:77-86 | a truthy login error becomes a five-second failure toast and is cleared; no toast otherwise |
| AuthContext.AuthStore.CheckUsernameAvailability | frontend/src/contexts/AuthContext.jsx:89-111 | the availability is `AvailabilityFor`; the checking flag ends false whenever the backend was asked |
| AuthContext.AuthStore.SetProfileForm | frontend/src/contexts/AuthContext.jsx:152-172 | the exported setter stores its argument |
| AuthContext.AuthStore.HandleSetProfile | frontend/src/contexts/AuthContext.jsx:113-150 | nothing happens without an actor or with a blank username; otherwise the form's username and bio are sent, an `ok` caches the profile and clears the form, and each outcome has its toast |
| AuthContext.AuthStore.Exported | frontend/src/contexts/AuthContext.jsx:152-172 | the exported value carries the login flag and no identity |
| AuthContext.AuthStore.IntendedExport | frontend/src/contexts/MessagingContext.jsx:15 | the value the messaging store expects: the login flag and the signed-in principal as identity |
| UseLogin.AppGithubDevRedundant | frontend/src/hooks/useLogin.js:73 | a hostname containing `app.github.dev` contains `github.dev`, so the second Codespaces test adds nothing |
| UseLogin.Classify | frontend/src/hooks/useLogin.js:71-75 | local exactly when the hostname names localhost or 127.0.0.1; Codespaces exactly when it is not local and names github.dev; production otherwise |
| UseLogin.ChooseSessionKey | frontend/src/hooks/useLogin.js:90-92 | a truthy stored key is reused, otherwise the fresh one |
| UseLogin.SessionKeyStable | frontend/src/hooks/useLogin.js:90-93 | after a login has stored its key, the next login reuses it whatever fresh key it generates |
| UseLogin.SeedOf | frontend/src/hooks/useLogin.js:96-99 | 32 bytes: the key's character codes modulo 256, then zeros |
| UseLogin.DeriveSeed | frontend/src/hooks/useLogin.js:96-99 | the seed-filling loop yields `SeedOf` of the key |
| UseLogin.SeedInjective | frontend/src/hooks/useLogin.js:90-103 | distinct base-36 keys of at most 32 characters give distinct seeds (the identity built from a seed is a parameter, so nothing is claimed about it) |
| UseLogin.Retry | frontend/src/hooks/useLogin.js:40-60 | success at the first attempt that returns, every earlier attempt having thrown; or exhaustion with every attempt thrown and the last one's error |
| UseLogin.InitWithRetry | frontend/src/hooks/useLogin.js:16-61 | the loop yields the first instance among three attempts, or the wrapped "failed after 3 attempts" error of the third throw |
| UseLogin.Requested | frontend/src/hooks/useLogin.js:150-152 | every delegation attempt asks for a lifetime of 8 hours, 28,800,000,000,000 ns |
| UseLogin.DelegationResult | frontend/src/hooks/useLogin.js:143-166 | a principal returned by one of the three 8-hour delegation requests, or, exactly when all three throw, the third one's error |
| UseLogin.DelegateWithRetry | frontend/src/hooks/useLogin.js:143-166 | the loop yields `DelegationResult`: the first principal among three attempts, each asking for an 8-hour lifetime, or the third error rethrown after every attempt failed |
| UseLogin.UserMessage | frontend/src/hooks/useLogin.js:185-200 | the text shown is one of the six curated texts or `Login failed: ` and the raw message; a certificate-verification failure always gets the dev-setup text |
| UseLogin.FirstMatch | frontend/src/hooks/useLogin.js:185-200 | the index of the first message rule whose pattern the error contains, or -1 when none matches |
| UseLogin.UserMessageIsTable | frontend/src/hooks/useLogin.js:185-200 | the if/else chain equals the rule table read top to bottom, with the raw message as fallback |
| UseLogin.MessageCases | frontend/src/hooks/useLogin.js:185-200 | an error containing some pattern gets a curated text; one containing none gets `Login failed: ` and the raw message |
| UseLogin.InitExhaustedIsCurated | frontend/src/hooks/useLogin.js:54 | an exhausted NFID initialization always shows one of the six curated texts, never the raw `Login failed:` fallback, because its message contains `NFID initialization failed` |
| UseLogin.InitExhaustedShowsInitializing | frontend/src/hooks/useLogin.js:185-200 | the error thrown at line 54 shows the "NFID is initializing" text exactly when its last error contains none of the six patterns of the five rules tested before it; the wrapping prefix neither contains one of them nor completes one across its end |
| UseLogin.SeededLogin | frontend/src/hooks/useLogin.js:96-133 | succeeds exactly when both the root-key fetch and the status probe answer, with the identity of the key's seed on the local replica; the root-key failure is reported before the status failure, each with its own text |
| UseLogin.DelegatedLogin | frontend/src/hooks/useLogin.js:140-173 | an NFID failure is rethrown; a success talks to mainnet with a principal one of the 8-hour delegation requests returned; a failure after an instance means all three requests threw |
| UseLogin.LoginResult | frontend/src/hooks/useLogin.js:85-179 | a successful login talks to the local replica exactly in the seeded environments, with the identity of the session key's seed, and to mainnet otherwise, with a delegated principal |
| UseLogin.LoginHook.constructor | frontend/src/hooks/useLogin.js:10-13 | `useLogin`'s initial state: not logging in, no error, no NFID instance |
| UseLogin.LoginHook.InitializeNfid | frontend/src/hooks/useLogin.js:16-61 | a cached instance is returned without a call; otherwise the retry loop runs and its instance, if any, is cached |
| UseLogin.LoginHook.HandleLogin | frontend/src/hooks/useLogin.js:63-206 | the session is the actor of the environment's login path; a failure's error is mapped by `UserMessage`; the seeded path stores its session key and keeps the NFID cache; the NFID path leaves storage alone and caches a freshly initialized instance, keeping the cache when it was already set or initialization failed; `isLoggingIn` ends false |
| UseLogin.LoginHook.SetLoginError | frontend/src/hooks/useLogin.js:202 | the exported setter stores its argument |
| ConversationList.FormatTimestamp | frontend/src/components/ConversationList.jsx:7-21 | each label is given exactly by its age bracket (under a minute, an hour, a day, a week, or older); the count is the whole number of units in the age |
| ConversationList.LabelText | frontend/src/components/ConversationList.jsx:15-20 | `Just now`; a minute, hour or day label is its count followed by `m`, `h` or `d`, and reads back as that count; the locale's date otherwise |
| ConversationList.CountWithUnit | frontend/src/components/ConversationList.jsx:16-18 | a count followed by a unit letter ends in that letter and reads back as the count |
| ConversationList.FormatTimestampMonotone | frontend/src/components/ConversationList.jsx:7-21 | an older message never gets a finer label than a newer one seen at the same time |
| ConversationList.DisplayName | frontend/src/components/ConversationList.jsx:23-39 | a group shows its title or `Group Chat`; a direct chat shows the name of the first participant who is not the signed-in user, or `Unknown User` |
| ConversationList.DisplayNameIsFirstOther | frontend/src/components/ConversationList.jsx:30-36 | in a direct chat the name of the first other participant is shown |
| ConversationList.DisplayNameAlone | frontend/src/components/ConversationList.jsx:30-38 | a direct chat with no other participant shows `Unknown User` |
| ConversationList.UnreadCount | frontend/src/components/ConversationList.jsx:41-50 | the signed-in user's first entry's count; zero when signed out or without an entry |
| ConversationList.UnreadBadge | frontend/src/components/ConversationList.jsx:125-128 | no badge exactly at zero; the count up to 99; `99+` beyond |
| ConversationList.UnreadBadgeShort | frontend/src/components/ConversationList.jsx:125-128 | a badge is at most three characters |
| ConversationList.Take2 | frontend/src/components/ConversationList.jsx:58 | `slice(0, 2)`: the first two characters, or all of a shorter string |
| ConversationList.HeadsOfSplit | frontend/src/components/ConversationList.jsx:52-59 | the first letters of the split's parts are the letters that begin a word |
| ConversationList.Initials | frontend/src/components/ConversationList.jsx:52-59 | the initials are the first two word-starting characters, upper-cased, at most two characters |
| ConversationList.InitialsOfTwoWords | frontend/src/components/ConversationList.jsx:52-59 | a first and last name give their two first letters, upper-cased |
| ConversationList.WordStartsOfWord | frontend/src/components/ConversationList.jsx:52-59 | a word without spaces contributes exactly its first letter |
| ConversationList.WordStartsAppend | frontend/src/components/ConversationList.jsx:52-59 | scanning a concatenation scans the second part in the state the first part left |
| ConversationList.AtMostOneActive | frontend/src/components/ConversationList.jsx:77 | with distinct conversation ids at most one row is highlighted |
| ConversationList.PreviewText | frontend/src/components/ConversationList.jsx:122 | the last message, or `No messages yet` when it is empty |
| NewConversationModal.SearchResults | frontend/src/components/NewConversationModal.jsx:29-61 | no results without an actor or for a term under two characters; every result contains the term, ignoring case, and is not selected |
| NewConversationModal.SearchResultsExact | frontend/src/components/NewConversationModal.jsx:47-50 | a user is offered exactly when in the directory, matching the term and not selected, in directory order |
| NewConversationModal.SelectedNotOffered | frontend/src/components/NewConversationModal.jsx:49 | a selected user is never offered again |
| NewConversationModal.Decide | frontend/src/components/NewConversationModal.jsx:73-87 | submits exactly when at least one user is chosen, a group has a non-blank title, and several users form a group; alerts for no selection exactly when none is chosen, for a title exactly for a group with a blank one, and turns the form into a group exactly when several users are chosen for a direct chat |
| NewConversationModal.Principals | frontend/src/components/NewConversationModal.jsx:92 | the selected users' principals, in order |
| NewConversationModal.Usernames | frontend/src/components/NewConversationModal.jsx:93 | the selected users' names, in order |
| NewConversationModal.ArgsFor | frontend/src/components/NewConversationModal.jsx:92-100 | parallel principal and name lists; the title only for a group; the trimmed first message, or none when blank |
| NewConversationModal.SubmittedGroupKeepsTitle | frontend/src/components/NewConversationModal.jsx:79-99 | a group that passes the checks reaches the backend with its title; a direct chat never carries one |
| NewConversationModal.NewConversationForm.constructor | frontend/src/components/NewConversationModal.jsx:6-13 | the dialog's initial state |
| NewConversationModal.NewConversationForm.InitBackendActor | frontend/src/components/NewConversationModal.jsx:16-27 | the actor is present once the import has succeeded |
| NewConversationModal.NewConversationForm.SearchUsers | frontend/src/components/NewConversationModal.jsx:29-61 | the results become `SearchResults` of the current term and selection |
| NewConversationModal.NewConversationForm.SetSearchTerm | frontend/src/components/NewConversationModal.jsx:149 | the search box's value is stored |
| NewConversationModal.NewConversationForm.SetIsGroup | frontend/src/components/NewConversationModal.jsx:206-210 | the checkbox's value is stored |
| NewConversationModal.NewConversationForm.SetGroupTitle | frontend/src/components/NewConversationModal.jsx:228 | the title box's value is stored |
| NewConversationModal.NewConversationForm.SetInitialMessage | frontend/src/components/NewConversationModal.jsx:243 | the message box's value is stored |
| NewConversationModal.NewConversationForm.UserSelect | frontend/src/components/NewConversationModal.jsx:63-67 | the user is appended and the search is cleared |
| NewConversationModal.NewConversationForm.UserRemove | frontend/src/components/NewConversationModal.jsx:69-71 | no user with that principal stays selected; the rest keep their order |
| NewConversationModal.NewConversationForm.HandleCreateConversation | frontend/src/components/NewConversationModal.jsx:73-108 | the alert or action `Decide` selects; a submission passes `ArgsFor` to the handler, alerts when it throws, and ends not loading |
| MessageList.FormatTimestamp | frontend/src/components/MessageList.jsx:11-22 | just now under a minute; whole minutes under an hour; the time of day under a day; date and time beyond |
| MessageList.AgreesWithSidebar | frontend/src/components/MessageList.jsx:11-22 | the pane and the sidebar use the same minute and hour thresholds and the same minute count |
| MessageList.TimeText | frontend/src/components/MessageList.jsx:11-22 | `Just now`; a minute label ends in `m ago` and reads back as its minute count; the locale's time or date and time otherwise |
| MessageList.MinutesUnique | frontend/src/components/MessageList.jsx:15 | two whole-minute counts of the same age are equal |
| MessageList.IsCurrentUser | frontend/src/components/MessageList.jsx:24-27 | a message is one's own exactly when its sender is the signed-in identity |
| MessageList.ReadSystemKey | frontend/src/components/MessageList.jsx:63 | reading the `system` key of the variant gives `null` exactly for a system message, `undefined` otherwise |
| MessageList.BubbleFor | frontend/src/components/MessageList.jsx:73-168 | others' messages show the sender's name, own ones none; the editor replaces the content exactly for the message being edited, and then neither the options nor the `(edited)` mark are drawn; otherwise own messages show the options and an edited message its mark |
| MessageList.RenderAsWritten | frontend/src/components/MessageList.jsx:62-72 | as written, every message renders as a bubble |
| MessageList.SystemMessageRenderedAsBubble | frontend/src/components/MessageList.jsx:63 | for a system message the as-written rendering differs from the intended one |
| MessageList.Render | frontend/src/components/MessageList.jsx:62-168 | a system notice exactly for a system message, with its content; otherwise the bubble |
| MessageList.OptionsOnlyOnOwn | frontend/src/components/MessageList.jsx:73-168 | edit and delete are offered exactly on one's own non-system messages that are not being edited |
| MessageList.MessageEditor.constructor | frontend/src/components/MessageList.jsx:8-9 | no message is being edited |
| MessageList.MessageEditor.HandleEdit | frontend/src/components/MessageList.jsx:29-32 | that message is being edited, starting from its content |
| MessageList.MessageEditor.SetEditContent | frontend/src/components/MessageList.jsx:97 | the textarea's value is stored |
| MessageList.MessageEditor.HandleSaveEdit | frontend/src/components/MessageList.jsx:34-40 | the store's edit runs with the trimmed text only when it is not blank, with that store method's effect; the editor is idle afterwards either way |
| MessageList.MessageEditor.HandleCancelEdit | frontend/src/components/MessageList.jsx:42-45 | the editor is idle |
| MessageList.MessageEditor.HandleDelete | frontend/src/components/MessageList.jsx:47-51 | nothing changes unless the user confirms; then the store's delete has its full effect: nothing without an actor; on success with a conversation open, its first 50 messages are reloaded with the reload's error and loading ends false; on success with none open, nothing else; a failure sets the delete error and keeps window and loading |
| MessageInput.ContentToSend | frontend/src/components/MessageInput.jsx:17-22 | content is sent exactly when enabled and not blank, and it is the trimmed draft |
| MessageInput.SendButtonMatchesHandler | frontend/src/components/MessageInput.jsx:120 | the send button is disabled exactly when sending would send nothing |
| MessageInput.WithFiles | frontend/src/components/MessageInput.jsx:31-39 | with files chosen, the draft is kept and followed by the file note; without files it is unchanged |
| MessageInput.FileNoteNamesEach | frontend/src/components/MessageInput.jsx:36-37 | every chosen file's name appears in the new draft |
| MessageInput.FirstImage | frontend/src/components/MessageInput.jsx:43 | the first clipboard item whose type mentions `image`, or -1 |
| MessageInput.WithPastedImage | frontend/src/components/MessageInput.jsx:41-50 | an image appends its name as an image note after the draft; otherwise the draft is unchanged |
| MessageInput.PasteWithoutImage | frontend/src/components/MessageInput.jsx:41-50 | a paste without an image leaves the draft to the browser |
| MessageInput.Composer.constructor | frontend/src/components/MessageInput.jsx:3-4 | the picker is closed and the draft is the parent's value |
| MessageInput.Composer.HandleSend | frontend/src/components/MessageInput.jsx:17-22 | hands `ContentToSend` to `onSend` |
| MessageInput.Composer.HandleKeyPress | frontend/src/components/MessageInput.jsx:10-15 | Enter without Shift sends as the button would; any other key sends nothing |
| MessageInput.Composer.OnChange | frontend/src/components/MessageInput.jsx:83 | the textarea's value becomes the draft |
| MessageInput.Composer.ToggleEmojiPicker | frontend/src/components/MessageInput.jsx:104 | the picker flips |
| MessageInput.Composer.CloseEmojiPicker | frontend/src/components/MessageInput.jsx:150-163 | the picker is closed |
| MessageInput.Composer.HandleEmojiClick | frontend/src/components/MessageInput.jsx:24-29 | the emoji is appended and the picker closes |
| MessageInput.Composer.HandleFileAttachment | frontend/src/components/MessageInput.jsx:31-39 | the draft becomes `WithFiles` of the chosen names |
| MessageInput.Composer.HandlePaste | frontend/src/components/MessageInput.jsx:41-50 | the default paste is prevented exactly when an image is pasted; the draft becomes `WithPastedImage` |
| PostList.CommentAuthor | frontend/src/components/PostList.jsx:68 | the profile's name, or `Anonymous` when it is empty; never empty |
| PostList.CommentRequestFor | frontend/src/components/PostList.jsx:61-69 | a comment is sent exactly with an actor, a profile and a non-blank draft for that post; it carries the post id, the trimmed draft and the author |
| PostList.ReplaceKeepsUniqueIds | frontend/src/components/PostList.jsx:50-52 | replacing a post by one with the same id keeps every id, so distinct ids stay distinct |
| PostList.ReplaceTouchesOnlyThatPost | frontend/src/components/PostList.jsx:50-52 | with distinct ids exactly the liked post changes |
| PostList.PostListView.constructor | frontend/src/components/PostList.jsx:4-8 | the feed's initial state |
| PostList.PostListView.LoadPosts | frontend/src/components/PostList.jsx:21-40 | the first 10 posts are requested; an `ok` page replaces the feed, an `err` or a throw sets its error text; loading ends false |
| PostList.PostListView.HandleLike | frontend/src/components/PostList.jsx:42-59 | the returned post replaces the liked one; the liking flag ends false over the map as the handler found it |
| PostList.PostListView.SetCommentText | frontend/src/components/PostList.jsx:182 | the draft for that post is stored; other drafts are kept |
| PostList.PostListView.HandleComment | frontend/src/components/PostList.jsx:61-80 | sends `CommentRequestFor`; an accepted comment replaces the post and clears its draft; otherwise nothing changes |
| Profile.PostsBy | frontend/src/components/Profile.jsx:86 | only posts by that author, no more than the page holds |
| Profile.PostsByExact | frontend/src/components/Profile.jsx:86 | exactly that author's posts, in page order |
| Profile.DefaultProfile | frontend/src/components/Profile.jsx:58-76 | the made-up profile carries the username and the no-bio text; its id is `user-<name>` for an author, `unknown-user` otherwise |
| Profile.DefaultIdTellsAuthors | frontend/src/components/Profile.jsx:53-79 | the made-up id is `unknown-user` exactly when the probed page holds no post by the user |
| Profile.ChooseProfile | frontend/src/components/Profile.jsx:43-79 | the backend's profile first; else the viewer's own cached profile; else a made-up one from the probe; a throwing probe chooses nothing; only the viewer's own name is marked own |
| Profile.ProfileView.constructor | frontend/src/components/Profile.jsx:7-11 | the page starts loading, with nothing shown |
| Profile.ProfileView.LoadProfileData | frontend/src/components/Profile.jsx:17-94 | without an actor nothing happens; otherwise the chosen profile and own flag are set, the user's posts among the first 20 are listed, a throw sets the error, and loading ends false |
| Profile.EmbeddedFeedAsWritten | frontend/src/components/PostList.jsx:3-40 | the embedded feed holds the first 10 posts it loads itself, or none |
| Profile.PostsSectionAsWritten | frontend/src/components/Profile.jsx:201-221 | as written, the placeholder exactly when the user has no posts, otherwise the embedded feed's list |
| Profile.SectionShowsOthersPosts | frontend/src/components/Profile.jsx:191-221 | a user with one post on a page that also holds another author's post: the counter says one, the section as written lists both |
| Profile.PostsSection | frontend/src/components/Profile.jsx:201-221 | as intended, the placeholder exactly when the user has no posts, otherwise the user's own posts |
| Profile.SectionListsOwnPosts | frontend/src/components/Profile.jsx:84-87 | with the posts the page keeps, the intended section lists only the user's posts, all of the user's posts on the page, as many as the counter shows |
| MessagingPrivacySettings.AudienceDisplayName | frontend/src/components/MessagingPrivacySettings.jsx:46-54 | `Unknown` exactly for an audience that is not offered |
| MessagingPrivacySettings.DisplayNamesAreLabels | frontend/src/components/MessagingPrivacySettings.jsx:84-88 | each offered audience's display name is its radio button's label, and different audiences read differently |
| MessagingPrivacySettings.ApplyChange | frontend/src/components/MessagingPrivacySettings.jsx:39-44 | the changed key takes the new value and the other three are kept |
| MessagingPrivacySettings.ChangesCompose | frontend/src/components/MessagingPrivacySettings.jsx:39-44 | changes to different keys commute; of two changes to one key the later wins |
| MessagingPrivacySettings.PrivacySettingsDialog.constructor | frontend/src/components/MessagingPrivacySettings.jsx:6-12 | the default settings (followers only, every switch on), not saving |
| MessagingPrivacySettings.PrivacySettingsDialog.SyncFromStore | frontend/src/components/MessagingPrivacySettings.jsx:14-23 | the store's settings, when present, replace the local copy |
| MessagingPrivacySettings.PrivacySettingsDialog.HandleSettingChange | frontend/src/components/MessagingPrivacySettings.jsx:39-44 | the local copy becomes `ApplyChange` of the previous copy |
| MessagingPrivacySettings.PrivacySettingsDialog.HandleSave | frontend/src/components/MessagingPrivacySettings.jsx:25-37 | succeeds exactly when there is an actor and the backend accepts; then the store caches exactly the dialog's settings and the dialog closes; with an actor the store's error follows the backend's answer, without one it is kept; saving ends false |
| App.LinkNamedImport | frontend/src/contexts/MessagingContext.jsx:2 | a named import links exactly when the imported module exports that name |
| App.MessagingImportAsWritten | frontend/src/contexts/MessagingContext.jsx:2 | as written the import of `AuthContext` fails to link, since AuthContext.jsx:4 declares it without exporting it |
| App.MessagingImport | frontend/src/contexts/AuthContext.jsx:181-187 | the exported `useAuth` hook links |
| App.ConnectAsWritten | frontend/src/contexts/AuthContext.jsx:152-172 | with the export as written the messaging store never gets an actor |
| App.Connect | frontend/src/contexts/MessagingContext.jsx:26-56 | with the intended export a signed-in user gets an actor once the declarations load |
| App.ExportHidesUser | frontend/src/contexts/AuthContext.jsx:152-172 | with the export as written, for every conversation and message: no unread count, no message is one's own, and a direct chat is titled with its first-listed participant's name |
| App.IntendedExportShowsUser | frontend/src/contexts/MessagingContext.jsx:15 | with the intended export a message is one's own exactly when the user sent it, the unread count is the user's first entry's, and a direct chat with another participant is titled with a participant who is not the user |
| App.MarkedReadShowsNoBadge | frontend/src/components/ConversationList.jsx:125-128 | once a conversation is marked read its row shows zero unread and no badge, whoever is signed in |
| App.MarkReadKeepsOtherCounts | frontend/src/contexts/MessagingContext.jsx:176-182 | marking one conversation read leaves every other row's count as it was |

## Left out

- Timers are events. The 30-second poll, the 5-second error timeout and the 300 ms search debounce are each a method called when the timer fires. Cancelling a timer on unmount is not modelled.
- Concurrency is not modelled. Each async handler runs as one atomic step, so interleavings of React state updates are not captured. Neither are stale closures, such as `sendMessage` reading an outdated `currentConversation`.
- Toasts (`window.showToast`) and alerts are not displayed. A handler returns the toast or alert text it would show.
- `console` logging is left out, because it has no effect on state.
- The wait for the DOM to be ready and the one-second sleep between NFID retries are left out, being timing only.
- Cryptography and agents are not modelled:
  - Ed25519 key derivation is a function parameter from seed to principal.
  - The `HttpAgent` root-key fetch and the status probe are given answers.
  - NFID's `init` and `getDelegation` are given answers per attempt.
- `Math.random().toString(36)` is a parameter, the fresh session key.
- Backend declarations are not modelled. Each dynamic `import()` of the backend declarations is its success flag or its answer.
- Floating point: a nanosecond timestamp becomes a millisecond integer truncated toward zero (`Js.NsToMs`). The `Number()` conversion of the `bigint` timestamp is not modelled. Every present-day nanosecond timestamp (about 1.7e18) is above 2^53, so the conversion rounds all of them, to a multiple of 256 ns. The rounding and the division by 1e6 together move the quotient by far less than a millisecond before truncation, so a label can differ from the model's only when the quotient lies that close to a whole millisecond at a bracket boundary.
- Locale rendering is a function parameter. This covers `toLocaleDateString`, `toLocaleTimeString` and `toLocaleString`.
- `Js.ToUpper` and `Js.ToLower`: case mapping is modelled for ASCII letters only. Unicode case mapping is not available.
- `frontend/src/contexts/MessagingContext.jsx:2` imports a named `AuthContext` that `AuthContext.jsx` does not export, so as written the messaging module does not load (see Findings). The rest of the model reads the provider's value as the corrected import through `useAuth` would.
- Identity: the `identity` object (with `getPrincipal()`) is modelled by its principal text.
- Conversation titles are texts. An absent title is the empty text, and the Candid optional of the record is not modelled. The request sends the title as an optional (MessagingContext.jsx:147-149); if the stored record also holds it as a Candid `opt text`, `conversation.title || 'Group Chat'` (ConversationList.jsx:25) sees a truthy array and never shows `Group Chat`. The text representation hides this, and the record's type is not part of this model.
- Presentation is left out, because it changes no state:
  - the emoji grid;
  - the textarea's automatic resizing;
  - focus handling;
  - CSS classes;
  - the avatar letters on the profile page.
- `MessageList.BubbleFor`: every bubble records the sender's initials, as the source draws an avatar beside every message. Only which side of the bubble it sits on is left out.
- ConversationList.Heads: a string is a sequence of Unicode scalar values, while `charAt` counts UTF-16 code units; for a word starting outside the Basic Multilingual Plane (an emoji) the source takes a lone surrogate, the model the whole character.
- ConversationList.Take2: `slice(0, 2)` counts UTF-16 code units; the model counts characters, so initials built from characters outside the Basic Multilingual Plane differ.
- ConversationList.Initials: inherits the character counting of `Heads` and `Take2`. For `😀 Bob` the source gives a lone surrogate followed by `B`, the model `😀B`.
- UseLogin.SeedByte: `charCodeAt` yields a UTF-16 code unit; the model takes the character's scalar value modulo 256. Both agree on the base-36 keys the hook generates.
- UseLogin.SeedOf: the loop runs over UTF-16 code units, the model over characters. A stored key with characters outside the Basic Multilingual Plane would give a different seed.
- UseLogin.DeriveSeed: the same character counting as `SeedOf`.
- MessagingPrivacySettings.PrivacySettingsDialog.SaveDisabled: the Save button's `disabled` state is given as a predicate only, and no property is proved about it, because clicks on a disabled button are not modelled.
- `MessageInput.Composer.HandleFileAttachment`: the `File` objects themselves are not modelled; only their names are, since only the names reach the draft.

## Findings

| source | as written | input that shows it | evidently intended | confidence | as-written member | corrected member |
|---|---|---|---|---|---|---|
| frontend/src/contexts/AuthContext.jsx:152-172 | the provider's value has no `identity` key, but the messaging store (MessagingContext.jsx:15), the sidebar and the message pane read `identity` from it | any signed-in user, once the import at MessagingContext.jsx:2 links: no messaging actor is ever created, the unread count shows 0, no message is treated as their own, and a direct chat is titled with its first-listed participant's name, the user's own name whenever the user is listed first | export the signed-in identity, whose principal is `userPrincipal` | not executed | App.ConnectAsWritten | App.Connect |
| frontend/src/contexts/MessagingContext.jsx:2 | the messaging store imports a named export `AuthContext` from the provider's module, but AuthContext.jsx:4 declares the context as a module-local `const` and exports only `AuthProvider` and `useAuth` | loading any view that imports the messaging store: the named import fails to link, so the module never evaluates | import `useAuth` and read the provider's value through it | not executed | App.MessagingImportAsWritten | App.MessagingImport |
| frontend/src/components/Profile.jsx:216-221 | the page passes `posts={userPosts}` and `showUserPostsOnly` to `PostList`, whose signature (PostList.jsx:3) takes neither; the embedded feed loads and lists the first 10 posts of everyone | a user with one post whose first page also holds another author's post: the counter (Profile.jsx:191) says 1 post and the section lists 2, one of them not the user's | list the profile's own `userPosts` | not executed | Profile.PostsSectionAsWritten | Profile.PostsSection |
| frontend/src/components/MessageList.jsx:63 | `message.messageType.system` is tested for truthiness, but the JavaScript form of the Candid variant `{ system: null }` holds `null` under that key | a message whose type is `{ system: null }`: it renders as an ordinary bubble, with edit and delete options when its sender is the viewer | test for the tag, `'system' in message.messageType`, and render a centred notice | not executed | MessageList.RenderAsWritten | MessageList.Render |
