/** The new-conversation dialog: user search over the built-in user list,
    the selection, and the checks made before a conversation is created. */
module NewConversationModal {
  import opened Wrappers
  import Js
  import Lists
  import MessagingContext

  datatype User = User(username: string, principal: string)

  /** The stand-in directory the search filters. */
  const MockUsers: seq<User> := [
    User("alice", "alice-principal-id"),
    User("bob", "bob-principal-id"),
    User("charlie", "charlie-principal-id"),
    User("diana", "diana-principal-id"),
    User("eve", "eve-principal-id")
  ]

  const SelectUserAlert: string := "Please select at least one user to start a conversation"
  const GroupTitleAlert: string := "Please enter a title for the group chat"
  const CreateFailedAlert: string := "Failed to create conversation. Please try again."

  // ---------------------------------------------------------------------
  // Search
  // ---------------------------------------------------------------------

  predicate IsSelected(selected: seq<User>, principal: string) {
    exists s :: s in selected && s.principal == principal
  }

  /** The search filter's test: the name contains the term, ignoring case,
      and the user is not already selected. */
  predicate SearchHit(term: string, selected: seq<User>, u: User) {
    Js.Includes(Js.ToLower(u.username), Js.ToLower(term)) && !IsSelected(selected, u.principal)
  }

  function SearchFilter(term: string, selected: seq<User>): User -> bool {
    (u: User) => SearchHit(term, selected, u)
  }

  /** The results the search effect settles on. */
  function SearchResults(hasActor: bool, term: string, selected: seq<User>): (r: seq<User>)
    ensures !hasActor || |term| < 2 ==> r == []
    ensures forall i :: 0 <= i < |r| ==> SearchHit(term, selected, r[i])
  {
    if !hasActor || |term| < 2 then [] else Lists.Filter(MockUsers, SearchFilter(term, selected))
  }

  /** With an actor and a term of two or more characters, a user is listed
      exactly when it is in the directory and passes the filter, and the
      results keep the directory's order. */
  lemma SearchResultsExact(term: string, selected: seq<User>, u: User)
    requires |term| >= 2
    ensures u in SearchResults(true, term, selected) <==> u in MockUsers && SearchHit(term, selected, u)
    ensures Lists.IsSubsequence(SearchResults(true, term, selected), MockUsers)
  {
    Lists.FilterMember(MockUsers, SearchFilter(term, selected), u);
    Lists.FilterIsSubsequence(MockUsers, SearchFilter(term, selected));
  }

  /** A selected user is never offered again. */
  lemma SelectedNotOffered(hasActor: bool, term: string, selected: seq<User>, u: User)
    requires u in selected
    ensures u !in SearchResults(hasActor, term, selected)
  {
  }

  // ---------------------------------------------------------------------
  // Creating
  // ---------------------------------------------------------------------

  /** What `handleCreateConversation` does with the current form. */
  datatype CreateDecision = NeedUser | NeedTitle | BecomeGroup | Submit

  function Decide(selectedCount: nat, isGroup: bool, groupTitle: string): (d: CreateDecision)
    ensures d == Submit <==>
      selectedCount >= 1 && (isGroup ==> !Js.IsBlank(groupTitle)) && (selectedCount > 1 ==> isGroup)
    ensures d == NeedUser <==> selectedCount == 0
    ensures d == NeedTitle <==> selectedCount >= 1 && isGroup && Js.IsBlank(groupTitle)
    ensures d == BecomeGroup <==> selectedCount > 1 && !isGroup
  {
    if selectedCount == 0 then NeedUser
    else if isGroup && Js.Trim(groupTitle) == "" then NeedTitle
    else if selectedCount > 1 && !isGroup then BecomeGroup
    else Submit
  }

  /** The arguments passed to `onCreateConversation`. */
  datatype CreateArgs = CreateArgs(
    participants: seq<string>,
    participantNames: seq<string>,
    title: Option<string>,
    isGroup: bool,
    initialMessage: Option<string>)

  function Principals(users: seq<User>): (r: seq<string>)
    ensures |r| == |users| && forall i :: 0 <= i < |users| ==> r[i] == users[i].principal
  {
    seq(|users|, i requires 0 <= i < |users| => users[i].principal)
  }

  function Usernames(users: seq<User>): (r: seq<string>)
    ensures |r| == |users| && forall i :: 0 <= i < |users| ==> r[i] == users[i].username
  {
    seq(|users|, i requires 0 <= i < |users| => users[i].username)
  }

  /** Participants and names are parallel lists of the selection; the title
      goes only with a group; the first message is trimmed, `null` when blank. */
  function ArgsFor(selected: seq<User>, isGroup: bool, groupTitle: string, initialMessage: string): (a: CreateArgs)
    ensures |a.participants| == |a.participantNames| == |selected|
    ensures forall i :: 0 <= i < |selected| ==>
      a.participants[i] == selected[i].principal && a.participantNames[i] == selected[i].username
    ensures a.isGroup == isGroup
    ensures a.title == if isGroup then Some(groupTitle) else None
    ensures a.initialMessage == if Js.IsBlank(initialMessage) then None else Some(Js.Trim(initialMessage))
  {
    var m := Js.Trim(initialMessage);
    CreateArgs(Principals(selected), Usernames(selected), if isGroup then Some(groupTitle) else None,
               isGroup, if m != "" then Some(m) else None)
  }

  /** A group that passes the checks always reaches the backend with its title,
      and a direct chat never carries one. */
  lemma SubmittedGroupKeepsTitle(selected: seq<User>, isGroup: bool, groupTitle: string, initialMessage: string)
    requires Decide(|selected|, isGroup, groupTitle) == Submit
    ensures var a := ArgsFor(selected, isGroup, groupTitle, initialMessage);
      var req := MessagingContext.CreateRequestFor(a.participants, a.participantNames, a.title, a.isGroup, a.initialMessage);
      (isGroup ==> FromCandidOpt(req.title) == Some(groupTitle))
      && (!isGroup ==> req.title == [])
  {
    if isGroup {
      assert !Js.IsBlank(groupTitle);
      assert groupTitle != "";
    }
  }

  class NewConversationForm {
    var hasBackendActor: bool
    var searchTerm: string
    var selectedUsers: seq<User>
    var isGroup: bool
    var groupTitle: string
    var initialMessage: string
    var loading: bool
    var searchResults: seq<User>

    constructor ()
      ensures !hasBackendActor && searchTerm == "" && selectedUsers == [] && !isGroup
      ensures groupTitle == "" && initialMessage == "" && !loading && searchResults == []
    {
      hasBackendActor := false;
      searchTerm := "";
      selectedUsers := [];
      isGroup := false;
      groupTitle := "";
      initialMessage := "";
      loading := false;
      searchResults := [];
    }

    /** The actor effect: the dynamic import of the backend declarations succeeded or not. */
    method InitBackendActor(imported: bool)
      modifies this`hasBackendActor
      ensures hasBackendActor == (imported || old(hasBackendActor))
    {
      if imported {
        hasBackendActor := true;
      }
    }

    /** The debounced search effect firing. */
    method SearchUsers()
      modifies this`searchResults
      ensures searchResults == SearchResults(hasBackendActor, searchTerm, selectedUsers)
    {
      if !hasBackendActor || |searchTerm| < 2 {
        searchResults := [];
        return;
      }
      searchResults := Lists.Filter(MockUsers, SearchFilter(searchTerm, selectedUsers));
    }

    method SetSearchTerm(term: string)
      modifies this`searchTerm
      ensures searchTerm == term
    {
      searchTerm := term;
    }

    method SetIsGroup(checked: bool)
      modifies this`isGroup
      ensures isGroup == checked
    {
      isGroup := checked;
    }

    method SetGroupTitle(title: string)
      modifies this`groupTitle
      ensures groupTitle == title
    {
      groupTitle := title;
    }

    method SetInitialMessage(text: string)
      modifies this`initialMessage
      ensures initialMessage == text
    {
      initialMessage := text;
    }

    /** `handleUserSelect(user)`: appended, and the search is cleared. */
    method UserSelect(user: User)
      modifies this`selectedUsers, this`searchTerm, this`searchResults
      ensures selectedUsers == old(selectedUsers) + [user]
      ensures searchTerm == "" && searchResults == []
    {
      selectedUsers := selectedUsers + [user];
      searchTerm := "";
      searchResults := [];
    }

    /** `handleUserRemove(user)`: every selected user with that principal goes. */
    method UserRemove(user: User)
      modifies this`selectedUsers
      ensures selectedUsers == Lists.Filter(old(selectedUsers), NotPrincipal(user.principal))
      ensures !IsSelected(selectedUsers, user.principal)
      ensures Lists.IsSubsequence(selectedUsers, old(selectedUsers))
    {
      Lists.FilterIsSubsequence(selectedUsers, NotPrincipal(user.principal));
      selectedUsers := Lists.Filter(selectedUsers, NotPrincipal(user.principal));
    }

    /** `handleCreateConversation()`; `onCreate` is the parent's handler, which
        may throw. Returns the alert shown, if any, and the arguments submitted. */
    method HandleCreateConversation(onCreate: CreateArgs -> Call<()>)
      returns (alertText: Option<string>, submitted: Option<CreateArgs>)
      modifies this`isGroup, this`loading
      ensures var d := Decide(|selectedUsers|, old(isGroup), groupTitle);
        && (d == NeedUser ==> alertText == Some(SelectUserAlert) && submitted == None)
        && (d == NeedTitle ==> alertText == Some(GroupTitleAlert) && submitted == None)
        && (d == BecomeGroup ==> alertText == None && submitted == None && isGroup)
        && (d != BecomeGroup ==> isGroup == old(isGroup))
        && (d != Submit ==> loading == old(loading))
        && (d == Submit ==>
              var args := ArgsFor(selectedUsers, old(isGroup), groupTitle, initialMessage);
              submitted == Some(args) && !loading
              && alertText == if onCreate(args).Raised? then Some(CreateFailedAlert) else None)
    {
      if |selectedUsers| == 0 {
        return Some(SelectUserAlert), None;
      }
      if isGroup && Js.Trim(groupTitle) == "" {
        return Some(GroupTitleAlert), None;
      }
      if |selectedUsers| > 1 && !isGroup {
        isGroup := true;
        return None, None;
      }
      loading := true;
      var args := CreateArgs(Principals(selectedUsers), Usernames(selectedUsers),
                             if isGroup then Some(groupTitle) else None, isGroup,
                             if Js.Trim(initialMessage) != "" then Some(Js.Trim(initialMessage)) else None);
      submitted := Some(args);
      alertText := if onCreate(args).Raised? then Some(CreateFailedAlert) else None;
      loading := false;
    }
  }

  function NotPrincipal(principal: string): User -> bool {
    (u: User) => u.principal != principal
  }
}
