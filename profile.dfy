/** The profile page of a route username: which profile is shown, whether it
    is the viewer's own, that user's posts among the first page, and what the
    page's posts section lists. */
module Profile {
  import opened Wrappers
  import opened BackendTypes
  import Lists
  import PostList

  const NoBioText: string := "This user has not set a bio yet."
  const UnknownUserId: string := "unknown-user"
  const ProbePageSize: nat := 50
  const PostsPageSize: nat := 20

  function LoadErrorText(message: string): string {
    "Error loading profile: " + message
  }

  function AuthoredBy(username: string): Post -> bool {
    (p: Post) => p.authorName == username
  }

  /** `posts.filter(post => post.authorName === username)`. */
  function PostsBy(posts: seq<Post>, username: string): (r: seq<Post>)
    ensures forall i :: 0 <= i < |r| ==> r[i].authorName == username
    ensures |r| <= |posts|
  {
    Lists.Filter(posts, AuthoredBy(username))
  }

  /** The listed posts are exactly the user's, in the page's order. */
  lemma PostsByExact(posts: seq<Post>, username: string, p: Post)
    ensures p in PostsBy(posts, username) <==> p in posts && p.authorName == username
    ensures Lists.IsSubsequence(PostsBy(posts, username), posts)
  {
    Lists.FilterMember(posts, AuthoredBy(username), p);
    Lists.FilterIsSubsequence(posts, AuthoredBy(username));
  }

  /** The profile made up for a user the backend does not know. */
  function DefaultProfile(username: string, hasPosts: bool): (p: BackendTypes.Profile)
    ensures p.name == username && p.bio == NoBioText
    ensures p.id == if hasPosts then "user-" + username else UnknownUserId
  {
    BackendTypes.Profile(username, NoBioText, if hasPosts then "user-" + username else UnknownUserId)
  }

  /** The made-up id tells authors from strangers: it is `unknown-user`
      exactly when the user has no post on the probed page. */
  lemma DefaultIdTellsAuthors(username: string, posts: seq<Post>)
    ensures var p := DefaultProfile(username, |PostsBy(posts, username)| > 0);
      p.id == UnknownUserId <==> forall i :: 0 <= i < |posts| ==> posts[i].authorName != username
  {
    var authored := PostsBy(posts, username);
    assert ("user-" + username)[1] == 's';
    assert UnknownUserId[1] == 'n';
    if |authored| > 0 {
      PostsByExact(posts, username, authored[0]);
    } else if i :| 0 <= i < |posts| && posts[i].authorName == username {
      PostsByExact(posts, username, posts[i]);
    }
  }

  /** The viewer's cached profile carries the route's username. */
  predicate IsOwn(cached: Option<BackendTypes.Profile>, username: string) {
    cached.Some? && cached.value.name == username
  }

  /** The profile chosen, with the own-profile flag; or the exception of the
      probing page request, which leaves both as they were. */
  datatype Choice = Chosen(profile: BackendTypes.Profile, own: bool) | ProbeThrew(message: string)

  function ChooseProfile(lookup: Reply<BackendTypes.Profile>, cached: Option<BackendTypes.Profile>,
                         username: string, probe: Reply<seq<Post>>): (c: Choice)
    ensures lookup.Ok? ==> c == Chosen(lookup.value, IsOwn(cached, username))
    ensures !lookup.Ok? && IsOwn(cached, username) ==> c == Chosen(cached.value, true)
    ensures !lookup.Ok? && !IsOwn(cached, username) ==>
      c == match probe
           case Ok(posts) => Chosen(DefaultProfile(username, |PostsBy(posts, username)| > 0), false)
           case Err(_) => Chosen(DefaultProfile(username, false), false)
           case Threw(m) => ProbeThrew(m)
    ensures c.Chosen? && !lookup.Ok? ==> c.profile.name == username
    ensures c.Chosen? && c.own ==> IsOwn(cached, username)
    ensures c.ProbeThrew? ==> !lookup.Ok? && !IsOwn(cached, username) && probe.Threw?
  {
    if lookup.Ok? then Chosen(lookup.value, IsOwn(cached, username))
    else if IsOwn(cached, username) then Chosen(cached.value, true)
    else match probe
      case Ok(posts) => Chosen(DefaultProfile(username, |PostsBy(posts, username)| > 0), false)
      case Err(_) => Chosen(DefaultProfile(username, false), false)
      case Threw(m) => ProbeThrew(m)
  }

  class ProfileView {
    var profileData: Option<BackendTypes.Profile>
    var userPosts: seq<Post>
    var isLoading: bool
    var error: Option<string>
    var isOwnProfile: bool

    constructor ()
      ensures profileData == None && userPosts == [] && isLoading && error == None && !isOwnProfile
    {
      profileData := None;
      userPosts := [];
      isLoading := true;
      error := None;
      isOwnProfile := false;
    }

    /** `loadProfileData()` for the route's `username`. `lookup` is the answer of
        `getUserProfileByUsername` (a failed import or call counts as not found);
        `getPosts` is the content actor's answer to each page request. */
    method LoadProfileData(hasActor: bool, username: string, cached: Option<BackendTypes.Profile>,
                           lookup: Reply<BackendTypes.Profile>, getPosts: (nat, nat) -> Reply<seq<Post>>)
      modifies this`profileData, this`userPosts, this`isLoading, this`error, this`isOwnProfile
      ensures !hasActor ==>
        profileData == old(profileData) && userPosts == old(userPosts) && isLoading == old(isLoading)
        && error == old(error) && isOwnProfile == old(isOwnProfile)
      ensures hasActor ==> !isLoading
      ensures hasActor ==>
        var c := ChooseProfile(lookup, cached, username, getPosts(ProbePageSize, 0));
        var page := getPosts(PostsPageSize, 0);
        && (c.Chosen? ==> profileData == Some(c.profile) && isOwnProfile == c.own)
        && (c.ProbeThrew? ==>
              profileData == old(profileData) && isOwnProfile == old(isOwnProfile)
              && userPosts == old(userPosts) && error == Some(LoadErrorText(c.message)))
        && (c.Chosen? ==>
              userPosts == (if page.Ok? then PostsBy(page.value, username) else old(userPosts))
              && error == (if page.Threw? then Some(LoadErrorText(page.message)) else None))
    {
      if !hasActor {
        return;
      }
      isLoading := true;
      error := None;
      var failed := false;
      if lookup.Ok? {
        profileData := Some(lookup.value);
        isOwnProfile := cached.Some? && cached.value.name == username;
      } else if cached.Some? && cached.value.name == username {
        profileData := cached;
        isOwnProfile := true;
      } else {
        var probe := getPosts(ProbePageSize, 0);
        match probe {
          case Ok(posts) =>
            var authored := Lists.Filter(posts, AuthoredBy(username));
            if |authored| > 0 {
              profileData := Some(BackendTypes.Profile(username, NoBioText, "user-" + username));
            } else {
              profileData := Some(BackendTypes.Profile(username, NoBioText, UnknownUserId));
            }
            isOwnProfile := false;
          case Err(_) =>
            profileData := Some(BackendTypes.Profile(username, NoBioText, UnknownUserId));
            isOwnProfile := false;
          case Threw(m) =>
            error := Some(LoadErrorText(m));
            failed := true;
        }
      }
      if !failed {
        var page := getPosts(PostsPageSize, 0);
        match page {
          case Ok(posts) => userPosts := Lists.Filter(posts, AuthoredBy(username));
          case Err(_) =>
          case Threw(m) => error := Some(LoadErrorText(m));
        }
      }
      isLoading := false;
    }
  }

  // ---------------------------------------------------------------------
  // The posts section
  // ---------------------------------------------------------------------

  /** What the posts section shows: the "hasn't posted anything yet" placeholder,
      or a list of posts. */
  datatype Section = Placeholder | Listed(posts: seq<Post>)

  /** The list the embedded `PostList` holds as written: a fresh feed whose own
      `loadPosts` ran, since the component takes no `posts` property. */
  method EmbeddedFeedAsWritten(hasActor: bool, getPosts: (nat, nat) -> Reply<seq<Post>>) returns (shown: seq<Post>)
    ensures var reply := getPosts(PostList.FeedPageSize, 0);
      shown == if hasActor && reply.Ok? then reply.value else []
  {
    var view := new PostList.PostListView();
    view.LoadPosts(hasActor, getPosts);
    shown := view.posts;
  }

  /** The section as written: the placeholder exactly when the user has no
      posts, and otherwise the embedded feed's list `feed`, whoever wrote it. */
  function PostsSectionAsWritten(userPosts: seq<Post>, feed: seq<Post>): (s: Section)
    ensures s.Placeholder? <==> |userPosts| == 0
    ensures s.Listed? ==> s.posts == feed
  {
    if |userPosts| == 0 then Placeholder else Listed(feed)
  }

  /** A user with one post on a page that also holds someone else's post: the
      counter says one post, and the section as written lists both. */
  lemma SectionShowsOthersPosts(username: string, mine: Post, theirs: Post)
    requires mine.authorName == username && theirs.authorName != username
    ensures var page := [mine, theirs];
      var s := PostsSectionAsWritten(PostsBy(page, username), page);
      s.Listed? && theirs in s.posts && |s.posts| != |PostsBy(page, username)|
  {
    var page := [mine, theirs];
    var keep := AuthoredBy(username);
    assert page[1..] == [theirs] && [theirs][1..] == [];
    assert keep(mine) && !keep(theirs);
    assert Lists.Filter([theirs], keep) == [];
    assert PostsBy(page, username) == [mine] + Lists.Filter([theirs], keep);
  }

  /** The section as intended: the placeholder exactly when the user has no
      posts, and otherwise the profile's own `userPosts`. */
  function PostsSection(userPosts: seq<Post>): (s: Section)
    ensures s.Placeholder? <==> |userPosts| == 0
    ensures s.Listed? ==> s.posts == userPosts
  {
    if |userPosts| == 0 then Placeholder else Listed(userPosts)
  }

  /** With the posts `loadProfileData` keeps, the intended section lists only
      the user's posts, every one of them on the page, as many as the counter. */
  lemma SectionListsOwnPosts(page: seq<Post>, username: string)
    ensures var s := PostsSection(PostsBy(page, username));
      s.Listed? ==>
        |s.posts| == |PostsBy(page, username)|
        && (forall i :: 0 <= i < |s.posts| ==> s.posts[i].authorName == username)
        && (forall p :: p in page && p.authorName == username ==> p in s.posts)
  {
    forall p | p in page && p.authorName == username
      ensures p in PostsBy(page, username)
    {
      PostsByExact(page, username, p);
    }
  }
}
