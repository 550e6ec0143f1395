/** The feed: the first page of posts, likes and comments, each replacing
    the affected post by the one the content actor returns. */
module PostList {
  import opened Wrappers
  import opened BackendTypes
  import Js
  import Lists

  const FeedPageSize: nat := 10

  function LoadFailedText(err: string): string {
    "Failed to load posts: " + err
  }

  function LoadErrorText(message: string): string {
    "Error loading posts: " + message
  }

  const AnonymousAuthor: string := "Anonymous"

  /** The `addComment` request. */
  datatype CommentRequest = CommentRequest(postId: string, content: string, authorName: string)

  /** `userProfile.name || 'Anonymous'`. */
  function CommentAuthor(profile: Profile): (a: string)
    ensures a != ""
    ensures profile.name != "" ==> a == profile.name
    ensures profile.name == "" ==> a == AnonymousAuthor
  {
    if profile.name != "" then profile.name else AnonymousAuthor
  }

  /** The text typed for a post, `undefined` when nothing was typed. */
  function DraftFor(commentText: map<string, string>, postId: string): Option<string> {
    if postId in commentText then Some(commentText[postId]) else None
  }

  /** The request `handleComment` sends, or none when it returns early:
      no actor, no profile, or nothing but whitespace typed for the post. */
  function CommentRequestFor(hasActor: bool, profile: Option<Profile>, commentText: map<string, string>,
                             postId: string): (r: Option<CommentRequest>)
    ensures r.Some? <==>
      hasActor && profile.Some? && postId in commentText && !Js.IsBlank(commentText[postId])
    ensures r.Some? ==>
      r.value.postId == postId && r.value.content == Js.Trim(commentText[postId])
      && r.value.content != "" && r.value.authorName == CommentAuthor(profile.value)
  {
    var draft := DraftFor(commentText, postId);
    if !hasActor || profile.None? || draft.None? || Js.Trim(draft.value) == "" then None
    else Some(CommentRequest(postId, Js.Trim(draft.value), CommentAuthor(profile.value)))
  }

  /** No two cached posts share an id. */
  predicate UniqueIds(posts: seq<Post>) {
    forall i, j :: 0 <= i < j < |posts| ==> posts[i].id != posts[j].id
  }

  /** Replacing a post by one with the same id keeps the ids as they were, so
      a feed with distinct ids keeps them distinct. */
  lemma ReplaceKeepsUniqueIds(posts: seq<Post>, postId: string, updated: Post)
    requires UniqueIds(posts) && updated.id == postId
    ensures var r := Lists.ReplaceById(posts, PostId, postId, updated);
      (forall i :: 0 <= i < |posts| ==> r[i].id == posts[i].id) && UniqueIds(r)
  {
    var r := Lists.ReplaceById(posts, PostId, postId, updated);
    assert forall i :: 0 <= i < |posts| ==> r[i].id == posts[i].id by {
      forall i | 0 <= i < |posts| ensures r[i].id == posts[i].id {
        if posts[i].id == postId {
          assert r[i] == updated;
        } else {
          assert r[i] == posts[i];
        }
      }
    }
  }

  /** With distinct ids, an accepted like touches exactly the liked post. */
  lemma ReplaceTouchesOnlyThatPost(posts: seq<Post>, postId: string, updated: Post, i: nat)
    requires UniqueIds(posts) && i < |posts| && posts[i].id == postId
    ensures var r := Lists.ReplaceById(posts, PostId, postId, updated);
      r[i] == updated && forall j :: 0 <= j < |posts| && j != i ==> r[j] == posts[j]
  {
    var r := Lists.ReplaceById(posts, PostId, postId, updated);
    forall j | 0 <= j < |posts| && j != i ensures r[j] == posts[j] {
      if j < i {
        assert posts[j].id != posts[i].id;
      } else {
        assert posts[i].id != posts[j].id;
      }
    }
  }

  class PostListView {
    var posts: seq<Post>
    var isLoading: bool
    var error: Option<string>
    var commentText: map<string, string>
    var isLiking: map<string, bool>

    constructor ()
      ensures posts == [] && !isLoading && error == None && commentText == map[] && isLiking == map[]
    {
      posts := [];
      isLoading := false;
      error := None;
      commentText := map[];
      isLiking := map[];
    }

    /** `loadPosts()`; `getPosts` is the content actor's answer to each page request. */
    method LoadPosts(hasActor: bool, getPosts: (nat, nat) -> Reply<seq<Post>>)
      modifies this`posts, this`isLoading, this`error
      ensures !hasActor ==> posts == old(posts) && isLoading == old(isLoading) && error == old(error)
      ensures hasActor ==>
        var reply := getPosts(FeedPageSize, 0);
        !isLoading
        && posts == (if reply.Ok? then reply.value else old(posts))
        && error == match reply
                    case Ok(_) => None
                    case Err(e) => Some(LoadFailedText(e))
                    case Threw(m) => Some(LoadErrorText(m))
    {
      if !hasActor {
        return;
      }
      isLoading := true;
      error := None;
      var reply := getPosts(FeedPageSize, 0);
      match reply {
        case Ok(page) => posts := page;
        case Err(e) => error := Some(LoadFailedText(e));
        case Threw(m) => error := Some(LoadErrorText(m));
      }
      isLoading := false;
    }

    /** `handleLike(postId)`: both flag updates spread the map as it was when the
        handler started, so the flag ends `false` over the earlier map. */
    method HandleLike(hasActor: bool, postId: string, likePost: string -> Reply<Post>)
      modifies this`posts, this`isLiking
      ensures !hasActor ==> posts == old(posts) && isLiking == old(isLiking)
      ensures hasActor ==>
        var reply := likePost(postId);
        isLiking == old(isLiking)[postId := false]
        && posts == if reply.Ok? then Lists.ReplaceById(old(posts), PostId, postId, reply.value) else old(posts)
    {
      if !hasActor {
        return;
      }
      var before := isLiking;
      isLiking := before[postId := true];
      var reply := likePost(postId);
      if reply.Ok? {
        posts := Lists.ReplaceById(posts, PostId, postId, reply.value);
      }
      isLiking := before[postId := false];
    }

    /** The comment box's `onChange` for one post. */
    method SetCommentText(postId: string, text: string)
      modifies this`commentText
      ensures commentText == old(commentText)[postId := text]
    {
      commentText := commentText[postId := text];
    }

    /** `handleComment(postId)`: returns the request sent, if any. */
    method HandleComment(hasActor: bool, profile: Option<Profile>, postId: string,
                         addComment: CommentRequest -> Reply<Post>)
      returns (request: Option<CommentRequest>)
      modifies this`posts, this`commentText
      ensures request == CommentRequestFor(hasActor, profile, old(commentText), postId)
      ensures request.None? || !addComment(request.value).Ok? ==>
        posts == old(posts) && commentText == old(commentText)
      ensures request.Some? && addComment(request.value).Ok? ==>
        posts == Lists.ReplaceById(old(posts), PostId, postId, addComment(request.value).value)
        && commentText == old(commentText)[postId := ""]
    {
      if !hasActor || profile.None? || postId !in commentText || Js.Trim(commentText[postId]) == "" {
        return None;
      }
      var req := CommentRequest(postId, Js.Trim(commentText[postId]), CommentAuthor(profile.value));
      request := Some(req);
      var reply := addComment(req);
      if reply.Ok? {
        posts := Lists.ReplaceById(posts, PostId, postId, reply.value);
        commentText := commentText[postId := ""];
      }
    }
  }
}
