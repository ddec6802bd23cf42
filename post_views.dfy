/**
 * The list logic shared, line for line, by frontend/src/pages/DashboardPage.jsx
 * and frontend/src/pages/HomePage.jsx: the query's `select` normalisation,
 * the `filteredPosts` search, and the mutations the post modal submits.
 */
module PostViews {
  import opened Wrappers
  import opened Text
  import ApiClient

  /**
   * A post as the client receives it. `title` and `content` are optional
   * because the search reads them through optional chaining.
   */
  datatype PostView = PostView(id: int, title: Option<string>, content: Option<string>,
                               authorId: int, authorName: string, createdAt: int)

  /** `response?.data`: falsy (absent, `null`, ...), an array, or a single object. */
  datatype ResponseData = NoData | ListData(items: seq<PostView>) | ObjectData(item: PostView)

  /** `select`: a falsy `data` becomes `[]`, an array stays, anything else is wrapped. */
  function Select(d: ResponseData): (r: seq<PostView>)
    ensures d.NoData? ==> r == []
    ensures d.ListData? ==> r == d.items
    ensures d.ObjectData? ==> r == [d.item]
  {
    match d
    case NoData => []
    case ListData(items) => items
    case ObjectData(item) => [item]
  }

  /** Normalising an already normalised list changes nothing. */
  lemma SelectIdempotent(d: ResponseData)
    ensures Select(ListData(Select(d))) == Select(d)
  {
  }

  // ----------------------------------------------------------------- search

  /** A post's lower-cased title or content contains the lower-cased query; a missing field never matches. */
  predicate MatchesQuery(p: PostView, query: string)
  {
    var q := ToLower(query);
    (p.title.Some? && Contains(ToLower(p.title.value), q))
    || (p.content.Some? && Contains(ToLower(p.content.value), q))
  }

  /** `xs` is `ys` with some elements left out and the rest in their order. */
  predicate IsSubsequence<T(==)>(xs: seq<T>, ys: seq<T>)
    decreases |ys|
  {
    if xs == [] then true
    else if ys == [] then false
    else if xs[0] == ys[0] then IsSubsequence(xs[1..], ys[1..])
    else IsSubsequence(xs, ys[1..])
  }

  lemma {:induction false} SubsequenceDropHead<T>(xs: seq<T>, ys: seq<T>)
    requires xs != [] && IsSubsequence(xs, ys)
    ensures IsSubsequence(xs[1..], ys)
    decreases |ys|, 0
  {
    if xs[0] == ys[0] {
      if xs[1..] != [] {
        SubsequenceSkip(xs[1..], ys[1..], ys[0]);
        assert [ys[0]] + ys[1..] == ys;
      }
    } else {
      SubsequenceDropHead(xs, ys[1..]);
      if xs[1..] != [] {
        SubsequenceSkip(xs[1..], ys[1..], ys[0]);
        assert [ys[0]] + ys[1..] == ys;
      }
    }
  }

  /** A subsequence of `ys` is also one of `[y] + ys`. */
  lemma {:induction false} SubsequenceSkip<T>(xs: seq<T>, ys: seq<T>, y: T)
    requires IsSubsequence(xs, ys)
    ensures IsSubsequence(xs, [y] + ys)
    decreases |ys|, 1
  {
    var zs := [y] + ys;
    assert zs[1..] == ys;
    if xs != [] && xs[0] == y {
      SubsequenceDropHead(xs, ys);
    }
  }

  /**
   * `filteredPosts`: the posts that match the query, each as often as it
   * occurs in the input, in their original order.
   */
  function FilterPosts(posts: seq<PostView>, query: string): (r: seq<PostView>)
    ensures forall i :: 0 <= i < |r| ==> MatchesQuery(r[i], query)
    ensures forall p :: multiset(r)[p] == if MatchesQuery(p, query) then multiset(posts)[p] else 0
    ensures IsSubsequence(r, posts)
  {
    if posts == [] then []
    else
      var rest := FilterPosts(posts[1..], query);
      assert posts == [posts[0]] + posts[1..];
      if MatchesQuery(posts[0], query) then
        assert ([posts[0]] + rest)[1..] == rest;
        [posts[0]] + rest
      else
        SubsequenceSkip(rest, posts[1..], posts[0]);
        rest
  }

  /** The search ignores ASCII case in the query. */
  lemma {:induction false} FilterIgnoresQueryCase(posts: seq<PostView>, q1: string, q2: string)
    requires ToLower(q1) == ToLower(q2)
    ensures FilterPosts(posts, q1) == FilterPosts(posts, q2)
  {
    if posts != [] {
      FilterIgnoresQueryCase(posts[1..], q1, q2);
    }
  }

  /** With an empty query, every post that has a title or a content is kept, in order. */
  lemma {:induction false} EmptyQueryKeepsAll(posts: seq<PostView>)
    requires forall i :: 0 <= i < |posts| ==> posts[i].title.Some? || posts[i].content.Some?
    ensures FilterPosts(posts, "") == posts
  {
    if posts != [] {
      var p := posts[0];
      assert p.title.Some? ==> OccursAt("", ToLower(p.title.value), 0);
      assert p.content.Some? ==> OccursAt("", ToLower(p.content.value), 0);
      EmptyQueryKeepsAll(posts[1..]);
    }
  }

  // -------------------------------------------------------------- mutations

  /** What the post modal submits: a new post, or new text for an existing one. */
  datatype PostMutation = CreateMutation(title: string, content: string)
                        | UpdateMutation(id: int, title: string, content: string)

  /** The request each mutation sends through `postService`. */
  function MutationRequest(m: PostMutation): (r: ApiClient.Request)
    ensures m.CreateMutation? ==> ApiClient.Route(r.verb, r.path) == ApiClient.CreatePost
    ensures m.UpdateMutation? ==> ApiClient.Route(r.verb, r.path) == ApiClient.EditPost(m.id)
    ensures r.body == Some(map["title" := m.title, "content" := m.content])
  {
    match m
    case CreateMutation(t, c) => ApiClient.CreatePostRequest(t, c)
    case UpdateMutation(id, t, c) => ApiClient.UpdatePostRequest(id, t, c)
  }

  // ------------------------------------------------------------ page state

  /**
   * The state both post pages keep: the normalised query result, the search
   * text, whether the post modal and the confirm dialog are open, the post
   * being edited and the id awaiting deletion.
   */
  datatype PageState = PageState(posts: seq<PostView>, searchQuery: string,
                                 isPostModalOpen: bool, isConfirmDialogOpen: bool,
                                 selectedPost: Option<PostView>, postToDelete: Option<int>)

  /** The state on first render: no data, empty search, everything closed. */
  function InitialPage(): (s: PageState)
    ensures s.posts == [] && s.searchQuery == ""
    ensures !s.isPostModalOpen && !s.isConfirmDialogOpen && s.selectedPost.None? && s.postToDelete.None?
  {
    PageState([], "", false, false, None, None)
  }

  /** The posts on screen. */
  function Visible(s: PageState): (r: seq<PostView>)
    ensures IsSubsequence(r, s.posts)
    ensures forall i :: 0 <= i < |r| ==> MatchesQuery(r[i], s.searchQuery)
  {
    FilterPosts(s.posts, s.searchQuery)
  }

  /** The confirm dialog is open exactly when an id awaits deletion. */
  predicate DialogHoldsTarget(s: PageState)
  {
    s.isConfirmDialogOpen <==> s.postToDelete.Some?
  }

  /** A selected post is only ever held while the modal is open. */
  predicate SelectionInModal(s: PageState)
  {
    s.selectedPost.Some? ==> s.isPostModalOpen
  }

  /** A new query result replaces the list, normalised by `select`. */
  function ReceiveStep(s: PageState, d: ResponseData): (r: PageState)
  {
    s.(posts := Select(d))
  }

  /** Typing in the search bar. */
  function SearchStep(s: PageState, query: string): (r: PageState)
  {
    s.(searchQuery := query)
  }

  /** `handleEdit(post)`: select the post and open the modal. */
  function EditStep(s: PageState, post: PostView): (r: PageState)
  {
    s.(selectedPost := Some(post), isPostModalOpen := true)
  }

  /** `handleDelete(postId)`: remember the id and open the confirm dialog. */
  function DeleteStep(s: PageState, postId: int): (r: PageState)
  {
    s.(postToDelete := Some(postId), isConfirmDialogOpen := true)
  }

  /** The modal's `onClose`: close it and drop the selection. */
  function CloseModalStep(s: PageState): (r: PageState)
  {
    s.(isPostModalOpen := false, selectedPost := None)
  }

  /** The dialog's `onClose`: close it and drop the pending id. */
  function CloseDialogStep(s: PageState): (r: PageState)
  {
    s.(isConfirmDialogOpen := false, postToDelete := None)
  }

  /** The update mutation's `onSuccess`: close the modal and clear the selection. */
  function UpdateSuccessStep(s: PageState): (r: PageState)
  {
    s.(isPostModalOpen := false, selectedPost := None)
  }

  /** The delete mutation's `onSuccess`: close the dialog and clear the pending id. */
  function DeleteSuccessStep(s: PageState): (r: PageState)
  {
    s.(isConfirmDialogOpen := false, postToDelete := None)
  }

  /** The dialog's `onConfirm`: the id handed to the delete mutation (`null` when none is pending). */
  function ConfirmTarget(s: PageState): (r: Option<int>)
    ensures DialogHoldsTarget(s) && s.isConfirmDialogOpen ==> r.Some? && r == s.postToDelete
  {
    s.postToDelete
  }

  /** Every transition the two pages share keeps both invariants. */
  lemma SharedStepsKeepInvariants(s: PageState, d: ResponseData, query: string, post: PostView, postId: int)
    requires DialogHoldsTarget(s) && SelectionInModal(s)
    ensures var all := [ReceiveStep(s, d), SearchStep(s, query), EditStep(s, post), DeleteStep(s, postId),
                        CloseModalStep(s), CloseDialogStep(s), UpdateSuccessStep(s), DeleteSuccessStep(s)];
            forall i :: 0 <= i < |all| ==> DialogHoldsTarget(all[i]) && SelectionInModal(all[i])
  {
  }

  /** Closing the modal and a successful update leave the page in the same state. */
  lemma CloseAndUpdateSuccessAgree(s: PageState)
    ensures CloseModalStep(s) == UpdateSuccessStep(s) && !CloseModalStep(s).isPostModalOpen
  {
  }
}
