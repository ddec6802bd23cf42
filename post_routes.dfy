/**
 * The `/posts` router of backend/app/routes/post_routes.py over the post
 * table: `create_post`, `list_posts`, `my_posts`, `edit_post` and
 * `delete_post`. `ORDER BY created_at DESC` is an insertion sort of the
 * keys; the order among posts with equal timestamps is left open by SQL and
 * is whatever the sort yields.
 */
module PostRoutes {
  import opened Wrappers
  import opened Database
  import opened AuthUtils

  /** The `PostCreate` body. */
  datatype PostCreate = PostCreate(title: string, content: string)

  /** The `PostRead` answer: the row's fields and the author's name. */
  datatype PostRead = PostRead(id: int, title: string, content: string, authorId: int,
                               authorName: string, createdAt: int)

  const PostNotFound := "Post not found"
  const NotAuthorizedToEdit := "Not authorized to edit this post"
  const NotAuthorizedToDelete := "Not authorized to delete this post"
  const UnknownAuthor := "Unknown"

  /** `PostRead` of a row under the given author name. */
  function ToRead(row: PostRow, authorName: string): PostRead
  {
    PostRead(row.id, row.title, row.content, row.authorId, authorName, row.createdAt)
  }

  // ------------------------------------------------------------ ordering

  predicate InRows(rows: map<int, PostRow>, s: seq<int>)
  {
    forall i :: 0 <= i < |s| ==> s[i] in rows
  }

  predicate Distinct(s: seq<int>)
  {
    forall i, j :: 0 <= i < j < |s| ==> s[i] != s[j]
  }

  /** Keys ordered by `created_at`, newest first. */
  predicate NewestFirst(rows: map<int, PostRow>, s: seq<int>)
    requires InRows(rows, s)
  {
    forall i, j :: 0 <= i < j < |s| ==> rows[s[i]].createdAt >= rows[s[j]].createdAt
  }

  /** The keys in `[lo, hi)` whose rows satisfy `p`, in increasing order. */
  function KeysWhere(rows: map<int, PostRow>, p: PostRow -> bool, lo: int, hi: int): (r: seq<int>)
    ensures forall x :: x in r <==> lo <= x < hi && x in rows && p(rows[x])
    ensures forall i :: 0 <= i < |r| ==> lo <= r[i] < hi
    ensures forall i, j :: 0 <= i < j < |r| ==> r[i] < r[j]
    decreases hi - lo
  {
    if lo >= hi then []
    else if lo in rows && p(rows[lo]) then [lo] + KeysWhere(rows, p, lo + 1, hi)
    else KeysWhere(rows, p, lo + 1, hi)
  }

  /** Insert `k` before the first key that is not newer than it. */
  function Insert(rows: map<int, PostRow>, k: int, s: seq<int>): (r: seq<int>)
    requires k in rows && InRows(rows, s)
    ensures InRows(rows, r)
    ensures |r| == |s| + 1 && multiset(r) == multiset(s) + multiset{k}
  {
    if s == [] then [k]
    else if rows[s[0]].createdAt <= rows[k].createdAt then [k] + s
    else
      assert s == [s[0]] + s[1..];
      [s[0]] + Insert(rows, k, s[1..])
  }

  /** Inserting into a newest-first sequence keeps it newest first; the head is `k` or the old head. */
  lemma {:induction false} InsertKeepsNewestFirst(rows: map<int, PostRow>, k: int, s: seq<int>)
    requires k in rows && InRows(rows, s) && NewestFirst(rows, s)
    ensures var r := Insert(rows, k, s);
            NewestFirst(rows, r) && (r[0] == k || (s != [] && r[0] == s[0]))
  {
    if s == [] {
    } else if rows[s[0]].createdAt <= rows[k].createdAt {
      var r := [k] + s;
      forall i, j | 0 <= i < j < |r| ensures rows[r[i]].createdAt >= rows[r[j]].createdAt {
        assert r[j] == s[j - 1];
        if i == 0 {
          assert rows[s[0]].createdAt >= rows[s[j - 1]].createdAt;
        } else {
          assert r[i] == s[i - 1];
        }
      }
    } else {
      InsertKeepsNewestFirst(rows, k, s[1..]);
      var rest := Insert(rows, k, s[1..]);
      var r := [s[0]] + rest;
      assert rows[rest[0]].createdAt <= rows[s[0]].createdAt;
      forall i, j | 0 <= i < j < |r| ensures rows[r[i]].createdAt >= rows[r[j]].createdAt {
        assert r[j] == rest[j - 1];
        if i == 0 {
          assert rows[rest[0]].createdAt >= rows[rest[j - 1]].createdAt;
        } else {
          assert r[i] == rest[i - 1];
        }
      }
      assert Insert(rows, k, s) == r;
    }
  }

  /** Insertion sort of keys, newest first: a permutation of its input. */
  function SortNewest(rows: map<int, PostRow>, s: seq<int>): (r: seq<int>)
    requires InRows(rows, s)
    ensures InRows(rows, r) && NewestFirst(rows, r)
    ensures |r| == |s| && multiset(r) == multiset(s)
  {
    if s == [] then []
    else
      assert s == [s[0]] + s[1..];
      var rest := SortNewest(rows, s[1..]);
      InsertKeepsNewestFirst(rows, s[0], rest);
      Insert(rows, s[0], rest)
  }

  /** In a sequence without repeats every element occurs once. */
  lemma {:induction false} DistinctOccursOnce(s: seq<int>, x: int)
    requires Distinct(s)
    ensures multiset(s)[x] <= 1
  {
    if s != [] {
      assert s == [s[0]] + s[1..];
      DistinctOccursOnce(s[1..], x);
      if x == s[0] {
        assert x !in s[1..];
      }
    }
  }

  /** A permutation of a sequence without repeats has none either. */
  lemma {:induction false} PermutationKeepsDistinct(a: seq<int>, b: seq<int>)
    requires multiset(a) == multiset(b) && Distinct(b)
    ensures Distinct(a)
  {
    forall i, j | 0 <= i < j < |a| ensures a[i] != a[j] {
      if a[i] == a[j] {
        assert a == a[..j] + a[j..];
        assert a[i] in a[..j] && a[j] in a[j..];
        assert multiset(a)[a[i]] >= 2;
        DistinctOccursOnce(b, a[i]);
        assert false;
      }
    }
  }

  /**
   * The keys of the rows that satisfy `p`, each once, newest first: the
   * `WHERE` and `ORDER BY created_at DESC` of the two list queries.
   */
  function FeedKeys(rows: map<int, PostRow>, p: PostRow -> bool, bound: int): (r: seq<int>)
    requires KeyedById(rows, bound)
    ensures InRows(rows, r) && NewestFirst(rows, r) && Distinct(r)
    ensures forall x :: x in r <==> x in rows && p(rows[x])
  {
    var keys := KeysWhere(rows, p, 1, bound);
    var r := SortNewest(rows, keys);
    PermutationKeepsDistinct(r, keys);
    assert forall x :: x in r <==> x in keys by {
      forall x ensures x in r <==> x in keys {
        assert x in r <==> x in multiset(r);
        assert x in keys <==> x in multiset(keys);
      }
    }
    r
  }

  // -------------------------------------------------------------- queries

  /** `post.author.username if post.author else "Unknown"` */
  function AuthorName(users: map<int, UserRow>, authorId: int): string
  {
    if authorId in users then users[authorId].username else UnknownAuthor
  }

  /**
   * The answers for a list of keys, in that order: each post's answer under
   * the name `name` gives it, and the order and distinctness of the keys
   * carried over to the answers' ids and timestamps.
   */
  function ReadAll(rows: map<int, PostRow>, bound: int, keys: seq<int>, name: PostRow -> string): (r: seq<PostRead>)
    requires KeyedById(rows, bound) && InRows(rows, keys) && NewestFirst(rows, keys) && Distinct(keys)
    ensures |r| == |keys|
    ensures forall i :: 0 <= i < |r| ==> r[i].id == keys[i] && r[i] == ToRead(rows[keys[i]], name(rows[keys[i]]))
    ensures forall i, j :: 0 <= i < j < |r| ==> r[i].id != r[j].id
    ensures forall i, j :: 0 <= i < j < |r| ==> r[i].createdAt >= r[j].createdAt
  {
    seq(|keys|, i requires 0 <= i < |keys| => ToRead(rows[keys[i]], name(rows[keys[i]])))
  }

  /**
   * The answers of a list query: exactly the rows that satisfy `p`, each
   * once, newest first, each answered under the name `name` gives it.
   */
  function Feed(rows: map<int, PostRow>, bound: int, p: PostRow -> bool, name: PostRow -> string): (r: seq<PostRead>)
    requires KeyedById(rows, bound)
    ensures forall i :: 0 <= i < |r| ==>
              r[i].id in rows && p(rows[r[i].id]) && r[i] == ToRead(rows[r[i].id], name(rows[r[i].id]))
    ensures forall k :: k in rows && p(rows[k]) ==> exists i :: 0 <= i < |r| && r[i].id == k
    ensures forall i, j :: 0 <= i < j < |r| ==> r[i].id != r[j].id
    ensures forall i, j :: 0 <= i < j < |r| ==> r[i].createdAt >= r[j].createdAt
  {
    var keys := FeedKeys(rows, p, bound);
    var r := ReadAll(rows, bound, keys, name);
    forall k | k in rows && p(rows[k]) ensures exists i :: 0 <= i < |r| && r[i].id == k {
      var j :| 0 <= j < |keys| && keys[j] == k;
      assert r[j].id == k;
    }
    r
  }

  /**
   * `list_posts`: every post exactly once, newest first, each with its
   * author's username or `"Unknown"`.
   */
  function ListPosts(posts: map<int, PostRow>, users: map<int, UserRow>, bound: int): (r: seq<PostRead>)
    requires KeyedById(posts, bound)
    ensures forall i :: 0 <= i < |r| ==>
              r[i].id in posts && r[i] == ToRead(posts[r[i].id], AuthorName(users, posts[r[i].id].authorId))
    ensures forall k :: k in posts ==> exists i :: 0 <= i < |r| && r[i].id == k
    ensures forall i, j :: 0 <= i < j < |r| ==> r[i].id != r[j].id
    ensures forall i, j :: 0 <= i < j < |r| ==> r[i].createdAt >= r[j].createdAt
  {
    Feed(posts, bound, (p: PostRow) => true, (p: PostRow) => AuthorName(users, p.authorId))
  }

  /**
   * `my_posts`: exactly the posts whose author is the current user, each
   * once, newest first, named with the current user's username.
   */
  function MyPosts(posts: map<int, PostRow>, current: UserRow, bound: int): (r: seq<PostRead>)
    requires KeyedById(posts, bound)
    ensures forall i :: 0 <= i < |r| ==>
              r[i].id in posts && posts[r[i].id].authorId == current.id
              && r[i] == ToRead(posts[r[i].id], current.username)
    ensures forall k :: k in posts && posts[k].authorId == current.id ==> exists i :: 0 <= i < |r| && r[i].id == k
    ensures forall i, j :: 0 <= i < j < |r| ==> r[i].id != r[j].id
    ensures forall i, j :: 0 <= i < j < |r| ==> r[i].createdAt >= r[j].createdAt
  {
    Feed(posts, bound, (p: PostRow) => p.authorId == current.id, (p: PostRow) => current.username)
  }

  /** Every post of `my_posts` is in `list_posts` with the same answer, when the current user has a row. */
  lemma {:induction false} MyPostsAreListed(posts: map<int, PostRow>, users: map<int, UserRow>, current: UserRow, bound: int)
    requires KeyedById(posts, bound)
    requires current.id in users && users[current.id] == current
    ensures var all := ListPosts(posts, users, bound);
            forall p :: p in MyPosts(posts, current, bound) ==> p in all
  {
    var all := ListPosts(posts, users, bound);
    var mine := MyPosts(posts, current, bound);
    forall p | p in mine ensures p in all {
      var i :| 0 <= i < |all| && all[i].id == p.id;
      assert all[i] == p;
    }
  }

  // ------------------------------------------------------------- updates

  /**
   * `create_post`: a new row at the next key, authored by the current user
   * and stamped `now`; the answer names the current user.
   */
  method CreatePost(posts: PostTable, current: UserRow, payload: PostCreate, now: int) returns (r: PostRead)
    requires posts.Valid()
    modifies posts
    ensures posts.Valid()
    ensures var id := old(posts.nextId);
            var row := PostRow(id, payload.title, payload.content, current.id, now);
            && id !in old(posts.rows)
            && posts.rows == old(posts.rows)[id := row] && posts.nextId == id + 1
            && r == ToRead(row, current.username)
  {
    var id := posts.nextId;
    var row := PostRow(id, payload.title, payload.content, current.id, now);
    posts.rows := posts.rows[id := row];
    posts.nextId := id + 1;
    r := ToRead(row, current.username);
  }

  /**
   * `edit_post`: a missing post is a 404 before the author is checked;
   * another author's post is a 403; otherwise only the title and content
   * change.
   */
  method EditPost(posts: PostTable, current: UserRow, postId: int, payload: PostCreate)
    returns (r: Result<PostRead, HttpError>)
    requires posts.Valid()
    modifies posts
    ensures posts.Valid() && posts.nextId == old(posts.nextId)
    ensures postId !in old(posts.rows) ==>
              r == Err(HttpError(404, PostNotFound)) && posts.rows == old(posts.rows)
    ensures postId in old(posts.rows) && old(posts.rows)[postId].authorId != current.id ==>
              r == Err(HttpError(403, NotAuthorizedToEdit)) && posts.rows == old(posts.rows)
    ensures postId in old(posts.rows) && old(posts.rows)[postId].authorId == current.id ==>
              var row := old(posts.rows)[postId].(title := payload.title, content := payload.content);
              posts.rows == old(posts.rows)[postId := row] && r == Ok(ToRead(row, current.username))
  {
    if postId !in posts.rows {
      return Err(HttpError(404, PostNotFound));
    }
    var post := posts.rows[postId];
    if post.authorId != current.id {
      return Err(HttpError(403, NotAuthorizedToEdit));
    }
    var row := post.(title := payload.title, content := payload.content);
    posts.rows := posts.rows[postId := row];
    r := Ok(ToRead(row, current.username));
  }

  /**
   * `delete_post`: the same 404-then-403 checks; otherwise exactly that
   * post is removed. `None` is the empty 204 answer.
   */
  method DeletePost(posts: PostTable, current: UserRow, postId: int) returns (err: Option<HttpError>)
    requires posts.Valid()
    modifies posts
    ensures posts.Valid() && posts.nextId == old(posts.nextId)
    ensures postId !in old(posts.rows) ==>
              err == Some(HttpError(404, PostNotFound)) && posts.rows == old(posts.rows)
    ensures postId in old(posts.rows) && old(posts.rows)[postId].authorId != current.id ==>
              err == Some(HttpError(403, NotAuthorizedToDelete)) && posts.rows == old(posts.rows)
    ensures postId in old(posts.rows) && old(posts.rows)[postId].authorId == current.id ==>
              err.None? && posts.rows == old(posts.rows) - {postId}
  {
    if postId !in posts.rows {
      return Some(HttpError(404, PostNotFound));
    }
    if posts.rows[postId].authorId != current.id {
      return Some(HttpError(403, NotAuthorizedToDelete));
    }
    posts.rows := posts.rows - {postId};
    err := None;
  }

  /** After a delete the post is gone from the feed and every other post is still there. */
  lemma {:induction false} DeleteHidesOnlyThatPost(posts: map<int, PostRow>, users: map<int, UserRow>, bound: int, postId: int)
    requires KeyedById(posts, bound)
    ensures KeyedById(posts - {postId}, bound)
    ensures var after := ListPosts(posts - {postId}, users, bound);
            (forall i :: 0 <= i < |after| ==> after[i].id != postId)
            && (forall k :: k in posts && k != postId ==> exists i :: 0 <= i < |after| && after[i].id == k)
  {
    var rest := posts - {postId};
    var after := ListPosts(rest, users, bound);
    forall k | k in posts && k != postId ensures exists i :: 0 <= i < |after| && after[i].id == k {
      assert k in rest;
    }
  }

  /** A new post shows up in the feed named after its author. */
  lemma {:induction false} CreatedPostIsListed(posts: map<int, PostRow>, users: map<int, UserRow>, bound: int,
                                               row: PostRow, current: UserRow)
    requires KeyedById(posts, bound) && bound >= 1
    requires row.id == bound && row.authorId == current.id
    requires current.id in users && users[current.id] == current
    ensures KeyedById(posts[bound := row], bound + 1)
    ensures ToRead(row, current.username) in ListPosts(posts[bound := row], users, bound + 1)
  {
    var after := posts[bound := row];
    var all := ListPosts(after, users, bound + 1);
    assert bound in after;
    var i :| 0 <= i < |all| && all[i].id == bound;
    assert all[i] == ToRead(row, current.username);
  }
}
