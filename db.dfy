/**
 * The two tables of backend/app/models/user.py and backend/app/models/post.py
 * as maps keyed by the auto-incremented primary key. SQL sessions, commits
 * and relationship loading are not modelled; a query is a scan of the keys
 * in increasing order.
 */
module Database {
  import opened Wrappers

  /** A `user` row. `email` is nullable; `password` holds the hash. */
  datatype UserRow = UserRow(id: int, username: string, email: Option<string>, passwordHash: string)

  /** A `post` row; `createdAt` is the row's timestamp as an integer. */
  datatype PostRow = PostRow(id: int, title: string, content: string, authorId: int, createdAt: int)

  /**
   * The first key in `[lo, hi)` whose row satisfies `p`: the effect of
   * `select(...).where(...).first()` on keys scanned in increasing order.
   */
  function FirstKey<T>(rows: map<int, T>, p: T -> bool, lo: int, hi: int): (r: Option<int>)
    ensures r.Some? ==> lo <= r.value < hi && r.value in rows && p(rows[r.value])
    ensures r.Some? ==> forall k :: lo <= k < r.value && k in rows ==> !p(rows[k])
    ensures r.None? ==> forall k :: lo <= k < hi && k in rows ==> !p(rows[k])
    decreases hi - lo
  {
    if lo >= hi then None
    else if lo in rows && p(rows[lo]) then Some(lo)
    else FirstKey(rows, p, lo + 1, hi)
  }

  /** The `user` table. */
  class UserTable {
    var rows: map<int, UserRow>
    var nextId: int

    /**
     * Keys are issued from 1 in order and each row carries its key;
     * usernames are unique (the column's unique index) and so are non-null
     * emails (the register route checks them).
     */
    predicate Valid()
      reads this
    {
      nextId >= 1
      && (forall k :: k in rows ==> 0 < k < nextId && rows[k].id == k)
      && (forall j, k :: j in rows && k in rows && rows[j].username == rows[k].username ==> j == k)
      && (forall j, k :: j in rows && k in rows && rows[j].email.Some? && rows[j].email == rows[k].email ==> j == k)
    }

    constructor ()
      ensures Valid() && rows == map[] && nextId == 1
    {
      rows := map[];
      nextId := 1;
    }
  }

  /** The `post` table. */
  class PostTable {
    var rows: map<int, PostRow>
    var nextId: int

    /** Keys are issued from 1 in order and each row carries its key. */
    predicate Valid()
      reads this
    {
      nextId >= 1 && KeyedById(rows, nextId)
    }

    constructor ()
      ensures Valid() && rows == map[] && nextId == 1
    {
      rows := map[];
      nextId := 1;
    }
  }

  /** Every key is in `[1, bound)` and its row's `id` is the key. */
  predicate KeyedById(rows: map<int, PostRow>, bound: int)
  {
    forall k :: k in rows ==> 0 < k < bound && rows[k].id == k
  }

  /** The row of the user named `name`, if there is one. */
  function FindByUsername(rows: map<int, UserRow>, name: string, bound: int): (r: Option<UserRow>)
    requires forall k :: k in rows ==> 0 < k < bound
    ensures r.Some? ==> r.value in rows.Values && r.value.username == name
    ensures r.None? <==> forall k :: k in rows ==> rows[k].username != name
  {
    match FirstKey(rows, (u: UserRow) => u.username == name, 1, bound)
    case Some(k) => Some(rows[k])
    case None => None
  }

  /** The row of a user whose email is `email`, if there is one. */
  function FindByEmail(rows: map<int, UserRow>, email: string, bound: int): (r: Option<UserRow>)
    requires forall k :: k in rows ==> 0 < k < bound
    ensures r.Some? ==> r.value in rows.Values && r.value.email == Some(email)
    ensures r.None? <==> forall k :: k in rows ==> rows[k].email != Some(email)
  {
    match FirstKey(rows, (u: UserRow) => u.email == Some(email), 1, bound)
    case Some(k) => Some(rows[k])
    case None => None
  }
}
