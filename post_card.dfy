/**
 * The logic of frontend/src/components/PostCard.jsx: who counts as a post's
 * author, the relative-time label of `formatDate`, and the card's
 * `showMenu` / `showFullContent` state.
 */
module PostCard {
  import opened Wrappers
  import opened Text
  import opened TokenCodec
  import opened AuthProvider

  /**
   * `isAuthor`: `String(getUserIdFromToken(user?.token)) === String(post.author_id)`.
   * A string comparison of the token's subject with the decimal author id.
   */
  function IsAuthor(user: Option<User>, authorId: int, decode: Decoder): (r: bool)
    ensures var token := if user.Some? then Some(user.value.token) else None;
            r <==> GetUserIdFromToken(token, decode) == JsString(IntToString(authorId))
  {
    var token := if user.Some? then Some(user.value.token) else None;
    var id := GetUserIdFromToken(token, decode);
    var digits := IntToString(authorId);
    assert "null"[0] == 'n' && "undefined"[0] == 'u';
    assert digits[0] != 'n' && digits[0] != 'u';
    JsToString(id) == digits
  }

  /** Without a signed-in user the id is `null`, whose text `"null"` never equals a number's. */
  lemma SignedOutIsNeverAuthor(authorId: int, decode: Decoder)
    ensures !IsAuthor(None, authorId, decode)
  {
  }

  /** A token whose subject is the user's decimal id makes that user the author of exactly their own posts. */
  lemma {:induction false} OwnPostsOnly(user: User, userId: int, authorId: int, decode: Decoder)
    requires user.token != ""
    requires decode(user.token).Some? && decode(user.token).value.sub == Some(IntToString(userId))
    ensures IsAuthor(Some(user), authorId, decode) <==> authorId == userId
  {
    if IntToString(authorId) == IntToString(userId) {
      IntToStringInjective(authorId, userId);
    }
  }

  // --------------------------------------------------------------- formatDate

  /** The label `formatDate` shows; `CalendarDate` is the locale date fallback. */
  datatype RelativeTime = JustNow | MinutesAgo(n: int) | HoursAgo(n: int) | DaysAgo(n: int) | CalendarDate

  const MsPerMinute := 60000
  const MsPerHour := 3600000
  const MsPerDay := 86400000

  /**
   * `formatDate` for an elapsed time in milliseconds (`Date.now() - date`,
   * negative for a future timestamp). `Math.floor` of a quotient by a positive
   * constant is Dafny's integer division.
   */
  function FormatDate(diffMs: int): (r: RelativeTime)
    ensures r == JustNow <==> diffMs < MsPerMinute
    ensures r.MinutesAgo? <==> MsPerMinute <= diffMs < MsPerHour
    ensures r.HoursAgo? <==> MsPerHour <= diffMs < MsPerDay
    ensures r.DaysAgo? <==> MsPerDay <= diffMs < 7 * MsPerDay
    ensures r == CalendarDate <==> diffMs >= 7 * MsPerDay
    ensures r.MinutesAgo? ==> 1 <= r.n <= 59 && r.n * MsPerMinute <= diffMs < (r.n + 1) * MsPerMinute
    ensures r.HoursAgo? ==> 1 <= r.n <= 23 && r.n * MsPerHour <= diffMs < (r.n + 1) * MsPerHour
    ensures r.DaysAgo? ==> 1 <= r.n <= 6 && r.n * MsPerDay <= diffMs < (r.n + 1) * MsPerDay
  {
    var diffSeconds := diffMs / 1000;
    var diffMinutes := diffMs / MsPerMinute;
    var diffHours := diffMs / MsPerHour;
    var diffDays := diffMs / MsPerDay;
    if diffSeconds < 60 then JustNow
    else if diffMinutes < 60 then MinutesAgo(diffMinutes)
    else if diffHours < 24 then HoursAgo(diffHours)
    else if diffDays < 7 then DaysAgo(diffDays)
    else CalendarDate
  }

  /** The text shown for a label; `calendar` is the locale's short date. */
  function Label(t: RelativeTime, calendar: string): string
  {
    match t
    case JustNow => "just now"
    case MinutesAgo(n) => IntToString(n) + "m ago"
    case HoursAgo(n) => IntToString(n) + "h ago"
    case DaysAgo(n) => IntToString(n) + "d ago"
    case CalendarDate => calendar
  }

  /** Labels only grow coarser as time passes. */
  lemma {:induction false} FormatDateMonotone(d1: int, d2: int)
    requires d1 <= d2
    ensures Rank(FormatDate(d1)) <= Rank(FormatDate(d2))
  {
  }

  function Rank(t: RelativeTime): nat
  {
    match t
    case JustNow => 0
    case MinutesAgo(_) => 1
    case HoursAgo(_) => 2
    case DaysAgo(_) => 3
    case CalendarDate => 4
  }

  // ------------------------------------------------------------ card state

  /** The card's local state. The options menu is rendered only for the author. */
  class PostCardView {
    var showMenu: bool
    var showFullContent: bool

    constructor ()
      ensures !showMenu && !showFullContent
    {
      showMenu, showFullContent := false, false;
    }

    /** The edit/delete menu is on screen. */
    predicate MenuShown(isAuthor: bool)
      reads this
    {
      isAuthor && showMenu
    }

    /** The options button, which only the author sees, toggles the menu. */
    method ToggleMenu(isAuthor: bool)
      modifies this
      ensures showMenu == (if isAuthor then !old(showMenu) else old(showMenu))
      ensures showFullContent == old(showFullContent)
    {
      if isAuthor {
        showMenu := !showMenu;
      }
    }

    /** A mouse-down outside the menu closes it; the menu's element exists only for the author. */
    method ClickOutside(isAuthor: bool)
      modifies this
      ensures showMenu == (old(showMenu) && !isAuthor)
      ensures showFullContent == old(showFullContent)
    {
      if isAuthor {
        showMenu := false;
      }
    }

    /** "Edit Post": hands the post to `onEdit` and closes the menu. */
    method ChooseEdit<P>(isAuthor: bool, post: P) returns (edited: P)
      requires MenuShown(isAuthor)
      modifies this
      ensures edited == post
      ensures !MenuShown(isAuthor) && showFullContent == old(showFullContent)
    {
      edited := post;
      showMenu := false;
    }

    /** "Delete Post": hands the post's id to `onDelete` and closes the menu. */
    method ChooseDelete(isAuthor: bool, postId: int) returns (deleted: int)
      requires MenuShown(isAuthor)
      modifies this
      ensures deleted == postId
      ensures !MenuShown(isAuthor) && showFullContent == old(showFullContent)
    {
      deleted := postId;
      showMenu := false;
    }

    /** "Read More" / "Show Less". */
    method ToggleContent()
      modifies this
      ensures showFullContent == !old(showFullContent) && showMenu == old(showMenu)
    {
      showFullContent := !showFullContent;
    }
  }
}
