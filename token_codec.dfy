/**
 * Client-side token checks of frontend/src/hooks/utilsAuth.js: `isValidToken`
 * and `getUserIdFromToken`. The JWT library's `jwtDecode` is a parameter: it
 * either yields the claims of the token or throws (`None`).
 */
module TokenCodec {
  import opened Wrappers

  /**
   * The claims the front end reads: `exp`, a NumericDate in seconds (section
   * 4.1.4 of RFC 7519), and `sub`, the subject (section 4.1.2 of RFC 7519).
   * A claim the payload leaves out is `None`.
   */
  datatype Claims = Claims(exp: Option<int>, sub: Option<string>)

  /** `jwtDecode`: the token's claims, or `None` when it throws. */
  type Decoder = string -> Option<Claims>

  /** A JavaScript value that is either a string, `null` or `undefined`. */
  datatype JsValue = JsNull | JsUndefined | JsString(s: string)

  /** JavaScript truthiness of a token: a missing token and `""` are falsy. */
  predicate Present(token: Option<string>)
  {
    token.Some? && token.value != ""
  }

  /** `String(v)`. */
  function JsToString(v: JsValue): string
  {
    match v
    case JsNull => "null"
    case JsUndefined => "undefined"
    case JsString(s) => s
  }

  /**
   * `isValidToken`: fails closed on a missing, empty or undecodable token and
   * otherwise compares `exp` with the clock. The source compares seconds with
   * `Date.now() / 1000` in floating point; the body compares milliseconds in
   * integers, and the last ensures states that the two agree.
   */
  function IsValidToken(token: Option<string>, decode: Decoder, nowMs: int): (r: bool)
    ensures !Present(token) ==> !r
    ensures Present(token) && decode(token.value).None? ==> !r
    ensures Present(token) && decode(token.value).Some? && decode(token.value).value.exp.None? ==> !r
    ensures Present(token) && decode(token.value).Some? && decode(token.value).value.exp.Some? ==>
              (r <==> decode(token.value).value.exp.value as real > nowMs as real / 1000.0)
  {
    if !Present(token) then false
    else match decode(token.value)
      case None => false
      case Some(claims) => claims.exp.Some? && claims.exp.value * 1000 > nowMs
  }

  /**
   * `getUserIdFromToken`: `null` for a missing, empty or undecodable token,
   * otherwise the `sub` claim, which is `undefined` when the payload has none.
   */
  function GetUserIdFromToken(token: Option<string>, decode: Decoder): (r: JsValue)
    ensures r == JsNull <==> !Present(token) || decode(token.value).None?
    ensures r == JsUndefined <==> Present(token) && decode(token.value).Some? && decode(token.value).value.sub.None?
    ensures r.JsString? ==> Present(token) && decode(token.value) == Some(Claims(decode(token.value).value.exp, Some(r.s)))
  {
    if !Present(token) then JsNull
    else match decode(token.value)
      case None => JsNull
      case Some(claims) =>
        match claims.sub
        case None => JsUndefined
        case Some(s) => JsString(s)
  }

  /** An expired token stays invalid as the clock moves on. */
  lemma {:induction false} ExpiredStaysExpired(token: Option<string>, decode: Decoder, nowMs: int, laterMs: int)
    requires nowMs <= laterMs
    requires !IsValidToken(token, decode, nowMs)
    ensures !IsValidToken(token, decode, laterMs)
  {
  }
}
