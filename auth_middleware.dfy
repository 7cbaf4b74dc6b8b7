/**
 * The `auth` and `adminOnly` middleware. `auth` takes a raw token from the
 * first non-empty of three carriers, has it verified, and either attaches the
 * decoded claims to the request (then calls the next handler) or answers 401.
 * Verification (`jwt.verify` with the process-wide secret) is a parameter.
 */
module AuthMiddleware {
  import opened Wrappers
  import opened Text
  import Seqs

  /** The decoded token payload that becomes `req.user`. */
  datatype Claims = Claims(id: string, role: string)

  /** The token carriers of a request; None where the request lacks that carrier. */
  datatype Carriers = Carriers(xAuthToken: Option<string>, authorization: Option<string>, queryToken: Option<string>)

  datatype AuthResult = Authenticated(user: Claims) | Denied(status: int, message: string)

  const BEARER := "Bearer "
  const NO_TOKEN := "No token, authorization denied."
  const INVALID_TOKEN := "Invalid token."

  /** JavaScript truthiness of an optional string: present and not empty. */
  predicate Truthy(v: Option<string>) {
    v.Some? && v.value != ""
  }

  /** The `Authorization` header with the first `"Bearer "` removed (`?.replace`). */
  function StripBearer(header: Option<string>): Option<string> {
    match header
    case None => None
    case Some(h) => Some(ReplaceFirst(h, BEARER, ""))
  }

  /** The three candidates, highest priority first. */
  function Candidates(c: Carriers): seq<Option<string>> {
    [c.xAuthToken, StripBearer(c.authorization), c.queryToken]
  }

  /** The `||`-chain of the middleware: the first truthy candidate, or None. */
  function SelectToken(c: Carriers): (t: Option<string>)
    ensures t.Some? ==> t.value != ""
    ensures t.None? <==> !Truthy(c.xAuthToken) && !Truthy(StripBearer(c.authorization)) && !Truthy(c.queryToken)
    ensures Truthy(c.xAuthToken) ==> t == c.xAuthToken
    ensures !Truthy(c.xAuthToken) && Truthy(StripBearer(c.authorization)) ==> t == StripBearer(c.authorization)
    ensures !Truthy(c.xAuthToken) && !Truthy(StripBearer(c.authorization)) && Truthy(c.queryToken) ==> t == c.queryToken
  {
    var cands := Candidates(c);
    assert cands[0] == c.xAuthToken && cands[1] == StripBearer(c.authorization) && cands[2] == c.queryToken;
    match Seqs.Find(cands, Truthy, true)
    case None => None
    case Some(k) => cands[k]
  }

  /** `auth`: 401 without a token or when verification fails, otherwise `req.user` is exactly the decoded claims. */
  function Authenticate(c: Carriers, verify: string -> Option<Claims>): (r: AuthResult)
    ensures SelectToken(c).None? ==> r == Denied(401, NO_TOKEN)
    ensures SelectToken(c).Some? && verify(SelectToken(c).value).None? ==> r == Denied(401, INVALID_TOKEN)
    ensures r.Authenticated? <==> SelectToken(c).Some? && verify(SelectToken(c).value).Some?
    ensures r.Authenticated? ==> r.user == verify(SelectToken(c).value).value
    ensures r.Denied? ==> r.status == 401
  {
    match SelectToken(c)
    case None => Denied(401, NO_TOKEN)
    case Some(token) =>
      match verify(token)
      case None => Denied(401, INVALID_TOKEN)
      case Some(claims) => Authenticated(claims)
  }

  /** A header without `"Bearer "` is used verbatim. */
  lemma StripWithoutScheme(h: string)
    requires forall j :: 0 <= j <= |h| ==> !OccursAt(h, BEARER, j)
    ensures StripBearer(Some(h)) == Some(h)
  {
  }

  /** `"Bearer " + t` yields `t` when `t` is the rest of the header. */
  lemma StripScheme(t: string)
    ensures StripBearer(Some(BEARER + t)) == Some(t)
  {
    var h := BEARER + t;
    assert |BEARER| == 7;
    assert OccursAt(h, BEARER, 0);
    assert IndexOf(h, BEARER) == Some(0);
    assert h[..0] + "" + h[7..] == t;
  }

  /** A header that is exactly `"Bearer "` strips to the empty string and so falls through to the query token. */
  lemma BareSchemeFallsThrough(q: Option<string>)
    ensures SelectToken(Carriers(None, Some(BEARER), q)) == (if Truthy(q) then q else None)
  {
    StripScheme("");
    assert BEARER + "" == BEARER;
  }

  /** Only the first occurrence is removed: `"Bearer Bearer x"` strips to `"Bearer x"`. */
  lemma StripOnlyFirst(x: string)
    ensures StripBearer(Some(BEARER + BEARER + x)) == Some(BEARER + x)
  {
    assert BEARER + BEARER + x == BEARER + (BEARER + x);
    StripScheme(BEARER + x);
  }

  datatype Gate = Next | Forbidden(status: int, message: string)

  /** `adminOnly`: the next handler runs exactly when there is a user whose role is `"admin"`. */
  function AdminOnly(user: Option<Claims>): (g: Gate)
    ensures g.Next? <==> user.Some? && user.value.role == "admin"
    ensures g.Forbidden? ==> g.status == 403
  {
    if user.Some? && user.value.role == "admin" then Next
    else Forbidden(403, "Access denied. Admins only.")
  }
}
