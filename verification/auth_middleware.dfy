/** The two middleware functions guarding `/api/tasks`: `auth` turns the
    `Authorization` header into a principal or a 401, and `adminAuth` turns a
    principal without the admin flag into a 403. Token verification (the JWT
    signature and expiry check) is the parameter `verify`: it yields the id
    claim of a token it accepts and `None` for one it rejects. `fault` stands
    for the user lookup raising. */
module AuthMiddleware {
  import opened Wrappers
  import opened Js
  import opened Text
  import opened Rows
  import opened Schema
  import opened Http

  /** What a middleware does with a request: call `next` with the principal
      attached, or answer and stop. */
  datatype Step = Next(principal: Principal) | Halt(response: Response)

  /** `req.header('Authorization')?.replace('Bearer ', '')`: a missing header
      stays missing; otherwise the first `"Bearer "` is cut out. */
  function ExtractToken(header: Option<string>): (t: Option<string>)
    ensures header.None? <==> t.None?
    ensures header.Some? && FirstOccurrence(header.value, BearerPrefix).None? ==> t == header
  {
    match header
    case None => None
    case Some(h) => Some(ReplaceFirst(h, BearerPrefix, ""))
  }

  /** A header of the form the client sends, `"Bearer " + token`, yields
      exactly `token`, even when `token` itself contains `"Bearer "`. */
  lemma BearerHeaderYieldsToken(token: string)
    ensures ExtractToken(Some(BearerPrefix + token)) == Some(token)
  {
    ReplaceLeadingOccurrence(BearerPrefix, token);
  }

  /** Only the first `"Bearer "` is removed: a repeated prefix survives once. */
  lemma RepeatedBearerKeptOnce()
    ensures ExtractToken(Some("Bearer Bearer x")) == Some("Bearer x")
  {
    assert "Bearer Bearer x" == BearerPrefix + "Bearer x";
    BearerHeaderYieldsToken("Bearer x");
  }

  /** The prefix is cut out wherever it first occurs, not only at the start. */
  lemma InnerBearerRemoved()
    ensures ExtractToken(Some("xBearer y")) == Some("xy")
  {
    var h := "xBearer y";
    assert h[1..8] == BearerPrefix;
    assert OccursAt(h, BearerPrefix, 1);
    assert !OccursAt(h, BearerPrefix, 0) by { assert h[0] != BearerPrefix[0]; }
    assert forall j | 0 <= j < 1 :: !OccursAt(h, BearerPrefix, j);
    assert ReplaceFirst(h, BearerPrefix, "") == h[..1] + "" + h[8..];
    assert h[..1] + "" + h[8..] == "xy";
  }

  /** The columns `SELECT id, name, email, is_admin` reads: no password. */
  function Project(u: User): (p: Principal)
    ensures p.id == u.id && p.name == u.name && p.email == u.email && p.isAdmin == u.isAdmin
  {
    Principal(u.id, u.name, u.email, u.isAdmin)
  }

  /** The header carries a non-empty token once `"Bearer "` is removed. */
  predicate HasToken(header: Option<string>) {
    Truthy(ExtractToken(header))
  }

  /** `auth`. No usable token: 401 "Access denied. No token provided.".
      A token `verify` rejects, an id no user has, or a failing lookup: the
      same 401 "Invalid token." (never 500, never distinguishing the cases).
      Otherwise `next` with exactly that user's id, name, email and admin flag. */
  function Auth(header: Option<string>, users: seq<User>, verify: string -> Option<int>, fault: bool): (r: Step)
    ensures !HasToken(header) ==> r == Halt(NoToken)
    ensures HasToken(header) && verify(ExtractToken(header).value).None? ==> r == Halt(InvalidToken)
    ensures HasToken(header) && fault ==> r == Halt(InvalidToken)
    ensures HasToken(header) && r.Halt? ==> r == Halt(InvalidToken)
    ensures r.Halt? ==> r.response.status == 401
    ensures r.Next? <==>
              && HasToken(header) && !fault
              && var id := verify(ExtractToken(header).value);
                 id.Some? && exists i | 0 <= i < |users| :: users[i].id == id.value
    ensures r.Next? ==> exists i | 0 <= i < |users| ::
              && users[i].id == verify(ExtractToken(header).value).value
              && r.principal == Principal(users[i].id, users[i].name, users[i].email, users[i].isAdmin)
  {
    var token := ExtractToken(header);
    if !Truthy(token) then Halt(NoToken)
    else
      match verify(token.value)
      case None => Halt(InvalidToken)
      case Some(id) =>
        if fault then Halt(InvalidToken)
        else
          match FindUser(users, id)
          case None => Halt(InvalidToken)
          case Some(u) => Next(Project(u))
  }

  /** With unique user ids, a header `"Bearer " + token` whose token verifies
      to a user's id authenticates as exactly that user. */
  lemma {:induction false} BearerOfUserAuthenticates(token: string, users: seq<User>, verify: string -> Option<int>, u: User)
    requires token != "" && u in users && verify(token) == Some(u.id)
    requires UniqueBy(users, (x: User) => x.id)
    ensures Auth(Some(BearerPrefix + token), users, verify, false) == Next(Project(u))
  {
    BearerHeaderYieldsToken(token);
    var j :| 0 <= j < |users| && users[j] == u;
    var found := FindUser(users, u.id);
    assert found.Some?;
    var i :| 0 <= i < |users| && users[i] == found.value;
    assert i == j;
  }

  /** `adminAuth`: a falsy admin flag stops with 403 "Access denied. Admin
      only."; a truthy one calls `next` with the principal unchanged. */
  function AdminAuth(p: Principal): (r: Step)
    ensures r.Next? <==> TruthyInt(p.isAdmin)
    ensures r.Next? ==> r.principal == p
    ensures r.Halt? ==> r.response == AdminOnly
  {
    if !TruthyInt(p.isAdmin) then Halt(AdminOnly) else Next(p)
  }
}
