/** `JwtAuthGuard` and `JwtRolesGuard` (src/utils/jwt/jwt.guard.ts) as
    decisions over the outcome of `validate`, and the role lists the
    controllers declare on their routes. */
module Guards {
  import opened Common
  import opened Sessions
  import opened Auth

  /** The three ends of a guarded request: it proceeds with the identity
      attached, or is refused with 401 or with 403. */
  datatype Decision = Allowed(identity: Identity) | Unauthorized | Forbidden

  /** The status a refused request is answered with: the guards' own
      `UnauthorizedException` or the role guard's `ForbiddenException`. */
  function RefusalStatus(d: Decision): (s: Status)
    requires !d.Allowed?
    ensures s == UnAuthorized || s == AccessForbidden
    ensures s == AccessForbidden <==> d.Forbidden?
  {
    if d.Forbidden? then AccessForbidden else UnAuthorized
  }

  /** `JwtAuthGuard.canActivate`: proceed iff `validate` returned a present
      identity; any error, whatever its own status, becomes 401. */
  function AuthGuard(v: Validation): (d: Decision)
    ensures d.Allowed? <==> v.Validated? && v.user.Some?
    ensures d.Allowed? ==> Some(d.identity) == v.user
    ensures !d.Forbidden?
  {
    match v
    case Validated(Some(id)) => Allowed(id)
    case _ => Unauthorized
  }

  /** `JwtRolesGuard.canActivate` with the route's `roles` metadata (`None`
      when the route declares none). Authentication is decided first; only
      an authenticated identity can be refused for its role. */
  function RolesGuard(roles: Option<seq<Role>>, v: Validation): (d: Decision)
    ensures d.Unauthorized? <==> AuthGuard(v).Unauthorized?
    ensures d.Forbidden? <==> AuthGuard(v).Allowed? && roles.Some? && AuthGuard(v).identity.role !in roles.value
    ensures d.Allowed? ==> d == AuthGuard(v)
    ensures roles.None? ==> d == AuthGuard(v)
    ensures roles == Some([]) ==> !d.Allowed?
  {
    match AuthGuard(v)
    case Allowed(id) => if roles.Some? && id.role !in roles.value then Forbidden else Allowed(id)
    case other => other
  }

  /** The guard a route is decorated with. */
  datatype Guard = JwtAuth | JwtRoles(roles: Option<seq<Role>>)

  /** `@UseGuards(JwtRolesGuard) @Roles('ADMIN')`: add-user, list users, delete user. */
  const AdminOnly: Guard := JwtRoles(Some([Admin]))

  /** `@UseGuards(JwtRolesGuard) @Roles('ADMIN', 'EDITOR')`: the catalogue writes. */
  const AdminOrEditor: Guard := JwtRoles(Some([Admin, Editor]))

  /** `@UseGuards(JwtAuthGuard)`: any authenticated user (favourites, reads). */
  const AnyUser: Guard := JwtAuth

  /** The whole gate: `validate` on the request, then the route's guard. */
  function Gate(g: Guard, header: Option<string>, prior: Option<Identity>,
                verify: Token -> Option<Identity>, rows: seq<Session>): (d: Decision)
    ensures d.Allowed? && ExtractToken(header).None? ==> prior == Some(d.identity)
    ensures d.Allowed? && ExtractToken(header).Some? ==>
      var t := ExtractToken(header).value;
      verify(t) == Some(d.identity) && Live(rows, d.identity.userId, t)
    ensures d.Allowed? && g.JwtRoles? && g.roles.Some? ==> d.identity.role in g.roles.value
    ensures d.Forbidden? ==> g.JwtRoles?
  {
    var v := Authenticate(header, prior, verify, rows);
    match g
    case JwtAuth => AuthGuard(v)
    case JwtRoles(roles) => RolesGuard(roles, v)
  }

  /** A presented token that is refused by the verifier, or whose session row
      is gone, is 401 on every route, role-gated or not. */
  lemma DeadTokenIsUnauthorized(g: Guard, header: Option<string>, prior: Option<Identity>,
                                verify: Token -> Option<Identity>, rows: seq<Session>)
    requires ExtractToken(header).Some?
    requires var t := ExtractToken(header).value;
      verify(t).None? || !Live(rows, verify(t).value.userId, t)
    ensures Gate(g, header, prior, verify, rows) == Unauthorized
    ensures RefusalStatus(Gate(g, header, prior, verify, rows)) == UnAuthorized
  {
    assert Authenticate(header, prior, verify, rows) == Rejected;
  }

  /** With a verified token and a live session, the role-gated album routes
      refuse a VIEWER with 403 and admit an ADMIN or an EDITOR. */
  lemma AdminOrEditorDecides(header: Option<string>, prior: Option<Identity>,
                             verify: Token -> Option<Identity>, rows: seq<Session>, id: Identity)
    requires ExtractToken(header).Some?
    requires verify(ExtractToken(header).value) == Some(id)
    requires Live(rows, id.userId, ExtractToken(header).value)
    ensures Gate(AdminOrEditor, header, prior, verify, rows) ==
            if id.role == Viewer then Forbidden else Allowed(id)
    ensures id.role == Viewer ==> RefusalStatus(Gate(AdminOrEditor, header, prior, verify, rows)) == AccessForbidden
  {
  }

  /** Only an ADMIN passes the user-administration routes. */
  lemma AdminOnlyAdmitsOnlyAdmin(header: Option<string>, prior: Option<Identity>,
                                 verify: Token -> Option<Identity>, rows: seq<Session>)
    ensures Gate(AdminOnly, header, prior, verify, rows).Allowed? ==>
            Gate(AdminOnly, header, prior, verify, rows).identity.role == Admin
  {
  }

  /** After logging in, `Authorization: Bearer <token>` passes the gate as the
      logged-in identity, provided the verifier accepts what the signer made. */
  lemma LoginThenRequest(rows: seq<Session>, after: seq<Session>, cap: int, id: Identity, scheme: string,
                         sign: Identity -> Token, verify: Token -> Option<Identity>)
    requires verify(sign(id)) == Some(id)
    requires ' ' !in scheme && ' ' !in sign(id) && sign(id) != []
    requires !CreateFails(rows, cap, id.userId) && AfterCreate(rows, after, cap, id.userId, sign(id))
    ensures Gate(AnyUser, Some(scheme + " " + sign(id)), None, verify, after) == Allowed(id)
  {
    BearerHeader(scheme, sign(id));
  }

  /** After `logout` (deleteSession), the same token is refused with 401. */
  lemma LoggedOutTokenIsUnauthorized(g: Guard, scheme: string, t: Token, prior: Option<Identity>,
                                     verify: Token -> Option<Identity>, rows: seq<Session>)
    requires ' ' !in scheme && ' ' !in t && t != []
    requires verify(t).Some?
    ensures Gate(g, Some(scheme + " " + t), prior, verify,
                 WithoutSession(rows, verify(t).value.userId, t)) == Unauthorized
  {
    BearerHeader(scheme, t);
    DeadTokenIsUnauthorized(g, Some(scheme + " " + t), prior, verify,
                            WithoutSession(rows, verify(t).value.userId, t));
  }

  /** After `deleteAllSessions(u)`, every token whose claims name `u` is refused. */
  lemma RevokedUserIsUnauthorized(g: Guard, scheme: string, t: Token, prior: Option<Identity>,
                                  verify: Token -> Option<Identity>, rows: seq<Session>, u: Id)
    requires ' ' !in scheme && ' ' !in t && t != []
    requires verify(t).Some? && verify(t).value.userId == u
    ensures Gate(g, Some(scheme + " " + t), prior, verify, WithoutUser(rows, u)) == Unauthorized
  {
    BearerHeader(scheme, t);
    DeadTokenIsUnauthorized(g, Some(scheme + " " + t), prior, verify, WithoutUser(rows, u));
  }

  /** The session evicted by a login at the cap, whichever row of the user
      that is (`CreateAtCap`: the table becomes `RemoveAt(rows, i)` plus the
      new row), no longer opens any route. */
  lemma EvictedTokenIsUnauthorized(g: Guard, scheme: string, prior: Option<Identity>,
                                   verify: Token -> Option<Identity>, rows: seq<Session>,
                                   i: nat, u: Id, t: Token)
    requires Distinct(rows)
    requires RowOf(rows, u, i)
    requires var evicted := rows[i].token;
      evicted != t && ' ' !in scheme && ' ' !in evicted && evicted != [] &&
      verify(evicted).Some? && verify(evicted).value.userId == u
    ensures Gate(g, Some(scheme + " " + rows[i].token), prior, verify,
                 RemoveAt(rows, i) + [Session(u, t)]) == Unauthorized
  {
    var evicted := rows[i].token;
    EvictedIsNotLive(rows, i, u, t);
    BearerHeader(scheme, evicted);
    DeadTokenIsUnauthorized(g, Some(scheme + " " + evicted), prior, verify, RemoveAt(rows, i) + [Session(u, t)]);
  }
}
