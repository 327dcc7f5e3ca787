/** `JwtAuthService` (src/utils/jwt/jwt.service.ts): bearer-token extraction
    from the `Authorization` header, verification by an opaque verifier, and
    the session-liveness check that must follow it. */
module Auth {
  import opened Common
  import opened Sessions

  /** The claims a token carries: `{ userId, role }`. */
  datatype Identity = Identity(userId: Id, role: Role)

  /** JavaScript's `s.split(sep)` for a one-character separator: the maximal
      separator-free fields, empty ones included. */
  function Split(s: string, sep: char): (fields: seq<string>)
    ensures |fields| >= 1
    ensures forall f :: f in fields ==> sep !in f
  {
    if s == [] then [[]]
    else
      var rest := Split(s[1..], sep);
      if s[0] == sep then [[]] + rest
      else [[s[0]] + rest[0]] + rest[1..]
  }

  /** `fields.join(sep)`, the inverse of `Split`. */
  function Join(fields: seq<string>, sep: char): string
    requires |fields| >= 1
  {
    if |fields| == 1 then fields[0] else fields[0] + [sep] + Join(fields[1..], sep)
  }

  lemma {:induction false} SplitJoin(s: string, sep: char)
    ensures Join(Split(s, sep), sep) == s
  {
    if s != [] {
      var rest := Split(s[1..], sep);
      SplitJoin(s[1..], sep);
      if s[0] == sep {
        assert ([[]] + rest)[1..] == rest;
      } else if |rest| > 1 {
        var fields := [[s[0]] + rest[0]] + rest[1..];
        assert fields[1..] == rest[1..];
        assert Join(rest, sep) == rest[0] + [sep] + Join(rest[1..], sep);
      }
    }
  }

  lemma {:induction false} SplitWord(w: string, sep: char)
    requires sep !in w
    ensures Split(w, sep) == [w]
  {
    if w != [] {
      assert w[0] in w && [w[0]] + w[1..] == w;
      SplitWord(w[1..], sep);
    }
  }

  lemma {:induction false} SplitAfterWord(w: string, sep: char, tail: string)
    requires sep !in w
    ensures Split(w + [sep] + tail, sep) == [w] + Split(tail, sep)
  {
    var s := w + [sep] + tail;
    if w == [] {
      assert s[1..] == tail;
    } else {
      assert s[1..] == w[1..] + [sep] + tail;
      assert s[0] == w[0] && w[0] in w && [w[0]] + w[1..] == w;
      SplitAfterWord(w[1..], sep, tail);
      var rest := Split(s[1..], sep);
      assert rest[1..] == Split(tail, sep);
    }
  }

  lemma {:induction false} JoinSplit(fields: seq<string>, sep: char)
    requires |fields| >= 1
    requires forall f :: f in fields ==> sep !in f
    ensures Split(Join(fields, sep), sep) == fields
  {
    if |fields| == 1 {
      SplitWord(fields[0], sep);
    } else {
      assert fields[0] in fields;
      assert forall f :: f in fields[1..] ==> f in fields;
      JoinSplit(fields[1..], sep);
      SplitAfterWord(fields[0], sep, Join(fields[1..], sep));
    }
  }

  /** `req.headers['authorization']?.split(' ')[1]`, kept only when truthy: an
      absent header, a header with no space and an empty second field all
      give no token. */
  function ExtractToken(header: Option<string>): (t: Option<Token>)
    ensures t.Some? ==> t.value != [] && ' ' !in t.value
  {
    match header
    case None => None
    case Some(h) =>
      var fields := Split(h, ' ');
      if |fields| >= 2 && fields[1] != [] then Some(fields[1]) else None
  }

  /** The token is the second space-separated field, whatever the first one. */
  lemma TokenIsSecondField(fields: seq<string>)
    requires |fields| >= 2 && fields[1] != []
    requires forall f :: f in fields ==> ' ' !in f
    ensures ExtractToken(Some(Join(fields, ' '))) == Some(fields[1])
  {
    JoinSplit(fields, ' ');
  }

  /** `Authorization: <scheme> <token>` yields the token for any scheme word. */
  lemma BearerHeader(scheme: string, token: Token)
    requires ' ' !in scheme && ' ' !in token && token != []
    ensures ExtractToken(Some(scheme + " " + token)) == Some(token)
  {
    var fields := [scheme, token];
    assert Join(fields, ' ') == scheme + " " + token by {
      assert fields[1..] == [token];
    }
    TokenIsSecondField(fields);
  }

  /** What `validate` ends with: it returns `req.user` (possibly absent), or
      throws the UNAUTHORIZED error. */
  datatype Validation = Validated(user: Option<Identity>) | Rejected

  /** The outcome of `validate` on a request whose header is `header` and whose
      `user` was `prior`, with `verify` standing for `jwtService.verifyAsync`
      (`None` when it throws) and `rows` the session table. */
  function Authenticate(header: Option<string>, prior: Option<Identity>,
                        verify: Token -> Option<Identity>, rows: seq<Session>): (v: Validation)
    ensures ExtractToken(header).None? ==> v == Validated(prior)
    ensures v.Rejected? ==> ExtractToken(header).Some?
    ensures ExtractToken(header).Some? && v.Validated? ==>
      var t := ExtractToken(header).value;
      v.user.Some? && verify(t) == v.user && Live(rows, v.user.value.userId, t)
    ensures ExtractToken(header).Some? && verify(ExtractToken(header).value).Some? &&
            Live(rows, verify(ExtractToken(header).value).value.userId, ExtractToken(header).value)
            ==> v == Validated(verify(ExtractToken(header).value))
  {
    match ExtractToken(header)
    case None => Validated(prior)
    case Some(t) =>
      match verify(t)
      case None => Rejected
      case Some(claims) => if Live(rows, claims.userId, t) then Validated(Some(claims)) else Rejected
  }

  /** The incoming request as `validate` sees it: a fixed header and a
      mutable `user` slot. */
  class Request {
    const authorization: Option<string>
    var user: Option<Identity>

    constructor (authorization: Option<string>, user: Option<Identity>)
      ensures this.authorization == authorization && this.user == user
    {
      this.authorization := authorization;
      this.user := user;
    }
  }

  /** `JwtAuthService`. `sign` and `verify` stand for `@nestjs/jwt` under the
      process-wide secret and expiry; token expiry lives inside `verify`. */
  class JwtAuthService {
    const sign: Identity -> Token
    const verify: Token -> Option<Identity>
    const sessions: SessionStore

    constructor (sign: Identity -> Token, verify: Token -> Option<Identity>, sessions: SessionStore)
      ensures this.sign == sign && this.verify == verify && this.sessions == sessions
    {
      this.sign := sign;
      this.verify := verify;
      this.sessions := sessions;
    }

    /** `createToken`: the abstract signer applied to the claims. */
    method CreateToken(payload: Identity) returns (token: Token)
      ensures token == sign(payload)
    {
      token := sign(payload);
    }

    /** `validate`: with a token, verify it and require a live session row
        for `(claims.userId, token)`, then store the claims in `req.user`;
        without one, hand back `req.user` as it was. Every failure is the
        same rejection and leaves `req.user` alone. */
    method Validate(req: Request) returns (v: Validation)
      modifies req
      ensures v == Authenticate(req.authorization, old(req.user), verify, sessions.rows)
      ensures req.user == if v.Validated? then v.user else old(req.user)
    {
      var token := ExtractToken(req.authorization);
      if token.Some? {
        var claims := verify(token.value);
        if claims.None? {
          // `verifyAsync` threw
          return Rejected;
        }
        var live := sessions.ValidateSession(claims.value.userId, token.value);
        if !live {
          return Rejected;
        }
        req.user := claims;
      }
      v := Validated(req.user);
    }
  }
}
