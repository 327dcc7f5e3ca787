/** The user request bodies (src/api/user/dto/user.dto.ts): the transforms
    (`trim`, `toLowerCase`, `toUpperCase`) applied before validation, the
    password-policy regular expression, and the role enum of add-user. */
module UserDto {
  import opened Common

  /** JavaScript's `\s`, which is also the set `String.prototype.trim` strips. */
  predicate IsSpace(c: char)
  {
    ('\U{0009}' <= c <= '\U{000D}') || c == ' ' || c == '\U{00A0}' || c == '\U{1680}' ||
    ('\U{2000}' <= c <= '\U{200A}') || c == '\U{2028}' || c == '\U{2029}' ||
    c == '\U{202F}' || c == '\U{205F}' || c == '\U{3000}' || c == '\U{FEFF}'
  }

  /** The string without its leading whitespace. */
  function TrimStart(s: string): (r: string)
    ensures |r| <= |s| && r == s[|s| - |r|..]
    ensures forall k :: 0 <= k < |s| - |r| ==> IsSpace(s[k])
    ensures r != [] ==> !IsSpace(r[0])
  {
    if s != [] && IsSpace(s[0]) then TrimStart(s[1..]) else s
  }

  /** The string without its trailing whitespace. */
  function TrimEnd(s: string): (r: string)
    ensures |r| <= |s| && r == s[..|r|]
    ensures forall k :: |r| <= k < |s| ==> IsSpace(s[k])
    ensures r != [] ==> !IsSpace(r[|r| - 1])
  {
    if s != [] && IsSpace(s[|s| - 1]) then TrimEnd(s[..|s| - 1]) else s
  }

  /** `value.trim()`. */
  function Trim(s: string): string
  {
    TrimEnd(TrimStart(s))
  }

  /** A string with no whitespace at either end is its own trim. */
  lemma TrimmedIsFixed(s: string)
    requires s == [] || (!IsSpace(s[0]) && !IsSpace(s[|s| - 1]))
    ensures Trim(s) == s
  {
  }

  lemma TrimIdempotent(s: string)
    ensures Trim(Trim(s)) == Trim(s)
  {
    var t := Trim(s);
    if t != [] {
      var u := TrimStart(s);
      assert t == u[..|t|] && u != [] && u[0] == t[0];
    }
    TrimmedIsFixed(t);
  }

  function LowerChar(c: char): char
  {
    if 'A' <= c <= 'Z' then (c as int + 32) as char else c
  }

  function UpperChar(c: char): char
  {
    if 'a' <= c <= 'z' then (c as int - 32) as char else c
  }

  /** The string with `f` applied to every character. */
  function MapChars(s: string, f: char -> char): (r: string)
    ensures |r| == |s|
  {
    if s == [] then [] else [f(s[0])] + MapChars(s[1..], f)
  }

  /** `value.toLowerCase()`, on the ASCII letters. */
  function Lower(s: string): string
  {
    MapChars(s, LowerChar)
  }

  /** `value.toUpperCase()`, on the ASCII letters. */
  function Upper(s: string): string
  {
    MapChars(s, UpperChar)
  }

  lemma {:induction false} MapCharsAt(s: string, f: char -> char, k: nat)
    requires k < |s|
    ensures MapChars(s, f)[k] == f(s[k])
  {
    if k > 0 {
      MapCharsAt(s[1..], f, k - 1);
    }
  }

  lemma MapCharsSlice(s: string, f: char -> char, i: nat, j: nat)
    requires i <= j <= |s|
    ensures MapChars(s[i..j], f) == MapChars(s, f)[i..j]
  {
    forall k | 0 <= k < j - i
      ensures MapChars(s[i..j], f)[k] == MapChars(s, f)[i..j][k]
    {
      MapCharsAt(s[i..j], f, k);
      MapCharsAt(s, f, i + k);
    }
  }

  /** A character map that neither creates nor removes whitespace commutes
      with trimming at the front ... */
  lemma {:induction false} MapTrimStart(s: string, f: char -> char)
    requires forall c :: IsSpace(f(c)) <==> IsSpace(c)
    ensures MapChars(TrimStart(s), f) == TrimStart(MapChars(s, f))
  {
    if s != [] {
      var m := MapChars(s, f);
      assert m[0] == f(s[0]) && m[1..] == MapChars(s[1..], f);
      if IsSpace(s[0]) {
        MapTrimStart(s[1..], f);
      }
    }
  }

  /** ... and at the back. */
  lemma {:induction false} MapTrimEnd(s: string, f: char -> char)
    requires forall c :: IsSpace(f(c)) <==> IsSpace(c)
    ensures MapChars(TrimEnd(s), f) == TrimEnd(MapChars(s, f))
  {
    if s != [] {
      var n := |s| - 1;
      MapCharsAt(s, f, n);
      MapCharsSlice(s, f, 0, n);
      if IsSpace(s[n]) {
        MapTrimEnd(s[..n], f);
      }
    }
  }

  lemma MapTrimCommute(s: string, f: char -> char)
    requires forall c :: IsSpace(f(c)) <==> IsSpace(c)
    ensures MapChars(Trim(s), f) == Trim(MapChars(s, f))
  {
    MapTrimStart(s, f);
    MapTrimEnd(TrimStart(s), f);
  }

  lemma LowerKeepsSpace(c: char)
    ensures IsSpace(LowerChar(c)) <==> IsSpace(c)
  {
  }

  lemma UpperKeepsSpace(c: char)
    ensures IsSpace(UpperChar(c)) <==> IsSpace(c)
  {
  }

  /** Case mapping commutes with trimming, so the order in which the case
      `@Transform` and `@Trim` decorators run does not matter. */
  lemma LowerTrimCommute(s: string)
    ensures Lower(Trim(s)) == Trim(Lower(s))
  {
    forall c: char
      ensures IsSpace(LowerChar(c)) <==> IsSpace(c)
    {
      LowerKeepsSpace(c);
    }
    MapTrimCommute(s, LowerChar);
  }

  lemma UpperTrimCommute(s: string)
    ensures Upper(Trim(s)) == Trim(Upper(s))
  {
    forall c: char
      ensures IsSpace(UpperChar(c)) <==> IsSpace(c)
    {
      UpperKeepsSpace(c);
    }
    MapTrimCommute(s, UpperChar);
  }

  lemma {:induction false} LowerIdempotent(s: string)
    ensures Lower(Lower(s)) == Lower(s)
  {
    if s != [] {
      LowerIdempotent(s[1..]);
    }
  }

  /** The email transform: trimmed and lower-cased. */
  function NormalizeEmail(raw: string): string
  {
    Lower(Trim(raw))
  }

  /** Normalising an email twice changes nothing more. */
  lemma NormalizeEmailIdempotent(raw: string)
    ensures NormalizeEmail(NormalizeEmail(raw)) == NormalizeEmail(raw)
  {
    var t := Trim(raw);
    LowerTrimCommute(Lower(t));
    LowerTrimCommute(t);
    TrimIdempotent(raw);
    LowerIdempotent(t);
    LowerIdempotent(Trim(Lower(t)));
  }

  predicate IsLowerLetter(c: char) { 'a' <= c <= 'z' }
  predicate IsUpperLetter(c: char) { 'A' <= c <= 'Z' }
  predicate IsDigit(c: char) { '0' <= c <= '9' }
  /** The character class `[@#$%*_+<>/=-]`. */
  predicate IsSpecial(c: char) { c in "@#$%*_+<>/=-" }

  /** The regular expression
      `^(?=.*[a-z])(?=.*[A-Z])(?=.*\d)(?=.*[@#$%*_+<>/=-])[\S]{8,16}$`
      read as a property of the whole string. */
  ghost predicate PasswordPolicy(p: string)
  {
    8 <= |p| <= 16 &&
    (forall i :: 0 <= i < |p| ==> !IsSpace(p[i])) &&
    (exists i :: 0 <= i < |p| && IsLowerLetter(p[i])) &&
    (exists i :: 0 <= i < |p| && IsUpperLetter(p[i])) &&
    (exists i :: 0 <= i < |p| && IsDigit(p[i])) &&
    (exists i :: 0 <= i < |p| && IsSpecial(p[i]))
  }

  /** What one left-to-right pass over a password has seen so far. */
  datatype Seen = Seen(lower: bool, upper: bool, digit: bool, special: bool, space: bool)

  function Scan(p: string): (s: Seen)
    ensures s.lower <==> exists i :: 0 <= i < |p| && IsLowerLetter(p[i])
    ensures s.upper <==> exists i :: 0 <= i < |p| && IsUpperLetter(p[i])
    ensures s.digit <==> exists i :: 0 <= i < |p| && IsDigit(p[i])
    ensures s.special <==> exists i :: 0 <= i < |p| && IsSpecial(p[i])
    ensures s.space <==> exists i :: 0 <= i < |p| && IsSpace(p[i])
  {
    if p == [] then Seen(false, false, false, false, false)
    else
      var c, r := p[0], Scan(p[1..]);
      assert forall i :: 1 <= i < |p| ==> p[i] == p[1..][i - 1];
      Seen(r.lower || IsLowerLetter(c), r.upper || IsUpperLetter(c), r.digit || IsDigit(c),
           r.special || IsSpecial(c), r.space || IsSpace(c))
  }

  /** The `@Matches` check, evaluated in one pass. */
  function ValidPassword(p: string): (ok: bool)
    ensures ok <==> PasswordPolicy(p)
  {
    var s := Scan(p);
    8 <= |p| <= 16 && s.lower && s.upper && s.digit && s.special && !s.space
  }

  /** A password field: trimmed, then matched against the policy. */
  function ParsePassword(raw: string): (r: Option<string>)
    ensures r.Some? <==> PasswordPolicy(Trim(raw))
    ensures r.Some? ==> r.value == Trim(raw) && r.value != []
  {
    var p := Trim(raw);
    if ValidPassword(p) then Some(p) else None
  }

  /** An email field: trimmed and lower-cased, then required non-empty. */
  function ParseEmail(raw: string): (r: Option<string>)
    ensures r.Some? <==> Trim(raw) != []
    ensures r.Some? ==> r.value == NormalizeEmail(raw) && r.value != []
  {
    var e := NormalizeEmail(raw);
    if e != [] then Some(e) else None
  }

  /** The roles the add-user body can name: the DTO's own `Role` enum lists
      only EDITOR and VIEWER. */
  type AssignableRole = r: Role | r != Admin witness Editor

  /** The add-user role field: trimmed, upper-cased, and a member of that enum. */
  function ParseAddRole(raw: string): (r: Option<AssignableRole>)
    ensures r == Some(Editor) <==> Upper(Trim(raw)) == "EDITOR"
    ensures r == Some(Viewer) <==> Upper(Trim(raw)) == "VIEWER"
  {
    var name := Upper(Trim(raw));
    if name == "EDITOR" then Some(Editor)
    else if name == "VIEWER" then Some(Viewer)
    else None
  }

  datatype SignupDto = SignupDto(email: string, password: string)
  datatype AddUserDto = AddUserDto(email: string, password: string, role: AssignableRole)
  datatype LoginDto = LoginDto(email: string, password: string)
  datatype UpdatePasswordDto = UpdatePasswordDto(newPassword: string, oldPassword: string)

  function ParseSignup(email: string, password: string): (r: Option<SignupDto>)
    ensures r.Some? <==> Trim(email) != [] && PasswordPolicy(Trim(password))
    ensures r.Some? ==> r.value.email != [] && PasswordPolicy(r.value.password)
  {
    match (ParseEmail(email), ParsePassword(password))
    case (Some(e), Some(p)) => Some(SignupDto(e, p))
    case _ => None
  }

  function ParseAddUser(email: string, password: string, role: string): (r: Option<AddUserDto>)
    ensures r.Some? <==> Trim(email) != [] && PasswordPolicy(Trim(password)) && ParseAddRole(role).Some?
    ensures r.Some? ==> r.value.email != [] && PasswordPolicy(r.value.password)
    ensures r.Some? ==> r.value.role == if Upper(Trim(role)) == "EDITOR" then Editor else Viewer
  {
    match (ParseEmail(email), ParsePassword(password), ParseAddRole(role))
    case (Some(e), Some(p), Some(ro)) => Some(AddUserDto(e, p, ro))
    case _ => None
  }

  function ParseLogin(email: string, password: string): (r: Option<LoginDto>)
    ensures r.Some? <==> Trim(email) != [] && PasswordPolicy(Trim(password))
    ensures r.Some? ==> r.value.email != [] && PasswordPolicy(r.value.password)
  {
    match (ParseEmail(email), ParsePassword(password))
    case (Some(e), Some(p)) => Some(LoginDto(e, p))
    case _ => None
  }

  function ParseUpdatePassword(newPassword: string, oldPassword: string): (r: Option<UpdatePasswordDto>)
    ensures r.Some? <==> PasswordPolicy(Trim(newPassword)) && PasswordPolicy(Trim(oldPassword))
    ensures r.Some? ==> PasswordPolicy(r.value.newPassword) && PasswordPolicy(r.value.oldPassword)
  {
    match (ParsePassword(newPassword), ParsePassword(oldPassword))
    case (Some(n), Some(o)) => Some(UpdatePasswordDto(n, o))
    case _ => None
  }
}
