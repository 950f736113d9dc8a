/**
 * The server's account-input helpers: e-mail and nickname normalisation,
 * the nickname pattern, and the order in which registration rejects its
 * inputs.
 */
module Accounts {
  import opened Wrappers

  /** The white-space and line-terminator characters that String.prototype.trim removes. */
  predicate IsSpace(c: char)
  {
    || ('\U{0009}' <= c <= '\U{000D}') || c == ' ' || c == '\U{00A0}' || c == '\U{1680}'
    || ('\U{2000}' <= c <= '\U{200A}') || c == '\U{2028}' || c == '\U{2029}'
    || c == '\U{202F}' || c == '\U{205F}' || c == '\U{3000}' || c == '\U{FEFF}'
  }

  /** `s` without its leading white space. */
  function TrimStart(s: string): string
  {
    if s == [] || !IsSpace(s[0]) then s else TrimStart(s[1..])
  }

  /** TrimStart removes a prefix of white space only, and stops at the first other character. */
  lemma {:induction false} TrimStartSpec(s: string)
    ensures var r := TrimStart(s);
      && |r| <= |s| && r == s[|s| - |r|..]
      && (forall k :: 0 <= k < |s| - |r| ==> IsSpace(s[k]))
      && (r == [] || !IsSpace(r[0]))
  {
    if s != [] && IsSpace(s[0]) {
      TrimStartSpec(s[1..]);
    }
  }

  /** `s` without its trailing white space. */
  function TrimEnd(s: string): string
  {
    if s == [] || !IsSpace(s[|s| - 1]) then s else TrimEnd(s[..|s| - 1])
  }

  /** TrimEnd removes a suffix of white space only, and stops at the last other character. */
  lemma {:induction false} TrimEndSpec(s: string)
    ensures var r := TrimEnd(s);
      && |r| <= |s| && r == s[..|r|]
      && (forall k :: |r| <= k < |s| ==> IsSpace(s[k]))
      && (r == [] || !IsSpace(r[|r| - 1]))
  {
    if s != [] && IsSpace(s[|s| - 1]) {
      TrimEndSpec(s[..|s| - 1]);
    }
  }

  /** `s` without leading and trailing white space. */
  function Trim(s: string): string
  {
    TrimEnd(TrimStart(s))
  }

  /**
   * Trim keeps the middle part of `s` that starts after the leading white
   * space, removes only white space, and what it keeps neither starts nor
   * ends with white space.
   */
  lemma TrimSpec(s: string)
    ensures var i, r := |s| - |TrimStart(s)|, Trim(s);
      && 0 <= i && i + |r| <= |s| && r == s[i..i + |r|]
      && (forall k :: 0 <= k < i ==> IsSpace(s[k]))
      && (forall k :: i + |r| <= k < |s| ==> IsSpace(s[k]))
      && (r == [] || (!IsSpace(r[0]) && !IsSpace(r[|r| - 1])))
  {
    var t := TrimStart(s);
    var r := TrimEnd(t);
    TrimStartSpec(s);
    TrimEndSpec(t);
    var i := |s| - |t|;
    assert t == s[i..];
    assert r == t[..|r|];
    forall k | i + |r| <= k < |s|
      ensures IsSpace(s[k])
    {
      assert s[k] == t[k - i];
    }
    if r != [] {
      assert r[0] == t[0];
    }
  }

  /** A string that neither starts nor ends with white space is its own trim. */
  lemma TrimmedIsFixed(r: string)
    requires r == [] || (!IsSpace(r[0]) && !IsSpace(r[|r| - 1]))
    ensures Trim(r) == r
  {
    assert TrimStart(r) == r;
  }

  /** Trimming twice is trimming once. */
  lemma TrimIdempotent(s: string)
    ensures Trim(Trim(s)) == Trim(s)
  {
    TrimSpec(s);
    TrimmedIsFixed(Trim(s));
  }

  /** Lower-casing of one character (the ASCII letters A-Z; every other character is kept). */
  function LowerChar(c: char): (d: char)
    ensures 'A' <= c <= 'Z' ==> 'a' <= d <= 'z' && d as int == c as int + 32
    ensures !('A' <= c <= 'Z') ==> d == c
  {
    if 'A' <= c <= 'Z' then (c as int - 'A' as int + 'a' as int) as char else c
  }

  function ToLower(s: string): (r: string)
    ensures |r| == |s|
    ensures forall k :: 0 <= k < |r| ==> !('A' <= r[k] <= 'Z')
    ensures forall k :: 0 <= k < |s| && !('A' <= s[k] <= 'Z') ==> r[k] == s[k]
    ensures forall k :: 0 <= k < |s| && 'A' <= s[k] <= 'Z' ==> r[k] as int == s[k] as int + 32
  {
    seq(|s|, k requires 0 <= k < |s| => LowerChar(s[k]))
  }

  /** The text of an optional request field: a missing field reads as the empty string. */
  function FieldText(v: Option<string>): string
  {
    if v.Some? then v.value else ""
  }

  /** A request's e-mail address as stored: trimmed and lower-cased. */
  function NormalizeEmail(email: Option<string>): string
  {
    ToLower(Trim(FieldText(email)))
  }

  /** A request's nickname as stored: trimmed, case kept. */
  function NormalizeUsername(username: Option<string>): string
  {
    Trim(FieldText(username))
  }

  /**
   * A normalised address has no upper-case ASCII letter and no surrounding
   * white space, and is the lower-cased trim of the input.
   */
  lemma NormalizeEmailSpec(email: Option<string>)
    ensures var r := NormalizeEmail(email);
      && |r| == |Trim(FieldText(email))|
      && (forall k :: 0 <= k < |r| ==> !('A' <= r[k] <= 'Z'))
      && (r == [] || (!IsSpace(r[0]) && !IsSpace(r[|r| - 1])))
  {
    TrimSpec(FieldText(email));
  }

  /** Normalising a normalised address changes nothing. */
  lemma NormalizeEmailIdempotent(email: Option<string>)
    ensures NormalizeEmail(Some(NormalizeEmail(email))) == NormalizeEmail(email)
  {
    var t := Trim(FieldText(email));
    var r := ToLower(t);
    TrimSpec(FieldText(email));
    if r != [] {
      LowerKeepsSpace(t[0]);
      LowerKeepsSpace(t[|t| - 1]);
    }
    TrimmedIsFixed(r);
    assert ToLower(r) == r;
  }

  /** Lower-casing neither creates nor removes white space. */
  lemma LowerKeepsSpace(c: char)
    ensures IsSpace(LowerChar(c)) == IsSpace(c)
  {
  }

  /** Normalising a normalised nickname changes nothing, and the case of letters is kept. */
  lemma NormalizeUsernameIdempotent(username: Option<string>)
    ensures NormalizeUsername(Some(NormalizeUsername(username))) == NormalizeUsername(username)
  {
    TrimIdempotent(FieldText(username));
  }

  /** A character the nickname pattern allows: an ASCII letter, a digit or '_'. */
  predicate IsNickChar(c: char)
  {
    ('a' <= c <= 'z') || ('A' <= c <= 'Z') || ('0' <= c <= '9') || c == '_'
  }

  /** The length of the longest prefix of `s` made of nickname characters. */
  function NickPrefix(s: string): (n: nat)
    ensures n <= |s|
    ensures forall k :: 0 <= k < n ==> IsNickChar(s[k])
    ensures n < |s| ==> !IsNickChar(s[n])
  {
    if s == [] || !IsNickChar(s[0]) then 0 else 1 + NickPrefix(s[1..])
  }

  /**
   * The anchored pattern: the nickname characters run to the end of the
   * string and number between 2 and 20.
   */
  function ValidUsername(s: string): (b: bool)
    ensures b <==> 2 <= |s| <= 20 && forall k :: 0 <= k < |s| ==> IsNickChar(s[k])
  {
    var n := NickPrefix(s);
    n == |s| && 2 <= n <= 20
  }

  datatype RegisterError = InvalidNick | InvalidEmail | ShortPassword

  /** The fields a registration goes on with once its inputs are accepted. */
  datatype Registration = Registration(email: string, username: string, password: string)

  /**
   * The input checks of registration, in order: the nickname, then the
   * e-mail (non-empty and containing '@'), then the password (at least 4
   * characters). The first failing check decides the error.
   */
  function RegisterCheck(email: Option<string>, password: Option<string>, username: Option<string>): (r: Result<Registration, RegisterError>)
    ensures r.Ok? ==> r.value == Registration(NormalizeEmail(email), NormalizeUsername(username), FieldText(password))
  {
    var e := NormalizeEmail(email);
    var p := FieldText(password);
    var u := NormalizeUsername(username);
    if u == [] || !ValidUsername(u) then Err(InvalidNick)
    else if e == [] || '@' !in e then Err(InvalidEmail)
    else if |p| < 4 then Err(ShortPassword)
    else Ok(Registration(e, u, p))
  }

  /** Each error is reported exactly when its check fails and every earlier check passed. */
  lemma RegisterCheckOrder(email: Option<string>, password: Option<string>, username: Option<string>)
    ensures var r := RegisterCheck(email, password, username);
      var nickOk := ValidUsername(NormalizeUsername(username));
      var emailOk := '@' in NormalizeEmail(email);
      var passwordOk := |FieldText(password)| >= 4;
      && (r == Err(InvalidNick) <==> !nickOk)
      && (r == Err(InvalidEmail) <==> nickOk && !emailOk)
      && (r == Err(ShortPassword) <==> nickOk && emailOk && !passwordOk)
      && (r.Ok? <==> nickOk && emailOk && passwordOk)
  {
  }

  /** An accepted registration stores a nickname of the pattern and an address with '@'. */
  lemma RegisteredIsWellFormed(email: Option<string>, password: Option<string>, username: Option<string>)
    requires RegisterCheck(email, password, username).Ok?
    ensures var reg := RegisterCheck(email, password, username).value;
      && 2 <= |reg.username| <= 20
      && (forall k :: 0 <= k < |reg.username| ==> IsNickChar(reg.username[k]))
      && '@' in reg.email && |reg.password| >= 4
      && NormalizeEmail(Some(reg.email)) == reg.email
  {
    NormalizeEmailIdempotent(email);
  }

  /** The nickname pattern's limits, and a nickname of white space only rejected first. */
  lemma RegisterExamples()
    ensures ValidUsername("ab") && ValidUsername("Neo_1") && !ValidUsername("a") && !ValidUsername("a-b")
    ensures RegisterCheck(Some("x@y"), Some("abcd"), Some(" ")) == Err(InvalidNick)
  {
    assert !IsNickChar('-');
    assert TrimStart(" ") == "";
  }
}
