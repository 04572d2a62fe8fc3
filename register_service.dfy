/** The sign-up validators of the back end: `validate_username` and
    `validate_password`, each a falsy check followed by `re.match` on an
    anchored pattern. Python's `$` also matches just before one final `"\n"`,
    so both accept a valid string followed by a single newline. */
module RegisterService {
  import opened Text

  /** `re.match(r'^P$', s)` for a pattern `P` that cannot match a newline:
      `s` itself matches `P`, or `s` is a match of `P` followed by one `"\n"`. */
  predicate AnchoredMatch(s: string, body: string -> bool) {
    body(s) || (s != [] && s[|s| - 1] == '\n' && body(s[..|s| - 1]))
  }

  predicate IsWordChar(c: char) {
    IsAsciiAlnum(c) || c == '_'
  }

  /** `[a-zA-Z][a-zA-Z0-9_]{2,19}`. */
  predicate UsernameBody(s: string) {
    3 <= |s| <= 20 && IsAsciiLetter(s[0]) && forall k :: 1 <= k < |s| ==> IsWordChar(s[k])
  }

  /** `validate_username(username)`: a missing or empty name is refused. */
  function ValidateUsername(username: Option<string>): (ok: bool)
    ensures username == None || username == Some("") ==> !ok
  {
    match username
    case None => false
    case Some(s) => s != "" && AnchoredMatch(s, UsernameBody)
  }

  /** An accepted name is a letter, then two to nineteen letters, digits or
      underscores, possibly followed by one newline; and every such name is
      accepted. */
  lemma ValidateUsernameExactly(s: string)
    ensures ValidateUsername(Some(s)) <==>
      || UsernameBody(s)
      || (|s| >= 4 && s[|s| - 1] == '\n' && UsernameBody(s[..|s| - 1]))
    ensures ValidateUsername(Some(s)) ==> 3 <= |s| <= 21 && IsAsciiLetter(s[0])
    ensures ValidateUsername(Some(s)) && '\n' !in s ==> 3 <= |s| <= 20 && forall k :: 0 <= k < |s| ==> IsWordChar(s[k])
  {
  }

  /** A valid name with one trailing newline passes; with two it does not. */
  lemma UsernameTrailingNewline()
    ensures ValidateUsername(Some("ana\n"))
    ensures !ValidateUsername(Some("ana\n\n"))
    ensures !ValidateUsername(Some("1ana"))
  {
    assert "ana\n"[..3] == "ana";
    assert "ana\n\n"[..4] == "ana\n";
    assert !IsWordChar("ana\n\n"[4]);
  }

  // ------------------------------------------------------------ password

  /** `[@$!%*?&]`. */
  predicate IsSpecial(c: char) {
    c == '@' || c == '$' || c == '!' || c == '%' || c == '*' || c == '?' || c == '&'
  }

  /** `\d` of a `str` pattern: any Unicode decimal digit. There are none
      between U+0080 and U+00FF; above that the Unicode database is the
      parameter `wideDecimal`. */
  predicate IsRegexDigit(c: char, wideDecimal: char -> bool) {
    IsAsciiDigit(c) || (c as int >= 0x100 && wideDecimal(c))
  }

  predicate IsPasswordChar(c: char, wideDecimal: char -> bool) {
    IsAsciiLetter(c) || IsRegexDigit(c, wideDecimal) || IsSpecial(c)
  }

  predicate HasDigit(s: string, wideDecimal: char -> bool) { exists k :: 0 <= k < |s| && IsRegexDigit(s[k], wideDecimal) }
  predicate HasSpecial(s: string) { exists k :: 0 <= k < |s| && IsSpecial(s[k]) }

  /** `(?=.*[a-z])(?=.*[A-Z])(?=.*\d)(?=.*[@$!%*?&])[A-Za-z\d@$!%*?&]{8,}`: the
      look-aheads scan only up to the first newline, and the body admits
      none, so they are checked on the body itself. */
  predicate PasswordBody(s: string, wideDecimal: char -> bool) {
    && |s| >= 8
    && (forall k :: 0 <= k < |s| ==> IsPasswordChar(s[k], wideDecimal))
    && HasLower(s) && HasUpper(s) && HasDigit(s, wideDecimal) && HasSpecial(s)
  }

  /** `validate_password(password)`: refused when missing or empty, when
      shorter than 8 characters, and when the pattern does not match. */
  function ValidatePassword(password: Option<string>, wideDecimal: char -> bool): (ok: bool)
    ensures ok ==> password.Some? && |password.value| >= 8
  {
    match password
    case None => false
    case Some(s) =>
      s != "" && |s| >= 8 && AnchoredMatch(s, b => PasswordBody(b, wideDecimal))
  }

  /** An accepted password holds a lower-case letter, an upper-case letter, a
      digit and one of `@$!%*?&`, and nothing but letters, digits and those
      symbols, apart from one optional final newline; every string with those
      properties and at least 8 characters is accepted. */
  lemma ValidatePasswordExactly(s: string, wideDecimal: char -> bool)
    ensures ValidatePassword(Some(s), wideDecimal) <==>
      || PasswordBody(s, wideDecimal)
      || (s != [] && s[|s| - 1] == '\n' && PasswordBody(s[..|s| - 1], wideDecimal))
    ensures ValidatePassword(Some(s), wideDecimal) ==>
      var body := if s[|s| - 1] == '\n' then s[..|s| - 1] else s;
      && HasLower(body) && HasUpper(body) && HasDigit(body, wideDecimal) && HasSpecial(body)
      && forall k :: 0 <= k < |body| ==> IsPasswordChar(body[k], wideDecimal)
  {
  }
}
