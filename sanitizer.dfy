/** The front-end sanitisers: `sanitizeHtml`, which escapes the five HTML
    metacharacters, and `sanitizeInput`, which trims, truncates and strips
    angle brackets. */
module Sanitizer {
  import opened Text
  import opened JsValue

  /** The entity `sanitizeHtml` writes for a character. */
  function Entity(c: char): (e: string)
    ensures |e| >= 1
  {
    if c == '&' then "&amp;"
    else if c == '<' then "&lt;"
    else if c == '>' then "&gt;"
    else if c == '"' then "&quot;"
    else if c == '\'' then "&#039;"
    else [c]
  }

  predicate IsHtmlSpecial(c: char) {
    c == '&' || c == '<' || c == '>' || c == '"' || c == '\''
  }

  function EscapeHtml(s: string): (r: string)
    ensures |r| >= |s|
    ensures forall k :: 0 <= k < |r| ==> r[k] != '<' && r[k] != '>' && r[k] != '"' && r[k] != '\''
  {
    if s == [] then "" else Entity(s[0]) + EscapeHtml(s[1..])
  }

  /** `sanitizeHtml(dirty)`: `''` for a falsy or non-string argument. */
  function SanitizeHtml(dirty: Value): (r: string)
    ensures !dirty.Str? || dirty.s == "" ==> r == ""
    ensures dirty.Str? ==> |r| >= |dirty.s|
    ensures forall k :: 0 <= k < |r| ==> r[k] != '<' && r[k] != '>' && r[k] != '"' && r[k] != '\''
  {
    if !Truthy(dirty) || !dirty.Str? then "" else EscapeHtml(dirty.s)
  }

  /** Text without metacharacters passes unchanged. */
  lemma {:induction false} EscapeHtmlIdentity(s: string)
    requires forall k :: 0 <= k < |s| ==> !IsHtmlSpecial(s[k])
    ensures EscapeHtml(s) == s
  {
    if s != [] {
      EscapeHtmlIdentity(s[1..]);
      assert s == [s[0]] + s[1..];
    }
  }

  /** Decoding of the five entities `sanitizeHtml` writes, the reference the
      escaping is checked against. */
  function UnescapeHtml(t: string): string
    decreases |t|
  {
    if t == [] then ""
    else if IsPrefix("&amp;", t) then "&" + UnescapeHtml(t[5..])
    else if IsPrefix("&lt;", t) then "<" + UnescapeHtml(t[4..])
    else if IsPrefix("&gt;", t) then ">" + UnescapeHtml(t[4..])
    else if IsPrefix("&quot;", t) then "\"" + UnescapeHtml(t[6..])
    else if IsPrefix("&#039;", t) then "'" + UnescapeHtml(t[6..])
    else [t[0]] + UnescapeHtml(t[1..])
  }

  /** Escaping loses nothing: decoding the entities gives the text back. */
  lemma {:induction false} EscapeHtmlRoundTrip(s: string)
    ensures UnescapeHtml(EscapeHtml(s)) == s
  {
    if s != [] {
      EscapeHtmlRoundTrip(s[1..]);
      UnescapeEntity(s[0], EscapeHtml(s[1..]));
      assert s == [s[0]] + s[1..];
    }
  }

  /** Decoding reads the entity of one character back as that character. */
  lemma UnescapeEntity(c: char, rest: string)
    ensures UnescapeHtml(Entity(c) + rest) == [c] + UnescapeHtml(rest)
  {
    if !IsHtmlSpecial(c) {
      UnescapePlain(c, rest);
    } else if c == '&' {
      UnescapeAmp(rest);
    } else if c == '<' {
      UnescapeLt(rest);
    } else if c == '>' {
      UnescapeGt(rest);
    } else if c == '"' {
      UnescapeQuot(rest);
    } else {
      UnescapeApos(rest);
    }
  }

  lemma UnescapePlain(c: char, rest: string)
    requires !IsHtmlSpecial(c)
    ensures UnescapeHtml([c] + rest) == [c] + UnescapeHtml(rest)
  {
    var t := [c] + rest;
    assert t[0] == c && t[1..] == rest;
  }

  lemma UnescapeAmp(rest: string)
    ensures UnescapeHtml("&amp;" + rest) == "&" + UnescapeHtml(rest)
  {
    var t := "&amp;" + rest;
    assert IsPrefix("&amp;", t) && t[5..] == rest;
  }

  lemma UnescapeLt(rest: string)
    ensures UnescapeHtml("&lt;" + rest) == "<" + UnescapeHtml(rest)
  {
    var t := "&lt;" + rest;
    assert !IsPrefix("&amp;", t) by { assert t[1] == 'l'; }
    assert IsPrefix("&lt;", t) && t[4..] == rest;
  }

  lemma UnescapeGt(rest: string)
    ensures UnescapeHtml("&gt;" + rest) == ">" + UnescapeHtml(rest)
  {
    var t := "&gt;" + rest;
    assert !IsPrefix("&amp;", t) && !IsPrefix("&lt;", t) by { assert t[1] == 'g'; }
    assert IsPrefix("&gt;", t) && t[4..] == rest;
  }

  lemma UnescapeQuot(rest: string)
    ensures UnescapeHtml("&quot;" + rest) == "\"" + UnescapeHtml(rest)
  {
    var t := "&quot;" + rest;
    assert !IsPrefix("&amp;", t) && !IsPrefix("&lt;", t) && !IsPrefix("&gt;", t) by { assert t[1] == 'q'; }
    assert IsPrefix("&quot;", t) && t[6..] == rest;
  }

  lemma UnescapeApos(rest: string)
    ensures UnescapeHtml("&#039;" + rest) == "'" + UnescapeHtml(rest)
  {
    var t := "&#039;" + rest;
    assert !IsPrefix("&amp;", t) && !IsPrefix("&lt;", t) && !IsPrefix("&gt;", t) by { assert t[1] == '#'; }
    assert !IsPrefix("&quot;", t) by { assert t[1] == '#'; }
    assert IsPrefix("&#039;", t) && t[6..] == rest;
  }

  // ------------------------------------------------------------ sanitizeInput

  /** `.replace(/[<>]/g, '')`. */
  function StripAngles(s: string): (r: string)
    ensures |r| <= |s|
    ensures forall k :: 0 <= k < |r| ==> r[k] != '<' && r[k] != '>'
  {
    if s == [] then ""
    else (if s[0] == '<' || s[0] == '>' then "" else [s[0]]) + StripAngles(s[1..])
  }

  /** The limit `substring(0, maxLength)` applies; an absent argument is the
      default 500. */
  function LimitOf(maxLength: Value, rt: Runtime): int {
    if maxLength.Undefined? then 500 else ToInteger(maxLength, rt)
  }

  /** `sanitizeInput(input, maxLength)`: `''` for a falsy or non-string
      input; otherwise trimmed, cut to `maxLength` characters, then stripped
      of `<` and `>`. */
  function SanitizeInput(input: Value, maxLength: Value, rt: Runtime): (r: string)
    ensures !input.Str? || input.s == "" ==> r == ""
    ensures forall k :: 0 <= k < |r| ==> r[k] != '<' && r[k] != '>'
    ensures |r| <= (if LimitOf(maxLength, rt) < 0 then 0 else LimitOf(maxLength, rt))
    ensures input.Str? ==> r == StripAngles(Take(Trim(input.s), LimitOf(maxLength, rt)))
  {
    if !Truthy(input) || !input.Str? then ""
    else StripAngles(Take(Trim(input.s), LimitOf(maxLength, rt)))
  }

  /** Trimming before the call changes nothing: the input is trimmed
      again. */
  lemma SanitizeInputOfTrimmed(s: string, maxLength: Value, rt: Runtime)
    ensures SanitizeInput(Str(Trim(s)), maxLength, rt) == SanitizeInput(Str(s), maxLength, rt)
  {
    TrimIdempotent(s);
  }

  /** An options object where a number is expected converts to `NaN`, the
      limit to 0, and the result is always empty. */
  lemma SanitizeInputWithOptionsObject(input: Value, options: map<string, Value>, rt: Runtime)
    ensures SanitizeInput(input, Obj(options), rt) == ""
  {
  }

  /** Text that needs no trimming, is within the limit and has no angle
      brackets comes back unchanged. */
  lemma {:induction false} SanitizeInputKeepsCleanText(s: string, limit: nat, rt: Runtime)
    requires Trimmed(s) && |s| <= limit
    requires forall k :: 0 <= k < |s| ==> s[k] != '<' && s[k] != '>'
    ensures SanitizeInput(Str(s), Num(limit as real), rt) == s
  {
    assert LimitOf(Num(limit as real), rt) == limit;
    assert Take(s, limit) == s;
    StripAnglesIdentity(s);
    TrimOfTrimmed(s);
  }

  lemma {:induction false} StripAnglesIdentity(s: string)
    requires forall k :: 0 <= k < |s| ==> s[k] != '<' && s[k] != '>'
    ensures StripAngles(s) == s
  {
    if s != [] {
      StripAnglesIdentity(s[1..]);
      assert s == [s[0]] + s[1..];
    }
  }
}
