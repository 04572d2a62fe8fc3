/** The password-strength meter of the sign-up form: a score from 0 to 100
    that adds points for length tiers (6, 8, 12 and 16 characters) and for
    each character class present (ASCII lower case, upper case, digit, any
    other character), then the label and the two colours shown for a score. */
module PasswordStrength {
  import opened Text

  const MAX_SCORE := 100

  /** `/[0-9]/` and `/[^a-zA-Z0-9]/` as tests (`/[a-z]/` and `/[A-Z]/` are
      `HasLower` and `HasUpper`). */
  predicate HasDigitAscii(p: string) { exists k :: 0 <= k < |p| && IsAsciiDigit(p[k]) }
  predicate HasOther(p: string) { exists k :: 0 <= k < |p| && !IsAsciiAlnum(p[k]) }

  /** The points of the four length tiers. */
  function LengthPoints(n: nat): (pts: nat)
    ensures pts <= 50
  {
    (if n >= 6 then 15 else 0) + (if n >= 8 then 15 else 0)
    + (if n >= 12 then 10 else 0) + (if n >= 16 then 10 else 0)
  }

  /** Fifteen points for each character class that occurs. */
  function ClassPoints(p: string): (pts: nat)
    ensures pts <= 60
  {
    (if HasLower(p) then 15 else 0) + (if HasUpper(p) then 15 else 0)
    + (if HasDigitAscii(p) then 15 else 0) + (if HasOther(p) then 15 else 0)
  }

  /** The score `calculatePasswordStrength` computes: no points for an empty
      password, else the points capped at 100. */
  function Strength(p: string): int {
    if p == [] then 0
    else if LengthPoints(|p|) + ClassPoints(p) < MAX_SCORE then LengthPoints(|p|) + ClassPoints(p)
    else MAX_SCORE
  }

  /** `calculatePasswordStrength(password)`, adding up the points one test at a
      time as the source does. */
  method CalculatePasswordStrength(password: string) returns (strength: int)
    ensures strength == Strength(password)
  {
    if password == [] {
      return 0;
    }
    strength := 0;
    if |password| >= 6 { strength := strength + 15; }
    if |password| >= 8 { strength := strength + 15; }
    if |password| >= 12 { strength := strength + 10; }
    if |password| >= 16 { strength := strength + 10; }
    if HasLower(password) { strength := strength + 15; }
    if HasUpper(password) { strength := strength + 15; }
    if HasDigitAscii(password) { strength := strength + 15; }
    if HasOther(password) { strength := strength + 15; }
    if strength > MAX_SCORE {
      strength := MAX_SCORE;
    }
  }

  /** The score lies in [0, 100], is 0 exactly for the empty password, and is
      at least 15 otherwise: every character falls into one of the four
      classes. */
  lemma StrengthBounds(p: string)
    ensures 0 <= Strength(p) <= MAX_SCORE
    ensures Strength(p) == 0 <==> p == []
    ensures p != [] ==> Strength(p) >= 15
  {
    if p != [] {
      var c := p[0];
      if 'a' <= c <= 'z' {
        assert HasLower(p);
      } else if 'A' <= c <= 'Z' {
        assert HasUpper(p);
      } else if IsAsciiDigit(c) {
        assert HasDigitAscii(p);
      } else {
        assert HasOther(p);
      }
    }
  }

  /** Appending a character never lowers the score. */
  lemma StrengthMonotone(p: string, c: char)
    ensures Strength(p + [c]) >= Strength(p)
  {
    var q := p + [c];
    assert forall k :: 0 <= k < |p| ==> q[k] == p[k];
    if HasLower(p) {
      var k :| 0 <= k < |p| && 'a' <= p[k] <= 'z';
      assert 'a' <= q[k] <= 'z';
    }
    if HasUpper(p) {
      var k :| 0 <= k < |p| && 'A' <= p[k] <= 'Z';
      assert 'A' <= q[k] <= 'Z';
    }
    if HasDigitAscii(p) {
      var k :| 0 <= k < |p| && IsAsciiDigit(p[k]);
      assert IsAsciiDigit(q[k]);
    }
    if HasOther(p) {
      var k :| 0 <= k < |p| && !IsAsciiAlnum(p[k]);
      assert !IsAsciiAlnum(q[k]);
    }
    assert ClassPoints(q) >= ClassPoints(p);
    assert LengthPoints(|q|) >= LengthPoints(|p|);
  }

  /** Sixteen characters or more with all four classes reach the maximum. */
  lemma StrengthFull(p: string)
    requires |p| >= 16 && HasLower(p) && HasUpper(p) && HasDigitAscii(p) && HasOther(p)
    ensures Strength(p) == MAX_SCORE
  {
  }

  // ------------------------------------------------------------ label and colours

  /** The six bands the meter shows: none, then below 20, 40, 60 and 80,
      then the rest. */
  function Band(strength: int): (b: nat)
    ensures b <= 5
  {
    if strength == 0 then 0
    else if strength < 20 then 1
    else if strength < 40 then 2
    else if strength < 60 then 3
    else if strength < 80 then 4
    else 5
  }

  /** `getPasswordStrengthLabel(strength)`. */
  function StrengthLabel(strength: int): string {
    if strength == 0 then "Nenhuma"
    else if strength < 20 then "Muito Fraca"
    else if strength < 40 then "Fraca"
    else if strength < 60 then "Média"
    else if strength < 80 then "Forte"
    else "Muito Forte"
  }

  /** `getPasswordStrengthColor(strength)`. */
  function StrengthColor(strength: int): string {
    if strength == 0 then "bg-gray-300"
    else if strength < 20 then "bg-red-600"
    else if strength < 40 then "bg-red-500"
    else if strength < 60 then "bg-yellow-500"
    else if strength < 80 then "bg-blue-500"
    else "bg-green-500"
  }

  /** `getPasswordStrengthTextColor(strength)`. */
  function StrengthTextColor(strength: int): string {
    if strength == 0 then "text-gray-600"
    else if strength < 20 then "text-red-600"
    else if strength < 40 then "text-red-500"
    else if strength < 60 then "text-yellow-600"
    else if strength < 80 then "text-blue-600"
    else "text-green-600"
  }

  /** The label, the bar colour and the text colour all follow the same six
      bands: two scores get the same label iff they get the same colours iff
      they lie in the same band. */
  lemma PresentationFollowsBands(a: int, b: int)
    ensures StrengthLabel(a) == StrengthLabel(b) <==> Band(a) == Band(b)
    ensures StrengthColor(a) == StrengthColor(b) <==> Band(a) == Band(b)
    ensures StrengthTextColor(a) == StrengthTextColor(b) <==> Band(a) == Band(b)
  {
    BandLabel(a);
    BandLabel(b);
  }

  /** Each band has its own label and colours. */
  lemma BandLabel(s: int)
    ensures StrengthLabel(s) == ["Nenhuma", "Muito Fraca", "Fraca", "Média", "Forte", "Muito Forte"][Band(s)]
    ensures StrengthColor(s) == ["bg-gray-300", "bg-red-600", "bg-red-500", "bg-yellow-500", "bg-blue-500", "bg-green-500"][Band(s)]
    ensures StrengthTextColor(s) == ["text-gray-600", "text-red-600", "text-red-500", "text-yellow-600", "text-blue-600", "text-green-600"][Band(s)]
  {
  }

  /** What the meter shows for a password: "Nenhuma" only for the empty one,
      "Muito Forte" for a long password with all four classes. */
  lemma MeterOfPassword(p: string)
    ensures StrengthLabel(Strength(p)) == "Nenhuma" <==> p == []
    ensures |p| >= 16 && HasLower(p) && HasUpper(p) && HasDigitAscii(p) && HasOther(p)
            ==> StrengthLabel(Strength(p)) == "Muito Forte"
  {
    StrengthBounds(p);
    if |p| >= 16 && HasLower(p) && HasUpper(p) && HasDigitAscii(p) && HasOther(p) {
      StrengthFull(p);
    }
  }
}
