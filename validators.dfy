/** The front end's form validators (`validators` in `src/utils/validators.js`):
    length windows for user names, passwords and sweet names, the e-mail
    pattern `^[^\s@]+@[^\s@]+\.[^\s@]+$`, and the `parseFloat` checks for
    numbers and prices. The inputs are the strings the forms hold. */
module Validators {
  import opened Text
  import opened JsValue
  import opened RegisterService

  /** `isValidUsername`: three to fifty characters. */
  predicate IsValidUsername(username: string) {
    3 <= |username| && |username| <= 50
  }

  /** `isValidPassword`: at least six characters. */
  predicate IsValidPassword(password: string) {
    |password| >= 6
  }

  /** `isValidSweetName`: two to a hundred characters. */
  predicate IsValidSweetName(name: string) {
    2 <= |name| && |name| <= 100
  }

  /** The sweet-name window: one more character makes a name valid exactly
      when it had one to ninety-nine characters; the empty name and a single
      letter are refused. */
  lemma SweetNameWindow(name: string, c: char)
    ensures IsValidSweetName(name + [c]) <==> 1 <= |name| <= 99
    ensures !IsValidSweetName("") && !IsValidSweetName("B") && IsValidSweetName("Bo")
  {
  }

  /** The front-end windows are looser than the back end's patterns: a
      name or password the server's sign-up validators accept also passes
      here, while a six-letter password passes here and not there. */
  lemma ServerAcceptedPassesForm(s: string, wideDecimal: char -> bool)
    ensures ValidateUsername(Some(s)) ==> IsValidUsername(s)
    ensures ValidatePassword(Some(s), wideDecimal) ==> IsValidPassword(s)
    ensures IsValidPassword("abcdef") && !ValidatePassword(Some("abcdef"), wideDecimal)
  {
    ValidateUsernameExactly(s);
  }

  // ------------------------------------------------------------ e-mail

  /** `[^\s@]`: neither whitespace nor `@`. */
  predicate IsEmailChar(c: char) {
    c != '@' && !IsJsSpace(c)
  }

  /** `[^\s@]+`. */
  predicate EmailRun(s: string) {
    s != [] && forall k :: 0 <= k < |s| ==> IsEmailChar(s[k])
  }

  /** `isValidEmail(email)`: the text splits into a run, `@`, a run, `.`, a
      run, each run free of whitespace and `@`. The `.` can be any dot of the
      domain with text on both sides of it. */
  predicate IsValidEmail(email: string) {
    exists at: nat, dot: nat {:trigger email[at], email[dot]} ::
      at < dot < |email|
      && email[at] == '@' && email[dot] == '.'
      && EmailRun(email[..at]) && EmailRun(email[at + 1..dot]) && EmailRun(email[dot + 1..])
  }

  /** A valid address has exactly one `@`, no whitespace, and a domain (the
      text after the `@`) with a `.` that has text on both sides. */
  lemma ValidEmailShape(email: string)
    requires IsValidEmail(email)
    ensures CountChar(email, '@') == 1
    ensures forall k :: 0 <= k < |email| ==> !IsJsSpace(email[k])
    ensures exists at :: 0 < at < |email| && email[at] == '@' && InteriorDot(email[at + 1..])
  {
    var at: nat, dot: nat :| at < dot < |email| && email[at] == '@' && email[dot] == '.'
      && EmailRun(email[..at]) && EmailRun(email[at + 1..dot]) && EmailRun(email[dot + 1..]);
    EmailPieces(email, at, dot);
    var domain := email[at + 1..];
    assert domain[dot - at - 1] == '.';
    assert InteriorDot(domain);
  }

  /** A `.` strictly inside the text. */
  predicate InteriorDot(t: string) {
    exists k :: 0 < k < |t| - 1 && t[k] == '.'
  }

  /** Conversely: one `@` that is not the first character, no whitespace,
      and an interior `.` after the `@` make a valid address. */
  lemma EmailOfShape(email: string, at: nat)
    requires at < |email| && email[at] == '@' && at > 0
    requires CountChar(email, '@') == 1
    requires forall k :: 0 <= k < |email| ==> !IsJsSpace(email[k])
    requires InteriorDot(email[at + 1..])
    ensures IsValidEmail(email)
  {
    var domain := email[at + 1..];
    var j :| 0 < j < |domain| - 1 && domain[j] == '.';
    var dot := at + 1 + j;
    assert email[dot] == '.';
    OnlyAt(email, at);
    assert EmailRun(email[..at]);
    assert EmailRun(email[at + 1..dot]);
    assert EmailRun(email[dot + 1..]);
  }

  /** A witness of the pattern: the pieces around it hold no `@`, so the
      `@` is the only one, and the text holds no whitespace. */
  lemma EmailPieces(email: string, at: nat, dot: nat)
    requires at < dot < |email| && email[at] == '@' && email[dot] == '.'
    requires EmailRun(email[..at]) && EmailRun(email[at + 1..dot]) && EmailRun(email[dot + 1..])
    ensures CountChar(email, '@') == 1
    ensures forall k :: 0 <= k < |email| ==> !IsJsSpace(email[k])
    ensures 0 < at && at + 1 < dot < |email| - 1
  {
    forall k | 0 <= k < |email| && k != at ensures IsEmailChar(email[k]) {
      if k < at {
        assert email[k] == email[..at][k];
      } else if k < dot {
        assert email[k] == email[at + 1..dot][k - at - 1];
      } else if k > dot {
        assert email[k] == email[dot + 1..][k - dot - 1];
      }
    }
    SingleAt(email, at);
  }

  /** An `@` at `at` and none elsewhere: the text holds one `@`. */
  lemma SingleAt(email: string, at: nat)
    requires at < |email| && email[at] == '@'
    requires forall k :: 0 <= k < |email| && k != at ==> email[k] != '@'
    ensures CountChar(email, '@') == 1
  {
    var before, after := email[..at], email[at + 1..];
    assert email == before + [email[at]] + after;
    CountCharAppend(before + [email[at]], after, '@');
    CountCharAppend(before, [email[at]], '@');
    forall c | c in before ensures c != '@' {
      var k :| 0 <= k < |before| && before[k] == c;
      assert email[k] == c;
    }
    forall c | c in after ensures c != '@' {
      var k :| 0 <= k < |after| && after[k] == c;
      assert email[at + 1 + k] == c;
    }
    CountCharZero(before, '@');
    CountCharZero(after, '@');
  }

  /** With one `@` at `at`, every other character is not `@`. */
  lemma OnlyAt(email: string, at: nat)
    requires at < |email| && email[at] == '@' && CountChar(email, '@') == 1
    ensures forall k :: 0 <= k < |email| && k != at ==> email[k] != '@'
  {
    var before, after := email[..at], email[at + 1..];
    assert email == before + [email[at]] + after;
    CountCharAppend(before + [email[at]], after, '@');
    CountCharAppend(before, [email[at]], '@');
    CountCharZero(before, '@');
    CountCharZero(after, '@');
    forall k | 0 <= k < |email| && k != at ensures email[k] != '@' {
      if k < at {
        assert email[k] in before;
      } else {
        assert email[k] == after[k - at - 1];
        assert email[k] in after;
      }
    }
  }

  /** Two concrete addresses: the pattern accepts a dot anywhere inside the
      domain, and refuses a second `@`. */
  lemma EmailExamples()
    ensures IsValidEmail("a@b.c")
    ensures !IsValidEmail("a@b@c.d")
  {
    SimpleAddressValid();
    assert CountChar("a@b@c.d", '@') == 2;
    if IsValidEmail("a@b@c.d") {
      ValidEmailShape("a@b@c.d");
    }
  }

  lemma SimpleAddressValid()
    ensures IsValidEmail("a@b.c")
  {
    var e := "a@b.c";
    assert e[1] == '@' && e[3] == '.';
    assert e[..1] == "a" && e[2..3] == "b" && e[4..] == "c";
    assert EmailRun("a") && EmailRun("b") && EmailRun("c");
  }

  // ------------------------------------------------------------ numbers

  /** `isValidNumber(value)`: `parseFloat` gives a finite number that is not
      negative. */
  predicate IsValidNumber(value: Value, rt: Runtime) {
    var num := rt.parseFloat(ToStr(value, rt));
    num.Num? && num.n >= 0.0
  }

  /** `isValidPrice(price)`: `parseFloat` gives a finite positive number. */
  predicate IsValidPrice(price: Value, rt: Runtime) {
    var num := rt.parseFloat(ToStr(price, rt));
    num.Num? && num.n > 0.0
  }

  /** Every valid price is a valid number; zero is a number but no price. */
  lemma PriceIsNumber(v: Value, rt: Runtime)
    ensures IsValidPrice(v, rt) ==> IsValidNumber(v, rt)
    ensures IsValidNumber(v, rt) && !IsValidPrice(v, rt) ==> rt.parseFloat(ToStr(v, rt)) == Num(0.0)
  {
  }
}
