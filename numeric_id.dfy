/** `generate_numeric_id_from_string` of the back-end utilities: a 13-digit
    checksum-like identifier, the sum of the code points of the alphanumeric
    characters of the concatenated inputs, modulo 10^13, zero-padded. */
module NumericId {
  import opened Text
  import opened PyJson

  const ID_WIDTH: nat := 13
  /** `10**13`, the modulus that keeps the sum within thirteen digits. */
  const ID_MODULUS: nat := 10_000_000_000_000

  function Pow10(k: nat): (p: nat)
    ensures p >= 1
  {
    if k == 0 then 1 else 10 * Pow10(k - 1)
  }

  /** `str.isalnum()` for one character. The ASCII and Latin-1 ranges are
      written out; beyond them the Unicode database is the parameter
      `wideAlnum`. */
  predicate IsAlnum(c: char, wideAlnum: char -> bool) {
    if c as int < 0x80 then IsAsciiAlnum(c)
    else if c as int < 0x100 then
      c == '\U{00AA}' || c == '\U{00B2}' || c == '\U{00B3}' || c == '\U{00B5}'
      || c == '\U{00B9}' || c == '\U{00BA}' || ('\U{00BC}' <= c <= '\U{00BE}')
      || ('\U{00C0}' <= c <= '\U{00FF}' && c != '\U{00D7}' && c != '\U{00F7}')
    else wideAlnum(c)
  }

  /** `sum(ord(ch) for ch in s if ch.isalnum())`. */
  function AlnumOrdSum(s: string, wideAlnum: char -> bool): nat {
    if s == [] then 0
    else (if IsAlnum(s[0], wideAlnum) then s[0] as int else 0) + AlnumOrdSum(s[1..], wideAlnum)
  }

  /** The decimal numeral `str(n)` of a natural number. */
  function ToDecimal(n: nat): (s: string)
    ensures s != [] && forall k :: 0 <= k < |s| ==> IsAsciiDigit(s[k])
  {
    if n < 10 then [('0' as int + n) as char]
    else ToDecimal(n / 10) + [('0' as int + n % 10) as char]
  }

  /** `s.zfill(w)` for a string without a sign. */
  function ZFill(s: string, w: nat): (r: string)
    ensures |r| == if |s| < w then w else |s|
  {
    if |s| < w then Repeat('0', w - |s|) + s else s
  }

  /** `generate_numeric_id_from_string(input_string, uuid_str, transaction_id)`;
      a missing or empty `input_string` counts as `""`. */
  function GenerateNumericIdFromString(inputString: Option<string>, uuidStr: string, transactionId: string,
                                       wideAlnum: char -> bool): string
  {
    var input := if inputString.None? then "" else inputString.value;
    var combined := input + uuidStr + transactionId;
    ZFill(ToDecimal(AlnumOrdSum(combined, wideAlnum) % ID_MODULUS), ID_WIDTH)
  }

  // ------------------------------------------------------------ digits

  lemma DigitsValueSnoc(s: string, d: char)
    requires forall k :: 0 <= k < |s| ==> IsAsciiDigit(s[k])
    requires IsAsciiDigit(d)
    ensures DigitsValue(s + [d]) == 10 * DigitsValue(s) + DigitValue(d)
  {
    assert (s + [d])[..|s|] == s;
  }

  lemma Pow10Small(k: nat)
    ensures k <= 1 ==> Pow10(k) <= 10
  {
    if k == 1 {
      assert Pow10(1) == 10 * Pow10(0);
    }
  }

  lemma ModulusIsPow10()
    ensures ID_MODULUS == Pow10(ID_WIDTH)
  {
  }

  /** `str(n)` denotes `n` and has no more digits than `n` needs. */
  lemma {:induction false} ToDecimalValue(n: nat, k: nat)
    requires n < Pow10(k)
    ensures DigitsValue(ToDecimal(n)) == n
    ensures k >= 1 ==> |ToDecimal(n)| <= k
  {
    if n >= 10 {
      Pow10Small(k);
      ToDecimalValue(n / 10, k - 1);
      DigitsValueSnoc(ToDecimal(n / 10), ('0' as int + n % 10) as char);
    }
  }

  /** Leading zeros do not change the value of a digit string. */
  lemma {:induction false} LeadingZero(s: string)
    requires forall k :: 0 <= k < |s| ==> IsAsciiDigit(s[k])
    ensures DigitsValue(['0'] + s) == DigitsValue(s)
  {
    if s != [] {
      var init := s[..|s| - 1];
      LeadingZero(init);
      assert (['0'] + s)[..|s|] == ['0'] + init;
    }
  }

  lemma {:induction false} LeadingZeros(n: nat, s: string)
    requires forall k :: 0 <= k < |s| ==> IsAsciiDigit(s[k])
    ensures forall k :: 0 <= k < |Repeat('0', n) + s| ==> IsAsciiDigit((Repeat('0', n) + s)[k])
    ensures DigitsValue(Repeat('0', n) + s) == DigitsValue(s)
  {
    if n > 0 {
      LeadingZeros(n - 1, s);
      var t := Repeat('0', n - 1) + s;
      assert Repeat('0', n) == ['0'] + Repeat('0', n - 1);
      assert (['0'] + Repeat('0', n - 1)) + s == ['0'] + t;
      LeadingZero(t);
    } else {
      assert Repeat('0', n) + s == s;
    }
  }

  // ------------------------------------------------------------ properties

  /** The id is always 13 decimal digits and denotes the code-point sum of
      the alphanumeric characters of the concatenation, modulo 10^13. */
  lemma NumericIdDenotesSum(inputString: Option<string>, uuidStr: string, transactionId: string,
                            wideAlnum: char -> bool)
    ensures var id := GenerateNumericIdFromString(inputString, uuidStr, transactionId, wideAlnum);
      var input := if inputString.None? then "" else inputString.value;
      && |id| == ID_WIDTH
      && (forall k :: 0 <= k < |id| ==> IsAsciiDigit(id[k]))
      && DigitsValue(id) == AlnumOrdSum(input + uuidStr + transactionId, wideAlnum) % ID_MODULUS
  {
    var input := if inputString.None? then "" else inputString.value;
    var n := AlnumOrdSum(input + uuidStr + transactionId, wideAlnum) % ID_MODULUS;
    ModulusIsPow10();
    ToDecimalValue(n, ID_WIDTH);
    ZFillValue(ToDecimal(n), ID_WIDTH);
  }

  /** Zero-padding keeps a digit string a digit string with the same value. */
  lemma ZFillValue(s: string, w: nat)
    requires forall k :: 0 <= k < |s| ==> IsAsciiDigit(s[k])
    ensures forall k :: 0 <= k < |ZFill(s, w)| ==> IsAsciiDigit(ZFill(s, w)[k])
    ensures DigitsValue(ZFill(s, w)) == DigitsValue(s)
  {
    if |s| < w {
      LeadingZeros(w - |s|, s);
    }
  }

  lemma {:induction false} AlnumOrdSumAppend(a: string, b: string, wideAlnum: char -> bool)
    ensures AlnumOrdSum(a + b, wideAlnum) == AlnumOrdSum(a, wideAlnum) + AlnumOrdSum(b, wideAlnum)
  {
    if a != [] {
      AlnumOrdSumAppend(a[1..], b, wideAlnum);
      assert (a + b)[1..] == a[1..] + b;
      assert (a + b)[0] == a[0];
    } else {
      assert a + b == b;
    }
  }

  /** A character that is not alphanumeric never affects the id, wherever it
      is inserted. */
  lemma NonAlnumIgnored(a: string, c: char, b: string, wideAlnum: char -> bool)
    requires !IsAlnum(c, wideAlnum)
    ensures AlnumOrdSum(a + [c] + b, wideAlnum) == AlnumOrdSum(a + b, wideAlnum)
    ensures GenerateNumericIdFromString(Some(a + [c] + b), "", "", wideAlnum)
         == GenerateNumericIdFromString(Some(a + b), "", "", wideAlnum)
  {
    AlnumOrdSumAppend(a + [c], b, wideAlnum);
    AlnumOrdSumAppend(a, [c], wideAlnum);
    AlnumOrdSumAppend(a, b, wideAlnum);
    assert a + [c] + b + "" + "" == a + [c] + b;
    assert a + b + "" + "" == a + b;
  }

  /** The sum depends only on the multiset of characters. */
  lemma {:induction false} AlnumOrdSumPermutation(s: string, t: string, wideAlnum: char -> bool)
    requires multiset(s) == multiset(t)
    ensures AlnumOrdSum(s, wideAlnum) == AlnumOrdSum(t, wideAlnum)
  {
    if s != [] {
      assert s[0] in multiset(t);
      var i :| 0 <= i < |t| && t[i] == s[0];
      MultisetWithout(s, t, i);
      AlnumOrdSumPermutation(s[1..], t[..i] + t[i + 1..], wideAlnum);
      AlnumOrdSumWithout(t, i, wideAlnum);
    }
  }

  /** Taking a common first character out of two equal multisets leaves
      equal multisets. */
  lemma MultisetWithout(s: string, t: string, i: nat)
    requires s != [] && i < |t| && t[i] == s[0] && multiset(s) == multiset(t)
    ensures multiset(s[1..]) == multiset(t[..i] + t[i + 1..])
  {
    assert t == t[..i] + [t[i]] + t[i + 1..];
    assert s == [s[0]] + s[1..];
    assert multiset(t) == multiset(t[..i]) + multiset{t[i]} + multiset(t[i + 1..]);
    assert multiset(s) == multiset{s[0]} + multiset(s[1..]);
    assert multiset(t[..i] + t[i + 1..]) == multiset(t[..i]) + multiset(t[i + 1..]);
    assert multiset(s[1..]) == multiset(s) - multiset{s[0]};
    assert multiset(t[..i] + t[i + 1..]) == multiset(t) - multiset{t[i]};
  }

  /** The sum is the share of one character plus the sum of the others. */
  lemma AlnumOrdSumWithout(t: string, i: nat, wideAlnum: char -> bool)
    requires i < |t|
    ensures AlnumOrdSum(t, wideAlnum)
      == (if IsAlnum(t[i], wideAlnum) then t[i] as int else 0) + AlnumOrdSum(t[..i] + t[i + 1..], wideAlnum)
  {
    assert t == t[..i] + [t[i]] + t[i + 1..];
    AlnumOrdSumAppend(t[..i] + [t[i]], t[i + 1..], wideAlnum);
    AlnumOrdSumAppend(t[..i], [t[i]], wideAlnum);
    AlnumOrdSumAppend(t[..i], t[i + 1..], wideAlnum);
  }

  /** Two calls whose three arguments concatenate to the same characters, in
      any order, give the same id: only the multiset of the concatenation
      matters, so `(a, b, c)` and `(a + b, "", c)` agree. */
  lemma NumericIdDependsOnCharacters(i1: string, u1: string, t1: string,
                                     i2: string, u2: string, t2: string, wideAlnum: char -> bool)
    requires multiset(i1 + u1 + t1) == multiset(i2 + u2 + t2)
    ensures GenerateNumericIdFromString(Some(i1), u1, t1, wideAlnum)
         == GenerateNumericIdFromString(Some(i2), u2, t2, wideAlnum)
  {
    AlnumOrdSumPermutation(i1 + u1 + t1, i2 + u2 + t2, wideAlnum);
  }

  /** No input at all gives thirteen zeros. */
  lemma EmptyInputIsZero(inputString: Option<string>, wideAlnum: char -> bool)
    requires inputString == None || inputString == Some("")
    ensures GenerateNumericIdFromString(inputString, "", "", wideAlnum) == "0000000000000"
  {
    var input := if inputString.None? then "" else inputString.value;
    assert input + "" + "" == "";
    assert AlnumOrdSum("", wideAlnum) % ID_MODULUS == 0;
    assert ToDecimal(0) == "0";
    var zeros := Repeat('0', 12) + "0";
    assert forall k :: 0 <= k < |zeros| ==> zeros[k] == '0';
    assert zeros == "0000000000000";
  }
}
