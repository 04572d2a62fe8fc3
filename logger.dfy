/** The front end's logger (`src/utils/logger.js`): the log level read from
    the environment, the level filter, and `sanitizeForLogging`, which copies
    the data attached to a log line with secrets redacted, long strings cut
    and nested objects and arrays sanitized in turn.

    The key match lower-cases the key and looks for each listed word in it.
    Four listed words contain capitals (`apiKey`, `privateKey`, `publicKey`,
    `creditCard`) and so never occur in a lower-cased key; `fold` selects
    between the match as written (`false`) and the match that lower-cases the
    listed words too (`true`). */
module Logger {
  import opened Text
  import opened JsValue
  import opened NumericId

  // ------------------------------------------------------------ levels

  const DEBUG := 0
  const INFO := 1
  const WARN := 2
  const ERROR := 3

  /** `getCurrentLogLevel()` for the value of `VITE_LOG_LEVEL` (`None` when
      unset): the upper-cased name looked up in the level table, where an
      unknown name and `DEBUG`, whose level 0 is falsy, both fall back to
      `INFO`. */
  function CurrentLogLevel(env: Option<string>): int {
    var name := if env.None? || env.value == "" then "info" else env.value;
    if UpperEquals(name, "WARN") then WARN
    else if UpperEquals(name, "ERROR") then ERROR
    else INFO
  }

  /** `shouldLog(level)`. */
  predicate ShouldLog(level: int, env: Option<string>) {
    level >= CurrentLogLevel(env)
  }

  /** The level is `WARN` or `ERROR` exactly when the variable names that
      level in any case, and `INFO` for every other value and when unset. */
  lemma LevelOfEnv(env: Option<string>)
    ensures CurrentLogLevel(env) == WARN <==> env.Some? && UpperEquals(env.value, "WARN")
    ensures CurrentLogLevel(env) == ERROR <==> env.Some? && UpperEquals(env.value, "ERROR")
    ensures CurrentLogLevel(env) == INFO <==>
            !(env.Some? && (UpperEquals(env.value, "WARN") || UpperEquals(env.value, "ERROR")))
  {
    assert UpperChar("info"[0]) != "WARN"[0];
  }

  /** The level filter `shouldLog`, which none of the `logger` methods
      calls: info, warnings and errors pass it at the default level; debug
      never passes it, whatever the environment says, because `DEBUG`
      selects level 1 like an unset variable. */
  lemma LevelFilter(env: Option<string>)
    ensures ShouldLog(INFO, None) && ShouldLog(WARN, None) && ShouldLog(ERROR, None)
    ensures !ShouldLog(DEBUG, env)
    ensures ShouldLog(ERROR, env)
    ensures CurrentLogLevel(Some("debug")) == INFO && CurrentLogLevel(Some("Warn")) == WARN
    ensures ShouldLog(WARN, env) <==> !(env.Some? && UpperEquals(env.value, "ERROR"))
  {
    LevelOfEnv(env);
    LevelOfEnv(None);
    assert UpperChar("debug"[0]) != "ERROR"[0];
    assert UpperEquals("Warn", "WARN");
  }

  // ------------------------------------------------------------ key matching

  const SENSITIVE_KEYS: seq<string> := [
    "password", "token", "access_token", "jwt", "secret",
    "apiKey", "privateKey", "publicKey", "credential",
    "ssn", "creditCard", "cvv", "authorization"]

  /** The listed word as the match compares it. */
  function Word(w: string, fold: bool): string {
    if fold then Lower(w) else w
  }

  /** `sensitiveKeys.some(sensitive => key.toLowerCase().includes(sensitive))`. */
  predicate IsSensitive(key: string, fold: bool) {
    exists i :: 0 <= i < |SENSITIVE_KEYS| && Contains(Lower(key), Word(SENSITIVE_KEYS[i], fold))
  }

  /** The eight words that decide the match as written: the list without
      `access_token`, which contains `token`, and without the four words with
      capitals. */
  const EFFECTIVE_KEYS: seq<string> := [
    "password", "token", "jwt", "secret", "credential", "ssn", "cvv", "authorization"]

  /** The four listed words with an ASCII capital. */
  lemma CapitalWords()
    ensures HasUpper(SENSITIVE_KEYS[5]) && HasUpper(SENSITIVE_KEYS[6])
    ensures HasUpper(SENSITIVE_KEYS[7]) && HasUpper(SENSITIVE_KEYS[10])
  {
    assert SENSITIVE_KEYS[5][3] == 'K' && SENSITIVE_KEYS[6][7] == 'K';
    assert SENSITIVE_KEYS[7][6] == 'K' && SENSITIVE_KEYS[10][6] == 'C';
  }

  /** As written, a key is sensitive exactly when its lower-cased form
      contains one of the eight lower-case words. */
  lemma SensitiveAsWritten(key: string)
    ensures IsSensitive(key, false) <==>
            exists j :: 0 <= j < |EFFECTIVE_KEYS| && Contains(Lower(key), EFFECTIVE_KEYS[j])
  {
    if IsSensitive(key, false) {
      var i :| 0 <= i < |SENSITIVE_KEYS| && Contains(Lower(key), SENSITIVE_KEYS[i]);
      EffectiveWordOf(key, i);
    }
    if exists j :: 0 <= j < |EFFECTIVE_KEYS| && Contains(Lower(key), EFFECTIVE_KEYS[j]) {
      var j :| 0 <= j < |EFFECTIVE_KEYS| && Contains(Lower(key), EFFECTIVE_KEYS[j]);
      var i := if j <= 1 then j else if j == 2 then 3 else if j == 3 then 4
               else if j <= 5 then j + 4 else j + 5;
      assert Word(SENSITIVE_KEYS[i], false) == EFFECTIVE_KEYS[j];
    }
  }

  /** A listed word found in a lower-cased key brings an effective word with it. */
  lemma EffectiveWordOf(key: string, i: nat)
    requires i < |SENSITIVE_KEYS| && Contains(Lower(key), SENSITIVE_KEYS[i])
    ensures exists j :: 0 <= j < |EFFECTIVE_KEYS| && Contains(Lower(key), EFFECTIVE_KEYS[j])
  {
    CapitalWords();
    if i in {5, 6, 7, 10} {
      CapitalNeverContained(key, SENSITIVE_KEYS[i]);
      assert false;
    } else if i == 2 {
      assert SENSITIVE_KEYS[2] == "access_" + EFFECTIVE_KEYS[1];
      ContainsSuffix(Lower(key), "access_", EFFECTIVE_KEYS[1]);
    } else {
      var j := if i <= 1 then i else if i == 3 then 2 else if i == 4 then 3
               else if i <= 9 then i - 4 else i - 5;
      assert EFFECTIVE_KEYS[j] == SENSITIVE_KEYS[i];
    }
  }

  /** A lower-cased key never contains a word with an ASCII capital. */
  lemma CapitalNeverContained(key: string, w: string)
    requires HasUpper(w)
    ensures !Contains(Lower(key), w)
  {
  }

  /** An occurrence of `a + b` holds an occurrence of `b`. */
  lemma ContainsSuffix(s: string, a: string, b: string)
    requires Contains(s, a + b)
    ensures Contains(s, b)
  {
    var i :| 0 <= i <= |s| && OccursAt(s, a + b, i);
    assert s[i + |a|..i + |a| + |b|] == s[i..i + |a + b|][|a|..];
    assert OccursAt(s, b, i + |a|);
  }

  /** Folding only adds matches. */
  lemma FoldingAddsMatches(key: string)
    ensures IsSensitive(key, false) ==> IsSensitive(key, true)
  {
    if IsSensitive(key, false) {
      SensitiveAsWritten(key);
      var j :| 0 <= j < |EFFECTIVE_KEYS| && Contains(Lower(key), EFFECTIVE_KEYS[j]);
      var i := if j <= 1 then j else if j == 2 then 3 else if j == 3 then 4
               else if j <= 5 then j + 4 else j + 5;
      EffectiveWordsLower(j);
      assert Word(SENSITIVE_KEYS[i], true) == EFFECTIVE_KEYS[j];
    }
  }

  /** The effective words are their own lower case. */
  lemma EffectiveWordsLower(j: nat)
    requires j < |EFFECTIVE_KEYS|
    ensures Lower(EFFECTIVE_KEYS[j]) == EFFECTIVE_KEYS[j]
  {
    LowerOfNoCapital(EFFECTIVE_KEYS[j]);
  }

  /** A key named `apiKey` is left in the clear as written and redacted
      once the listed words are lower-cased too. */
  lemma ApiKeyInClear()
    ensures !IsSensitive("apiKey", false) && IsSensitive("apiKey", true)
  {
    var low := Lower("apiKey");
    assert low == "apikey" by {
      assert forall k :: 0 <= k < 6 ==> low[k] == LowerChar("apiKey"[k]);
    }
    assert OccursAt(low, Word(SENSITIVE_KEYS[5], true), 0);
    SensitiveAsWritten("apiKey");
    forall j | 0 <= j < |EFFECTIVE_KEYS| ensures !Contains(low, EFFECTIVE_KEYS[j]) {
      if |EFFECTIVE_KEYS[j]| > |low| {
        NotContainsLonger(low, EFFECTIVE_KEYS[j]);
      } else {
        NotContainsFirst(low, EFFECTIVE_KEYS[j]);
      }
    }
  }

  // ------------------------------------------------------------ sanitizing

  const REDACTED := "[REDACTED]"
  /** Strings longer than this are cut. */
  const MAX_STRING := 200
  /** A cut string keeps this many characters, then `...`. */
  const KEPT := 100

  /** The value stored under `key` in the sanitized copy: `[REDACTED]` for a
      sensitive key, the first hundred characters and `...` for a longer
      string, a sanitized copy of an object or array (an array's copy is a
      plain object keyed by index), and the value itself otherwise. */
  function SanitizeEntry(key: string, value: Value, fold: bool): Value
    decreases value
  {
    if IsSensitive(key, fold) then Str(REDACTED)
    else match value
      case Str(s) => if |s| > MAX_STRING then Str(Take(s, KEPT) + "...") else value
      case Obj(f) => Obj(map k | k in f :: SanitizeEntry(k, f[k], fold))
      case Arr(es) => Obj(Indexed(seq(|es|, i requires 0 <= i < |es| => SanitizeEntry(ToDecimal(i), es[i], fold))))
      case _ => value
  }

  /** The elements of a sequence keyed by their index numerals, as
      `Object.entries` lists an array or a string. */
  function Indexed(xs: seq<Value>): map<string, Value> {
    if xs == [] then map[] else Indexed(xs[..|xs| - 1])[ToDecimal(|xs| - 1) := xs[|xs| - 1]]
  }

  /** Each index numeral is a key of `Indexed(xs)` and holds its element. */
  lemma {:induction false} IndexedAt(xs: seq<Value>)
    ensures forall i :: 0 <= i < |xs| ==> ToDecimal(i) in Indexed(xs) && Indexed(xs)[ToDecimal(i)] == xs[i]
  {
    if xs != [] {
      var n := |xs| - 1;
      var init := xs[..n];
      IndexedAt(init);
      forall i | 0 <= i < |xs| ensures ToDecimal(i) in Indexed(xs) && Indexed(xs)[ToDecimal(i)] == xs[i] {
        if i < n {
          if ToDecimal(i) == ToDecimal(n) {
            ToDecimalInjectiveAt(i, n);
          }
          assert init[i] == xs[i];
        }
      }
    }
  }

  /** Every key of `Indexed(xs)` is an index numeral. */
  lemma {:induction false} IndexedKeys(xs: seq<Value>, k: string)
    requires k in Indexed(xs)
    ensures exists i :: 0 <= i < |xs| && k == ToDecimal(i)
  {
    var n := |xs| - 1;
    if k != ToDecimal(n) {
      IndexedKeys(xs[..n], k);
    }
  }

  /** Distinct indices have distinct numerals. */
  lemma {:induction false} ToDecimalInjectiveAt(i: nat, j: nat)
    requires ToDecimal(i) == ToDecimal(j)
    ensures i == j
    decreases i
  {
    var a, b := ToDecimal(i), ToDecimal(j);
    if i >= 10 && j >= 10 {
      assert a[..|a| - 1] == ToDecimal(i / 10) && b[..|b| - 1] == ToDecimal(j / 10);
      ToDecimalInjectiveAt(i / 10, j / 10);
      assert a[|a| - 1] == b[|b| - 1];
    } else if i < 10 && j < 10 {
      assert a[0] == b[0];
    }
  }

  /** `Object.entries(data)` as a map from key to value, for the data a log
      call receives: the default `{}` for `undefined`, the own fields of an
      object, index keys for the elements of an array or the characters of a
      string, nothing for a number or boolean; `Object.entries(null)` throws
      (`None`). */
  function Entries(data: Value): (m: Option<map<string, Value>>)
    ensures m.None? <==> data.Null?
  {
    match data
    case Null => None
    case Obj(f) => Some(f)
    case Arr(es) => Some(Indexed(es))
    case Str(s) => Some(Indexed(seq(|s|, i requires 0 <= i < |s| => Str([s[i]]))))
    case _ => Some(map[])
  }

  /** The object `sanitizeForLogging(message, data)` returns, `None` where
      it throws. */
  function Sanitized(data: Value, fold: bool): Option<map<string, Value>> {
    var m := Entries(data);
    if m.None? then None
    else Some(map k | k in m.value :: SanitizeEntry(k, m.value[k], fold))
  }

  /** The nested call on an object or array gives the copy that
      `SanitizeEntry` stores. */
  lemma NestedEntry(key: string, value: Value, fold: bool)
    requires !IsSensitive(key, fold) && (value.Obj? || value.Arr?)
    ensures Sanitized(value, fold).Some?
    ensures SanitizeEntry(key, value, fold) == Obj(Sanitized(value, fold).value)
  {
    if value.Arr? {
      NestedArray(value.elems, fold);
    }
  }

  /** Sanitizing the elements and then keying them by index is sanitizing
      the entries of the array. */
  lemma NestedArray(es: seq<Value>, fold: bool)
    ensures Indexed(seq(|es|, i requires 0 <= i < |es| => SanitizeEntry(ToDecimal(i), es[i], fold)))
            == map k | k in Indexed(es) :: SanitizeEntry(k, Indexed(es)[k], fold)
  {
    var m := Indexed(es);
    var clean := seq(|es|, i requires 0 <= i < |es| => SanitizeEntry(ToDecimal(i), es[i], fold));
    var left := Indexed(clean);
    var right := map k | k in m :: SanitizeEntry(k, m[k], fold);
    IndexedAt(es);
    IndexedAt(clean);
    forall k | k in left ensures k in m {
      IndexedKeys(clean, k);
    }
    forall k | k in m ensures k in left && left[k] == right[k] {
      IndexedKeys(es, k);
    }
    assert left == right;
  }

  /** `sanitizeForLogging(message, data)`: a loop over the entries of the
      data that fills the copy one key at a time and calls itself on nested
      objects and arrays. */
  method SanitizeForLogging(data: Value, fold: bool) returns (sanitized: Option<map<string, Value>>)
    ensures sanitized == Sanitized(data, fold)
    decreases data
  {
    var entries := Entries(data);
    if entries.None? {
      return None;
    }
    var fields := entries.value;
    var copy: map<string, Value> := map[];
    var todo := fields.Keys;
    while todo != {}
      invariant todo <= fields.Keys
      invariant copy.Keys == fields.Keys - todo
      invariant forall k | k in copy :: copy[k] == SanitizeEntry(k, fields[k], fold)
      decreases todo
    {
      var key :| key in todo;
      var value := fields[key];
      var v: Value;
      if IsSensitive(key, fold) {
        v := Str(REDACTED);
      } else if value.Str? && |value.s| > MAX_STRING {
        v := Str(Take(value.s, KEPT) + "...");
      } else if value.Obj? || value.Arr? {
        assert value < data by {
          if data.Arr? {
            IndexedAt(data.elems);
            IndexedKeys(data.elems, key);
            var i :| 0 <= i < |data.elems| && key == ToDecimal(i);
            assert value == data.elems[i];
          } else if data.Str? {
            var chars := seq(|data.s|, i requires 0 <= i < |data.s| => Str([data.s[i]]));
            IndexedAt(chars);
            IndexedKeys(chars, key);
            assert false;
          }
        }
        var inner := SanitizeForLogging(value, fold);
        NestedEntry(key, value, fold);
        v := Obj(inner.value);
      } else {
        v := value;
      }
      copy := copy[key := v];
      todo := todo - {key};
    }
    assert copy == map k | k in fields :: SanitizeEntry(k, fields[k], fold);
    return Some(copy);
  }

  // ------------------------------------------------------------ properties

  /** With the listed words lower-cased too, every key that contains a
      listed word as written is redacted, whatever the value. */
  lemma FoldedRedactsListedWords(key: string, i: nat, value: Value)
    requires i < |SENSITIVE_KEYS| && Contains(key, SENSITIVE_KEYS[i])
    ensures SanitizeEntry(key, value, true) == Str(REDACTED)
  {
    ContainsLower(key, SENSITIVE_KEYS[i]);
    assert Contains(Lower(key), Word(SENSITIVE_KEYS[i], true));
  }

  /** As written, the listed key `apiKey` itself is logged as it is. */
  lemma AsWrittenApiKeyLogged(value: Value)
    requires value.Str? && |value.s| <= MAX_STRING
    ensures Contains("apiKey", SENSITIVE_KEYS[5])
    ensures SanitizeEntry("apiKey", value, false) == value
  {
    ApiKeyInClear();
    assert OccursAt("apiKey", SENSITIVE_KEYS[5], 0);
  }

  /** Lower-casing keeps an occurrence. */
  lemma ContainsLower(s: string, p: string)
    requires Contains(s, p)
    ensures Contains(Lower(s), Lower(p))
  {
    var i :| 0 <= i <= |s| && OccursAt(s, p, i);
    var low := Lower(s);
    assert forall k :: 0 <= k < |p| ==> low[i..i + |p|][k] == LowerChar(s[i + k]) == LowerChar(p[k]) by {
      forall k | 0 <= k < |p| ensures low[i..i + |p|][k] == LowerChar(s[i + k]) == LowerChar(p[k]) {
        assert s[i + k] == s[i..i + |p|][k];
      }
    }
    assert low[i..i + |p|] == Lower(p);
    assert OccursAt(low, Lower(p), i);
  }

  /** What the sanitized copy may hold: no array, no string longer than two
      hundred characters, and `[REDACTED]` under every sensitive key, at any
      depth. */
  predicate SafeToLog(v: Value, fold: bool) {
    match v
    case Str(s) => |s| <= MAX_STRING
    case Arr(_) => false
    case Obj(f) => forall k | k in f :: (IsSensitive(k, fold) ==> f[k] == Str(REDACTED)) && SafeToLog(f[k], fold)
    case _ => true
  }

  /** Every value the sanitizer stores is safe to log. */
  lemma {:induction false} SanitizeEntrySafe(key: string, value: Value, fold: bool)
    ensures SafeToLog(SanitizeEntry(key, value, fold), fold)
    decreases value
  {
    if !IsSensitive(key, fold) {
      match value
      case Obj(f) =>
        var copy := map k | k in f :: SanitizeEntry(k, f[k], fold);
        forall k | k in copy
          ensures (IsSensitive(k, fold) ==> copy[k] == Str(REDACTED)) && SafeToLog(copy[k], fold)
        {
          SanitizeEntrySafe(k, f[k], fold);
        }
      case Arr(es) =>
        var clean := seq(|es|, i requires 0 <= i < |es| => SanitizeEntry(ToDecimal(i), es[i], fold));
        var copy := Indexed(clean);
        IndexedAt(clean);
        forall k | k in copy
          ensures (IsSensitive(k, fold) ==> copy[k] == Str(REDACTED)) && SafeToLog(copy[k], fold)
        {
          IndexedKeys(clean, k);
          var i :| 0 <= i < |clean| && k == ToDecimal(i);
          SanitizeEntrySafe(ToDecimal(i), es[i], fold);
        }
      case _ =>
    }
  }

  /** The copy has the keys of the data and a safe value under each; the
      call throws for `null` data only. */
  lemma SanitizedShape(data: Value, fold: bool)
    ensures Sanitized(data, fold).None? <==> data.Null?
    ensures Sanitized(data, fold).Some? ==> Sanitized(data, fold).value.Keys == Entries(data).value.Keys
    ensures Sanitized(data, fold).Some? ==> SafeToLog(Obj(Sanitized(data, fold).value), fold)
  {
    var s := Sanitized(data, fold);
    if s.Some? {
      var m := Entries(data).value;
      forall k | k in m ensures SafeToLog(SanitizeEntry(k, m[k], fold), fold) {
        SanitizeEntrySafe(k, m[k], fold);
      }
    }
  }

  /** A safe value is left as it is under a key that is not sensitive, and a
      sensitive key keeps `[REDACTED]`. */
  lemma {:induction false} SafeIsFixed(key: string, value: Value, fold: bool)
    requires SafeToLog(value, fold)
    requires IsSensitive(key, fold) ==> value == Str(REDACTED)
    ensures SanitizeEntry(key, value, fold) == value
    decreases value
  {
    if !IsSensitive(key, fold) && value.Obj? {
      var f := value.fields;
      forall k | k in f ensures SanitizeEntry(k, f[k], fold) == f[k] {
        SafeIsFixed(k, f[k], fold);
      }
      assert (map k | k in f :: SanitizeEntry(k, f[k], fold)) == f;
    }
  }

  /** Sanitizing twice gives the same copy as sanitizing once. */
  lemma SanitizeIdempotent(key: string, value: Value, fold: bool)
    ensures SanitizeEntry(key, SanitizeEntry(key, value, fold), fold) == SanitizeEntry(key, value, fold)
  {
    SanitizeEntrySafe(key, value, fold);
    SafeIsFixed(key, SanitizeEntry(key, value, fold), fold);
  }

  /** A long string under an ordinary key keeps its first hundred
      characters, followed by `...`; a string of at most two hundred passes
      unchanged. */
  lemma LongStringCut(key: string, s: string, fold: bool)
    requires !IsSensitive(key, fold)
    ensures |s| > MAX_STRING ==> SanitizeEntry(key, Str(s), fold) == Str(s[..KEPT] + "...")
    ensures |s| > MAX_STRING ==> |SanitizeEntry(key, Str(s), fold).s| == KEPT + 3
    ensures |s| <= MAX_STRING ==> SanitizeEntry(key, Str(s), fold) == Str(s)
  {
  }
}
