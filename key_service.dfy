/** The in-memory API-key service of the back end: key generation, the
    SHA-256 hex identifier of a key, expiry times, the module-level `keys`
    dictionary with its save/validate/expires-in operations, and the two
    hard-coded request gates.

    The clock (`datetime.now()`) is the parameter `now`, the random source
    (`secrets.choice`) is the sequence of indices it picks, and SHA-256 is the
    parameter `sha256`. */
module KeyService {
  import opened Text
  import opened PyJson

  /** A local naive date-time, as a count of microseconds (the resolution of
      Python's `datetime`). */
  type Instant = int

  const MICROS_PER_MINUTE: int := 60_000_000
  const DEFAULT_EXPIRY_MINUTES: int := 60
  const DEFAULT_KEY_LENGTH: int := 32
  const KEY_PREFIX: string := "LUNAR_"

  /** The `n` consecutive characters starting at `first`. */
  function CharRange(first: char, n: nat): (r: string)
    requires first as int + n <= 0xD800
    ensures |r| == n
    ensures forall k :: 0 <= k < n ==> r[k] as int == first as int + k
  {
    if n == 0 then "" else CharRange(first, n - 1) + [(first as int + n - 1) as char]
  }

  /** `string.ascii_lowercase`, `string.ascii_uppercase` and `string.digits`. */
  const ASCII_LOWERCASE: string := CharRange('a', 26)
  const ASCII_UPPERCASE: string := CharRange('A', 26)
  const DIGITS: string := CharRange('0', 10)

  /** `string.ascii_letters + string.digits`. */
  const KEY_ALPHABET: string := ASCII_LOWERCASE + ASCII_UPPERCASE + DIGITS

  /** The code of the alphabet character at position `i`. */
  function AlphabetCode(i: int): int {
    if i < 26 then 'a' as int + i else if i < 52 then 'A' as int + i - 26 else '0' as int + i - 52
  }

  lemma KeyAlphabetCodes()
    ensures |KEY_ALPHABET| == 62
    ensures forall i :: 0 <= i < 62 ==> KEY_ALPHABET[i] as int == AlphabetCode(i)
  {
    forall i | 0 <= i < 62 ensures KEY_ALPHABET[i] as int == AlphabetCode(i) {
      if i < 26 {
        assert KEY_ALPHABET[i] == ASCII_LOWERCASE[i];
      } else if i < 52 {
        assert KEY_ALPHABET[i] == ASCII_UPPERCASE[i - 26];
      } else {
        assert KEY_ALPHABET[i] == DIGITS[i - 52];
      }
    }
  }

  /** The alphabet holds exactly the ASCII letters and digits, each once. */
  lemma KeyAlphabetIsAlnum()
    ensures |KEY_ALPHABET| == 62
    ensures forall c :: c in KEY_ALPHABET <==> IsAsciiAlnum(c)
    ensures forall i, j :: 0 <= i < j < |KEY_ALPHABET| ==> KEY_ALPHABET[i] != KEY_ALPHABET[j]
  {
    AlnumInAlphabet();
    AlphabetOnlyAlnum();
    AlphabetDistinct();
  }

  lemma AlnumInAlphabet()
    ensures forall c :: IsAsciiAlnum(c) ==> c in KEY_ALPHABET
  {
    KeyAlphabetCodes();
    forall c | IsAsciiAlnum(c) ensures c in KEY_ALPHABET {
      if 'a' <= c <= 'z' {
        assert KEY_ALPHABET[c as int - 'a' as int] == c;
      } else if 'A' <= c <= 'Z' {
        assert KEY_ALPHABET[c as int - 'A' as int + 26] == c;
      } else {
        assert KEY_ALPHABET[c as int - '0' as int + 52] == c;
      }
    }
  }

  lemma AlphabetOnlyAlnum()
    ensures forall c :: c in KEY_ALPHABET ==> IsAsciiAlnum(c)
  {
    KeyAlphabetCodes();
    forall c | c in KEY_ALPHABET ensures IsAsciiAlnum(c) {
      var i :| 0 <= i < 62 && KEY_ALPHABET[i] == c;
    }
  }

  lemma AlphabetDistinct()
    ensures forall i, j :: 0 <= i < j < |KEY_ALPHABET| ==> KEY_ALPHABET[i] != KEY_ALPHABET[j]
  {
    KeyAlphabetCodes();
  }

  /** The characters `secrets.choice` picked, one per position. */
  function Chosen(draws: seq<int>): (s: string)
    requires forall i :: 0 <= i < |draws| ==> 0 <= draws[i] < |KEY_ALPHABET|
    ensures |s| == |draws|
    ensures forall i :: 0 <= i < |s| ==> s[i] == KEY_ALPHABET[draws[i]]
  {
    if draws == [] then "" else [KEY_ALPHABET[draws[0]]] + Chosen(draws[1..])
  }

  /** `generate_key(t)`: `draws` are the alphabet indices the random source
      picks; `range(t)` draws nothing when `t <= 0`. */
  function GenerateKey(t: int, draws: seq<int>): (key: string)
    requires |draws| == if t <= 0 then 0 else t
    requires forall i :: 0 <= i < |draws| ==> 0 <= draws[i] < |KEY_ALPHABET|
    ensures IsPrefix(KEY_PREFIX, key)
    ensures |key| == |KEY_PREFIX| + (if t <= 0 then 0 else t)
    ensures forall k :: |KEY_PREFIX| <= k < |key| ==> IsAsciiAlnum(key[k])
  {
    KeyAlphabetIsAlnum();
    KEY_PREFIX + Chosen(draws)
  }

  /** Different draws give different keys: the suffix carries all the entropy. */
  lemma GenerateKeyInjective(t: int, d1: seq<int>, d2: seq<int>)
    requires |d1| == |d2| == if t <= 0 then 0 else t
    requires forall i :: 0 <= i < |d1| ==> 0 <= d1[i] < |KEY_ALPHABET|
    requires forall i :: 0 <= i < |d2| ==> 0 <= d2[i] < |KEY_ALPHABET|
    requires GenerateKey(t, d1) == GenerateKey(t, d2)
    ensures d1 == d2
  {
    KeyAlphabetIsAlnum();
    forall i | 0 <= i < |d1| ensures d1[i] == d2[i] {
      assert GenerateKey(t, d1)[|KEY_PREFIX| + i] == KEY_ALPHABET[d1[i]];
      assert GenerateKey(t, d2)[|KEY_PREFIX| + i] == KEY_ALPHABET[d2[i]];
    }
  }

  // ---------------------------------------------------------------- hashing

  type Byte = b: int | 0 <= b < 256

  /** A SHA-256 digest: 32 bytes. */
  type Digest = d: seq<Byte> | |d| == 32 witness [0, 0, 0, 0, 0, 0, 0, 0, 0, 0, 0, 0, 0, 0, 0, 0, 0, 0, 0, 0, 0, 0, 0, 0, 0, 0, 0, 0, 0, 0, 0, 0]

  /** UTF-8 encoding of one Unicode scalar value (`str.encode()`). */
  function Utf8Char(c: char): (bs: seq<Byte>)
    ensures 1 <= |bs| <= 4
    ensures c as int < 0x80 <==> |bs| == 1
    ensures c as int < 0x80 ==> bs == [c as int]
  {
    var cp := c as int;
    if cp < 0x80 then [cp]
    else if cp < 0x800 then [0xC0 + cp / 64, 0x80 + cp % 64]
    else if cp < 0x10000 then [0xE0 + cp / 4096, 0x80 + (cp / 64) % 64, 0x80 + cp % 64]
    else [0xF0 + cp / 262144, 0x80 + (cp / 4096) % 64, 0x80 + (cp / 64) % 64, 0x80 + cp % 64]
  }

  function Utf8Encode(s: string): seq<Byte> {
    if s == [] then [] else Utf8Char(s[0]) + Utf8Encode(s[1..])
  }

  /** A key made of ASCII characters, such as every generated key, encodes to
      one byte per character, each equal to the character's code. */
  lemma {:induction false} Utf8Ascii(s: string)
    requires forall k :: 0 <= k < |s| ==> s[k] as int < 0x80
    ensures |Utf8Encode(s)| == |s|
    ensures forall k :: 0 <= k < |s| ==> Utf8Encode(s)[k] == s[k] as int
  {
    if s != [] {
      Utf8Ascii(s[1..]);
    }
  }

  function HexDigit(n: int): (c: char)
    requires 0 <= n < 16
    ensures IsLowerHex(c)
  {
    if n < 10 then ('0' as int + n) as char else ('a' as int + n - 10) as char
  }

  predicate IsLowerHex(c: char) {
    ('0' <= c <= '9') || ('a' <= c <= 'f')
  }

  function HexValue(c: char): (n: int)
    requires IsLowerHex(c)
    ensures 0 <= n < 16
  {
    if c <= '9' then c as int - '0' as int else c as int - 'a' as int + 10
  }

  /** `hexdigest()`: two lower-case hex digits per byte, high nibble first. */
  function HexDigest(bs: seq<Byte>): (h: string)
    ensures |h| == 2 * |bs|
    ensures forall k :: 0 <= k < |h| ==> IsLowerHex(h[k])
  {
    if bs == [] then "" else [HexDigit(bs[0] / 16), HexDigit(bs[0] % 16)] + HexDigest(bs[1..])
  }

  function HexDecode(h: string): seq<Byte>
    requires |h| % 2 == 0
    requires forall k :: 0 <= k < |h| ==> IsLowerHex(h[k])
  {
    if h == [] then [] else [16 * HexValue(h[0]) + HexValue(h[1])] + HexDecode(h[2..])
  }

  /** The hex digest loses nothing: decoding it gives the digest back. */
  lemma {:induction false} HexRoundTrip(bs: seq<Byte>)
    ensures HexDecode(HexDigest(bs)) == bs
  {
    if bs != [] {
      HexRoundTrip(bs[1..]);
      var h := HexDigest(bs);
      assert h[2..] == HexDigest(bs[1..]);
      assert HexValue(HexDigit(bs[0] / 16)) == bs[0] / 16;
      assert HexValue(HexDigit(bs[0] % 16)) == bs[0] % 16;
    }
  }

  /** `key_to_hash(key)`: the SHA-256 hex digest of the UTF-8 bytes of `key`. */
  function KeyToHash(key: string, sha256: seq<Byte> -> Digest): (h: string)
    ensures |h| == 64
    ensures forall k :: 0 <= k < 64 ==> IsLowerHex(h[k])
  {
    HexDigest(sha256(Utf8Encode(key)))
  }

  /** Two keys have the same identifier exactly when SHA-256 maps their
      encodings to the same digest. */
  lemma KeyToHashCollision(a: string, b: string, sha256: seq<Byte> -> Digest)
    ensures KeyToHash(a, sha256) == KeyToHash(b, sha256)
        <==> sha256(Utf8Encode(a)) == sha256(Utf8Encode(b))
  {
    HexRoundTrip(sha256(Utf8Encode(a)));
    HexRoundTrip(sha256(Utf8Encode(b)));
  }

  // ------------------------------------------------------------ expiry

  /** `generate_expiration_time(minutes)`: `minutes` after `now`. */
  function GenerateExpirationTime(now: Instant, minutes: int): (expiry: Instant)
    ensures expiry - now == minutes * MICROS_PER_MINUTE
    ensures minutes > 0 ==> expiry > now
  {
    now + minutes * MICROS_PER_MINUTE
  }

  // ------------------------------------------------------------ the `keys` dictionary

  /** A key is accepted while the clock is strictly before its expiry. */
  predicate IsValid(keys: map<string, Instant>, key: string, now: Instant) {
    key in keys && now < keys[key]
  }

  /** The dictionary after `save_key_to_db(key)` at `now`: an absent key gets
      an expiry 60 minutes ahead; a present key is never overwritten. */
  function AfterSave(keys: map<string, Instant>, key: string, now: Instant): map<string, Instant> {
    if key in keys then keys else keys[key := GenerateExpirationTime(now, DEFAULT_EXPIRY_MINUTES)]
  }

  /** A freshly saved key is valid for exactly the next 60 minutes. */
  lemma SavedKeyValidFor60Minutes(keys: map<string, Instant>, key: string, saved: Instant, now: Instant)
    requires key !in keys
    ensures IsValid(AfterSave(keys, key, saved), key, now)
        <==> now < saved + 60 * MICROS_PER_MINUTE
  {
  }

  /** Saving a key that is already stored changes nothing, even when the stored
      one has expired. */
  lemma SaveNeverOverwrites(keys: map<string, Instant>, key: string, now: Instant)
    requires key in keys
    ensures AfterSave(keys, key, now) == keys
    ensures IsValid(keys, key, now) == IsValid(AfterSave(keys, key, now), key, now)
  {
  }

  /** Saving one key leaves the expiry of every other key as it was. */
  lemma SaveKeepsOtherKeys(keys: map<string, Instant>, key: string, other: string, now: Instant)
    requires other != key
    ensures other in AfterSave(keys, key, now) <==> other in keys
    ensures other in keys ==> AfterSave(keys, key, now)[other] == keys[other]
  {
  }

  /** The dictionary behind `validate_key`, `expires_in` and `save_key_to_db`. */
  class KeyStore {
    var keys: map<string, Instant>

    constructor ()
      ensures keys == map[]
    {
      keys := map[];
    }

    /** `save_key_to_db(key)`: True and a 60-minute expiry for a new key;
        False and no change for a key that is already stored. */
    method SaveKeyToDb(key: string, now: Instant) returns (saved: bool)
      modifies this
      ensures saved <==> key !in old(keys)
      ensures keys == AfterSave(old(keys), key, now)
      ensures saved ==> keys[key] == now + 60 * MICROS_PER_MINUTE
    {
      if key in keys {
        saved := false;
      } else {
        keys := keys[key := GenerateExpirationTime(now, DEFAULT_EXPIRY_MINUTES)];
        saved := true;
      }
    }

    /** `validate_key(key)`: True iff the key is stored and `now` is strictly
        before its expiry. An expired key stays in the dictionary. */
    method ValidateKey(key: string, now: Instant) returns (valid: bool)
      ensures valid <==> key in keys && now < keys[key]
      ensures valid == IsValid(keys, key, now)
    {
      if key in keys {
        var expiration := keys[key];
        valid := now < expiration;
      } else {
        valid := false;
      }
    }

    /** `expires_in(key)`: the time left (negative once expired) for a stored
        key, `None` for an unknown one. */
    method ExpiresIn(key: string, now: Instant) returns (remaining: Option<int>)
      ensures remaining.Some? <==> key in keys
      ensures remaining.Some? ==> keys[key] == now + remaining.value
      ensures remaining.Some? ==> (remaining.value > 0 <==> IsValid(keys, key, now))
    {
      if key in keys {
        remaining := Some(keys[key] - now);
      } else {
        remaining := None;
      }
    }
  }

  // ------------------------------------------------------------ request gates

  datatype Response = Response(status: int, message: string)

  /** Outcome of the `protect_route` wrapper: run the handler, or answer 401. */
  datatype GateOutcome = RunHandler | Reject(response: Response)

  /** `request.headers.get(name)`: the first header whose name matches
      without regard to case. */
  function HeaderGet(headers: seq<(string, string)>, name: string): (v: Option<string>)
    ensures v.Some? ==> exists k :: 0 <= k < |headers| && Lower(headers[k].0) == Lower(name) && headers[k].1 == v.value
    ensures v.None? ==> forall k :: 0 <= k < |headers| ==> Lower(headers[k].0) != Lower(name)
  {
    if headers == [] then None
    else if Lower(headers[0].0) == Lower(name) then Some(headers[0].1)
    else
      var v := HeaderGet(headers[1..], name);
      HeaderGetTail(headers, name, v);
      v
  }

  lemma HeaderGetTail(headers: seq<(string, string)>, name: string, v: Option<string>)
    requires headers != []
    requires v.Some? ==> exists k :: 0 <= k < |headers[1..]| && Lower(headers[1..][k].0) == Lower(name) && headers[1..][k].1 == v.value
    ensures v.Some? ==> exists k :: 0 <= k < |headers| && Lower(headers[k].0) == Lower(name) && headers[k].1 == v.value
  {
    if v.Some? {
      var k :| 0 <= k < |headers[1..]| && Lower(headers[1..][k].0) == Lower(name) && headers[1..][k].1 == v.value;
      assert headers[k + 1] == headers[1..][k];
    }
  }

  const API_KEY_HEADER: string := "X-API-Key"
  const ROUTE_KEY: string := "123"

  /** `protect_route`: the handler runs only when the `X-API-Key` header is
      present, non-empty and equal to `str(123)`. */
  function ProtectRoute(headers: seq<(string, string)>): (out: GateOutcome)
    ensures out == RunHandler <==> HeaderGet(headers, API_KEY_HEADER) == Some("123")
    ensures out.Reject? ==> out.response.status == 401
    ensures HeaderGet(headers, API_KEY_HEADER) in {None, Some("")}
        ==> out == Reject(Response(401, "API key is missing"))
  {
    match HeaderGet(headers, API_KEY_HEADER)
    case None => Reject(Response(401, "API key is missing"))
    case Some(k) =>
      if k == "" then Reject(Response(401, "API key is missing"))
      else if k != ROUTE_KEY then Reject(Response(401, "Invalid API key"))
      else RunHandler
  }

  /** The request body as `await request.get_json()` yields it: no JSON body
      (`None`), a body that fails to parse (the call raises), or a document. */
  datatype Body = NoJson | Malformed | Parsed(doc: Json)

  const ENTRY_KEY: int := 3

  /** `validate_entry`: 200 when `int(body["api_key"]) == 3`, 401 for any
      other integer value, 400 when the field is missing and 400 when reading
      or converting it raises. The decimal value of a non-ASCII digit is
      the parameter `decimal`, as in `PyJson.IntOfString`. */
  function ValidateEntry(body: Body, decimal: char -> Option<nat>): (r: Response)
    ensures r.status == 200 <==> body.Parsed? && body.doc.Dict? && "api_key" in body.doc.fields
                                 && IntOf(body.doc.fields["api_key"], decimal) == Some(ENTRY_KEY)
    ensures r.status == 401 <==> body.Parsed? && body.doc.Dict? && "api_key" in body.doc.fields
                                 && IntOf(body.doc.fields["api_key"], decimal).Some?
                                 && IntOf(body.doc.fields["api_key"], decimal) != Some(ENTRY_KEY)
    ensures r.status in {200, 401, 400}
    ensures body.Parsed? && body.doc.Dict? && "api_key" !in body.doc.fields
        ==> r == Response(400, "Missing api_key field")
  {
    match body
    case Malformed => Response(400, "Invalid request")
    case NoJson => Response(400, "Missing api_key field")
    case Parsed(data) =>
      assert data.Dict? && "api_key" in data.fields ==> Truthy(data) by {
        if data.Dict? && "api_key" in data.fields {
          assert data.fields["api_key"] in data.fields.Values;
        }
      }
      if !Truthy(data) then Response(400, "Missing api_key field")
      else
        match StrIn("api_key", data)
        case MembershipTypeError => Response(400, "Invalid request")
        case NotMember => Response(400, "Missing api_key field")
        case Member =>
          if !data.Dict? then Response(400, "Invalid request")
          else
            var key := IntOf(data.fields["api_key"], decimal);
            if key.None? then Response(400, "Invalid request")
            else if ENTRY_KEY == key.value then Response(200, "Authorized")
            else Response(401, "Unauthorized")
  }

  /** The key may be written in another script's digits: `{"api_key": "٣"}`
      is authorized. */
  lemma ArabicIndicKeyAuthorized(decimal: char -> Option<nat>)
    requires decimal('\U{0663}') == Some(3)
    ensures ValidateEntry(Parsed(Dict(map["api_key" := Str("\U{0663}")])), decimal).status == 200
  {
    var data := Dict(map["api_key" := Str("\U{0663}")]);
    assert "api_key" in data.fields && data.fields["api_key"] == Str("\U{0663}");
    IntOfArabicIndicThree(decimal);
    assert IntOf(data.fields["api_key"], decimal) == Some(ENTRY_KEY);
  }

  /** A key led by the ASCII separator U+001C is refused with 400:
      `int("\x1c3")` raises, unlike `"\x1c3".strip()`. */
  lemma SeparatorKeyRefused(decimal: char -> Option<nat>)
    ensures ValidateEntry(Parsed(Dict(map["api_key" := Str("\U{001C}3")])), decimal)
         == Response(400, "Invalid request")
  {
    LeadingSeparatorNotSkipped(decimal);
    UnreadableKeyRefused(Str("\U{001C}3"), decimal);
  }

  /** A single `api_key` that `int()` cannot read gets 400 "Invalid request". */
  lemma UnreadableKeyRefused(v: Json, decimal: char -> Option<nat>)
    requires IntOf(v, decimal).None?
    ensures ValidateEntry(Parsed(Dict(map["api_key" := v])), decimal)
         == Response(400, "Invalid request")
  {
    var data := Dict(map["api_key" := v]);
    assert "api_key" in data.fields && data.fields["api_key"] == v;
    assert Truthy(data);
    assert StrIn("api_key", data) == Member;
  }
}
