# Sweet Home bakery app: a verified model of its logic

Sweet Home is a bakery-management app. It has a React front end and a Quart back end. This
project is a Dafny model of the app's deterministic logic and small stateful stores, with
proofs of what that logic promises. The model covers:

- **API keys (back end).** The in-memory key store (`keys`, `save_key_to_db`, `validate_key`,
  `expires_in`), the `LUNAR_` key generator and its hash, and the two hard-coded gates
  `protect_route` and `validate_entry` (`key_service.dfy`, with Python's JSON and `int`
  conversion in `py_json.dfy`).
- **Back-end validators.** The 13-digit numeric id of a text (`numeric_id.dfy`), the username
  and password rules (`register_service.dfy`), the HTML guard and the checks that precede PDF
  output in `format_sales_receipt` (`comprovante_service.dfy`), and the validation chain of a
  sale request with `safe_decimal` (`sales_route.dfy`).
- **CSV.** Quote escaping and row serialisation, the size guard, the quote-aware tokenizer, the
  import normalisers (`csv_service.dfy`), and the multi-section "all data" export and its
  parser (`csv_all_data.dfy`). The JavaScript values these functions handle and the engine's
  conversions are in `js_value.dfy`; `sanitizeInput` and `sanitizeHtml` are in `sanitizer.dfy`.
- **Aggregations.** Recipe cost, profit and margin (`cost_calculation_service.dfy`). Sale
  validation, item costs, the sale document and the stock rule of `finalizeSale`
  (`sales_service.dfy`). Sales by period, margins by period, best sellers and low-stock alerts
  (`reports_service.dfy`). The documents these share are in `documents.dfy`.
- **Caches and the offline queue.** `localStorage` is an object holding a map
  (`local_storage.dfy`). Over it sit the two TTL caches with lazy expiry (`cache_service.dfy`,
  `offline_cache_service.dfy`). The pending-operation queue and `syncData` are in
  `offline_storage_service.dfy`.
- **Utilities.** Password strength with its labels and colours, the form validators, record
  cleaning and structure validation, log levels and log-field redaction, and image-file
  validation.
- **UI logic.** The `usePagination` hook as a class, the page window of `Pagination`, the
  point-of-sale cart and its modal flow (`pdv_page.dfy`), the date and stock formatting and the
  expiry classes of the cards, and the error-count state machine of `ErrorBoundary`.

Each piece of code that updates state in place is a class whose methods state the new state.
`ErrorBoundary`, the `PDVPage` state, the pager, `localStorage`, the key store and the offline
queue are classes. Loops are methods with invariants, proved equal to a specification function.
Pure code is functions and lemmas. External effects are parameters:

- the clock (`now`);
- randomness (the index drawn for each key character);
- SHA-256;
- the JavaScript engine's number printing and parsing;
- the calendar behind `new Date`;
- which remote calls throw.

`text.dfy` holds the string helpers the modules share (split, join, trim, lower case).

## Model

| member | source | states |
|---|---|---|
| KeyService.KeyAlphabetIsAlnum | server/src/services/key_service.py:49 | the 62-character alphabet `ascii_letters + digits` holds exactly the ASCII letters and digits, each once |
| KeyService.GenerateKey | server/src/services/key_service.py:47-52 | the key is `LUNAR_` followed by exactly `t` characters (none for `t <= 0`), each an ASCII letter or digit |
| KeyService.GenerateKeyInjective | server/src/services/key_service.py:50 | different choices of characters give different keys |
| KeyService.HexDigest | server/src/services/key_service.py:56 | `hexdigest` writes two lower-case hex digits per byte |
| KeyService.HexRoundTrip | server/src/services/key_service.py:56 | reading the hex digest back gives the digest bytes |
| KeyService.Utf8Ascii | server/src/services/key_service.py:56 | `encode()` of an ASCII key is one byte per character, the character's code |
| KeyService.KeyToHash | server/src/services/key_service.py:54-56 | the hash is 64 lower-case hex digits |
| KeyService.KeyToHashCollision | server/src/services/key_service.py:54-56 | two keys hash alike exactly when SHA-256 of their UTF-8 bytes agree |
| KeyService.GenerateExpirationTime | server/src/services/key_service.py:58-62 | the expiry is `now` plus the given minutes, later than `now` for a positive count |
| KeyService.SavedKeyValidFor60Minutes | server/src/services/key_service.py:91-100 | a newly saved key is valid exactly until 60 minutes after saving; at the expiry instant it is no longer valid |
| KeyService.SaveNeverOverwrites | server/src/services/key_service.py:93-95 | saving a present key leaves the store and that key's validity unchanged |
| KeyService.SaveKeepsOtherKeys | server/src/services/key_service.py:96-97 | saving a key leaves every other key's presence and expiry as they were |
| KeyService.KeyStore.SaveKeyToDb | server/src/services/key_service.py:91-100 | returns True exactly for an absent key, then stores it with expiry `now` + 60 minutes; a present key leaves `keys` unchanged |
| KeyService.KeyStore.ValidateKey | server/src/services/key_service.py:66-78 | True exactly when the key is stored and `now` is strictly before its expiry; the store is not changed, so expired keys stay |
| KeyService.KeyStore.ExpiresIn | server/src/services/key_service.py:80-89 | `None` for an absent key; otherwise expiry minus `now`, possibly negative, positive exactly when the key is valid |
| KeyService.HeaderGet | server/src/services/key_service.py:16 | the header value found has a name equal to the one asked for, ignoring case; `None` when no header has that name |
| KeyService.ProtectRoute | server/src/services/key_service.py:12-28 | the handler runs exactly when `X-API-Key` is present and equals `"123"`; otherwise the answer is 401 |
| KeyService.ValidateEntry | server/src/services/key_service.py:32-45 | 200 exactly when the body's `api_key` converts by `int` to 3, in any script's digits; 401 exactly when it converts to another integer; 400 for a missing field, a body that is not a dict or a value `int` refuses (including text led or ended by U+001C to U+001F, and a numeral of more than 4300 digits) |
| KeyService.ArabicIndicKeyAuthorized | server/src/services/key_service.py:36-40 | `{"api_key": "٣"}` (Arabic-Indic three) is authorized |
| KeyService.UnreadableKeyRefused | server/src/services/key_service.py:36-45 | a body whose only field `api_key` is a value `int` refuses gets 400 "Invalid request" |
| KeyService.SeparatorKeyRefused | server/src/services/key_service.py:36-45 | `{"api_key": "\u001c3"}` gets 400 "Invalid request", since `int()` does not skip U+001C |
| KeyService.KeyStore.constructor | server/src/services/key_service.py:64 | the key store starts with no keys |
| PyJson.StrIn | server/src/services/key_service.py:36 | `'api_key' in data` is a membership test for a dict and raises a TypeError for `None`, a bool or a number |
| PyJson.TruncateTowardZero | server/src/services/key_service.py:38 | `int()` of a float drops the fraction toward zero, for negative values as well |
| PyJson.StripStart | server/src/services/key_service.py:38 | `int()` skips exactly the leading C whitespace (space and tab through carriage return): every dropped character is one, and the rest starts with another character; U+001C to U+001F are not skipped |
| PyJson.StripEnd | server/src/services/key_service.py:38 | `int()` skips exactly the trailing C whitespace: every dropped character is space or tab through carriage return, and the rest ends with another character |
| PyJson.IntOf | server/src/services/key_service.py:38 | `int(x)` of an integer is that integer; of `None`, a list or a dict it fails; of a float it succeeds exactly when the float is finite (`NaN` raises `ValueError`, an infinity `OverflowError`) |
| PyJson.AsciiOf | server/src/services/key_service.py:38 | `int()` first maps every character to ASCII: an ASCII character stays as it is; the result is an ASCII digit exactly for an ASCII digit or a non-ASCII, non-space character with a decimal value below 10; it is skippable whitespace exactly for C whitespace or non-ASCII Unicode whitespace |
| PyJson.ToAscii | server/src/services/key_service.py:38 | the first pass maps the text character by character, keeping its length |
| PyJson.IntOfAsciiString | server/src/services/key_service.py:38 | text made only of ASCII characters reads the same whatever other scripts' digits are |
| PyJson.IntOfArabicIndicThree | server/src/services/key_service.py:38 | `int("٣")` is 3 |
| NumericId.ToDecimal | server/src/utils/utils.py:27 | `str(n)` of a natural number is a non-empty run of decimal digits |
| NumericId.ToDecimalValue | server/src/utils/utils.py:27 | the digits of `str(n)` denote `n`, and number below 10^k takes at most `k` digits |
| NumericId.ZFill | server/src/utils/utils.py:27 | `zfill(w)` pads to width `w` and never shortens |
| NumericId.ZFillValue | server/src/utils/utils.py:27 | zero-padding keeps the text all digits and keeps the value it denotes |
| NumericId.NumericIdDenotesSum | server/src/utils/utils.py:18-29 | the id is exactly 13 decimal digits denoting the sum of the codes of the alphanumeric characters of the concatenation, modulo 10^13 |
| NumericId.AlnumOrdSumAppend | server/src/utils/utils.py:25 | the character-code sum of a concatenation is the sum of the parts' sums |
| NumericId.NonAlnumIgnored | server/src/utils/utils.py:25 | inserting a character that is not alphanumeric changes neither the sum nor the id |
| NumericId.AlnumOrdSumPermutation | server/src/utils/utils.py:25 | the sum does not depend on the order of the characters |
| NumericId.NumericIdDependsOnCharacters | server/src/utils/utils.py:23-27 | any two argument triples whose concatenations are permutations of each other, such as `(a, b, c)` and `(a+b, "", c)`, give the same id |
| NumericId.EmptyInputIsZero | server/src/utils/utils.py:20-27 | a missing or empty input with empty extras gives `"0000000000000"` |
| PyJson.AsciiUnchanged | server/src/services/key_service.py:38 | the first pass leaves ASCII text unchanged |
| PyJson.LeadingSeparatorNotSkipped | server/src/services/key_service.py:38 | U+001C is whitespace to `str.isspace()`, yet `int("\x1c3")` raises |
| PyJson.TrailingSeparatorNotSkipped | server/src/services/key_service.py:38 | U+001F is whitespace to `str.isspace()`, yet `int("3\x1f")` raises |
| PyJson.DigitCountZeros | server/src/services/key_service.py:38 | `n` zeros followed by `3` count as `n + 1` digits toward the limit |
| PyJson.DigitCountCons | server/src/services/key_service.py:38 | a character other than `_` put in front adds one digit to the count |
| PyJson.NumeralTooLong | server/src/services/key_service.py:38 | a numeral that needs no stripping and has more than 4300 digits is refused, whatever its value |
| PyJson.LongNumeralRefused | server/src/services/key_service.py:38 | `int("0" * 4300 + "3")` raises, although its value is 3 |
| RegisterService.ValidateUsername | server/src/services/register_service.py:13-17 | an empty or missing name is refused |
| RegisterService.ValidateUsernameExactly | server/src/services/register_service.py:20 | accepted exactly when the name is an ASCII letter followed by 2 to 19 letters, digits or `_`, optionally followed by one final newline (`$` in `re.match`); so an accepted name without a newline has 3 to 20 such characters |
| RegisterService.UsernameTrailingNewline | server/src/services/register_service.py:20 | `"ana\n"` is accepted, `"ana\n\n"` and `"1ana"` are not |
| RegisterService.ValidatePassword | server/src/services/register_service.py:41-53 | an accepted password is present and at least 8 characters long |
| RegisterService.ValidatePasswordExactly | server/src/services/register_service.py:48-50 | accepted exactly when the text (less one optional final newline) has 8 or more characters from letters, digits and `@$!%*?&`, with a lower-case letter, an upper-case letter, a digit and one of `@$!%*?&` |
| ComprovanteService.SanitizeHtmlForPdf | server/src/services/comprovante_service.py:26-46 | returns the input unchanged exactly when it is a string of at most 500×1024 characters whose lower-cased text holds none of the 17 patterns; `None` otherwise |
| ComprovanteService.SanitizeIdempotent | server/src/services/comprovante_service.py:46 | sanitising accepted text again gives the same result |
| ComprovanteService.LowerKeepsOccurrence | server/src/services/comprovante_service.py:40-42 | an occurrence in the text is still one after lower-casing both sides |
| ComprovanteService.ScriptInAnyCaseRejected | server/src/services/comprovante_service.py:35-44 | text holding `<script` in any mix of cases is refused |
| ComprovanteService.UpperScriptRejected | server/src/services/comprovante_service.py:35-44 | `<SCRIPT>` is refused |
| ComprovanteService.PathJoin | server/src/services/comprovante_service.py:63 | `os.path.join` puts one `/` between the parts unless the base is empty or already ends in `/` |
| ComprovanteService.FormatSalesReceiptGuards | server/src/services/comprovante_service.py:48-76 | reaches the PDF writer exactly when the HTML is a string of at least 50 characters that passes sanitising, the base path is a string, the directory holds no `..`, the directory could be made and the path has at most 260 characters; it writes only to `<base>/comprovante/comprovante.pdf` |
| ComprovanteService.AppendFileNameNoDotDot | server/src/services/comprovante_service.py:72 | appending `/comprovante.pdf` to a directory free of `..` that does not end in `.` adds no `..` |
| ComprovanteService.PdfPathOfDirectory | server/src/services/comprovante_service.py:63-72 | when the `comprovante` directory holds no `..`, neither does the PDF path inside it |
| ComprovanteService.PdfPathHasNoDotDot | server/src/services/comprovante_service.py:63-76 | a path the guards let through never holds `..` |
| SalesRoute.SafeDecimal | server/src/routes/sales.py:17-23 | `None`, a boolean, a list and a dict give the default; an integer or float gives its own value, not-a-number and the infinities included; a text gives its decimal reading when there is one, else the default |
| SalesRoute.SafeDecimalIsDecimalOfStr | server/src/routes/sales.py:17-23 | where `str()` and `Decimal()` behave as in Python, `safe_decimal` is `Decimal(str(value))`, with the default for `None` and wherever the conversion raises |
| SalesRoute.AnyNegativeCases | server/src/routes/sales.py:65 | the `or` chain of `< 0` tests is true exactly when a negative amount comes before any not-a-number, raises exactly when a not-a-number comes first, and is false exactly when every amount is not negative |
| SalesRoute.Amounts | server/src/routes/sales.py:59-65 | four amounts are compared, in the order of the test |
| SalesRoute.PaymentMethodOf | server/src/routes/sales.py:47-53 | the payment type names `PIX` or `DINHEIRO` exactly when its text, upper-cased, is that name |
| SalesRoute.PaymentTypeAnyCase | server/src/routes/sales.py:47-53 | `"pix"` and `"Dinheiro"` are accepted in any case; `"credito"` is not |
| SalesRoute.QuantitySum | server/src/routes/sales.py:79 | the quantity sum exists exactly when every item is a dict whose `quantity` (0 when missing) can be added |
| SalesRoute.QuantitySumAllInts | server/src/routes/sales.py:79 | with integer quantities (a missing one read as 0), the receipt quantity is their sum |
| SalesRoute.QuantitySumNaN | server/src/routes/sales.py:79 | one `NaN` quantity makes the whole sum `NaN` |
| SalesRoute.MissingRequired | server/src/routes/sales.py:40-41 | `in` raises exactly when it raises for `payer`; all three fields are present exactly when `in` finds each, which for a dict is key membership |
| SalesRoute.CheckSaleRequest | server/src/routes/sales.py:35-79 | an empty body gives 400, then a missing `payer`, `receiver` or `payment_type` gives 400; a request that passes has a known payment type, a non-empty item list, amounts that are not negative, a percent of at most 100 and a positive total, and carries exactly the body's payment type, items, five `safe_decimal` amounts, names, description and quantity sum |
| SalesRoute.CheckSaleAmounts | server/src/routes/sales.py:59-79 | passes exactly when no amount is negative or not a number, the percent is at most 100, the total is positive, both parties are dicts and the quantities add up; a request that passes carries the body's amounts, names and description cut to 100 characters and the quantity sum; a rejection is a 400 or 500 |
| SalesRoute.ChecksInOrder | server/src/routes/sales.py:43-72 | with the required fields present, the checks fire in the source's order: payment type, then items that are not a non-empty list, then the first of the four amounts that is negative (400) or not a number (500), then the percent over 100, then a total that is not positive (400) or not a number (500), whatever the later fields hold |
| SalesRoute.NaNSubtotalIsServerError | server/src/routes/sales.py:65-126 | a body with `"subtotal": "NaN"` gets the 500 reply, since `Decimal("NaN") < 0` raises |
| SalesRoute.NameDefaults | server/src/routes/sales.py:74-76 | a payer or receiver that is absent or a dict without `nome` is named `Cliente` or `Sweet Home`; one that is not a dict raises; a missing description reads `Venda` |
| SalesRoute.FinishSale | server/src/routes/sales.py:35-126 | the reply is always 400 or 500, and 400 exactly for a 400 of the validation chain: a request that passes reaches the `Comprovante` constructor, whose undeclared keyword arguments raise into the 500 handler |
| JsValue.Substring0 | src/utils/sanitizer.js:20 | `substring(0, end)` is a prefix of the text, and an end that converts to `NaN` (such as an options object) gives `''` |
| Sanitizer.Entity | src/utils/sanitizer.js:4-10 | every character maps to a non-empty replacement |
| Sanitizer.EscapeHtml | src/utils/sanitizer.js:12 | the escaped text is no shorter than the input and holds none of `<`, `>`, `"`, `'` |
| Sanitizer.SanitizeHtml | src/utils/sanitizer.js:1-13 | a falsy or non-string input gives `''`; otherwise the result is no shorter than the input and holds none of `<`, `>`, `"`, `'` |
| Sanitizer.EscapeHtmlIdentity | src/utils/sanitizer.js:12 | text without any of the five special characters is returned unchanged |
| Sanitizer.EscapeHtmlRoundTrip | src/utils/sanitizer.js:4-12 | decoding the five entities undoes the escaping, so no information is lost |
| Sanitizer.UnescapeEntity | src/utils/sanitizer.js:4-10 | the entity of a character decodes to that character |
| Sanitizer.UnescapePlain | src/utils/sanitizer.js:12 | a character that is not special decodes to itself |
| Sanitizer.UnescapeAmp | src/utils/sanitizer.js:5 | `&amp;` decodes to `&` |
| Sanitizer.UnescapeLt | src/utils/sanitizer.js:6 | `&lt;` decodes to `<` |
| Sanitizer.UnescapeGt | src/utils/sanitizer.js:7 | `&gt;` decodes to `>` |
| Sanitizer.UnescapeQuot | src/utils/sanitizer.js:8 | `&quot;` decodes to `"` |
| Sanitizer.UnescapeApos | src/utils/sanitizer.js:9 | `&#039;` decodes to `'` |
| Sanitizer.StripAngles | src/utils/sanitizer.js:21 | removing `<` and `>` never lengthens the text and leaves neither character |
| Sanitizer.SanitizeInput | src/utils/sanitizer.js:15-22 | a falsy or non-string input gives `''`; otherwise the result is the trimmed text cut to the limit, without `<` and `>`, and no longer than the limit |
| Sanitizer.SanitizeInputOfTrimmed | src/utils/sanitizer.js:19 | trimming before the call changes nothing |
| Sanitizer.SanitizeInputWithOptionsObject | src/utils/sanitizer.js:20 | an options object passed as `maxLength` makes every result `''` |
| Sanitizer.SanitizeInputKeepsCleanText | src/utils/sanitizer.js:15-22 | trimmed text within the limit and without `<` or `>` is returned unchanged |
| Sanitizer.StripAnglesIdentity | src/utils/sanitizer.js:21 | text without `<` or `>` is left unchanged |
| CsvService.DoubleQuotes | src/services/csvService.js:19 | doubling the quotes lengthens the text by its number of `"` and doubles that number |
| CsvService.DoubleQuotesIdentity | src/services/csvService.js:19 | text without `"` is unchanged by the doubling |
| CsvService.DoubleQuotesAppend | src/services/csvService.js:19 | the doubling distributes over concatenation |
| CsvService.DoubleQuotesKeeps | src/services/csvService.js:19 | a character other than `"` occurs in the doubled text exactly when it occurs in the original |
| CsvService.EscapeCSVValue | src/services/csvService.js:17-20 | a non-text value escapes to `''`; text escapes to a prefix of its quote-doubled form, at most 50000 characters, and to the whole doubled form when that fits |
| CsvService.ExportCells | src/services/csvService.js:25-31 | one cell per header, each the export of that header's field |
| CsvService.HeaderCells | src/services/csvService.js:23 | one quoted, escaped cell per header |
| CsvService.ExportLines | src/services/csvService.js:24-32 | one line per row: its cells joined by commas |
| CsvService.GenerateCSVContentLines | src/services/csvService.js:22-34 | for text fields without newlines the content splits into exactly the header line followed by one line per row |
| CsvService.GenerateCSVContentReadsBack | src/services/csvService.js:22-34 | for such rows the tokenizer reads the header line back as the headers and every row line back as that row's texts |
| CsvService.ExportRowReadsBack | src/services/csvService.js:24-31 | a row of short text fields exports to one line the tokenizer reads back as the field texts |
| CsvService.HeaderLineReadsBack | src/services/csvService.js:23 | a header line of short, newline-free headers tokenizes back to the headers |
| CsvService.Scan | src/services/csvService.js:94-115 | the quote-aware scan always yields at least one more field than it started with |
| CsvService.TokenizeLine | src/services/csvService.js:276-285 | the character loop with its `insideQuotes` state computes the tokenizer's fields |
| CsvService.ScanInsideQuotes | src/services/csvService.js:98-104 | inside quotes a doubled `""` yields one literal `"` and a single `"` closes the field |
| CsvService.ScanComma | src/services/csvService.js:105-111 | a comma outside quotes ends the current field and starts an empty one |
| CsvService.TokenizeQuotedLine | src/services/csvService.js:94-115 | a line of quoted, quote-doubled cells joined by commas tokenizes back to exactly those cells, commas and quotes included |
| CsvService.EscapeCutSplitsQuotePair | src/services/csvService.js:19 | 49999 letters followed by one `"` escape to a text that is not the quote-doubling of any text: the cut splits the `""` pair |
| CsvService.EscapeCSVValueCorrected | src/services/csvService.js:17-20 | cutting to 50000 characters before doubling: a non-text value gives `''`, text gives the doubling of its first 50000 characters |
| CsvService.EscapeCorrectedReadsBack | src/services/csvService.js:17-20 | the corrected escape of any text, quoted, tokenizes back to exactly the text's first 50000 characters |
| CsvService.ValidateCSVSize | src/services/csvService.js:64-71 | passes exactly text of at most 10 MiB; rejects a non-text value as invalid and longer text as too large |
| CsvService.NonBlank | src/services/csvService.js:76 | the kept lines are among the input's and none is blank after trimming |
| CsvService.RemoveQuotes | src/services/csvService.js:79 | removing the quotes leaves no `"` and never lengthens |
| CsvService.HeaderNames | src/services/csvService.js:79 | each header is its cell without quotes, trimmed and cut to 100 characters |
| CsvService.HeaderKeyAt | src/services/csvService.js:106 | the key a column is stored under is its header trimmed |
| CsvService.CellSanitizerOfTrimmed | src/services/csvService.js:108 | a cell is stored as the sanitized form of its trimmed text under the limit passed |
| CsvService.RowPrefixNext | src/services/csvService.js:105-121 | closing one more column stores its sanitized cell under its header key when the key is non-empty, and changes nothing otherwise |
| CsvService.LineRowsAt | src/services/csvService.js:89-122 | each line becomes the object built from its tokenized fields |
| CsvService.KeepRows | src/services/csvService.js:83-87 | no more than 10000 rows are kept in all |
| CsvService.KeepRowsHaveValues | src/services/csvService.js:124-127 | every kept row has a truthy value |
| CsvService.KeepRowsOfEmptyRows | src/services/csvService.js:124-127 | rows with no truthy value are all dropped |
| CsvService.KeepRowsOfFilledRows | src/services/csvService.js:83-127 | within the cap, rows with a value are all kept in order |
| CsvService.KeepRowsStep | src/services/csvService.js:83-127 | below the cap a row with a value is kept and counted, one without is skipped |
| CsvService.ParseTable | src/services/csvService.js:73-131 | throws for non-text and for text over 10 MiB; succeeds exactly when the text fits and has at least two non-blank lines; never returns more than 10000 rows |
| CsvService.BuildRow | src/services/csvService.js:89-122 | the tokenizing loop builds the row object the specification function describes |
| CsvService.ReadDataRows | src/services/csvService.js:83-128 | the row loop keeps exactly the rows the cap-and-filter specification keeps |
| CsvService.ParseCSVContentSecure | src/services/csvService.js:73-131 | the method returns the specified parse, with the options object as the limit the code passes |
| CsvService.OptionsStoreNothing | src/services/csvService.js:108 | with the options object as the limit, every cell is stored as `''` |
| CsvService.RowObjectAllEmpty | src/services/csvService.js:124 | a row whose cells are all stored as `''` has no truthy value |
| CsvService.ParseAsWrittenKeepsNoRows | src/services/csvService.js:108-127 | as written every successful parse returns no rows at all |
| CsvService.RowObjectStores | src/services/csvService.js:105-121 | a column whose key no later column reuses is stored under its key |
| CsvService.CorrectedRowKeepsCells | src/services/csvService.js:105-121 | with a numeric limit of 1000, a trimmed cell within the limit and free of `<` and `>` is stored unchanged |
| CsvService.CorrectedLineIsKept | src/services/csvService.js:124-127 | with that limit such a non-empty cell makes its row kept |
| CsvService.CorrectedParseKeepsFilledLines | src/services/csvService.js:73-131 | with that limit a file of at most 10000 filled data lines returns one row per data line, in order |
| CsvService.TryParseJSON | src/services/csvService.js:133-147 | non-text, and text not starting with `[` or `{` after trimming, is returned as it is; otherwise the result is the input or a parsed array or object |
| CsvService.TryParseJSONIdempotent | src/services/csvService.js:133-147 | applying it twice is applying it once |
| CsvService.FieldOr | src/services/csvService.js:456 | a field that is present and non-empty, else the fallback |
| CsvService.ParseIntOf | src/services/csvService.js:452 | `parseInt` gives a number or `NaN` |
| CsvService.ParseFloatOf | src/services/csvService.js:455 | `parseFloat` gives a number or `NaN` |
| CsvService.NumberOr | src/services/csvService.js:452 | a non-zero number is kept, `NaN` and 0 give the fallback |
| CsvService.AtLeast | src/services/csvService.js:454-455 | the clamped value is at least the floor and is the floor, the fallback or the number |
| CsvService.SanitizeWithOptions | src/services/csvService.js:453 | `sanitizeInput` with an options object as the limit gives `''` |
| CsvService.SweetOfRow | src/services/csvService.js:451-461 | an imported sweet has stock at least 0, price at least 0.01, unit weight at least 0, a non-empty unit name, and an empty name and observations |
| CsvService.ImportSweets | src/services/csvService.js:447-469 | one sweet per parsed row, in order |
| CsvService.IngredientOfRow | src/services/csvService.js:475-488 | an imported ingredient has non-negative stock, factor, display price and cost, a non-empty base unit, and empty name, brand and observations |
| CsvService.ImportIngredients | src/services/csvService.js:471-496 | one ingredient per parsed row, in order |
| CsvService.KitchenwareOfRow | src/services/csvService.js:502-508 | an imported item has non-negative quantity and a condition among Novo, Bom and Desgastado, kept from the row when it is one of them |
| CsvService.ImportKitchenware | src/services/csvService.js:498-516 | one item per parsed row, in order |
| CsvService.SaleOfRow | src/services/csvService.js:522-532 | an imported sale has non-negative total and cost, status `completed`, a non-empty id, truthy items and an empty operator name |
| CsvService.ImportSales | src/services/csvService.js:518-540 | one sale per parsed row, in order |
| CsvService.ImportsAsWrittenAreEmpty | src/services/csvService.js:447-540 | as written all four importers return nothing for any content they accept |
| CsvAllData.SectionCell | src/services/csvService.js:152-157 | a present value is written quoted; `null` and `undefined` give an empty cell |
| CsvAllData.SectionCells | src/services/csvService.js:152-158 | one cell per header, each the cell of that header's field |
| CsvAllData.SectionRowLines | src/services/csvService.js:151-159 | one line per record |
| CsvAllData.BuildSection | src/services/csvService.js:149-161 | a section is two lines more than its records, the first a marker line |
| CsvAllData.BuildSectionLines | src/services/csvService.js:149-161 | a section is the marker line naming it, the comma-joined headers and one record line per record |
| CsvAllData.BuildSectionClean | src/services/csvService.js:149-161 | for exportable records every line of a section is clean and every record line starts with `"` |
| CsvAllData.SplitLines | src/services/csvService.js:255 | splitting on `\r?\n` gives as many lines as splitting on `\n` |
| CsvAllData.DropReturn | src/services/csvService.js:255 | a line loses at most one trailing `\r` |
| CsvAllData.SectionName | src/services/csvService.js:262 | the section name, when there is one, holds no comma |
| CsvAllData.HeaderList | src/services/csvService.js:265 | the headers are the comma-separated parts of the line, trimmed |
| CsvAllData.StripOuterQuotes | src/services/csvService.js:288 | a field without `"` is left unchanged |
| CsvAllData.CollapseQuotes | src/services/csvService.js:288 | collapsing `""` to `"` never lengthens |
| CsvAllData.CollapseQuotesIdentity | src/services/csvService.js:288 | a field without `"` is left unchanged |
| CsvAllData.ConvertText | src/services/csvService.js:289-294 | text not starting with `{` or `[` becomes the number it spells when it is non-blank and numeric, and stays text otherwise |
| CsvAllData.RecordPrefix | src/services/csvService.js:287-296 | the record's keys are exactly the headers read so far |
| CsvAllData.NextMarker | src/services/csvService.js:268 | the row loop's stop is the first marker line at or after its start, or the end |
| CsvAllData.AddRecord | src/services/csvService.js:298 | adding a record keeps the collections' names, and throws exactly for a section named after an inherited object member |
| CsvAllData.SectionRecords | src/services/csvService.js:268-302 | the row loop moves forward and stays within the lines |
| CsvAllData.ParseAll | src/services/csvService.js:252-305 | rejects what the size guard rejects, and a file whose first non-blank line is not exactly `__ALL_DATA_CSV_V1` |
| CsvAllData.ParseAllSingle | src/services/csvService.js:252-305 | the method with its nested loops returns the specified parse |
| CsvAllData.ReadSections | src/services/csvService.js:259-303 | the section loop computes the specified sections |
| CsvAllData.ReadSection | src/services/csvService.js:267-302 | the row loop of one section computes the specified records and stopping line |
| CsvAllData.ReadRecordLine | src/services/csvService.js:273-296 | a record line is tokenized and converted under its headers |
| CsvAllData.BuildRecord | src/services/csvService.js:286-296 | the `forEach` over the headers builds the specified record |
| CsvAllData.SectionRecordsGrowsNamed | src/services/csvService.js:297-300 | a section only appends to its own collection, and only records with a truthy value |
| CsvAllData.SectionRecordsCap | src/services/csvService.js:269-272 | a section adds at most 10000 records |
| CsvAllData.SectionRecordsThrows | src/services/csvService.js:298 | a section throws only when its name is an inherited object member such as `constructor` |
| CsvAllData.UnknownSectionIgnored | src/services/csvService.js:298 | a section with an unknown, ordinary name leaves every collection unchanged |
| CsvAllData.SectionsGrow | src/services/csvService.js:259-303 | the sections only append truthy records to the four collections |
| CsvAllData.SectionsErrors | src/services/csvService.js:261 | a marker error names a line that is not a marker line |
| CsvAllData.ParseAllShape | src/services/csvService.js:252-305 | a successful parse has exactly the four collections and only records with a truthy value |
| CsvAllData.ParseAllErrors | src/services/csvService.js:253-261 | every failure is one of: invalid value, too large, wrong first line, a named non-marker line, or a section named after an inherited member |
| CsvAllData.CorrectedParseMarkerErrorAtLineTwo | src/services/csvService.js:261-272 | when the cap skips to the next marker, a marker error can only be on line 2 |
| CsvAllData.RowLineTokens | src/services/csvService.js:276-285 | a record line built from fields without `null` tokenizes back to the field texts |
| CsvAllData.RecordReadsBack | src/services/csvService.js:276-296 | when each text converts back to its value, a record line reads back as the record's projection on the headers |
| CsvAllData.CellValueOfQuoteFree | src/services/csvService.js:288 | for text without `"` the second unescaping changes nothing |
| CsvAllData.ContentLinesOfClean | src/services/csvService.js:255 | clean lines joined by newlines split back into the same lines |
| CsvAllData.MarkerLineName | src/services/csvService.js:160 | a marker line written for a comma-free name reads back as that name |
| CsvAllData.HeaderLineReads | src/services/csvService.js:150 | a header line written for exportable headers reads back as the headers |
| CsvAllData.RunRecords | src/services/csvService.js:268-302 | one record per line of the run, each the line read under the headers |
| CsvAllData.SectionRecordsRun | src/services/csvService.js:268-302 | a run of filled record lines within the cap appends exactly their records to the named collection |
| CsvAllData.Capped | src/services/csvService.js:176 | `slice(0, 10000)`: a prefix of at most 10000 records, the whole list when it fits |
| CsvAllData.SectionReadsBack | src/services/csvService.js:259-303 | an exported section within the cap is read into its collection as its records' projections |
| CsvAllData.SectionReadsBackSkipping | src/services/csvService.js:268-272 | with the cap skipping to the next marker, an oversized section is read as its first 10000 records |
| CsvAllData.ExportReadsBack | src/services/csvService.js:252-305 | the export of named sections whose lines read back parses to those sections' records in the empty collections |
| CsvAllData.CorrectedParseReadsExportBack | src/services/csvService.js:176-305 | with the corrected cap and reader, every export of the four collections whose values read back is restored exactly, each collection cut to its first 10000 records |
| CsvAllData.AsWrittenParseReadsQuoteFreeExportBack | src/services/csvService.js:176-305 | as written, every export whose texts hold no `"` is restored, however large the collections, because the export cuts each to 10000 records |
| CsvAllData.CorrectedParseReadsSectionsFile | src/services/csvService.js:252-305 | with the corrected cap and reader, a file of sections of any size whose values read back is restored, each section cut to its first 10000 records |
| CsvAllData.AsWrittenParseReadsQuoteFreeFile | src/services/csvService.js:252-305 | as written, a file of sections is restored when its texts hold no `"` and no section exceeds 10000 records |
| CsvAllData.CapSections | src/services/csvService.js:176-230 | the export keeps every section and cuts each one's records with `slice(0, 10000)` |
| CsvAllData.CappedSectionKeeps | src/services/csvService.js:176 | cutting a section keeps it exportable, readable back and quote-free, within 10000 records |
| CsvAllData.RestoredCapSections | src/services/csvService.js:176-272 | reading the cut sections gives what reading the whole sections with the corrected cap gives |
| CsvAllData.OversizedSectionStops | src/services/csvService.js:269-272 | as written, a section past the cap stops on a record line, which is then rejected as a missing marker |
| CsvAllData.AsWrittenOversizedSectionThrows | src/services/csvService.js:259-272 | as written, a file whose one section holds more than 10000 records (made or edited by hand, since the export cuts its sections) fails to import with a marker error on line 10004 |
| CsvAllData.AsWrittenDoubledQuoteTextLost | src/services/csvService.js:288 | as written, a text field `""` exported and read back becomes empty |
| CsvAllData.CorrectedDoubledQuoteTextKept | src/services/csvService.js:288 | the corrected reader keeps the text `""` |
| CsvAllData.CorrectedReaderReadsRecords | src/services/csvService.js:273-290 | the corrected line reader gives each exported record line back as the record restricted to the headers |
| CsvAllData.AsWrittenReaderReadsRecords | src/services/csvService.js:273-290 | the line reader as written gives each exported record line back when no field text holds a quote |
| Validators.ServerAcceptedPassesForm | src/utils/validators.js:7-13 | a user name or password the server's sign-up validators accept also passes the form's length windows, while the six-letter password `abcdef` passes the form and not the server |
| Validators.ValidEmailShape | src/utils/validators.js:2-5 | an address the pattern accepts has exactly one `@`, no whitespace, and a `.` with text on both sides after the `@` |
| Validators.EmailOfShape | src/utils/validators.js:2-5 | conversely, text before a single `@`, no whitespace, and a domain with an interior `.` make an address the pattern accepts |
| Validators.EmailPieces | src/utils/validators.js:3 | the three runs of the pattern fix a single `@`, no whitespace and non-empty pieces around the `.` |
| Validators.EmailExamples | src/utils/validators.js:2-5 | `a@b.c` is accepted and `a@b@c.d` is rejected |
| Validators.PriceIsNumber | src/utils/validators.js:15-32 | every valid price is a valid number, and a valid number that is no price parses to 0 |
| Validators.SweetNameWindow | src/utils/validators.js:25-27 | a sweet name is valid for two to a hundred characters: one more character makes a name valid exactly when it had one to ninety-nine, and the empty name and one letter are refused |
| PasswordStrength.LengthPoints | src/utils/passwordStrength.js:6-9 | the length thresholds add at most 50 points |
| PasswordStrength.ClassPoints | src/utils/passwordStrength.js:11-14 | the four character classes add at most 60 points |
| PasswordStrength.CalculatePasswordStrength | src/utils/passwordStrength.js:1-17 | the scoring steps compute the strength function |
| PasswordStrength.StrengthBounds | src/utils/passwordStrength.js:1-17 | the score is in 0..100, is 0 exactly for the empty password, and is at least 15 for any other |
| PasswordStrength.StrengthMonotone | src/utils/passwordStrength.js:6-16 | appending a character never lowers the score |
| PasswordStrength.StrengthFull | src/utils/passwordStrength.js:6-16 | sixteen or more characters with all four classes score exactly 100 |
| PasswordStrength.Band | src/utils/passwordStrength.js:19-26 | a score falls in one of six bands, cut at 0, 20, 40, 60 and 80 |
| PasswordStrength.PresentationFollowsBands | src/utils/passwordStrength.js:19-44 | two scores get the same label, the same bar colour and the same text colour exactly when they are in the same band |
| PasswordStrength.BandLabel | src/utils/passwordStrength.js:19-44 | each band has its own label, bar colour and text colour, in order from Nenhuma to Muito Forte |
| PasswordStrength.MeterOfPassword | src/utils/passwordStrength.js:1-26 | the label is Nenhuma exactly for the empty password, and Muito Forte for sixteen characters with all four classes |
| CleanInvalidData.CleanInvalid | src/utils/cleanInvalidData.js:3-7 | anything but an array gives an empty list |
| CleanInvalidData.KeepSpec | src/utils/cleanInvalidData.js:9-23 | the kept items are a subsequence of the input, every kept item is valid, and every valid item is kept |
| CleanInvalidData.KeepIdempotent | src/utils/cleanInvalidData.js:9-23 | cleaning a list of valid items changes nothing, and cleaning twice is cleaning once |
| CleanInvalidData.KeepAppend | src/utils/cleanInvalidData.js:9-23 | cleaning distributes over concatenation |
| CleanInvalidData.DroppedItems | src/utils/cleanInvalidData.js:14-15 | an item whose id is the text `undefined` or `null`, or which has none of the four name fields, is dropped |
| CleanInvalidData.ValidateDataStructure | src/utils/cleanInvalidData.js:26-47 | the loop over the expected fields computes the specified validation |
| CleanInvalidData.NoErrorsIffAllPresent | src/utils/cleanInvalidData.js:37-41 | there are no missing-field errors exactly when every expected field is a property of the data |
| CleanInvalidData.MissingErrorsAppend | src/utils/cleanInvalidData.js:37-41 | the errors of two field lists are the errors of each, in order |
| CleanInvalidData.OneField | src/utils/cleanInvalidData.js:38-40 | a present field adds no error and an absent one adds its own message |
| CleanInvalidData.ValidationOrder | src/utils/cleanInvalidData.js:26-47 | fields that are not an array are reported first, then data that is not an object; the result is valid exactly when there are no errors |
| CleanInvalidData.KeepAllValid | src/utils/cleanInvalidData.js:9-23 | a list whose items are all valid is returned unchanged |
| Validators.SimpleAddressValid | src/utils/validators.js:2-5 | an address of one character, an at sign, one character, a dot and one character is accepted |
| Logger.LevelOfEnv | src/utils/logger.js:15-18 | the level is WARN or ERROR exactly when the variable names it in any case, and INFO otherwise, a missing variable and `debug` included |
| Logger.LevelFilter | src/utils/logger.js:15-30 | `shouldLog`, which none of the `logger` methods calls, never passes DEBUG and always passes ERROR; WARN passes unless the level is ERROR |
| Logger.CapitalWords | src/utils/logger.js:37-41 | four of the listed words hold capital letters |
| Logger.SensitiveAsWritten | src/utils/logger.js:43-45 | as written a key is redacted exactly when its lower-cased form contains one of the listed words that are all lower case |
| Logger.CapitalNeverContained | src/utils/logger.js:44-45 | a word with a capital letter never occurs in a lower-cased key |
| Logger.FoldingAddsMatches | src/utils/logger.js:43-45 | comparing with lower-cased words redacts every key the code as written redacts |
| Logger.ApiKeyInClear | src/utils/logger.js:37-45 | the key `apiKey` is not redacted as written and is redacted when the words are lower-cased |
| Logger.IndexedAt | src/utils/logger.js:43 | `Object.entries` of an array has each element under its decimal index |
| Logger.IndexedKeys | src/utils/logger.js:43 | every key of an array's entries is the decimal form of an index |
| Logger.ToDecimalInjectiveAt | src/utils/logger.js:43 | distinct indexes have distinct decimal keys |
| Logger.Entries | src/utils/logger.js:43 | only `null` has no entries to walk |
| Logger.NestedEntry | src/utils/logger.js:51-52 | a non-sensitive object or array value is replaced by its own sanitized copy |
| Logger.SanitizeForLogging | src/utils/logger.js:34-59 | the recursive walk over the entries computes the specified sanitized object |
| Logger.FoldedRedactsListedWords | src/utils/logger.js:37-48 | with the words lower-cased, any key containing a listed word, capitalised or not, is logged as `[REDACTED]` |
| Logger.AsWrittenApiKeyLogged | src/utils/logger.js:37-54 | as written, a key `apiKey` holding a short text is logged in clear, although it contains the listed word `apiKey` |
| Logger.ContainsLower | src/utils/logger.js:44-45 | a word contained in a key stays contained once both are lower-cased |
| Logger.SanitizeEntrySafe | src/utils/logger.js:43-56 | a sanitized value holds no sensitive key with a value other than `[REDACTED]` and no text longer than 200 characters, at any depth |
| Logger.SanitizedShape | src/utils/logger.js:34-59 | the sanitized object has exactly the keys of the data, is safe to log, and is absent only for `null` |
| Logger.SafeIsFixed | src/utils/logger.js:43-56 | a value that is already safe is left unchanged |
| Logger.SanitizeIdempotent | src/utils/logger.js:34-59 | sanitizing twice is sanitizing once |
| Logger.LongStringCut | src/utils/logger.js:49-50 | a text of more than 200 characters is cut to its first 100 followed by `...`, and a shorter one is kept |
| ImageCompressor.ValidateImageFile | src/utils/imageCompressor.js:46-59 | valid exactly for a JPEG, PNG, WebP or GIF of at most 5 MiB, with no error then; an unsupported type is reported before the size |
| ImageCompressor.TypeBeforeSize | src/utils/imageCompressor.js:50-56 | an unsupported type is reported even when the file is also too large; a PNG of exactly 5 MiB passes and one byte more fails; SVG is refused |
| LocalStorage.Storage.constructor | src/services/cacheService.js:11 | a fresh storage area holds no items |
| LocalStorage.SetEntry | src/services/cacheService.js:5-15 | stores the value with expiry `now + expiryMs` under the prefixed key, or changes nothing when the write throws |
| LocalStorage.GetEntry | src/services/cacheService.js:17-31 | returns the prefixed key's lookup and deletes the entry only when it has expired |
| LocalStorage.RemoveEntry | src/services/cacheService.js:33-35 | removes the prefixed key and nothing else |
| LocalStorage.ClearPrefixed | src/services/cacheService.js:37-41 | the loop over the keys removes exactly those that start with the prefix |
| LocalStorage.ReadAfterStore | src/services/cacheService.js:17-31 | a stored value reads back up to and including its expiry instant, unchanged; after it, the read gives `null` and deletes the key |
| LocalStorage.ReadMissing | src/services/cacheService.js:20 | a missing key reads as `null` and changes nothing |
| LocalStorage.ReadIsLocalAndStable | src/services/cacheService.js:17-31 | a read touches no other key, and reading again at the same instant gives the same answer and changes nothing more |
| LocalStorage.ReadAfterRemove | src/services/cacheService.js:33-35 | after a removal the key reads as `null` |
| LocalStorage.ClearedExactly | src/services/cacheService.js:37-41 | clearing keeps exactly the keys without the prefix, with their items unchanged, and clearing twice is clearing once |
| CacheService.Set | src/services/cacheService.js:5-15 | stores under `sweethome_cache_` plus the key with expiry `now + expiryMs`, or changes nothing when the write throws |
| CacheService.Get | src/services/cacheService.js:17-31 | returns the value while `now` is not past the expiry, and otherwise `null`, deleting an expired entry |
| CacheService.Remove | src/services/cacheService.js:33-35 | removes the prefixed key only |
| CacheService.Clear | src/services/cacheService.js:37-41 | removes exactly the `sweethome_cache_` keys |
| CacheService.DefaultLifetime | src/services/cacheService.js:2-27 | with the default lifetime a value set at `t` reads back at `t` + 30 minutes and is gone, and deleted, one millisecond later |
| OfflineCacheService.Set | src/services/offlineCacheService.js:6-16 | stores under `pdv_cache_` plus the key with expiry `now` + 30 minutes, or changes nothing when the write throws |
| OfflineCacheService.Get | src/services/offlineCacheService.js:18-32 | returns the value while `now` is not past the expiry, and otherwise `null`, deleting an expired entry |
| OfflineCacheService.Remove | src/services/offlineCacheService.js:34-36 | removes the prefixed key only |
| OfflineCacheService.Clear | src/services/offlineCacheService.js:38-42 | removes exactly the `pdv_cache_` keys |
| OfflineCacheService.IsExpiredMatchesGet | src/services/offlineCacheService.js:18-54 | for a stored entry with a non-null value, `isExpired` holds exactly when `get` gives `null`; a missing key is expired; a stored `null` is not expired yet reads as `null` |
| OfflineCacheService.CachesIndependent | src/services/offlineCacheService.js:38-42 | clearing either cache leaves the other cache's keys in place |
| OfflineStorageService.SyncedCount | src/services/offlineStorageService.js:124-144 | no more operations count as synced than were read |
| OfflineStorageService.Replay | src/services/offlineStorageService.js:124-144 | synced plus removed-as-failed is the number of operations read |
| OfflineStorageService.ReplaySpec | src/services/offlineStorageService.js:124-144 | the replay counts exactly the operations that made no call or whose call did not throw, and makes the operations' calls in order |
| OfflineStorageService.Without | src/services/offlineStorageService.js:111-121 | removing a key never lengthens the queue |
| OfflineStorageService.WithoutAbsent | src/services/offlineStorageService.js:111-121 | removing a key the queue does not hold changes nothing |
| OfflineStorageService.OfflineStorage.constructor | src/services/offlineStorageService.js:32-33 | a new store has an empty queue and hands out key 1 first |
| OfflineStorageService.OfflineStorage.GetPendingOperations | src/services/offlineStorageService.js:87-97 | returns the queue in key order |
| OfflineStorageService.OfflineStorage.AddPendingOperation | src/services/offlineStorageService.js:99-109 | appends the operation under a fresh key, returns that key, and keeps the keys ordered |
| OfflineStorageService.OfflineStorage.RemovePendingOperation | src/services/offlineStorageService.js:111-121 | removes the entries with that key and nothing else |
| OfflineStorageService.OfflineStorage.ReplayOperation | src/services/offlineStorageService.js:128-142 | makes the call the operation's type names and removes the operation whether or not the call throws |
| OfflineStorageService.OfflineStorage.SyncData | src/services/offlineStorageService.js:123-147 | empties the queue, counts synced plus failed as the number read, returns `restantes` 0, and reports what the replay specification says |
| OfflineStorageService.ReplayStep | src/services/offlineStorageService.js:126-143 | one more operation replayed is one more report step, and removing its key leaves exactly the operations after it |
| OfflineStorageService.SyncedWithoutFailures | src/services/offlineStorageService.js:128-142 | when no call throws every operation counts as synced; when no operation has a known type there are no calls and all count as synced |
| OfflineStorageService.CallsCount | src/services/offlineStorageService.js:130-136 | at most one call per operation, exactly one when every type is known |
| OfflineStorageService.SingleOperationReplayed | src/services/offlineStorageService.js:130-142 | `add` calls addDocument with the collection and data, `update` and `delete` also pass the document id, any other type calls nothing; the operation fails exactly when it made a call that threw |
| UsePagination.TotalPages | src/hooks/usePagination.js:6 | `Math.ceil(n / perPage)`: the fewest pages of `perPage` items that hold `n` items |
| UsePagination.ValidPage | src/hooks/usePagination.js:13-16 | the page chosen is at least 1, at most the page count when there are pages, and the requested page when it is in range |
| UsePagination.Pager.constructor | src/hooks/usePagination.js:3-4 | a new pager is on page 1 with the given items and page size |
| UsePagination.Pager.SetItems | src/hooks/usePagination.js:8-11 | new items keep the current page |
| UsePagination.Pager.GoToPage | src/hooks/usePagination.js:13-16 | the current page becomes the requested page clamped to 1..total pages |
| UsePagination.Pager.NextPage | src/hooks/usePagination.js:18 | moves to the clamped next page |
| UsePagination.Pager.PrevPage | src/hooks/usePagination.js:19 | moves to the clamped previous page |
| UsePagination.NoPagesMeansPageOne | src/hooks/usePagination.js:14 | with no items any request lands on page 1 |
| UsePagination.MovesFollowHasNextAndHasPrev | src/hooks/usePagination.js:18-29 | the next page is one further exactly when `hasNext` holds, the previous one back exactly when `hasPrev` holds; otherwise the page stays |
| UsePagination.PageSizes | src/hooks/usePagination.js:8-11 | a page holds at most `perPage` items, exactly that many before the last page, and none past it |
| UsePagination.FirstPagesArePrefix | src/hooks/usePagination.js:8-11 | the first `k` pages laid end to end are the first `k * perPage` items |
| UsePagination.PagesCoverItems | src/hooks/usePagination.js:6-11 | all the pages laid end to end are exactly the items |
| Pagination.Range | src/components/Pagination.jsx:16-18 | the loop's page numbers run from the start page to the end page, one by one |
| Pagination.Render | src/components/Pagination.jsx:3-18 | nothing renders for one page or fewer; otherwise the window lies within 1..total, shows `min(5, total)` consecutive pages including any current page in range, and the first, last and ellipsis markers appear exactly under their conditions |
| PdvPage.Incremented | src/pages/PDVPage.jsx:15-17 | the line of the given sweet gains one unit and every other line is unchanged |
| PdvPage.Updated | src/pages/PDVPage.jsx:23-31 | an update never adds lines |
| PdvPage.Page.constructor | src/pages/PDVPage.jsx:8-10 | the page starts with an empty cart and both modals closed |
| PdvPage.Page.HandleAddToCart | src/pages/PDVPage.jsx:12-21 | the cart becomes the specified addition and stays free of duplicate sweets; the modals are untouched |
| PdvPage.Page.HandleUpdateQuantity | src/pages/PDVPage.jsx:23-31 | the cart becomes the specified update and stays free of duplicates; the modals are untouched |
| PdvPage.Page.HandleInitiateSale | src/pages/PDVPage.jsx:36-42 | the QR modal opens exactly when the cart is not empty; nothing else changes |
| PdvPage.Page.HandleConfirmSale | src/pages/PDVPage.jsx:44-47 | the QR modal closes and the receipt modal opens |
| PdvPage.Page.HandleFinalizeAndReceipt | src/pages/PDVPage.jsx:49-58 | the cart is emptied and the receipt modal closes, with or without a receipt |
| PdvPage.Page.HandleCancelSale | src/pages/PDVPage.jsx:60-63 | both modals close and the cart is kept |
| PdvPage.AddKeepsWellFormed | src/pages/PDVPage.jsx:12-21 | adding a sweet keeps one line per sweet with positive quantities |
| PdvPage.AddToCartEffect | src/pages/PDVPage.jsx:12-21 | a sweet already in the cart gains one unit in place; a new sweet is appended with quantity 1 |
| PdvPage.AddNewTotal | src/pages/PDVPage.jsx:19-35 | adding a new sweet raises the order total by its price |
| PdvPage.AddExistingTotal | src/pages/PDVPage.jsx:13-35 | adding a sweet already in the cart raises the order total by its price |
| PdvPage.TotalAppend | src/pages/PDVPage.jsx:33-35 | the total of two carts laid end to end is the sum of their totals |
| PdvPage.IncrementedTotal | src/pages/PDVPage.jsx:15-35 | one more unit of a line raises the total by that line's price |
| PdvPage.UnchangedTotal | src/pages/PDVPage.jsx:15-17 | incrementing a sweet not in the cart changes nothing |
| PdvPage.UpdateKeepsWellFormed | src/pages/PDVPage.jsx:23-31 | an update keeps one line per sweet with positive quantities, and every remaining line was already in the cart |
| PdvPage.UpdatedEffect | src/pages/PDVPage.jsx:23-31 | an update changes the sweet's quantity in place, and removes the line when the new quantity is not positive |
| PdvPage.UpdatedAbsent | src/pages/PDVPage.jsx:23-31 | an update of a sweet not in the cart changes nothing |
| CardFormat.DisplayedDateReadsBack | src/components/IngredientCard.jsx:5-10 | a `year-month-day` date is shown as `day/month/year`, from which the original date can be rebuilt |
| CardFormat.OtherDatesShownAsGiven | src/components/IngredientCard.jsx:7-8 | a date that does not split into three parts is shown as it is |
| CardFormat.ExpiryMonotone | src/components/IngredientCard.jsx:20-23 | a later expiry is never more urgent; day -1 is expired, days 0 to 7 are close, day 8 is fresh |
| CardFormat.ExpiryClassInjective | src/components/IngredientCard.jsx:21-23 | the three states have three different class names |
| IngredientCard.ExpiryStatusBands | src/components/IngredientCard.jsx:13-24 | no date gives grey; otherwise red exactly for a negative day count, yellow exactly for 0 to 7 days, and green for more days or an unreadable date |
| IngredientCard.Quotient | src/components/IngredientCard.jsx:31 | the stock divided by the factor is a number or `NaN` |
| IngredientCard.StockWithoutFactor | src/components/IngredientCard.jsx:28-30 | without a factor the stock is shown with `0` and `un` as defaults |
| IngredientCard.StockPluralUnlessOne | src/components/IngredientCard.jsx:31-34 | a whole display quantity is shown as it is, with `(s)` after the unit unless it is exactly 1 |
| IngredientCard.StockUnitWithoutDefault | src/components/IngredientCard.jsx:31-34 | with a factor and no display unit the text shows `undefined(s)` |
| SweetCard.CeilDiv | src/components/SweetCard.jsx:16 | `Math.ceil(x / d)`: the least whole number of days covering the difference |
| SweetCard.ExpiryStatusBands | src/components/SweetCard.jsx:11-20 | against the fixed reference day 2025-08-08, red exactly up to one day before it, yellow up to seven days after it, green later or for an unreadable date |
| SweetCard.ExpiryAroundReference | src/components/SweetCard.jsx:13-19 | 2025-08-08 and 2025-08-15 are yellow and 2025-08-07 is red |
| KitchenwareCard.ConditionBadge | src/components/KitchenwareCard.jsx:5-16 | the badge shows the condition itself, in one of four colours |
| KitchenwareCard.BadgeColours | src/components/KitchenwareCard.jsx:5-16 | green exactly for Novo, blue exactly for Bom, yellow exactly for Desgastado, and grey for anything else |
| ErrorBoundary.Boundary.constructor | src/components/ErrorBoundary.jsx:5-13 | no error, count 0 and no last error time |
| ErrorBoundary.Boundary.Catch | src/components/ErrorBoundary.jsx:15-42 | an error is shown, the count goes up by one, the time is recorded, and the critical message is chosen for a fourth or later error within 10 seconds of the previous one |
| ErrorBoundary.Boundary.HandleRetry | src/components/ErrorBoundary.jsx:44-51 | retrying restores the initial state |
| ErrorBoundary.RunCounts | src/components/ErrorBoundary.jsx:19-42 | after a run of errors the boundary shows an error, has counted each of them, and remembers the last time |
| ErrorBoundary.CriticalExactly | src/components/ErrorBoundary.jsx:24 | from a fresh boundary, an error is critical exactly when it is the fourth or later and comes less than 10 seconds after the previous one |
| ErrorBoundary.RecurringIsSticky | src/components/ErrorBoundary.jsx:55 | once recurring, errors stay recurring until a retry; the fourth error makes them recurring; a fresh boundary is not |
| ErrorBoundary.ShownMessageOfCatch | src/components/ErrorBoundary.jsx:71 | the message shown is the error's, or `Erro desconhecido` when it is empty or there is none |
| Documents.FindSweet | src/services/salesService.js:45 | finds a sweet with the id exactly when one exists, and what it finds is in the list and has that id |
| Documents.FindRecipe | src/services/costCalculationService.js:10 | finds a recipe with the id exactly when one exists, and what it finds is in the list and has that id |
| Documents.FindIngredient | src/services/salesService.js:83 | finds an ingredient with the id exactly when one exists, and what it finds is in the list and has that id |
| Documents.FindIngredientByText | src/services/costCalculationService.js:18 | finds an ingredient whose id reads as the same text exactly when one exists |
| Documents.TextIdsFindAlike | src/services/costCalculationService.js:18 | when every id is text, matching by text finds what matching by id finds |
| CostCalculationService.CalculateSweetCost | src/services/costCalculationService.js:10-15 | a sweet without a recipe costs 0 |
| CostCalculationService.CalculateProfit | src/services/costCalculationService.js:41-43 | `max(0, price - cost)`: never negative, never below the difference, and either 0 or the difference |
| CostCalculationService.Round4Bound | src/services/costCalculationService.js:29 | rounding to four decimals moves the cost by at most half a ten-thousandth |
| CostCalculationService.Round4Idempotent | src/services/costCalculationService.js:29 | rounding a rounded cost changes nothing |
| CostCalculationService.SweetCostRounding | src/services/costCalculationService.js:17-29 | a sweet with a recipe costs the sum over its lines of quantity times unit cost, up to the four-decimal rounding |
| CostCalculationService.ObjectOrId | src/services/costCalculationService.js:6-8 | a sweet object costs what its bare id costs |
| CostCalculationService.RecipeCostAppend | src/services/costCalculationService.js:17-27 | the cost of a recipe is the sum of the costs of its parts |
| CostCalculationService.SkippedLinesCostNothing | src/services/costCalculationService.js:18-23 | lines whose ingredient is missing or has no numeric cost add nothing |
| CostCalculationService.RecipeCostNonNegative | src/services/costCalculationService.js:17-27 | with non-negative quantities and costs, every line and the whole recipe cost at least 0 |
| CostCalculationService.MarginOfProfit | src/services/costCalculationService.js:36-43 | for a positive price the margin is the profit per unit of price in percent: positive exactly when there is profit, at most 100 exactly when the cost is not negative |
| CostCalculationService.NoMargin | src/services/costCalculationService.js:36-43 | a price that is not positive has margin 0, and a price equal to the cost has neither profit nor margin |
| SalesService.ValidateSale | src/services/salesService.js:31-76 | the loop over the items returns the specified verdict |
| SalesService.ItemRules | src/services/salesService.js:6-29 | an item is valid exactly with a truthy sweet id, positive quantity and positive price; price 0 reports an incomplete item; a negative quantity a quantity error; a negative price a price error |
| SalesService.FirstFailingItem | src/services/salesService.js:39-59 | the items pass exactly when each passes, and otherwise the verdict is that of the first item that fails |
| SalesService.SaleValidIff | src/services/salesService.js:31-76 | a sale is valid exactly when it has items, each valid, known and in stock, a positive total and an operator |
| SalesService.MissingStockPasses | src/services/salesService.js:53 | a sweet without a stock field never fails the stock test |
| SalesService.CalculateItemCost | src/services/salesService.js:78-80 | a sweet without a recipe costs 0 |
| SalesService.ItemCostIsSweetCost | src/services/salesService.js:78-89 | when every id is text the item cost is the unrounded recipe cost of the cost service |
| SalesService.IdKindsDiverge | src/services/salesService.js:83 | for an ingredient id 1 given as a number in the recipe and as text in the list, the cost service finds it and the item cost does not |
| SalesService.SaleLines | src/services/salesService.js:93-105 | the lines exist exactly when every cart item's sweet is known, one per cart item, in order |
| SalesService.SubtotalsOfCart | src/services/salesService.js:103-107 | the sum of the subtotals is the cart's price-times-quantity total |
| SalesService.SaleDocumentOfCart | src/services/salesService.js:91-122 | the document has one item per cart line with subtotal price times quantity, total the cart total, profit total minus cost, status `completed`, the operator and the date |
| SalesService.CartItemsOf | src/pages/PDVPage.jsx:33-35 | the point-of-sale cart read as sale items keeps each line's id, price and quantity |
| SalesService.DocumentTotalIsOrderTotal | src/pages/PDVPage.jsx:33-35 | the document total of a cart is the order total the page shows |
| SalesService.NewStock | src/services/salesService.js:142-147 | the new stock is `max(0, stock - quantity)`: never negative, and missing exactly when the stock was missing |
| SalesService.FirstFailure | src/services/salesService.js:124-165 | the first call that throws, if any, with every earlier call succeeding |
| SalesService.FinalizeSale | src/services/salesService.js:124-165 | the method makes the calls of the plan up to the first that throws and reports success or the prefixed failure message |
| SalesService.FailureAt | src/services/salesService.js:138-163 | when the call for the item at a position is the first to throw, the calls stop there and the failure carries its message |
| SalesService.StockUpdatesPrefix | src/services/salesService.js:138-156 | the stock updates of a prefix of the cart are a prefix of the cart's updates |
| SalesService.FinalizeOutcome | src/services/salesService.js:124-165 | the sale succeeds exactly when no call throws, having made every planned call; a failure stops at the first throwing call and carries its message |
| SalesService.StockNeverNegative | src/services/salesService.js:138-149 | every stock update writes a stock that is not negative, one per known sweet and none for unknown ones |
| ReportsService.Filtered | src/services/reportsService.js:8-13 | keeps exactly the sales that are not before a non-empty start date and not after a non-empty end date, an invalid date comparing false |
| ReportsService.NoBoundsKeepAll | src/services/reportsService.js:8-13 | with no start and no end date every sale is kept, in order |
| ReportsService.KeysOfPeriods | src/services/reportsService.js:21-29 | a day groups by the sale date, a month by its first seven characters, a week by the start of its week (throwing when that date cannot be printed) and any other period type under the single key undefined |
| ReportsService.Grouped | src/services/reportsService.js:15-39 | the grouped object lists each group name once, in the order the groups were created |
| ReportsService.AddToGroup | src/services/reportsService.js:31-38 | one sale creates its group with zero totals when the group is new and then adds one sale and its amount, cost and profit to it |
| ReportsService.GroupedStep | src/services/reportsService.js:17-39 | the groups after one more sale are the groups before it with that sale added under its key |
| ReportsService.AnyThrowsStep | src/services/reportsService.js:23-26 | the loop has thrown after one more sale exactly when it had thrown before or that sale's week start cannot be printed |
| ReportsService.SalesByPeriod | src/services/reportsService.js:6-47 | the loop over the filtered sales returns the groups in creation order, or the empty list when some key throws |
| ReportsService.GroupIsItsSales | src/services/reportsService.js:31-38 | a group exists exactly when some filtered sale has its key, and its count and its total, cost and profit sums are those of exactly the sales with that key |
| ReportsService.PeriodoOfGroup | src/services/reportsService.js:31-33 | every group records as its periodo the key of a sale in it |
| ReportsService.EverySaleHasItsPeriod | src/services/reportsService.js:17-39 | every sale's key names one of the groups returned |
| ReportsService.VendasCountSales | src/services/reportsService.js:35 | the sale counts of all groups add up to the number of sales grouped |
| ReportsService.ReportCountsFiltered | src/services/reportsService.js:6-47 | when no key throws the report counts exactly the sales the date filter keeps, and with no dates that is every sale |
| ReportsService.Margins | src/services/reportsService.js:53-57 | one margin entry per period, in the same order |
| ReportsService.ProfitMarginByPeriod | src/services/reportsService.js:49-62 | the margins are computed on the report of salesByPeriod for the same arguments |
| ReportsService.MarginsOfPeriods | src/services/reportsService.js:53-57 | each entry keeps its period, its receita is the period total and its margem is the profit as a percentage of a positive total, 0 otherwise |
| ReportsService.MarginIsCostServiceMargin | src/services/reportsService.js:56 | where each sale's profit is its amount less its cost, a period's margem equals the margin the cost service computes from the period's total and cost |
| ReportsService.SortBy | src/services/reportsService.js:89-90 | the sort returns a permutation of its input ordered by the comparator's key |
| ReportsService.Slice0 | src/services/reportsService.js:91 | slice(0, limit) keeps a prefix of min(limit, length) entries, or for a negative limit all but the last ones |
| ReportsService.Tally | src/services/reportsService.js:73-87 | the product table lists each product once, in the order products were first sold |
| ReportsService.AddToProducts | src/services/reportsService.js:77-85 | one item creates its product entry, named after the first sweet with that id or Produto Desconhecido, when it is new, and then adds its quantity |
| ReportsService.TallyIsItsItems | src/services/reportsService.js:75-87 | every sold item has a product entry and each entry holds the summed quantity of exactly the items with its id, and the name of its sweet or Produto Desconhecido |
| ReportsService.TopSellingProducts | src/services/reportsService.js:64-99 | the nested loops over the filtered sales and their items, then the sort and slice, return the top products of the filtered sales |
| ReportsService.TopSellingShape | src/services/reportsService.js:89-91 | the result is in decreasing quantity, holds at most limit entries and is a prefix of a permutation of all the products sold |
| ReportsService.LowAlerts | src/services/reportsService.js:103-109 | at most one alert per sweet |
| ReportsService.LowStockAlerts | src/services/reportsService.js:101-118 | the alerts are in increasing stock and are a permutation of the alerts of the low sweets |
| ReportsService.AlertsAreLowSweets | src/services/reportsService.js:104-109 | a sweet has an alert exactly when its stock, 0 when missing, is at most the threshold, and every alert carries that sweet's id, name and stock |

## Left out

- The `logger` methods do not call `shouldLog`: `info` and `warn` always print, `error` prints its data only in development and `debug` prints only in development. This gating is console output and is not modelled; `Logger.LevelFilter` states the uncalled filter as written.
- Logging and console output: every `logger`/`logging`/`print` call, `formatMessage` and log timestamps. The warnings of `cleanInvalidData`, the row-cap warnings of the CSV parsers and the errors logged in `catch` blocks are output only.
- `routes/keys.py` calls key-service functions that `key_service.py` does not define (`list_keys_from_db`, `get_key_info`, `revoke_key`, and `save_key_to_db` with `minutes` and `owner`), so those routes are not modelled. Hashing on save, revocation and key owners do not exist in the key service.
- Concurrency: the back end's `keys` dictionary is shared between requests without locking; interleavings are not modelled.
- PyJson.IntOf: the digit limit of `int()` on text is the constant 4300, the default since Python 3.11. A limit changed by `sys.set_int_max_str_digits` or `PYTHONINTMAXSTRDIGITS`, and older Pythons without the limit, are not modelled.
- SHA-256, the clock (`datetime.now`, `Date.now`, `new Date()`), `secrets.choice` and `Math.random` are parameters of the members that use them, not definitions.
- The JavaScript engine's number printing and parsing (`String(n)`, `Number(s)`, `parseFloat`), `JSON.parse` and `JSON.stringify` are parameters (`JsValue.Runtime`). Infinities are not modelled.
- JavaScript string lengths and indices count characters, not UTF-16 code units. A text with characters outside the Basic Multilingual Plane therefore has a different length in the model.
- Floating point: amounts in the cost, sales and reports services and the sales route's decimals and quantity sum are exact reals, with not-a-number and the infinities kept apart in the sales route. Rounding is written out only where the source calls `Math.round`.
- Locale formatting (`toFixed`, `toLocaleString`) is not modelled.
- Firestore, Firebase and the IndexedDB wrappers of `offlineStorageService.js` (`initDB`, `saveToStore`, `getFromStore`, `getAllFromStore`, `deleteFromStore`) are foreign I/O. The pending queue is a sequence field, and the remote document service is a record of the calls made plus a parameter saying which calls throw.
- OfflineStorageService.OfflineStorage.AddPendingOperation: always takes the next auto-increment key. An operation that already carries an `id` is not modelled.
- OfflineStorageService.OfflineStorage.SyncData: a `removePendingOperation` that throws (an IndexedDB failure) is not modelled. Such a throw would leave the rest of the queue in place.
- The `localStorage` quota error and JSON text that fails to parse are not modelled. An entry holds its value and expiry directly, and other stored text is a separate case.
- ComprovanteService.PathJoin: joins paths as `os.path.join` does on POSIX. On Windows, a base ending in `\` gets no extra separator, so the 260-character guard (the Windows `MAX_PATH`) would count one character fewer there.
- `generate_pdf.py`, the FPDF part of `format_sales_receipt` after its guards, `send_file` and the JWT part of the sales route are file output or library calls.
- `reportsService.exportPDFReport` (jsPDF), `csvService.downloadCSV` (DOM and Blob) and `compressImage` (canvas) are rendering and file output.
- The per-collection export mappings of the CSV service (`exportSweets`, `exportIngredients`, `exportKitchenware`, `exportSales`, `exportAll`) and the row objects of `exportAllSingle` are not modelled. The all-data format is modelled from `buildSection` on arbitrary records, each collection cut to its first 10000 as `exportAllSingle` does.
- An assignment to a property named `__proto__` while building a parsed CSV row is not modelled.
- `validators.isValidDate` is not modelled: it depends only on how `new Date` parses text.
- `is_email_valid` (the email_validator library) and `timestamp` (zoneinfo) in `register_service.py` are library calls.
- ReportsService.SalesByPeriod: the week start (`setDate`/`getDay`/`toISOString`) is a `Calendar` parameter, not date arithmetic.
- ReportsService.SalesByPeriod: a missing `date` is not modelled; a sale's date is always text.
- ReportsService.SalesByPeriod: does not model that `Object.values` lists integer-like keys first; groups come back in creation order.
- ReportsService.TopSellingProducts: does not model that `Object.values` lists integer-like keys first; entries come back in creation order.
- ReportsService.TopSellingProducts: a quantity that is not a number is not modelled; a missing `items` is `[]`.
- ReportsService.LowStockAlerts: does not model the `NaN` comparison of the sort. The model sorts a missing stock as 0, while the source comparator gives `NaN` for it, which leaves the engine's order unspecified.
- SalesService.FinalizeSale: the sale id is the parameter `saleId`, not a text built from `Date.now()` and `Math.random()`.
- SalesService.CreateSaleDocument: the sale's `date` text and `timestamp` are parameters, not read from the clock.
- CostCalculationService.CalculateSweetCost: quantities and costs that are `NaN` or text are not modelled; a missing or non-numeric cost adds nothing.
- The sales route after the receipt object is built is not modelled. This covers the `generate_html` call with one argument too many, the PDF and `send_file`. Building the receipt already raises into the 500 handler.

## Findings

| source | as written | input that shows it | evidently intended | confidence | as-written member | corrected member |
|---|---|---|---|---|---|---|
| src/services/csvService.js:108 | `parseCSVContentSecure` passes an options object as the numeric `maxLength` of `sanitizeInput`. `substring(0, NaN)` is `''`, so every cell is empty and no row is kept | any CSV with a header line and one data line, such as `name` followed by `Bolo` | cells cut to 1000 characters, with one row kept per filled data line | high, not executed | CsvService.ParseAsWrittenKeepsNoRows | CsvService.CorrectedParseKeepsFilledLines |
| src/services/csvService.js:19 | `escapeCSVValue` doubles quotes and then cuts to 50000 characters, which can split a doubled `""` pair | 49999 letters followed by one `"` | cut the text first, then double its quotes, so the quoted cell reads back as the cut text | high, not executed | CsvService.EscapeCutSplitsQuotePair | CsvService.EscapeCorrectedReadsBack |
| src/services/csvService.js:269-272 | `parseAllSingle` leaves the row cap with `break` while the index is on a data row. The outer loop then throws `Marcador de secao esperado` | a file made or edited by hand whose sweets section has 10001 records, which fails on line 10004 (the export itself cuts each section to 10000) | keep the first 10000 records of the section and skip to the next section marker | high, not executed | CsvAllData.AsWrittenOversizedSectionThrows | CsvAllData.CorrectedParseReadsSectionsFile |
| src/services/csvService.js:288 | the tokenizer has already undone the quoting, and the second unescaping strips a leading and a trailing quote again | a text field holding two quote characters, exported and read back, becomes empty | keep the tokenized text as it is | medium, not executed | CsvAllData.AsWrittenDoubledQuoteTextLost | CsvAllData.CorrectedDoubledQuoteTextKept |
| src/utils/logger.js:37-45 | four of the listed sensitive words contain capitals (`apiKey`, `privateKey`, `publicKey`, `creditCard`), and they are compared against the lower-cased key, so they never match | data `{ apiKey: "k" }` is logged with the key in clear | compare lower-cased words, so that `apiKey` and `apikey` are redacted | high, not executed | Logger.AsWrittenApiKeyLogged | Logger.FoldedRedactsListedWords |
