/** The CSV service of the front end: cell escaping and row serialisation
    for export, the quote-aware line tokenizer, the size guard, the
    per-entity import parser `parseCSVContentSecure`, `tryParseJSON` and the
    import normalisers. The single-file "all data" format is in `CsvAllData`. */
module CsvService {
  import opened Text
  import opened JsValue
  import opened Sanitizer

  const ALL_MARKER: string := "__ALL_DATA_CSV_V1"
  const SECTION_MARKER: string := "__SECTION__"
  const MAX_CSV_SIZE: int := 10 * 1024 * 1024
  const MAX_ROWS: int := 10000
  const MAX_ESCAPED: int := 50000
  const MAX_HEADER: int := 100

  // ------------------------------------------------------------ escaping

  /** `.replace(/"/g, '""')`. */
  function DoubleQuotes(s: string): (r: string)
    ensures |r| == |s| + CountChar(s, '"')
    ensures CountChar(r, '"') == 2 * CountChar(s, '"')
  {
    if s == [] then ""
    else
      var head := if s[0] == '"' then "\"\"" else [s[0]];
      assert CountChar(head + DoubleQuotes(s[1..]), '"') == CountChar(head, '"') + CountChar(DoubleQuotes(s[1..]), '"') by {
        CountCharAppend(head, DoubleQuotes(s[1..]), '"');
      }
      head + DoubleQuotes(s[1..])
  }

  lemma {:induction false} CountCharAppend(a: string, b: string, c: char)
    ensures CountChar(a + b, c) == CountChar(a, c) + CountChar(b, c)
  {
    if a == [] {
      assert a + b == b;
    } else {
      CountCharAppend(a[1..], b, c);
      assert (a + b)[1..] == a[1..] + b;
    }
  }

  lemma {:induction false} DoubleQuotesIdentity(s: string)
    requires '"' !in s
    ensures DoubleQuotes(s) == s
  {
    if s != [] {
      assert s[0] in s;
      assert forall c :: c in s[1..] ==> c in s;
      DoubleQuotesIdentity(s[1..]);
      assert s == [s[0]] + s[1..];
    }
  }

  /** `escapeCSVValue(value)`: `''` for a non-string; otherwise quotes are
      doubled and the result is cut to 50000 characters. */
  function EscapeCSVValue(v: Value): (r: string)
    ensures !v.Str? ==> r == ""
    ensures |r| <= MAX_ESCAPED
    ensures v.Str? ==> |r| <= |DoubleQuotes(v.s)| && r == DoubleQuotes(v.s)[..|r|]
    ensures v.Str? && |DoubleQuotes(v.s)| <= MAX_ESCAPED ==> r == DoubleQuotes(v.s)
  {
    if !v.Str? then "" else Take(DoubleQuotes(v.s), MAX_ESCAPED)
  }

  function Quote(s: string): string {
    "\"" + s + "\""
  }

  // ------------------------------------------------------------ generateCSVContent

  /** One cell of `generateCSVContent`: nothing for `null`/`undefined`, the
      quoted escaped JSON text for an object or array, the quoted escaped
      text for a string, and `String(value)` unquoted otherwise. */
  function ExportCell(v: Value, rt: Runtime): string {
    if v.Null? || v.Undefined? then ""
    else if IsObjectType(v) then Quote(EscapeCSVValue(Str(rt.stringify(v))))
    else if v.Str? then Quote(EscapeCSVValue(v))
    else ToStr(v, rt)
  }

  function ExportCells(row: Value, headers: seq<string>, rt: Runtime): (cells: seq<string>)
    ensures |cells| == |headers|
    ensures forall k :: 0 <= k < |headers| ==> cells[k] == ExportCell(Get(row, headers[k]), rt)
  {
    if headers == [] then [] else [ExportCell(Get(row, headers[0]), rt)] + ExportCells(row, headers[1..], rt)
  }

  function HeaderCells(headers: seq<string>): (cells: seq<string>)
    ensures |cells| == |headers|
    ensures forall k :: 0 <= k < |headers| ==> cells[k] == Quote(EscapeCSVValue(Str(headers[k])))
  {
    if headers == [] then [] else [Quote(EscapeCSVValue(Str(headers[0])))] + HeaderCells(headers[1..])
  }

  function ExportLines(rows: seq<Value>, headers: seq<string>, rt: Runtime): (lines: seq<string>)
    ensures |lines| == |rows|
    ensures forall k :: 0 <= k < |rows| ==> lines[k] == Join(ExportCells(rows[k], headers, rt), ",")
  {
    if rows == [] then [] else [Join(ExportCells(rows[0], headers, rt), ",")] + ExportLines(rows[1..], headers, rt)
  }

  /** `generateCSVContent(headers, rows)`: the quoted header line, then one
      line per row, joined by newlines. */
  function GenerateCSVContent(headers: seq<string>, rows: seq<Value>, rt: Runtime): string {
    Join([Join(HeaderCells(headers), ",")] + ExportLines(rows, headers, rt), "\n")
  }

  // ------------------------------------------------------------ the tokenizer

  /** The quote-aware scanner both parsers run over one line, from index `j`
      with the quote flag `inQuotes`, the field read so far `cur` and the
      finished fields `cols`: a `"` inside quotes followed by another `"`
      is one literal quote, any other `"` flips the flag, and a comma ends a
      field only outside quotes. At the end of the line the current field
      is the last one. */
  function Scan(line: string, j: nat, inQuotes: bool, cur: string, cols: seq<string>): (fields: seq<string>)
    ensures |fields| >= |cols| + 1
    decreases |line| - j
  {
    if j >= |line| then cols + [cur]
    else if line[j] == '"' then
      if inQuotes && j + 1 < |line| && line[j + 1] == '"' then Scan(line, j + 2, inQuotes, cur + "\"", cols)
      else Scan(line, j + 1, !inQuotes, cur, cols)
    else if line[j] == ',' && !inQuotes then Scan(line, j + 1, inQuotes, "", cols + [cur])
    else Scan(line, j + 1, inQuotes, cur + [line[j]], cols)
  }

  function Tokenize(line: string): seq<string> {
    Scan(line, 0, false, "", [])
  }

  /** The tokenizer loop of `parseCSVContentSecure` and `parseAllSingle`. */
  method TokenizeLine(line: string) returns (cols: seq<string>)
    ensures cols == Tokenize(line)
  {
    cols := [];
    var insideQuotes := false;
    var currentValue := "";
    var j := 0;
    while j < |line|
      invariant 0 <= j <= |line|
      invariant Scan(line, j, insideQuotes, currentValue, cols) == Tokenize(line)
    {
      var c := line[j];
      if c == '"' {
        if insideQuotes && j + 1 < |line| && line[j + 1] == '"' {
          currentValue := currentValue + "\"";
          j := j + 1;
        } else {
          insideQuotes := !insideQuotes;
        }
      } else if c == ',' && !insideQuotes {
        cols := cols + [currentValue];
        currentValue := "";
      } else {
        currentValue := currentValue + [c];
      }
      j := j + 1;
    }
    cols := cols + [currentValue];
  }

  /** What `DoubleQuotes` writes for one character. */
  function EscapedChar(ch: char): string {
    if ch == '"' then "\"\"" else [ch]
  }

  lemma DoubleQuotesCons(c: string)
    requires c != []
    ensures DoubleQuotes(c) == EscapedChar(c[0]) + DoubleQuotes(c[1..])
  {
  }

  /** Inside quotes, the escaped form of a character reads back as the
      character: a doubled quote is one literal quote, anything else is
      itself. */
  lemma ScanEscapedChar(line: string, j: nat, ch: char, acc: string, cols: seq<string>)
    requires j + |EscapedChar(ch)| <= |line| && line[j..j + |EscapedChar(ch)|] == EscapedChar(ch)
    ensures Scan(line, j, true, acc, cols) == Scan(line, j + |EscapedChar(ch)|, true, acc + [ch], cols)
  {
    assert line[j] == EscapedChar(ch)[0];
    if ch == '"' {
      assert line[j + 1] == EscapedChar(ch)[1];
      assert "\"" == [ch];
    }
  }

  /** A quote not followed by another one closes the quotes. */
  lemma ScanClosingQuote(line: string, j: nat, acc: string, cols: seq<string>)
    requires j < |line| && line[j] == '"' && (j + 1 == |line| || line[j + 1] != '"')
    ensures Scan(line, j, true, acc, cols) == Scan(line, j + 1, false, acc, cols)
  {
  }

  lemma SliceSplit(line: string, j: nat, h: string, rest: string)
    requires j + |h + rest| <= |line| && line[j..j + |h + rest|] == h + rest
    ensures line[j..j + |h|] == h
    ensures line[j + |h|..j + |h| + |rest|] == rest
  {
    assert line[j..j + |h|] == line[j..j + |h + rest|][..|h|];
    assert line[j + |h|..j + |h| + |rest|] == line[j..j + |h + rest|][|h|..];
  }

  /** Inside quotes, an escaped cell followed by the closing quote reads back
      as the cell, whatever commas and quotes it holds. */
  lemma {:induction false} ScanInsideQuotes(line: string, j: nat, c: string, end: nat, acc: string, cols: seq<string>)
    requires end == j + |DoubleQuotes(c)| && end < |line|
    requires line[j..end] == DoubleQuotes(c)
    requires line[end] == '"' && (end + 1 == |line| || line[end + 1] != '"')
    ensures Scan(line, j, true, acc, cols) == Scan(line, end + 1, false, acc + c, cols)
    decreases |c|
  {
    if c == [] {
      ScanClosingQuote(line, j, acc, cols);
      assert acc + c == acc;
    } else {
      var h := EscapedChar(c[0]);
      var rest := DoubleQuotes(c[1..]);
      DoubleQuotesCons(c);
      SliceSplit(line, j, h, rest);
      ScanEscapedChar(line, j, c[0], acc, cols);
      ScanInsideQuotes(line, j + |h|, c[1..], end, acc + [c[0]], cols);
      assert acc + [c[0]] + c[1..] == acc + c by {
        assert c == [c[0]] + c[1..];
      }
    }
  }

  /** The serialised form of a sequence of text cells: each one quoted with
      its quotes doubled, separated by commas. */
  function QuotedLine(cells: seq<string>): string {
    Join(QuotedCells(cells), ",")
  }

  function QuotedCells(cells: seq<string>): (q: seq<string>)
    ensures |q| == |cells|
    ensures forall k :: 0 <= k < |cells| ==> q[k] == Quote(DoubleQuotes(cells[k]))
  {
    if cells == [] then [] else [Quote(DoubleQuotes(cells[0]))] + QuotedCells(cells[1..])
  }

  /** A quoted line is its first quoted cell, then a comma and the quoted
      line of the rest, if any. */
  lemma QuotedLineHead(cells: seq<string>)
    requires |cells| >= 1
    ensures |cells| == 1 ==> QuotedLine(cells) == Quote(DoubleQuotes(cells[0]))
    ensures |cells| > 1 ==> QuotedLine(cells) == Quote(DoubleQuotes(cells[0])) + "," + QuotedLine(cells[1..])
  {
    if |cells| > 1 {
      assert QuotedCells(cells)[1..] == QuotedCells(cells[1..]);
    }
  }

  /** A quoted cell read from a field boundary, followed by a comma or the
      end of the line, gives back the cell as the current field. */
  lemma ScanQuotedCell(line: string, start: nat, c: string, cols: seq<string>)
    requires start + |Quote(DoubleQuotes(c))| <= |line|
    requires line[start..start + |Quote(DoubleQuotes(c))|] == Quote(DoubleQuotes(c))
    requires start + |Quote(DoubleQuotes(c))| == |line| || line[start + |Quote(DoubleQuotes(c))|] == ','
    ensures Scan(line, start, false, "", cols) == Scan(line, start + |Quote(DoubleQuotes(c))|, false, c, cols)
  {
    QuoteSlice(line, start, DoubleQuotes(c));
    ScanQuotedField(line, start, c, cols);
  }

  lemma QuoteSlice(line: string, start: nat, d: string)
    requires start + |Quote(d)| <= |line| && line[start..start + |Quote(d)|] == Quote(d)
    ensures |Quote(d)| == |d| + 2
    ensures line[start] == '"' && line[start + 1 + |d|] == '"'
    ensures line[start + 1..start + 1 + |d|] == d
  {
    assert Quote(d) == "\"" + (d + "\"");
    SliceSplit(line, start, "\"", d + "\"");
    SliceSplit(line, start + 1, d, "\"");
  }

  /** Outside quotes, an opening quote, an escaped cell and the closing quote
      read back as the cell. */
  lemma ScanQuotedField(line: string, start: nat, c: string, cols: seq<string>)
    requires start + 1 + |DoubleQuotes(c)| < |line| && line[start] == '"'
    requires line[start + 1..start + 1 + |DoubleQuotes(c)|] == DoubleQuotes(c)
    requires line[start + 1 + |DoubleQuotes(c)|] == '"'
    requires start + |DoubleQuotes(c)| + 2 == |line| || line[start + |DoubleQuotes(c)| + 2] != '"'
    ensures Scan(line, start, false, "", cols) == Scan(line, start + |DoubleQuotes(c)| + 2, false, c, cols)
  {
    ScanInsideQuotes(line, start + 1, c, start + 1 + |DoubleQuotes(c)|, "", cols);
    assert "" + c == c;
  }

  lemma ScanComma(line: string, j: nat, cur: string, cols: seq<string>)
    requires j < |line| && line[j] == ','
    ensures Scan(line, j, false, cur, cols) == Scan(line, j + 1, false, "", cols + [cur])
  {
  }

  lemma ScanEnd(line: string, cur: string, cols: seq<string>)
    ensures Scan(line, |line|, false, cur, cols) == cols + [cur]
  {
  }

  /** A quoted cell and the comma after it close one field. */
  lemma ScanQuotedCellComma(line: string, start: nat, c: string, rest: string, cols: seq<string>)
    requires start <= |line| && line[start..] == Quote(DoubleQuotes(c)) + "," + rest
    ensures start + |Quote(DoubleQuotes(c))| + 1 <= |line|
    ensures line[start + |Quote(DoubleQuotes(c))| + 1..] == rest
    ensures Scan(line, start, false, "", cols) == Scan(line, start + |Quote(DoubleQuotes(c))| + 1, false, "", cols + [c])
  {
    var q := Quote(DoubleQuotes(c));
    assert line[start..start + |q|] == line[start..][..|q|];
    assert line[start + |q|] == line[start..][|q|] == ',';
    ScanQuotedCell(line, start, c, cols);
    ScanComma(line, start + |q|, c, cols);
    assert line[start + |q| + 1..] == line[start..][|q| + 1..];
  }

  lemma AppendHeadTail<T>(xs: seq<T>, ys: seq<T>)
    requires |ys| >= 1
    ensures xs + [ys[0]] + ys[1..] == xs + ys
  {
  }

  /** Scanning a quoted line from a field boundary adds its cells. */
  lemma {:induction false} ScanQuotedLine(line: string, start: nat, cells: seq<string>, cols: seq<string>)
    requires |cells| >= 1
    requires start <= |line| && line[start..] == QuotedLine(cells)
    ensures Scan(line, start, false, "", cols) == cols + cells
    decreases |cells|
  {
    var c := cells[0];
    QuotedLineHead(cells);
    if |cells| == 1 {
      var q := Quote(DoubleQuotes(c));
      assert line[start..start + |q|] == line[start..][..|q|];
      ScanQuotedCell(line, start, c, cols);
      ScanEnd(line, c, cols);
    } else {
      ScanQuotedCellComma(line, start, c, QuotedLine(cells[1..]), cols);
      ScanQuotedLine(line, start + |Quote(DoubleQuotes(c))| + 1, cells[1..], cols + [c]);
      AppendHeadTail(cols, cells);
    }
  }

  /** A line of quoted cells tokenizes back to the cells. */
  lemma TokenizeQuotedLine(cells: seq<string>)
    requires |cells| >= 1
    ensures Tokenize(QuotedLine(cells)) == cells
  {
    ScanQuotedLine(QuotedLine(cells), 0, cells, []);
  }

  // ------------------------------------------------------------ reading an export back

  lemma {:induction false} DoubleQuotesAppend(a: string, b: string)
    ensures DoubleQuotes(a + b) == DoubleQuotes(a) + DoubleQuotes(b)
  {
    if a != [] {
      DoubleQuotesAppend(a[1..], b);
      assert (a + b)[1..] == a[1..] + b;
    } else {
      assert a + b == b;
    }
  }

  /** Doubling quotes adds and removes no other character. */
  lemma {:induction false} DoubleQuotesKeeps(s: string, c: char)
    requires c != '"'
    ensures c in DoubleQuotes(s) <==> c in s
  {
    if s != [] {
      DoubleQuotesKeeps(s[1..], c);
      assert s == [s[0]] + s[1..];
    }
  }

  /** The row's fields under the headers are all text, short enough that
      escaping does not cut them. */
  predicate TextFields(row: Value, headers: seq<string>) {
    forall k :: 0 <= k < |headers| ==>
      Get(row, headers[k]).Str? && |DoubleQuotes(Get(row, headers[k]).s)| <= MAX_ESCAPED
  }

  function FieldTexts(row: Value, headers: seq<string>): (texts: seq<string>)
    requires TextFields(row, headers)
    ensures |texts| == |headers|
    ensures forall k :: 0 <= k < |headers| ==> texts[k] == Get(row, headers[k]).s
  {
    if headers == [] then [] else [Get(row, headers[0]).s] + FieldTexts(row, headers[1..])
  }

  lemma QuotedCellsNoChar(cells: seq<string>, c: char)
    requires c != '"' && c != ','
    requires forall k :: 0 <= k < |cells| ==> c !in cells[k]
    ensures c !in QuotedLine(cells)
  {
    forall k | 0 <= k < |cells| ensures c !in QuotedCells(cells)[k] {
      DoubleQuotesKeeps(cells[k], c);
    }
    JoinNoChar(QuotedCells(cells), ",", c);
  }

  /** The rows a reader can get back from an export: text fields, short
      enough not to be cut, without newlines. */
  predicate Exportable(row: Value, headers: seq<string>) {
    TextFields(row, headers) && forall k :: 0 <= k < |headers| ==> '\n' !in Get(row, headers[k]).s
  }

  /** The cells exported for text fields are the quoted, escaped texts. */
  lemma ExportCellsQuoted(row: Value, headers: seq<string>, rt: Runtime)
    requires TextFields(row, headers)
    ensures ExportCells(row, headers, rt) == QuotedCells(FieldTexts(row, headers))
  {
    var texts := FieldTexts(row, headers);
    forall k | 0 <= k < |headers|
      ensures ExportCells(row, headers, rt)[k] == QuotedCells(texts)[k]
    {
      var v := Get(row, headers[k]);
      assert v == Str(texts[k]);
      assert EscapeCSVValue(v) == DoubleQuotes(texts[k]);
      assert ExportCell(v, rt) == Quote(DoubleQuotes(texts[k]));
    }
  }

  /** An exported row of text fields without newlines is one line that
      tokenizes back to the fields. */
  lemma ExportRowReadsBack(row: Value, headers: seq<string>, rt: Runtime)
    requires |headers| >= 1 && Exportable(row, headers)
    ensures '\n' !in Join(ExportCells(row, headers, rt), ",")
    ensures Tokenize(Join(ExportCells(row, headers, rt), ",")) == FieldTexts(row, headers)
  {
    var texts := FieldTexts(row, headers);
    ExportCellsQuoted(row, headers, rt);
    assert forall k :: 0 <= k < |texts| ==> '\n' !in texts[k];
    QuotedCellsNoChar(texts, '\n');
    TokenizeQuotedLine(texts);
  }

  /** Headers a reader can get back from an export: without newlines and
      short enough not to be cut. */
  predicate ExportableHeaders(headers: seq<string>) {
    |headers| >= 1 && forall k :: 0 <= k < |headers| ==> '\n' !in headers[k] && |DoubleQuotes(headers[k])| <= MAX_ESCAPED
  }

  lemma HeaderCellsQuoted(headers: seq<string>)
    requires ExportableHeaders(headers)
    ensures HeaderCells(headers) == QuotedCells(headers)
  {
    forall k | 0 <= k < |headers|
      ensures HeaderCells(headers)[k] == QuotedCells(headers)[k]
    {
      assert EscapeCSVValue(Str(headers[k])) == DoubleQuotes(headers[k]);
    }
  }

  /** The header line of such headers is one line that tokenizes back to
      the headers. */
  lemma HeaderLineReadsBack(headers: seq<string>)
    requires ExportableHeaders(headers)
    ensures '\n' !in Join(HeaderCells(headers), ",")
    ensures Tokenize(Join(HeaderCells(headers), ",")) == headers
  {
    HeaderCellsQuoted(headers);
    QuotedCellsNoChar(headers, '\n');
    TokenizeQuotedLine(headers);
  }

  /** The lines of such an export are its header line and one line per
      row. */
  lemma GenerateCSVContentLines(headers: seq<string>, rows: seq<Value>, rt: Runtime)
    requires ExportableHeaders(headers)
    requires forall r :: 0 <= r < |rows| ==>
      TextFields(rows[r], headers) && forall k :: 0 <= k < |headers| ==> '\n' !in Get(rows[r], headers[k]).s
    ensures Split(GenerateCSVContent(headers, rows, rt), '\n') == [Join(HeaderCells(headers), ",")] + ExportLines(rows, headers, rt)
  {
    var body := ExportLines(rows, headers, rt);
    var lines := [Join(HeaderCells(headers), ",")] + body;
    forall k | 0 <= k < |lines| ensures '\n' !in lines[k] {
      if k == 0 {
        HeaderLineReadsBack(headers);
      } else {
        ExportRowReadsBack(rows[k - 1], headers, rt);
        assert lines[k] == body[k - 1];
      }
    }
    SplitJoin(lines, '\n');
  }

  /** `generateCSVContent` of text rows without newlines reads back line by
      line: one line per row after the header, each tokenizing to the row's
      fields, and the header line to the headers. */
  lemma GenerateCSVContentReadsBack(headers: seq<string>, rows: seq<Value>, rt: Runtime)
    requires ExportableHeaders(headers)
    requires forall r :: 0 <= r < |rows| ==>
      TextFields(rows[r], headers) && forall k :: 0 <= k < |headers| ==> '\n' !in Get(rows[r], headers[k]).s
    ensures |Split(GenerateCSVContent(headers, rows, rt), '\n')| == |rows| + 1
    ensures Tokenize(Split(GenerateCSVContent(headers, rows, rt), '\n')[0]) == headers
    ensures forall r :: 0 <= r < |rows| ==>
      Tokenize(Split(GenerateCSVContent(headers, rows, rt), '\n')[r + 1]) == FieldTexts(rows[r], headers)
  {
    GenerateCSVContentLines(headers, rows, rt);
    HeaderLineReadsBack(headers);
    forall r | 0 <= r < |rows|
      ensures Tokenize(Split(GenerateCSVContent(headers, rows, rt), '\n')[r + 1]) == FieldTexts(rows[r], headers)
    {
      ExportRowReadsBack(rows[r], headers, rt);
    }
  }

  // ------------------------------------------------------------ finding: the escape cut

  lemma {:induction false} DoubleQuotesOfLetters(n: nat)
    ensures DoubleQuotes(Repeat('a', n)) == Repeat('a', n)
  {
    if n > 0 {
      DoubleQuotesOfLetters(n - 1);
      assert Repeat('a', n)[1..] == Repeat('a', n - 1);
    }
  }

  /** As written the cut to 50000 characters comes after the doubling, so it
      can fall between the two quotes of a doubled `"`: 49999 letters and a
      quote escape to text that ends in a lone quote, which is not the
      doubling of any text, so the cell cannot be read back. */
  lemma EscapeCutSplitsQuotePair()
    ensures var s := Repeat('a', MAX_ESCAPED - 1) + "\"";
      && EscapeCSVValue(Str(s)) == Repeat('a', MAX_ESCAPED - 1) + "\""
      && forall t :: DoubleQuotes(t) != EscapeCSVValue(Str(s))
  {
    var letters := Repeat('a', MAX_ESCAPED - 1);
    var s := letters + "\"";
    DoubleQuotesAppend(letters, "\"");
    DoubleQuotesOfLetters(MAX_ESCAPED - 1);
    assert DoubleQuotes(s) == letters + "\"\"";
    assert EscapeCSVValue(Str(s)) == (letters + "\"\"")[..MAX_ESCAPED];
    assert (letters + "\"\"")[..MAX_ESCAPED] == letters + "\"";
    CountCharAppend(letters, "\"", '"');
    CountCharZero(letters, '"');
    assert CountChar(letters + "\"", '"') == 1;
  }

  /** The evidently intended escape: cut the text to 50000 characters, then
      double its quotes. */
  function EscapeCSVValueCorrected(v: Value): (r: string)
    ensures !v.Str? ==> r == ""
    ensures v.Str? ==> r == DoubleQuotes(Take(v.s, MAX_ESCAPED))
  {
    if !v.Str? then "" else DoubleQuotes(Take(v.s, MAX_ESCAPED))
  }

  /** With the cut first, every quoted cell reads back as the first 50000
      characters of the text. */
  lemma EscapeCorrectedReadsBack(s: string)
    ensures Tokenize(Quote(EscapeCSVValueCorrected(Str(s)))) == [Take(s, MAX_ESCAPED)]
  {
    QuotedLineHead([Take(s, MAX_ESCAPED)]);
    TokenizeQuotedLine([Take(s, MAX_ESCAPED)]);
  }

  // ------------------------------------------------------------ validateCSVSize

  /** The errors the CSV functions throw, by message. */
  datatype CsvError =
    | InvalidCsv                        // 'CSV invalido'
    | TooLarge                          // 'CSV excede tamanho maximo de 10MB'
    | NoData                            // 'CSV invalido sem dados'
    | InvalidFormat                     // 'Formato invalido'
    | SectionMarkerExpected(line: int)  // 'Marcador de secao esperado na linha <line>'
    | PushNotAFunction(section: string) // the TypeError of `push` on a prototype member

  datatype Outcome<T> = Ok(value: T) | Throw(error: CsvError)

  /** `validateCSVSize(content)`: the error it throws, if any. */
  function ValidateCSVSize(content: Value): (r: Option<CsvError>)
    ensures r.None? <==> content.Str? && |content.s| <= MAX_CSV_SIZE
    ensures !content.Str? ==> r == Some(InvalidCsv)
    ensures content.Str? && |content.s| > MAX_CSV_SIZE ==> r == Some(TooLarge)
  {
    if !content.Str? then Some(InvalidCsv)
    else if |content.s| > MAX_CSV_SIZE then Some(TooLarge)
    else None
  }

  // ------------------------------------------------------------ parseCSVContentSecure

  /** `.filter(line => line.trim())`. */
  function NonBlank(lines: seq<string>): (r: seq<string>)
    ensures |r| <= |lines|
    ensures forall k :: 0 <= k < |r| ==> Trim(r[k]) != ""
  {
    if lines == [] then []
    else (if Trim(lines[0]) != "" then [lines[0]] else []) + NonBlank(lines[1..])
  }

  /** `.replace(/"/g, '')`. */
  function RemoveQuotes(s: string): (r: string)
    ensures |r| <= |s| && '"' !in r
  {
    if s == [] then ""
    else (if s[0] == '"' then "" else [s[0]]) + RemoveQuotes(s[1..])
  }

  /** The header names: quotes removed, trimmed, cut to 100 characters. */
  function HeaderNames(cells: seq<string>): (names: seq<string>)
    ensures |names| == |cells|
    ensures forall k :: 0 <= k < |cells| ==> names[k] == Take(Trim(RemoveQuotes(cells[k])), MAX_HEADER)
  {
    if cells == [] then [] else [Take(Trim(RemoveQuotes(cells[0])), MAX_HEADER)] + HeaderNames(cells[1..])
  }

  /** The keys the parser stores under: each header name trimmed again. */
  function HeaderKeys(headers: seq<string>): (keys: seq<string>)
    ensures |keys| == |headers|
  {
    if headers == [] then [] else [Trim(headers[0])] + HeaderKeys(headers[1..])
  }

  lemma {:induction false} HeaderKeyAt(headers: seq<string>, k: nat)
    requires k < |headers|
    ensures HeaderKeys(headers)[k] == Trim(headers[k])
  {
    if k > 0 {
      HeaderKeyAt(headers[1..], k - 1);
    }
  }

  /** What the parser stores for a field: the field trimmed, then
      sanitized with the limit `limit`. The sanitizer trims again, so the
      parser's own trim is left out here (`CellSanitizerOfTrimmed`). */
  function CellSanitizer(limit: Value, rt: Runtime): string -> string {
    field => SanitizeInput(Str(field), limit, rt)
  }

  lemma CellSanitizerOfTrimmed(limit: Value, rt: Runtime, field: string)
    ensures CellSanitizer(limit, rt)(field) == SanitizeInput(Str(Trim(field)), limit, rt)
  {
    SanitizeInputOfTrimmed(field, limit, rt);
  }

  /** One more column added to the row object. */
  lemma RowPrefixNext(cols: seq<string>, n: nat, keys: seq<string>, store: string -> string)
    requires n < |cols|
    ensures RowPrefix(cols, n + 1, keys, store)
      == if n < |keys| && keys[n] != "" then RowPrefix(cols, n, keys, store)[keys[n] := store(cols[n])]
         else RowPrefix(cols, n, keys, store)
  {
  }

  /** The row object the parser builds from a line's fields: each field in a
      column with a non-blank key is stored, as `store` makes it, under the
      key; a later column with the same key overwrites an earlier one. */
  function RowObject(cols: seq<string>, keys: seq<string>, store: string -> string): map<string, string>
  {
    RowPrefix(cols, |cols|, keys, store)
  }

  function RowPrefix(cols: seq<string>, n: nat, keys: seq<string>, store: string -> string): map<string, string>
    requires n <= |cols|
  {
    if n == 0 then map[]
    else
      var row := RowPrefix(cols, n - 1, keys, store);
      if n - 1 < |keys| && keys[n - 1] != "" then row[keys[n - 1] := store(cols[n - 1])] else row
  }

  /** `Object.keys(row).some(key => row[key])`: some value is not empty. */
  predicate HasValue(row: map<string, string>) {
    exists key :: key in row && row[key] != ""
  }

  /** The row object of every line, as the parser builds it. */
  function LineRows(lines: seq<string>, keys: seq<string>, store: string -> string): (rows: seq<map<string, string>>)
    ensures |rows| == |lines|
  {
    Each(lines, line => RowObject(Tokenize(line), keys, store))
  }

  /** `f` applied to every element. */
  function Each<A, B>(xs: seq<A>, f: A -> B): (ys: seq<B>)
    ensures |ys| == |xs|
  {
    if xs == [] then [] else [f(xs[0])] + Each(xs[1..], f)
  }

  lemma {:induction false} EachAt<A, B>(xs: seq<A>, f: A -> B, i: nat)
    requires i < |xs|
    ensures Each(xs, f)[i] == f(xs[i])
  {
    if i > 0 {
      EachAt(xs[1..], f, i - 1);
    }
  }

  lemma LineRowsAt(lines: seq<string>, keys: seq<string>, store: string -> string, i: nat)
    requires i < |lines|
    ensures LineRows(lines, keys, store)[i] == RowObject(Tokenize(lines[i]), keys, store)
  {
    EachAt(lines, line => RowObject(Tokenize(line), keys, store), i);
  }

  /** The rows kept from row `i` on, `count` rows having been kept already:
      a row with some non-empty value is kept, and reading stops once 10000
      rows are kept. */
  function KeepRows(rows: seq<map<string, string>>, i: nat, count: nat): (kept: seq<map<string, string>>)
    ensures |kept| <= if count >= MAX_ROWS then 0 else MAX_ROWS - count
    decreases |rows| - i
  {
    if i >= |rows| || count >= MAX_ROWS then []
    else if HasValue(rows[i]) then [rows[i]] + KeepRows(rows, i + 1, count + 1)
    else KeepRows(rows, i + 1, count)
  }

  /** Only rows with a value are kept. */
  lemma {:induction false} KeepRowsHaveValues(rows: seq<map<string, string>>, i: nat, count: nat)
    ensures forall k :: 0 <= k < |KeepRows(rows, i, count)| ==> HasValue(KeepRows(rows, i, count)[k])
    decreases |rows| - i
  {
    if i < |rows| && count < MAX_ROWS {
      var kept := KeepRows(rows, i, count);
      if HasValue(rows[i]) {
        var rest := KeepRows(rows, i + 1, count + 1);
        KeepRowsHaveValues(rows, i + 1, count + 1);
        assert kept == [rows[i]] + rest;
        forall k | 0 <= k < |kept| ensures HasValue(kept[k]) {
          if k > 0 {
            assert kept[k] == rest[k - 1];
          }
        }
      } else {
        KeepRowsHaveValues(rows, i + 1, count);
      }
    }
  }

  /** Rows without a value are all dropped. */
  lemma {:induction false} KeepRowsOfEmptyRows(rows: seq<map<string, string>>, i: nat, count: nat)
    requires forall j :: i <= j < |rows| ==> !HasValue(rows[j])
    ensures KeepRows(rows, i, count) == []
    decreases |rows| - i
  {
    if i < |rows| && count < MAX_ROWS {
      KeepRowsOfEmptyRows(rows, i + 1, count);
    }
  }

  /** Below the cap, rows that all have a value are all kept, in order. */
  lemma {:induction false} KeepRowsOfFilledRows(rows: seq<map<string, string>>, i: nat, count: nat)
    requires i <= |rows| && count + (|rows| - i) <= MAX_ROWS
    requires forall j :: i <= j < |rows| ==> HasValue(rows[j])
    ensures KeepRows(rows, i, count) == rows[i..]
    decreases |rows| - i
  {
    if i < |rows| {
      KeepRowsOfFilledRows(rows, i + 1, count + 1);
      assert rows[i..] == [rows[i]] + rows[i + 1..];
    }
  }

  datatype Table = Table(headers: seq<string>, rows: seq<map<string, string>>)

  /** What `parseCSVContentSecure` computes when its cells are sanitized with
      the limit `limit`. */
  function ParseTable(content: Value, limit: Value, rt: Runtime): (r: Outcome<Table>)
    ensures !content.Str? ==> r == Throw(InvalidCsv)
    ensures content.Str? && |content.s| > MAX_CSV_SIZE ==> r == Throw(TooLarge)
    ensures r.Ok? <==> content.Str? && |content.s| <= MAX_CSV_SIZE && |NonBlank(Split(content.s, '\n'))| >= 2
    ensures r.Ok? ==> |r.value.rows| <= MAX_ROWS
  {
    if ValidateCSVSize(content).Some? then Throw(ValidateCSVSize(content).value)
    else
      var lines := NonBlank(Split(content.s, '\n'));
      if |lines| < 2 then Throw(NoData)
      else
        var headers := HeaderNames(Split(lines[0], ','));
        Ok(Table(headers, KeepRows(LineRows(lines, HeaderKeys(headers), CellSanitizer(limit, rt)), 1, 0)))
  }

  /** The options object every call site passes where `sanitizeInput` takes
      a number. */
  const CELL_OPTIONS: Value := Obj(map["maxLength" := Num(1000.0), "removeHtml" := Bool(true)])

  /** The limit evidently intended by those options. */
  const CELL_LIMIT: Value := Num(1000.0)

  /** The row-building half of the parser's inner loop: the source stores a
      field when its closing comma is read, and the last field after the
      loop; the stores happen in the same order here. */
  method BuildRow(cols: seq<string>, headers: seq<string>, limit: Value, rt: Runtime) returns (row: map<string, string>)
    ensures row == RowObject(cols, HeaderKeys(headers), CellSanitizer(limit, rt))
  {
    ghost var keys := HeaderKeys(headers);
    ghost var store := CellSanitizer(limit, rt);
    row := map[];
    for columnIndex := 0 to |cols|
      invariant row == RowPrefix(cols, columnIndex, keys, store)
    {
      RowPrefixNext(cols, columnIndex, keys, store);
      if columnIndex < |headers| {
        var headerKey := Trim(headers[columnIndex]);
        HeaderKeyAt(headers, columnIndex);
        if headerKey != "" {
          var value := SanitizeInput(Str(Trim(cols[columnIndex])), limit, rt);
          CellSanitizerOfTrimmed(limit, rt, cols[columnIndex]);
          row := row[headerKey := value];
        }
      }
    }
  }

  /** One row read: it is kept when it has a value. */
  lemma KeepRowsStep(rows: seq<map<string, string>>, i: nat, count: nat)
    requires i < |rows| && count < MAX_ROWS
    ensures KeepRows(rows, i, count)
      == if HasValue(rows[i]) then [rows[i]] + KeepRows(rows, i + 1, count + 1) else KeepRows(rows, i + 1, count)
  {
  }

  /** The row loop of `parseCSVContentSecure`, its cells sanitized with
      `limit`: from the second line on, each line is tokenized and built
      into a row, a row with a value is kept, and the loop stops once 10000
      rows are kept. */
  method ReadDataRows(lines: seq<string>, headers: seq<string>, limit: Value, rt: Runtime) returns (rows: seq<map<string, string>>)
    ensures rows == KeepRows(LineRows(lines, HeaderKeys(headers), CellSanitizer(limit, rt)), 1, 0)
  {
    ghost var candidates := LineRows(lines, HeaderKeys(headers), CellSanitizer(limit, rt));
    rows := [];
    var rowCount := 0;
    var i := 1;
    while i < |lines|
      invariant 1 <= i <= |lines| || |lines| < 1
      invariant rows + KeepRows(candidates, i, rowCount) == KeepRows(candidates, 1, 0)
      decreases |lines| - i
    {
      if rowCount >= MAX_ROWS {
        break;
      }
      var cols := TokenizeLine(lines[i]);
      var row := BuildRow(cols, headers, limit, rt);
      LineRowsAt(lines, HeaderKeys(headers), CellSanitizer(limit, rt), i);
      KeepRowsStep(candidates, i, rowCount);
      if HasValue(row) {
        AppendHeadTail(rows, [row] + KeepRows(candidates, i + 1, rowCount + 1));
        rows := rows + [row];
        rowCount := rowCount + 1;
      }
      i := i + 1;
    }
    assert rows + [] == rows;
  }

  /** `parseCSVContentSecure(content)`. */
  method ParseCSVContentSecure(content: Value, rt: Runtime) returns (r: Outcome<Table>)
    ensures r == ParseTable(content, CELL_OPTIONS, rt)
  {
    var sizeError := ValidateCSVSize(content);
    if sizeError.Some? {
      return Throw(sizeError.value);
    }
    var lines := NonBlank(Split(content.s, '\n'));
    if |lines| < 2 {
      return Throw(NoData);
    }
    var headers := HeaderNames(Split(lines[0], ','));
    var rows := ReadDataRows(lines, headers, CELL_OPTIONS, rt);
    return Ok(Table(headers, rows));
  }

  /** With the options object every field is stored as `''`. */
  lemma OptionsStoreNothing(rt: Runtime)
    ensures forall field :: CellSanitizer(CELL_OPTIONS, rt)(field) == ""
  {
    forall field {
      SanitizeInputWithOptionsObject(Str(field), CELL_OPTIONS.fields, rt);
    }
  }

  /** When every field is stored as `''`, every value of the row is `''`. */
  lemma RowObjectAllEmpty(cols: seq<string>, keys: seq<string>, store: string -> string)
    requires forall field :: store(field) == ""
    ensures !HasValue(RowObject(cols, keys, store))
  {
    RowPrefixAllEmpty(cols, |cols|, keys, store);
  }

  lemma {:induction false} RowPrefixAllEmpty(cols: seq<string>, n: nat, keys: seq<string>, store: string -> string)
    requires n <= |cols|
    requires forall field :: store(field) == ""
    ensures !HasValue(RowPrefix(cols, n, keys, store))
  {
    if n > 0 {
      RowPrefixAllEmpty(cols, n - 1, keys, store);
    }
  }

  /** As written, `parseCSVContentSecure` keeps no row at all: the limit it
      passes is an options object, so every cell sanitizes to `''` and no
      row has a value. */
  lemma ParseAsWrittenKeepsNoRows(content: Value, rt: Runtime)
    requires ParseTable(content, CELL_OPTIONS, rt).Ok?
    ensures ParseTable(content, CELL_OPTIONS, rt).value.rows == []
  {
    var lines := NonBlank(Split(content.s, '\n'));
    var store := CellSanitizer(CELL_OPTIONS, rt);
    var candidates := LineRows(lines, HeaderKeys(HeaderNames(Split(lines[0], ','))), store);
    OptionsStoreNothing(rt);
    forall j | 1 <= j < |candidates| ensures !HasValue(candidates[j]) {
      LineRowsAt(lines, HeaderKeys(HeaderNames(Split(lines[0], ','))), store, j);
      RowObjectAllEmpty(Tokenize(lines[j]), HeaderKeys(HeaderNames(Split(lines[0], ','))), store);
    }
    KeepRowsOfEmptyRows(candidates, 1, 0);
  }

  /** Under distinct non-blank keys, each column's field is stored under its
      key. */
  lemma RowObjectStores(cols: seq<string>, keys: seq<string>, store: string -> string, k: nat)
    requires k < |cols| && k < |keys| && keys[k] != ""
    requires forall j :: k < j < |cols| && j < |keys| ==> keys[j] != keys[k]
    ensures keys[k] in RowObject(cols, keys, store)
    ensures RowObject(cols, keys, store)[keys[k]] == store(cols[k])
  {
    RowPrefixStores(cols, |cols|, keys, store, k);
  }

  lemma {:induction false} RowPrefixStores(cols: seq<string>, n: nat, keys: seq<string>, store: string -> string, k: nat)
    requires k < n <= |cols| && k < |keys| && keys[k] != ""
    requires forall j :: k < j < n && j < |keys| ==> keys[j] != keys[k]
    ensures keys[k] in RowPrefix(cols, n, keys, store)
    ensures RowPrefix(cols, n, keys, store)[keys[k]] == store(cols[k])
  {
    if k < n - 1 {
      RowPrefixStores(cols, n - 1, keys, store, k);
    }
  }

  /** With the intended limit, a line's clean text fields come back exactly:
      fields without spaces at the ends, with at most 1000 characters and no
      angle brackets are stored unchanged under their distinct keys. */
  lemma CorrectedRowKeepsCells(cols: seq<string>, keys: seq<string>, rt: Runtime, k: nat)
    requires k < |cols| && k < |keys| && keys[k] != ""
    requires forall j :: k < j < |cols| && j < |keys| ==> keys[j] != keys[k]
    requires Trimmed(cols[k]) && |cols[k]| <= 1000
    requires forall j :: 0 <= j < |cols[k]| ==> cols[k][j] != '<' && cols[k][j] != '>'
    ensures keys[k] in RowObject(cols, keys, CellSanitizer(CELL_LIMIT, rt))
    ensures RowObject(cols, keys, CellSanitizer(CELL_LIMIT, rt))[keys[k]] == cols[k]
  {
    RowObjectStores(cols, keys, CellSanitizer(CELL_LIMIT, rt), k);
    SanitizeInputKeepsCleanText(cols[k], 1000, rt);
  }

  /** With the intended limit, a data line with a clean non-empty field
      under a named header yields a row. */
  lemma CorrectedLineIsKept(cols: seq<string>, keys: seq<string>, rt: Runtime, k: nat)
    requires k < |cols| && k < |keys| && keys[k] != ""
    requires forall j :: k < j < |cols| && j < |keys| ==> keys[j] != keys[k]
    requires Trimmed(cols[k]) && 0 < |cols[k]| <= 1000
    requires forall j :: 0 <= j < |cols[k]| ==> cols[k][j] != '<' && cols[k][j] != '>'
    ensures HasValue(RowObject(cols, keys, CellSanitizer(CELL_LIMIT, rt)))
  {
    CorrectedRowKeepsCells(cols, keys, rt, k);
  }

  /** With the intended limit and at most 10000 data lines, a parse whose
      every data line yields a value keeps all of them, in order. */
  lemma CorrectedParseKeepsFilledLines(content: Value, rt: Runtime)
    requires ParseTable(content, CELL_LIMIT, rt).Ok?
    requires var lines := NonBlank(Split(content.s, '\n'));
      |lines| <= MAX_ROWS + 1 &&
      forall j :: 1 <= j < |lines| ==>
        HasValue(RowObject(Tokenize(lines[j]), HeaderKeys(HeaderNames(Split(lines[0], ','))), CellSanitizer(CELL_LIMIT, rt)))
    ensures var lines := NonBlank(Split(content.s, '\n'));
      ParseTable(content, CELL_LIMIT, rt).value.rows
        == LineRows(lines, HeaderKeys(HeaderNames(Split(lines[0], ','))), CellSanitizer(CELL_LIMIT, rt))[1..]
  {
    var lines := NonBlank(Split(content.s, '\n'));
    var keys := HeaderKeys(HeaderNames(Split(lines[0], ',')));
    var candidates := LineRows(lines, keys, CellSanitizer(CELL_LIMIT, rt));
    forall j | 1 <= j < |candidates| ensures HasValue(candidates[j]) {
      LineRowsAt(lines, keys, CellSanitizer(CELL_LIMIT, rt), j);
    }
    KeepRowsOfFilledRows(candidates, 1, 0);
  }

  // ------------------------------------------------------------ tryParseJSON

  /** `tryParseJSON(str)`: a string whose trimmed text starts with `[` or `{`
      and parses to an object or array becomes that value; anything else is
      returned as it is. */
  function TryParseJSON(v: Value, rt: Runtime): (r: Value)
    ensures r == v || (v.Str? && (r.Arr? || r.Obj?))
    ensures !v.Str? ==> r == v
    ensures v.Str? && !IsPrefix("[", Trim(v.s)) && !IsPrefix("{", Trim(v.s)) ==> r == v
  {
    if !v.Str? then v
    else if !IsPrefix("[", Trim(v.s)) && !IsPrefix("{", Trim(v.s)) then v
    else
      match rt.parse(v.s)
      case Some(parsed) => if parsed.Arr? || parsed.Obj? then parsed else v
      case None => v
  }

  /** Parsing twice changes nothing more. */
  lemma TryParseJSONIdempotent(v: Value, rt: Runtime)
    ensures TryParseJSON(TryParseJSON(v, rt), rt) == TryParseJSON(v, rt)
  {
  }

  // ------------------------------------------------------------ import normalisers

  /** `row[key]` of a parsed row: the text, or `undefined`. */
  function Field(row: map<string, string>, key: string): Value {
    if key in row then Str(row[key]) else Undefined
  }

  /** `row[key] || fallback` for a text fallback. */
  function FieldOr(row: map<string, string>, key: string, fallback: string): (r: string)
    ensures key in row && row[key] != "" ==> r == row[key]
    ensures (key !in row || row[key] == "") ==> r == fallback
  {
    if key in row && row[key] != "" then row[key] else fallback
  }

  /** `parseInt(x)` / `parseFloat(x)` of a field: a number or `NaN`. */
  function ParseIntOf(v: Value, rt: Runtime): (r: Value)
    ensures r.Num? || r.NaN?
  {
    var r := rt.parseInt(ToStr(v, rt));
    if r.Num? then r else NaN
  }

  function ParseFloatOf(v: Value, rt: Runtime): (r: Value)
    ensures r.Num? || r.NaN?
  {
    var r := rt.parseFloat(ToStr(v, rt));
    if r.Num? then r else NaN
  }

  /** `n || fallback` for a number or `NaN`: `NaN` and 0 are falsy. */
  function NumberOr(v: Value, fallback: real): (r: real)
    requires v.Num? || v.NaN?
    ensures v.Num? && v.n != 0.0 ==> r == v.n
    ensures v.NaN? || v.n == 0.0 ==> r == fallback
  {
    if v.Num? && v.n != 0.0 then v.n else fallback
  }

  function Max(a: real, b: real): (r: real)
    ensures r >= a && r >= b && (r == a || r == b)
  {
    if a >= b then a else b
  }

  /** `Math.max(floor, n || fallback)` for a number or `NaN`. */
  function AtLeast(floor: real, v: Value, fallback: real): (r: real)
    requires v.Num? || v.NaN?
    ensures r >= floor
    ensures r == floor || r == fallback || (v.Num? && r == v.n)
  {
    Max(floor, NumberOr(v, fallback))
  }

  /** `sanitizeInput(input, options)` with an options object where the limit
      belongs: always `''`. */
  function SanitizeWithOptions(input: Value, options: map<string, Value>, rt: Runtime): (r: string)
    ensures r == ""
  {
    SanitizeInputWithOptionsObject(input, options, rt);
    SanitizeInput(input, Obj(options), rt)
  }

  const NAME_OPTIONS: map<string, Value> := map["maxLength" := Num(100.0)]
  const OBSERVATIONS_OPTIONS: map<string, Value> := map["maxLength" := Num(150.0)]

  datatype Sweet = Sweet(
    id: real, name: string, stock: real, price: real, expiryDate: string,
    unitName: string, unitWeight: real, image: string, observations: string)

  /** One row of `importSweets`; `now` is `Date.now()`. */
  function SweetOfRow(row: map<string, string>, now: real, rt: Runtime): (s: Sweet)
    ensures s.stock >= 0.0 && s.price >= 0.01 && s.unitWeight >= 0.0
    ensures s.unitName != "" && s.name == "" && s.observations == ""
  {
    Sweet(
      NumberOr(ParseIntOf(Field(row, "id"), rt), now),
      SanitizeWithOptions(Field(row, "name"), NAME_OPTIONS, rt),
      AtLeast(0.0, ParseIntOf(Field(row, "stock"), rt), 0.0),
      AtLeast(0.01, ParseFloatOf(Field(row, "price"), rt), 0.0),
      FieldOr(row, "expiry_date", ""),
      FieldOr(row, "unitName", "unidade"),
      AtLeast(0.0, ParseFloatOf(Field(row, "unitWeight"), rt), 0.0),
      FieldOr(row, "image", ""),
      SanitizeWithOptions(Str(FieldOr(row, "observations", "")), OBSERVATIONS_OPTIONS, rt))
  }

  function ImportSweets(table: Table, now: real, rt: Runtime): (sweets: seq<Sweet>)
    ensures |sweets| == |table.rows|
    ensures forall k :: 0 <= k < |sweets| ==> sweets[k] == SweetOfRow(table.rows[k], now, rt)
    decreases |table.rows|
  {
    if table.rows == [] then []
    else [SweetOfRow(table.rows[0], now, rt)] + ImportSweets(Table(table.headers, table.rows[1..]), now, rt)
  }

  datatype Ingredient = Ingredient(
    id: real, name: string, brand: string, purchaseDate: string, expiryDate: string,
    stockInBaseUnit: real, baseUnit: string, displayUnit: string, displayUnitFactor: real,
    displayUnitPrice: real, costPerBaseUnit: real, observations: string)

  /** One row of `importIngredients`; `today` is the ISO date of the clock. */
  function IngredientOfRow(row: map<string, string>, now: real, today: string, rt: Runtime): (g: Ingredient)
    ensures g.stockInBaseUnit >= 0.0 && g.displayUnitFactor >= 0.0
    ensures g.displayUnitPrice >= 0.0 && g.costPerBaseUnit >= 0.0
    ensures g.baseUnit != "" && g.name == "" && g.brand == "" && g.observations == ""
  {
    Ingredient(
      NumberOr(ParseIntOf(Field(row, "id"), rt), now),
      SanitizeWithOptions(Field(row, "name"), NAME_OPTIONS, rt),
      SanitizeWithOptions(Str(FieldOr(row, "brand", "")), NAME_OPTIONS, rt),
      FieldOr(row, "purchaseDate", today),
      FieldOr(row, "expiryDate", ""),
      AtLeast(0.0, ParseFloatOf(Field(row, "stockInBaseUnit"), rt), 0.0),
      FieldOr(row, "baseUnit", "g"),
      FieldOr(row, "displayUnit", ""),
      AtLeast(0.0, ParseFloatOf(Field(row, "displayUnitFactor"), rt), 1.0),
      AtLeast(0.0, ParseFloatOf(Field(row, "displayUnitPrice"), rt), 0.0),
      AtLeast(0.0, ParseFloatOf(Field(row, "costPerBaseUnit"), rt), 0.0),
      SanitizeWithOptions(Str(FieldOr(row, "observations", "")), OBSERVATIONS_OPTIONS, rt))
  }

  function ImportIngredients(table: Table, now: real, today: string, rt: Runtime): (items: seq<Ingredient>)
    ensures |items| == |table.rows|
    ensures forall k :: 0 <= k < |items| ==> items[k] == IngredientOfRow(table.rows[k], now, today, rt)
    decreases |table.rows|
  {
    if table.rows == [] then []
    else [IngredientOfRow(table.rows[0], now, today, rt)] + ImportIngredients(Table(table.headers, table.rows[1..]), now, today, rt)
  }

  const CONDITIONS: seq<string> := ["Novo", "Bom", "Desgastado"]

  datatype Kitchenware = Kitchenware(id: real, name: string, quantity: real, condition: string, observations: string)

  /** One row of `importKitchenware`. */
  function KitchenwareOfRow(row: map<string, string>, now: real, rt: Runtime): (w: Kitchenware)
    ensures w.quantity >= 0.0 && w.condition in CONDITIONS
    ensures "condition" in row && row["condition"] in CONDITIONS ==> w.condition == row["condition"]
    ensures w.name == "" && w.observations == ""
  {
    Kitchenware(
      NumberOr(ParseIntOf(Field(row, "id"), rt), now),
      SanitizeWithOptions(Field(row, "name"), NAME_OPTIONS, rt),
      AtLeast(0.0, ParseIntOf(Field(row, "quantity"), rt), 0.0),
      if "condition" in row && row["condition"] in CONDITIONS then row["condition"] else "Bom",
      SanitizeWithOptions(Str(FieldOr(row, "observations", "")), OBSERVATIONS_OPTIONS, rt))
  }

  function ImportKitchenware(table: Table, now: real, rt: Runtime): (items: seq<Kitchenware>)
    ensures |items| == |table.rows|
    ensures forall k :: 0 <= k < |items| ==> items[k] == KitchenwareOfRow(table.rows[k], now, rt)
    decreases |table.rows|
  {
    if table.rows == [] then []
    else [KitchenwareOfRow(table.rows[0], now, rt)] + ImportKitchenware(Table(table.headers, table.rows[1..]), now, rt)
  }

  datatype ImportedSale = ImportedSale(
    id: string, date: Value, timestamp: real, items: Value, totalAmount: real,
    totalCost: real, totalProfit: real, operatorName: string, status: string)

  /** One row of `importSales`. */
  function SaleOfRow(row: map<string, string>, now: real, rt: Runtime): (s: ImportedSale)
    ensures s.totalAmount >= 0.0 && s.totalCost >= 0.0 && s.status == "completed"
    ensures s.id != "" && s.operatorName == ""
    ensures Truthy(s.items)
  {
    ImportedSale(
      FieldOr(row, "id", "sale_" + rt.stringOfNumber(now)),
      Field(row, "date"),
      NumberOr(ParseIntOf(Field(row, "timestamp"), rt), now),
      Or(TryParseJSON(Field(row, "items"), rt), Arr([])),
      AtLeast(0.0, ParseFloatOf(Field(row, "totalAmount"), rt), 0.0),
      AtLeast(0.0, ParseFloatOf(Field(row, "totalCost"), rt), 0.0),
      NumberOr(ParseFloatOf(Field(row, "totalProfit"), rt), 0.0),
      SanitizeWithOptions(Str(FieldOr(row, "operatorName", "")), NAME_OPTIONS, rt),
      "completed")
  }

  function ImportSales(table: Table, now: real, rt: Runtime): (sales: seq<ImportedSale>)
    ensures |sales| == |table.rows|
    ensures forall k :: 0 <= k < |sales| ==> sales[k] == SaleOfRow(table.rows[k], now, rt)
    decreases |table.rows|
  {
    if table.rows == [] then []
    else [SaleOfRow(table.rows[0], now, rt)] + ImportSales(Table(table.headers, table.rows[1..]), now, rt)
  }

  /** As written, the four importers return nothing for any content the
      parser accepts, since the parser keeps no row. */
  lemma ImportsAsWrittenAreEmpty(content: Value, now: real, today: string, rt: Runtime)
    requires ParseTable(content, CELL_OPTIONS, rt).Ok?
    ensures var table := ParseTable(content, CELL_OPTIONS, rt).value;
      && ImportSweets(table, now, rt) == []
      && ImportIngredients(table, now, today, rt) == []
      && ImportKitchenware(table, now, rt) == []
      && ImportSales(table, now, rt) == []
  {
    ParseAsWrittenKeepsNoRows(content, rt);
  }
}
