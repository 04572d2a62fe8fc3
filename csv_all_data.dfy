/** The single-file backup format of the CSV service: `buildSection`, which
    writes one collection as a section (a marker line naming it, a header
    line and one quoted line per record), and `parseAllSingle`, which reads
    a file of such sections back into the four collections. */
module CsvAllData {
  import opened Text
  import opened JsValue
  import opened CsvService

  /** A record read back: header name to converted cell value. */
  type Row = map<string, Value>

  type Collections = map<string, seq<Row>>

  /** `{ sweets: [], ingredients: [], kitchenware: [], sales: [] }`. */
  const EMPTY_ALL: Collections :=
    map["sweets" := [], "ingredients" := [], "kitchenware" := [], "sales" := []]

  /** The members every plain object inherits from `Object.prototype`:
      `result[name]` finds one of them, a function without `push`. */
  const PROTOTYPE_NAMES: set<string> := {
    "constructor", "__proto__", "toString", "toLocaleString", "valueOf",
    "hasOwnProperty", "isPrototypeOf", "propertyIsEnumerable",
    "__defineGetter__", "__defineSetter__", "__lookupGetter__", "__lookupSetter__"}

  // ------------------------------------------------------------ buildSection

  /** One cell of a record line: empty for `null` and `undefined`, otherwise
      the text (`JSON.stringify` of an object or array, `String(v)` of the
      rest) with quotes doubled, in quotes. */
  function SectionCell(v: Value, rt: Runtime): (cell: string)
    ensures !v.Null? && !v.Undefined? ==> |cell| >= 2 && cell[0] == '"' && cell[|cell| - 1] == '"'
  {
    if v.Null? || v.Undefined? then "" else Quote(DoubleQuotes(SectionText(v, rt)))
  }

  /** The text written for a value: `JSON.stringify` of an object or array,
      `String(v)` of anything else. */
  function SectionText(v: Value, rt: Runtime): string {
    if v.Arr? || v.Obj? then rt.stringify(v) else ToStr(v, rt)
  }

  function SectionCells(row: Value, headers: seq<string>, rt: Runtime): (cells: seq<string>)
    ensures |cells| == |headers|
    ensures forall k :: 0 <= k < |headers| ==> cells[k] == SectionCell(Get(row, headers[k]), rt)
  {
    if headers == [] then []
    else [SectionCell(Get(row, headers[0]), rt)] + SectionCells(row, headers[1..], rt)
  }

  function SectionRowLines(rows: seq<Value>, headers: seq<string>, rt: Runtime): (lines: seq<string>)
    ensures |lines| == |rows|
    ensures forall k :: 0 <= k < |rows| ==> lines[k] == Join(SectionCells(rows[k], headers, rt), ",")
  {
    if rows == [] then []
    else [Join(SectionCells(rows[0], headers, rt), ",")] + SectionRowLines(rows[1..], headers, rt)
  }

  /** `buildSection(name, headers, rows)`: the lines of one section. */
  function BuildSection(name: string, headers: seq<string>, rows: seq<Value>, rt: Runtime): (lines: seq<string>)
    ensures |lines| == 2 + |rows|
    ensures IsPrefix(SECTION_MARKER, lines[0])
  {
    [SECTION_MARKER + "," + name, Join(headers, ",")] + SectionRowLines(rows, headers, rt)
  }

  // ------------------------------------------------------------ reading lines

  /** `content.split(/\r?\n/)`: the pieces between line feeds, a carriage
      return before a line feed belonging to the separator. */
  function SplitLines(s: string): (lines: seq<string>)
    ensures |lines| == |Split(s, '\n')|
  {
    DropReturns(Split(s, '\n'))
  }

  /** Every piece but the last loses one carriage return at its end. */
  function DropReturns(parts: seq<string>): (r: seq<string>)
    ensures |r| == |parts|
    ensures |parts| > 0 ==> r[|r| - 1] == parts[|parts| - 1]
  {
    if |parts| <= 1 then parts
    else [DropReturn(parts[0])] + DropReturns(parts[1..])
  }

  function DropReturn(p: string): (r: string)
    ensures r == p || (p == r + "\r")
  {
    if p != [] && p[|p| - 1] == '\r' then p[..|p| - 1] else p
  }

  predicate IsMarkerLine(line: string) {
    IsPrefix(SECTION_MARKER, line)
  }

  /** `line.split(',')[1]`: `None` (`undefined`) on a line without a comma. */
  function SectionName(line: string): (name: Option<string>)
    ensures name.Some? ==> ',' !in name.value
  {
    var parts := Split(line, ',');
    SplitPieces(line, ',');
    if |parts| >= 2 then Some(parts[1]) else None
  }

  /** `lines[i].split(',').map(h => h.trim())`. */
  function HeaderList(line: string): (headers: seq<string>)
    ensures |headers| == |Split(line, ',')|
    ensures forall k :: 0 <= k < |headers| ==> headers[k] == Trim(Split(line, ',')[k])
  {
    TrimAll(Split(line, ','))
  }

  function TrimAll(parts: seq<string>): (r: seq<string>)
    ensures |r| == |parts|
    ensures forall k :: 0 <= k < |parts| ==> r[k] == Trim(parts[k])
  {
    if parts == [] then [] else [Trim(parts[0])] + TrimAll(parts[1..])
  }

  // ------------------------------------------------------------ reading cells

  /** `.replace(/^"|"$/g, '')`: one quote at the start and one at the end
      go. */
  function StripOuterQuotes(v: string): (r: string)
    ensures '"' !in v ==> r == v
  {
    var u := if v != [] && v[0] == '"' then v[1..] else v;
    if u != [] && u[|u| - 1] == '"' then u[..|u| - 1] else u
  }

  /** `.replace(/""/g, '"')`: each pair of quotes, read from the left,
      becomes one. */
  function CollapseQuotes(v: string): (r: string)
    ensures |r| <= |v|
  {
    if v == [] then ""
    else if |v| >= 2 && v[0] == '"' && v[1] == '"' then "\"" + CollapseQuotes(v[2..])
    else [v[0]] + CollapseQuotes(v[1..])
  }

  /** Text without quotes is left as it is. */
  lemma {:induction false} CollapseQuotesIdentity(v: string)
    requires '"' !in v
    ensures CollapseQuotes(v) == v
  {
    if v != [] {
      assert v[0] in v;
      assert forall c :: c in v[1..] ==> c in v;
      CollapseQuotesIdentity(v[1..]);
      assert [v[0]] + v[1..] == v;
    }
  }

  /** The text of a cell once its outer quotes are gone and its doubled
      quotes are single. */
  function CellText(field: string): string {
    CollapseQuotes(StripOuterQuotes(field))
  }

  /** The value a cell's text is read as: text that starts with `{` or `[`
      and parses as JSON is the parsed value; non-blank text that is a
      numeral is the number; anything else stays text. */
  function ConvertText(v: string, rt: Runtime): (r: Value)
    ensures !IsPrefix("{", v) && !IsPrefix("[", v) ==>
              if Trim(v) != "" && NumberOfString(v, rt).Num? then r == NumberOfString(v, rt) else r == Str(v)
  {
    if IsPrefix("{", v) || IsPrefix("[", v) then
      match rt.parse(v)
      case Some(parsed) => parsed
      case None => Str(v)
    else if Trim(v) != "" && NumberOfString(v, rt).Num? then NumberOfString(v, rt)
    else Str(v)
  }

  /** The value of a tokenized cell in `parseAllSingle`: the quotes are
      removed a second time before the conversion. */
  function CellValue(field: string, rt: Runtime): Value {
    ConvertText(CellText(field), rt)
  }

  /** Cell readers: as written, and converting the tokenizer's field as it
      is, the tokenizer having already removed the quoting. */
  function CellReader(rt: Runtime): string -> Value {
    field => CellValue(field, rt)
  }

  function CorrectedCellReader(rt: Runtime): string -> Value {
    field => ConvertText(field, rt)
  }

  /** `cols[idx] || ''`. */
  function FieldAt(cols: seq<string>, idx: nat): string {
    if idx < |cols| then cols[idx] else ""
  }

  /** The record after `headers.forEach` has run over the first `n`
      headers: each header names the value of the cell in its column, a
      later header overwriting an earlier one of the same name. */
  function RecordPrefix(cols: seq<string>, headers: seq<string>, n: nat, convert: string -> Value): (row: Row)
    requires n <= |headers|
    ensures row.Keys == set k | 0 <= k < n :: headers[k]
  {
    if n == 0 then map[]
    else RecordPrefix(cols, headers, n - 1, convert)[headers[n - 1] := convert(FieldAt(cols, n - 1))]
  }

  function Record(cols: seq<string>, headers: seq<string>, convert: string -> Value): Row {
    RecordPrefix(cols, headers, |headers|, convert)
  }

  /** How a record line is read under a section's headers. The parse is
      stated over any such reader and instantiated with `ReaderOf(rt)`, as
      written, or `CorrectedReaderOf(rt)`. */
  type Reader = (seq<string>, string) -> Row

  /** The reader of `parseAllSingle`: tokenize the line, then convert the
      cell under each header. */
  function ReaderOf(rt: Runtime): Reader {
    (headers, line) => Record(Tokenize(line), headers, CellReader(rt))
  }

  function CorrectedReaderOf(rt: Runtime): Reader {
    (headers, line) => Record(Tokenize(line), headers, CorrectedCellReader(rt))
  }

  /** `Object.keys(obj).some(key => obj[key])`. */
  predicate HasTruthyValue(row: Row) {
    exists key :: key in row && Truthy(row[key])
  }

  // ------------------------------------------------------------ parseAllSingle

  /** What a section does once it has kept `MAX_ROWS` records. As written the
      row loop stops on the record line it is at; the evident intent is to
      drop the rest of the section and go on at the next marker. */
  datatype CapPolicy = StopAtRow | SkipToMarker

  /** The first marker line at or after `i`, or the end. */
  function NextMarker(lines: seq<string>, i: nat): (j: nat)
    requires i <= |lines|
    ensures i <= j <= |lines|
    ensures j < |lines| ==> IsMarkerLine(lines[j])
    ensures forall k :: i <= k < j ==> !IsMarkerLine(lines[k])
    decreases |lines| - i
  {
    if i == |lines| || IsMarkerLine(lines[i]) then i else NextMarker(lines, i + 1)
  }

  /** `if (result[sectionName]) result[sectionName].push(obj)`: a collection
      name gets the record, a name `Object.prototype` answers for throws
      because what it finds has no `push`, any other name drops it. */
  function AddRecord(result: Collections, name: Option<string>, row: Row): (r: Outcome<Collections>)
    ensures r.Ok? ==> r.value.Keys == result.Keys
    ensures r.Throw? <==> name.Some? && name.value !in result && name.value in PROTOTYPE_NAMES
  {
    if name.Some? && name.value in result then Ok(result[name.value := result[name.value] + [row]])
    else if name.Some? && name.value in PROTOTYPE_NAMES then Throw(PushNotAFunction(name.value))
    else Ok(result)
  }

  /** Where a section's records end and what has been kept. */
  datatype Progress = Progress(next: nat, result: Collections)

  /** The inner loop of `parseAllSingle`, from line `i`, with `count` records
      of the section kept so far. */
  function SectionRecords(lines: seq<string>, i: nat, name: Option<string>, headers: seq<string>, read: Reader,
                          result: Collections, count: nat, policy: CapPolicy): (r: Outcome<Progress>)
    requires i <= |lines|
    ensures r.Ok? ==> i <= r.value.next <= |lines|
    decreases |lines| - i
  {
    if i == |lines| || IsMarkerLine(lines[i]) then Ok(Progress(i, result))
    else if count >= MAX_ROWS then
      if policy == StopAtRow then Ok(Progress(i, result)) else Ok(Progress(NextMarker(lines, i), result))
    else
      var row := read(headers, lines[i]);
      if HasTruthyValue(row) then
        match AddRecord(result, name, row)
        case Throw(e) => Throw(e)
        case Ok(kept) => SectionRecords(lines, i + 1, name, headers, read, kept, count + 1, policy)
      else SectionRecords(lines, i + 1, name, headers, read, result, count, policy)
  }

  /** The outer loop of `parseAllSingle`, from line `i`: a section marker
      (its 1-based line number in the error otherwise), a header line, the
      records. */
  function Sections(lines: seq<string>, i: nat, result: Collections, policy: CapPolicy, read: Reader): (r: Outcome<Collections>)
    requires i <= |lines|
    decreases |lines| - i
  {
    if i == |lines| then Ok(result)
    else if !IsMarkerLine(lines[i]) then Throw(SectionMarkerExpected(i + 1))
    else if i + 1 == |lines| then Ok(result)
    else
      match SectionRecords(lines, i + 2, SectionName(lines[i]), HeaderList(lines[i + 1]), read, result, 0, policy)
      case Throw(e) => Throw(e)
      case Ok(p) => Sections(lines, p.next, p.result, policy, read)
  }

  /** The non-blank lines of a text. */
  function ContentLines(s: string): seq<string> {
    NonBlank(SplitLines(s))
  }

  /** `parseAllSingle(content)` under a cap policy and a reader: as written
      with `StopAtRow` and `ReaderOf(rt)`. */
  function ParseAll(content: Value, policy: CapPolicy, read: Reader): (r: Outcome<Collections>)
    ensures ValidateCSVSize(content).Some? ==> r == Throw(ValidateCSVSize(content).value)
    ensures ValidateCSVSize(content).None? && (ContentLines(content.s) == [] || Trim(ContentLines(content.s)[0]) != ALL_MARKER)
            ==> r == Throw(InvalidFormat)
  {
    match ValidateCSVSize(content)
    case Some(e) => Throw(e)
    case None =>
      var lines := ContentLines(content.s);
      if lines == [] || Trim(lines[0]) != ALL_MARKER then Throw(InvalidFormat)
      else Sections(lines, 1, EMPTY_ALL, policy, read)
  }

  /** `parseAllSingle(content)`: the size guard, the split into non-blank
      lines and the test of the first line, then the sections. */
  method ParseAllSingle(content: Value, rt: Runtime) returns (r: Outcome<Collections>)
    ensures r == ParseAll(content, StopAtRow, ReaderOf(rt))
  {
    var sizeError := ValidateCSVSize(content);
    if sizeError.Some? {
      return Throw(sizeError.value);
    }
    var lines := ContentLines(content.s);
    if |lines| == 0 || Trim(lines[0]) != ALL_MARKER {
      return Throw(InvalidFormat);
    }
    r := ReadSections(lines, ReaderOf(rt));
  }

  /** The section loop of `parseAllSingle`, from the line after the file
      marker. */
  method ReadSections(lines: seq<string>, read: Reader) returns (r: Outcome<Collections>)
    requires |lines| >= 1
    ensures r == Sections(lines, 1, EMPTY_ALL, StopAtRow, read)
  {
    var result := EMPTY_ALL;
    var i := 1;
    while i < |lines|
      invariant 1 <= i <= |lines|
      invariant Sections(lines, i, result, StopAtRow, read) == Sections(lines, 1, EMPTY_ALL, StopAtRow, read)
      decreases |lines| - i
    {
      if !IsMarkerLine(lines[i]) {
        return Throw(SectionMarkerExpected(i + 1));
      }
      var sectionName := SectionName(lines[i]);
      if i + 1 >= |lines| {
        break;
      }
      var headers := HeaderList(lines[i + 1]);
      var section := ReadSection(lines, i + 2, sectionName, headers, read, result);
      if section.Throw? {
        return Throw(section.error);
      }
      i, result := section.value.next, section.value.result;
    }
    return Ok(result);
  }

  /** The row loop of `parseAllSingle` over one section's record lines. */
  method ReadSection(lines: seq<string>, start: nat, sectionName: Option<string>, headers: seq<string>,
                     read: Reader, result0: Collections) returns (r: Outcome<Progress>)
    requires start <= |lines|
    ensures r == SectionRecords(lines, start, sectionName, headers, read, result0, 0, StopAtRow)
  {
    var result := result0;
    var i := start;
    var sectionRowCount := 0;
    while i < |lines| && !IsMarkerLine(lines[i])
      invariant start <= i <= |lines|
      invariant SectionRecords(lines, i, sectionName, headers, read, result, sectionRowCount, StopAtRow)
                == SectionRecords(lines, start, sectionName, headers, read, result0, 0, StopAtRow)
      decreases |lines| - i
    {
      if sectionRowCount >= MAX_ROWS {
        break;
      }
      var row := read(headers, lines[i]);
      if HasTruthyValue(row) {
        var pushed := AddRecord(result, sectionName, row);
        if pushed.Throw? {
          return Throw(pushed.error);
        }
        result := pushed.value;
        sectionRowCount := sectionRowCount + 1;
      }
      i := i + 1;
    }
    return Ok(Progress(i, result));
  }

  /** The record of one line as `parseAllSingle` computes it: the tokenizer
      loop, then the header loop. */
  method ReadRecordLine(line: string, headers: seq<string>, rt: Runtime) returns (row: Row)
    ensures row == ReaderOf(rt)(headers, line)
  {
    var cols := TokenizeLine(line);
    row := BuildRecord(cols, headers, rt);
  }

  /** `headers.forEach((h, idx) => { ... obj[h] = v })`. */
  method BuildRecord(cols: seq<string>, headers: seq<string>, rt: Runtime) returns (row: Row)
    ensures row == Record(cols, headers, CellReader(rt))
  {
    row := map[];
    for idx := 0 to |headers|
      invariant row == RecordPrefix(cols, headers, idx, CellReader(rt))
    {
      row := row[headers[idx] := CellValue(FieldAt(cols, idx), rt)];
    }
  }

  // ------------------------------------------------------------ what a parse keeps

  /** One section's records change only the collection it names: the
      others stay as they were, and the named one only grows, by records
      that each have a truthy value. */
  lemma {:induction false} SectionRecordsGrowsNamed(lines: seq<string>, i: nat, name: Option<string>, headers: seq<string>,
                                                    read: Reader, result: Collections, count: nat, policy: CapPolicy)
    requires i <= |lines|
    ensures var r := SectionRecords(lines, i, name, headers, read, result, count, policy);
      r.Ok? ==>
        && r.value.result.Keys == result.Keys
        && (forall n :: n in result && Some(n) != name ==> r.value.result[n] == result[n])
        && (forall n :: n in result ==> result[n] <= r.value.result[n])
        && (forall n, k :: n in result && |result[n]| <= k < |r.value.result[n]| ==> HasTruthyValue(r.value.result[n][k]))
    decreases |lines| - i
  {
    if i == |lines| || IsMarkerLine(lines[i]) || count >= MAX_ROWS {
    } else {
      var row := read(headers, lines[i]);
      if HasTruthyValue(row) {
        match AddRecord(result, name, row)
        case Throw(_) =>
        case Ok(kept) =>
          SectionRecordsGrowsNamed(lines, i + 1, name, headers, read, kept, count + 1, policy);
          forall n, k | n in result && |result[n]| <= k < |kept[n]| ensures HasTruthyValue(kept[n][k]) {
            assert kept[n] == result[n] + [row];
          }
      } else {
        SectionRecordsGrowsNamed(lines, i + 1, name, headers, read, result, count, policy);
      }
    }
  }

  /** A section adds at most `MAX_ROWS` records, less those it has kept
      already. */
  lemma {:induction false} SectionRecordsCap(lines: seq<string>, i: nat, name: Option<string>, headers: seq<string>,
                                             read: Reader, result: Collections, count: nat, policy: CapPolicy)
    requires i <= |lines| && count <= MAX_ROWS
    ensures var r := SectionRecords(lines, i, name, headers, read, result, count, policy);
      r.Ok? ==> forall n :: n in result ==> n in r.value.result && |r.value.result[n]| <= |result[n]| + MAX_ROWS - count
    decreases |lines| - i
  {
    if i == |lines| || IsMarkerLine(lines[i]) || count >= MAX_ROWS {
    } else {
      var row := read(headers, lines[i]);
      if HasTruthyValue(row) {
        match AddRecord(result, name, row)
        case Throw(_) =>
        case Ok(kept) => SectionRecordsCap(lines, i + 1, name, headers, read, kept, count + 1, policy);
      } else {
        SectionRecordsCap(lines, i + 1, name, headers, read, result, count, policy);
      }
    }
  }

  /** A section's records throw only when the section is named after a
      member of `Object.prototype`. */
  lemma {:induction false} SectionRecordsThrows(lines: seq<string>, i: nat, name: Option<string>, headers: seq<string>,
                                                read: Reader, result: Collections, count: nat, policy: CapPolicy)
    requires i <= |lines|
    ensures var r := SectionRecords(lines, i, name, headers, read, result, count, policy);
      r.Throw? ==> name.Some? && name.value !in result && name.value in PROTOTYPE_NAMES && r.error == PushNotAFunction(name.value)
    decreases |lines| - i
  {
    if i == |lines| || IsMarkerLine(lines[i]) || count >= MAX_ROWS {
    } else {
      var row := read(headers, lines[i]);
      if HasTruthyValue(row) {
        match AddRecord(result, name, row)
        case Throw(_) =>
        case Ok(kept) => SectionRecordsThrows(lines, i + 1, name, headers, read, kept, count + 1, policy);
      } else {
        SectionRecordsThrows(lines, i + 1, name, headers, read, result, count, policy);
      }
    }
  }

  /** A section whose name is not a collection and not an `Object.prototype`
      member is read through and dropped. */
  lemma UnknownSectionIgnored(lines: seq<string>, i: nat, name: Option<string>, headers: seq<string>,
                              read: Reader, result: Collections, count: nat, policy: CapPolicy)
    requires i <= |lines| && count <= MAX_ROWS
    requires name.None? || (name.value !in result && name.value !in PROTOTYPE_NAMES)
    ensures SectionRecords(lines, i, name, headers, read, result, count, policy).Ok?
    ensures SectionRecords(lines, i, name, headers, read, result, count, policy).value.result == result
  {
    SectionRecordsThrows(lines, i, name, headers, read, result, count, policy);
    SectionRecordsGrowsNamed(lines, i, name, headers, read, result, count, policy);
    var r := SectionRecords(lines, i, name, headers, read, result, count, policy);
    assert forall n :: n in result ==> r.value.result[n] == result[n];
  }

  /** With the corrected cap a section ends at a marker line or at the end
      of the file. */
  lemma {:induction false} SkipEndsAtMarker(lines: seq<string>, i: nat, name: Option<string>, headers: seq<string>,
                                            read: Reader, result: Collections, count: nat)
    requires i <= |lines|
    ensures var r := SectionRecords(lines, i, name, headers, read, result, count, SkipToMarker);
      r.Ok? ==> r.value.next == |lines| || IsMarkerLine(lines[r.value.next])
    decreases |lines| - i
  {
    if i == |lines| || IsMarkerLine(lines[i]) || count >= MAX_ROWS {
    } else {
      var row := read(headers, lines[i]);
      if HasTruthyValue(row) {
        match AddRecord(result, name, row)
        case Throw(_) =>
        case Ok(kept) => SkipEndsAtMarker(lines, i + 1, name, headers, read, kept, count + 1);
      } else {
        SkipEndsAtMarker(lines, i + 1, name, headers, read, result, count);
      }
    }
  }

  /** The sections keep the collection names and only append records, each
      with a truthy value. */
  lemma {:induction false} SectionsGrow(lines: seq<string>, i: nat, result: Collections, policy: CapPolicy, read: Reader)
    requires i <= |lines|
    ensures var r := Sections(lines, i, result, policy, read);
      r.Ok? ==>
        && r.value.Keys == result.Keys
        && (forall n :: n in result ==> result[n] <= r.value[n])
        && (forall n, k :: n in result && |result[n]| <= k < |r.value[n]| ==> HasTruthyValue(r.value[n][k]))
    decreases |lines| - i
  {
    if i == |lines| || !IsMarkerLine(lines[i]) || i + 1 == |lines| {
    } else {
      var name, headers := SectionName(lines[i]), HeaderList(lines[i + 1]);
      match SectionRecords(lines, i + 2, name, headers, read, result, 0, policy)
      case Throw(_) =>
      case Ok(p) =>
        SectionRecordsGrowsNamed(lines, i + 2, name, headers, read, result, 0, policy);
        SectionsGrow(lines, p.next, p.result, policy, read);
        var r := Sections(lines, p.next, p.result, policy, read);
        if r.Ok? {
          forall n, k | n in result && |result[n]| <= k < |r.value[n]| ensures HasTruthyValue(r.value[n][k]) {
            if k < |p.result[n]| {
              assert r.value[n][k] == p.result[n][k];
            }
          }
        }
    }
  }

  /** A section-marker error names a line, counted from 1, that is not a
      marker; the only other error of the sections is a push into an
      `Object.prototype` member. */
  lemma {:induction false} SectionsErrors(lines: seq<string>, i: nat, result: Collections, policy: CapPolicy, read: Reader)
    requires i <= |lines|
    ensures var r := Sections(lines, i, result, policy, read);
      r.Throw? ==>
        || (r.error.SectionMarkerExpected? && i + 1 <= r.error.line <= |lines| && !IsMarkerLine(lines[r.error.line - 1]))
        || (r.error.PushNotAFunction? && r.error.section in PROTOTYPE_NAMES)
    decreases |lines| - i
  {
    if i == |lines| || !IsMarkerLine(lines[i]) || i + 1 == |lines| {
    } else {
      var name, headers := SectionName(lines[i]), HeaderList(lines[i + 1]);
      SectionRecordsThrows(lines, i + 2, name, headers, read, result, 0, policy);
      match SectionRecords(lines, i + 2, name, headers, read, result, 0, policy)
      case Throw(_) =>
      case Ok(p) => SectionsErrors(lines, p.next, p.result, policy, read);
    }
  }

  /** With the corrected cap, sections read from a marker line (or from the
      end of the file) never stop for a missing section marker. */
  lemma {:induction false} SkipSectionsNoMarkerError(lines: seq<string>, i: nat, result: Collections, read: Reader)
    requires i <= |lines|
    requires i == |lines| || IsMarkerLine(lines[i])
    ensures var r := Sections(lines, i, result, SkipToMarker, read);
      r.Throw? ==> !r.error.SectionMarkerExpected?
    decreases |lines| - i
  {
    if i == |lines| || i + 1 == |lines| {
    } else {
      var name, headers := SectionName(lines[i]), HeaderList(lines[i + 1]);
      SectionRecordsThrows(lines, i + 2, name, headers, read, result, 0, SkipToMarker);
      match SectionRecords(lines, i + 2, name, headers, read, result, 0, SkipToMarker)
      case Throw(_) =>
      case Ok(p) =>
        SkipEndsAtMarker(lines, i + 2, name, headers, read, result, 0);
        SkipSectionsNoMarkerError(lines, p.next, p.result, read);
    }
  }

  /** What a successful parse holds: the four collections and nothing else,
      and only records with a truthy value. */
  lemma ParseAllShape(content: Value, policy: CapPolicy, read: Reader)
    ensures var r := ParseAll(content, policy, read);
      r.Ok? ==>
        && r.value.Keys == EMPTY_ALL.Keys
        && forall n, k :: n in r.value && 0 <= k < |r.value[n]| ==> HasTruthyValue(r.value[n][k])
  {
    if ValidateCSVSize(content).None? {
      var lines := ContentLines(content.s);
      if lines != [] && Trim(lines[0]) == ALL_MARKER {
        SectionsGrow(lines, 1, EMPTY_ALL, policy, read);
      }
    }
  }

  /** Every way `parseAllSingle` can fail: a non-string, an oversized text,
      a missing file marker, a line where a section marker belongs (its
      number counted among the non-blank lines, from 1), a section named
      after an `Object.prototype` member. */
  lemma ParseAllErrors(content: Value, policy: CapPolicy, read: Reader)
    ensures var r := ParseAll(content, policy, read);
      r.Throw? ==>
        || (r.error == InvalidCsv && !content.Str?)
        || (r.error == TooLarge && content.Str? && |content.s| > MAX_CSV_SIZE)
        || (r.error == InvalidFormat && content.Str?)
        || (r.error.SectionMarkerExpected? && content.Str?
            && 2 <= r.error.line <= |ContentLines(content.s)|
            && !IsMarkerLine(ContentLines(content.s)[r.error.line - 1]))
        || (r.error.PushNotAFunction? && r.error.section in PROTOTYPE_NAMES)
  {
    if ValidateCSVSize(content).None? {
      var lines := ContentLines(content.s);
      if lines != [] && Trim(lines[0]) == ALL_MARKER {
        SectionsErrors(lines, 1, EMPTY_ALL, policy, read);
      }
    }
  }

  /** With the corrected cap a section-marker error can only name line 2:
      no section, however long, makes the parser stop inside it. */
  lemma CorrectedParseMarkerErrorAtLineTwo(content: Value, read: Reader)
    ensures var r := ParseAll(content, SkipToMarker, read);
      r.Throw? && r.error.SectionMarkerExpected? ==> r.error.line == 2
  {
    if ValidateCSVSize(content).None? {
      var lines := ContentLines(content.s);
      if lines != [] && Trim(lines[0]) == ALL_MARKER {
        if |lines| == 1 || IsMarkerLine(lines[1]) {
          SkipSectionsNoMarkerError(lines, 1, EMPTY_ALL, read);
        }
      }
    }
  }

  // ------------------------------------------------------------ reading a record line back

  /** The line `buildSection` writes for one record. */
  function RowLine(row: Value, headers: seq<string>, rt: Runtime): string {
    Join(SectionCells(row, headers, rt), ",")
  }

  /** The texts written for a record's fields. */
  function FieldTextsOf(row: Value, headers: seq<string>, rt: Runtime): (texts: seq<string>)
    ensures |texts| == |headers|
    ensures forall k :: 0 <= k < |headers| ==> texts[k] == SectionText(Get(row, headers[k]), rt)
  {
    if headers == [] then [] else [SectionText(Get(row, headers[0]), rt)] + FieldTextsOf(row, headers[1..], rt)
  }

  /** No field under the headers is `null` or `undefined` (those are written
      as empty cells). */
  predicate NoNullFields(row: Value, headers: seq<string>) {
    forall k :: 0 <= k < |headers| ==> !Get(row, headers[k]).Null? && !Get(row, headers[k]).Undefined?
  }

  /** The record a reader should give back: each header names the record's
      own value. */
  function Projection(row: Value, headers: seq<string>): Row {
    map h | h in headers :: Get(row, h)
  }

  lemma SectionCellsQuoted(row: Value, headers: seq<string>, rt: Runtime)
    requires NoNullFields(row, headers)
    ensures SectionCells(row, headers, rt) == QuotedCells(FieldTextsOf(row, headers, rt))
  {
  }

  /** The tokenizer splits a record line into the field texts. */
  lemma RowLineTokens(row: Value, headers: seq<string>, rt: Runtime)
    requires |headers| >= 1 && NoNullFields(row, headers)
    ensures Tokenize(RowLine(row, headers, rt)) == FieldTextsOf(row, headers, rt)
  {
    SectionCellsQuoted(row, headers, rt);
    TokenizeQuotedLine(FieldTextsOf(row, headers, rt));
  }

  lemma {:induction false} RecordPrefixOfFields(cols: seq<string>, headers: seq<string>, n: nat, convert: string -> Value, row: Value)
    requires n <= |headers| == |cols|
    requires forall k :: 0 <= k < |headers| ==> convert(cols[k]) == Get(row, headers[k])
    ensures RecordPrefix(cols, headers, n, convert) == map h | h in headers[..n] :: Get(row, h)
  {
    if n > 0 {
      RecordPrefixOfFields(cols, headers, n - 1, convert, row);
      assert headers[..n] == headers[..n - 1] + [headers[n - 1]];
    }
  }

  /** A record line reads back as the record restricted to the headers under
      any cell conversion that takes each written text back to its value. */
  lemma RecordReadsBack(row: Value, headers: seq<string>, convert: string -> Value, rt: Runtime)
    requires |headers| >= 1 && NoNullFields(row, headers)
    requires forall k :: 0 <= k < |headers| ==> convert(SectionText(Get(row, headers[k]), rt)) == Get(row, headers[k])
    ensures Record(Tokenize(RowLine(row, headers, rt)), headers, convert) == Projection(row, headers)
  {
    var texts := FieldTextsOf(row, headers, rt);
    RowLineTokens(row, headers, rt);
    RecordPrefixOfFields(texts, headers, |headers|, convert, row);
    assert headers[..|headers|] == headers;
  }

  /** As written, a cell text without quotes converts as the corrected
      reader converts it. */
  lemma CellValueOfQuoteFree(t: string, rt: Runtime)
    requires '"' !in t
    ensures CellValue(t, rt) == ConvertText(t, rt)
  {
    CollapseQuotesIdentity(t);
  }

  /** Text that does not look like JSON or a number reads back as itself. */
  lemma TextCellReadsBack(t: string, rt: Runtime)
    requires !IsPrefix("{", t) && !IsPrefix("[", t)
    requires Trim(t) == "" || !NumberOfString(t, rt).Num?
    ensures ConvertText(SectionText(Str(t), rt), rt) == Str(t)
  {
  }

  /** A number reads back when the engine reads its printed form back as
      the same number. */
  lemma NumberCellReadsBack(n: real, rt: Runtime)
    requires rt.numberOfString(rt.stringOfNumber(n)) == Num(n)
    requires Trim(rt.stringOfNumber(n)) != ""
    requires !IsPrefix("{", rt.stringOfNumber(n)) && !IsPrefix("[", rt.stringOfNumber(n))
    ensures ConvertText(SectionText(Num(n), rt), rt) == Num(n)
  {
  }

  /** An object or array reads back when the engine parses its JSON text
      back to the same value. */
  lemma JsonCellReadsBack(v: Value, rt: Runtime)
    requires v.Arr? || v.Obj?
    requires IsPrefix("{", rt.stringify(v)) || IsPrefix("[", rt.stringify(v))
    requires rt.parse(rt.stringify(v)) == Some(v)
    ensures ConvertText(SectionText(v, rt), rt) == v
  {
  }

  // ------------------------------------------------------------ reading the lines of an export back

  /** A line the split into non-blank lines keeps as it is: it does not
      start with a space, does not end with a carriage return and holds no
      line feed. */
  predicate CleanLine(line: string) {
    line != [] && !IsJsSpace(line[0]) && line[|line| - 1] != '\r' && '\n' !in line
  }

  lemma {:induction false} DropReturnsOfClean(parts: seq<string>)
    requires forall k :: 0 <= k < |parts| ==> CleanLine(parts[k])
    ensures DropReturns(parts) == parts
  {
    if |parts| > 1 {
      DropReturnsOfClean(parts[1..]);
      assert [parts[0]] + parts[1..] == parts;
    }
  }

  lemma {:induction false} NonBlankOfClean(lines: seq<string>)
    requires forall k :: 0 <= k < |lines| ==> CleanLine(lines[k])
    ensures NonBlank(lines) == lines
  {
    if lines != [] {
      TrimNonEmpty(lines[0]);
      NonBlankOfClean(lines[1..]);
      assert [lines[0]] + lines[1..] == lines;
    }
  }

  /** Clean lines joined by line feeds split back into themselves. */
  lemma ContentLinesOfClean(lines: seq<string>)
    requires |lines| >= 1
    requires forall k :: 0 <= k < |lines| ==> CleanLine(lines[k])
    ensures ContentLines(Join(lines, "\n")) == lines
  {
    SplitJoin(lines, '\n');
    DropReturnsOfClean(lines);
    NonBlankOfClean(lines);
  }

  /** A join starts with its first part and ends with its last one. */
  lemma {:induction false} JoinEnds(parts: seq<string>, sep: string)
    requires |parts| >= 1 && forall k :: 0 <= k < |parts| ==> parts[k] != []
    ensures var j := Join(parts, sep); j != [] && j[0] == parts[0][0] && j[|j| - 1] == parts[|parts| - 1][|parts[|parts| - 1]| - 1]
  {
    if |parts| > 1 {
      JoinEnds(parts[1..], sep);
    }
  }

  /** Section headers as an export writes them: at least one, none empty
      or padded, none holding a comma or a line feed, and a header line
      that is not read as a marker. */
  predicate ExportHeaders(headers: seq<string>) {
    && |headers| >= 1
    && (forall k :: 0 <= k < |headers| ==> headers[k] != "" && Trimmed(headers[k]) && ',' !in headers[k] && '\n' !in headers[k])
    && !IsMarkerLine(Join(headers, ","))
  }

  /** A section name a marker line carries back: not empty, without a comma
      or a line feed, not ending with a carriage return. */
  predicate ExportName(name: string) {
    name != "" && ',' !in name && '\n' !in name && name[|name| - 1] != '\r'
  }

  lemma MarkerLineName(name: string)
    requires ',' !in name
    ensures SectionName(SECTION_MARKER + "," + name) == Some(name)
  {
    SplitNoSep(SECTION_MARKER, ',');
    SplitNoSep(name, ',');
    SplitPrefix(SECTION_MARKER, name, ',');
  }

  lemma HeaderLineReads(headers: seq<string>)
    requires ExportHeaders(headers)
    ensures HeaderList(Join(headers, ",")) == headers
  {
    SplitJoin(headers, ',');
    forall k | 0 <= k < |headers| ensures Trim(headers[k]) == headers[k] {
      TrimOfTrimmed(headers[k]);
    }
  }

  lemma MarkerLineClean(name: string)
    requires ExportName(name)
    ensures CleanLine(SECTION_MARKER + "," + name)
  {
    var line := SECTION_MARKER + "," + name;
    assert line[0] == '_';
    assert line[|line| - 1] == name[|name| - 1];
    assert forall c :: c in line ==> c in SECTION_MARKER || c == ',' || c in name;
  }

  lemma HeaderLineClean(headers: seq<string>)
    requires ExportHeaders(headers)
    ensures CleanLine(Join(headers, ","))
  {
    JoinEnds(headers, ",");
    JoinNoChar(headers, ",", '\n');
  }

  /** Record fields an export writes so that the line stays one line. */
  predicate SingleLineFields(row: Value, headers: seq<string>, rt: Runtime) {
    NoNullFields(row, headers) && forall k :: 0 <= k < |headers| ==> '\n' !in SectionText(Get(row, headers[k]), rt)
  }

  lemma RowLineClean(row: Value, headers: seq<string>, rt: Runtime)
    requires |headers| >= 1 && SingleLineFields(row, headers, rt)
    ensures CleanLine(RowLine(row, headers, rt)) && RowLine(row, headers, rt)[0] == '"'
  {
    var texts := FieldTextsOf(row, headers, rt);
    SectionCellsQuoted(row, headers, rt);
    QuotedCellsNoChar(texts, '\n');
    JoinEnds(SectionCells(row, headers, rt), ",");
  }

  // ------------------------------------------------------------ reading a section back

  /** The records a reader gives for the `n` lines from `i`. */
  function RunRecords(lines: seq<string>, i: nat, n: nat, headers: seq<string>, read: Reader): (rows: seq<Row>)
    requires i + n <= |lines|
    ensures |rows| == n
    ensures forall k :: 0 <= k < n ==> rows[k] == read(headers, lines[i + k])
    decreases n
  {
    if n == 0 then [] else [read(headers, lines[i])] + RunRecords(lines, i + 1, n - 1, headers, read)
  }

  /** `n` record lines from `i`, none a marker, each with a truthy value. */
  predicate FilledRun(lines: seq<string>, i: nat, n: nat, headers: seq<string>, read: Reader) {
    i + n <= |lines| && forall k :: i <= k < i + n ==> !IsMarkerLine(lines[k]) && HasTruthyValue(read(headers, lines[k]))
  }

  /** Under the cap, a run of such lines appends its records to the named
      collection, in order. */
  lemma {:induction false} SectionRecordsRun(lines: seq<string>, i: nat, n: nat, name: string, headers: seq<string>,
                                             read: Reader, result: Collections, count: nat, policy: CapPolicy)
    requires FilledRun(lines, i, n, headers, read) && name in result && count + n <= MAX_ROWS
    ensures SectionRecords(lines, i, Some(name), headers, read, result, count, policy)
         == SectionRecords(lines, i + n, Some(name), headers, read,
                           result[name := result[name] + RunRecords(lines, i, n, headers, read)], count + n, policy)
    decreases n
  {
    if n == 0 {
      assert result[name] + [] == result[name];
      assert result[name := result[name] + []] == result;
    } else {
      var row := read(headers, lines[i]);
      var kept := result[name := result[name] + [row]];
      SectionRecordsRun(lines, i + 1, n - 1, name, headers, read, kept, count + 1, policy);
      var rest := RunRecords(lines, i + 1, n - 1, headers, read);
      assert RunRecords(lines, i, n, headers, read) == [row] + rest;
      assert result[name] + [row] + rest == result[name] + RunRecords(lines, i, n, headers, read);
      assert kept[name := kept[name] + rest] == result[name := result[name] + RunRecords(lines, i, n, headers, read)];
    }
  }

  /** One collection of an export: its section name, headers and
      records. */
  datatype SectionData = SectionData(name: string, headers: seq<string>, rows: seq<Value>)

  /** The lines `exportAllSingle` writes after the file marker: one
      section per collection, in order. */
  function ExportSections(sections: seq<SectionData>, rt: Runtime): seq<string> {
    if sections == [] then []
    else BuildSection(sections[0].name, sections[0].headers, sections[0].rows, rt) + ExportSections(sections[1..], rt)
  }

  /** A file in the single-file format holding these sections, each with
      all its records. `exportAllSingle` writes one for the capped sections
      (`ExportContent`); a file with a section of more than `MAX_ROWS`
      records can only be made or edited by hand. */
  function SectionsFile(sections: seq<SectionData>, rt: Runtime): string {
    Join([ALL_MARKER] + ExportSections(sections, rt), "\n")
  }

  /** The sections `exportAllSingle` writes: each collection's first
      `MAX_ROWS` records (`slice(0, MAX_ROWS)`). */
  function CapSections(sections: seq<SectionData>): (r: seq<SectionData>)
    ensures |r| == |sections|
    ensures forall k :: 0 <= k < |sections| ==> r[k] == sections[k].(rows := Capped(sections[k].rows))
  {
    if sections == [] then []
    else [sections[0].(rows := Capped(sections[0].rows))] + CapSections(sections[1..])
  }

  /** The file `exportAllSingle` writes. */
  function ExportContent(sections: seq<SectionData>, rt: Runtime): string {
    SectionsFile(CapSections(sections), rt)
  }

  /** Each record restricted to the headers. */
  function Projections(rows: seq<Value>, headers: seq<string>): (r: seq<Row>)
    ensures |r| == |rows|
    ensures forall k :: 0 <= k < |rows| ==> r[k] == Projection(rows[k], headers)
  {
    if rows == [] then [] else [Projection(rows[0], headers)] + Projections(rows[1..], headers)
  }

  /** The records of a section a parse keeps: at most `MAX_ROWS`. */
  function Capped(rows: seq<Value>): (r: seq<Value>)
    ensures |r| <= MAX_ROWS && |r| <= |rows| && r == rows[..|r|]
    ensures |rows| <= MAX_ROWS ==> r == rows
  {
    if |rows| <= MAX_ROWS then rows else rows[..MAX_ROWS]
  }

  /** What reading the sections back should give: each section's first
      `MAX_ROWS` records, restricted to its headers, appended to the
      collection it names. */
  function Restored(result: Collections, sections: seq<SectionData>): Collections
    requires forall k :: 0 <= k < |sections| ==> sections[k].name in result
    decreases |sections|
  {
    if sections == [] then result
    else
      var s := sections[0];
      Restored(result[s.name := result[s.name] + Projections(Capped(s.rows), s.headers)], sections[1..])
  }

  /** A section an export can write and read back: a name a marker line
      carries, proper headers, single-line fields and records that each have a value. */
  predicate ExportableSection(s: SectionData, rt: Runtime) {
    && ExportName(s.name) && ExportHeaders(s.headers)
    && (forall k :: 0 <= k < |s.rows| ==> SingleLineFields(s.rows[k], s.headers, rt))
    && (forall k :: 0 <= k < |s.rows| ==> HasTruthyValue(Projection(s.rows[k], s.headers)))
  }

  /** The reader gives each of the section's record lines back as the
      record restricted to the headers. */
  predicate ReadsRecordsBack(s: SectionData, read: Reader, rt: Runtime) {
    forall k :: 0 <= k < |s.rows| ==> read(s.headers, RowLine(s.rows[k], s.headers, rt)) == Projection(s.rows[k], s.headers)
  }

  lemma BuildSectionLines(s: SectionData, rt: Runtime)
    ensures var b := BuildSection(s.name, s.headers, s.rows, rt);
      && b[0] == SECTION_MARKER + "," + s.name && b[1] == Join(s.headers, ",")
      && (forall k :: 0 <= k < |s.rows| ==> b[2 + k] == RowLine(s.rows[k], s.headers, rt))
  {
  }

  /** Every line of an exportable section is clean, and its record lines
      start with a quote. */
  lemma BuildSectionClean(s: SectionData, rt: Runtime)
    requires ExportableSection(s, rt)
    ensures var b := BuildSection(s.name, s.headers, s.rows, rt);
      && (forall k :: 0 <= k < |b| ==> CleanLine(b[k]))
      && (forall k :: 2 <= k < |b| ==> b[k][0] == '"')
  {
    var b := BuildSection(s.name, s.headers, s.rows, rt);
    BuildSectionLines(s, rt);
    MarkerLineClean(s.name);
    HeaderLineClean(s.headers);
    RowLinesClean(s, rt);
    forall k | 2 <= k < |b| ensures CleanLine(b[k]) && b[k][0] == '"' {
      assert b[k] == RowLine(s.rows[k - 2], s.headers, rt);
    }
  }

  lemma RowLinesClean(s: SectionData, rt: Runtime)
    requires |s.headers| >= 1
    requires forall k :: 0 <= k < |s.rows| ==> SingleLineFields(s.rows[k], s.headers, rt)
    ensures forall k :: 0 <= k < |s.rows| ==> CleanLine(RowLine(s.rows[k], s.headers, rt)) && RowLine(s.rows[k], s.headers, rt)[0] == '"'
  {
    forall k | 0 <= k < |s.rows| ensures CleanLine(RowLine(s.rows[k], s.headers, rt)) && RowLine(s.rows[k], s.headers, rt)[0] == '"' {
      RowLineClean(s.rows[k], s.headers, rt);
    }
  }

  /** Lines from `i` that read as section `s`: a marker line that names it,
      the header line that reads back as its headers, then record lines that
      are not markers and that the reader gives back as its records
      restricted to the headers. */
  predicate SectionAt(lines: seq<string>, i: nat, s: SectionData, read: Reader) {
    && i + 2 + |s.rows| <= |lines|
    && IsMarkerLine(lines[i]) && SectionName(lines[i]) == Some(s.name) && HeaderList(lines[i + 1]) == s.headers
    && FilledRun(lines, i + 2, |s.rows|, s.headers, read)
    && RunRecords(lines, i + 2, |s.rows|, s.headers, read) == Projections(s.rows, s.headers)
  }

  /** The lines an export writes for a section read as that section. */
  lemma SectionLayout(lines: seq<string>, i: nat, s: SectionData, read: Reader, rt: Runtime)
    requires ExportableSection(s, rt) && ReadsRecordsBack(s, read, rt)
    requires i + 2 + |s.rows| <= |lines| && lines[i..i + 2 + |s.rows|] == BuildSection(s.name, s.headers, s.rows, rt)
    ensures SectionAt(lines, i, s, read)
  {
    SectionHead(lines, i, s, rt);
    SectionBody(lines, i, s, read, rt);
  }

  lemma SectionHead(lines: seq<string>, i: nat, s: SectionData, rt: Runtime)
    requires ExportableSection(s, rt)
    requires i + 2 + |s.rows| <= |lines| && lines[i..i + 2 + |s.rows|] == BuildSection(s.name, s.headers, s.rows, rt)
    ensures IsMarkerLine(lines[i]) && SectionName(lines[i]) == Some(s.name) && HeaderList(lines[i + 1]) == s.headers
  {
    var b := BuildSection(s.name, s.headers, s.rows, rt);
    BuildSectionLines(s, rt);
    assert lines[i] == b[0] && lines[i + 1] == b[1];
    assert IsMarkerLine(lines[i]) by {
      assert (SECTION_MARKER + "," + s.name)[..|SECTION_MARKER|] == SECTION_MARKER;
    }
    MarkerLineName(s.name);
    HeaderLineReads(s.headers);
  }

  lemma SectionBody(lines: seq<string>, i: nat, s: SectionData, read: Reader, rt: Runtime)
    requires ExportableSection(s, rt) && ReadsRecordsBack(s, read, rt)
    requires i + 2 + |s.rows| <= |lines| && lines[i..i + 2 + |s.rows|] == BuildSection(s.name, s.headers, s.rows, rt)
    ensures FilledRun(lines, i + 2, |s.rows|, s.headers, read)
    ensures RunRecords(lines, i + 2, |s.rows|, s.headers, read) == Projections(s.rows, s.headers)
  {
    SectionRowLinesAt(lines, i, s, rt);
    RowLinesClean(s, rt);
    forall k | i + 2 <= k < i + 2 + |s.rows|
      ensures !IsMarkerLine(lines[k]) && read(s.headers, lines[k]) == Projection(s.rows[k - i - 2], s.headers)
    {
      assert lines[k][0] == '"' && SECTION_MARKER[0] == '_';
    }
  }

  lemma SectionRowLinesAt(lines: seq<string>, i: nat, s: SectionData, rt: Runtime)
    requires i + 2 + |s.rows| <= |lines| && lines[i..i + 2 + |s.rows|] == BuildSection(s.name, s.headers, s.rows, rt)
    ensures forall k :: i + 2 <= k < i + 2 + |s.rows| ==> lines[k] == RowLine(s.rows[k - i - 2], s.headers, rt)
  {
    var b := BuildSection(s.name, s.headers, s.rows, rt);
    BuildSectionLines(s, rt);
    forall k | i + 2 <= k < i + 2 + |s.rows| ensures lines[k] == RowLine(s.rows[k - i - 2], s.headers, rt) {
      assert lines[k] == b[k - i];
    }
  }

  /** A section at line `i` followed by the end of the file or by another
      marker, and within the cap, is read back whole: its records,
      restricted to its headers, are appended to its collection and reading
      goes on after it. */
  lemma SectionReadsBack(lines: seq<string>, i: nat, s: SectionData, result: Collections, policy: CapPolicy, read: Reader)
    requires SectionAt(lines, i, s, read) && |s.rows| <= MAX_ROWS && s.name in result
    requires i + 2 + |s.rows| == |lines| || IsMarkerLine(lines[i + 2 + |s.rows|])
    ensures Sections(lines, i, result, policy, read)
         == Sections(lines, i + 2 + |s.rows|, result[s.name := result[s.name] + Projections(s.rows, s.headers)], policy, read)
  {
    var e := i + 2 + |s.rows|;
    var kept := result[s.name := result[s.name] + Projections(s.rows, s.headers)];
    SectionRecordsRun(lines, i + 2, |s.rows|, s.name, s.headers, read, result, 0, policy);
    assert SectionRecords(lines, e, Some(s.name), s.headers, read, kept, |s.rows|, policy) == Ok(Progress(e, kept));
    assert SectionRecords(lines, i + 2, SectionName(lines[i]), HeaderList(lines[i + 1]), read, result, 0, policy)
        == Ok(Progress(e, kept));
  }

  /** Past the cap, a section's first `MAX_ROWS` records are kept and the
      row loop stands on the next record line. */
  lemma SectionRecordsOverCap(lines: seq<string>, i: nat, s: SectionData, result: Collections, policy: CapPolicy, read: Reader)
    requires SectionAt(lines, i, s, read) && |s.rows| > MAX_ROWS && s.name in result
    ensures SectionRecords(lines, i + 2, Some(s.name), s.headers, read, result, 0, policy)
         == SectionRecords(lines, i + 2 + MAX_ROWS, Some(s.name), s.headers, read,
                           result[s.name := result[s.name] + Projections(Capped(s.rows), s.headers)], MAX_ROWS, policy)
  {
    assert FilledRun(lines, i + 2, MAX_ROWS, s.headers, read);
    SectionRecordsRun(lines, i + 2, MAX_ROWS, s.name, s.headers, read, result, 0, policy);
    RunRecordsCapped(lines, i, s, read);
  }

  lemma RunRecordsCapped(lines: seq<string>, i: nat, s: SectionData, read: Reader)
    requires SectionAt(lines, i, s, read) && |s.rows| > MAX_ROWS
    ensures RunRecords(lines, i + 2, MAX_ROWS, s.headers, read) == Projections(Capped(s.rows), s.headers)
  {
    var all := RunRecords(lines, i + 2, |s.rows|, s.headers, read);
    forall k | 0 <= k < MAX_ROWS
      ensures RunRecords(lines, i + 2, MAX_ROWS, s.headers, read)[k] == Projections(Capped(s.rows), s.headers)[k]
    {
      assert all[k] == read(s.headers, lines[i + 2 + k]);
    }
  }

  /** With the corrected policy a section over the cap keeps its first
      `MAX_ROWS` records and reading goes on at the marker after it. */
  lemma SectionReadsBackSkipping(lines: seq<string>, i: nat, s: SectionData, result: Collections, read: Reader)
    requires SectionAt(lines, i, s, read) && |s.rows| > MAX_ROWS && s.name in result
    requires i + 2 + |s.rows| == |lines| || IsMarkerLine(lines[i + 2 + |s.rows|])
    ensures Sections(lines, i, result, SkipToMarker, read)
         == Sections(lines, i + 2 + |s.rows|, result[s.name := result[s.name] + Projections(Capped(s.rows), s.headers)], SkipToMarker, read)
  {
    var e := i + 2 + |s.rows|;
    var kept := result[s.name := result[s.name] + Projections(Capped(s.rows), s.headers)];
    SectionRecordsOverCap(lines, i, s, result, SkipToMarker, read);
    NextMarkerAfterRun(lines, i + 2 + MAX_ROWS, e);
    assert SectionRecords(lines, i + 2, SectionName(lines[i]), HeaderList(lines[i + 1]), read, result, 0, SkipToMarker)
        == Ok(Progress(e, kept));
  }

  /** Every line of an export is clean. */
  lemma {:induction false} ExportSectionsClean(sections: seq<SectionData>, rt: Runtime)
    requires forall k :: 0 <= k < |sections| ==> ExportableSection(sections[k], rt)
    ensures forall k :: 0 <= k < |ExportSections(sections, rt)| ==> CleanLine(ExportSections(sections, rt)[k])
  {
    if sections != [] {
      BuildSectionClean(sections[0], rt);
      ExportSectionsClean(sections[1..], rt);
    }
  }

  /** An export's sections start with a marker line. */
  lemma ExportSectionsStart(sections: seq<SectionData>, rt: Runtime)
    requires sections != []
    ensures var lines := ExportSections(sections, rt); |lines| >= 2 && IsMarkerLine(lines[0])
  {
    assert (SECTION_MARKER + "," + sections[0].name)[..|SECTION_MARKER|] == SECTION_MARKER;
  }

  /** After a run of lines that are not markers, the next marker is the one
      that ends the run, or the end. */
  lemma {:induction false} NextMarkerAfterRun(lines: seq<string>, i: nat, e: nat)
    requires i <= e <= |lines|
    requires forall k :: i <= k < e ==> !IsMarkerLine(lines[k])
    requires e == |lines| || IsMarkerLine(lines[e])
    ensures NextMarker(lines, i) == e
    decreases e - i
  {
    if i < e {
      NextMarkerAfterRun(lines, i + 1, e);
    }
  }

  /** A section followed by the end of the file or by a marker gives its
      kept records to its collection, when it is within the cap or the
      policy is the corrected one. */
  lemma SectionStep(lines: seq<string>, i: nat, s: SectionData, result: Collections, policy: CapPolicy, read: Reader)
    requires SectionAt(lines, i, s, read) && s.name in result
    requires policy == SkipToMarker || |s.rows| <= MAX_ROWS
    requires SectionEnd(i, s) == |lines| || IsMarkerLine(lines[SectionEnd(i, s)])
    ensures Sections(lines, i, result, policy, read)
         == Sections(lines, SectionEnd(i, s), result[s.name := result[s.name] + Projections(Capped(s.rows), s.headers)], policy, read)
  {
    if |s.rows| <= MAX_ROWS {
      SectionReadsBack(lines, i, s, result, policy, read);
    } else {
      SectionReadsBackSkipping(lines, i, s, result, read);
    }
  }

  /** A sequence whose tail from `i` is `b + rest` holds `b` from `i`
      and `rest` after it. */
  lemma SplitTail<T>(lines: seq<T>, i: nat, b: seq<T>, rest: seq<T>)
    requires i <= |lines| && lines[i..] == b + rest
    ensures i + |b| <= |lines| && lines[i..i + |b|] == b && lines[i + |b|..] == rest
    ensures rest != [] ==> lines[i + |b|] == rest[0]
  {
    assert lines[i..][..|b|] == b;
    assert lines[i..][|b|..] == rest;
  }

  /** The line after a section written from line `i`. */
  function SectionEnd(i: nat, s: SectionData): nat {
    i + 2 + |s.rows|
  }

  /** Lines from `i` that read as the given sections, one after the other,
      up to the end of the lines. */
  predicate SectionsAt(lines: seq<string>, i: nat, sections: seq<SectionData>, read: Reader)
    decreases |sections|
  {
    if sections == [] then i == |lines|
    else
      var e := SectionEnd(i, sections[0]);
      && SectionAt(lines, i, sections[0], read)
      && (e == |lines| || IsMarkerLine(lines[e]))
      && SectionsAt(lines, e, sections[1..], read)
  }

  /** The lines of an export read as its sections. */
  lemma {:induction false} ExportSectionsAt(lines: seq<string>, i: nat, sections: seq<SectionData>, read: Reader, rt: Runtime)
    requires i <= |lines| && lines[i..] == ExportSections(sections, rt)
    requires forall k :: 0 <= k < |sections| ==> ExportableSection(sections[k], rt) && ReadsRecordsBack(sections[k], read, rt)
    ensures SectionsAt(lines, i, sections, read)
    decreases |sections|
  {
    if sections == [] {
      assert |lines[i..]| == 0;
    } else {
      ExportFirstSectionAt(lines, i, sections, read, rt);
      ExportSectionsAt(lines, SectionEnd(i, sections[0]), sections[1..], read, rt);
    }
  }

  lemma ExportFirstSectionAt(lines: seq<string>, i: nat, sections: seq<SectionData>, read: Reader, rt: Runtime)
    requires sections != [] && i <= |lines| && lines[i..] == ExportSections(sections, rt)
    requires ExportableSection(sections[0], rt) && ReadsRecordsBack(sections[0], read, rt)
    ensures var e := SectionEnd(i, sections[0]);
      && SectionAt(lines, i, sections[0], read)
      && (e == |lines| || IsMarkerLine(lines[e]))
      && e <= |lines| && lines[e..] == ExportSections(sections[1..], rt)
  {
    ExportFirstLines(lines, i, sections, rt);
    SectionLayout(lines, i, sections[0], read, rt);
  }

  /** The lines of an export's first section, and the rest after them. */
  lemma ExportFirstLines(lines: seq<string>, i: nat, sections: seq<SectionData>, rt: Runtime)
    requires sections != [] && i <= |lines| && lines[i..] == ExportSections(sections, rt)
    ensures var s := sections[0]; var e := SectionEnd(i, s);
      && e <= |lines| && lines[i..e] == BuildSection(s.name, s.headers, s.rows, rt)
      && lines[e..] == ExportSections(sections[1..], rt)
      && (e == |lines| || IsMarkerLine(lines[e]))
  {
    var s := sections[0];
    var rest := ExportSections(sections[1..], rt);
    SplitTail(lines, i, BuildSection(s.name, s.headers, s.rows, rt), rest);
    if rest != [] {
      ExportSectionsStart(sections[1..], rt);
    }
  }

  /** Sections at line `i` come back as `Restored` describes: under either
      policy when no section is over the cap, and under the corrected policy
      always. */
  lemma {:induction false} SectionsReadBack(lines: seq<string>, i: nat, sections: seq<SectionData>, result: Collections,
                                            policy: CapPolicy, read: Reader)
    requires SectionsAt(lines, i, sections, read)
    requires forall k :: 0 <= k < |sections| ==> policy == SkipToMarker || |sections[k].rows| <= MAX_ROWS
    requires forall k :: 0 <= k < |sections| ==> sections[k].name in result
    ensures Sections(lines, i, result, policy, read) == Ok(Restored(result, sections))
    decreases |sections|
  {
    if sections != [] {
      var s := sections[0];
      var kept := result[s.name := result[s.name] + Projections(Capped(s.rows), s.headers)];
      SectionStep(lines, i, s, result, policy, read);
      SectionsReadBack(lines, SectionEnd(i, s), sections[1..], kept, policy, read);
    }
  }

  /** Reading back what `exportAllSingle` writes: every section's records,
      restricted to its headers, land in the collection the section names,
      under any reader that reads each record line back, whenever no section
      exceeds the cap or the policy is the corrected one. */
  lemma ExportReadsBack(sections: seq<SectionData>, policy: CapPolicy, read: Reader, rt: Runtime)
    requires forall k :: 0 <= k < |sections| ==> ExportableSection(sections[k], rt) && ReadsRecordsBack(sections[k], read, rt)
    requires forall k :: 0 <= k < |sections| ==> policy == SkipToMarker || |sections[k].rows| <= MAX_ROWS
    requires forall k :: 0 <= k < |sections| ==> sections[k].name in EMPTY_ALL
    requires |SectionsFile(sections, rt)| <= MAX_CSV_SIZE
    ensures ParseAll(Str(SectionsFile(sections, rt)), policy, read) == Ok(Restored(EMPTY_ALL, sections))
  {
    ParseAllOfExport(sections, policy, read, rt);
    ExportFileAt(sections, read, rt);
    SectionsReadBack([ALL_MARKER] + ExportSections(sections, rt), 1, sections, EMPTY_ALL, policy, read);
  }

  /** An export within the size limit passes the size and format checks
      and is read section by section from the line after the file marker. */
  lemma ParseAllOfExport(sections: seq<SectionData>, policy: CapPolicy, read: Reader, rt: Runtime)
    requires forall k :: 0 <= k < |sections| ==> ExportableSection(sections[k], rt)
    requires |SectionsFile(sections, rt)| <= MAX_CSV_SIZE
    ensures ParseAll(Str(SectionsFile(sections, rt)), policy, read)
         == Sections([ALL_MARKER] + ExportSections(sections, rt), 1, EMPTY_ALL, policy, read)
  {
    ExportFileLines(sections, rt);
  }

  /** The non-blank lines of an export are the lines it wrote, and they
      read as its sections after the file marker. */
  lemma ExportFileAt(sections: seq<SectionData>, read: Reader, rt: Runtime)
    requires forall k :: 0 <= k < |sections| ==> ExportableSection(sections[k], rt) && ReadsRecordsBack(sections[k], read, rt)
    ensures ContentLines(SectionsFile(sections, rt)) == [ALL_MARKER] + ExportSections(sections, rt)
    ensures Trim(ALL_MARKER) == ALL_MARKER
    ensures SectionsAt([ALL_MARKER] + ExportSections(sections, rt), 1, sections, read)
  {
    ExportFileLines(sections, rt);
    var lines := [ALL_MARKER] + ExportSections(sections, rt);
    assert lines[1..] == ExportSections(sections, rt);
    ExportSectionsAt(lines, 1, sections, read, rt);
  }

  /** The non-blank lines of an export are the lines it wrote. */
  lemma ExportFileLines(sections: seq<SectionData>, rt: Runtime)
    requires forall k :: 0 <= k < |sections| ==> ExportableSection(sections[k], rt)
    ensures ContentLines(SectionsFile(sections, rt)) == [ALL_MARKER] + ExportSections(sections, rt)
    ensures Trim(ALL_MARKER) == ALL_MARKER
  {
    ExportSectionsClean(sections, rt);
    AllMarkerClean();
    CleanCons(ALL_MARKER, ExportSections(sections, rt));
    ContentLinesOfClean([ALL_MARKER] + ExportSections(sections, rt));
  }

  lemma AllMarkerClean()
    ensures CleanLine(ALL_MARKER) && Trim(ALL_MARKER) == ALL_MARKER
  {
    TrimOfTrimmed(ALL_MARKER);
  }

  lemma CleanCons(line: string, lines: seq<string>)
    requires CleanLine(line) && forall k :: 0 <= k < |lines| ==> CleanLine(lines[k])
    ensures forall k :: 0 <= k < |[line] + lines| ==> CleanLine(([line] + lines)[k])
  {
  }

  // ------------------------------------------------------------ the two readers on an export

  /** Every field text the export writes converts back to the field's value. */
  predicate ValuesReadBack(s: SectionData, rt: Runtime) {
    forall r, j :: 0 <= r < |s.rows| && 0 <= j < |s.headers| ==>
      ConvertText(SectionText(Get(s.rows[r], s.headers[j]), rt), rt) == Get(s.rows[r], s.headers[j])
  }

  /** No field text the export writes holds a quote. */
  predicate QuoteFreeTexts(s: SectionData, rt: Runtime) {
    forall r, j :: 0 <= r < |s.rows| && 0 <= j < |s.headers| ==> '"' !in SectionText(Get(s.rows[r], s.headers[j]), rt)
  }

  /** The corrected reader gives each record line back. */
  lemma CorrectedReaderReadsRecords(s: SectionData, rt: Runtime)
    requires ExportableSection(s, rt) && ValuesReadBack(s, rt)
    ensures ReadsRecordsBack(s, CorrectedReaderOf(rt), rt)
  {
    forall k | 0 <= k < |s.rows|
      ensures CorrectedReaderOf(rt)(s.headers, RowLine(s.rows[k], s.headers, rt)) == Projection(s.rows[k], s.headers)
    {
      assert SingleLineFields(s.rows[k], s.headers, rt);
      RecordReadsBack(s.rows[k], s.headers, CorrectedCellReader(rt), rt);
    }
  }

  /** The reader as written gives each record line back when no field
      text holds a quote. */
  lemma AsWrittenReaderReadsRecords(s: SectionData, rt: Runtime)
    requires ExportableSection(s, rt) && ValuesReadBack(s, rt) && QuoteFreeTexts(s, rt)
    ensures ReadsRecordsBack(s, ReaderOf(rt), rt)
  {
    forall k | 0 <= k < |s.rows|
      ensures ReaderOf(rt)(s.headers, RowLine(s.rows[k], s.headers, rt)) == Projection(s.rows[k], s.headers)
    {
      assert SingleLineFields(s.rows[k], s.headers, rt);
      forall j | 0 <= j < |s.headers|
        ensures CellReader(rt)(SectionText(Get(s.rows[k], s.headers[j]), rt)) == Get(s.rows[k], s.headers[j])
      {
        CellValueOfQuoteFree(SectionText(Get(s.rows[k], s.headers[j]), rt), rt);
      }
      RecordReadsBack(s.rows[k], s.headers, CellReader(rt), rt);
    }
  }

  /** With both corrections, `parseAllSingle` reads back every file of
      sections whose values convert back, however many records a section
      holds: each section's first `MAX_ROWS` records, restricted to its
      headers, in the collection it names. */
  lemma CorrectedParseReadsSectionsFile(sections: seq<SectionData>, rt: Runtime)
    requires forall k :: 0 <= k < |sections| ==> ExportableSection(sections[k], rt) && ValuesReadBack(sections[k], rt)
    requires forall k :: 0 <= k < |sections| ==> sections[k].name in EMPTY_ALL
    requires |SectionsFile(sections, rt)| <= MAX_CSV_SIZE
    ensures ParseAll(Str(SectionsFile(sections, rt)), SkipToMarker, CorrectedReaderOf(rt)) == Ok(Restored(EMPTY_ALL, sections))
  {
    forall k | 0 <= k < |sections| ensures ReadsRecordsBack(sections[k], CorrectedReaderOf(rt), rt) {
      CorrectedReaderReadsRecords(sections[k], rt);
    }
    ExportReadsBack(sections, SkipToMarker, CorrectedReaderOf(rt), rt);
  }

  /** As written, `parseAllSingle` reads back a file of sections whose
      values convert back, whose field texts hold no quote and whose
      sections are within the cap. */
  lemma AsWrittenParseReadsQuoteFreeFile(sections: seq<SectionData>, rt: Runtime)
    requires forall k :: 0 <= k < |sections| ==> ExportableSection(sections[k], rt) && ValuesReadBack(sections[k], rt)
    requires forall k :: 0 <= k < |sections| ==> QuoteFreeTexts(sections[k], rt) && |sections[k].rows| <= MAX_ROWS
    requires forall k :: 0 <= k < |sections| ==> sections[k].name in EMPTY_ALL
    requires |SectionsFile(sections, rt)| <= MAX_CSV_SIZE
    ensures ParseAll(Str(SectionsFile(sections, rt)), StopAtRow, ReaderOf(rt)) == Ok(Restored(EMPTY_ALL, sections))
  {
    forall k | 0 <= k < |sections| ensures ReadsRecordsBack(sections[k], ReaderOf(rt), rt) {
      AsWrittenReaderReadsRecords(sections[k], rt);
    }
    ExportReadsBack(sections, StopAtRow, ReaderOf(rt), rt);
  }

  /** Capping a section keeps what holds of each of its records. */
  lemma CappedSectionKeeps(s: SectionData, rt: Runtime)
    ensures var c := s.(rows := Capped(s.rows));
      && |c.rows| <= MAX_ROWS
      && (ExportableSection(s, rt) ==> ExportableSection(c, rt))
      && (ValuesReadBack(s, rt) ==> ValuesReadBack(c, rt))
      && (QuoteFreeTexts(s, rt) ==> QuoteFreeTexts(c, rt))
  {
    var c := s.(rows := Capped(s.rows));
    assert forall k :: 0 <= k < |c.rows| ==> c.rows[k] == s.rows[k];
  }

  /** Reading the capped sections gives what reading the sections does:
      `Restored` already keeps only the first `MAX_ROWS` records. */
  lemma {:induction false} RestoredCapSections(result: Collections, sections: seq<SectionData>)
    requires forall k :: 0 <= k < |sections| ==> sections[k].name in result
    ensures Restored(result, CapSections(sections)) == Restored(result, sections)
    decreases |sections|
  {
    if sections != [] {
      var s := sections[0];
      var next := result[s.name := result[s.name] + Projections(Capped(s.rows), s.headers)];
      assert CapSections(sections)[1..] == CapSections(sections[1..]);
      assert Capped(Capped(s.rows)) == Capped(s.rows);
      RestoredCapSections(next, sections[1..]);
    }
  }

  /** With both corrections, `parseAllSingle` reads back every export whose
      values convert back: each section's first `MAX_ROWS` records,
      restricted to its headers, in the collection it names. */
  lemma CorrectedParseReadsExportBack(sections: seq<SectionData>, rt: Runtime)
    requires forall k :: 0 <= k < |sections| ==> ExportableSection(sections[k], rt) && ValuesReadBack(sections[k], rt)
    requires forall k :: 0 <= k < |sections| ==> sections[k].name in EMPTY_ALL
    requires |ExportContent(sections, rt)| <= MAX_CSV_SIZE
    ensures ParseAll(Str(ExportContent(sections, rt)), SkipToMarker, CorrectedReaderOf(rt)) == Ok(Restored(EMPTY_ALL, sections))
  {
    var capped := CapSections(sections);
    forall k | 0 <= k < |capped|
      ensures ExportableSection(capped[k], rt) && ValuesReadBack(capped[k], rt) && capped[k].name in EMPTY_ALL
    {
      CappedSectionKeeps(sections[k], rt);
    }
    CorrectedParseReadsSectionsFile(capped, rt);
    RestoredCapSections(EMPTY_ALL, sections);
  }

  /** As written, `parseAllSingle` reads back every export whose values
      convert back and whose field texts hold no quote, however large the
      collections: the export's own cap keeps each section within the
      parser's. */
  lemma AsWrittenParseReadsQuoteFreeExportBack(sections: seq<SectionData>, rt: Runtime)
    requires forall k :: 0 <= k < |sections| ==> ExportableSection(sections[k], rt) && ValuesReadBack(sections[k], rt)
    requires forall k :: 0 <= k < |sections| ==> QuoteFreeTexts(sections[k], rt)
    requires forall k :: 0 <= k < |sections| ==> sections[k].name in EMPTY_ALL
    requires |ExportContent(sections, rt)| <= MAX_CSV_SIZE
    ensures ParseAll(Str(ExportContent(sections, rt)), StopAtRow, ReaderOf(rt)) == Ok(Restored(EMPTY_ALL, sections))
  {
    var capped := CapSections(sections);
    forall k | 0 <= k < |capped|
      ensures && ExportableSection(capped[k], rt) && ValuesReadBack(capped[k], rt) && capped[k].name in EMPTY_ALL
              && QuoteFreeTexts(capped[k], rt) && |capped[k].rows| <= MAX_ROWS
    {
      CappedSectionKeeps(sections[k], rt);
    }
    AsWrittenParseReadsQuoteFreeFile(capped, rt);
    RestoredCapSections(EMPTY_ALL, sections);
  }

  // ------------------------------------------------------------ what the code as written does

  /** As written, a section past the cap stops the row loop on a record
      line, which the section loop then rejects as a missing marker. */
  lemma OversizedSectionStops(lines: seq<string>, i: nat, s: SectionData, result: Collections, read: Reader)
    requires SectionAt(lines, i, s, read) && |s.rows| > MAX_ROWS && s.name in result
    ensures Sections(lines, i, result, StopAtRow, read) == Throw(SectionMarkerExpected(i + 2 + MAX_ROWS + 1))
  {
    var kept := result[s.name := result[s.name] + Projections(Capped(s.rows), s.headers)];
    SectionRecordsOverCap(lines, i, s, result, StopAtRow, read);
    var e := i + 2 + MAX_ROWS;
    assert !IsMarkerLine(lines[e]);
    assert SectionRecords(lines, e, Some(s.name), s.headers, read, kept, MAX_ROWS, StopAtRow) == Ok(Progress(e, kept));
    assert SectionRecords(lines, i + 2, SectionName(lines[i]), HeaderList(lines[i + 1]), read, result, 0, StopAtRow)
        == Ok(Progress(e, kept));
    assert Sections(lines, e, kept, StopAtRow, read) == Throw(SectionMarkerExpected(e + 1));
  }

  /** As written, a file whose one section holds more than `MAX_ROWS`
      records (made or edited by hand: the export caps its sections), read
      by `parseAllSingle`, fails at the record after the cap with "section
      marker expected" on line `MAX_ROWS + 4`. */
  lemma AsWrittenOversizedSectionThrows(s: SectionData, read: Reader, rt: Runtime)
    requires ExportableSection(s, rt) && ReadsRecordsBack(s, read, rt) && s.name in EMPTY_ALL && |s.rows| > MAX_ROWS
    requires |SectionsFile([s], rt)| <= MAX_CSV_SIZE
    ensures ParseAll(Str(SectionsFile([s], rt)), StopAtRow, read) == Throw(SectionMarkerExpected(MAX_ROWS + 4))
  {
    assert [s][0] == s;
    ParseAllOfExport([s], StopAtRow, read, rt);
    SingleExportSectionAt(s, read, rt);
    OversizedSectionStops([ALL_MARKER] + ExportSections([s], rt), 1, s, EMPTY_ALL, read);
  }

  /** The export of one section holds that section right after the file
      marker. */
  lemma SingleExportSectionAt(s: SectionData, read: Reader, rt: Runtime)
    requires ExportableSection(s, rt) && ReadsRecordsBack(s, read, rt)
    ensures SectionAt([ALL_MARKER] + ExportSections([s], rt), 1, s, read)
  {
    assert [s][0] == s;
    ExportFileAt([s], read, rt);
  }

  /** As written, a text field made of two quote characters comes back
      empty: the tokenizer gives `""` and the second unescaping strips it. */
  lemma AsWrittenDoubledQuoteTextLost(rt: Runtime)
    ensures var row := Obj(map["nome" := Str("\"\"")]);
      ReaderOf(rt)(["nome"], RowLine(row, ["nome"], rt)) == map["nome" := Str("")]
  {
    var row := Obj(map["nome" := Str("\"\"")]);
    RowLineTokens(row, ["nome"], rt);
    assert FieldTextsOf(row, ["nome"], rt) == ["\"\""];
    assert StripOuterQuotes("\"\"") == "";
    assert Record(["\"\""], ["nome"], CellReader(rt)) == map["nome" := Str("")];
  }

  /** The corrected reader keeps that text, as long as the engine does not
      read it as a number (JavaScript's `Number` gives `NaN` for it). */
  lemma CorrectedDoubledQuoteTextKept(rt: Runtime)
    requires !NumberOfString("\"\"", rt).Num?
    ensures var row := Obj(map["nome" := Str("\"\"")]);
      CorrectedReaderOf(rt)(["nome"], RowLine(row, ["nome"], rt)) == map["nome" := Str("\"\"")]
  {
    var row := Obj(map["nome" := Str("\"\"")]);
    RowLineTokens(row, ["nome"], rt);
    assert FieldTextsOf(row, ["nome"], rt) == ["\"\""];
    TrimNonEmpty("\"\"");
    assert Record(["\"\""], ["nome"], CorrectedCellReader(rt)) == map["nome" := Str("\"\"")];
  }
}
