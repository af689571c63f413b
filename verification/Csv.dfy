/** The CSV reader: a character loop over a half-built record.

    Scan is the loop as a function of the unread text; ReadRecords is the loop itself.  A grammar of
    texts stands beside it: fields plain or in quotes, mixed freely, as section 2 of RFC 4180 has
    them, with the white space and the line breaks that the reader also takes.  The main theorems say
    that every text is well formed or malformed in one of three ways, and what the reader makes of
    each. */
module Csv {
  import opened Wrappers

  type Record = seq<string>

  datatype CsvError =
    | TextAfterQuote
    | QuoteInsideField
    | UnterminatedQuote
    | TooFewRecords
    | BadHeaders
    | RowLengthMismatch

  datatype Scanner = Scanner(records: seq<Record>, record: Record, field: string, quoted: bool, quoteClosed: bool)

  const START := Scanner([], [], "", false, false)

  /** White space, as trim and the regular expression class have it. */
  predicate IsWhite(c: char) {
    || '\t' <= c <= '\r' || c == ' ' || c == '\U{00A0}' || c == '\U{1680}'
    || '\U{2000}' <= c <= '\U{200A}' || c == '\U{2028}' || c == '\U{2029}'
    || c == '\U{202F}' || c == '\U{205F}' || c == '\U{3000}' || c == '\U{FEFF}'
  }

  function TrimStart(s: string): string {
    if s != [] && IsWhite(s[0]) then TrimStart(s[1..]) else s
  }

  function TrimEnd(s: string): string {
    if s != [] && IsWhite(s[|s| - 1]) then TrimEnd(s[..|s| - 1]) else s
  }

  function Trim(s: string): string {
    TrimEnd(TrimStart(s))
  }

  predicate HasContent(record: Record) {
    exists i :: 0 <= i < |record| && record[i] != ""
  }

  function FinishField(st: Scanner): Scanner {
    st.(record := st.record + [Trim(st.field)], field := "", quoteClosed := false)
  }

  function FinishRecord(st: Scanner): Scanner {
    var done := FinishField(st);
    done.(records := if HasContent(done.record) then done.records + [done.record] else done.records, record := [])
  }

  /** The length of the line break that starts with a carriage return or a line feed. */
  function BreakLength(src: string): (n: nat)
    requires src != ""
    ensures 1 <= n <= |src|
  {
    if src[0] == '\r' && |src| > 1 && src[1] == '\n' then 2 else 1
  }

  /** The loop, from a state, over the unread text. */
  function Scan(src: string, st: Scanner): Result<Scanner, CsvError>
    decreases |src|
  {
    if src == "" then Ok(st)
    else
      var c := src[0];
      if st.quoted then
        if c == '"' then
          if |src| > 1 && src[1] == '"' then Scan(src[2..], st.(field := st.field + "\""))
          else Scan(src[1..], st.(quoted := false, quoteClosed := true))
        else Scan(src[1..], st.(field := st.field + [c]))
      else if st.quoteClosed then
        if c == ',' then Scan(src[1..], FinishField(st))
        else if c == '\n' || c == '\r' then Scan(src[BreakLength(src)..], FinishRecord(st))
        else if !IsWhite(c) then Err(TextAfterQuote)
        else Scan(src[1..], st)
      else if c == '"' then
        if Trim(st.field) != "" then Err(QuoteInsideField)
        else Scan(src[1..], st.(field := "", quoted := true))
      else if c == ',' then Scan(src[1..], FinishField(st))
      else if c == '\n' || c == '\r' then Scan(src[BreakLength(src)..], FinishRecord(st))
      else Scan(src[1..], st.(field := st.field + [c]))
  }

  function StripMark(text: string): string {
    if text != "" && text[0] == '\U{FEFF}' then text[1..] else text
  }

  /** The records of a text: the loop, then what is left of the last line. */
  function Records(text: string): Result<seq<Record>, CsvError> {
    match Scan(StripMark(text), START)
    case Err(e) => Err(e)
    case Ok(st) =>
      if st.quoted then Err(UnterminatedQuote)
      else if st.field != "" || st.record != [] || st.quoteClosed then Ok(FinishRecord(st).records)
      else Ok(st.records)
  }

  /** A cell that reads as a number is one; Number is a parameter. */
  datatype Cell = Numeric(value: real) | Textual(text: string)

  type Coercion = string -> Option<real>

  function CellOf(number: Coercion, text: string): Cell {
    if text == "" then Textual(text)
    else
      match number(text)
      case Some(x) => Numeric(x)
      case None => Textual(text)
  }

  predicate ValidHeaders(headers: Record) {
    && (forall i, j :: 0 <= i < j < |headers| ==> headers[i] != headers[j])
    && (forall i :: 0 <= i < |headers| ==> headers[i] != "")
  }

  function RowOf(number: Coercion, headers: Record, values: Record): map<string, Cell>
    requires |values| == |headers|
  {
    if headers == [] then map[]
    else
      var n := |headers| - 1;
      RowOf(number, headers[..n], values[..n])[headers[n] := CellOf(number, values[n])]
  }

  function RowsOf(number: Coercion, headers: Record, rows: seq<Record>): seq<map<string, Cell>>
    requires forall i :: 0 <= i < |rows| ==> |rows[i]| == |headers|
  {
    seq(|rows|, i requires 0 <= i < |rows| => RowOf(number, headers, rows[i]))
  }

  function Parse(number: Coercion, text: string): Result<seq<map<string, Cell>>, CsvError> {
    match Records(text)
    case Err(e) => Err(e)
    case Ok(records) =>
      if |records| < 2 then Err(TooFewRecords)
      else if !ValidHeaders(records[0]) then Err(BadHeaders)
      else if forall i :: 0 <= i < |records[1..]| ==> |records[1..][i]| == |records[0]| then
        Ok(RowsOf(number, records[0], records[1..]))
      else Err(RowLengthMismatch)
  }

  // ---------------------------------------------------------------- the program

  method ReadRecords(text: string) returns (r: Result<seq<Record>, CsvError>)
    ensures r == Records(text)
  {
    var records: seq<Record>, record: Record, field := [], [], "";
    var quoted, quoteClosed := false, false;
    var source := StripMark(text);
    var index := 0;
    while index < |source|
      invariant index <= |source|
      invariant Scan(source, START) == Scan(source[index..], Scanner(records, record, field, quoted, quoteClosed))
      decreases |source| - index
    {
      var c := source[index];
      ghost var rest := source[index..];
      assert rest[1..] == source[index + 1..];
      assert |rest| > 1 ==> rest[1] == source[index + 1] && rest[2..] == source[index + 2..];
      var next := index + 1;
      if quoted {
        if c == '"' {
          if index + 1 < |source| && source[index + 1] == '"' {
            field := field + "\"";
            next := next + 1;
          } else {
            quoted, quoteClosed := false, true;
          }
        } else {
          field := field + [c];
        }
      } else if quoteClosed {
        if c == ',' {
          record := record + [Trim(field)];
          field, quoteClosed := "", false;
        } else if c == '\n' || c == '\r' {
          record := record + [Trim(field)];
          field, quoteClosed := "", false;
          if HasContent(record) {
            records := records + [record];
          }
          record := [];
          if c == '\r' && index + 1 < |source| && source[index + 1] == '\n' {
            next := next + 1;
          }
        } else if !IsWhite(c) {
          return Err(TextAfterQuote);
        }
      } else if c == '"' {
        if Trim(field) != "" {
          return Err(QuoteInsideField);
        }
        field, quoted := "", true;
      } else if c == ',' {
        record := record + [Trim(field)];
        field := "";
      } else if c == '\n' || c == '\r' {
        record := record + [Trim(field)];
        field := "";
        if HasContent(record) {
          records := records + [record];
        }
        record := [];
        if c == '\r' && index + 1 < |source| && source[index + 1] == '\n' {
          next := next + 1;
        }
      } else {
        field := field + [c];
      }
      index := next;
    }
    assert source[index..] == "";
    if quoted {
      return Err(UnterminatedQuote);
    }
    if field != "" || record != [] || quoteClosed {
      record := record + [Trim(field)];
      if HasContent(record) {
        records := records + [record];
      }
    }
    r := Ok(records);
  }

  /** One row per record after the header, unless some record has another length. */
  method BuildRows(number: Coercion, headers: Record, values: seq<Record>)
    returns (r: Result<seq<map<string, Cell>>, CsvError>)
    ensures r == if forall i :: 0 <= i < |values| ==> |values[i]| == |headers| then Ok(RowsOf(number, headers, values))
                 else Err(RowLengthMismatch)
  {
    var rows: seq<map<string, Cell>> := [];
    for i := 0 to |values|
      invariant |rows| == i
      invariant forall j :: 0 <= j < i ==> |values[j]| == |headers|
      invariant forall j :: 0 <= j < i ==> rows[j] == RowOf(number, headers, values[j])
    {
      if |values[i]| != |headers| {
        return Err(RowLengthMismatch);
      }
      rows := rows + [RowOf(number, headers, values[i])];
    }
    assert rows == RowsOf(number, headers, values);
    r := Ok(rows);
  }

  method ParseCsv(number: Coercion, text: string) returns (r: Result<seq<map<string, Cell>>, CsvError>)
    ensures r == Parse(number, text)
  {
    var read := ReadRecords(text);
    if read.Err? {
      return Err(read.error);
    }
    var records := read.value;
    if |records| < 2 {
      return Err(TooFewRecords);
    }
    if !ValidHeaders(records[0]) {
      return Err(BadHeaders);
    }
    r := BuildRows(number, records[0], records[1..]);
  }

  // ---------------------------------------------------------------- trimming

  predicate AllWhite(s: string) {
    forall i :: 0 <= i < |s| ==> IsWhite(s[i])
  }

  lemma {:induction false} TrimStartIs(s: string) returns (before: string)
    ensures s == before + TrimStart(s) && AllWhite(before)
    ensures TrimStart(s) != "" ==> !IsWhite(TrimStart(s)[0])
  {
    if s != "" && IsWhite(s[0]) {
      var rest := TrimStartIs(s[1..]);
      before := [s[0]] + rest;
    } else {
      before := "";
    }
  }

  lemma {:induction false} TrimEndIs(s: string) returns (after: string)
    ensures s == TrimEnd(s) + after && AllWhite(after)
    ensures TrimEnd(s) != "" ==> !IsWhite(TrimEnd(s)[|TrimEnd(s)| - 1])
  {
    if s != "" && IsWhite(s[|s| - 1]) {
      var rest := TrimEndIs(s[..|s| - 1]);
      after := rest + [s[|s| - 1]];
      assert s == s[..|s| - 1] + [s[|s| - 1]];
    } else {
      after := "";
    }
  }

  /** Trimming takes white space from both ends, all of it, and nothing else. */
  lemma TrimIs(s: string) returns (before: string, after: string)
    ensures s == before + Trim(s) + after && AllWhite(before) && AllWhite(after)
    ensures Trim(s) != "" ==> !IsWhite(Trim(s)[0]) && !IsWhite(Trim(s)[|Trim(s)| - 1])
  {
    before := TrimStartIs(s);
    after := TrimEndIs(TrimStart(s));
    if Trim(s) != "" {
      assert TrimStart(s)[0] == Trim(s)[0];
    }
  }

  lemma TrimmedAwayIff(s: string)
    ensures Trim(s) == "" <==> AllWhite(s)
  {
    var before, after := TrimIs(s);
    assert Trim(s) != "" ==> s[|before|] == Trim(s)[0];
  }

  // ---------------------------------------------------------------- the grammar

  /** A field as it stands in the text. */
  datatype Spelled = Plain(text: string) | InQuotes(before: string, body: string, after: string)

  datatype LineBreak = Lf | CrLf | Cr

  datatype Line = Line(fields: seq<Spelled>, end: LineBreak)

  predicate IsBare(c: char) {
    c != ',' && c != '"' && c != '\n' && c != '\r'
  }

  predicate AllBare(t: string) {
    forall i :: 0 <= i < |t| ==> IsBare(t[i])
  }

  /** White space within a line. */
  predicate IsBlank(t: string) {
    AllBare(t) && AllWhite(t)
  }

  /** A plain field has no comma, quote or line break; a quoted one has any body, and white space
      around its quotes. */
  predicate ValidField(f: Spelled) {
    match f
    case Plain(t) => AllBare(t)
    case InQuotes(before, _, after) => IsBlank(before) && IsBlank(after)
  }

  predicate ValidFields(fields: seq<Spelled>) {
    forall i :: 0 <= i < |fields| ==> ValidField(fields[i])
  }

  /** Inner quotes doubled. */
  function Doubled(f: string): string {
    if f == "" then "" else (if f[0] == '"' then "\"\"" else [f[0]]) + Doubled(f[1..])
  }

  function SpellField(f: Spelled): string {
    match f
    case Plain(t) => t
    case InQuotes(before, body, after) => before + "\"" + Doubled(body) + "\"" + after
  }

  /** Fields that a comma ends, each. */
  function SpellDone(fields: seq<Spelled>): string {
    if fields == [] then "" else SpellDone(fields[..|fields| - 1]) + (SpellField(fields[|fields| - 1]) + ",")
  }

  /** Fields with commas between them. */
  function SpellRow(fields: seq<Spelled>): string
    requires fields != []
  {
    SpellDone(fields[..|fields| - 1]) + SpellField(fields[|fields| - 1])
  }

  function BreakText(b: LineBreak): string {
    match b
    case Lf => "\n"
    case CrLf => "\r\n"
    case Cr => "\r"
  }

  function SpellLines(lines: seq<Line>): string
    requires forall i :: 0 <= i < |lines| ==> lines[i].fields != []
  {
    if lines == [] then ""
    else
      var n := |lines| - 1;
      SpellLines(lines[..n]) + (SpellRow(lines[n].fields) + BreakText(lines[n].end))
  }

  /** Lines of valid fields, in front of rest; a lone carriage return is not followed by a line feed. */
  predicate ValidLines(lines: seq<Line>, rest: string) {
    lines == [] ||
    var n := |lines| - 1;
    && lines[n].fields != [] && ValidFields(lines[n].fields)
    && (lines[n].end.Cr? && rest != "" ==> rest[0] != '\n')
    && ValidLines(lines[..n], SpellRow(lines[n].fields) + BreakText(lines[n].end) + rest)
  }

  /** What a text can be: well formed, or malformed after lines and fields that are not. */
  datatype Shape =
    | WellFormed(lines: seq<Line>, last: seq<Spelled>)
    | OpenQuote(lines: seq<Line>, done: seq<Spelled>, before: string, body: string)
    | TextAfter(lines: seq<Line>, done: seq<Spelled>, field: Spelled, c: char, rest: string)
    | QuoteInside(lines: seq<Line>, done: seq<Spelled>, text: string, rest: string)

  /** The part of a malformed text after its lines and finished fields. */
  function SpellTail(s: Shape): string
    requires !s.WellFormed?
  {
    match s
    case OpenQuote(_, _, before, body) => before + "\"" + Doubled(body)
    case TextAfter(_, _, field, c, rest) => SpellField(field) + ([c] + rest)
    case QuoteInside(_, _, text, rest) => text + ("\"" + rest)
  }

  /** The text after the lines. */
  function SpellEnd(s: Shape): string
    requires s.WellFormed? ==> s.last != []
  {
    if s.WellFormed? then SpellRow(s.last) else SpellDone(s.done) + SpellTail(s)
  }

  /** A quote that never closes; a character after a closing quote that ends nothing; a quote after
      text that is not blank. */
  predicate ValidShape(s: Shape) {
    match s
    case WellFormed(lines, last) => last != [] && ValidFields(last) && ValidLines(lines, SpellRow(last))
    case OpenQuote(lines, done, before, body) =>
      ValidFields(done) && IsBlank(before) && ValidLines(lines, SpellDone(done) + SpellTail(s))
    case TextAfter(lines, done, field, c, rest) =>
      && ValidFields(done) && field.InQuotes? && ValidField(field) && ValidLines(lines, SpellDone(done) + SpellTail(s))
      && !IsWhite(c) && c != ',' && (field.after == "" ==> c != '"')
    case QuoteInside(lines, done, text, rest) =>
      ValidFields(done) && AllBare(text) && !AllWhite(text) && ValidLines(lines, SpellDone(done) + SpellTail(s))
  }

  /** The shape spells the text after its byte order mark. */
  ghost predicate Describes(s: Shape, text: string) {
    && ValidShape(s)
    && (forall i :: 0 <= i < |s.lines| ==> s.lines[i].fields != [])
    && StripMark(text) == SpellLines(s.lines) + SpellEnd(s)
  }

  // ---------------------------------------------------------------- what the reader should make of it

  /** The content of a field, before trimming. */
  function ContentOf(f: Spelled): string {
    if f.Plain? then f.text else f.body
  }

  function Contents(fields: seq<Spelled>): Record {
    seq(|fields|, i requires 0 <= i < |fields| => ContentOf(fields[i]))
  }

  function Trimmed(fields: Record): Record {
    seq(|fields|, i requires 0 <= i < |fields| => Trim(fields[i]))
  }

  /** What the reader keeps of a table: its fields trimmed, its all-empty records dropped. */
  function Kept(table: seq<Record>): seq<Record> {
    if table == [] then []
    else
      var record := Trimmed(table[|table| - 1]);
      Kept(table[..|table| - 1]) + (if forall i :: 0 <= i < |record| ==> record[i] == "" then [] else [record])
  }

  function LineContents(lines: seq<Line>): seq<Record> {
    seq(|lines|, i requires 0 <= i < |lines| => Contents(lines[i].fields))
  }

  /** The table that a well-formed text holds; an empty last line is none. */
  function TableOf(lines: seq<Line>, last: seq<Spelled>): seq<Record> {
    LineContents(lines) + (if last == [Plain("")] then [] else [Contents(last)])
  }

  function Outcome(s: Shape): Result<seq<Record>, CsvError> {
    match s
    case WellFormed(lines, last) => Ok(Kept(TableOf(lines, last)))
    case OpenQuote(_, _, _, _) => Err(UnterminatedQuote)
    case TextAfter(_, _, _, _, _) => Err(TextAfterQuote)
    case QuoteInside(_, _, _, _) => Err(QuoteInsideField)
  }

  // ---------------------------------------------------------------- scanning a field

  predicate Fresh(st: Scanner) {
    !st.quoted && !st.quoteClosed && st.field == ""
  }

  lemma {:induction false} ScanBare(t: string, rest: string, st: Scanner)
    requires AllBare(t) && !st.quoted && !st.quoteClosed
    ensures Scan(t + rest, st) == Scan(rest, st.(field := st.field + t))
    decreases |t|
  {
    if t == "" {
      assert t + rest == rest && st.field + t == st.field;
    } else {
      var src, st' := t + rest, st.(field := st.field + [t[0]]);
      assert src[0] == t[0] && src[1..] == t[1..] + rest;
      ScanBare(t[1..], rest, st');
      assert st'.field + t[1..] == st.field + t;
    }
  }

  lemma {:induction false} ScanAfter(a: string, rest: string, st: Scanner)
    requires IsBlank(a) && !st.quoted && st.quoteClosed
    ensures Scan(a + rest, st) == Scan(rest, st)
    decreases |a|
  {
    if a == "" {
      assert a + rest == rest;
    } else {
      var src := a + rest;
      assert src[0] == a[0] && src[1..] == a[1..] + rest;
      assert IsBare(a[0]) && IsWhite(a[0]);
      ScanAfter(a[1..], rest, st);
    }
  }

  lemma {:induction false} ScanDoubled(f: string, rest: string, st: Scanner)
    requires st.quoted && (rest != "" ==> rest[0] != '"')
    ensures Scan(Doubled(f) + ("\"" + rest), st) ==
            Scan(rest, st.(field := st.field + f, quoted := false, quoteClosed := true))
    decreases |f|
  {
    var src := Doubled(f) + ("\"" + rest);
    if f == "" {
      assert src == "\"" + rest && src[1..] == rest;
      assert st.field + f == st.field;
    } else {
      var tail := Doubled(f[1..]) + ("\"" + rest);
      var st' := st.(field := st.field + [f[0]]);
      if f[0] == '"' {
        assert src == "\"\"" + tail && src[2..] == tail;
      } else {
        assert src == [f[0]] + tail && src[1..] == tail;
      }
      ScanDoubled(f[1..], rest, st');
      assert st'.field + f[1..] == st.field + f;
    }
  }

  /** A quote that is never closed takes the rest of the text. */
  lemma {:induction false} ScanUnclosed(f: string, st: Scanner)
    requires st.quoted
    ensures Scan(Doubled(f), st) == Ok(st.(field := st.field + f))
    decreases |f|
  {
    if f == "" {
      assert st.field + f == st.field;
    } else {
      var src, tail := Doubled(f), Doubled(f[1..]);
      var st' := st.(field := st.field + [f[0]]);
      if f[0] == '"' {
        assert src == "\"\"" + tail && src[2..] == tail;
      } else {
        assert src == [f[0]] + tail && src[1..] == tail;
      }
      ScanUnclosed(f[1..], st');
      assert st'.field + f[1..] == st.field + f;
    }
  }

  /** Blank space before a quote is dropped. */
  lemma ScanOpening(before: string, rest: string, st: Scanner)
    requires IsBlank(before) && Fresh(st)
    ensures Scan(before + ("\"" + rest), st) == Scan(rest, st.(quoted := true))
  {
    var src := "\"" + rest;
    ScanBare(before, src, st);
    assert st.field + before == before;
    TrimmedAwayIff(before);
    assert src[0] == '"' && src[1..] == rest;
  }

  /** The scanner after the characters of a field. */
  function Opened(st: Scanner, f: Spelled): Scanner {
    st.(field := ContentOf(f), quoteClosed := f.InQuotes?)
  }

  lemma QuotedParts(f: Spelled, rest: string)
    requires f.InQuotes?
    ensures SpellField(f) + rest == f.before + ("\"" + (Doubled(f.body) + ("\"" + (f.after + rest))))
  {
  }

  lemma ScanSpelled(f: Spelled, rest: string, st: Scanner)
    requires ValidField(f) && Fresh(st)
    requires f.InQuotes? && f.after == "" && rest != "" ==> rest[0] != '"'
    ensures Scan(SpellField(f) + rest, st) == Scan(rest, Opened(st, f))
  {
    match f
    case Plain(t) =>
      ScanBare(t, rest, st);
      assert st.field + t == t;
    case InQuotes(before, body, after) =>
      QuotedParts(f, rest);
      ScanOpening(before, Doubled(body) + ("\"" + (after + rest)), st);
      if after != "" {
        assert (after + rest)[0] == after[0] && IsBare(after[0]);
      } else {
        assert after + rest == rest;
      }
      ScanDoubled(body, after + rest, st.(quoted := true));
      assert st.field + body == body;
      ScanAfter(after, rest, Opened(st, f));
  }

  // ---------------------------------------------------------------- scanning fields and lines

  function WithFields(st: Scanner, fields: seq<Spelled>): Scanner {
    st.(record := st.record + Trimmed(Contents(fields)))
  }

  lemma FieldFinished(st: Scanner, fields: seq<Spelled>)
    requires Fresh(st) && fields != []
    ensures var n := |fields| - 1;
            FinishField(Opened(WithFields(st, fields[..n]), fields[n])) == WithFields(st, fields)
  {
    var n := |fields| - 1;
    assert Trimmed(Contents(fields)) == Trimmed(Contents(fields[..n])) + [Trim(ContentOf(fields[n]))];
  }

  lemma ScanComma(f: Spelled, rest: string, st: Scanner)
    requires ValidField(f) && Fresh(st)
    ensures Scan(SpellField(f) + ("," + rest), st) == Scan(rest, FinishField(Opened(st, f)))
  {
    ScanSpelled(f, "," + rest, st);
    assert ("," + rest)[1..] == rest;
  }

  lemma {:induction false} ScanDone(fields: seq<Spelled>, rest: string, st: Scanner)
    requires ValidFields(fields) && Fresh(st)
    ensures Scan(SpellDone(fields) + rest, st) == Scan(rest, WithFields(st, fields))
    decreases |fields|
  {
    if fields == [] {
      assert SpellDone(fields) + rest == rest;
      assert st.record + Trimmed(Contents(fields)) == st.record;
    } else {
      var n := |fields| - 1;
      var tail := SpellField(fields[n]) + ("," + rest);
      assert SpellDone(fields) + rest == SpellDone(fields[..n]) + tail;
      ScanDone(fields[..n], tail, st);
      ScanComma(fields[n], rest, WithFields(st, fields[..n]));
      FieldFinished(st, fields);
    }
  }

  lemma ScanBreak(b: LineBreak, rest: string, st: Scanner)
    requires !st.quoted && (b.Cr? && rest != "" ==> rest[0] != '\n')
    ensures Scan(BreakText(b) + rest, st) == Scan(rest, FinishRecord(st))
  {
    var src := BreakText(b) + rest;
    match b
    case Lf => assert src[0] == '\n' && src[1..] == rest;
    case CrLf => assert src[0] == '\r' && src[1] == '\n' && src[2..] == rest;
    case Cr => assert src[0] == '\r' && src[1..] == rest && (rest != "" ==> src[1] == rest[0]);
  }

  function Append(records: seq<Record>, record: Record): seq<Record> {
    records + (if HasContent(record) then [record] else [])
  }

  lemma RecordFinished(records: seq<Record>, fields: seq<Spelled>)
    requires fields != []
    ensures var n, st := |fields| - 1, START.(records := records);
            FinishRecord(Opened(WithFields(st, fields[..n]), fields[n])) ==
            START.(records := Append(records, Trimmed(Contents(fields))))
  {
    FieldFinished(START.(records := records), fields);
    assert [] + Trimmed(Contents(fields)) == Trimmed(Contents(fields));
    assert records + [] == records;
  }

  lemma Regroup(a: string, b: string, c: string)
    ensures a + b + c == a + (b + c)
  {
  }

  /** Scanning a row leaves its last field open. */
  lemma ScanRow(fields: seq<Spelled>, rest: string, st: Scanner)
    requires fields != [] && ValidFields(fields) && Fresh(st) && (rest != "" ==> rest[0] != '"')
    ensures var n := |fields| - 1;
            Scan(SpellRow(fields) + rest, st) == Scan(rest, Opened(WithFields(st, fields[..n]), fields[n]))
  {
    var n := |fields| - 1;
    Regroup(SpellDone(fields[..n]), SpellField(fields[n]), rest);
    ScanDone(fields[..n], SpellField(fields[n]) + rest, st);
    ScanSpelled(fields[n], rest, WithFields(st, fields[..n]));
  }

  lemma ScanLine(line: Line, rest: string, records: seq<Record>)
    requires line.fields != [] && ValidFields(line.fields) && (line.end.Cr? && rest != "" ==> rest[0] != '\n')
    ensures Scan(SpellRow(line.fields) + BreakText(line.end) + rest, START.(records := records)) ==
            Scan(rest, START.(records := Append(records, Trimmed(Contents(line.fields)))))
  {
    var n, st := |line.fields| - 1, START.(records := records);
    Regroup(SpellRow(line.fields), BreakText(line.end), rest);
    ScanRow(line.fields, BreakText(line.end) + rest, st);
    ScanBreak(line.end, rest, Opened(WithFields(st, line.fields[..n]), line.fields[n]));
    RecordFinished(records, line.fields);
  }

  lemma KeptSnoc(table: seq<Record>, record: Record)
    ensures Kept(table + [record]) == Append(Kept(table), Trimmed(record))
  {
    assert (table + [record])[..|table|] == table;
  }

  /** One more line of the table. */
  lemma LastRecord(lines: seq<Line>)
    requires lines != []
    ensures var n := |lines| - 1;
            LineContents(lines) == LineContents(lines[..n]) + [Contents(lines[n].fields)]
  {
  }

  lemma KeptLine(lines: seq<Line>)
    requires lines != []
    ensures var n := |lines| - 1;
            Kept(LineContents(lines)) == Append(Kept(LineContents(lines[..n])), Trimmed(Contents(lines[n].fields)))
  {
    LastRecord(lines);
    KeptSnoc(LineContents(lines[..|lines| - 1]), Contents(lines[|lines| - 1].fields));
  }

  /** One more line of text. */
  lemma LastLine(lines: seq<Line>, rest: string)
    requires lines != [] && forall i :: 0 <= i < |lines| ==> lines[i].fields != []
    ensures var n := |lines| - 1;
            SpellLines(lines) + rest ==
            SpellLines(lines[..n]) + (SpellRow(lines[n].fields) + BreakText(lines[n].end) + rest)
  {
    var n := |lines| - 1;
    Regroup(SpellLines(lines[..n]), SpellRow(lines[n].fields) + BreakText(lines[n].end), rest);
  }

  lemma {:induction false} ScanLines(lines: seq<Line>, rest: string)
    requires ValidLines(lines, rest) && forall i :: 0 <= i < |lines| ==> lines[i].fields != []
    ensures Scan(SpellLines(lines) + rest, START) == Scan(rest, START.(records := Kept(LineContents(lines))))
    decreases |lines|
  {
    if lines == [] {
      assert SpellLines(lines) + rest == rest;
    } else {
      var n := |lines| - 1;
      LastLine(lines, rest);
      KeptLine(lines);
      ScanLines(lines[..n], SpellRow(lines[n].fields) + BreakText(lines[n].end) + rest);
      ScanLine(lines[n], rest, Kept(LineContents(lines[..n])));
    }
  }

  // ---------------------------------------------------------------- each shape decides

  /** The records read when a scan ends in a state. */
  function Closed(st: Scanner): seq<Record> {
    if st.field != "" || st.record != [] || st.quoteClosed then FinishRecord(st).records else st.records
  }

  /** The last line, which no break ends. */
  lemma LastRowIsRead(last: seq<Spelled>, records: seq<Record>)
    requires last != [] && ValidFields(last)
    ensures var r := Scan(SpellRow(last), START.(records := records));
            r.Ok? && !r.value.quoted && Closed(r.value) == Append(records, Trimmed(Contents(last)))
  {
    var n, st := |last| - 1, START.(records := records);
    assert SpellRow(last) + "" == SpellRow(last);
    ScanRow(last, "", st);
    RecordFinished(records, last);
    var end := Opened(WithFields(st, last[..n]), last[n]);
    if end.field == "" && end.record == [] && !end.quoteClosed {
      assert n == 0 by { assert |end.record| == n; }
      assert Trimmed(Contents(last)) == [""];
      assert Append(records, [""]) == records;
    }
  }

  lemma EmptyLastRow(table: seq<Record>, last: seq<Spelled>)
    requires last != []
    ensures Append(Kept(table), Trimmed(Contents(last))) ==
            Kept(table + (if last == [Plain("")] then [] else [Contents(last)]))
  {
    if last == [Plain("")] {
      assert Trimmed(Contents(last)) == [""] && !HasContent([""]);
      assert table + [] == table && Kept(table) + [] == Kept(table);
    } else {
      KeptSnoc(table, Contents(last));
    }
  }

  lemma WellFormedIsRead(text: string, s: Shape)
    requires Describes(s, text) && s.WellFormed?
    ensures Records(text) == Outcome(s)
  {
    ScanLines(s.lines, SpellRow(s.last));
    LastRowIsRead(s.last, Kept(LineContents(s.lines)));
    EmptyLastRow(LineContents(s.lines), s.last);
  }

  /** A malformed text is scanned up to the field that is at fault. */
  lemma ScanToFault(text: string, s: Shape)
    requires Describes(s, text) && !s.WellFormed?
    ensures exists st :: Fresh(st) && Scan(StripMark(text), START) == Scan(SpellTail(s), st)
  {
    var st := START.(records := Kept(LineContents(s.lines)));
    ScanLines(s.lines, SpellEnd(s));
    ScanDone(s.done, SpellTail(s), st);
    assert Fresh(WithFields(st, s.done));
  }

  lemma OpenQuoteIsFound(before: string, body: string, st: Scanner)
    requires IsBlank(before) && Fresh(st)
    ensures var r := Scan(before + ("\"" + Doubled(body)), st);
            r.Ok? && r.value.quoted
  {
    ScanOpening(before, Doubled(body), st);
    ScanUnclosed(body, st.(quoted := true));
  }

  lemma TextAfterIsFound(field: Spelled, c: char, rest: string, st: Scanner)
    requires field.InQuotes? && ValidField(field) && Fresh(st)
    requires !IsWhite(c) && c != ',' && (field.after == "" ==> c != '"')
    ensures Scan(SpellField(field) + ([c] + rest), st) == Err(TextAfterQuote)
  {
    ScanSpelled(field, [c] + rest, st);
  }

  lemma QuoteInsideIsFound(text: string, rest: string, st: Scanner)
    requires AllBare(text) && !AllWhite(text) && Fresh(st)
    ensures Scan(text + ("\"" + rest), st) == Err(QuoteInsideField)
  {
    ScanBare(text, "\"" + rest, st);
    assert st.field + text == text;
    TrimmedAwayIff(text);
  }

  lemma FaultIsFound(s: Shape, st: Scanner)
    requires ValidShape(s) && !s.WellFormed? && Fresh(st)
    ensures var r := Scan(SpellTail(s), st);
            if s.OpenQuote? then r.Ok? && r.value.quoted else r.Err? && Outcome(s) == Err(r.error)
  {
    match s
    case OpenQuote(_, _, before, body) =>
      Regroup(before, "\"", Doubled(body));
      OpenQuoteIsFound(before, body, st);
    case TextAfter(_, _, field, c, rest) => TextAfterIsFound(field, c, rest, st);
    case QuoteInside(_, _, text, rest) => QuoteInsideIsFound(text, rest, st);
  }

  /** Main theorem: what the reader makes of a text follows from its shape: the trimmed fields of the
      records that are not all empty, or the error of its fault. */
  lemma ShapeDecides(text: string, s: Shape)
    requires Describes(s, text)
    ensures Records(text) == Outcome(s)
  {
    if s.WellFormed? {
      WellFormedIsRead(text, s);
    } else {
      ScanToFault(text, s);
      var st :| Fresh(st) && Scan(StripMark(text), START) == Scan(SpellTail(s), st);
      FaultIsFound(s, st);
    }
  }

  // ---------------------------------------------------------------- every text has a shape

  /** The longest bare prefix. */
  function BareLength(src: string): (n: nat)
    ensures n <= |src| && AllBare(src[..n]) && (n < |src| ==> !IsBare(src[n]))
  {
    if src == "" || !IsBare(src[0]) then 0
    else
      var n := 1 + BareLength(src[1..]);
      assert src[..n] == [src[0]] + src[1..][..n - 1];
      n
  }

  /** The longest blank prefix. */
  function BlankLength(src: string): (n: nat)
    ensures n <= |src| && IsBlank(src[..n]) && (n < |src| ==> !IsBare(src[n]) || !IsWhite(src[n]))
  {
    if src == "" || !IsBare(src[0]) || !IsWhite(src[0]) then 0
    else
      var n := 1 + BlankLength(src[1..]);
      assert src[..n] == [src[0]] + src[1..][..n - 1];
      n
  }

  /** What an opening quote opens: a body that a single quote closes, or the whole rest. */
  lemma {:induction false} SplitQuoted(src: string) returns (body: string, closed: bool, rest: string)
    ensures src == Doubled(body) + (if closed then "\"" + rest else "")
    ensures closed ==> |rest| < |src| && (rest != "" ==> rest[0] != '"')
    decreases |src|
  {
    if src == "" {
      body, closed, rest := "", false, "";
    } else if src[0] != '"' {
      var b, c, r := SplitQuoted(src[1..]);
      body, closed, rest := [src[0]] + b, c, r;
      assert body[1..] == b && src == [src[0]] + src[1..];
    } else if |src| > 1 && src[1] == '"' {
      var b, c, r := SplitQuoted(src[2..]);
      body, closed, rest := "\"" + b, c, r;
      assert body[1..] == b && src == "\"\"" + src[2..];
    } else {
      body, closed, rest := "", true, src[1..];
      assert src == "\"" + src[1..];
    }
  }

  function BreakOf(src: string): LineBreak
    requires src != "" && (src[0] == '\n' || src[0] == '\r')
  {
    if src[0] == '\n' then Lf else if |src| > 1 && src[1] == '\n' then CrLf else Cr
  }

  /** A text that is read up to lines and done, with src left. */
  ghost predicate AtField(lines: seq<Line>, done: seq<Spelled>, src: string) {
    && ValidFields(done)
    && ValidLines(lines, SpellDone(done) + src)
    && (forall i :: 0 <= i < |lines| ==> lines[i].fields != [])
  }

  ghost predicate Continues(s: Shape, lines: seq<Line>, done: seq<Spelled>, src: string) {
    && ValidShape(s)
    && (forall i :: 0 <= i < |lines| ==> lines[i].fields != [])
    && (forall i :: 0 <= i < |s.lines| ==> s.lines[i].fields != [])
    && SpellLines(s.lines) + SpellEnd(s) == SpellLines(lines) + (SpellDone(done) + src)
  }

  lemma BreakIs(src: string)
    requires src != "" && (src[0] == '\n' || src[0] == '\r')
    ensures src == BreakText(BreakOf(src)) + src[BreakLength(src)..]
    ensures BreakOf(src).Cr? && src[BreakLength(src)..] != "" ==> src[BreakLength(src)..][0] != '\n'
  {
  }

  /** The text ends with the field f. */
  lemma LastField(lines: seq<Line>, done: seq<Spelled>, f: Spelled)
    requires ValidField(f) && AtField(lines, done, SpellField(f))
    ensures Continues(WellFormed(lines, done + [f]), lines, done, SpellField(f))
  {
    assert (done + [f])[..|done|] == done;
  }

  /** A comma follows the field f. */
  lemma NextField(lines: seq<Line>, done: seq<Spelled>, f: Spelled, rest: string)
    requires ValidField(f) && AtField(lines, done, SpellField(f) + ("," + rest))
    ensures AtField(lines, done + [f], rest)
    ensures SpellDone(done + [f]) + rest == SpellDone(done) + (SpellField(f) + ("," + rest))
  {
    assert (done + [f])[..|done|] == done;
    Regroup(SpellDone(done), SpellField(f) + ",", rest);
    Regroup(SpellField(f), ",", rest);
  }

  lemma RowText(done: seq<Spelled>, f: Spelled, ending: string, rest: string)
    ensures SpellRow(done + [f]) + ending + rest == SpellDone(done) + (SpellField(f) + (ending + rest))
  {
    assert (done + [f])[..|done|] == done;
    Regroup(SpellRow(done + [f]), ending, rest);
    Regroup(SpellDone(done), SpellField(f), ending + rest);
  }

  lemma LineText(lines: seq<Line>, line: Line, rest: string)
    requires line.fields != [] && forall i :: 0 <= i < |lines| ==> lines[i].fields != []
    ensures SpellLines(lines + [line]) + rest ==
            SpellLines(lines) + (SpellRow(line.fields) + BreakText(line.end) + rest)
  {
    assert (lines + [line])[..|lines|] == lines;
    Regroup(SpellLines(lines), SpellRow(line.fields) + BreakText(line.end), rest);
  }

  /** A line break follows the field f. */
  lemma NextLine(lines: seq<Line>, done: seq<Spelled>, f: Spelled, b: LineBreak, rest: string)
    requires ValidField(f) && AtField(lines, done, SpellField(f) + (BreakText(b) + rest))
    requires b.Cr? && rest != "" ==> rest[0] != '\n'
    ensures AtField(lines + [Line(done + [f], b)], [], rest)
  {
    var line := Line(done + [f], b);
    assert SpellRow(line.fields) + BreakText(b) + rest == SpellDone(done) + (SpellField(f) + (BreakText(b) + rest)) by {
      RowText(done, f, BreakText(b), rest);
    }
    LineIsRead(lines, line, SpellRow(line.fields) + BreakText(b) + rest, rest);
  }

  lemma LineIsRead(lines: seq<Line>, line: Line, text: string, rest: string)
    requires forall i :: 0 <= i < |lines| ==> lines[i].fields != []
    requires line.fields != [] && ValidFields(line.fields) && (line.end.Cr? && rest != "" ==> rest[0] != '\n')
    requires ValidLines(lines, text) && text == SpellRow(line.fields) + BreakText(line.end) + rest
    ensures AtField(lines + [line], [], rest)
  {
    LinesSnoc(lines, line, rest);
    assert SpellDone([]) + rest == rest;
  }

  lemma NextLineText(lines: seq<Line>, done: seq<Spelled>, f: Spelled, b: LineBreak, rest: string)
    requires forall i :: 0 <= i < |lines| ==> lines[i].fields != []
    ensures SpellLines(lines + [Line(done + [f], b)]) + (SpellDone([]) + rest) ==
            SpellLines(lines) + (SpellDone(done) + (SpellField(f) + (BreakText(b) + rest)))
  {
    RowText(done, f, BreakText(b), rest);
    LineText(lines, Line(done + [f], b), rest);
    assert SpellDone([]) + rest == rest;
  }

  lemma LinesSnoc(lines: seq<Line>, line: Line, rest: string)
    requires line.fields != [] && ValidFields(line.fields) && (line.end.Cr? && rest != "" ==> rest[0] != '\n')
    requires ValidLines(lines, SpellRow(line.fields) + BreakText(line.end) + rest)
    ensures ValidLines(lines + [line], rest)
  {
    assert (lines + [line])[..|lines|] == lines;
  }

  /** The text goes on after the field f. */
  lemma {:induction false} DecomposeAfter(lines: seq<Line>, done: seq<Spelled>, f: Spelled, rest: string)
    returns (s: Shape)
    requires ValidField(f) && AtField(lines, done, SpellField(f) + rest)
    requires rest == "" || rest[0] == ',' || rest[0] == '\n' || rest[0] == '\r'
    ensures Continues(s, lines, done, SpellField(f) + rest)
    decreases |rest|, 0
  {
    if rest == "" {
      assert SpellField(f) + rest == SpellField(f);
      LastField(lines, done, f);
      s := WellFormed(lines, done + [f]);
    } else if rest[0] == ',' {
      assert rest == "," + rest[1..];
      NextField(lines, done, f, rest[1..]);
      s := Decompose(lines, done + [f], rest[1..]);
    } else {
      var b, left := BreakOf(rest), rest[BreakLength(rest)..];
      BreakIs(rest);
      NextLine(lines, done, f, b, left);
      NextLineText(lines, done, f, b, left);
      s := Decompose(lines + [Line(done + [f], b)], [], left);
    }
  }

  /** A quote that never closes. */
  lemma OpenQuoteLeft(lines: seq<Line>, done: seq<Spelled>, before: string, body: string)
    requires IsBlank(before) && AtField(lines, done, before + ("\"" + Doubled(body)))
    ensures Continues(OpenQuote(lines, done, before, body), lines, done, before + ("\"" + Doubled(body)))
  {
    Regroup(before, "\"", Doubled(body));
  }

  /** Text after a closing quote. */
  lemma TextLeft(lines: seq<Line>, done: seq<Spelled>, f: Spelled, rest: string)
    requires f.InQuotes? && ValidField(f) && rest != "" && AtField(lines, done, SpellField(f) + rest)
    requires !IsWhite(rest[0]) && rest[0] != ',' && (f.after == "" ==> rest[0] != '"')
    ensures Continues(TextAfter(lines, done, f, rest[0], rest[1..]), lines, done, SpellField(f) + rest)
  {
    assert [rest[0]] + rest[1..] == rest;
  }

  lemma {:induction false} DecomposeQuoted(lines: seq<Line>, done: seq<Spelled>, before: string, src: string)
    returns (s: Shape)
    requires IsBlank(before) && AtField(lines, done, before + ("\"" + src))
    ensures Continues(s, lines, done, before + ("\"" + src))
    decreases |src|, 1
  {
    var body, closed, left := SplitQuoted(src);
    if !closed {
      assert src == Doubled(body);
      OpenQuoteLeft(lines, done, before, body);
      s := OpenQuote(lines, done, before, body);
    } else {
      var f, rest := InQuotes(before, body, left[..BlankLength(left)]), left[BlankLength(left)..];
      ClosedText(f, left, rest, src);
      if rest == "" || rest[0] == ',' || rest[0] == '\n' || rest[0] == '\r' {
        s := DecomposeAfter(lines, done, f, rest);
      } else {
        TextLeft(lines, done, f, rest);
        s := TextAfter(lines, done, f, rest[0], rest[1..]);
      }
    }
  }

  lemma ClosedText(f: Spelled, left: string, rest: string, src: string)
    requires f.InQuotes? && left == f.after + rest && src == Doubled(f.body) + ("\"" + left)
    ensures f.before + ("\"" + src) == SpellField(f) + rest
  {
    QuotedParts(f, rest);
  }

  lemma QuoteInsideLeft(lines: seq<Line>, done: seq<Spelled>, text: string, rest: string)
    requires AllBare(text) && !AllWhite(text) && AtField(lines, done, text + ("\"" + rest))
    ensures Continues(QuoteInside(lines, done, text, rest), lines, done, text + ("\"" + rest))
  {
  }

  lemma {:induction false} Decompose(lines: seq<Line>, done: seq<Spelled>, src: string) returns (s: Shape)
    requires AtField(lines, done, src)
    ensures Continues(s, lines, done, src)
    decreases |src|, 2
  {
    var k := BareLength(src);
    var t, rest := src[..k], src[k..];
    assert src == t + rest;
    if rest != "" && rest[0] == '"' {
      assert rest == "\"" + rest[1..];
      if AllWhite(t) {
        s := DecomposeQuoted(lines, done, t, rest[1..]);
      } else {
        QuoteInsideLeft(lines, done, t, rest[1..]);
        s := QuoteInside(lines, done, t, rest[1..]);
      }
    } else {
      s := DecomposeAfter(lines, done, Plain(t), rest);
    }
  }

  /** Main theorem: every text has a shape. */
  lemma EveryTextHasShape(text: string) returns (s: Shape)
    ensures Describes(s, text)
  {
    var src := StripMark(text);
    assert SpellDone([]) + src == src && SpellLines([]) + (SpellDone([]) + src) == src;
    s := Decompose([], [], src);
  }

  /** Some shape of the text has the outcome r. */
  ghost predicate HasOutcome(text: string, r: Result<seq<Record>, CsvError>) {
    exists s :: Describes(s, text) && Outcome(s) == r
  }

  /** Main theorem: the reader answers exactly what the shapes of a text say; so each error is reported
      exactly for the texts with its fault, and a text without a fault is read. */
  lemma ReadsIff(text: string, r: Result<seq<Record>, CsvError>)
    ensures Records(text) == r <==> HasOutcome(text, r)
  {
    var shape := EveryTextHasShape(text);
    ShapeDecides(text, shape);
    if HasOutcome(text, r) {
      var s :| Describes(s, text) && Outcome(s) == r;
      ShapeDecides(text, s);
    }
  }

  lemma UnterminatedIff(text: string)
    ensures Records(text) == Err(UnterminatedQuote) <==> exists s: Shape :: s.OpenQuote? && Describes(s, text)
  {
    ReadsIff(text, Err(UnterminatedQuote));
  }

  lemma TextAfterQuoteIff(text: string)
    ensures Records(text) == Err(TextAfterQuote) <==> exists s: Shape :: s.TextAfter? && Describes(s, text)
  {
    ReadsIff(text, Err(TextAfterQuote));
  }

  lemma QuoteInsideFieldIff(text: string)
    ensures Records(text) == Err(QuoteInsideField) <==> exists s: Shape :: s.QuoteInside? && Describes(s, text)
  {
    ReadsIff(text, Err(QuoteInsideField));
  }

  const MARK := "\U{FEFF}"

  /** One leading byte order mark makes no difference. */
  lemma MarkIsDropped(text: string)
    requires text != "" ==> text[0] != '\U{FEFF}'
    ensures Records(MARK + text) == Records(text)
  {
    assert StripMark(MARK + text) == text;
  }

  // ---------------------------------------------------------------- round trips

  ghost predicate IsTrimmed(fields: Record) {
    forall i :: 0 <= i < |fields| ==> Trim(fields[i]) == fields[i]
  }

  ghost predicate AllFaithful(table: seq<Record>) {
    forall i :: 0 <= i < |table| ==> IsTrimmed(table[i]) && HasContent(table[i])
  }

  lemma TrimmedIsSameIff(fields: Record)
    ensures Trimmed(fields) == fields <==> IsTrimmed(fields)
  {
    if Trimmed(fields) == fields {
      assert forall i :: 0 <= i < |fields| ==> Trimmed(fields)[i] == fields[i];
    }
  }

  lemma {:induction false} KeptLength(table: seq<Record>)
    ensures |Kept(table)| <= |table|
  {
    if table != [] {
      KeptLength(table[..|table| - 1]);
    }
  }

  lemma {:induction false} KeptIsWholeIff(table: seq<Record>)
    ensures Kept(table) == table <==> AllFaithful(table)
  {
    if table != [] {
      var n := |table| - 1;
      var front, record := table[..n], Trimmed(table[n]);
      KeptIsWholeIff(front);
      KeptLength(front);
      TrimmedIsSameIff(table[n]);
      assert table == front + [table[n]];
      if HasContent(record) {
        assert Kept(table) == Kept(front) + [record];
        if Kept(table) == table {
          assert Kept(table)[..n] == front && Kept(table)[n] == table[n];
        }
      } else {
        assert Kept(table) == Kept(front);
      }
    }
  }

  /** A text that lays out the table: every field plain or in quotes, as it may be, and every line with
      any of the line breaks; the last break is optional. */
  ghost predicate LaysOut(text: string, table: seq<Record>) {
    exists s: Shape :: s.WellFormed? && Describes(s, text) && TableOf(s.lines, s.last) == table
  }

  /** Main theorem: of any table, with commas, quotes and line breaks inside its fields and plain and
      quoted fields mixed, the reader returns the trimmed fields of the records that are not all
      empty; it gives the table back exactly when its fields are trimmed already and no record is
      all empty. */
  lemma RoundTripIff(text: string, table: seq<Record>)
    requires LaysOut(text, table)
    ensures Records(text) == Ok(Kept(table))
    ensures Records(text) == Ok(table) <==> AllFaithful(table)
  {
    var s: Shape :| s.WellFormed? && Describes(s, text) && TableOf(s.lines, s.last) == table;
    ShapeDecides(text, s);
    KeptIsWholeIff(table);
  }

  function QuotedFields(record: Record): seq<Spelled> {
    seq(|record|, i requires 0 <= i < |record| => InQuotes("", record[i], ""))
  }

  function QuotedLines(table: seq<Record>): seq<Line> {
    seq(|table|, i requires 0 <= i < |table| => Line(QuotedFields(table[i]), CrLf))
  }

  lemma QuotedFieldsAreValid(record: Record)
    ensures ValidFields(QuotedFields(record)) && Contents(QuotedFields(record)) == record
  {
  }

  lemma QuotedLinesSnoc(table: seq<Record>)
    requires table != []
    ensures var n := |table| - 1;
            QuotedLines(table) == QuotedLines(table[..n]) + [Line(QuotedFields(table[n]), CrLf)]
  {
  }

  lemma {:induction false} QuotedLinesAreValid(table: seq<Record>, rest: string)
    requires forall i :: 0 <= i < |table| ==> table[i] != []
    ensures ValidLines(QuotedLines(table), rest)
  {
    if table != [] {
      var n := |table| - 1;
      var line := Line(QuotedFields(table[n]), CrLf);
      QuotedFieldsAreValid(table[n]);
      QuotedLinesAreValid(table[..n], SpellRow(line.fields) + BreakText(line.end) + rest);
      LinesSnoc(QuotedLines(table[..n]), line, rest);
      QuotedLinesSnoc(table);
    }
  }

  lemma QuotedTable(table: seq<Record>)
    ensures TableOf(QuotedLines(table), [Plain("")]) == table
  {
    forall i | 0 <= i < |table|
      ensures LineContents(QuotedLines(table))[i] == table[i]
    {
      QuotedFieldsAreValid(table[i]);
    }
  }

  /** Every table whose records have a field has such a text: quote every field. */
  lemma EveryTableHasText(table: seq<Record>) returns (text: string)
    requires forall i :: 0 <= i < |table| ==> table[i] != []
    ensures LaysOut(text, table)
  {
    var s := WellFormed(QuotedLines(table), [Plain("")]);
    QuotedLinesAreValid(table, SpellRow(s.last));
    QuotedTable(table);
    text := MARK + (SpellLines(s.lines) + SpellEnd(s));
    assert StripMark(text) == SpellLines(s.lines) + SpellEnd(s);
    assert Describes(s, text);
  }

  // ---------------------------------------------------------------- rows

  /** The value of a column, as a number if it reads as one. */
  predicate HoldsValue(number: Coercion, cell: Cell, value: string) {
    cell == if value != "" && number(value).Some? then Numeric(number(value).value) else Textual(value)
  }

  /** The row has exactly the headers as keys, and every value under its own header. */
  ghost predicate HoldsRow(number: Coercion, row: map<string, Cell>, headers: Record, values: Record)
    requires |values| == |headers|
  {
    && row.Keys == (set h | h in headers)
    && forall i :: 0 <= i < |headers| ==> headers[i] in row && HoldsValue(number, row[headers[i]], values[i])
  }

  lemma {:induction false} RowHolds(number: Coercion, headers: Record, values: Record)
    requires |values| == |headers| && forall i, j :: 0 <= i < j < |headers| ==> headers[i] != headers[j]
    ensures HoldsRow(number, RowOf(number, headers, values), headers, values)
    ensures |RowOf(number, headers, values)| == |headers|
  {
    if headers != [] {
      var n := |headers| - 1;
      var front := RowOf(number, headers[..n], values[..n]);
      RowHolds(number, headers[..n], values[..n]);
      assert headers[n] !in front by {
        assert forall i :: 0 <= i < n ==> headers[..n][i] == headers[i];
      }
      RowSnoc(number, front, headers, values);
      assert |front[headers[n] := CellOf(number, values[n])]| == |front| + 1;
    }
  }

  lemma RowSnoc(number: Coercion, front: map<string, Cell>, headers: Record, values: Record)
    requires |values| == |headers| > 0
    requires var n := |headers| - 1;
             headers[n] !in front && HoldsRow(number, front, headers[..n], values[..n])
    ensures var n := |headers| - 1;
            HoldsRow(number, front[headers[n] := CellOf(number, values[n])], headers, values)
  {
    var n := |headers| - 1;
    var row := front[headers[n] := CellOf(number, values[n])];
    assert headers == headers[..n] + [headers[n]];
    assert row.Keys == front.Keys + {headers[n]};
    forall i | 0 <= i < |headers|
      ensures headers[i] in row && HoldsValue(number, row[headers[i]], values[i])
    {
      if i < n {
        assert headers[..n][i] == headers[i] && values[..n][i] == values[i];
      }
    }
  }

  /** What a parsed text guarantees: one row per record after the first, each with exactly the headers
      of the first record as keys, none empty, none lost to a repetition, and the value of its column
      under each. */
  lemma ParsedRowsHold(number: Coercion, text: string)
    requires Parse(number, text).Ok?
    ensures Records(text).Ok? && |Records(text).value| >= 2
    ensures var records, rows := Records(text).value, Parse(number, text).value;
            && |rows| == |records| - 1
            && "" !in records[0]
            && forall i :: 0 <= i < |rows| ==>
                             && |records[i + 1]| == |records[0]| == |rows[i]|
                             && HoldsRow(number, rows[i], records[0], records[i + 1])
  {
    var records, rows := Records(text).value, Parse(number, text).value;
    forall i | 0 <= i < |rows|
      ensures && |records[i + 1]| == |records[0]| == |rows[i]|
              && HoldsRow(number, rows[i], records[0], records[i + 1])
    {
      assert records[1..][i] == records[i + 1];
      RowHolds(number, records[0], records[i + 1]);
    }
  }

  /** The first check that fails decides the error. */
  lemma ParseErrorIs(number: Coercion, text: string)
    ensures match Records(text)
            case Err(e) => Parse(number, text) == Err(e)
            case Ok(records) =>
              if |records| < 2 then Parse(number, text) == Err(TooFewRecords)
              else if (exists i :: 0 <= i < |records[0]| && records[0][i] == "")
                      || (exists i, j :: 0 <= i < j < |records[0]| && records[0][i] == records[0][j]) then
                Parse(number, text) == Err(BadHeaders)
              else if exists i :: 1 <= i < |records| && |records[i]| != |records[0]| then
                Parse(number, text) == Err(RowLengthMismatch)
              else Parse(number, text).Ok?
  {
    var read := Records(text);
    if read.Ok? && |read.value| >= 2 {
      var records := read.value;
      assert forall i :: 0 <= i < |records[1..]| ==> records[1..][i] == records[i + 1];
      if i :| 1 <= i < |records| && |records[i]| != |records[0]| {
        assert |records[1..][i - 1]| != |records[0]|;
      }
    }
  }
}
