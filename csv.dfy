/**
 * The CSV codec of the lead import and export endpoints (src/lib/csv.ts).
 *
 * `ParseCsv` is the character-by-character reader: it splits cells at `,`
 * or `;` and rows at CRLF, LF or a bare CR, honours double-quoted sections
 * with `""` as an escaped quote, trims every cell and drops blank rows; the
 * first physical row names the fields of every later row.  `ToCsv` writes
 * rows back, quoting only the values that contain `"`, `,` or a line feed.
 *
 * `Scan` is the reader's state machine as a function of the unread suffix;
 * `ParseCsv` is proved to compute `Parse`, and the properties of the format
 * (the round trip `Parse(ToCsv(rows))`, the shape of every record) are
 * lemmas about `Parse`.
 */
module Csv {
  import opened Text

  /** A JavaScript object with string keys: its own keys in insertion order
      and the value of each key. */
  datatype Record<V> = Record(keys: seq<string>, fields: map<string, V>)

  /** `record[k] = v`: a new key goes to the end of the key order, an existing
      key keeps its place and takes the new value. */
  function Assign<V>(r: Record<V>, k: string, v: V): Record<V> {
    Record(if k in r.fields then r.keys else r.keys + [k], r.fields[k := v])
  }

  // ---------------------------------------------------------------------
  // Reading
  // ---------------------------------------------------------------------

  /** The reader's mutable state: finished rows, the cells of the row being
      read, the cell being read, and whether a quoted section is open. */
  datatype Lexer = Lexer(rows: seq<seq<string>>, line: seq<string>, current: string, inQuotes: bool)

  const Start: Lexer := Lexer([], [], "", false)

  /** `pushCell`: the current cell joins the row. */
  function PushCell(st: Lexer): Lexer {
    st.(line := st.line + [st.current], current := "")
  }

  /** `pushLine`: the row is kept when it has a cell or pending text, and the
      row buffer is cleared either way. */
  function PushLine(st: Lexer): Lexer {
    if |st.line| > 0 || |st.current| > 0 then st.(rows := st.rows + [st.line], line := [])
    else st.(line := [])
  }

  /** One turn of the reading loop at the start of `s`: how many characters
      it consumes (the look-ahead `text[i + 1]` is `s[1]`) and the state
      after it. */
  function Step(s: string, st: Lexer): (r: (nat, Lexer))
    requires s != []
    ensures 1 <= r.0 <= |s|
  {
    var c := s[0];
    if c == '"' then
      if st.inQuotes && |s| > 1 && s[1] == '"' then (2, st.(current := st.current + ['"']))
      else (1, st.(inQuotes := !st.inQuotes))
    else if !st.inQuotes && (c == ',' || c == ';') then (1, PushCell(st))
    else if !st.inQuotes && (c == '\n' || c == '\r') then
      (if c == '\r' && |s| > 1 && s[1] == '\n' then 2 else 1, PushLine(PushCell(st)))
    else (1, st.(current := st.current + [c]))
  }

  /** The state after reading all of `s` from state `st`. */
  function Scan(s: string, st: Lexer): Lexer
    decreases |s|
  {
    if s == [] then st else Scan(s[Step(s, st).0..], Step(s, st).1)
  }

  /** The physical rows of `text`: the rows read, after the final cell and
      row have been pushed. */
  function Lex(text: string): seq<seq<string>> {
    PushLine(PushCell(Scan(text, Start))).rows
  }

  /** `row[index]?.trim() ?? ""`. */
  function Cell(row: seq<string>, index: nat): string {
    if index < |row| then Trim(row[index]) else ""
  }

  /** `row.some((cell) => cell.trim().length > 0)`. */
  predicate NonBlank(row: seq<string>) {
    exists i :: 0 <= i < |row| && Trim(row[i]) != ""
  }

  function TrimAll(cells: seq<string>): seq<string> {
    seq(|cells|, i requires 0 <= i < |cells| => Trim(cells[i]))
  }

  /** The record built for `row` by assigning its cells under the headers, in
      header order. */
  function RecordOf(headers: seq<string>, row: seq<string>): Record<string>
    decreases |headers|
  {
    if headers == [] then Record([], map[])
    else Assign(RecordOf(headers[..|headers| - 1], row), headers[|headers| - 1], Cell(row, |headers| - 1))
  }

  /** The records of the non-blank rows among `rows`, in order. */
  function Records(headers: seq<string>, rows: seq<seq<string>>): seq<Record<string>>
    decreases |rows|
  {
    if rows == [] then []
    else
      var last := rows[|rows| - 1];
      Records(headers, rows[..|rows| - 1]) + (if NonBlank(last) then [RecordOf(headers, last)] else [])
  }

  /** What `parseCsv(text)` returns. */
  function Parse(text: string): seq<Record<string>> {
    var rows := Lex(text);
    if |rows| == 0 then [] else Records(TrimAll(rows[0]), rows[1..])
  }

  /** The record-building callback: a fresh object filled header by header. */
  method BuildRecord(headers: seq<string>, row: seq<string>) returns (record: Record<string>)
    ensures record == RecordOf(headers, row)
  {
    record := Record([], map[]);
    for index := 0 to |headers|
      invariant record == RecordOf(headers[..index], row)
    {
      assert headers[..index + 1][..index] == headers[..index];
      var value := if index < |row| then Trim(row[index]) else "";
      record := Assign(record, headers[index], value);
    }
    assert headers[..|headers|] == headers;
  }

  /** `parseCsv`: the reading loop over `text`, then the header row and the
      records of the later non-blank rows. */
  method ParseCsv(text: string) returns (records: seq<Record<string>>)
    ensures records == Parse(text)
  {
    var rows: seq<seq<string>> := [];
    var current := "";
    var inQuotes := false;
    var line: seq<string> := [];
    var i := 0;
    while i < |text|
      invariant 0 <= i <= |text|
      invariant Scan(text[i..], Lexer(rows, line, current, inQuotes)) == Scan(text, Start)
      decreases |text| - i
    {
      ghost var s := text[i..];
      ghost var step := Step(s, Lexer(rows, line, current, inQuotes));
      assert s[0] == text[i] && s[1..] == text[i + 1..];
      assert |s| > 1 ==> s[1] == text[i + 1] && s[2..] == text[i + 2..];
      var c := text[i];
      var hasNext := i + 1 < |text|;
      if c == '"' {
        if inQuotes && hasNext && text[i + 1] == '"' {
          current := current + ['"'];
          i := i + 1;
        } else {
          inQuotes := !inQuotes;
        }
      } else if !inQuotes && (c == ',' || c == ';') {
        line := line + [current];
        current := "";
      } else if !inQuotes && (c == '\n' || c == '\r') {
        if c == '\r' && hasNext && text[i + 1] == '\n' {
          i := i + 1;
        }
        line := line + [current];
        current := "";
        if |line| > 0 || |current| > 0 {
          rows := rows + [line];
        }
        line := [];
      } else {
        current := current + [c];
      }
      i := i + 1;
    }
    assert text[i..] == [];
    line := line + [current];
    current := "";
    if |line| > 0 || |current| > 0 {
      rows := rows + [line];
    }
    line := [];
    assert rows == Lex(text);

    if |rows| == 0 {
      return [];
    }
    var headers := TrimAll(rows[0]);
    records := [];
    var r := 1;
    while r < |rows|
      invariant 1 <= r <= |rows|
      invariant records == Records(headers, rows[1..r])
    {
      assert rows[1..r + 1][..r - 1] == rows[1..r];
      if NonBlank(rows[r]) {
        var record := BuildRecord(headers, rows[r]);
        records := records + [record];
      }
      r := r + 1;
    }
    assert rows[1..r] == rows[1..];
  }

  // ---------------------------------------------------------------------
  // What the reader does with each kind of character
  // ---------------------------------------------------------------------

  /** Outside quotes `,` and `;` both end the current cell. */
  lemma SeparatorsEndCell(rest: string, st: Lexer)
    requires !st.inQuotes
    ensures Scan([','] + rest, st) == Scan(rest, PushCell(st))
    ensures Scan([';'] + rest, st) == Scan(rest, PushCell(st))
  {
    assert ([','] + rest)[1..] == rest;
    assert ([';'] + rest)[1..] == rest;
  }

  /** Inside quotes separators and line breaks are ordinary characters. */
  lemma LiteralInQuotes(c: char, rest: string, st: Lexer)
    requires st.inQuotes
    requires c == ',' || c == ';' || c == '\n' || c == '\r'
    ensures Scan([c] + rest, st) == Scan(rest, st.(current := st.current + [c]))
  {
    assert ([c] + rest)[1..] == rest;
  }

  /** Outside quotes CRLF is one row break, the same as LF; a CR not followed
      by LF is a row break too. */
  lemma RowBreaksAgree(rest: string, st: Lexer)
    requires !st.inQuotes
    ensures Scan("\r\n" + rest, st) == Scan("\n" + rest, st)
    ensures Scan("\n" + rest, st) == Scan(rest, PushLine(PushCell(st)))
    ensures rest == [] || rest[0] != '\n' ==> Scan("\r" + rest, st) == Scan("\n" + rest, st)
  {
    assert ("\r\n" + rest)[2..] == rest;
    assert ("\n" + rest)[1..] == rest;
    assert ("\r" + rest)[1..] == rest;
  }

  /** Inside quotes `""` puts one `"` into the cell. */
  lemma DoubledQuoteInQuotes(rest: string, st: Lexer)
    requires st.inQuotes
    ensures Scan("\"\"" + rest, st) == Scan(rest, st.(current := st.current + "\""))
  {
    assert ("\"\"" + rest)[2..] == rest;
  }

  /** Any other `"` only opens or closes quoting and adds nothing to the cell. */
  lemma LoneQuoteToggles(rest: string, st: Lexer)
    requires !(st.inQuotes && rest != [] && rest[0] == '"')
    ensures Scan("\"" + rest, st) == Scan(rest, st.(inQuotes := !st.inQuotes))
  {
    assert ("\"" + rest)[1..] == rest;
  }

  predicate QuoteFree(st: Lexer) {
    && '"' !in st.current
    && (forall c :: c in st.line ==> '"' !in c)
    && (forall row, c :: row in st.rows && c in row ==> '"' !in c)
  }

  predicate NoDoubledQuote(s: string) {
    forall i :: 0 <= i < |s| - 1 ==> !(s[i] == '"' && s[i + 1] == '"')
  }

  /** Without a `""` pair in the input no cell ever holds a `"`: a lone quote
      is never emitted. */
  lemma {:induction false} QuotesNeedPairs(s: string, st: Lexer)
    requires NoDoubledQuote(s) && QuoteFree(st)
    ensures QuoteFree(Scan(s, st))
    decreases |s|
  {
    if s != [] {
      var (n, next) := Step(s, st);
      assert QuoteFree(next);
      assert NoDoubledQuote(s[n..]) by {
        forall i | 0 <= i < |s[n..]| - 1 ensures !(s[n..][i] == '"' && s[n..][i + 1] == '"') {
          assert s[n..][i] == s[n + i] && s[n..][i + 1] == s[n + i + 1];
        }
      }
      QuotesNeedPairs(s[n..], next);
    }
  }

  // ---------------------------------------------------------------------
  // Shape of the parse
  // ---------------------------------------------------------------------

  /** Reading always yields at least one physical row (the final `pushLine`
      always pushes), so `parseCsv`'s `rows.length === 0` branch is dead;
      empty input parses to no records. */
  lemma LexNeverEmpty(text: string)
    ensures |Lex(text)| >= 1
    ensures Lex([]) == [[""]]
    ensures Parse([]) == []
  {
    var st := PushCell(Scan(text, Start));
    assert |st.line| > 0;
    assert Scan([], Start) == Start;
    assert PushCell(Start).line == [""];
  }

  predicate Distinct(s: seq<string>) {
    forall i, j :: 0 <= i < j < |s| ==> s[i] != s[j]
  }

  /** A record's keys are exactly the headers, each once; with distinct
      headers they come in header order. */
  lemma {:induction false} RecordKeys(headers: seq<string>, row: seq<string>)
    ensures forall k :: k in RecordOf(headers, row).fields <==> k in headers
    ensures forall k :: k in RecordOf(headers, row).keys <==> k in headers
    ensures Distinct(RecordOf(headers, row).keys)
    ensures Distinct(headers) ==> RecordOf(headers, row).keys == headers
    decreases |headers|
  {
    if headers != [] {
      var n := |headers| - 1;
      var init := headers[..n];
      RecordKeys(init, row);
      assert headers == init + [headers[n]];
      assert Distinct(headers) ==> Distinct(init) && headers[n] !in init;
    }
  }

  /** A header's value is the trimmed cell under its last occurrence, or `""`
      past the end of the row: later duplicate headers win, missing trailing
      cells read as `""` and extra cells are ignored. */
  lemma {:induction false} RecordValues(headers: seq<string>, row: seq<string>, j: nat)
    requires j < |headers|
    requires forall l :: j < l < |headers| ==> headers[l] != headers[j]
    ensures headers[j] in RecordOf(headers, row).fields
    ensures RecordOf(headers, row).fields[headers[j]] == Cell(row, j)
    decreases |headers|
  {
    var n := |headers| - 1;
    if j < n {
      var init := headers[..n];
      assert init[j] == headers[j];
      RecordValues(init, row, j);
    }
  }

  /** One record per non-blank row after the header row and no other:
      every record is the record of some non-blank row, every non-blank row
      gives its record, and there are at most as many records as rows. */
  /** At most one record per row. */
  lemma {:induction false} RecordsCount(headers: seq<string>, rows: seq<seq<string>>)
    ensures |Records(headers, rows)| <= |rows|
    decreases |rows|
  {
    if rows != [] {
      RecordsCount(headers, rows[..|rows| - 1]);
    }
  }

  /** Every record is the record of a non-blank row. */
  lemma {:induction false} RecordsFrom(headers: seq<string>, rows: seq<seq<string>>, r: Record<string>)
    requires r in Records(headers, rows)
    ensures exists j :: 0 <= j < |rows| && NonBlank(rows[j]) && r == RecordOf(headers, rows[j])
    decreases |rows|
  {
    var n := |rows| - 1;
    var init := rows[..n];
    if r in Records(headers, init) {
      RecordsFrom(headers, init, r);
      var j :| 0 <= j < |init| && NonBlank(init[j]) && r == RecordOf(headers, init[j]);
      assert init[j] == rows[j];
    } else {
      assert NonBlank(rows[n]) && r == RecordOf(headers, rows[n]);
    }
  }

  /** Every non-blank row gives its record. */
  lemma {:induction false} RecordsCover(headers: seq<string>, rows: seq<seq<string>>, j: nat)
    requires j < |rows| && NonBlank(rows[j])
    ensures RecordOf(headers, rows[j]) in Records(headers, rows)
    decreases |rows|
  {
    var n := |rows| - 1;
    if j < n {
      var init := rows[..n];
      assert init[j] == rows[j];
      RecordsCover(headers, init, j);
    }
  }

  /** The header names are the trimmed cells of the first physical row; every
      record has exactly those keys, and there is at most one record per
      physical row after the first. */
  lemma ParseShape(text: string)
    ensures |Lex(text)| >= 1
    ensures |Parse(text)| <= |Lex(text)| - 1
    ensures forall r, k :: r in Parse(text) ==> (k in r.fields <==> k in TrimAll(Lex(text)[0]))
  {
    LexNeverEmpty(text);
    var rows := Lex(text);
    var headers := TrimAll(rows[0]);
    var later := rows[1..];
    RecordsCount(headers, later);
    forall r, k | r in Parse(text) ensures k in r.fields <==> k in headers {
      RecordsFrom(headers, later, r);
      var j :| 0 <= j < |later| && NonBlank(later[j]) && r == RecordOf(headers, later[j]);
      RecordKeys(headers, later[j]);
    }
  }

  // ---------------------------------------------------------------------
  // Writing
  // ---------------------------------------------------------------------

  /** A value handed to `toCsv`: a string, or `null` / `undefined`. */
  datatype Value = Str(s: string) | Nil

  /** `raw == null ? "" : String(raw)`. */
  function Shown(v: Value): string {
    match v
    case Str(s) => s
    case Nil => ""
  }

  function Lookup(row: Record<Value>, header: string): Value {
    if header in row.fields then row.fields[header] else Nil
  }

  predicate NeedsQuotes(v: string) {
    '"' in v || ',' in v || '\n' in v
  }

  /** `value.replace(/"/g, '""')`. */
  function DoubleQuotes(v: string): string
    decreases |v|
  {
    if v == [] then [] else (if v[0] == '"' then "\"\"" else [v[0]]) + DoubleQuotes(v[1..])
  }

  /** `escape`: quote the value, doubling its quotes, exactly when it holds
      `"`, `,` or a line feed. */
  function Escape(v: string): string {
    if NeedsQuotes(v) then "\"" + DoubleQuotes(v) + "\"" else v
  }

  function EscapeAll(values: seq<string>): seq<string> {
    seq(|values|, i requires 0 <= i < |values| => Escape(values[i]))
  }

  /** The values a row shows under the headers, in header order. */
  function RowValues(headers: seq<string>, row: Record<Value>): seq<string> {
    seq(|headers|, i requires 0 <= i < |headers| => Shown(Lookup(row, headers[i])))
  }

  /** `toCsv`: nothing for no rows; otherwise the first row's keys joined by
      `,` (unescaped), then one line of escaped values per row, all joined by
      line feeds. */
  function ToCsv(rows: seq<Record<Value>>): string {
    if |rows| == 0 then ""
    else
      var headers := rows[0].keys;
      Join("\n", [Join(",", headers)]
        + seq(|rows|, i requires 0 <= i < |rows| => Join(",", EscapeAll(RowValues(headers, rows[i])))))
  }

  // ---------------------------------------------------------------------
  // Round trip
  // ---------------------------------------------------------------------

  /** A value the reader gets back unchanged: it has no surrounding
      whitespace, and unless it is quoted it has no `;` and no CR. */
  predicate SafeValue(v: string) {
    Trimmed(v) && (NeedsQuotes(v) || (';' !in v && '\r' !in v))
  }

  /** A header the unescaped header line carries through. */
  predicate SafeHeader(h: string) {
    Trimmed(h) && '"' !in h && ',' !in h && ';' !in h && '\n' !in h && '\r' !in h
  }

  /** A row whose values under `headers` are all safe and not all blank. */
  predicate ExportableRow(headers: seq<string>, row: Record<Value>) {
    && (forall h :: h in headers ==> SafeValue(Shown(Lookup(row, h))))
    && (exists h :: h in headers && Shown(Lookup(row, h)) != "")
  }

  /** Rows `toCsv` writes in a form `parseCsv` reads back: distinct safe
      headers, and rows that are safe and not blank under them. */
  predicate Exportable(rows: seq<Record<Value>>) {
    rows != [] ==>
      && Distinct(rows[0].keys)
      && (forall h :: h in rows[0].keys ==> SafeHeader(h))
      && (forall i :: 0 <= i < |rows| ==> ExportableRow(rows[0].keys, rows[i]))
  }

  /** The string record `parseCsv` should give back for `row` under the
      headers of the first row. */
  function Project(headers: seq<string>, row: Record<Value>): Record<string> {
    Record(headers, map h | h in headers :: Shown(Lookup(row, h)))
  }

  /** A row of cells the writer and reader carry through unchanged. */
  predicate SafeLine(cells: seq<string>) {
    |cells| > 0 && forall c :: c in cells ==> SafeValue(c)
  }

  function EncodeLine(cells: seq<string>): string {
    Join(",", EscapeAll(cells))
  }

  function Encode(lines: seq<seq<string>>): string {
    Join("\n", seq(|lines|, i requires 0 <= i < |lines| => EncodeLine(lines[i])))
  }

  lemma {:induction false} ScanPlain(v: string, rest: string, st: Lexer)
    requires !st.inQuotes
    requires '"' !in v && ',' !in v && ';' !in v && '\n' !in v && '\r' !in v
    ensures Scan(v + rest, st) == Scan(rest, st.(current := st.current + v))
    decreases |v|
  {
    if v == [] {
      assert v + rest == rest && st.current + v == st.current;
    } else {
      var s := v + rest;
      assert s[0] == v[0] && v[0] in v;
      assert Step(s, st) == (1, st.(current := st.current + [v[0]]));
      assert s[1..] == v[1..] + rest;
      ScanPlain(v[1..], rest, st.(current := st.current + [v[0]]));
      assert st.current + [v[0]] + v[1..] == st.current + v;
    }
  }

  lemma {:induction false} ScanQuoted(v: string, rest: string, st: Lexer)
    requires st.inQuotes
    requires rest == [] || rest[0] != '"'
    ensures Scan(DoubleQuotes(v) + "\"" + rest, st) == Scan(rest, st.(current := st.current + v, inQuotes := false))
    decreases |v|
  {
    var s := DoubleQuotes(v) + "\"" + rest;
    if v == [] {
      assert s == "\"" + rest;
      assert |s| > 1 ==> s[1] == rest[0];
      assert Step(s, st) == (1, st.(inQuotes := false));
      assert s[1..] == rest;
      assert st.current + v == st.current;
    } else if v[0] == '"' {
      var t := DoubleQuotes(v[1..]) + "\"" + rest;
      assert s == "\"\"" + t;
      assert Step(s, st) == (2, st.(current := st.current + ['"']));
      assert s[2..] == t;
      ScanQuoted(v[1..], rest, st.(current := st.current + ['"']));
      assert st.current + ['"'] + v[1..] == st.current + v;
    } else {
      var t := DoubleQuotes(v[1..]) + "\"" + rest;
      assert s == [v[0]] + t;
      assert Step(s, st) == (1, st.(current := st.current + [v[0]]));
      assert s[1..] == t;
      ScanQuoted(v[1..], rest, st.(current := st.current + [v[0]]));
      assert st.current + [v[0]] + v[1..] == st.current + v;
    }
  }

  /** A quoted cell is read back without its quotes and with its doubled
      quotes single again. */
  lemma ScanQuotedCell(v: string, rest: string, st: Lexer)
    requires !st.inQuotes
    requires rest == [] || rest[0] != '"'
    ensures Scan("\"" + DoubleQuotes(v) + "\"" + rest, st) == Scan(rest, st.(current := st.current + v))
  {
    var t := DoubleQuotes(v) + "\"" + rest;
    assert "\"" + DoubleQuotes(v) + "\"" + rest == "\"" + t;
    LoneQuoteToggles(t, st);
    ScanQuoted(v, rest, st.(inQuotes := true));
    assert st.(inQuotes := true).(current := st.current + v, inQuotes := false) == st.(current := st.current + v);
  }

  /** A safe cell as `escape` writes it is read back as itself. */
  lemma ScanCell(v: string, rest: string, st: Lexer)
    requires !st.inQuotes && SafeValue(v)
    requires rest == [] || rest[0] == ',' || rest[0] == '\n'
    ensures Scan(Escape(v) + rest, st) == Scan(rest, st.(current := st.current + v))
  {
    if NeedsQuotes(v) {
      assert Escape(v) + rest == "\"" + DoubleQuotes(v) + "\"" + rest;
      ScanQuotedCell(v, rest, st);
    } else {
      ScanPlain(v, rest, st);
    }
  }

  lemma EncodeLineCons(cells: seq<string>, rest: string)
    requires |cells| > 1
    ensures EncodeLine(cells) + rest == Escape(cells[0]) + ([','] + (EncodeLine(cells[1..]) + rest))
  {
    assert EscapeAll(cells)[1..] == EscapeAll(cells[1..]);
    assert EncodeLine(cells) == Escape(cells[0]) + "," + EncodeLine(cells[1..]);
  }

  /** The cells of a safe line, followed by `rest`, are read into the row
      being built, the last of them left pending. */
  lemma {:induction false} ScanLine(cells: seq<string>, rest: string, st: Lexer)
    requires SafeLine(cells)
    requires !st.inQuotes && st.current == ""
    requires rest == [] || rest[0] == '\n'
    ensures Scan(EncodeLine(cells) + rest, st) == Scan(rest, LineRead(st, cells))
    decreases |cells|
  {
    if |cells| == 1 {
      ScanLastCell(cells, rest, st);
    } else {
      ScanFirstCell(cells, rest, st);
      var more := cells[1..];
      assert forall c :: c in more ==> c in cells;
      assert cells[0] in cells;
      ScanLine(more, rest, PushCell(st.(current := cells[0])));
      LineReadCons(st, cells);
    }
  }

  /** The state after reading the cells of a line: all but the last cell
      pushed onto the row, the last one pending. */
  function LineRead(st: Lexer, cells: seq<string>): Lexer
    requires cells != []
  {
    st.(line := st.line + cells[..|cells| - 1], current := cells[|cells| - 1])
  }

  lemma LineReadCons(st: Lexer, cells: seq<string>)
    requires |cells| > 1
    ensures LineRead(PushCell(st.(current := cells[0])), cells[1..]) == LineRead(st, cells)
  {
    var more := cells[1..];
    assert st.line + [cells[0]] + more[..|more| - 1] == st.line + cells[..|cells| - 1];
  }

  lemma ScanLastCell(cells: seq<string>, rest: string, st: Lexer)
    requires |cells| == 1 && SafeLine(cells)
    requires !st.inQuotes && st.current == ""
    requires rest == [] || rest[0] == '\n'
    ensures Scan(EncodeLine(cells) + rest, st) == Scan(rest, LineRead(st, cells))
  {
    assert cells[0] in cells;
    assert EncodeLine(cells) == Escape(cells[0]);
    ScanCell(cells[0], rest, st);
    assert st.line + cells[..0] == st.line;
    assert st.current + cells[0] == cells[0];
  }

  /** A cell followed by `,` is read and pushed. */
  lemma ScanCellComma(v: string, tail: string, st: Lexer)
    requires !st.inQuotes && st.current == "" && SafeValue(v)
    ensures Scan(Escape(v) + ([','] + tail), st) == Scan(tail, PushCell(st.(current := v)))
  {
    ScanCell(v, [','] + tail, st);
    assert st.current + v == v;
    SeparatorsEndCell(tail, st.(current := v));
  }

  /** The first of several cells is read and pushed. */
  lemma ScanFirstCell(cells: seq<string>, rest: string, st: Lexer)
    requires |cells| > 1 && SafeValue(cells[0])
    requires !st.inQuotes && st.current == ""
    ensures Scan(EncodeLine(cells) + rest, st)
         == Scan(EncodeLine(cells[1..]) + rest, PushCell(st.(current := cells[0])))
  {
    EncodeLineCons(cells, rest);
    ScanCellComma(cells[0], EncodeLine(cells[1..]) + rest, st);
  }

  lemma EncodeCons(lines: seq<seq<string>>)
    requires |lines| > 1
    ensures Encode(lines) == EncodeLine(lines[0]) + ("\n" + Encode(lines[1..]))
  {
    var encoded := seq(|lines|, i requires 0 <= i < |lines| => EncodeLine(lines[i]));
    assert encoded[1..] == seq(|lines[1..]|, i requires 0 <= i < |lines[1..]| => EncodeLine(lines[1..][i]));
  }

  /** The last line read and pushed becomes the last row. */
  lemma ScanLastLine(line: seq<string>, done: seq<seq<string>>)
    requires SafeLine(line)
    ensures PushLine(PushCell(Scan(EncodeLine(line), Lexer(done, [], "", false)))).rows == done + [line]
  {
    var st := Lexer(done, [], "", false);
    assert EncodeLine(line) + [] == EncodeLine(line);
    ScanLine(line, [], st);
    var st1 := LineRead(st, line);
    assert Scan([], st1) == st1;
    assert line[..|line| - 1] + [line[|line| - 1]] == line;
    assert PushCell(st1).line == line;
  }

  /** A line and its line feed are read into one more row. */
  lemma ScanLineBreak(lines: seq<seq<string>>, done: seq<seq<string>>)
    requires |lines| > 1 && SafeLine(lines[0])
    ensures Scan(Encode(lines), Lexer(done, [], "", false)) == Scan(Encode(lines[1..]), Lexer(done + [lines[0]], [], "", false))
  {
    var st := Lexer(done, [], "", false);
    var first := lines[0];
    var tail := Encode(lines[1..]);
    EncodeCons(lines);
    ScanLine(first, "\n" + tail, st);
    var st1 := LineRead(st, first);
    RowBreaksAgree(tail, st1);
    LineReadCells(st, first);
  }

  /** Ending the cell of a line read on an empty row leaves exactly the
      line's cells. */
  lemma LineReadCells(st: Lexer, cells: seq<string>)
    requires st.line == [] && cells != []
    ensures PushCell(LineRead(st, cells)).line == cells
  {
    assert cells[..|cells| - 1] + [cells[|cells| - 1]] == cells;
  }

  /** Reading the encoding of several safe lines gives them back as rows. */
  lemma {:induction false} ScanLines(lines: seq<seq<string>>, done: seq<seq<string>>)
    requires |lines| > 0
    requires forall k :: 0 <= k < |lines| ==> SafeLine(lines[k])
    ensures PushLine(PushCell(Scan(Encode(lines), Lexer(done, [], "", false)))).rows == done + lines
    decreases |lines|
  {
    if |lines| == 1 {
      assert Encode(lines) == EncodeLine(lines[0]);
      ScanLastLine(lines[0], done);
    } else {
      ScanLineBreak(lines, done);
      var more := lines[1..];
      assert forall k :: 0 <= k < |more| ==> more[k] == lines[k + 1];
      ScanLines(more, done + [lines[0]]);
      var next := Scan(Encode(more), Lexer(done + [lines[0]], [], "", false));
      assert PushLine(PushCell(next)).rows == done + [lines[0]] + more;
    }
  }

  /** When no row is blank there is one record per row. */
  lemma {:induction false} RecordsOfNonBlank(headers: seq<string>, rows: seq<seq<string>>)
    requires forall k :: 0 <= k < |rows| ==> NonBlank(rows[k])
    ensures |Records(headers, rows)| == |rows|
    ensures forall i :: 0 <= i < |rows| ==> Records(headers, rows)[i] == RecordOf(headers, rows[i])
    decreases |rows|
  {
    if rows != [] {
      var n := |rows| - 1;
      var init := rows[..n];
      assert forall k :: 0 <= k < n ==> init[k] == rows[k];
      assert NonBlank(rows[n]);
      RecordsOfNonBlank(headers, init);
      var last := RecordOf(headers, rows[n]);
      assert Records(headers, rows) == Records(headers, init) + [last];
      forall i | 0 <= i < |rows| ensures Records(headers, rows)[i] == RecordOf(headers, rows[i]) {
        if i < n {
          assert init[i] == rows[i];
        }
      }
    }
  }

  /** With distinct headers and cells that need no trimming, a row's record
      maps each header to the cell under it. */
  lemma RecordOfTrimmed(headers: seq<string>, cells: seq<string>)
    requires Distinct(headers) && |cells| == |headers|
    requires forall j :: 0 <= j < |cells| ==> Trimmed(cells[j])
    ensures RecordOf(headers, cells).keys == headers
    ensures forall h :: h in RecordOf(headers, cells).fields <==> h in headers
    ensures forall j :: 0 <= j < |headers| ==> RecordOf(headers, cells).fields[headers[j]] == cells[j]
  {
    RecordKeys(headers, cells);
    forall j | 0 <= j < |headers| ensures RecordOf(headers, cells).fields[headers[j]] == cells[j] {
      RecordValues(headers, cells, j);
      TrimFixesTrimmed(cells[j]);
    }
  }

  lemma ProjectRecord(headers: seq<string>, row: Record<Value>)
    requires Distinct(headers)
    requires forall h :: h in headers ==> SafeValue(Shown(Lookup(row, h)))
    ensures RecordOf(headers, RowValues(headers, row)) == Project(headers, row)
  {
    var cells := RowValues(headers, row);
    forall j | 0 <= j < |cells| ensures Trimmed(cells[j]) {
      assert headers[j] in headers;
    }
    RecordOfTrimmed(headers, cells);
    var r := RecordOf(headers, cells);
    var p := Project(headers, row);
    forall h | h in headers ensures r.fields[h] == p.fields[h] {
      var j :| 0 <= j < |headers| && headers[j] == h;
    }
    assert r.fields == p.fields;
  }

  /** The cell rows `toCsv` writes: the header row, then one row of shown
      values per record. */
  function Written(rows: seq<Record<Value>>): seq<seq<string>>
    requires rows != []
  {
    [rows[0].keys] + seq(|rows|, i requires 0 <= i < |rows| => RowValues(rows[0].keys, rows[i]))
  }

  lemma WrittenEncoded(rows: seq<Record<Value>>)
    requires rows != [] && Exportable(rows)
    ensures ToCsv(rows) == Encode(Written(rows))
  {
    var headers := rows[0].keys;
    var lines := Written(rows);
    assert EscapeAll(headers) == headers by {
      forall j | 0 <= j < |headers| ensures Escape(headers[j]) == headers[j] {
        assert headers[j] in headers;
      }
    }
    var a := [Join(",", headers)]
      + seq(|rows|, i requires 0 <= i < |rows| => Join(",", EscapeAll(RowValues(headers, rows[i]))));
    var b := seq(|lines|, i requires 0 <= i < |lines| => EncodeLine(lines[i]));
    assert a == b;
  }

  /** The values of an exportable row form a safe, non-blank line. */
  lemma RowSafe(headers: seq<string>, row: Record<Value>)
    requires ExportableRow(headers, row)
    ensures SafeLine(RowValues(headers, row)) && NonBlank(RowValues(headers, row))
  {
    var cells := RowValues(headers, row);
    var h :| h in headers && Shown(Lookup(row, h)) != "";
    var j :| 0 <= j < |headers| && headers[j] == h;
    TrimFixesTrimmed(cells[j]);
    forall c | c in cells ensures SafeValue(c) {
      var k :| 0 <= k < |cells| && cells[k] == c;
      assert headers[k] in headers;
    }
  }

  lemma WrittenSafe(rows: seq<Record<Value>>)
    requires rows != [] && Exportable(rows)
    ensures forall k :: 0 <= k < |Written(rows)| ==> SafeLine(Written(rows)[k])
    ensures forall k :: 1 <= k < |Written(rows)| ==> NonBlank(Written(rows)[k])
  {
    ValueLinesSafe(rows);
    HeaderLineSafe(rows);
  }

  /** The value lines are safe and not blank. */
  lemma ValueLinesSafe(rows: seq<Record<Value>>)
    requires rows != [] && Exportable(rows)
    ensures forall k :: 1 <= k < |Written(rows)| ==> NonBlank(Written(rows)[k]) && SafeLine(Written(rows)[k])
  {
    var headers := rows[0].keys;
    var lines := Written(rows);
    forall k | 1 <= k < |lines| ensures NonBlank(lines[k]) && SafeLine(lines[k]) {
      assert lines[k] == RowValues(headers, rows[k - 1]);
      assert ExportableRow(headers, rows[k - 1]);
      RowSafe(headers, rows[k - 1]);
    }
  }

  /** The header line is safe. */
  lemma HeaderLineSafe(rows: seq<Record<Value>>)
    requires rows != [] && Exportable(rows)
    ensures SafeLine(Written(rows)[0])
  {
    var headers := rows[0].keys;
    assert ExportableRow(headers, rows[0]);
    var h :| h in headers && Shown(Lookup(rows[0], h)) != "";
    forall c | c in headers ensures SafeValue(c) {
      assert SafeHeader(c);
    }
  }

  /** The reader splits what `toCsv` wrote into the written cell rows. */
  lemma LexWritten(rows: seq<Record<Value>>)
    requires rows != [] && Exportable(rows)
    ensures Lex(ToCsv(rows)) == Written(rows)
  {
    WrittenEncoded(rows);
    WrittenSafe(rows);
    ScanLines(Written(rows), []);
    assert [] + Written(rows) == Written(rows);
  }

  /** The written value rows read back as the projected records. */
  lemma RecordsWritten(rows: seq<Record<Value>>)
    requires rows != [] && Exportable(rows)
    ensures |Records(rows[0].keys, Written(rows)[1..])| == |rows|
    ensures forall i :: 0 <= i < |rows| ==> Records(rows[0].keys, Written(rows)[1..])[i] == Project(rows[0].keys, rows[i])
  {
    var headers := rows[0].keys;
    var values := Written(rows)[1..];
    WrittenSafe(rows);
    assert forall k :: 0 <= k < |values| ==> values[k] == Written(rows)[k + 1];
    RecordsOfNonBlank(headers, values);
    forall i | 0 <= i < |rows| ensures RecordOf(headers, values[i]) == Project(headers, rows[i]) {
      assert values[i] == RowValues(headers, rows[i]);
      assert ExportableRow(headers, rows[i]);
      ProjectRecord(headers, rows[i]);
    }
  }

  /** Reading back what `toCsv` wrote gives every row again, as a string
      record over the first row's keys, whenever the rows are
      `Exportable`. */
  lemma RoundTrip(rows: seq<Record<Value>>)
    requires Exportable(rows)
    ensures |Parse(ToCsv(rows))| == |rows|
    ensures forall i :: 0 <= i < |rows| ==> Parse(ToCsv(rows))[i] == Project(rows[0].keys, rows[i])
  {
    if rows == [] {
      LexNeverEmpty([]);
    } else {
      var headers := rows[0].keys;
      LexWritten(rows);
      assert TrimAll(headers) == headers by {
        forall j | 0 <= j < |headers| ensures Trim(headers[j]) == headers[j] {
          assert SafeHeader(headers[j]);
          TrimFixesTrimmed(headers[j]);
        }
      }
      assert Parse(ToCsv(rows)) == Records(headers, Written(rows)[1..]);
      RecordsWritten(rows);
    }
  }

  /** The string form of a record `toCsv` is given (`null` shown as `""`). */
  function Texts(row: Record<Value>): Record<string> {
    Record(row.keys, map k | k in row.fields :: Shown(row.fields[k]))
  }

  /** `parseCsv(toCsv(rows))` gives the rows back when every row has the
      first row's keys, in the same order, and the rows are exportable. */
  lemma RoundTripSameKeys(rows: seq<Record<Value>>)
    requires Exportable(rows)
    requires forall i :: 0 <= i < |rows| ==> rows[i].keys == rows[0].keys
    requires forall i, k :: 0 <= i < |rows| ==> (k in rows[i].fields <==> k in rows[i].keys)
    ensures |Parse(ToCsv(rows))| == |rows|
    ensures forall i :: 0 <= i < |rows| ==> Parse(ToCsv(rows))[i] == Texts(rows[i])
  {
    RoundTrip(rows);
    forall i | 0 <= i < |rows| ensures Project(rows[0].keys, rows[i]) == Texts(rows[i]) {
      assert Project(rows[0].keys, rows[i]).fields == Texts(rows[i]).fields;
    }
  }
}
