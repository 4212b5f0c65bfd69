/**
 * The reading half of the lead import script: the file is cut into lines, the
 * header line binds columns to lead fields, and every data line is scanned by a
 * quote-toggling character loop into trimmed values.
 */
module CsvReader {
  import opened Wrappers
  import opened Text

  /* ---------- the character scanner ---------- */

  /** The scanner's variables between two characters: `inQuotes`, `current` and the values pushed so far (untrimmed). */
  datatype ScanState = ScanState(inQuotes: bool, current: string, done: seq<string>)

  /** One iteration of the character loop: a quote flips the mode, an unquoted comma closes a value, anything else is copied. */
  function Step(st: ScanState, c: char): ScanState {
    if c == '"' then st.(inQuotes := !st.inQuotes)
    else if c == ',' && !st.inQuotes then ScanState(st.inQuotes, "", st.done + [st.current])
    else st.(current := st.current + [c])
  }

  /** The scanner state after the characters of `s`. */
  function ScanPrefix(s: string): ScanState {
    if s == [] then ScanState(false, "", [])
    else Step(ScanPrefix(s[..|s| - 1]), s[|s| - 1])
  }

  /** The values of a line before trimming: every pushed value and the last one. */
  function RawFields(line: string): seq<string> {
    var st := ScanPrefix(line);
    st.done + [st.current]
  }

  function TrimAll(s: seq<string>): (r: seq<string>)
    ensures |r| == |s| && forall i :: 0 <= i < |s| ==> r[i] == Trim(s[i])
  {
    seq(|s|, i requires 0 <= i < |s| => Trim(s[i]))
  }

  lemma TrimAllSnoc(s: seq<string>, x: string)
    ensures TrimAll(s + [x]) == TrimAll(s) + [Trim(x)]
  {
  }

  lemma ScanPrefixSnoc(line: string, j: nat)
    requires j < |line|
    ensures ScanPrefix(line[..j + 1]) == Step(ScanPrefix(line[..j]), line[j])
  {
    assert line[..j + 1][..j] == line[..j];
  }

  /** The values of one data line, each trimmed. */
  method ScanLine(line: string) returns (values: seq<string>)
    ensures values == TrimAll(RawFields(line))
  {
    values := [];
    var current := "";
    var inQuotes := false;
    ghost var raw: seq<string> := [];
    for j := 0 to |line|
      invariant ScanPrefix(line[..j]) == ScanState(inQuotes, current, raw)
      invariant values == TrimAll(raw)
    {
      var c := line[j];
      ScanPrefixSnoc(line, j);
      if c == '"' {
        inQuotes := !inQuotes;
      } else if c == ',' && !inQuotes {
        TrimAllSnoc(raw, current);
        values := values + [Trim(current)];
        raw := raw + [current];
        current := "";
      } else {
        current := current + [c];
      }
    }
    assert line[..|line|] == line;
    TrimAllSnoc(raw, current);
    values := values + [Trim(current)];
  }

  /** The scanner loop resumed from state `st` over the characters of `s`. */
  function Run(st: ScanState, s: string): ScanState {
    if s == [] then st else Step(Run(st, s[..|s| - 1]), s[|s| - 1])
  }

  lemma {:induction false} ScanPrefixIsRun(s: string)
    ensures ScanPrefix(s) == Run(ScanState(false, "", []), s)
  {
    if s != [] {
      ScanPrefixIsRun(s[..|s| - 1]);
    }
  }

  /** Scanning a concatenation is scanning the second part from where the first left off. */
  lemma {:induction false} RunAppend(st: ScanState, a: string, b: string)
    ensures Run(st, a + b) == Run(Run(st, a), b)
  {
    if b == [] {
      assert a + b == a;
    } else {
      assert (a + b)[..|a + b| - 1] == a + b[..|b| - 1];
      RunAppend(st, a, b[..|b| - 1]);
    }
  }

  /* ---------- what the scanner computes, stated independently ---------- */

  function QuoteCount(s: string): nat {
    if s == [] then 0 else QuoteCount(s[..|s| - 1]) + (if s[|s| - 1] == '"' then 1 else 0)
  }

  /** `s` with every quote character removed. */
  function DropQuotes(s: string): string {
    if s == [] then [] else DropQuotes(s[..|s| - 1]) + (if s[|s| - 1] == '"' then [] else [s[|s| - 1]])
  }

  /** The commas of `s` preceded by an even number of quotes. */
  function UnquotedCommas(s: string): nat {
    if s == [] then 0
    else UnquotedCommas(s[..|s| - 1]) + (if s[|s| - 1] == ',' && QuoteCount(s[..|s| - 1]) % 2 == 0 then 1 else 0)
  }

  predicate QuoteFree(s: string) {
    '"' !in s
  }

  lemma {:induction false} ScanPrefixFacts(s: string)
    ensures ScanPrefix(s).inQuotes <==> QuoteCount(s) % 2 == 1
    ensures |ScanPrefix(s).done| == UnquotedCommas(s)
    ensures Join(ScanPrefix(s).done + [ScanPrefix(s).current], ",") == DropQuotes(s)
    ensures QuoteFree(ScanPrefix(s).current)
    ensures forall k :: 0 <= k < |ScanPrefix(s).done| ==> QuoteFree(ScanPrefix(s).done[k])
  {
    if s != [] {
      var init := s[..|s| - 1];
      var c := s[|s| - 1];
      var st := ScanPrefix(init);
      ScanPrefixFacts(init);
      if c == '"' {
      } else if c == ',' && !st.inQuotes {
        JoinSnoc(st.done + [st.current], ",", "");
      } else {
        JoinSnoc(st.done, ",", st.current);
        JoinSnoc(st.done, ",", st.current + [c]);
      }
    }
  }

  /** The scanner splits only at commas outside quotes: one more value than there are such commas. */
  lemma FieldCount(line: string)
    ensures |RawFields(line)| == UnquotedCommas(line) + 1
  {
    ScanPrefixFacts(line);
  }

  /** Quote characters are never copied into a value; joining the values back with commas gives the line minus its quotes. */
  lemma ScannerDropsQuotes(line: string)
    ensures Join(RawFields(line), ",") == DropQuotes(line)
    ensures forall k :: 0 <= k < |RawFields(line)| ==> QuoteFree(RawFields(line)[k])
  {
    ScanPrefixFacts(line);
  }

  /* ---------- header mapping ---------- */

  datatype Field =
    FirstName | LastName | Designation | ProfileLink | Email
    | CompanyName | CompanyLink | JobTitle | JobLink | Location

  /** The order in which the header tests are tried. */
  const TestOrder: seq<Field> :=
    [FirstName, LastName, Designation, ProfileLink, Email, CompanyName, CompanyLink, JobTitle, JobLink, Location]

  /** A normalized header text names field `f`. */
  predicate Names(n: string, f: Field) {
    match f
    case FirstName => Contains(n, "first name")
    case LastName => Contains(n, "last name")
    case Designation => Contains(n, "designation")
    case ProfileLink => Contains(n, "profile link")
    case Email => Contains(n, "email")
    case CompanyName => Contains(n, "company name")
    case CompanyLink => Contains(n, "company link")
    case JobTitle => Contains(n, "job title")
    case JobLink => Contains(n, "job link")
    case Location => Contains(n, "city") || Contains(n, "location")
  }

  /** The `if … else if …` chain: the first of `tests` that `n` names. */
  function FirstNamed(n: string, tests: seq<Field>): Option<Field> {
    if tests == [] then None
    else if Names(n, tests[0]) then Some(tests[0])
    else FirstNamed(n, tests[1..])
  }

  /** The field a header column binds to, if any, after lowercasing and trimming it. */
  function FieldOfColumn(col: string): Option<Field> {
    FirstNamed(Trim(Lower(col)), TestOrder)
  }

  lemma {:induction false} FirstNamedFacts(n: string, tests: seq<Field>)
    ensures FirstNamed(n, tests).Some? ==>
      exists k :: 0 <= k < |tests| && tests[k] == FirstNamed(n, tests).value && Names(n, tests[k])
        && forall j :: 0 <= j < k ==> !Names(n, tests[j])
    ensures FirstNamed(n, tests).None? <==> forall k :: 0 <= k < |tests| ==> !Names(n, tests[k])
  {
    if tests != [] {
      FirstNamedFacts(n, tests[1..]);
      if !Names(n, tests[0]) && FirstNamed(n, tests[1..]).Some? {
        var k :| 0 <= k < |tests[1..]| && tests[1..][k] == FirstNamed(n, tests[1..]).value && Names(n, tests[1..][k])
          && forall j :: 0 <= j < k ==> !Names(n, tests[1..][j]);
        assert tests[k + 1] == tests[1..][k];
        assert forall j :: 1 <= j < k + 1 ==> tests[j] == tests[1..][j - 1];
      }
      assert forall k :: 1 <= k < |tests| ==> tests[k] == tests[1..][k - 1];
    }
  }

  /**
   * Each header column binds to at most one field: the first, in the order first
   * name, last name, designation, profile link, email, company name, company
   * link, job title, job link, city or location, whose name the column contains.
   */
  lemma FieldOfColumnFirstMatch(col: string)
    ensures FieldOfColumn(col).Some? ==>
      exists k :: 0 <= k < |TestOrder| && TestOrder[k] == FieldOfColumn(col).value && Names(Trim(Lower(col)), TestOrder[k])
        && forall j :: 0 <= j < k ==> !Names(Trim(Lower(col)), TestOrder[j])
    ensures FieldOfColumn(col).None? <==> forall k :: 0 <= k < |TestOrder| ==> !Names(Trim(Lower(col)), TestOrder[k])
  {
    FirstNamedFacts(Trim(Lower(col)), TestOrder);
  }

  /** Every field has a test in the chain. */
  lemma EveryFieldTested(f: Field)
    ensures f in TestOrder
  {
    match f
    case FirstName => assert TestOrder[0] == f;
    case LastName => assert TestOrder[1] == f;
    case Designation => assert TestOrder[2] == f;
    case ProfileLink => assert TestOrder[3] == f;
    case Email => assert TestOrder[4] == f;
    case CompanyName => assert TestOrder[5] == f;
    case CompanyLink => assert TestOrder[6] == f;
    case JobTitle => assert TestOrder[7] == f;
    case JobLink => assert TestOrder[8] == f;
    case Location => assert TestOrder[9] == f;
  }

  type HeaderMap = map<Field, nat>

  /** The header map after the `forEach` has visited every column: each binding overwrites the field's entry. */
  function MapOf(header: seq<string>, bind: string -> Option<Field>): HeaderMap {
    if header == [] then map[]
    else
      var hm := MapOf(header[..|header| - 1], bind);
      match bind(header[|header| - 1])
      case Some(f) => hm[f := |header| - 1]
      case None => hm
  }

  function HeaderMapOf(header: seq<string>): HeaderMap {
    MapOf(header, FieldOfColumn)
  }

  method BuildHeaderMap(header: seq<string>) returns (hm: HeaderMap)
    ensures hm == HeaderMapOf(header)
  {
    hm := map[];
    for index := 0 to |header|
      invariant hm == MapOf(header[..index], FieldOfColumn)
    {
      assert header[..index + 1][..index] == header[..index];
      var f := FieldOfColumn(header[index]);
      if f.Some? {
        hm := hm[f.value := index];
      }
    }
    assert header[..|header|] == header;
  }

  lemma {:induction false} MapOfLastWins(header: seq<string>, bind: string -> Option<Field>, f: Field)
    ensures f in MapOf(header, bind) <==> exists i :: 0 <= i < |header| && bind(header[i]) == Some(f)
    ensures f in MapOf(header, bind) ==>
      && MapOf(header, bind)[f] < |header|
      && bind(header[MapOf(header, bind)[f]]) == Some(f)
      && forall j :: MapOf(header, bind)[f] < j < |header| ==> bind(header[j]) != Some(f)
  {
    if header != [] {
      var init := header[..|header| - 1];
      MapOfLastWins(init, bind, f);
      assert forall i :: 0 <= i < |init| ==> init[i] == header[i];
    }
  }

  /**
   * Last match wins: a field is mapped exactly when some column binds to it, and
   * then to the last such column.
   */
  lemma HeaderMapLastWins(header: seq<string>, f: Field)
    ensures f in HeaderMapOf(header) <==> exists i :: 0 <= i < |header| && FieldOfColumn(header[i]) == Some(f)
    ensures f in HeaderMapOf(header) ==>
      && HeaderMapOf(header)[f] < |header|
      && FieldOfColumn(header[HeaderMapOf(header)[f]]) == Some(f)
      && forall j :: HeaderMapOf(header)[f] < j < |header| ==> FieldOfColumn(header[j]) != Some(f)
  {
    MapOfLastWins(header, FieldOfColumn, f);
  }

  /* ---------- rows ---------- */

  /** The `CSVRow` record: one string per field, `''` where the line has no value. */
  datatype CsvRow = CsvRow(
    firstName: string,
    lastName: string,
    designation: string,
    profileLink: string,
    email: string,
    companyName: string,
    companyLink: string,
    jobTitle: string,
    jobLink: string,
    location: string)

  function Get(row: CsvRow, f: Field): string {
    match f
    case FirstName => row.firstName
    case LastName => row.lastName
    case Designation => row.designation
    case ProfileLink => row.profileLink
    case Email => row.email
    case CompanyName => row.companyName
    case CompanyLink => row.companyLink
    case JobTitle => row.jobTitle
    case JobLink => row.jobLink
    case Location => row.location
  }

  /** `values[headerMap.f] || ''`: an unmapped field, or an index past the last value, reads as empty. */
  function Cell(values: seq<string>, hm: HeaderMap, f: Field): (r: string)
    ensures f !in hm ==> r == ""
    ensures f in hm && hm[f] < |values| ==> r == values[hm[f]]
    ensures r == "" || (f in hm && hm[f] < |values|)
  {
    if f in hm && hm[f] < |values| then values[hm[f]] else ""
  }

  function RowOf(values: seq<string>, hm: HeaderMap): (r: CsvRow)
    ensures forall f :: Get(r, f) == Cell(values, hm, f)
  {
    CsvRow(
      Cell(values, hm, FirstName), Cell(values, hm, LastName), Cell(values, hm, Designation),
      Cell(values, hm, ProfileLink), Cell(values, hm, Email), Cell(values, hm, CompanyName),
      Cell(values, hm, CompanyLink), Cell(values, hm, JobTitle), Cell(values, hm, JobLink),
      Cell(values, hm, Location))
  }

  /** Some field of the row is not blank. */
  predicate HasData(row: CsvRow) {
    exists f: Field :: !IsBlank(Get(row, f))
  }

  /** The row one data line maps to, before the empty-row filter. */
  function LineRow(line: string, hm: HeaderMap): CsvRow {
    RowOf(TrimAll(RawFields(line)), hm)
  }

  function LineRows(lines: seq<string>, hm: HeaderMap): seq<CsvRow> {
    if lines == [] then [] else LineRows(lines[..|lines| - 1], hm) + [LineRow(lines[|lines| - 1], hm)]
  }

  lemma {:induction false} LineRowsAt(lines: seq<string>, hm: HeaderMap, k: nat)
    requires k < |lines|
    ensures |LineRows(lines, hm)| == |lines|
    ensures LineRows(lines, hm)[k] == LineRow(lines[k], hm)
  {
    if k < |lines| - 1 {
      LineRowsAt(lines[..|lines| - 1], hm, k);
    } else {
      LineRowsLength(lines[..|lines| - 1], hm);
    }
  }

  lemma {:induction false} LineRowsLength(lines: seq<string>, hm: HeaderMap)
    ensures |LineRows(lines, hm)| == |lines|
  {
    if lines != [] {
      LineRowsLength(lines[..|lines| - 1], hm);
    }
  }

  /** The rows that have data, in their original order. */
  function KeepData(rows: seq<CsvRow>): seq<CsvRow> {
    if rows == [] then []
    else KeepData(rows[..|rows| - 1]) + (if HasData(rows[|rows| - 1]) then [rows[|rows| - 1]] else [])
  }

  /** The rows of the data lines, in order, without the lines whose mapped fields are all blank. */
  function RowsOf(lines: seq<string>, hm: HeaderMap): seq<CsvRow> {
    KeepData(LineRows(lines, hm))
  }

  /** The file's lines: split on newlines, trimmed, blank ones dropped. */
  function Lines(content: string): seq<string> {
    NonEmpty(TrimAll(Split(content, '\n')))
  }

  function NonEmpty(lines: seq<string>): (r: seq<string>)
    ensures |r| <= |lines|
    ensures forall i :: 0 <= i < |r| ==> r[i] != "" && r[i] in lines
  {
    if lines == [] then []
    else NonEmpty(lines[..|lines| - 1]) + (if lines[|lines| - 1] == "" then [] else [lines[|lines| - 1]])
  }

  /** The header line, split on every comma (quotes are not honoured here) and trimmed. */
  function HeaderColumns(line: string): seq<string> {
    TrimAll(Split(line, ','))
  }

  const TooShort: string := "CSV file must have at least a header and one data row"

  /** The data-line loop of `parseCSV`: scan each line, map it through the header, keep it if it has data. */
  method ParseRows(lines: seq<string>, hm: HeaderMap) returns (rows: seq<CsvRow>)
    ensures rows == RowsOf(lines, hm)
  {
    rows := [];
    for i := 0 to |lines|
      invariant rows == KeepData(LineRows(lines[..i], hm))
    {
      var values := ScanLine(lines[i]);
      var row := RowOf(values, hm);
      assert lines[..i + 1][..i] == lines[..i];
      KeepDataSnoc(LineRows(lines[..i], hm), row);
      if HasData(row) {
        rows := rows + [row];
      }
    }
    assert lines[..|lines|] == lines;
  }

  /** `parseCSV` on the file's content. */
  method ParseCsv(content: string) returns (r: Result<seq<CsvRow>, string>)
    ensures r.Failure? <==> |Lines(content)| < 2
    ensures r.Failure? ==> r.error == TooShort
    ensures r.Success? ==> r.value == RowsOf(Lines(content)[1..], HeaderMapOf(HeaderColumns(Lines(content)[0])))
  {
    var lines := Lines(content);
    if |lines| < 2 {
      return Failure(TooShort);
    }
    var hm := BuildHeaderMap(HeaderColumns(lines[0]));
    var rows := ParseRows(lines[1..], hm);
    return Success(rows);
  }

  lemma KeepDataSnoc(rows: seq<CsvRow>, row: CsvRow)
    ensures KeepData(rows + [row]) == KeepData(rows) + (if HasData(row) then [row] else [])
  {
    assert (rows + [row])[..|rows|] == rows;
  }

  /** Every kept row has data; none is invented. */
  lemma {:induction false} KeepDataFacts(rows: seq<CsvRow>)
    ensures |KeepData(rows)| <= |rows|
    ensures forall k :: 0 <= k < |KeepData(rows)| ==> HasData(KeepData(rows)[k]) && KeepData(rows)[k] in rows
  {
    if rows != [] {
      KeepDataFacts(rows[..|rows| - 1]);
    }
  }

  /** Every row with data is kept. */
  lemma {:induction false} KeepDataComplete(rows: seq<CsvRow>, k: nat)
    requires k < |rows| && HasData(rows[k])
    ensures rows[k] in KeepData(rows)
  {
    if k < |rows| - 1 {
      KeepDataComplete(rows[..|rows| - 1], k);
    }
  }

  /** Filtering distributes over concatenation: the kept rows stay in line order. */
  lemma {:induction false} KeepDataAppend(rows: seq<CsvRow>, more: seq<CsvRow>)
    ensures KeepData(rows + more) == KeepData(rows) + KeepData(more)
  {
    if more == [] {
      assert rows + more == rows;
    } else {
      var all := rows + more;
      assert all[..|all| - 1] == rows + more[..|more| - 1];
      KeepDataAppend(rows, more[..|more| - 1]);
    }
  }

  /** A data line yields a row exactly when one of its mapped fields is not blank. */
  lemma RowsOfLine(lines: seq<string>, hm: HeaderMap, k: nat)
    requires k < |lines|
    ensures LineRow(lines[k], hm) in RowsOf(lines, hm) <==> HasData(LineRow(lines[k], hm))
  {
    var rows := LineRows(lines, hm);
    LineRowsAt(lines, hm, k);
    KeepDataFacts(rows);
    if HasData(rows[k]) {
      KeepDataComplete(rows, k);
    }
  }

  lemma TrimKeepsQuoteFree(s: string)
    requires QuoteFree(s)
    ensures QuoteFree(Trim(s)) && IsTrimmed(Trim(s))
  {
  }

  /** The scanned values of a line are trimmed and hold no quote character. */
  lemma ValuesClean(line: string)
    ensures forall i :: 0 <= i < |TrimAll(RawFields(line))| ==>
      IsTrimmed(TrimAll(RawFields(line))[i]) && QuoteFree(TrimAll(RawFields(line))[i])
  {
    var raw := RawFields(line);
    ScannerDropsQuotes(line);
    forall i | 0 <= i < |raw|
      ensures IsTrimmed(Trim(raw[i])) && QuoteFree(Trim(raw[i]))
    {
      TrimKeepsQuoteFree(raw[i]);
    }
  }

  lemma RowOfClean(values: seq<string>, hm: HeaderMap, f: Field)
    requires forall i :: 0 <= i < |values| ==> IsTrimmed(values[i]) && QuoteFree(values[i])
    ensures IsTrimmed(Get(RowOf(values, hm), f)) && QuoteFree(Get(RowOf(values, hm), f))
  {
    assert Get(RowOf(values, hm), f) == Cell(values, hm, f);
  }

  /** Every field of a parsed row is trimmed and holds no quote character. */
  lemma LineRowClean(line: string, hm: HeaderMap, f: Field)
    ensures IsTrimmed(Get(LineRow(line, hm), f))
    ensures QuoteFree(Get(LineRow(line, hm), f))
  {
    ValuesClean(line);
    RowOfClean(TrimAll(RawFields(line)), hm, f);
  }
}
