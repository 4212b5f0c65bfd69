/**
 * The writing half of the lead import script: `escapeCSVField` and the content of
 * the skipped-leads report. The escaping is checked against the RFC 4180 reader
 * and against the import script's own scanner.
 */
module SkipReport {
  import opened Wrappers
  import opened Text
  import opened CsvReader
  import opened Rfc4180

  predicate NeedsQuoting(f: string) {
    Contains(f, ",") || Contains(f, "\"") || Contains(f, "\n")
  }

  /** `escapeCSVField`: empty stays empty; a field with a comma, quote or newline is quoted with its quotes doubled. */
  function EscapeField(f: string): string {
    if f == "" then ""
    else if NeedsQuoting(f) then "\"" + DoubleQuotes(f) + "\""
    else f
  }

  lemma NeedsQuotingIff(f: string)
    ensures NeedsQuoting(f) <==> exists i :: 0 <= i < |f| && Special(f[i])
  {
    ContainsChar(f, ',');
    ContainsChar(f, '"');
    ContainsChar(f, '\n');
  }

  /** Any field, escaped, reads back unchanged under RFC 4180. */
  lemma EscapeFieldRfc(f: string)
    ensures ReadField(EscapeField(f)) == Some(f)
  {
    NeedsQuotingIff(f);
    if f != "" && NeedsQuoting(f) {
      QuotedRoundTrip(f);
    }
  }

  lemma {:induction false} DoubleQuotesOfQuoteFree(s: string)
    requires QuoteFree(s)
    ensures DoubleQuotes(s) == s
  {
    if s != [] {
      DoubleQuotesOfQuoteFree(s[1..]);
      assert [s[0]] + s[1..] == s;
    }
  }

  /** Scanning a text with no quote and no comma just copies it into the current value. */
  lemma {:induction false} RunPlain(inQuotes: bool, done: seq<string>, g: string)
    requires QuoteFree(g) && (!inQuotes ==> ',' !in g)
    ensures Run(ScanState(inQuotes, "", done), g) == ScanState(inQuotes, g, done)
  {
    if g != [] {
      var init := g[..|g| - 1];
      var c := g[|g| - 1];
      assert g == init + [c];
      assert QuoteFree(init) && (!inQuotes ==> ',' !in init);
      RunPlain(inQuotes, done, init);
      assert c != '"' && (!inQuotes ==> c != ',');
    }
  }

  /** The scanner recovers an escaped field exactly when the field holds no quote. */
  lemma RunEscaped(done: seq<string>, f: string)
    requires QuoteFree(f)
    ensures Run(ScanState(false, "", done), EscapeField(f)) == ScanState(false, f, done)
  {
    var st := ScanState(false, "", done);
    if f == "" {
    } else if NeedsQuoting(f) {
      DoubleQuotesOfQuoteFree(f);
      RunAppend(st, "\"", f);
      RunAppend(st, "\"" + f, "\"");
      assert Run(st, "\"") == ScanState(true, "", done) by {
        assert "\""[..0] == [];
      }
      RunPlain(true, done, f);
      assert Run(ScanState(true, f, done), "\"") == ScanState(false, f, done) by {
        assert "\""[..0] == [];
      }
    } else {
      ContainsChar(f, ',');
      RunPlain(false, done, f);
    }
  }

  lemma {:induction false} DropQuotesQuoteFree(s: string)
    ensures QuoteFree(DropQuotes(s))
  {
    if s != [] {
      DropQuotesQuoteFree(s[..|s| - 1]);
    }
  }

  lemma ScanEscapedQuoteFree(f: string)
    requires QuoteFree(f)
    ensures RawFields(EscapeField(f)) == [f]
  {
    RunEscaped([], f);
    ScanPrefixIsRun(EscapeField(f));
  }

  /** Whatever the field, what the scanner reads back from its escaped form holds no quote. */
  lemma ScanEscapedDropsQuotes(f: string)
    ensures forall k :: 0 <= k < |RawFields(EscapeField(f))| ==> QuoteFree(RawFields(EscapeField(f))[k])
  {
    ScannerDropsQuotes(EscapeField(f));
  }

  lemma TrimOneTrimmed(raw: seq<string>, f: string)
    requires IsTrimmed(f) && raw == [f]
    ensures TrimAll(raw) == [f]
  {
    var t := TrimAll(raw);
    assert t[0] == f by {
      TrimOfTrimmed(f);
    }
    assert t == [t[0]];
  }

  lemma TrimOneQuoteFree(raw: seq<string>, f: string)
    requires forall k :: 0 <= k < |raw| ==> QuoteFree(raw[k])
    requires TrimAll(raw) == [f]
    ensures QuoteFree(f)
  {
    assert |raw| == 1;
    var r0 := raw[0];
    TrimKeepsQuoteFree(r0);
    assert Trim(r0) == f;
  }

  /**
   * `escapeCSVField` followed by the import scanner gives a trimmed field back
   * exactly when it contains no quote: the scanner drops every quote, doubled or not.
   */
  lemma EscapeScanRoundTrip(f: string)
    requires IsTrimmed(f)
    ensures TrimAll(RawFields(EscapeField(f))) == [f] <==> QuoteFree(f)
  {
    var raw := RawFields(EscapeField(f));
    if QuoteFree(f) {
      ScanEscapedQuoteFree(f);
      TrimOneTrimmed(raw, f);
    } else {
      ScanEscapedDropsQuotes(f);
      if TrimAll(raw) == [f] {
        TrimOneQuoteFree(raw, f);
      }
    }
  }

  function EscapeAll(fields: seq<string>): (r: seq<string>)
    ensures |r| == |fields| && forall i :: 0 <= i < |fields| ==> r[i] == EscapeField(fields[i])
  {
    seq(|fields|, i requires 0 <= i < |fields| => EscapeField(fields[i]))
  }

  /**
   * Scanning pieces joined by commas, where each piece scans to one field outside
   * quotes, completes every field but the last, which stays current.
   */
  lemma {:induction false} RunJoined(done: seq<string>, fields: seq<string>, pieces: seq<string>)
    requires |pieces| == |fields| >= 1
    requires forall i, d :: 0 <= i < |pieces| ==> Run(ScanState(false, "", d), pieces[i]) == ScanState(false, fields[i], d)
    ensures Run(ScanState(false, "", done), Join(pieces, ","))
         == ScanState(false, fields[|fields| - 1], done + fields[..|fields| - 1])
    decreases |fields|
  {
    if |pieces| > 1 {
      RunJoinedHead(done, fields, pieces);
      forall i, d | 0 <= i < |pieces| - 1
        ensures Run(ScanState(false, "", d), pieces[1..][i]) == ScanState(false, fields[1..][i], d)
      {
        assert pieces[1..][i] == pieces[i + 1] && fields[1..][i] == fields[i + 1];
      }
      RunJoined(done + [fields[0]], fields[1..], pieces[1..]);
      ShiftHead(done, fields);
    } else {
      assert Join(pieces, ",") == pieces[0];
      assert fields[..0] == [];
    }
  }

  lemma ShiftHead(done: seq<string>, fields: seq<string>)
    requires |fields| > 1
    ensures done + [fields[0]] + fields[1..][..|fields| - 2] == done + fields[..|fields| - 1]
  {
    assert [fields[0]] + fields[1..][..|fields| - 2] == fields[..|fields| - 1];
  }

  /** The first piece and its comma complete the first field. */
  lemma RunJoinedHead(done: seq<string>, fields: seq<string>, pieces: seq<string>)
    requires |pieces| == |fields| > 1
    requires Run(ScanState(false, "", done), pieces[0]) == ScanState(false, fields[0], done)
    ensures Run(ScanState(false, "", done), Join(pieces, ","))
         == Run(ScanState(false, "", done + [fields[0]]), Join(pieces[1..], ","))
  {
    var st := ScanState(false, "", done);
    var rest := Join(pieces[1..], ",");
    assert Join(pieces, ",") == pieces[0] + "," + rest;
    RunAppend(st, pieces[0] + ",", rest);
    RunAppend(st, pieces[0], ",");
    assert Run(ScanState(false, fields[0], done), ",") == ScanState(false, "", done + [fields[0]]) by {
      assert ","[..0] == [];
    }
  }

  lemma RunEscapedLine(done: seq<string>, fields: seq<string>)
    requires |fields| >= 1
    requires forall i :: 0 <= i < |fields| ==> QuoteFree(fields[i])
    ensures Run(ScanState(false, "", done), Join(EscapeAll(fields), ","))
         == ScanState(false, fields[|fields| - 1], done + fields[..|fields| - 1])
  {
    var pieces := EscapeAll(fields);
    forall i, d | 0 <= i < |pieces|
      ensures Run(ScanState(false, "", d), pieces[i]) == ScanState(false, fields[i], d)
    {
      RunEscaped(d, fields[i]);
    }
    RunJoined(done, fields, pieces);
  }

  /** A line of escaped quote-free fields, scanned, gives the fields back one for one. */
  lemma EscapedLineRoundTrip(fields: seq<string>)
    requires |fields| >= 1
    requires forall i :: 0 <= i < |fields| ==> QuoteFree(fields[i])
    ensures RawFields(Join(EscapeAll(fields), ",")) == fields
  {
    RunEscapedLine([], fields);
    RawFieldsOfRun(Join(EscapeAll(fields), ","), fields);
  }

  /** A line that scans to the fields given, all but the last completed, reads back as those fields. */
  lemma RawFieldsOfRun(line: string, fields: seq<string>)
    requires |fields| >= 1
    requires Run(ScanState(false, "", []), line) == ScanState(false, fields[|fields| - 1], [] + fields[..|fields| - 1])
    ensures RawFields(line) == fields
  {
    var n := |fields| - 1;
    ScanPrefixIsRun(line);
    assert [] + fields[..n] == fields[..n];
    assert fields[..n] + [fields[n]] == fields;
  }

  /* ---------- the report ---------- */

  /** A row the import did not store, with the reason and its row number. */
  datatype SkippedLead = SkippedLead(row: CsvRow, skipReason: string, rowNumber: nat)

  const ReportHeader: seq<string> := [
    "Row Number", "First Name", "Last Name", "Designation", "Profile Link", "Email",
    "Company Name", "Company Link", "Job Title", "Job Link", "City or Location", "Skip Reason"]

  /** The twelve cells of a report line before escaping: row number first, skip reason last. */
  function Cells(s: SkippedLead): (r: seq<string>)
    ensures |r| == |ReportHeader|
  {
    [NatToString(s.rowNumber), s.row.firstName, s.row.lastName, s.row.designation, s.row.profileLink,
     s.row.email, s.row.companyName, s.row.companyLink, s.row.jobTitle, s.row.jobLink,
     s.row.location, s.skipReason]
  }

  /** One report line: the row number as digits, every other cell through `escapeCSVField`. */
  function ReportLine(s: SkippedLead): string {
    Join([NatToString(s.rowNumber)] + EscapeAll(Cells(s)[1..]), ",")
  }

  function ReportLines(skipped: seq<SkippedLead>): (r: seq<string>)
    ensures |r| == |skipped| && forall i :: 0 <= i < |skipped| ==> r[i] == ReportLine(skipped[i])
  {
    seq(|skipped|, i requires 0 <= i < |skipped| => ReportLine(skipped[i]))
  }

  /** The report file's content; nothing is written when no lead was skipped. */
  function ReportContent(skipped: seq<SkippedLead>): (r: Option<string>)
    ensures r.None? <==> skipped == []
  {
    if |skipped| == 0 then None
    else Some(Join([Join(ReportHeader, ",")] + ReportLines(skipped), "\n"))
  }

  lemma DigitsNeedNoQuoting(n: nat)
    ensures EscapeField(NatToString(n)) == NatToString(n)
    ensures QuoteFree(NatToString(n)) && '\n' !in NatToString(n)
  {
    var d := NatToString(n);
    ContainsChar(d, ',');
    ContainsChar(d, '"');
    ContainsChar(d, '\n');
  }

  /** The row-number cell is escaped like the others in effect: digits never need quoting. */
  lemma ReportLineEscapesAll(s: SkippedLead)
    ensures ReportLine(s) == Join(EscapeAll(Cells(s)), ",")
  {
    DigitsNeedNoQuoting(s.rowNumber);
    assert EscapeAll(Cells(s)) == [NatToString(s.rowNumber)] + EscapeAll(Cells(s)[1..]);
  }

  /** Read back with the import scanner, a line whose cells hold no quote gives its twelve cells in order. */
  lemma ReportLineRoundTrip(s: SkippedLead)
    requires forall i :: 0 <= i < |Cells(s)| ==> QuoteFree(Cells(s)[i])
    ensures RawFields(ReportLine(s)) == Cells(s)
  {
    ReportLineEscapesAll(s);
    EscapedLineRoundTrip(Cells(s));
  }

  /* ---------- line structure ---------- */

  lemma {:induction false} DoubleQuotesKeeps(s: string, c: char)
    requires c != '"' && c !in s
    ensures c !in DoubleQuotes(s)
  {
    if s != [] {
      DoubleQuotesKeeps(s[1..], c);
    }
  }

  lemma EscapeKeepsNewlines(f: string)
    requires '\n' !in f
    ensures '\n' !in EscapeField(f)
  {
    DoubleQuotesKeeps(f, '\n');
  }

  lemma ReportLineSingle(s: SkippedLead)
    requires forall i :: 0 <= i < |Cells(s)| ==> '\n' !in Cells(s)[i]
    ensures '\n' !in ReportLine(s)
  {
    var cells := Cells(s);
    var e := EscapeAll(cells);
    forall i | 0 <= i < |e|
      ensures '\n' !in e[i]
    {
      EscapeKeepsNewlines(cells[i]);
    }
    ReportLineEscapesAll(s);
    JoinFree(e, ",", '\n');
  }

  lemma HeaderSingleLine()
    ensures '\n' !in Join(ReportHeader, ",")
  {
    JoinFree(ReportHeader, ",", '\n');
  }

  /**
   * When no cell holds a newline, the report splits back into its header line
   * followed by one line per skipped lead, in order.
   */
  lemma ReportLinesInOrder(skipped: seq<SkippedLead>)
    requires skipped != []
    requires forall k, i :: 0 <= k < |skipped| && 0 <= i < |Cells(skipped[k])| ==> '\n' !in Cells(skipped[k])[i]
    ensures Split(ReportContent(skipped).value, '\n') == [Join(ReportHeader, ",")] + ReportLines(skipped)
    ensures |Split(ReportContent(skipped).value, '\n')| == |skipped| + 1
  {
    var rows := ReportLines(skipped);
    HeaderSingleLine();
    forall k | 0 <= k < |rows|
      ensures '\n' !in rows[k]
    {
      ReportLineSingle(skipped[k]);
    }
    LinesSplitBack(Join(ReportHeader, ","), rows);
  }
}
