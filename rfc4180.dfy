/**
 * A reference reader for one field under section 2 of RFC 4180, rules 5 to 7:
 * a field is either written plain (no comma, quote or line break in it) or
 * enclosed in double quotes, in which case a quote inside is written twice.
 * Both CSV writers of the application are measured against it.
 */
module Rfc4180 {
  import opened Wrappers
  import opened Text

  /** Characters that force a field to be enclosed in quotes (rule 6). */
  predicate Special(c: char) {
    c == ',' || c == '"' || c == '\n'
  }

  /** Every quote of `s` doubled: `s.replace(/"/g, '""')`. */
  function DoubleQuotes(s: string): (r: string)
    ensures |r| >= |s|
  {
    if s == [] then []
    else (if s[0] == '"' then "\"\"" else [s[0]]) + DoubleQuotes(s[1..])
  }

  /** The inside of a quoted field, read back: a doubled quote is one quote, a lone quote is malformed (rule 7). */
  function Undouble(s: string): Option<string> {
    if s == [] then Some([])
    else if s[0] != '"' then
      match Undouble(s[1..])
      case Some(rest) => Some([s[0]] + rest)
      case None => None
    else if |s| >= 2 && s[1] == '"' then
      match Undouble(s[2..])
      case Some(rest) => Some("\"" + rest)
      case None => None
    else None
  }

  /** One field as an RFC 4180 reader sees it, or `None` when the text is not a well-formed field. */
  function ReadField(s: string): Option<string> {
    if |s| >= 2 && s[0] == '"' && s[|s| - 1] == '"' then Undouble(s[1..|s| - 1])
    else if exists i :: 0 <= i < |s| && Special(s[i]) then None
    else Some(s)
  }

  /**
   * The fields of one record (rule 4): the text is cut at every comma outside a
   * quoted section, a quote opening or closing such a section (a doubled quote
   * closes and reopens it). `field` is the text of the current field so far and
   * `quoted` says whether a quoted section is open; the fields keep their quotes.
   */
  function SplitFields(s: string, quoted: bool, field: string): (r: seq<string>)
    ensures |r| >= 1
    decreases |s|
  {
    if s == [] then [field]
    else if s[0] == '"' then SplitFields(s[1..], !quoted, field + [s[0]])
    else if s[0] == ',' && !quoted then [field] + SplitFields(s[1..], false, "")
    else SplitFields(s[1..], quoted, field + [s[0]])
  }

  /** The fields of a record, before each is read with `ReadField`. */
  function SplitRecord(s: string): seq<string> {
    SplitFields(s, false, "")
  }

  /** Inside a quoted section, text without quotes (commas included) joins the current field. */
  lemma {:induction false} SplitFieldsQuoted(f: string, t: string, field: string)
    requires '"' !in f
    ensures SplitFields(f + t, true, field) == SplitFields(t, true, field + f)
    decreases |f|
  {
    if f == [] {
      assert f + t == t && field + f == field;
    } else {
      assert (f + t)[0] == f[0] && (f + t)[1..] == f[1..] + t;
      SplitFieldsQuoted(f[1..], t, field + [f[0]]);
      assert field + [f[0]] + f[1..] == field + f;
    }
  }

  /** A quoted field without inner quotes is read whole, whatever commas it holds. */
  lemma SplitFieldsQuote(f: string, t: string, field: string)
    requires '"' !in f
    ensures SplitFields("\"" + f + "\"" + t, false, field) == SplitFields(t, false, field + "\"" + f + "\"")
  {
    var s := "\"" + f + "\"" + t;
    assert s[0] == '"' && s[1..] == f + ("\"" + t);
    SplitFieldsQuoted(f, "\"" + t, field + "\"");
    var u := "\"" + t;
    assert u[0] == '"' && u[1..] == t;
    assert field + "\"" + f + "\"" == field + ['"'] + f + [u[0]];
  }

  /** Every cell enclosed in quotes, without doubling. */
  function QuotedCells(cells: seq<string>): (r: seq<string>)
    ensures |r| == |cells|
    ensures forall i :: 0 <= i < |cells| ==> r[i] == "\"" + cells[i] + "\""
  {
    if cells == [] then [] else ["\"" + cells[0] + "\""] + QuotedCells(cells[1..])
  }

  /**
   * Cells without quotes, each enclosed in quotes and joined by commas, are cut
   * back into the same quoted cells, even when the cells hold commas.
   */
  lemma {:induction false} SplitRecordQuoted(cells: seq<string>)
    requires |cells| >= 1
    requires forall i :: 0 <= i < |cells| ==> '"' !in cells[i]
    ensures SplitRecord(Join(QuotedCells(cells), ",")) == QuotedCells(cells)
    decreases |cells|
  {
    var q := QuotedCells(cells);
    var first := "\"" + cells[0] + "\"";
    assert q[0] == first;
    if |cells| == 1 {
      assert Join(q, ",") == first && q == [first];
      SplitFieldsQuote(cells[0], "", "");
      assert "\"" + cells[0] + "\"" + "" == first;
      assert "" + "\"" + cells[0] + "\"" == first;
      assert SplitFields("", false, first) == [first];
    } else {
      assert q[1..] == QuotedCells(cells[1..]);
      var rest := Join(q[1..], ",");
      var t := "," + rest;
      assert Join(q, ",") == first + t;
      SplitFieldsQuote(cells[0], t, "");
      assert "\"" + cells[0] + "\"" + t == first + t;
      assert "" + "\"" + cells[0] + "\"" == first;
      assert t[0] == ',' && t[1..] == rest;
      assert SplitFields(t, false, first) == [first] + SplitFields(rest, false, "");
      SplitRecordQuoted(cells[1..]);
      assert q == [first] + q[1..];
    }
  }

  lemma {:induction false} UndoubleDoubleQuotes(s: string)
    ensures Undouble(DoubleQuotes(s)) == Some(s)
  {
    if s != [] {
      UndoubleDoubleQuotes(s[1..]);
      if s[0] == '"' {
        assert DoubleQuotes(s)[2..] == DoubleQuotes(s[1..]);
      } else {
        assert DoubleQuotes(s)[1..] == DoubleQuotes(s[1..]);
      }
      assert [s[0]] + s[1..] == s;
    }
  }

  /** Text without quotes reads back as itself. */
  lemma {:induction false} UndoubleQuoteFree(s: string)
    requires '"' !in s
    ensures Undouble(s) == Some(s)
  {
    if s != [] {
      UndoubleQuoteFree(s[1..]);
      assert [s[0]] + s[1..] == s;
    }
  }

  /** Wrapping in quotes with every inner quote doubled reads back as the original field. */
  lemma QuotedRoundTrip(f: string)
    ensures ReadField("\"" + DoubleQuotes(f) + "\"") == Some(f)
  {
    var s := "\"" + DoubleQuotes(f) + "\"";
    assert s[1..|s| - 1] == DoubleQuotes(f);
    UndoubleDoubleQuotes(f);
  }

  /**
   * Wrapping in quotes without doubling reads back exactly when the field holds no
   * quote: a lone quote inside the enclosing quotes is malformed.
   */
  lemma {:induction false} NaiveQuotedReadBack(f: string)
    ensures ReadField("\"" + f + "\"") == Some(f) <==> '"' !in f
  {
    var s := "\"" + f + "\"";
    assert s[1..|s| - 1] == f;
    if '"' in f {
      UndoubleNotIdentity(f);
    } else {
      UndoubleQuoteFree(f);
    }
  }

  /** Text holding a quote never reads back as itself: each quote is either halved or rejected. */
  lemma {:induction false} UndoubleNotIdentity(s: string)
    requires '"' in s
    ensures Undouble(s) != Some(s)
  {
    if s[0] != '"' {
      UndoubleNotIdentity(s[1..]);
      match Undouble(s[1..])
      case Some(rest) =>
        assert [s[0]] + rest != s by {
          assert s == [s[0]] + s[1..];
        }
      case None =>
    } else if |s| >= 2 && s[1] == '"' {
      match Undouble(s[2..])
      case Some(rest) =>
        UndoubleShorter(s[2..]);
        assert |"\"" + rest| < |s|;
      case None =>
    }
  }

  lemma {:induction false} UndoubleShorter(s: string)
    ensures Undouble(s).Some? ==> |Undouble(s).value| <= |s|
  {
    if s != [] {
      if s[0] != '"' {
        UndoubleShorter(s[1..]);
      } else if |s| >= 2 && s[1] == '"' {
        UndoubleShorter(s[2..]);
      }
    }
  }
}
