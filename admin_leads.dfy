/**
 * The admin leads page: the CSV export of the listed leads and the "clear filters"
 * action. The export wraps every cell in double quotes without doubling the quotes
 * inside, unlike `escapeCSVField` of the import script; `Rfc4180.ReadField` is the
 * standard reading it is measured against.
 */
module AdminLeads {
  import opened Wrappers
  import opened Text
  import opened Rfc4180

  /** A lead as the listing returns it, with `assigned_to` populated with the user's name. */
  datatype ListedLead = ListedLead(
    first_name: string,
    last_name: string,
    email: string,
    designation: string,
    company_name: string,
    location: Option<string>,
    person_mobile: Option<string>,
    source: Option<string>,
    assigned_name: string,
    created_at: int)

  const Headers: seq<string> := [
    "First Name", "Last Name", "Email", "Designation", "Company",
    "Location", "Mobile", "Source", "Assigned To", "Created Date"]

  /** `value || ''`. */
  function OrEmpty(v: Option<string>): string {
    if v.Some? then v.value else ""
  }

  /** The ten cells of a lead, in header order; `formatDate` stands for the locale date rendering. */
  function Cells(l: ListedLead, formatDate: int -> string): (r: seq<string>)
    ensures |r| == |Headers|
  {
    [l.first_name, l.last_name, l.email, l.designation, l.company_name,
     OrEmpty(l.location), OrEmpty(l.person_mobile), OrEmpty(l.source),
     l.assigned_name, formatDate(l.created_at)]
  }

  /** `` `"${field}"` ``. */
  function Quote(f: string): string {
    "\"" + f + "\""
  }

  function QuoteAll(cells: seq<string>): (r: seq<string>)
    ensures |r| == |cells| && forall i :: 0 <= i < |cells| ==> r[i] == Quote(cells[i])
  {
    seq(|cells|, i requires 0 <= i < |cells| => Quote(cells[i]))
  }

  /** `row.map(field => `"${field}"`).join(',')`. */
  function RowLine(l: ListedLead, formatDate: int -> string): string {
    Join(QuoteAll(Cells(l, formatDate)), ",")
  }

  function RowLines(leads: seq<ListedLead>, formatDate: int -> string): (r: seq<string>)
    ensures |r| == |leads| && forall i :: 0 <= i < |leads| ==> r[i] == RowLine(leads[i], formatDate)
  {
    seq(|leads|, i requires 0 <= i < |leads| => RowLine(leads[i], formatDate))
  }

  /** `exportToCSV`'s content: the header names unquoted, then one line per lead. */
  function ExportContent(leads: seq<ListedLead>, formatDate: int -> string): string {
    Join([Join(Headers, ",")] + RowLines(leads, formatDate), "\n")
  }

  /** No cell of any lead holds a line break. */
  predicate SingleLineCells(leads: seq<ListedLead>, formatDate: int -> string) {
    forall k, i :: 0 <= k < |leads| && 0 <= i < |Headers| ==> '\n' !in Cells(leads[k], formatDate)[i]
  }

  lemma RowLineSingle(l: ListedLead, formatDate: int -> string)
    requires forall i :: 0 <= i < |Headers| ==> '\n' !in Cells(l, formatDate)[i]
    ensures '\n' !in RowLine(l, formatDate)
  {
    var q := QuoteAll(Cells(l, formatDate));
    forall i | 0 <= i < |q|
      ensures '\n' !in q[i]
    {
      assert q[i] == "\"" + Cells(l, formatDate)[i] + "\"";
    }
    JoinFree(q, ",", '\n');
  }

  /** The header line is one line. */
  lemma HeaderSingleLine()
    ensures '\n' !in Join(Headers, ",")
  {
    JoinFree(Headers, ",", '\n');
  }

  /** The header names are written without quotes. */
  lemma HeaderUnquoted()
    ensures '"' !in Join(Headers, ",")
  {
    JoinFree(Headers, ",", '"');
  }

  /**
   * Split at line breaks, the export gives the header line (no quotes in it) and
   * then one line per lead in list order: `leads.length + 1` lines in all, provided
   * no cell holds a line break.
   */
  lemma ExportLines(leads: seq<ListedLead>, formatDate: int -> string)
    requires SingleLineCells(leads, formatDate)
    ensures Split(ExportContent(leads, formatDate), '\n') == [Join(Headers, ",")] + RowLines(leads, formatDate)
    ensures |Split(ExportContent(leads, formatDate), '\n')| == |leads| + 1
    ensures '"' !in Join(Headers, ",")
  {
    var rows := RowLines(leads, formatDate);
    HeaderSingleLine();
    HeaderUnquoted();
    forall k | 0 <= k < |rows|
      ensures '\n' !in rows[k]
    {
      RowLineSingle(leads[k], formatDate);
    }
    LinesSplitBack(Join(Headers, ","), rows);
  }

  /**
   * A line whose cells hold no quote is cut by a standard reader into ten quoted
   * cells, each of which reads back as the lead's cell: commas inside a cell, such
   * as the one in the rendered date, stay inside its quotes.
   */
  lemma RowLineReadBack(l: ListedLead, formatDate: int -> string)
    requires forall i :: 0 <= i < |Headers| ==> '"' !in Cells(l, formatDate)[i]
    ensures var cells := SplitRecord(RowLine(l, formatDate));
      && |cells| == |Headers|
      && forall i :: 0 <= i < |Headers| ==> ReadField(cells[i]) == Some(Cells(l, formatDate)[i])
  {
    var c := Cells(l, formatDate);
    assert QuoteAll(c) == QuotedCells(c);
    SplitRecordQuoted(c);
    forall i | 0 <= i < |Headers|
      ensures ReadField(QuotedCells(c)[i]) == Some(c[i])
    {
      NaiveQuotedReadBack(c[i]);
    }
  }

  /**
   * Quotes are not doubled, so a standard reading gives a cell back exactly when it
   * holds no quote: a cell such as `O"Brien` is exported as a malformed field.
   */
  lemma ExportedCellReadBack(l: ListedLead, formatDate: int -> string, i: nat)
    requires i < |Headers|
    ensures ReadField(QuoteAll(Cells(l, formatDate))[i]) == Some(Cells(l, formatDate)[i])
        <==> '"' !in Cells(l, formatDate)[i]
  {
    NaiveQuotedReadBack(Cells(l, formatDate)[i]);
  }

  /** A missing location, mobile or source is exported as an empty quoted cell. */
  lemma MissingOptionalIsEmptyCell(l: ListedLead, formatDate: int -> string)
    ensures l.location.None? ==> QuoteAll(Cells(l, formatDate))[5] == "\"\""
    ensures l.person_mobile.None? ==> QuoteAll(Cells(l, formatDate))[6] == "\"\""
    ensures l.source.None? ==> QuoteAll(Cells(l, formatDate))[7] == "\"\""
  {
  }

  /** The filter, sort and page state of the page. */
  class LeadsPage {
    var searchTerm: string
    var companyFilter: string
    var locationFilter: string
    var designationFilter: string
    var assignedToFilter: string
    var sourceFilter: string
    var dateFromFilter: string
    var dateToFilter: string
    var sortBy: string
    var sortOrder: string
    var currentPage: int

    /** The initial state: no filter, newest first, page 1. */
    constructor ()
      ensures NoFilters() && currentPage == 1
      ensures sortBy == "created_at" && sortOrder == "desc"
    {
      searchTerm, companyFilter, locationFilter, designationFilter := "", "", "", "";
      assignedToFilter, sourceFilter, dateFromFilter, dateToFilter := "", "", "", "";
      sortBy, sortOrder := "created_at", "desc";
      currentPage := 1;
    }

    /** Every one of the eight filter inputs is empty. */
    predicate NoFilters()
      reads this
    {
      && searchTerm == "" && companyFilter == "" && locationFilter == "" && designationFilter == ""
      && assignedToFilter == "" && sourceFilter == "" && dateFromFilter == "" && dateToFilter == ""
    }

    /** `clearFilters`: the eight filters emptied, back to page 1, the sort kept. */
    method ClearFilters()
      modifies this
      ensures NoFilters() && currentPage == 1
      ensures sortBy == old(sortBy) && sortOrder == old(sortOrder)
    {
      searchTerm := "";
      companyFilter := "";
      locationFilter := "";
      designationFilter := "";
      assignedToFilter := "";
      sourceFilter := "";
      dateFromFilter := "";
      dateToFilter := "";
      currentPage := 1;
    }
  }
}
