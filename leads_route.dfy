/**
 * The `/api/leads` route.
 *
 * POST looks up an existing lead with the same email and company and answers 400
 * if there is one; otherwise it inserts the document through `Lead.create` and
 * answers 201, or 500 when the insert throws. GET builds a query filter step by
 * step from the search parameters (role scoping, a case-insensitive search over
 * five fields, four more "contains" filters, an inclusive date range), then
 * answers one page of the matching leads with the pagination figures.
 */
module LeadsRoute {
  import opened Wrappers
  import opened Text
  import opened LeadSchema

  /* POST */

  datatype PostReply = LeadCreated(lead: Lead) | AlreadyExists | InternalError

  const ExistsMessage: string := "A lead with this email and company already exists"

  function StatusOf(r: PostReply): int {
    match r
    case LeadCreated(_) => 201
    case AlreadyExists => 400
    case InternalError => 500
  }

  /** The answer and the collection after the request. */
  datatype PostResult = PostResult(reply: PostReply, store: seq<Lead>)

  /** `Lead.findOne({ email, company_name })` finds something. */
  predicate HasEmailCompany(store: seq<Lead>, email: string, company: string) {
    exists i :: 0 <= i < |store| && store[i].email == email && store[i].company_name == company
  }

  /** No two stored leads share an email and a company name. */
  predicate UniqueEmailCompany(store: seq<Lead>) {
    forall i, j :: 0 <= i < j < |store| ==>
      store[i].email != store[j].email || store[i].company_name != store[j].company_name
  }

  /** The document handed to `Lead.create`: email and company lowercased, `additional_emails` defaulting to `[]`. */
  function PostDocument(body: LeadInput): (doc: LeadInput)
    requires body.email.Some? && body.company_name.Some?
    ensures doc.email == Some(Lower(body.email.value)) && doc.company_name == Some(Lower(body.company_name.value))
    ensures doc.additional_emails == Some(body.additional_emails.GetOr([]))
    ensures doc.(email := body.email, company_name := body.company_name, additional_emails := body.additional_emails) == body
  {
    body.(email := Some(Lower(body.email.value)),
          company_name := Some(Lower(body.company_name.value)),
          additional_emails := Some(body.additional_emails.GetOr([])))
  }

  /** `Lead.create` and its `catch`: any failure of the insert becomes a 500. */
  function Insert(store: seq<Lead>, doc: LeadInput, now: int): (r: PostResult)
    ensures r.reply.LeadCreated? || (r.reply == InternalError && r.store == store)
  {
    match Create(store, doc, now)
    case Created(lead, store') => PostResult(LeadCreated(lead), store')
    case Rejected(_) => PostResult(InternalError, store)
  }

  /** 400 when the pre-check found a lead, else the insert. */
  function Decide(store: seq<Lead>, found: bool, doc: LeadInput, now: int): PostResult {
    if found then PostResult(AlreadyExists, store) else Insert(store, doc, now)
  }

  /**
   * The handler. `Lead.findOne({ email: email.toLowerCase(), company_name: company_name.toLowerCase() })`
   * runs with each value cast through the path's setters, so the pre-check looks up
   * the email and company exactly as the schema would store them. A body without an
   * email or a company makes `toLowerCase` throw, hence 500.
   */
  function Post(store: seq<Lead>, body: LeadInput, now: int): PostResult {
    if body.email.None? || body.company_name.None? then PostResult(InternalError, store)
    else Decide(store, HasEmailCompany(store, QueryValue(Lower(body.email.value)), QueryValue(Lower(body.company_name.value))), PostDocument(body), now)
  }

  /** The values the pre-check looks up are the trimmed, lowercased email and company. */
  lemma LookupValues(body: LeadInput)
    requires body.email.Some? && body.company_name.Some?
    ensures QueryValue(Lower(body.email.value)) == Lower(Trim(body.email.value))
    ensures QueryValue(Lower(body.company_name.value)) == Lower(Trim(body.company_name.value))
  {
    QueryValueIgnoresPadding([], body.email.value, []);
    QueryValueIgnoresPadding([], body.company_name.value, []);
  }

  lemma StoredEmailOfDocument(body: LeadInput, now: int)
    requires body.email.Some? && body.company_name.Some?
    requires Cast(PostDocument(body), now).Success?
    ensures Cast(PostDocument(body), now).value.email == Lower(Trim(body.email.value))
    ensures Cast(PostDocument(body), now).value.company_name == Lower(Trim(body.company_name.value))
  {
    var doc := PostDocument(body);
    CastNormalizes(doc, now);
    LowerTrimCommute(body.email.value);
    LowerTrimCommute(body.company_name.value);
    LowerIsLowerCase(body.email.value);
    LowerIsLowerCase(body.company_name.value);
    LowerIsLowerCase(Trim(body.email.value));
    LowerIsLowerCase(Trim(body.company_name.value));
  }

  lemma InsertOutcome(store: seq<Lead>, doc: LeadInput, now: int)
    ensures Insert(store, doc, now).reply.LeadCreated? <==> Complete(doc) && !HasKey(store, KeyOf(Cast(doc, now).value))
    ensures Insert(store, doc, now).reply.LeadCreated? ==>
      Insert(store, doc, now).reply.lead == Cast(doc, now).value && Insert(store, doc, now).store == store + [Cast(doc, now).value]
    ensures !Insert(store, doc, now).reply.LeadCreated? ==>
      Insert(store, doc, now).reply == InternalError && Insert(store, doc, now).store == store
  {
    CreateOutcome(store, doc, now);
  }

  /** A stored lead with the document's index key also has its email and company. */
  lemma KeyImpliesEmailCompany(store: seq<Lead>, body: LeadInput, now: int)
    requires body.email.Some? && body.company_name.Some?
    ensures Complete(PostDocument(body)) ==> Cast(PostDocument(body), now).Success?
    ensures Complete(PostDocument(body)) && HasKey(store, KeyOf(Cast(PostDocument(body), now).value)) ==>
      HasEmailCompany(store, Lower(Trim(body.email.value)), Lower(Trim(body.company_name.value)))
  {
    var doc := PostDocument(body);
    if Complete(doc) {
      MissingPathsEmpty(doc);
      StoredEmailOfDocument(body, now);
      var lead := Cast(doc, now).value;
      if HasKey(store, KeyOf(lead)) {
        var i :| 0 <= i < |store| && KeyOf(store[i]) == KeyOf(lead);
        assert store[i].email == lead.email && store[i].company_name == lead.company_name;
      }
    }
  }

  lemma DecideOutcome(store: seq<Lead>, found: bool, doc: LeadInput, now: int)
    requires Complete(doc) && Cast(doc, now).Success? && HasKey(store, KeyOf(Cast(doc, now).value)) ==> found
    ensures Decide(store, found, doc, now).reply == AlreadyExists <==> found
    ensures Decide(store, found, doc, now).reply.LeadCreated? <==> !found && Complete(doc)
    ensures !Decide(store, found, doc, now).reply.LeadCreated? ==> Decide(store, found, doc, now).store == store
  {
    if !found {
      InsertOutcome(store, doc, now);
    }
  }

  /**
   * What the handler answers: 400 exactly when a lead with the (trimmed, lowercased)
   * email and company is stored; otherwise 201 exactly when the document passes the
   * schema; 500 in every other case, and then the collection is unchanged.
   */
  lemma PostOutcome(store: seq<Lead>, body: LeadInput, now: int)
    ensures var r := Post(store, body, now);
      && (r.reply == AlreadyExists <==>
            body.email.Some? && body.company_name.Some? &&
            HasEmailCompany(store, Lower(Trim(body.email.value)), Lower(Trim(body.company_name.value))))
      && (r.reply.LeadCreated? <==>
            body.email.Some? && body.company_name.Some? &&
            !HasEmailCompany(store, Lower(Trim(body.email.value)), Lower(Trim(body.company_name.value))) &&
            Complete(PostDocument(body)))
      && (!r.reply.LeadCreated? ==> r.store == store)
  {
    if body.email.Some? && body.company_name.Some? {
      var found := HasEmailCompany(store, QueryValue(Lower(body.email.value)), QueryValue(Lower(body.company_name.value)));
      var doc := PostDocument(body);
      assert Post(store, body, now) == Decide(store, found, doc, now);
      LookupValues(body);
      KeyImpliesEmailCompany(store, body, now);
      DecideOutcome(store, found, doc, now);
    }
  }

  /** A created lead is appended, well-formed, stored under the trimmed, lowercased email and company, with as many additional emails as were sent (none by default). */
  lemma PostCreatedLead(store: seq<Lead>, body: LeadInput, now: int)
    requires Post(store, body, now).reply.LeadCreated?
    ensures body.email.Some? && body.company_name.Some?
    ensures var r := Post(store, body, now);
      && r.store == store + [r.reply.lead] && WellFormed(r.reply.lead)
      && r.reply.lead.email == Lower(Trim(body.email.value))
      && r.reply.lead.company_name == Lower(Trim(body.company_name.value))
      && |r.reply.lead.additional_emails| == |body.additional_emails.GetOr([])|
  {
    var found := HasEmailCompany(store, Lower(Trim(body.email.value)), Lower(Trim(body.company_name.value)));
    var doc := PostDocument(body);
    LookupValues(body);
    assert Post(store, body, now) == Insert(store, doc, now);
    InsertOutcome(store, doc, now);
    StoredEmailOfDocument(body, now);
    CastWellFormed(doc, now);
    CastKeepsAdditionalEmails(doc, now);
  }

  /** One lead per (email, company) implies one lead per (email, company, job_link): the pre-check is stricter than the index. */
  lemma EmailCompanyUniqueIsStricter(store: seq<Lead>)
    requires UniqueEmailCompany(store)
    ensures UniqueKeys(store)
  {
  }

  /** The pre-check keeps (email, company) unique across inserts. */
  lemma PostKeepsEmailCompanyUnique(store: seq<Lead>, body: LeadInput, now: int)
    requires UniqueEmailCompany(store)
    ensures UniqueEmailCompany(Post(store, body, now).store)
  {
    var r := Post(store, body, now);
    PostOutcome(store, body, now);
    if r.reply.LeadCreated? {
      PostCreatedLead(store, body, now);
      var lead := r.reply.lead;
      assert !HasEmailCompany(store, lead.email, lead.company_name);
      AppendKeepsEmailCompanyUnique(store, lead);
    }
  }

  lemma AppendKeepsEmailCompanyUnique(store: seq<Lead>, lead: Lead)
    requires UniqueEmailCompany(store) && !HasEmailCompany(store, lead.email, lead.company_name)
    ensures UniqueEmailCompany(store + [lead])
  {
    var s' := store + [lead];
    forall i, j | 0 <= i < j < |s'|
      ensures s'[i].email != s'[j].email || s'[i].company_name != s'[j].company_name
    {
      assert s'[i] == store[i];
      if j < |store| {
        assert s'[j] == store[j];
      }
    }
  }

  /** With the pre-check in front, the unique index never fires: a 500 comes only from a missing or invalid document. */
  lemma PostNeverHitsIndex(store: seq<Lead>, body: LeadInput, now: int)
    requires Post(store, body, now).reply == InternalError
    ensures body.email.None? || body.company_name.None? || !Complete(PostDocument(body))
  {
    PostOutcome(store, body, now);
  }

  /** Whitespace around the email or the company does not change whether the pre-check refuses the body. */
  lemma PostIgnoresPadding(store: seq<Lead>, body: LeadInput, now: int, p: string, q: string, p': string, q': string)
    requires body.email.Some? && body.company_name.Some?
    requires AllSpace(p) && AllSpace(q) && AllSpace(p') && AllSpace(q')
    ensures var padded := body.(email := Some(p + body.email.value + q), company_name := Some(p' + body.company_name.value + q'));
      Post(store, padded, now).reply == AlreadyExists <==> Post(store, body, now).reply == AlreadyExists
  {
    var e, c := body.email.value, body.company_name.value;
    var padded := body.(email := Some(p + e + q), company_name := Some(p' + c + q'));
    PostOutcome(store, padded, now);
    PostOutcome(store, body, now);
    QueryValueIgnoresPadding(p, e, q);
    QueryValueIgnoresPadding(p', c, q');
    assert Lower(Trim(p + e + q)) == Lower(Trim(e));
    assert Lower(Trim(p' + c + q')) == Lower(Trim(c));
  }

  /** A body whose required fields are all non-blank passes the schema once the route has lowered it. */
  lemma PostDocumentComplete(body: LeadInput)
    requires body.email.Some? && body.company_name.Some?
    requires Present(body.first_name) && Present(body.last_name) && Present(body.designation)
    requires !IsBlank(body.email.value) && !IsBlank(body.company_name.value)
    requires body.assigned_to.Some? && body.created_by.Some? && body.additional_emails.None?
    ensures Complete(PostDocument(body))
  {
    LowerTrimCommute(body.email.value);
    LowerTrimCommute(body.company_name.value);
  }

  /** A document with a job link never shares its key with stored leads that have none. */
  lemma NewKeyByJobLink(store: seq<Lead>, doc: LeadInput, now: int)
    requires Cast(doc, now).Success? && doc.job_link.Some?
    requires forall i :: 0 <= i < |store| ==> store[i].job_link.None?
    ensures !HasKey(store, KeyOf(Cast(doc, now).value))
  {
    MissingPathsEmpty(doc);
    CastNormalizes(doc, now);
  }

  function ExistingLead(): Lead {
    Lead("A", "L", "C", None, "a@x.io", None, None, "x", None, None, None, [], None, None, "u1", "u1", 0, 0)
  }

  function PaddedBody(): LeadInput {
    LeadInput(Some("A"), Some("L"), Some("C"), None, Some(" a@x.io"), None, None, Some("x"),
              None, None, Some("j1"), None, None, None, Some("u1"), Some("u1"))
  }

  lemma PaddedEmailTrimmed()
    ensures Lower(Trim(" a@x.io")) == "a@x.io"
  {
    var e := "a@x.io";
    var p := " a@x.io";
    assert IsTrimmed(e) && IsLowerCase(e);
    assert p == [' '] + e + [];
    TrimPadded([' '], e, []);
    TrimOfTrimmed(e);
    LowerOfLowerCase(e);
  }

  lemma CompanyLowered()
    ensures Lower(Trim("x")) == "x"
  {
    var c := "x";
    assert IsLowerCase(c) && IsTrimmed(c);
    LowerOfLowerCase(c);
    TrimOfTrimmed(c);
  }

  /**
   * " a@x.io" at "x" with a job link, next to the stored "a@x.io" at "x" without
   * one: the unique index would accept the insert, and the pre-check refuses it with 400.
   */
  lemma PaddedEmailIsRefused()
    ensures Post([ExistingLead()], PaddedBody(), 1).reply == AlreadyExists
  {
    var stored, body := ExistingLead(), PaddedBody();
    PaddedEmailTrimmed();
    CompanyLowered();
    assert body.email.value == " a@x.io" && body.company_name.value == "x";
    assert HasEmailCompany([stored], Lower(Trim(body.email.value)), Lower(Trim(body.company_name.value))) by {
      assert [stored][0] == stored;
    }
    PostOutcome([stored], body, 1);
  }

  /* GET */

  /**
   * The search parameters of a GET. `None` is a parameter that is absent; page,
   * limit and the two dates arrive already parsed, and `None` there also stands
   * for an empty parameter, which the handler treats as absent.
   */
  datatype Query = Query(
    userId: Option<string>,
    role: Option<string>,
    page: Option<int>,
    limit: Option<int>,
    search: Option<string>,
    company: Option<string>,
    location: Option<string>,
    designation: Option<string>,
    assignedTo: Option<string>,
    source: Option<string>,
    dateFrom: Option<int>,
    dateTo: Option<int>,
    sortBy: Option<string>,
    sortOrder: Option<string>)

  /** JavaScript truthiness of a parameter: present and not the empty string. */
  predicate Given(p: Option<string>) {
    p.Some? && p.value != []
  }

  predicate IsAdmin(q: Query) {
    q.role == Some("admin")
  }

  /**
   * The query object the handler builds: each component is a condition it may
   * set, `None` when it leaves the condition out. `assignedTo` is an equality
   * with a possibly null user id.
   */
  datatype Filter = Filter(
    assignedTo: Option<Option<string>>,
    anyField: Option<string>,
    company: Option<string>,
    location: Option<string>,
    designation: Option<string>,
    source: Option<string>,
    from: Option<int>,
    to: Option<int>)

  /** A `$regex` with option `i` on an optional field: a missing field never matches. */
  predicate FieldContains(field: Option<string>, pattern: string) {
    field.Some? && ContainsIgnoreCase(field.value, pattern)
  }

  /** The `$or` of the search: one of five fields contains the term. */
  predicate AnyFieldContains(l: Lead, term: string) {
    || ContainsIgnoreCase(l.first_name, term)
    || ContainsIgnoreCase(l.last_name, term)
    || ContainsIgnoreCase(l.email, term)
    || ContainsIgnoreCase(l.company_name, term)
    || FieldContains(l.job_title, term)
  }

  /** A lead satisfies every condition the filter sets. */
  predicate Matches(f: Filter, l: Lead) {
    && (f.assignedTo.Some? ==> f.assignedTo.value == Some(l.assigned_to))
    && (f.anyField.Some? ==> AnyFieldContains(l, f.anyField.value))
    && (f.company.Some? ==> ContainsIgnoreCase(l.company_name, f.company.value))
    && (f.location.Some? ==> FieldContains(l.location, f.location.value))
    && (f.designation.Some? ==> ContainsIgnoreCase(l.designation, f.designation.value))
    && (f.source.Some? ==> FieldContains(l.source, f.source.value))
    && (f.from.Some? ==> f.from.value <= l.created_at)
    && (f.to.Some? ==> l.created_at <= f.to.value)
  }

  /** Milliseconds in a day. */
  const Day: int := 86400000

  /** `setHours(23, 59, 59, 999)`: the last millisecond of the day of `t` (server time taken as UTC). */
  function EndOfDay(t: int): int {
    t - t % Day + Day - 1
  }

  /** A time is at or before the end of the day of `t` exactly when it falls on that day or an earlier one. */
  lemma EndOfDayBound(x: int, t: int)
    ensures x <= EndOfDay(t) <==> x / Day <= t / Day
  {
    assert t - t % Day == Day * (t / Day);
    assert x == Day * (x / Day) + x % Day;
  }

  /**
   * Which leads a GET is meant to list, condition by condition: its own scope
   * (the caller's leads, or for an admin everyone's or one user's), the search,
   * the four "contains" filters and the calendar days of the date range.
   */
  predicate Wanted(q: Query, l: Lead) {
    && (if IsAdmin(q) then Given(q.assignedTo) ==> l.assigned_to == q.assignedTo.value
        else q.userId == Some(l.assigned_to))
    && (Given(q.search) ==> AnyFieldContains(l, q.search.value))
    && (Given(q.company) ==> ContainsIgnoreCase(l.company_name, q.company.value))
    && (Given(q.location) ==> FieldContains(l.location, q.location.value))
    && (Given(q.designation) ==> ContainsIgnoreCase(l.designation, q.designation.value))
    && (Given(q.source) ==> FieldContains(l.source, q.source.value))
    && (q.dateFrom.Some? ==> q.dateFrom.value <= l.created_at)
    && (q.dateTo.Some? ==> l.created_at / Day <= q.dateTo.value / Day)
  }

  /** The handler's filter construction: one conditional assignment per parameter, in the handler's order. */
  method BuildFilter(q: Query) returns (f: Filter)
    ensures Built(q, f)
    ensures forall l :: Matches(f, l) <==> Wanted(q, l)
  {
    f := Filter(None, None, None, None, None, None, None, None);
    if !IsAdmin(q) {
      f := f.(assignedTo := Some(q.userId));
    }
    if Given(q.search) {
      f := f.(anyField := q.search);
    }
    f := AddContains(f, q);
    if Given(q.assignedTo) && IsAdmin(q) {
      f := f.(assignedTo := Some(q.assignedTo));
    }
    if Given(q.source) {
      f := f.(source := q.source);
    }
    f := AddDateRange(f, q);
    FilterMeansWanted(q, f);
  }

  /** The company, location and designation filters: each a case-insensitive "contains" on its field. */
  method AddContains(f0: Filter, q: Query) returns (f: Filter)
    ensures f == f0.(company := if Given(q.company) then q.company else f0.company,
                     location := if Given(q.location) then q.location else f0.location,
                     designation := if Given(q.designation) then q.designation else f0.designation)
  {
    f := f0;
    if Given(q.company) {
      f := f.(company := q.company);
    }
    if Given(q.location) {
      f := f.(location := q.location);
    }
    if Given(q.designation) {
      f := f.(designation := q.designation);
    }
  }

  /** The date range: `dateFrom` as given, `dateTo` moved to the end of its day. */
  method AddDateRange(f0: Filter, q: Query) returns (f: Filter)
    ensures f == f0.(from := if q.dateFrom.Some? then q.dateFrom else f0.from,
                     to := if q.dateTo.Some? then Some(EndOfDay(q.dateTo.value)) else f0.to)
  {
    f := f0;
    if q.dateFrom.Some? || q.dateTo.Some? {
      if q.dateFrom.Some? {
        f := f.(from := q.dateFrom);
      }
      if q.dateTo.Some? {
        f := f.(to := Some(EndOfDay(q.dateTo.value)));
      }
    }
  }

  /** The conditions the handler's assignments leave in the filter, parameter by parameter. */
  predicate Built(q: Query, f: Filter) {
    && f.assignedTo == (if IsAdmin(q) then (if Given(q.assignedTo) then Some(q.assignedTo) else None) else Some(q.userId))
    && f.anyField == (if Given(q.search) then q.search else None)
    && f.company == (if Given(q.company) then q.company else None)
    && f.location == (if Given(q.location) then q.location else None)
    && f.designation == (if Given(q.designation) then q.designation else None)
    && f.source == (if Given(q.source) then q.source else None)
    && f.from == q.dateFrom
    && f.to == (if q.dateTo.Some? then Some(EndOfDay(q.dateTo.value)) else None)
  }

  lemma FilterMeansWanted(q: Query, f: Filter)
    requires Built(q, f)
    ensures forall l :: Matches(f, l) <==> Wanted(q, l)
  {
    forall l: Lead
      ensures Matches(f, l) <==> Wanted(q, l)
    {
      if q.dateTo.Some? {
        EndOfDayBound(l.created_at, q.dateTo.value);
      }
    }
  }

  /** The sort field and direction: `created_at` and descending unless the parameters say otherwise. */
  function SortOption(q: Query): (r: (string, int))
    ensures r.1 == -1 || r.1 == 1
    ensures r.1 == -1 <==> !Given(q.sortOrder) || q.sortOrder.value == "desc"
    ensures !Given(q.sortBy) ==> r.0 == "created_at"
  {
    var field := if Given(q.sortBy) then q.sortBy.value else "created_at";
    var order := if Given(q.sortOrder) then q.sortOrder.value else "desc";
    (field, if order == "desc" then -1 else 1)
  }

  function PageOf(q: Query): int {
    if q.page.Some? then q.page.value else 1
  }

  function LimitOf(q: Query): int {
    if q.limit.Some? then q.limit.value else 10
  }

  function SkipOf(q: Query): int {
    (PageOf(q) - 1) * LimitOf(q)
  }

  /** A JavaScript number as `Math.ceil(total / limit)` can produce it. */
  datatype PageCount = Pages(n: int) | Infinity | NaN

  /** `Math.ceil(totalLeads / limit)`; a zero limit divides by zero. */
  function TotalPages(total: nat, limit: int): PageCount {
    if limit == 0 then (if total == 0 then NaN else Infinity)
    else if limit > 0 then Pages((total + limit - 1) / limit)
    else Pages(-(total / -limit))
  }

  lemma MulLe(a: int, b: int, c: int)
    requires a <= b && c > 0
    ensures a * c <= b * c
  {
    assert b * c - a * c == (b - a) * c;
  }

  /** With a positive limit the page count is the ceiling: enough pages for every lead, and no page left empty. */
  lemma TotalPagesIsCeiling(total: nat, limit: int)
    requires limit > 0
    ensures TotalPages(total, limit).Pages?
    ensures var n := TotalPages(total, limit).n;
      n >= 0 && total <= n * limit && (n == 0 || (n - 1) * limit < total)
  {
    var a := total + limit - 1;
    var n := a / limit;
    assert a == limit * n + a % limit;
    assert (n - 1) * limit == n * limit - limit;
  }

  /** `page < totalPages`, with JavaScript's comparisons against Infinity and NaN. */
  function HasNext(page: int, pages: PageCount): bool {
    match pages
    case Pages(n) => page < n
    case Infinity => true
    case NaN => false
  }

  /** With a positive limit, `hasNext` says exactly that some matching lead lies beyond the current page. */
  lemma HasNextIffMoreLeads(page: int, total: nat, limit: int)
    requires limit > 0
    ensures HasNext(page, TotalPages(total, limit)) <==> page * limit < total
  {
    TotalPagesIsCeiling(total, limit);
    var n := TotalPages(total, limit).n;
    if page < n {
      MulLe(page, n - 1, limit);
    } else {
      MulLe(n, page, limit);
    }
  }

  function Abs(x: int): nat {
    if x < 0 then -x else x
  }

  /** `.skip(skip).limit(limit)`: a zero limit takes everything, a negative one is read as its absolute value. */
  function Window(s: seq<Lead>, skip: nat, limit: int): (r: seq<Lead>)
    ensures forall i :: 0 <= i < |r| ==> skip + i < |s| && r[i] == s[skip + i]
    ensures limit != 0 ==> |r| <= Abs(limit)
    ensures skip < |s| && (limit == 0 || skip + Abs(limit) >= |s|) ==> skip + |r| == |s|
    ensures skip < |s| && limit != 0 && skip + Abs(limit) < |s| ==> |r| == Abs(limit)
  {
    var rest := if skip <= |s| then s[skip..] else [];
    if limit == 0 || Abs(limit) >= |rest| then rest else rest[..Abs(limit)]
  }

  datatype Pagination = Pagination(currentPage: int, totalPages: PageCount, totalLeads: nat, hasNext: bool, hasPrev: bool)

  /** The GET answer: one page with its figures, or 500 when the query throws (a negative skip). */
  datatype GetReply = Listing(leads: seq<Lead>, statsTotal: nat, pagination: Pagination) | ListFailed

  /** What a GET answers: the wanted leads, paged by `skip` and `limit`. */
  function Get(store: seq<Lead>, q: Query): GetReply {
    var skip := SkipOf(q);
    if skip < 0 then ListFailed
    else
      var matching := Select(store, l => Wanted(q, l));
      var pages := TotalPages(|matching|, LimitOf(q));
      Listing(Window(matching, skip, LimitOf(q)), |matching|,
              Pagination(PageOf(q), pages, |matching|, HasNext(PageOf(q), pages), PageOf(q) > 1))
  }

  /** Absent paging parameters mean the first page of ten. */
  lemma GetDefaults(q: Query)
    requires q.page.None? && q.limit.None?
    ensures PageOf(q) == 1 && LimitOf(q) == 10 && SkipOf(q) == 0
  {
  }

  /**
   * A GET lists only stored leads the query wants, at most `limit` of them, and
   * reports the same total twice: every wanted lead is counted.
   */
  lemma GetListsWanted(store: seq<Lead>, q: Query)
    ensures Get(store, q).Listing? <==> SkipOf(q) >= 0
    ensures Get(store, q).Listing? ==>
      var r := Get(store, q);
      && (forall l :: l in r.leads ==> l in store && Wanted(q, l))
      && r.statsTotal == r.pagination.totalLeads == |Select(store, l => Wanted(q, l))|
      && (LimitOf(q) != 0 ==> |r.leads| <= Abs(LimitOf(q)))
      && r.pagination.hasPrev == (PageOf(q) > 1)
  {
    if SkipOf(q) >= 0 {
      var matching := Select(store, l => Wanted(q, l));
      var r := Get(store, q);
      forall l | l in r.leads
        ensures l in store && Wanted(q, l)
      {
        var i :| 0 <= i < |r.leads| && r.leads[i] == l;
        assert l in matching;
      }
    }
  }

  /** A non-admin only ever sees leads assigned to their own user id, whatever `assignedTo` says. */
  lemma NonAdminSeesOwnLeads(store: seq<Lead>, q: Query)
    requires !IsAdmin(q) && Get(store, q).Listing?
    ensures forall l :: l in Get(store, q).leads ==> q.userId == Some(l.assigned_to)
  {
    GetListsWanted(store, q);
  }

  /** An admin's `assignedTo` replaces the scope: exactly that user's leads, subject to the other filters. */
  lemma AdminAssignedToScopes(q: Query, l: Lead)
    requires IsAdmin(q) && Given(q.assignedTo)
    ensures Wanted(q, l) ==> l.assigned_to == q.assignedTo.value
    ensures Wanted(q, l) <==> Wanted(q.(assignedTo := None), l) && l.assigned_to == q.assignedTo.value
  {
  }

  /** The date range keeps both of its ends: the whole first day from `dateFrom` on and the whole last day. */
  lemma DateRangeInclusive(q: Query, l: Lead)
    requires q.dateFrom.Some? && q.dateTo.Some?
    requires q.dateFrom.value <= l.created_at <= EndOfDay(q.dateTo.value)
    ensures l.created_at / Day <= q.dateTo.value / Day
  {
    EndOfDayBound(l.created_at, q.dateTo.value);
  }

  /** `hasNext` on a positive limit: true exactly when the next page would not start past the last match. */
  lemma GetHasNext(store: seq<Lead>, q: Query)
    requires Get(store, q).Listing? && LimitOf(q) > 0
    ensures Get(store, q).pagination.hasNext <==> PageOf(q) * LimitOf(q) < Get(store, q).pagination.totalLeads
  {
    HasNextIffMoreLeads(PageOf(q), Get(store, q).pagination.totalLeads, LimitOf(q));
  }

  /** The route's hold on the collection: a POST looks up, then inserts. */
  class LeadCollection {
    var leads: seq<Lead>

    constructor (initial: seq<Lead>)
      ensures leads == initial
    {
      leads := initial;
    }

    /** Handles one POST; answers the status and the reply and updates the collection. */
    method HandlePost(body: LeadInput, now: int) returns (status: int, reply: PostReply)
      modifies this
      ensures PostResult(reply, leads) == Post(old(leads), body, now)
      ensures status == StatusOf(reply)
    {
      if body.email.None? || body.company_name.None? {
        reply := InternalError;
      } else {
        var email := QueryValue(Lower(body.email.value));
        var company := QueryValue(Lower(body.company_name.value));
        var existing := FindFirst(leads, (l: Lead) => l.email == email && l.company_name == company);
        if existing.Some? {
          reply := AlreadyExists;
        } else {
          assert !HasEmailCompany(leads, email, company);
          var outcome := Create(leads, PostDocument(body), now);
          if outcome.Created? {
            leads := outcome.store;
            reply := LeadCreated(outcome.lead);
          } else {
            reply := InternalError;
          }
        }
      }
      status := StatusOf(reply);
    }

    /** Handles one GET: builds the filter, then pages through the matching leads. */
    method HandleGet(q: Query) returns (reply: GetReply)
      ensures reply == Get(leads, q)
    {
      var filter := BuildFilter(q);
      var skip := (PageOf(q) - 1) * LimitOf(q);
      if skip < 0 {
        reply := ListFailed;
      } else {
        var matching := Select(leads, l => Matches(filter, l));
        SelectSame(leads, l => Matches(filter, l), l => Wanted(q, l));
        var totalPages := TotalPages(|matching|, LimitOf(q));
        reply := Listing(Window(matching, skip, LimitOf(q)), |matching|,
                         Pagination(PageOf(q), totalPages, |matching|, HasNext(PageOf(q), totalPages), PageOf(q) > 1));
      }
    }
  }
}
