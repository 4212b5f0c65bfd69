/**
 * The admin reports page: the leads of a chosen period grouped by assigned user,
 * company, month, source and designation, plus the figures derived from those
 * groups. All of it is computed on the client from one lead listing and one user
 * listing; the grouping itself is `Counting`.
 */
module Reports {
  import opened Wrappers
  import opened Text
  import opened Sorting
  import opened Counting
  import opened LeadSchema

  const Day := 86400000

  /** The period select: `'all'`, or the last `days` days (`'7'`, `'30'`, `'90'`, `'365'`). */
  datatype DateRange = AllTime | LastDays(days: nat)

  /** The cut-off of `filterLeadsByDateRange`: `days` whole days before `now`. */
  function Cutoff(now: int, days: nat): int {
    now - days * Day
  }

  /** `filterLeadsByDateRange`. */
  function FilterByDateRange(leads: seq<Lead>, range: DateRange, now: int): (r: seq<Lead>)
    ensures range.AllTime? ==> r == leads
    ensures range.LastDays? ==> forall l :: l in r <==> l in leads && l.created_at >= Cutoff(now, range.days)
  {
    match range
    case AllTime => leads
    case LastDays(days) => Select(leads, (l: Lead) => l.created_at >= Cutoff(now, days))
  }

  /** The lead falls in the chosen period. */
  predicate InRange(l: Lead, range: DateRange, now: int) {
    range.AllTime? || l.created_at >= Cutoff(now, range.days)
  }

  /** Each lead of the period is kept as many times as it is listed; no other lead is kept. */
  lemma FilterByDateRangeCounts(leads: seq<Lead>, range: DateRange, now: int)
    ensures forall l :: multiset(FilterByDateRange(leads, range, now))[l] == if InRange(l, range, now) then multiset(leads)[l] else 0
  {
    if range.LastDays? {
      SelectCounts(leads, (l: Lead) => l.created_at >= Cutoff(now, range.days));
    }
  }

  /** The filter keeps list order: filtering two parts one after the other is filtering the whole list. */
  lemma FilterByDateRangeAppend(a: seq<Lead>, b: seq<Lead>, range: DateRange, now: int)
    ensures FilterByDateRange(a + b, range, now) == FilterByDateRange(a, range, now) + FilterByDateRange(b, range, now)
  {
    if range.LastDays? {
      SelectAppend(a, b, (l: Lead) => l.created_at >= Cutoff(now, range.days));
    }
  }

  /** A longer period keeps every lead a shorter one keeps. */
  lemma LongerRangeKeepsMore(leads: seq<Lead>, now: int, d1: nat, d2: nat, l: Lead)
    requires d1 <= d2 && l in FilterByDateRange(leads, LastDays(d1), now)
    ensures l in FilterByDateRange(leads, LastDays(d2), now)
  {
  }

  /**
   * A record of the user listing as the page reads it: `user.id` is `undefined`
   * when the listing carries only `_id`.
   */
  datatype User = User(id: Option<string>, name: string)

  /**
   * `new Map(users.map(user => [user.id, user.name]))`: a repeated id keeps the last
   * name, and users without an `id` all share the key `undefined` (`None`).
   */
  function UserNames(users: seq<User>): (m: map<Option<string>, string>)
    ensures forall id :: id in m <==> exists i :: 0 <= i < |users| && users[i].id == id
  {
    if users == [] then map[]
    else
      var n := |users| - 1;
      var m := UserNames(users[..n]);
      assert forall i :: 0 <= i < n ==> users[..n][i] == users[i];
      m[users[n].id := users[n].name]
  }

  /** The name the map holds for an id is the name of the last user with that id. */
  lemma {:induction false} UserNamesLastWins(users: seq<User>, i: nat)
    requires i < |users|
    requires forall j :: i < j < |users| ==> users[j].id != users[i].id
    ensures UserNames(users)[users[i].id] == users[i].name
  {
    var n := |users| - 1;
    if i < n {
      assert users[..n][i] == users[i];
      UserNamesLastWins(users[..n], i);
    }
  }

  /**
   * `userMap.get(lead.assigned_to?._id) || 'Unknown'`: the populated owner's id is
   * looked up; an unknown id or an empty name reads as `'Unknown'`.
   */
  function OwnerName(names: map<Option<string>, string>, l: Lead): string {
    if Some(l.assigned_to) in names && names[Some(l.assigned_to)] != [] then names[Some(l.assigned_to)] else "Unknown"
  }

  /** `lead.source || 'Unknown'`. */
  function SourceName(l: Lead): string {
    if l.source.Some? && l.source.value != [] then l.source.value else "Unknown"
  }

  function CompanyName(l: Lead): string { l.company_name }

  function Designation(l: Lead): string { l.designation }

  /** The grouping key of every lead, in list order. */
  function KeysOf(leads: seq<Lead>, key: Lead -> string): (r: seq<string>)
    ensures |r| == |leads|
    ensures forall i :: 0 <= i < |leads| ==> r[i] == key(leads[i])
  {
    seq(|leads|, i requires 0 <= i < |leads| => key(leads[i]))
  }

  lemma KeyOfSomeLead(leads: seq<Lead>, key: Lead -> string, k: string)
    requires k in KeysOf(leads, key)
    ensures exists l :: l in leads && key(l) == k
  {
    var i :| 0 <= i < |leads| && KeysOf(leads, key)[i] == k;
    assert leads[i] in leads;
  }

  /** `getFullYear()` and `getMonth()` (zero-based) of a timestamp, in the browser's time zone. */
  datatype YearMonth = YearMonth(year: nat, month: nat)

  /** `n.toString().padStart(2, '0')`. */
  function Pad2(n: nat): (r: string)
    ensures n < 100 ==> |r| == 2
    ensures forall i :: 0 <= i < |r| ==> '0' <= r[i] <= '9'
  {
    if n < 10 then "0" + NatToString(n)
    else
      assert n < 100 ==> |NatToString(n / 10)| == 1;
      NatToString(n)
  }

  /** `` `${date.getFullYear()}-${(date.getMonth() + 1).toString().padStart(2, '0')}` ``. */
  function MonthKey(d: YearMonth): string {
    NatToString(d.year) + "-" + Pad2(d.month + 1)
  }

  /** A month key is the year's digits, a dash, and two digits that spell the month number (1 to 12). */
  lemma MonthKeyShape(d: YearMonth)
    requires d.month < 12
    ensures var k := MonthKey(d);
      && |k| == |NatToString(d.year)| + 3
      && k[..|k| - 3] == NatToString(d.year)
      && k[|k| - 3] == '-'
      && DecimalValue(k[|k| - 2..]) == d.month + 1
  {
    var k := MonthKey(d);
    var m := d.month + 1;
    var p := Pad2(m);
    assert k[|k| - 2..] == p;
    NatToStringRoundTrip(m);
    if m < 10 {
      var q := NatToString(m);
      assert q[..0] == [] && p == ['0'] + q;
      assert p[..1] == ['0'] && ['0'][..0] == [];
      assert DecimalValue(q) == q[0] as int - '0' as int;
    }
  }

  /** The owner name of every lead, in list order. */
  function OwnerKeys(leads: seq<Lead>, names: map<Option<string>, string>): seq<string> {
    KeysOf(leads, (l: Lead) => OwnerName(names, l))
  }

  /** `calculateLeadsByUser`. */
  function LeadsByUser(leads: seq<Lead>, users: seq<User>): seq<Entry> {
    GroupCounts(OwnerKeys(leads, UserNames(users)))
  }

  /** `calculateLeadsByCompany`. */
  function LeadsByCompany(leads: seq<Lead>): seq<Entry> {
    TopCounts(KeysOf(leads, CompanyName), 10)
  }

  /** `calculateLeadsByMonth`, with `calendar` standing for `new Date(created_at)` in the browser's time zone. */
  function LeadsByMonth(leads: seq<Lead>, calendar: int -> YearMonth): seq<Entry> {
    LatestCounts(KeysOf(leads, (l: Lead) => MonthKey(calendar(l.created_at))), 12)
  }

  /** `calculateLeadsBySource`. */
  function LeadsBySource(leads: seq<Lead>): seq<Entry> {
    GroupCounts(KeysOf(leads, SourceName))
  }

  /** `calculateTopDesignations`. */
  function TopDesignations(leads: seq<Lead>): seq<Entry> {
    TopCounts(KeysOf(leads, Designation), 10)
  }

  /** `ReportData`. */
  datatype Report = Report(
    totalLeads: nat,
    totalUsers: nat,
    leadsByUser: seq<Entry>,
    leadsByCompany: seq<Entry>,
    leadsByMonth: seq<Entry>,
    leadsBySource: seq<Entry>,
    topDesignations: seq<Entry>)

  /** `fetchReportData` once both listings have arrived. */
  function BuildReport(leads: seq<Lead>, users: seq<User>, range: DateRange, now: int, calendar: int -> YearMonth): (r: Report)
    ensures r.totalLeads == |FilterByDateRange(leads, range, now)|
  {
    var f := FilterByDateRange(leads, range, now);
    Report(|f|, |users|, LeadsByUser(f, users), LeadsByCompany(f), LeadsByMonth(f, calendar), LeadsBySource(f), TopDesignations(f))
  }

  /**
   * Leads by user: every lead is counted once under its owner's name (so the counts
   * add up to the number of leads), each name appears once, largest count first.
   */
  lemma LeadsByUserFacts(leads: seq<Lead>, users: seq<User>)
    ensures var r := LeadsByUser(leads, users);
      && SumBy(r, CountOf) == |leads|
      && NonIncreasing(r, CountOf)
      && DistinctKeys(r)
  {
    GroupCountsFacts(OwnerKeys(leads, UserNames(users)));
  }

  /** A lead whose owner is not in the user list is counted under `'Unknown'`. */
  lemma UnlistedOwnerIsUnknown(leads: seq<Lead>, users: seq<User>, j: nat)
    requires j < |leads|
    requires forall u :: u in users ==> u.id != Some(leads[j].assigned_to)
    ensures exists i :: 0 <= i < |LeadsByUser(leads, users)| && LeadsByUser(leads, users)[i].key == "Unknown"
  {
    var names := UserNames(users);
    var keys := OwnerKeys(leads, names);
    forall i | 0 <= i < |users|
      ensures users[i].id != Some(leads[j].assigned_to)
    {
      assert users[i] in users;
    }
    assert Some(leads[j].assigned_to) !in names;
    assert keys[j] == "Unknown" && keys[j] in keys;
    GroupCountsFacts(keys);
    assert LeadsByUser(leads, users) == GroupCounts(keys);
  }

  /**
   * A user listing without `id` fields names no owner: the map's only key is
   * `undefined`, which no populated owner has, so the chart shows every lead of the
   * period in a single `'Unknown'` group.
   */
  lemma {:induction false} MissingIdsShowUnknown(leads: seq<Lead>, users: seq<User>)
    requires forall i :: 0 <= i < |users| ==> users[i].id.None?
    ensures leads == [] ==> LeadsByUser(leads, users) == []
    ensures leads != [] ==> LeadsByUser(leads, users) == [Entry("Unknown", |leads|)]
  {
    var names := UserNames(users);
    var keys := OwnerKeys(leads, names);
    forall j | 0 <= j < |leads|
      ensures keys[j] == "Unknown"
    {
      assert Some(leads[j].assigned_to) !in names;
    }
    SingleKeyGroup(keys, "Unknown");
  }

  /** Keys that are all the same give one group holding all of them. */
  lemma SingleKeyGroup(keys: seq<string>, k: string)
    requires forall j :: 0 <= j < |keys| ==> keys[j] == k
    ensures keys == [] ==> GroupCounts(keys) == []
    ensures keys != [] ==> GroupCounts(keys) == [Entry(k, |keys|)]
  {
    var r := GroupCounts(keys);
    GroupCountsFacts(keys);
    forall i | 0 <= i < |r|
      ensures r[i].key == k
    {
      var j :| 0 <= j < |keys| && keys[j] == r[i].key;
    }
    if keys != [] {
      assert keys[0] in keys;
      assert |r| == 1;
      assert SumBy(r, CountOf) == r[0].count + SumBy(r[1..], CountOf);
    }
  }

  /** Leads by company: at most ten groups, largest first, each with the number of leads naming that company. */
  lemma LeadsByCompanyFacts(leads: seq<Lead>)
    ensures var r := LeadsByCompany(leads);
      && |r| <= 10 && NonIncreasing(r, CountOf) && DistinctKeys(r)
      && forall i :: 0 <= i < |r| ==> r[i].count == Occ(KeysOf(leads, CompanyName), r[i].key) >= 1
  {
    TopCountsFacts(KeysOf(leads, CompanyName), 10);
  }

  /** Top designations: at most ten groups, largest first, each with the number of leads holding that designation. */
  lemma TopDesignationsFacts(leads: seq<Lead>)
    ensures var r := TopDesignations(leads);
      && |r| <= 10 && NonIncreasing(r, CountOf) && DistinctKeys(r)
      && forall i :: 0 <= i < |r| ==> r[i].count == Occ(KeysOf(leads, Designation), r[i].key) >= 1
  {
    TopCountsFacts(KeysOf(leads, Designation), 10);
  }

  /** Leads by source: no key is empty (a missing or empty source counts as `'Unknown'`), counts add up to the number of leads, largest first. */
  lemma LeadsBySourceFacts(leads: seq<Lead>)
    ensures var r := LeadsBySource(leads);
      && SumBy(r, CountOf) == |leads|
      && NonIncreasing(r, CountOf)
      && forall i :: 0 <= i < |r| ==> r[i].key != []
  {
    var keys := KeysOf(leads, SourceName);
    GroupCountsFacts(keys);
    forall i | 0 <= i < |LeadsBySource(leads)|
      ensures LeadsBySource(leads)[i].key != []
    {
      KeyOfSomeLead(leads, SourceName, LeadsBySource(leads)[i].key);
    }
  }

  /**
   * Leads by month: at most twelve months, key order ascending, each month once,
   * each key the month of some lead.
   */
  lemma LeadsByMonthFacts(leads: seq<Lead>, calendar: int -> YearMonth)
    ensures var r := LeadsByMonth(leads, calendar);
      && |r| <= 12
      && AscendingBy(r, Counting.KeyOf)
      && DistinctKeys(r)
      && forall i :: 0 <= i < |r| ==> exists l :: l in leads && MonthKey(calendar(l.created_at)) == r[i].key
  {
    var key := (l: Lead) => MonthKey(calendar(l.created_at));
    var r := LeadsByMonth(leads, calendar);
    LatestCountsFacts(KeysOf(leads, key), 12);
    forall i | 0 <= i < |r|
      ensures exists l :: l in leads && key(l) == r[i].key
    {
      KeyOfSomeLead(leads, key, r[i].key);
    }
  }

  /** `leadsByMonth.reduce((max, item) => item.count > max.count ? item : max, { count: 0 }).count || 0`. */
  function PeakCount(es: seq<Entry>): (r: nat)
    ensures forall i :: 0 <= i < |es| ==> es[i].count <= r
    ensures r == 0 || exists i :: 0 <= i < |es| && es[i].count == r
  {
    if es == [] then 0
    else
      var n := |es| - 1;
      var m := PeakCount(es[..n]);
      assert forall i :: 0 <= i < n ==> es[..n][i] == es[i];
      if es[n].count > m then es[n].count else m
  }

  /** `b > 0 ? Math.round(a / b) : 0` on whole numbers: the quotient rounded half up. */
  function RoundedRatio(a: nat, b: nat): (r: nat)
    ensures b == 0 ==> r == 0
    ensures b > 0 ==> 2 * a < (2 * r + 1) * b && (2 * r - 1) * b <= 2 * a
  {
    if b == 0 then 0
    else
      var r := (2 * a + b) / (2 * b);
      DivBounds(2 * a + b, 2 * b);
      r
  }

  lemma DivBounds(x: nat, y: nat)
    requires y > 0
    ensures (x / y) * y <= x < (x / y + 1) * y
  {
  }

  /** "Avg. Leads/User". */
  function AverageLeadsPerUser(r: Report): nat {
    RoundedRatio(r.totalLeads, r.totalUsers)
  }

  /** "Avg Leads/Month". */
  function AverageLeadsPerMonth(r: Report): nat {
    RoundedRatio(r.totalLeads, |r.leadsByMonth|)
  }

  /** "Unique Companies" as written: the length of `leadsByCompany`, which holds at most ten groups. */
  function UniqueCompaniesShown(r: Report): nat {
    |r.leadsByCompany|
  }

  /** "Unique Companies" counted over every company among `leads`. */
  function UniqueCompanies(leads: seq<Lead>): nat {
    |Distinct(KeysOf(leads, CompanyName))|
  }

  /** The corrected figure counts each company name found among the leads exactly once. */
  lemma UniqueCompaniesCounts(leads: seq<Lead>, c: string)
    ensures var keys := Distinct(KeysOf(leads, CompanyName));
      && UniqueCompanies(leads) == |keys|
      && NoRepeats(keys)
      && (c in keys <==> exists l :: l in leads && l.company_name == c)
  {
    var keys := KeysOf(leads, CompanyName);
    if c in keys {
      KeyOfSomeLead(leads, CompanyName, c);
    }
    if l :| l in leads && l.company_name == c {
      var i :| 0 <= i < |leads| && leads[i] == l;
      assert keys[i] == c;
    }
  }

  /** The shown figure is the corrected one capped at ten. */
  lemma UniqueCompaniesShownIsCapped(leads: seq<Lead>, users: seq<User>, now: int, calendar: int -> YearMonth)
    ensures var shown := UniqueCompaniesShown(BuildReport(leads, users, AllTime, now, calendar));
      shown == if UniqueCompanies(leads) <= 10 then UniqueCompanies(leads) else 10
  {
    var keys := KeysOf(leads, CompanyName);
    assert |Tally(keys)| == |Distinct(keys)|;
  }

  lemma {:induction false} DistinctOfNoRepeats(keys: seq<string>)
    requires NoRepeats(keys)
    ensures Distinct(keys) == keys
  {
    if keys != [] {
      var n := |keys| - 1;
      assert NoRepeats(keys[..n]);
      DistinctOfNoRepeats(keys[..n]);
      assert keys[n] !in keys[..n];
      assert keys == keys[..n] + [keys[n]];
    }
  }

  /** "Designation Types" as written: the length of `topDesignations`, which holds at most ten groups. */
  function DesignationTypesShown(r: Report): nat {
    |r.topDesignations|
  }

  /** "Designation Types" counted over every designation among `leads`. */
  function DesignationTypes(leads: seq<Lead>): nat {
    |Distinct(KeysOf(leads, Designation))|
  }

  /** The corrected figure counts each designation found among the leads exactly once. */
  lemma DesignationTypesCounts(leads: seq<Lead>, d: string)
    ensures var keys := Distinct(KeysOf(leads, Designation));
      && DesignationTypes(leads) == |keys|
      && NoRepeats(keys)
      && (d in keys <==> exists l :: l in leads && l.designation == d)
  {
    var keys := KeysOf(leads, Designation);
    if d in keys {
      KeyOfSomeLead(leads, Designation, d);
    }
    if l :| l in leads && l.designation == d {
      var i :| 0 <= i < |leads| && leads[i] == l;
      assert keys[i] == d;
    }
  }

  /** The shown figure is the corrected one capped at ten. */
  lemma DesignationTypesShownIsCapped(leads: seq<Lead>, users: seq<User>, now: int, calendar: int -> YearMonth)
    ensures var shown := DesignationTypesShown(BuildReport(leads, users, AllTime, now, calendar));
      shown == if DesignationTypes(leads) <= 10 then DesignationTypes(leads) else 10
  {
    var keys := KeysOf(leads, Designation);
    assert |Tally(keys)| == |Distinct(keys)|;
  }

  /** Eleven leads that name eleven different companies: the page says ten. */
  lemma ElevenCompaniesShowTen(l: Lead, users: seq<User>, now: int, calendar: int -> YearMonth)
    ensures var leads := seq(11, i requires 0 <= i < 11 => l.(company_name := NatToString(i)));
      && UniqueCompanies(leads) == 11
      && UniqueCompaniesShown(BuildReport(leads, users, AllTime, now, calendar)) == 10
  {
    var leads := seq(11, i requires 0 <= i < 11 => l.(company_name := NatToString(i)));
    var keys := KeysOf(leads, CompanyName);
    forall i, j | 0 <= i < j < |keys|
      ensures keys[i] != keys[j]
    {
      if keys[i] == keys[j] {
        NatToStringInjective(i, j);
      }
    }
    DistinctOfNoRepeats(keys);
    UniqueCompaniesShownIsCapped(leads, users, now, calendar);
  }
}
