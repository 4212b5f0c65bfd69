/**
 * The user analytics page: the leads of the last `days` days counted by company,
 * location, designation and source, the ten largest companies, and the counts per
 * calendar day for the latest fourteen days. All of it is computed on the client
 * from one lead listing; the grouping itself is `Counting`.
 */
module Analytics {
  import opened Wrappers
  import opened Sorting
  import opened Counting
  import opened LeadSchema
  import Reports

  /** The leads created at or after `now` minus `days` days (`parseInt(timeRange)`). */
  function Recent(leads: seq<Lead>, days: nat, now: int): seq<Lead> {
    Reports.FilterByDateRange(leads, Reports.LastDays(days), now)
  }

  /** `lead[field] || 'Unknown'`: a missing or empty value reads as `'Unknown'`. */
  function OrUnknown(v: Option<string>): string {
    if v.Some? && v.value != [] then v.value else "Unknown"
  }

  function CompanyField(l: Lead): Option<string> { Some(l.company_name) }

  function LocationField(l: Lead): Option<string> { l.location }

  function DesignationField(l: Lead): Option<string> { Some(l.designation) }

  function SourceField(l: Lead): Option<string> { l.source }

  /** The dictionary key of every lead, in list order. */
  function FieldKeys(leads: seq<Lead>, field: Lead -> Option<string>): seq<string> {
    Reports.KeysOf(leads, (l: Lead) => OrUnknown(field(l)))
  }

  /** `calculateCountByField`: the `forEach` is `Counting.CountKeys`, then the sort by count. */
  function CountByField(leads: seq<Lead>, field: Lead -> Option<string>): seq<Entry> {
    GroupCounts(FieldKeys(leads, field))
  }

  /**
   * Every lead is counted once, under its value or `'Unknown'`: the counts add up to
   * the number of leads, largest first, each key once and never empty, each count the
   * number of leads with that key, and every lead's key is listed.
   */
  lemma CountByFieldFacts(leads: seq<Lead>, field: Lead -> Option<string>)
    ensures var r, keys := CountByField(leads, field), FieldKeys(leads, field);
      && SumBy(r, CountOf) == |leads|
      && NonIncreasing(r, CountOf)
      && DistinctKeys(r)
      && (forall i :: 0 <= i < |r| ==> r[i].key != [] && r[i].count == Occ(keys, r[i].key) >= 1)
      && (forall l :: l in leads ==> exists i :: 0 <= i < |r| && r[i].key == OrUnknown(field(l)))
  {
    var keys := FieldKeys(leads, field);
    var r := CountByField(leads, field);
    GroupCountsFacts(keys);
    forall i | 0 <= i < |r|
      ensures r[i].key != []
    {
      Reports.KeyOfSomeLead(leads, (l: Lead) => OrUnknown(field(l)), r[i].key);
    }
    forall l | l in leads
      ensures exists i :: 0 <= i < |r| && r[i].key == OrUnknown(field(l))
    {
      var j :| 0 <= j < |leads| && leads[j] == l;
      assert keys[j] in keys;
    }
  }

  /** `.filter(item => item.location)`: keeps the entries whose key is not empty. */
  function KeepNamed(es: seq<Entry>): (r: seq<Entry>)
    ensures forall e :: e in r <==> e in es && e.key != []
  {
    if es == [] then []
    else
      assert forall e :: e in es <==> e == es[0] || e in es[1..];
      (if es[0].key != [] then [es[0]] else []) + KeepNamed(es[1..])
  }

  lemma {:induction false} KeepNamedOfNamed(es: seq<Entry>)
    requires forall i :: 0 <= i < |es| ==> es[i].key != []
    ensures KeepNamed(es) == es
  {
    if es != [] {
      assert es[0].key != [];
      KeepNamedOfNamed(es[1..]);
      assert es == [es[0]] + es[1..];
    }
  }

  /** The location and source filters drop nothing: `'Unknown'` already stands for every empty value. */
  lemma KeepNamedDropsNothing(leads: seq<Lead>, field: Lead -> Option<string>)
    ensures KeepNamed(CountByField(leads, field)) == CountByField(leads, field)
  {
    CountByFieldFacts(leads, field);
    KeepNamedOfNamed(CountByField(leads, field));
  }

  /** `calculateLeadsOverTime`, with `isoDate` standing for `toISOString().split('T')[0]`. */
  function LeadsOverTime(leads: seq<Lead>, isoDate: int -> string): seq<Entry> {
    LatestCounts(Reports.KeysOf(leads, (l: Lead) => isoDate(l.created_at)), 14)
  }

  /** At most fourteen days, ascending and each once, each the day of some lead, each count the number of leads of that day. */
  lemma LeadsOverTimeFacts(leads: seq<Lead>, isoDate: int -> string)
    ensures var r, keys := LeadsOverTime(leads, isoDate), Reports.KeysOf(leads, (l: Lead) => isoDate(l.created_at));
      && |r| <= 14
      && AscendingBy(r, Counting.KeyOf)
      && DistinctKeys(r)
      && (forall j :: 0 <= j < |r| ==> r[j].count == Occ(keys, r[j].key) >= 1)
      && (forall j :: 0 <= j < |r| ==> exists l :: l in leads && isoDate(l.created_at) == r[j].key)
  {
    var key := (l: Lead) => isoDate(l.created_at);
    var keys := Reports.KeysOf(leads, key);
    var r := LeadsOverTime(leads, isoDate);
    LatestCountsFacts(keys, 14);
    forall j | 0 <= j < |r|
      ensures exists l :: l in leads && key(l) == r[j].key
    {
      Reports.KeyOfSomeLead(leads, key, r[j].key);
    }
  }

  /** A day left out of the fourteen sorts before every day kept. */
  lemma LeadsOverTimeAreLatest(leads: seq<Lead>, isoDate: int -> string, l: Lead, i: nat)
    requires l in leads && i < |LeadsOverTime(leads, isoDate)|
    requires forall j :: 0 <= j < |LeadsOverTime(leads, isoDate)| ==> LeadsOverTime(leads, isoDate)[j].key != isoDate(l.created_at)
    ensures StrLe(isoDate(l.created_at), LeadsOverTime(leads, isoDate)[i].key)
  {
    var key := (l: Lead) => isoDate(l.created_at);
    var keys := Reports.KeysOf(leads, key);
    var m :| 0 <= m < |leads| && leads[m] == l;
    assert keys[m] == key(l) && keys[m] in keys;
    LatestCountsAreLatest(keys, 14, key(l), i);
  }

  /** `AnalyticsData`. */
  datatype Analytics = Analytics(
    totalLeads: nat,
    leadsByCompany: seq<Entry>,
    leadsByLocation: seq<Entry>,
    leadsByDesignation: seq<Entry>,
    leadsBySource: seq<Entry>,
    leadsOverTime: seq<Entry>,
    topCompanies: seq<Entry>)

  /** `calculateAnalytics`. */
  function CalculateAnalytics(leads: seq<Lead>, days: nat, now: int, isoDate: int -> string): (r: Analytics)
    ensures r.totalLeads == |Recent(leads, days, now)|
  {
    var f := Recent(leads, days, now);
    var byCompany := CountByField(f, CompanyField);
    Analytics(
      |f|,
      byCompany,
      KeepNamed(CountByField(f, LocationField)),
      CountByField(f, DesignationField),
      KeepNamed(CountByField(f, SourceField)),
      LeadsOverTime(f, isoDate),
      Take(byCompany, 10))
  }

  /** Only leads of the period are counted, and each of them once in every grouping. */
  lemma AnalyticsCountsRecentLeads(leads: seq<Lead>, days: nat, now: int, isoDate: int -> string)
    ensures var r, f := CalculateAnalytics(leads, days, now, isoDate), Recent(leads, days, now);
      && (forall l :: l in f <==> l in leads && l.created_at >= Reports.Cutoff(now, days))
      && SumBy(r.leadsByCompany, CountOf) == r.totalLeads
      && SumBy(r.leadsByLocation, CountOf) == r.totalLeads
      && SumBy(r.leadsByDesignation, CountOf) == r.totalLeads
      && SumBy(r.leadsBySource, CountOf) == r.totalLeads
  {
    var f := Recent(leads, days, now);
    CountByFieldFacts(f, CompanyField);
    CountByFieldFacts(f, LocationField);
    CountByFieldFacts(f, DesignationField);
    CountByFieldFacts(f, SourceField);
    KeepNamedDropsNothing(f, LocationField);
    KeepNamedDropsNothing(f, SourceField);
  }

  /** The top companies are the first ten company groups, or all of them when there are fewer. */
  lemma TopCompaniesArePrefix(leads: seq<Lead>, days: nat, now: int, isoDate: int -> string)
    ensures var r := CalculateAnalytics(leads, days, now, isoDate);
      && |r.topCompanies| == (if |r.leadsByCompany| <= 10 then |r.leadsByCompany| else 10)
      && r.topCompanies == r.leadsByCompany[..|r.topCompanies|]
  {
  }

  /** No company left out of the top ten has more leads in the period than any company kept. */
  lemma TopCompaniesAreLargest(leads: seq<Lead>, days: nat, now: int, isoDate: int -> string, c: string, i: nat)
    requires c in FieldKeys(Recent(leads, days, now), CompanyField)
    requires i < |CalculateAnalytics(leads, days, now, isoDate).topCompanies|
    requires forall j :: 0 <= j < |CalculateAnalytics(leads, days, now, isoDate).topCompanies| ==>
      CalculateAnalytics(leads, days, now, isoDate).topCompanies[j].key != c
    ensures Occ(FieldKeys(Recent(leads, days, now), CompanyField), c) <= CalculateAnalytics(leads, days, now, isoDate).topCompanies[i].count
  {
    var keys := FieldKeys(Recent(leads, days, now), CompanyField);
    assert CalculateAnalytics(leads, days, now, isoDate).topCompanies == TopCounts(keys, 10);
    TopCountsAreLargest(keys, 10, c, i);
  }
}
