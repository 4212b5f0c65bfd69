/**
 * The `/api/leads/filters` route: the option lists of the leads page filters.
 * Each list is a `Lead.distinct` over the leads the caller may see (an admin sees
 * every lead, anyone else the leads assigned to them), sorted with the default
 * `Array.prototype.sort`; locations and sources skip missing and empty values, and
 * only an admin gets sources.
 */
module FilterOptions {
  import opened Wrappers
  import opened LeadSchema
  import opened Sorting
  import Counting

  /** `baseFilter`: no condition for an admin, otherwise `assigned_to == userId` (a missing id is null). */
  function BaseScope(role: Option<string>, userId: Option<string>): Option<Option<string>> {
    if role == Some("admin") then None else Some(userId)
  }

  predicate InScope(scope: Option<Option<string>>, l: Lead) {
    scope.None? || scope.value == Some(l.assigned_to)
  }

  /** `{ $exists: true, $nin: [null, ''] }` on an optional path. */
  predicate NonEmpty(v: Option<string>) {
    v.Some? && v.value != []
  }

  function CompanyOf(l: Lead): Option<string> { Some(l.company_name) }

  function DesignationOf(l: Lead): Option<string> { Some(l.designation) }

  function LocationOf(l: Lead): Option<string> { if NonEmpty(l.location) then l.location else None }

  function SourceOf(l: Lead): Option<string> { if NonEmpty(l.source) then l.source else None }

  /** The values `field` yields on the leads in scope, in collection order, with repetitions. */
  function Values(store: seq<Lead>, scope: Option<Option<string>>, field: Lead -> Option<string>): (r: seq<string>)
    ensures forall v :: v in r <==> exists l :: l in store && InScope(scope, l) && field(l) == Some(v)
  {
    if store == [] then []
    else
      assert forall l :: l in store <==> l == store[0] || l in store[1..];
      (if InScope(scope, store[0]) && field(store[0]).Some? then [field(store[0]).value] else [])
      + Values(store[1..], scope, field)
  }

  /** `distinct` then `.sort()`: every value once, in code-point order. */
  function DistinctSorted(values: seq<string>): (r: seq<string>)
    ensures forall v :: v in r <==> v in values
    ensures StrictlyAscending(r)
  {
    var d := Counting.Distinct(values);
    SortNoRepeats(d);
    SortAsc(d, Identity)
  }

  datatype Options = Options(companies: seq<string>, locations: seq<string>, designations: seq<string>, sources: seq<string>)

  /** The route's answer. */
  function GetOptions(store: seq<Lead>, role: Option<string>, userId: Option<string>): Options {
    var scope := BaseScope(role, userId);
    Options(
      DistinctSorted(Values(store, scope, CompanyOf)),
      DistinctSorted(Values(store, scope, LocationOf)),
      DistinctSorted(Values(store, scope, DesignationOf)),
      if role == Some("admin") then DistinctSorted(Values(store, scope, SourceOf)) else [])
  }

  lemma CompaniesInScope(store: seq<Lead>, scope: Option<Option<string>>)
    ensures var r := DistinctSorted(Values(store, scope, CompanyOf));
      forall c :: c in r <==> exists l :: l in store && InScope(scope, l) && l.company_name == c
  {
  }

  lemma DesignationsInScope(store: seq<Lead>, scope: Option<Option<string>>)
    ensures var r := DistinctSorted(Values(store, scope, DesignationOf));
      forall d :: d in r <==> exists l :: l in store && InScope(scope, l) && l.designation == d
  {
  }

  lemma LocationsInScope(store: seq<Lead>, scope: Option<Option<string>>)
    ensures var r := DistinctSorted(Values(store, scope, LocationOf));
      forall c :: c in r <==> c != [] && exists l :: l in store && InScope(scope, l) && l.location == Some(c)
  {
    var r := DistinctSorted(Values(store, scope, LocationOf));
    forall c
      ensures c in r <==> c != [] && exists l :: l in store && InScope(scope, l) && l.location == Some(c)
    {
      if c in r {
        var l :| l in store && InScope(scope, l) && LocationOf(l) == Some(c);
        assert l.location == Some(c) && c != [];
      }
      if c != [] && exists l :: l in store && InScope(scope, l) && l.location == Some(c) {
        var l :| l in store && InScope(scope, l) && l.location == Some(c);
        assert LocationOf(l) == Some(c);
      }
    }
  }

  lemma SourcesInScope(store: seq<Lead>, scope: Option<Option<string>>)
    ensures var r := DistinctSorted(Values(store, scope, SourceOf));
      forall s :: s in r <==> s != [] && exists l :: l in store && InScope(scope, l) && l.source == Some(s)
  {
    var r := DistinctSorted(Values(store, scope, SourceOf));
    forall s
      ensures s in r <==> s != [] && exists l :: l in store && InScope(scope, l) && l.source == Some(s)
    {
      if s in r {
        var l :| l in store && InScope(scope, l) && SourceOf(l) == Some(s);
        assert l.source == Some(s) && s != [];
      }
      if s != [] && exists l :: l in store && InScope(scope, l) && l.source == Some(s) {
        var l :| l in store && InScope(scope, l) && l.source == Some(s);
        assert SourceOf(l) == Some(s);
      }
    }
  }

  /** Each list holds exactly the values found on the leads in scope, once each, in ascending order. */
  lemma OptionsAreScopedValues(store: seq<Lead>, role: Option<string>, userId: Option<string>)
    ensures var r, scope := GetOptions(store, role, userId), BaseScope(role, userId);
      && (forall c :: c in r.companies <==> exists l :: l in store && InScope(scope, l) && l.company_name == c)
      && (forall d :: d in r.designations <==> exists l :: l in store && InScope(scope, l) && l.designation == d)
      && (forall c :: c in r.locations <==> c != [] && exists l :: l in store && InScope(scope, l) && l.location == Some(c))
      && (forall s :: s in r.sources <==> role == Some("admin") && s != [] && exists l :: l in store && l.source == Some(s))
      && StrictlyAscending(r.companies) && StrictlyAscending(r.locations)
      && StrictlyAscending(r.designations) && StrictlyAscending(r.sources)
  {
    var scope := BaseScope(role, userId);
    CompaniesInScope(store, scope);
    DesignationsInScope(store, scope);
    LocationsInScope(store, scope);
    SourcesInScope(store, scope);
  }

  /** A non-admin's options come only from leads assigned to them, and they get no sources. */
  lemma NonAdminOptions(store: seq<Lead>, role: Option<string>, userId: Option<string>)
    requires role != Some("admin")
    ensures var r := GetOptions(store, role, userId);
      && r.sources == []
      && (forall c :: c in r.companies ==> exists l :: l in store && userId == Some(l.assigned_to) && l.company_name == c)
      && (forall c :: c in r.locations ==> exists l :: l in store && userId == Some(l.assigned_to) && l.location == Some(c))
      && (forall d :: d in r.designations ==> exists l :: l in store && userId == Some(l.assigned_to) && l.designation == d)
  {
    OptionsAreScopedValues(store, role, userId);
  }
}
