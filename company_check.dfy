/**
 * The `/api/leads/company` route: given a `company_name` query parameter, says
 * whether some lead already names that company, and if so returns that lead's
 * company name and link, so the lead form can reuse the link.
 */
module CompanyCheck {
  import opened Wrappers
  import opened Text
  import opened LeadSchema

  /** The `.select('company_name company_link')` projection of a lead. */
  datatype CompanyInfo = CompanyInfo(company_name: string, company_link: Option<string>)

  datatype CheckReply =
    | NameRequired
    | Checked(found: bool, company: Option<CompanyInfo>)

  function StatusOf(r: CheckReply): (status: int)
    ensures status == 400 <==> r.NameRequired?
  {
    if r.NameRequired? then 400 else 200
  }

  function InfoOf(l: Lead): CompanyInfo {
    CompanyInfo(l.company_name, l.company_link)
  }

  /**
   * `findOne({ company_name: companyName.toLowerCase() })`: Mongoose casts the
   * value through the path's setters, so this is the first lead whose stored name
   * is the parameter lowercased and trimmed.
   */
  function Check(store: seq<Lead>, companyName: Option<string>): (r: CheckReply)
    ensures r.NameRequired? <==> companyName.None? || companyName.value == []
    ensures r.Checked? ==> (r.found <==> r.company.Some?)
  {
    if companyName.None? || companyName.value == [] then NameRequired
    else Lookup(store, QueryValue(Lower(companyName.value)))
  }

  /** The query itself, on the cast name. */
  function Lookup(store: seq<Lead>, lowered: string): CheckReply {
    match FindFirst(store, (l: Lead) => l.company_name == lowered)
    case None => Checked(false, None)
    case Some(i) => Checked(true, Some(InfoOf(store[i])))
  }

  /**
   * A given name is found exactly when some stored lead carries its trimmed,
   * lowercase form, and what comes back is the first such lead's name and link.
   */
  lemma CheckFindsCompany(store: seq<Lead>, name: string)
    requires name != []
    ensures var r := Check(store, Some(name));
      && r.Checked?
      && (r.found <==> exists l :: l in store && l.company_name == Lower(Trim(name)))
      && (r.found ==> exists i :: 0 <= i < |store| && r.company == Some(InfoOf(store[i]))
                        && store[i].company_name == Lower(Trim(name))
                        && forall k :: 0 <= k < i ==> store[k].company_name != Lower(Trim(name)))
  {
    LookupValue(name);
    LookupFinds(store, Lower(Trim(name)));
  }

  /** The value looked up for a given name. */
  lemma LookupValue(name: string)
    ensures QueryValue(Lower(name)) == Lower(Trim(name))
  {
    QueryValueIgnoresPadding([], name, []);
  }

  /** The lookup finds a lead exactly when one carries `key`, and answers the first such lead. */
  lemma LookupFinds(store: seq<Lead>, key: string)
    ensures var r := Lookup(store, key);
      && r.Checked?
      && (r.found <==> exists l :: l in store && l.company_name == key)
      && (r.found ==> exists i :: 0 <= i < |store| && r.company == Some(InfoOf(store[i]))
                        && store[i].company_name == key
                        && forall k :: 0 <= k < i ==> store[k].company_name != key)
  {
    var r := Lookup(store, key);
    if !r.found {
      forall l | l in store
        ensures l.company_name != key
      {
        var i :| 0 <= i < |store| && store[i] == l;
      }
    }
  }

  /** The lookup ignores letter case in the parameter. */
  lemma CheckIgnoresCase(store: seq<Lead>, a: string, b: string)
    requires Lower(a) == Lower(b)
    ensures Check(store, Some(a)) == Check(store, Some(b))
  {
    assert |a| == |b|;
  }

  /** Whitespace around a given name does not change the answer. */
  lemma CheckIgnoresPadding(store: seq<Lead>, p: string, name: string, q: string)
    requires AllSpace(p) && AllSpace(q) && name != []
    ensures Check(store, Some(p + name + q)) == Check(store, Some(name))
  {
    QueryValueIgnoresPadding(p, name, q);
    LookupValue(p + name + q);
    LookupValue(name);
  }
}
