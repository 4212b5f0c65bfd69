/**
 * The create-lead page: the form state, its validation before submission, the
 * location sent in place of city and country, and the editing of the list of
 * additional contacts. The request itself and the company and country look-ups
 * are not part of this module.
 */
module CreateLead {
  import opened Wrappers
  import opened Text


  /* ---------- the e-mail pattern ---------- */

  /**
   * `/\S+@\S+\.\S+/` matches with its `@` at `i` and its `.` at `k`: a non-space
   * character just before the `@`, only non-space characters (at least one) between
   * the `@` and the `.`, and a non-space character just after the `.`.
   */
  predicate MatchAt(s: string, i: nat, k: nat) {
    && 0 < i && i + 1 < k && k + 1 < |s|
    && s[i] == '@' && s[k] == '.'
    && !IsSpace(s[i - 1]) && !IsSpace(s[k + 1])
    && forall m :: i < m < k ==> !IsSpace(s[m])
  }

  /** `/\S+@\S+\.\S+/.test(s)`: the pattern is not anchored, so it may match anywhere in `s`. */
  predicate LooksLikeEmail(s: string) {
    exists i: nat, k: nat | i < k < |s| :: MatchAt(s, i, k)
  }

  /** The pattern is not anchored: text around a matching address still matches. */
  lemma LooksLikeEmailInContext(p: string, s: string, q: string)
    requires LooksLikeEmail(s)
    ensures LooksLikeEmail(p + s + q)
  {
    var i: nat, k: nat :| i < k < |s| && MatchAt(s, i, k);
    var t := p + s + q;
    forall m | 0 <= m < |s|
      ensures t[|p| + m] == s[m]
    {
    }
    assert MatchAt(t, |p| + i, |p| + k);
  }

  /** A match needs an `@` with a non-space character before it and a `.` after it. */
  lemma LooksLikeEmailNeeds(s: string)
    requires LooksLikeEmail(s)
    ensures exists i, k :: 0 < i < k < |s| && s[i] == '@' && s[k] == '.' && !IsSpace(s[i - 1])
  {
    var i: nat, k: nat :| i < k < |s| && MatchAt(s, i, k);
  }

  /** A string that is only whitespace never matches. */
  lemma BlankIsNoEmail(s: string)
    requires IsBlank(s)
    ensures !LooksLikeEmail(s)
  {
    forall i: nat, k: nat | i < k < |s|
      ensures !MatchAt(s, i, k)
    {
      if k + 1 < |s| {
        assert IsSpace(s[k + 1]);
      }
    }
  }

  lemma EmailExamples()
    ensures LooksLikeEmail("a@b.co")
    ensures LooksLikeEmail("x a@b.c y")
    ensures !LooksLikeEmail("a@b")
    ensures !LooksLikeEmail("a@.co")
    ensures !LooksLikeEmail("a @b.co")
  {
    assert MatchAt("a@b.co", 1, 3);
    assert MatchAt("x a@b.c y", 3, 5);
  }

  /* ---------- the form ---------- */

  datatype FieldName =
    | FirstName | LastName | Designation | ProfileLink | Email | PersonMobile | Location
    | City | Country | CompanyName | CompanyLink | JobTitle | JobLink | Source | Notes

  /** `formData`: every input as typed. */
  datatype FormData = FormData(
    first_name: string, last_name: string, designation: string, profile_link: string,
    email: string, person_mobile: string, location: string, city: string, country: string,
    company_name: string, company_link: string, job_title: string, job_link: string,
    source: string, notes: string)

  const EmptyForm := FormData("", "", "", "", "", "", "", "", "", "", "", "", "", "", "")

  /** `formData[name]`. */
  function Get(f: FormData, n: FieldName): string {
    match n
    case FirstName => f.first_name
    case LastName => f.last_name
    case Designation => f.designation
    case ProfileLink => f.profile_link
    case Email => f.email
    case PersonMobile => f.person_mobile
    case Location => f.location
    case City => f.city
    case Country => f.country
    case CompanyName => f.company_name
    case CompanyLink => f.company_link
    case JobTitle => f.job_title
    case JobLink => f.job_link
    case Source => f.source
    case Notes => f.notes
  }

  /** `{ ...prev, [name]: value }`. */
  function Set(f: FormData, n: FieldName, v: string): FormData {
    match n
    case FirstName => f.(first_name := v)
    case LastName => f.(last_name := v)
    case Designation => f.(designation := v)
    case ProfileLink => f.(profile_link := v)
    case Email => f.(email := v)
    case PersonMobile => f.(person_mobile := v)
    case Location => f.(location := v)
    case City => f.(city := v)
    case Country => f.(country := v)
    case CompanyName => f.(company_name := v)
    case CompanyLink => f.(company_link := v)
    case JobTitle => f.(job_title := v)
    case JobLink => f.(job_link := v)
    case Source => f.(source := v)
    case Notes => f.(notes := v)
  }

  /** Setting a field changes that field to the value and no other field. */
  lemma GetSet(f: FormData, n: FieldName, v: string, m: FieldName)
    ensures Get(Set(f, n, v), m) == if m == n then v else Get(f, m)
  {
  }

  /** Two forms that agree on every field are the same form. */
  lemma FormsAgree(f: FormData, g: FormData)
    requires forall n :: Get(f, n) == Get(g, n)
    ensures f == g
  {
    assert Get(f, FirstName) == Get(g, FirstName) && Get(f, LastName) == Get(g, LastName);
    assert Get(f, Designation) == Get(g, Designation) && Get(f, ProfileLink) == Get(g, ProfileLink);
    assert Get(f, Email) == Get(g, Email) && Get(f, PersonMobile) == Get(g, PersonMobile);
    assert Get(f, Location) == Get(g, Location) && Get(f, City) == Get(g, City);
    assert Get(f, Country) == Get(g, Country) && Get(f, CompanyName) == Get(g, CompanyName);
    assert Get(f, CompanyLink) == Get(g, CompanyLink) && Get(f, JobTitle) == Get(g, JobTitle);
    assert Get(f, JobLink) == Get(g, JobLink) && Get(f, Source) == Get(g, Source);
    assert Get(f, Notes) == Get(g, Notes);
  }

  /** One additional contact as the page edits it. */
  datatype AdditionalContact = AdditionalContact(
    first_name: string, last_name: string, email: string,
    designation: string, profile_link: string, is_primary: bool)

  const BlankContact := AdditionalContact("", "", "", "", "", false)

  /* ---------- validation ---------- */

  /** The keys of the `errors` record. */
  datatype ErrorKey =
    | FieldError(name: FieldName)
    | ContactFirstName(index: nat)
    | ContactLastName(index: nat)
    | ContactEmail(index: nat)
    | SubmitError

  /** The rule for a required text input: blank after trimming. */
  function Required(value: string, message: string): Option<string> {
    if IsBlank(value) then Some(message) else None
  }

  /** The main e-mail is required only when empty as typed; a blank one is reported invalid. */
  function MainEmailError(email: string): Option<string> {
    if email == [] then Some("Email is required")
    else if !LooksLikeEmail(email) then Some("Email is invalid")
    else None
  }

  /** A contact's e-mail is required when blank, which takes the place of "invalid". */
  function ContactEmailError(email: string): Option<string> {
    if IsBlank(email) then Some("Email is required")
    else if !LooksLikeEmail(email) then Some("Email is invalid")
    else None
  }

  /** The error of a main-form field: four names are required, the e-mail is checked, the rest never fail. */
  function FieldErrorOf(f: FormData, n: FieldName): Option<string> {
    match n
    case FirstName => Required(f.first_name, "First name is required")
    case LastName => Required(f.last_name, "Last name is required")
    case Designation => Required(f.designation, "Designation is required")
    case Email => MainEmailError(f.email)
    case CompanyName => Required(f.company_name, "Company name is required")
    case _ => None
  }

  /** What validation reports under each key, independently of the order of the checks. */
  function ExpectedError(f: FormData, contacts: seq<AdditionalContact>, k: ErrorKey): Option<string> {
    match k
    case FieldError(n) => FieldErrorOf(f, n)
    case ContactFirstName(i) => if i < |contacts| then Required(contacts[i].first_name, "First name is required") else None
    case ContactLastName(i) => if i < |contacts| then Required(contacts[i].last_name, "Last name is required") else None
    case ContactEmail(i) => if i < |contacts| then ContactEmailError(contacts[i].email) else None
    case SubmitError => None
  }

  /** `errors[k]`, absent or present. */
  function Lookup(errors: map<ErrorKey, string>, k: ErrorKey): Option<string> {
    if k in errors then Some(errors[k]) else None
  }

  /** `errors` holds exactly the expected error of every key that has one. */
  ghost predicate Shows(errors: map<ErrorKey, string>, f: FormData, contacts: seq<AdditionalContact>) {
    forall k :: Lookup(errors, k) == ExpectedError(f, contacts, k)
  }

  /** A contact the page accepts. */
  predicate ContactAcceptable(c: AdditionalContact) {
    !IsBlank(c.first_name) && !IsBlank(c.last_name) && LooksLikeEmail(c.email)
  }

  /** A form the page submits: the four required names, a matching e-mail and acceptable contacts. */
  predicate Acceptable(f: FormData, contacts: seq<AdditionalContact>) {
    && !IsBlank(f.first_name) && !IsBlank(f.last_name) && !IsBlank(f.designation)
    && !IsBlank(f.company_name) && LooksLikeEmail(f.email)
    && forall i :: 0 <= i < |contacts| ==> ContactAcceptable(contacts[i])
  }

  lemma MainEmailErrorNone(email: string)
    ensures MainEmailError(email).None? <==> LooksLikeEmail(email)
  {
    if email == [] {
      BlankIsNoEmail(email);
    }
  }

  lemma ContactEmailErrorNone(email: string)
    ensures ContactEmailError(email).None? <==> LooksLikeEmail(email)
  {
    if IsBlank(email) {
      BlankIsNoEmail(email);
    }
  }

  /** An acceptable form gets no error under any key. */
  lemma AcceptableHasNoError(f: FormData, contacts: seq<AdditionalContact>, k: ErrorKey)
    requires Acceptable(f, contacts)
    ensures ExpectedError(f, contacts, k).None?
  {
    match k
    case FieldError(n) =>
      if n == Email {
        MainEmailErrorNone(f.email);
      }
    case ContactFirstName(i) =>
      if i < |contacts| {
        assert ContactAcceptable(contacts[i]);
      }
    case ContactLastName(i) =>
      if i < |contacts| {
        assert ContactAcceptable(contacts[i]);
      }
    case ContactEmail(i) =>
      if i < |contacts| {
        assert ContactAcceptable(contacts[i]);
        ContactEmailErrorNone(contacts[i].email);
      }
    case SubmitError =>
  }

  /** A form with no error under any key is acceptable. */
  lemma NoErrorIsAcceptable(f: FormData, contacts: seq<AdditionalContact>)
    requires forall k :: ExpectedError(f, contacts, k).None?
    ensures Acceptable(f, contacts)
  {
    assert ExpectedError(f, contacts, FieldError(FirstName)).None?;
    assert ExpectedError(f, contacts, FieldError(LastName)).None?;
    assert ExpectedError(f, contacts, FieldError(Designation)).None?;
    assert ExpectedError(f, contacts, FieldError(CompanyName)).None?;
    assert ExpectedError(f, contacts, FieldError(Email)).None?;
    MainEmailErrorNone(f.email);
    forall i | 0 <= i < |contacts|
      ensures ContactAcceptable(contacts[i])
    {
      assert ExpectedError(f, contacts, ContactFirstName(i)).None?;
      assert ExpectedError(f, contacts, ContactLastName(i)).None?;
      assert ExpectedError(f, contacts, ContactEmail(i)).None?;
      ContactEmailErrorNone(contacts[i].email);
    }
  }

  /* ---------- the checks in the order the page runs them ---------- */

  /** One check of `validateForm`: a failed check sets the message under its key, overwriting an earlier one. */
  function Check(e: map<ErrorKey, string>, key: ErrorKey, err: Option<string>): (r: map<ErrorKey, string>)
    ensures forall k :: Lookup(r, k) == if k == key && err.Some? then err else Lookup(e, k)
  {
    if err.Some? then e[key := err.value] else e
  }

  /** The five checks of the main form, in order. */
  function FormErrors(f: FormData): map<ErrorKey, string> {
    var e1 := Check(map[], FieldError(FirstName), Required(f.first_name, "First name is required"));
    var e2 := Check(e1, FieldError(LastName), Required(f.last_name, "Last name is required"));
    var e3 := Check(e2, FieldError(Designation), Required(f.designation, "Designation is required"));
    var e4 := Check(e3, FieldError(Email), MainEmailError(f.email));
    Check(e4, FieldError(CompanyName), Required(f.company_name, "Company name is required"))
  }

  /** The four checks of contact `i`, in order: an "invalid" is overwritten by a later "required". */
  function WithContactErrors(e: map<ErrorKey, string>, c: AdditionalContact, i: nat): map<ErrorKey, string> {
    var e1 := Check(e, ContactFirstName(i), Required(c.first_name, "First name is required"));
    var e2 := Check(e1, ContactLastName(i), Required(c.last_name, "Last name is required"));
    var e3 := Check(e2, ContactEmail(i), if c.email != [] && !LooksLikeEmail(c.email) then Some("Email is invalid") else None);
    Check(e3, ContactEmail(i), Required(c.email, "Email is required"))
  }

  /** Whether validation has reached key `k` after checking the first `n` contacts. */
  predicate Checked(k: ErrorKey, n: nat) {
    match k
    case ContactFirstName(i) => i < n
    case ContactLastName(i) => i < n
    case ContactEmail(i) => i < n
    case _ => true
  }

  /** `errors` holds the expected error of every key validation has reached, and nothing else. */
  ghost predicate ShowsUpTo(errors: map<ErrorKey, string>, f: FormData, contacts: seq<AdditionalContact>, n: nat) {
    forall k :: Lookup(errors, k) == if Checked(k, n) then ExpectedError(f, contacts, k) else None
  }

  /** The main form's checks give the expected errors of its fields. */
  lemma FormErrorsShown(f: FormData, contacts: seq<AdditionalContact>)
    ensures ShowsUpTo(FormErrors(f), f, contacts, 0)
  {
    var e := FormErrors(f);
    forall k
      ensures Lookup(e, k) == if Checked(k, 0) then ExpectedError(f, contacts, k) else None
    {
      if k.FieldError? {
        FieldErrorShown(f, k.name);
      }
    }
  }

  lemma FieldErrorShown(f: FormData, n: FieldName)
    ensures Lookup(FormErrors(f), FieldError(n)) == FieldErrorOf(f, n)
  {
    var e := FormErrors(f);
    if n !in {FirstName, LastName, Designation, Email, CompanyName} {
      assert FieldErrorOf(f, n) == None;
    }
  }

  /** Checking contact `n` adds its expected errors and keeps the others. */
  lemma ContactErrorsShown(e: map<ErrorKey, string>, f: FormData, contacts: seq<AdditionalContact>, n: nat)
    requires n < |contacts| && ShowsUpTo(e, f, contacts, n)
    ensures ShowsUpTo(WithContactErrors(e, contacts[n], n), f, contacts, n + 1)
  {
    var c := contacts[n];
    var e' := WithContactErrors(e, c, n);
    forall k
      ensures Lookup(e', k) == if Checked(k, n + 1) then ExpectedError(f, contacts, k) else None
    {
      assert Lookup(e, k) == if Checked(k, n) then ExpectedError(f, contacts, k) else None;
      if k == ContactEmail(n) && c.email != [] && IsBlank(c.email) {
        BlankIsNoEmail(c.email);
      }
    }
  }

  /** Validation passes exactly when the collected errors are empty, that is when the form is acceptable. */
  lemma ValidationVerdict(e: map<ErrorKey, string>, f: FormData, contacts: seq<AdditionalContact>, ok: bool)
    requires ShowsUpTo(e, f, contacts, |contacts|)
    requires ok <==> |e| == 0
    ensures Shows(e, f, contacts)
    ensures ok <==> Acceptable(f, contacts)
  {
    forall k
      ensures Lookup(e, k) == ExpectedError(f, contacts, k)
    {
      assert Lookup(e, k) == if Checked(k, |contacts|) then ExpectedError(f, contacts, k) else None;
    }
    if ok {
      forall k
        ensures ExpectedError(f, contacts, k).None?
      {
        assert Lookup(e, k) == ExpectedError(f, contacts, k);
      }
      NoErrorIsAcceptable(f, contacts);
    } else {
      var k :| k in e;
      assert Lookup(e, k) == ExpectedError(f, contacts, k);
      if Acceptable(f, contacts) {
        AcceptableHasNoError(f, contacts, k);
      }
    }
  }

  /**
   * The checks of `validateForm`: the errors of the form and of every contact, all
   * collected, and whether there were none.
   */
  method CollectErrors(f: FormData, contacts: seq<AdditionalContact>) returns (errors: map<ErrorKey, string>, ok: bool)
    ensures Shows(errors, f, contacts)
    ensures ok <==> Acceptable(f, contacts)
    ensures ok <==> errors == map[]
  {
    errors := FormErrors(f);
    FormErrorsShown(f, contacts);
    for i := 0 to |contacts|
      invariant ShowsUpTo(errors, f, contacts, i)
    {
      ContactErrorsShown(errors, f, contacts, i);
      var c, e0 := contacts[i], errors;
      if IsBlank(c.first_name) {
        errors := errors[ContactFirstName(i) := "First name is required"];
      }
      if IsBlank(c.last_name) {
        errors := errors[ContactLastName(i) := "Last name is required"];
      }
      if c.email != [] && !LooksLikeEmail(c.email) {
        errors := errors[ContactEmail(i) := "Email is invalid"];
      }
      if IsBlank(c.email) {
        errors := errors[ContactEmail(i) := "Email is required"];
      }
      assert errors == WithContactErrors(e0, c, i);
    }
    ok := |errors| == 0;
    ValidationVerdict(errors, f, contacts, ok);
  }

  /* ---------- location ---------- */

  /** `locationParts`: the trimmed city and the trimmed country, each only when not blank. */
  function LocationParts(city: string, country: string): seq<string> {
    (if Trim(city) == [] then [] else [Trim(city)]) + (if Trim(country) == [] then [] else [Trim(country)])
  }

  /** `combinedLocation`: the location parts joined by `', '`. */
  function JoinedLocation(city: string, country: string): string {
    Join(LocationParts(city, country), ", ")
  }

  /**
   * The location sent with the lead, built step by step as the page does: empty
   * when both are blank, the one that is not blank alone, or both joined by `', '`.
   */
  method CombinedLocation(city: string, country: string) returns (location: string)
    ensures location == JoinedLocation(city, country)
    ensures Trim(city) == [] && Trim(country) == [] ==> location == ""
    ensures Trim(city) != [] && Trim(country) == [] ==> location == Trim(city)
    ensures Trim(city) == [] && Trim(country) != [] ==> location == Trim(country)
    ensures Trim(city) != [] && Trim(country) != [] ==> location == Trim(city) + ", " + Trim(country)
  {
    var parts: seq<string> := [];
    var c := Trim(city);
    if c != [] {
      parts := parts + [c];
    }
    var d := Trim(country);
    if d != [] {
      parts := parts + [d];
    }
    assert parts == LocationParts(city, country);
    location := Join(parts, ", ");
    if |parts| == 2 {
      assert parts == [c, d] && parts[1..] == [d];
      assert location == c + ", " + Join([d], ", ");
    }
  }

  /* ---------- the request ---------- */

  /**
   * The JSON body POSTed to `/api/leads`: every form field except `city` and
   * `country`, with `location` replaced by the combined location, the additional
   * contacts, and the signed-in user's id (if any) as assignee and creator.
   */
  datatype LeadRequest = LeadRequest(
    first_name: string, last_name: string, designation: string, profile_link: string,
    email: string, person_mobile: string, location: string,
    company_name: string, company_link: string, job_title: string, job_link: string,
    source: string, notes: string,
    additional_emails: seq<AdditionalContact>, assigned_to: Option<string>, created_by: Option<string>)

  /** `{ ...formDataWithoutCityCountry, location: combinedLocation, additional_emails, assigned_to, created_by }`. */
  function RequestBody(f: FormData, contacts: seq<AdditionalContact>, user: Option<string>): LeadRequest {
    LeadRequest(
      f.first_name, f.last_name, f.designation, f.profile_link, f.email, f.person_mobile,
      JoinedLocation(f.city, f.country),
      f.company_name, f.company_link, f.job_title, f.job_link, f.source, f.notes,
      contacts, user, user)
  }

  /** A field of the request by its form name; `city` and `country` are not sent. */
  function RequestGet(r: LeadRequest, n: FieldName): Option<string> {
    match n
    case FirstName => Some(r.first_name)
    case LastName => Some(r.last_name)
    case Designation => Some(r.designation)
    case ProfileLink => Some(r.profile_link)
    case Email => Some(r.email)
    case PersonMobile => Some(r.person_mobile)
    case Location => Some(r.location)
    case City => None
    case Country => None
    case CompanyName => Some(r.company_name)
    case CompanyLink => Some(r.company_link)
    case JobTitle => Some(r.job_title)
    case JobLink => Some(r.job_link)
    case Source => Some(r.source)
    case Notes => Some(r.notes)
  }

  /**
   * The request carries every field of the form as typed except three: `city` and
   * `country` are dropped, and the typed `location` gives way to the combined one.
   * Editing the city or the country changes the request only through the location.
   */
  lemma RequestBodyFields(f: FormData, contacts: seq<AdditionalContact>, user: Option<string>, n: FieldName, v: string)
    ensures n != City && n != Country && n != Location ==> RequestGet(RequestBody(f, contacts, user), n) == Some(Get(f, n))
    ensures n == City || n == Country ==> RequestGet(RequestBody(f, contacts, user), n).None?
    ensures n == Location ==> RequestGet(RequestBody(f, contacts, user), n) == Some(JoinedLocation(f.city, f.country))
    ensures n == Location ==> RequestBody(Set(f, n, v), contacts, user) == RequestBody(f, contacts, user)
    ensures (n == City || n == Country) && Trim(v) == Trim(Get(f, n)) ==>
      RequestBody(Set(f, n, v), contacts, user) == RequestBody(f, contacts, user)
  {
  }

  /* ---------- the list of additional contacts ---------- */

  /** `addAdditionalEmail`. */
  function AddContact(contacts: seq<AdditionalContact>): (r: seq<AdditionalContact>)
    ensures |r| == |contacts| + 1 && r[..|contacts|] == contacts
    ensures r[|contacts|] == BlankContact && !r[|contacts|].is_primary
  {
    contacts + [BlankContact]
  }

  /** `removeAdditionalEmail`: `filter((_, i) => i !== index)`, written as the filter over positions from `from` on. */
  function KeepOthers(contacts: seq<AdditionalContact>, index: nat, from: nat): seq<AdditionalContact>
    requires from <= |contacts|
    decreases |contacts| - from
  {
    if from == |contacts| then []
    else (if from != index then [contacts[from]] else []) + KeepOthers(contacts, index, from + 1)
  }

  function RemoveContact(contacts: seq<AdditionalContact>, index: nat): seq<AdditionalContact> {
    KeepOthers(contacts, index, 0)
  }

  lemma {:induction false} KeepOthersSlice(contacts: seq<AdditionalContact>, index: nat, from: nat)
    requires from <= |contacts|
    ensures KeepOthers(contacts, index, from) ==
      if index < from || index >= |contacts| then contacts[from..]
      else contacts[from..index] + contacts[index + 1..]
    decreases |contacts| - from
  {
    if from < |contacts| {
      var rest := KeepOthers(contacts, index, from + 1);
      KeepOthersSlice(contacts, index, from + 1);
      assert contacts[from..] == [contacts[from]] + contacts[from + 1..];
      if from == index {
        assert KeepOthers(contacts, index, from) == rest;
      } else {
        assert KeepOthers(contacts, index, from) == [contacts[from]] + rest;
        if from < index < |contacts| {
          assert contacts[from..index] == [contacts[from]] + contacts[from + 1..index];
        }
      }
    }
  }

  /** Removing drops exactly the entry at `index` and keeps the others in order; an index past the end changes nothing. */
  lemma RemoveContactDropsOne(contacts: seq<AdditionalContact>, index: nat)
    ensures index < |contacts| ==> RemoveContact(contacts, index) == contacts[..index] + contacts[index + 1..]
    ensures index >= |contacts| ==> RemoveContact(contacts, index) == contacts
  {
    KeepOthersSlice(contacts, index, 0);
  }

  /** Adding a contact and removing it again gives the list back. */
  lemma RemoveUndoesAdd(contacts: seq<AdditionalContact>)
    ensures RemoveContact(AddContact(contacts), |contacts|) == contacts
  {
    RemoveContactDropsOne(AddContact(contacts), |contacts|);
  }

  datatype ContactField = ContactFirst | ContactLast | ContactAddress | ContactDesignation | ContactProfile | ContactPrimary

  /** The value of `updateAdditionalEmail`: text for the text fields, a flag for `is_primary`. */
  datatype ContactValue = Text(text: string) | Flag(flag: bool)

  predicate Fits(field: ContactField, v: ContactValue) {
    (field == ContactPrimary) == v.Flag?
  }

  function SetContactField(c: AdditionalContact, field: ContactField, v: ContactValue): AdditionalContact
    requires Fits(field, v)
  {
    match field
    case ContactFirst => c.(first_name := v.text)
    case ContactLast => c.(last_name := v.text)
    case ContactAddress => c.(email := v.text)
    case ContactDesignation => c.(designation := v.text)
    case ContactProfile => c.(profile_link := v.text)
    case ContactPrimary => c.(is_primary := v.flag)
  }

  /** `updateAdditionalEmail`: `map((email, i) => i === index ? { ...email, [field]: value } : email)`. */
  function UpdateContact(contacts: seq<AdditionalContact>, index: nat, field: ContactField, v: ContactValue): (r: seq<AdditionalContact>)
    requires Fits(field, v)
  {
    seq(|contacts|, i requires 0 <= i < |contacts| => if i == index then SetContactField(contacts[i], field, v) else contacts[i])
  }

  /**
   * Updating keeps the length, leaves every other entry as it was, and in entry
   * `index` changes the named field only.
   */
  lemma UpdateContactChangesOneField(contacts: seq<AdditionalContact>, index: nat, field: ContactField, v: ContactValue)
    requires Fits(field, v)
    ensures var r := UpdateContact(contacts, index, field, v);
      && |r| == |contacts|
      && (forall i :: 0 <= i < |r| && i != index ==> r[i] == contacts[i])
      && (index < |r| ==>
            && (r[index].first_name == if field == ContactFirst then v.text else contacts[index].first_name)
            && (r[index].last_name == if field == ContactLast then v.text else contacts[index].last_name)
            && (r[index].email == if field == ContactAddress then v.text else contacts[index].email)
            && (r[index].designation == if field == ContactDesignation then v.text else contacts[index].designation)
            && (r[index].profile_link == if field == ContactProfile then v.text else contacts[index].profile_link)
            && (r[index].is_primary == if field == ContactPrimary then v.flag else contacts[index].is_primary))
  {
  }

  /* ---------- the page ---------- */

  class CreateLeadPage {
    var form: FormData
    var contacts: seq<AdditionalContact>
    var errors: map<ErrorKey, string>
    var success: bool

    constructor ()
      ensures form == EmptyForm && contacts == [] && errors == map[] && !success
    {
      form := EmptyForm;
      contacts := [];
      errors := map[];
      success := false;
    }

    /** `validateForm`, with the collected errors stored for display. */
    method ValidateForm() returns (ok: bool)
      modifies this
      ensures form == old(form) && contacts == old(contacts) && success == old(success)
      ensures Shows(errors, form, contacts)
      ensures ok <==> Acceptable(form, contacts)
      ensures ok <==> errors == map[]
    {
      var e;
      e, ok := CollectErrors(form, contacts);
      errors := e;
    }

    /** `handleChange`: the field takes the value, and an error shown for it is blanked. */
    method HandleChange(name: FieldName, value: string)
      modifies this
      ensures form == Set(old(form), name, value)
      ensures contacts == old(contacts) && success == old(success)
      ensures forall k :: k in errors <==> k in old(errors)
      ensures FieldError(name) in errors && old(errors)[FieldError(name)] != "" ==> errors[FieldError(name)] == ""
      ensures forall k :: k in errors && (k != FieldError(name) || old(errors)[k] == "") ==> errors[k] == old(errors)[k]
    {
      form := Set(form, name, value);
      if FieldError(name) in errors && errors[FieldError(name)] != "" {
        errors := errors[FieldError(name) := ""];
      }
    }

    method AddAdditionalEmail()
      modifies this
      ensures contacts == AddContact(old(contacts))
      ensures form == old(form) && errors == old(errors) && success == old(success)
    {
      contacts := AddContact(contacts);
    }

    method RemoveAdditionalEmail(index: nat)
      modifies this
      ensures contacts == RemoveContact(old(contacts), index)
      ensures form == old(form) && errors == old(errors) && success == old(success)
    {
      contacts := RemoveContact(contacts, index);
    }

    method UpdateAdditionalEmail(index: nat, field: ContactField, v: ContactValue)
      requires Fits(field, v)
      modifies this
      ensures contacts == UpdateContact(old(contacts), index, field, v)
      ensures form == old(form) && errors == old(errors) && success == old(success)
    {
      contacts := UpdateContact(contacts, index, field, v);
    }

    /**
     * `handleSubmit` once the POST has answered: `user` is the signed-in user's id and
     * `failure` the error message when the request failed. Nothing is sent unless
     * validation passes; otherwise the body built from the form and the contacts is
     * sent, a created lead clears the form, the contacts and the errors and shows the
     * success message, and a refusal is shown as the only error with the form kept.
     */
    method HandleSubmit(user: Option<string>, failure: Option<string>) returns (sent: Option<LeadRequest>)
      modifies this
      ensures !Acceptable(old(form), old(contacts)) ==>
        sent.None? && form == old(form) && contacts == old(contacts) && success == old(success)
        && Shows(errors, form, contacts)
      ensures Acceptable(old(form), old(contacts)) ==> sent == Some(RequestBody(old(form), old(contacts), user))
      ensures Acceptable(old(form), old(contacts)) && failure.None? ==>
        form == EmptyForm && contacts == [] && success && errors == map[]
      ensures Acceptable(old(form), old(contacts)) && failure.Some? ==>
        form == old(form) && contacts == old(contacts) && success == old(success)
        && errors == map[SubmitError := failure.value]
    {
      var ok := ValidateForm();
      if !ok {
        return None;
      }
      var location := CombinedLocation(form.city, form.country);
      sent := Some(LeadRequest(
        form.first_name, form.last_name, form.designation, form.profile_link, form.email,
        form.person_mobile, location, form.company_name, form.company_link, form.job_title,
        form.job_link, form.source, form.notes, contacts, user, user));
      if failure.None? {
        success := true;
        form := EmptyForm;
        contacts := [];
      } else {
        errors := map[SubmitError := failure.value];
      }
    }
  }
}
