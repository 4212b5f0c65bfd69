/**
 * The lead document schema and the collection that stores leads.
 *
 * `Cast` is what `Lead.create` does to a document before it is stored: the `trim`
 * and `lowercase` setters, the `default` values and the `required` validators.
 * `Create` adds the unique compound index on (email, company_name, job_link): an
 * insert that repeats a stored triple is rejected with the duplicate-key code.
 * The collection is a sequence of leads in insertion order.
 */
module LeadSchema {
  import opened Wrappers
  import opened Text

  type UserId = string

  datatype AdditionalEmail = AdditionalEmail(
    first_name: string,
    last_name: string,
    email: string,
    designation: Option<string>,
    profile_link: Option<string>,
    is_primary: bool)

  datatype Lead = Lead(
    first_name: string,
    last_name: string,
    designation: string,
    profile_link: Option<string>,
    email: string,
    person_mobile: Option<string>,
    location: Option<string>,
    company_name: string,
    company_link: Option<string>,
    job_title: Option<string>,
    job_link: Option<string>,
    additional_emails: seq<AdditionalEmail>,
    source: Option<string>,
    notes: Option<string>,
    assigned_to: UserId,
    created_by: UserId,
    created_at: int,
    updated_at: int)

  /** An `additional_emails` entry as handed to `Lead.create`: any field may be missing. */
  datatype AdditionalEmailInput = AdditionalEmailInput(
    first_name: Option<string>,
    last_name: Option<string>,
    email: Option<string>,
    designation: Option<string>,
    profile_link: Option<string>,
    is_primary: Option<bool>)

  /** A lead document as handed to `Lead.create`: any field may be missing. */
  datatype LeadInput = LeadInput(
    first_name: Option<string>,
    last_name: Option<string>,
    designation: Option<string>,
    profile_link: Option<string>,
    email: Option<string>,
    person_mobile: Option<string>,
    location: Option<string>,
    company_name: Option<string>,
    company_link: Option<string>,
    job_title: Option<string>,
    job_link: Option<string>,
    additional_emails: Option<seq<AdditionalEmailInput>>,
    source: Option<string>,
    notes: Option<string>,
    assigned_to: Option<UserId>,
    created_by: Option<UserId>)

  /** A failure reported by the database layer: MongoDB's numeric `code` (absent for validation errors) and the message. */
  datatype StoreError = StoreError(code: Option<int>, message: string)

  const DuplicateKeyCode: int := 11000

  /** A `required` string path: present and not empty once trimmed. */
  predicate Present(v: Option<string>) {
    v.Some? && !IsBlank(v.value)
  }

  /** The `trim: true` setter on an optional path. */
  function TrimOpt(v: Option<string>): Option<string> {
    if v.Some? then Some(Trim(v.value)) else None
  }

  predicate TrimmedOpt(v: Option<string>) {
    v.Some? ==> IsTrimmed(v.value)
  }

  predicate RequiredText(s: string) {
    s != [] && IsTrimmed(s)
  }

  /** The stored shape of an `additional_emails` entry. */
  predicate AdditionalEmailWellFormed(a: AdditionalEmail) {
    && RequiredText(a.first_name)
    && RequiredText(a.last_name)
    && RequiredText(a.email) && IsLowerCase(a.email)
    && TrimmedOpt(a.designation) && TrimmedOpt(a.profile_link)
  }

  /** Every stored lead has its required paths, trimmed strings, and a lowercased email and company name. */
  predicate WellFormed(l: Lead) {
    && RequiredText(l.first_name)
    && RequiredText(l.last_name)
    && RequiredText(l.designation)
    && RequiredText(l.email) && IsLowerCase(l.email)
    && RequiredText(l.company_name) && IsLowerCase(l.company_name)
    && TrimmedOpt(l.profile_link) && TrimmedOpt(l.person_mobile) && TrimmedOpt(l.location)
    && TrimmedOpt(l.company_link) && TrimmedOpt(l.job_title) && TrimmedOpt(l.job_link)
    && TrimmedOpt(l.source) && TrimmedOpt(l.notes)
    && (forall k :: 0 <= k < |l.additional_emails| ==> AdditionalEmailWellFormed(l.additional_emails[k]))
  }

  predicate AdditionalEmailComplete(a: AdditionalEmailInput) {
    Present(a.first_name) && Present(a.last_name) && Present(a.email)
  }

  /** The `required` validators, all of them: the document can be stored. */
  predicate Complete(input: LeadInput) {
    && Present(input.first_name) && Present(input.last_name) && Present(input.designation)
    && Present(input.email) && Present(input.company_name)
    && input.assigned_to.Some? && input.created_by.Some?
    && (input.additional_emails.Some? ==>
          forall k :: 0 <= k < |input.additional_emails.value| ==> AdditionalEmailComplete(input.additional_emails.value[k]))
  }

  /** The paths whose `required` validator fails, in schema order. */
  function MissingPaths(input: LeadInput): seq<string> {
    (if Present(input.first_name) then [] else ["first_name"])
    + (if Present(input.last_name) then [] else ["last_name"])
    + (if Present(input.designation) then [] else ["designation"])
    + (if Present(input.email) then [] else ["email"])
    + (if Present(input.company_name) then [] else ["company_name"])
    + MissingInEntries(input.additional_emails.GetOr([]), 0)
    + (if input.assigned_to.Some? then [] else ["assigned_to"])
    + (if input.created_by.Some? then [] else ["created_by"])
  }

  /** The path prefix of entry `i`, as in `additional_emails.0.email`. */
  function EntryPrefix(i: nat): string {
    "additional_emails." + NatToString(i) + "."
  }

  function MissingInEntries(entries: seq<AdditionalEmailInput>, from: nat): seq<string>
  {
    if entries == [] then []
    else
      EntryMissing(entries[0], EntryPrefix(from))
      + MissingInEntries(entries[1..], from + 1)
  }

  /** The missing paths of one `additional_emails` entry, each under `prefix`. */
  function EntryMissing(a: AdditionalEmailInput, prefix: string): (r: seq<string>)
    ensures r == [] <==> AdditionalEmailComplete(a)
  {
    (if Present(a.first_name) then [] else [prefix + "first_name"])
    + (if Present(a.last_name) then [] else [prefix + "last_name"])
    + (if Present(a.email) then [] else [prefix + "email"])
  }

  lemma {:induction false} MissingInEntriesEmpty(entries: seq<AdditionalEmailInput>, from: nat)
    ensures MissingInEntries(entries, from) == [] <==>
      forall k :: 0 <= k < |entries| ==> AdditionalEmailComplete(entries[k])
  {
    if entries != [] {
      var rest := entries[1..];
      var head := EntryMissing(entries[0], EntryPrefix(from));
      MissingInEntriesEmpty(rest, from + 1);
      assert MissingInEntries(entries, from) == head + MissingInEntries(rest, from + 1);
      assert head + MissingInEntries(rest, from + 1) == [] <==> head == [] && MissingInEntries(rest, from + 1) == [];
      if forall k :: 0 <= k < |rest| ==> AdditionalEmailComplete(rest[k]) {
        if AdditionalEmailComplete(entries[0]) {
          forall k | 0 <= k < |entries|
            ensures AdditionalEmailComplete(entries[k])
          {
            if k > 0 {
              assert entries[k] == rest[k - 1];
            }
          }
        }
      } else {
        var k :| 0 <= k < |rest| && !AdditionalEmailComplete(rest[k]);
        assert entries[k + 1] == rest[k];
      }
    }
  }

  /** The validation error lists no path exactly when every `required` validator passes. */
  lemma MissingPathsEmpty(input: LeadInput)
    ensures MissingPaths(input) == [] <==> Complete(input)
  {
    MissingInEntriesEmpty(input.additional_emails.GetOr([]), 0);
  }

  function CastAdditionalEmail(a: AdditionalEmailInput): AdditionalEmail {
    AdditionalEmail(
      Trim(a.first_name.GetOr("")),
      Trim(a.last_name.GetOr("")),
      Trim(Lower(a.email.GetOr(""))),
      TrimOpt(a.designation),
      TrimOpt(a.profile_link),
      a.is_primary.GetOr(false))
  }

  function CastEntries(entries: seq<AdditionalEmailInput>): seq<AdditionalEmail> {
    seq(|entries|, k requires 0 <= k < |entries| => CastAdditionalEmail(entries[k]))
  }

  /** The document after the setters (lowercase, then trim) and the defaults. */
  function Build(input: LeadInput, now: int): Lead
    requires Complete(input)
  {
    Lead(
      Trim(input.first_name.value),
      Trim(input.last_name.value),
      Trim(input.designation.value),
      TrimOpt(input.profile_link),
      Trim(Lower(input.email.value)),
      TrimOpt(input.person_mobile),
      TrimOpt(input.location),
      Trim(Lower(input.company_name.value)),
      TrimOpt(input.company_link),
      TrimOpt(input.job_title),
      TrimOpt(input.job_link),
      CastEntries(input.additional_emails.GetOr([])),
      TrimOpt(input.source),
      TrimOpt(input.notes),
      input.assigned_to.value,
      input.created_by.value,
      now,
      now)
  }

  /**
   * `Lead.create` up to the index check: the setters run, absent arrays and
   * timestamps take their defaults, and the document is refused with a
   * validation error (no error code) that names every missing or blank path.
   */
  function Cast(input: LeadInput, now: int): (r: Result<Lead, StoreError>)
    ensures r.Success? <==> MissingPaths(input) == []
    ensures r.Failure? ==> r.error.code.None?
  {
    MissingPathsEmpty(input);
    if !Complete(input) then
      Failure(StoreError(None, "Lead validation failed: " + Join(MissingPaths(input), ", ")))
    else
      Success(Build(input, now))
  }

  lemma CastPresent(s: string)
    requires !IsBlank(s)
    ensures RequiredText(Trim(s))
  {
  }

  lemma CastPresentLower(s: string)
    requires !IsBlank(s)
    ensures RequiredText(Trim(Lower(s))) && IsLowerCase(Trim(Lower(s)))
    ensures Trim(Lower(s)) == Lower(Trim(s))
  {
    LowerTrimCommute(s);
    LowerIsLowerCase(Trim(s));
  }

  lemma CastOptTrimmed(v: Option<string>)
    ensures TrimmedOpt(TrimOpt(v))
  {
  }

  lemma CastEntryWellFormed(a: AdditionalEmailInput)
    requires AdditionalEmailComplete(a)
    ensures AdditionalEmailWellFormed(CastAdditionalEmail(a))
    ensures CastAdditionalEmail(a).email == Lower(Trim(a.email.value))
  {
    CastPresent(a.first_name.value);
    CastPresent(a.last_name.value);
    CastPresentLower(a.email.value);
    CastOptTrimmed(a.designation);
    CastOptTrimmed(a.profile_link);
  }

  /** What validation leaves behind: a well-formed lead stamped with the creation time. */
  lemma CastWellFormed(input: LeadInput, now: int)
    requires Cast(input, now).Success?
    ensures WellFormed(Cast(input, now).value)
    ensures Cast(input, now).value.created_at == now && Cast(input, now).value.updated_at == now
  {
    MissingPathsEmpty(input);
    var l := Build(input, now);
    CastPresent(input.first_name.value);
    CastPresent(input.last_name.value);
    CastPresent(input.designation.value);
    CastPresentLower(input.email.value);
    CastPresentLower(input.company_name.value);
    CastOptTrimmed(input.profile_link);
    CastOptTrimmed(input.person_mobile);
    CastOptTrimmed(input.location);
    CastOptTrimmed(input.company_link);
    CastOptTrimmed(input.job_title);
    CastOptTrimmed(input.job_link);
    CastOptTrimmed(input.source);
    CastOptTrimmed(input.notes);
    var entries := input.additional_emails.GetOr([]);
    forall k | 0 <= k < |l.additional_emails|
      ensures AdditionalEmailWellFormed(l.additional_emails[k])
    {
      CastEntryWellFormed(entries[k]);
    }
  }

  /** The email and company name are stored lowercased and trimmed. */
  lemma CastNormalizes(input: LeadInput, now: int)
    requires Cast(input, now).Success?
    ensures Cast(input, now).value.email == Lower(Trim(input.email.value))
    ensures Cast(input, now).value.company_name == Lower(Trim(input.company_name.value))
    ensures Cast(input, now).value.job_link == TrimOpt(input.job_link)
  {
    MissingPathsEmpty(input);
    var l := Build(input, now);
    assert l.email == Lower(Trim(input.email.value)) by {
      CastPresentLower(input.email.value);
    }
    assert l.company_name == Lower(Trim(input.company_name.value)) by {
      CastPresentLower(input.company_name.value);
    }
  }

  lemma CastEntriesFacts(entries: seq<AdditionalEmailInput>)
    requires forall k :: 0 <= k < |entries| ==> AdditionalEmailComplete(entries[k])
    ensures |CastEntries(entries)| == |entries|
    ensures forall k :: 0 <= k < |entries| ==>
      && CastEntries(entries)[k].is_primary == entries[k].is_primary.GetOr(false)
      && CastEntries(entries)[k].email == Lower(Trim(entries[k].email.GetOr("")))
  {
    forall k | 0 <= k < |entries|
      ensures CastEntries(entries)[k].email == Lower(Trim(entries[k].email.GetOr("")))
    {
      CastEntryWellFormed(entries[k]);
    }
  }

  /** Every additional email is kept, in order, lowercased and trimmed, with `is_primary` defaulting to false. */
  lemma CastKeepsAdditionalEmails(input: LeadInput, now: int)
    requires Cast(input, now).Success?
    ensures var emails := Cast(input, now).value.additional_emails;
      var entries := input.additional_emails.GetOr([]);
      && |emails| == |entries|
      && forall k :: 0 <= k < |emails| ==>
        && emails[k].is_primary == entries[k].is_primary.GetOr(false)
        && emails[k].email == Lower(Trim(entries[k].email.GetOr("")))
  {
    MissingPathsEmpty(input);
    var entries := input.additional_emails.GetOr([]);
    CastEntriesFacts(entries);
  }

  function AdditionalEmailInputOf(a: AdditionalEmail): AdditionalEmailInput {
    AdditionalEmailInput(Some(a.first_name), Some(a.last_name), Some(a.email), a.designation, a.profile_link, Some(a.is_primary))
  }

  /** The document that describes a stored lead, field for field. */
  function InputOf(l: Lead): LeadInput {
    LeadInput(
      Some(l.first_name), Some(l.last_name), Some(l.designation), l.profile_link,
      Some(l.email), l.person_mobile, l.location, Some(l.company_name), l.company_link,
      l.job_title, l.job_link,
      Some(seq(|l.additional_emails|, k requires 0 <= k < |l.additional_emails| => AdditionalEmailInputOf(l.additional_emails[k]))),
      l.source, l.notes, Some(l.assigned_to), Some(l.created_by))
  }

  lemma TrimOptOfTrimmed(v: Option<string>)
    requires TrimmedOpt(v)
    ensures TrimOpt(v) == v
  {
    if v.Some? { TrimOfTrimmed(v.value); }
  }

  lemma RequiredTextFixed(s: string)
    requires RequiredText(s)
    ensures Trim(s) == s && !IsBlank(s)
  {
    TrimOfTrimmed(s);
  }

  lemma LowerTextFixed(s: string)
    requires RequiredText(s) && IsLowerCase(s)
    ensures Trim(Lower(s)) == s && !IsBlank(s)
  {
    LowerOfLowerCase(s);
    TrimOfTrimmed(s);
  }

  lemma CastEntryOfStored(a: AdditionalEmail)
    requires AdditionalEmailWellFormed(a)
    ensures AdditionalEmailComplete(AdditionalEmailInputOf(a))
    ensures CastAdditionalEmail(AdditionalEmailInputOf(a)) == a
  {
    var input := AdditionalEmailInputOf(a);
    assert Trim(input.first_name.GetOr("")) == a.first_name && !IsBlank(a.first_name) by {
      RequiredTextFixed(a.first_name);
    }
    assert Trim(input.last_name.GetOr("")) == a.last_name && !IsBlank(a.last_name) by {
      RequiredTextFixed(a.last_name);
    }
    assert Trim(Lower(input.email.GetOr(""))) == a.email && !IsBlank(a.email) by {
      LowerTextFixed(a.email);
    }
    assert TrimOpt(input.designation) == a.designation by {
      TrimOptOfTrimmed(a.designation);
    }
    assert TrimOpt(input.profile_link) == a.profile_link by {
      TrimOptOfTrimmed(a.profile_link);
    }
  }

  lemma StoredEntriesCast(l: Lead)
    requires WellFormed(l)
    ensures InputOf(l).additional_emails.Some?
    ensures forall k :: 0 <= k < |InputOf(l).additional_emails.value| ==>
      AdditionalEmailComplete(InputOf(l).additional_emails.value[k])
    ensures CastEntries(InputOf(l).additional_emails.value) == l.additional_emails
  {
    var entries := InputOf(l).additional_emails.value;
    forall k | 0 <= k < |entries|
      ensures AdditionalEmailComplete(entries[k])
      ensures CastAdditionalEmail(entries[k]) == l.additional_emails[k]
    {
      CastEntryOfStored(l.additional_emails[k]);
    }
  }

  lemma StoredRequiredFields(l: Lead)
    requires WellFormed(l)
    ensures Trim(l.first_name) == l.first_name && !IsBlank(l.first_name)
    ensures Trim(l.last_name) == l.last_name && !IsBlank(l.last_name)
    ensures Trim(l.designation) == l.designation && !IsBlank(l.designation)
    ensures Trim(Lower(l.email)) == l.email && !IsBlank(l.email)
    ensures Trim(Lower(l.company_name)) == l.company_name && !IsBlank(l.company_name)
  {
    RequiredTextFixed(l.first_name);
    RequiredTextFixed(l.last_name);
    RequiredTextFixed(l.designation);
    LowerTextFixed(l.email);
    LowerTextFixed(l.company_name);
  }

  lemma StoredOptionalFields(l: Lead)
    requires WellFormed(l)
    ensures TrimOpt(l.profile_link) == l.profile_link && TrimOpt(l.person_mobile) == l.person_mobile
    ensures TrimOpt(l.location) == l.location && TrimOpt(l.company_link) == l.company_link
    ensures TrimOpt(l.job_title) == l.job_title && TrimOpt(l.job_link) == l.job_link
    ensures TrimOpt(l.source) == l.source && TrimOpt(l.notes) == l.notes
  {
    TrimOptOfTrimmed(l.profile_link);
    TrimOptOfTrimmed(l.person_mobile);
    TrimOptOfTrimmed(l.location);
    TrimOptOfTrimmed(l.company_link);
    TrimOptOfTrimmed(l.job_title);
    TrimOptOfTrimmed(l.job_link);
    TrimOptOfTrimmed(l.source);
    TrimOptOfTrimmed(l.notes);
  }

  lemma StoredInputComplete(l: Lead)
    requires WellFormed(l)
    ensures Complete(InputOf(l))
  {
    var entries := InputOf(l).additional_emails.value;
    forall k | 0 <= k < |entries|
      ensures AdditionalEmailComplete(entries[k])
    {
      CastEntryOfStored(l.additional_emails[k]);
    }
    RequiredTextFixed(l.first_name);
    RequiredTextFixed(l.last_name);
    RequiredTextFixed(l.designation);
    RequiredTextFixed(l.email);
    RequiredTextFixed(l.company_name);
  }

  lemma BuildOfStored(l: Lead)
    requires WellFormed(l) && l.created_at == l.updated_at && Complete(InputOf(l))
    ensures Build(InputOf(l), l.created_at) == l
  {
    StoredEntriesCast(l);
    StoredRequiredFields(l);
    StoredOptionalFields(l);
  }

  /** Casting is idempotent: a stored lead, handed back to the schema, comes out unchanged. */
  lemma CastOfStored(l: Lead)
    requires WellFormed(l) && l.created_at == l.updated_at
    ensures Cast(InputOf(l), l.created_at) == Success(l)
  {
    StoredInputComplete(l);
    MissingPathsEmpty(InputOf(l));
    BuildOfStored(l);
  }

  /** The fields of the unique compound index. */
  datatype LeadKey = LeadKey(email: string, company_name: string, job_link: Option<string>)

  function KeyOf(l: Lead): LeadKey {
    LeadKey(l.email, l.company_name, l.job_link)
  }

  predicate HasKey(store: seq<Lead>, key: LeadKey) {
    exists i :: 0 <= i < |store| && KeyOf(store[i]) == key
  }

  /** The invariant of the collection: no two stored leads share (email, company_name, job_link). */
  predicate UniqueKeys(store: seq<Lead>) {
    forall i, j :: 0 <= i < j < |store| ==> KeyOf(store[i]) != KeyOf(store[j])
  }

  predicate StoreWellFormed(store: seq<Lead>) {
    forall i :: 0 <= i < |store| ==> WellFormed(store[i])
  }

  datatype CreateResult = Created(lead: Lead, store: seq<Lead>) | Rejected(error: StoreError)

  /**
   * `Lead.create`: cast and validate, then insert unless the unique index already
   * holds the lead's (email, company_name, job_link); a missing `job_link` is
   * indexed as null, so two leads without one collide too.
   */
  function Create(store: seq<Lead>, input: LeadInput, now: int): (r: CreateResult)
    ensures r.Created? ==> Cast(input, now).Success? && r.lead == Cast(input, now).value && r.store == store + [r.lead]
  {
    match Cast(input, now)
    case Failure(e) => Rejected(e)
    case Success(lead) =>
      if HasKey(store, KeyOf(lead)) then
        Rejected(StoreError(Some(DuplicateKeyCode), "E11000 duplicate key error collection: leads index: email_1_company_name_1_job_link_1 dup key"))
      else
        Created(lead, store + [lead])
  }

  /** An insert succeeds exactly when the document is valid and its index key is new; a taken key is reported with code 11000. */
  lemma CreateOutcome(store: seq<Lead>, input: LeadInput, now: int)
    ensures Create(store, input, now).Created? <==>
      Complete(input) && !HasKey(store, KeyOf(Cast(input, now).value))
    ensures Create(store, input, now).Rejected? && Create(store, input, now).error.code == Some(DuplicateKeyCode) <==>
      Complete(input) && HasKey(store, KeyOf(Cast(input, now).value))
  {
    MissingPathsEmpty(input);
  }

  lemma AppendKeepsUnique(store: seq<Lead>, lead: Lead)
    requires UniqueKeys(store) && !HasKey(store, KeyOf(lead))
    ensures UniqueKeys(store + [lead])
  {
    var s' := store + [lead];
    forall i, j | 0 <= i < j < |s'|
      ensures KeyOf(s'[i]) != KeyOf(s'[j])
    {
      assert s'[i] == store[i];
      if j < |store| {
        assert s'[j] == store[j];
      }
    }
  }

  lemma AppendKeepsWellFormed(store: seq<Lead>, lead: Lead)
    requires StoreWellFormed(store) && WellFormed(lead)
    ensures StoreWellFormed(store + [lead])
  {
    var s' := store + [lead];
    forall i | 0 <= i < |s'|
      ensures WellFormed(s'[i])
    {
      if i < |store| {
        assert s'[i] == store[i];
      }
    }
  }

  /** Inserting keeps the index unique and every stored lead well-formed. */
  lemma CreatePreserves(store: seq<Lead>, input: LeadInput, now: int)
    requires Create(store, input, now).Created?
    ensures UniqueKeys(store) ==> UniqueKeys(Create(store, input, now).store)
    ensures StoreWellFormed(store) ==> StoreWellFormed(Create(store, input, now).store)
  {
    var r := Create(store, input, now);
    var lead := Cast(input, now).value;
    assert !HasKey(store, KeyOf(lead));
    if UniqueKeys(store) {
      AppendKeepsUnique(store, lead);
    }
    if StoreWellFormed(store) {
      CastWellFormed(input, now);
      AppendKeepsWellFormed(store, lead);
    }
  }

  /** `Lead.findOne(query)`: the first stored lead, in collection order, that satisfies `matches`. */
  function FindFirst(store: seq<Lead>, matches: Lead -> bool): (r: Option<nat>)
    ensures r.Some? ==> r.value < |store| && matches(store[r.value])
    ensures r.Some? ==> forall i :: 0 <= i < r.value ==> !matches(store[i])
    ensures r.None? <==> forall i :: 0 <= i < |store| ==> !matches(store[i])
  {
    if store == [] then None
    else if matches(store[0]) then Some(0)
    else
      var rest := FindFirst(store[1..], matches);
      if rest.Some? then Some(rest.value + 1) else None
  }

  /** `Lead.find(query)`: the stored leads that satisfy `matches`, in collection order. */
  function Select(store: seq<Lead>, matches: Lead -> bool): (r: seq<Lead>)
    ensures |r| <= |store|
    ensures forall l :: l in r <==> l in store && matches(l)
  {
    if store == [] then []
    else (if matches(store[0]) then [store[0]] else []) + Select(store[1..], matches)
  }

  /** Every matching lead is kept as many times as it is stored, and no other lead is kept. */
  lemma {:induction false} SelectCounts(store: seq<Lead>, matches: Lead -> bool)
    ensures forall l :: multiset(Select(store, matches))[l] == if matches(l) then multiset(store)[l] else 0
  {
    if store != [] {
      SelectCounts(store[1..], matches);
      assert store == [store[0]] + store[1..];
    }
  }

  /** Selecting from two parts one after the other is selecting from the whole: the matches keep their collection order. */
  lemma {:induction false} SelectAppend(a: seq<Lead>, b: seq<Lead>, matches: Lead -> bool)
    ensures Select(a + b, matches) == Select(a, matches) + Select(b, matches)
  {
    if a == [] {
      assert a + b == b;
    } else {
      assert (a + b)[0] == a[0];
      assert (a + b)[1..] == a[1..] + b;
      SelectAppend(a[1..], b, matches);
    }
  }

  /**
   * An equality condition on `email` or `company_name` in `findOne` or `find`:
   * Mongoose casts the value through the path's setters (lowercase, then trim)
   * before the query runs, as it does for a value being stored.
   */
  function QueryValue(v: string): (r: string)
    ensures r == Trim(Lower(v))
  {
    LowerTrimCommute(v);
    Lower(Trim(v))
  }

  /** Letter case and surrounding whitespace in a query value do not change what it matches. */
  lemma QueryValueIgnoresPadding(p: string, v: string, q: string)
    requires AllSpace(p) && AllSpace(q)
    ensures QueryValue(p + v + q) == QueryValue(v)
    ensures QueryValue(Lower(v)) == QueryValue(v)
  {
    TrimPadded(p, v, q);
    LowerTrimCommute(v);
    LowerTrimCommute(Lower(v));
    LowerIsLowerCase(v);
  }

  /** Two queries that agree on every lead select the same leads. */
  lemma {:induction false} SelectSame(store: seq<Lead>, p: Lead -> bool, q: Lead -> bool)
    requires forall l :: p(l) == q(l)
    ensures Select(store, p) == Select(store, q)
  {
    if store != [] {
      SelectSame(store[1..], p, q);
    }
  }
}
