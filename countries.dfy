/**
 * The countries offered for a lead's location: `GET /api/countries` lists every
 * stored country ordered by name, `POST /api/countries` adds one. The `Country`
 * model trims `name`, requires it, and keeps it unique with an index.
 */
module Countries {
  import opened Wrappers
  import opened Text
  import opened Sorting

  /** The error code MongoDB gives a unique-index violation. */
  const DuplicateKey := 11000

  datatype PostReply =
    | NameRequired
    | AlreadyExists
    | CountryCreated(name: string)
    | ServerError

  function StatusOf(r: PostReply): (status: int)
    ensures status == 201 <==> r.CountryCreated?
    ensures status == 500 <==> r.ServerError?
  {
    match r
    case NameRequired => 400
    case AlreadyExists => 400
    case CountryCreated(_) => 201
    case ServerError => 500
  }

  /** The `error` text of a refused request; a created country carries none. */
  function ErrorOf(r: PostReply): (e: Option<string>)
    ensures e.None? <==> r.CountryCreated?
  {
    match r
    case NameRequired => Some("Country name is required")
    case AlreadyExists => Some("Country already exists")
    case CountryCreated(_) => None
    case ServerError => Some("Internal server error")
  }

  /** What the collection holds: names trimmed and non-empty (the schema), each once (the index). */
  predicate Registered(names: seq<string>) {
    && NoRepeats(names)
    && forall i :: 0 <= i < |names| ==> names[i] != [] && IsTrimmed(names[i])
  }

  /**
   * POST on the stored names. `createError` is the code of the error
   * `Country.create` throws, if it throws: `DuplicateKey` when another request
   * stored the same name since the look-up, anything else for other failures.
   */
  function AddCountry(names: seq<string>, name: Option<string>, createError: Option<int>): (PostReply, seq<string>) {
    if name.None? || IsBlank(name.value) then (NameRequired, names)
    else
      var n := Trim(name.value);
      if n in names then (AlreadyExists, names)
      else if createError == Some(DuplicateKey) then (AlreadyExists, names)
      else if createError.Some? then (ServerError, names)
      else (CountryCreated(n), names + [n])
  }

  /**
   * A country is added exactly when the name is given and not blank, its trimmed
   * form is not stored yet and the insert succeeds; then the trimmed name is
   * appended. Every other answer leaves the names as they were.
   */
  lemma AddCountryOutcome(names: seq<string>, name: Option<string>, createError: Option<int>)
    ensures var (reply, names') := AddCountry(names, name, createError);
      && (reply.CountryCreated? <==>
            name.Some? && !IsBlank(name.value) && Trim(name.value) !in names && createError.None?)
      && (reply.CountryCreated? ==> reply.name == Trim(name.value) && names' == names + [reply.name])
      && (!reply.CountryCreated? ==> names' == names)
      && (reply == NameRequired <==> name.None? || IsBlank(name.value))
      && (reply == ServerError <==>
            name.Some? && !IsBlank(name.value) && Trim(name.value) !in names
            && createError.Some? && createError != Some(DuplicateKey))
  {
  }

  /** POST keeps the names trimmed, non-empty and unique. */
  lemma AddCountryKeepsRegistered(names: seq<string>, name: Option<string>, createError: Option<int>)
    requires Registered(names)
    ensures Registered(AddCountry(names, name, createError).1)
  {
    var added := AddCountry(names, name, createError).1;
    if name.Some? && !IsBlank(name.value) && Trim(name.value) !in names && createError.None? {
      var n := Trim(name.value);
      assert added == names + [n];
      AppendKeepsRegistered(names, n);
    } else {
      assert added == names;
    }
  }

  lemma AppendKeepsRegistered(names: seq<string>, n: string)
    requires Registered(names) && n != [] && IsTrimmed(n) && n !in names
    ensures Registered(names + [n])
  {
    var names' := names + [n];
    forall i, j | 0 <= i < j < |names'|
      ensures names'[i] != names'[j]
    {
      if j == |names| {
        assert names'[i] == names[i];
      }
    }
  }

  /** Adding a name twice, or a name differing only by surrounding whitespace, is refused the second time. */
  lemma AddCountryTwice(names: seq<string>, a: string, b: string, err: Option<int>)
    requires AddCountry(names, Some(a), None).0.CountryCreated?
    requires Trim(a) == Trim(b)
    ensures AddCountry(AddCountry(names, Some(a), None).1, Some(b), err) == (AlreadyExists, names + [Trim(a)])
  {
  }

  /** `find({}).sort({ name: 1 })`, names only. */
  function Listing(names: seq<string>): seq<string> {
    SortAsc(names, Identity)
  }

  /** The listing holds every stored name once, in ascending order, and is the only list that does. */
  lemma ListingFacts(names: seq<string>, other: seq<string>)
    requires Registered(names)
    ensures StrictlyAscending(Listing(names))
    ensures forall n :: n in Listing(names) <==> n in names
    ensures StrictlyAscending(other) && (forall n :: n in other <==> n in names) ==> other == Listing(names)
  {
    SortNoRepeats(names);
    if StrictlyAscending(other) && (forall n :: n in other <==> n in names) {
      StrictlyAscendingUnique(other, Listing(names));
    }
  }

  /** The `countries` collection, as the route handlers see it. */
  class CountryCollection {
    var names: seq<string>

    constructor ()
      ensures names == []
    {
      names := [];
    }

    /** `POST /api/countries`. */
    method Post(name: Option<string>, createError: Option<int>) returns (reply: PostReply, status: int)
      modifies this
      ensures (reply, names) == AddCountry(old(names), name, createError)
      ensures status == StatusOf(reply)
    {
      if name.None? || IsBlank(name.value) {
        reply := NameRequired;
      } else {
        var n := Trim(name.value);
        if n in names {
          reply := AlreadyExists;
        } else if createError == Some(DuplicateKey) {
          reply := AlreadyExists;
        } else if createError.Some? {
          reply := ServerError;
        } else {
          names := names + [n];
          reply := CountryCreated(n);
        }
      }
      status := StatusOf(reply);
    }

    /** `GET /api/countries`: every stored name, ascending. */
    method List() returns (r: seq<string>)
      ensures multiset(r) == multiset(names)
      ensures AscendingBy(r, Identity)
    {
      r := Listing(names);
    }
  }
}
