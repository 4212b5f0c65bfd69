/**
 * The per-row loop of the lead import script: validate the parsed row, normalise
 * it into a lead document, insert it, and account for the outcome as created,
 * skipped (validation or duplicate) or errors (any other failure).
 */
module ImportPipeline {
  import opened Wrappers
  import opened Text
  import opened CsvReader
  import opened LeadSchema
  import opened SkipReport

  /** The first blank required field decides the reason; first name, email, company name and designation are checked in that order. */
  function Validate(row: CsvRow): Option<string> {
    if IsBlank(row.firstName) then Some("Missing first name")
    else if IsBlank(row.email) then Some("Missing email")
    else if IsBlank(row.companyName) then Some("Missing company name")
    else if IsBlank(row.designation) then Some("Missing designation")
    else None
  }

  /** `(x || '').trim() || undefined`. */
  function OrUndefined(s: string): (r: Option<string>)
    ensures r.None? <==> IsBlank(s)
    ensures r.Some? ==> r.value == Trim(s)
  {
    if Trim(s) == "" then None else Some(Trim(s))
  }

  const Placeholder: string := "N/A"
  const ImportSource: string := "CSV Import"

  /** The lead document built from a validated row; `user` stands for the default user. */
  function NormalizeRow(row: CsvRow, user: UserId): LeadInput {
    LeadInput(
      Some(Trim(row.firstName)),
      Some(if Trim(row.lastName) == "" then Placeholder else Trim(row.lastName)),
      Some(Trim(row.designation)),
      OrUndefined(row.profileLink),
      Some(Lower(Trim(row.email))),
      None,
      OrUndefined(row.location),
      Some(Lower(Trim(row.companyName))),
      OrUndefined(row.companyLink),
      OrUndefined(row.jobTitle),
      OrUndefined(row.jobLink),
      None,
      Some(ImportSource),
      None,
      Some(user),
      Some(user))
  }

  /** A duplicate-key failure: code 11000, or a message that mentions "duplicate". */
  predicate IsDuplicate(e: StoreError) {
    e.code == Some(DuplicateKeyCode) || Contains(e.message, "duplicate")
  }

  function DuplicateReason(row: CsvRow): string {
    "Duplicate lead (" + row.email + " at " + row.companyName + ")"
  }

  /** What the environment does on one row: the clock reading, and a failure the database throws instead of inserting, if any. */
  datatype RowEnv = RowEnv(now: int, fault: Option<StoreError>)

  /** The counters and lists the loop updates, and the lead collection. */
  datatype ImportState = ImportState(
    store: seq<Lead>,
    created: nat,
    skipped: nat,
    errors: nat,
    skippedLeads: seq<SkippedLead>)

  /** `Lead.create` as the import sees it: the injected fault, if any, else the insert. */
  function Attempt(store: seq<Lead>, input: LeadInput, env: RowEnv): (r: CreateResult)
    ensures r.Created? ==> env.fault.None? && r.store == store + [r.lead]
  {
    if env.fault.Some? then Rejected(env.fault.value) else Create(store, input, env.now)
  }

  /** The row is counted as skipped and reported with `reason`. */
  function Skip(st: ImportState, row: CsvRow, reason: string, rowNumber: nat): ImportState {
    st.(skipped := st.skipped + 1, skippedLeads := st.skippedLeads + [SkippedLead(row, reason, rowNumber)])
  }

  /** How the loop accounts for the outcome of `Lead.create` on a validated row. */
  function Record(st: ImportState, row: CsvRow, rowNumber: nat, outcome: CreateResult): ImportState {
    match outcome
    case Created(_, store') =>
      st.(store := store', created := st.created + 1)
    case Rejected(e) =>
      if IsDuplicate(e) then Skip(st, row, DuplicateReason(row), rowNumber)
      else st.(errors := st.errors + 1, skippedLeads := st.skippedLeads + [SkippedLead(row, "Error: " + e.message, rowNumber)])
  }

  /** One iteration of the loop. */
  function StepRow(st: ImportState, row: CsvRow, rowNumber: nat, user: UserId, env: RowEnv): ImportState {
    match Validate(row)
    case Some(reason) => Skip(st, row, reason, rowNumber)
    case None => Record(st, row, rowNumber, Attempt(st.store, NormalizeRow(row, user), env))
  }

  /** The state after the loop has processed `rows`; the row at index i carries row number i + 2. */
  function RunImport(st: ImportState, rows: seq<CsvRow>, user: UserId, envs: seq<RowEnv>): ImportState
    requires |envs| == |rows|
  {
    if rows == [] then st
    else
      var n := |rows| - 1;
      StepRow(RunImport(st, rows[..n], user, envs[..n]), rows[n], n + 2, user, envs[n])
  }

  function Start(store: seq<Lead>): ImportState {
    ImportState(store, 0, 0, 0, [])
  }

  lemma RunImportSnoc(st: ImportState, rows: seq<CsvRow>, user: UserId, envs: seq<RowEnv>, i: nat)
    requires |envs| == |rows| && i < |rows|
    ensures RunImport(st, rows[..i + 1], user, envs[..i + 1])
         == StepRow(RunImport(st, rows[..i], user, envs[..i]), rows[i], i + 2, user, envs[i])
  {
    assert rows[..i + 1][..i] == rows[..i] && envs[..i + 1][..i] == envs[..i];
  }

  /** Processing row i after the first i rows gives the state after the first i + 1 rows. */
  lemma RunImportStep(st: ImportState, rows: seq<CsvRow>, user: UserId, envs: seq<RowEnv>, i: nat, cur: ImportState, next: ImportState)
    requires |envs| == |rows| && i < |rows|
    requires cur == RunImport(st, rows[..i], user, envs[..i])
    requires next == StepRow(cur, rows[i], i + 2, user, envs[i])
    ensures next == RunImport(st, rows[..i + 1], user, envs[..i + 1])
  {
    RunImportSnoc(st, rows, user, envs, i);
  }

  lemma RunImportAll(st: ImportState, rows: seq<CsvRow>, user: UserId, envs: seq<RowEnv>)
    requires |envs| == |rows|
    ensures RunImport(st, rows[..|rows|], user, envs[..|envs|]) == RunImport(st, rows, user, envs)
  {
    assert rows[..|rows|] == rows && envs[..|envs|] == envs;
  }

  /** The body of the loop for one row: validate, build the document, insert, count the outcome. */
  method ProcessRow(st: ImportState, row: CsvRow, rowNumber: nat, user: UserId, env: RowEnv) returns (next: ImportState)
    ensures next == StepRow(st, row, rowNumber, user, env)
  {
    var reason := Validate(row);
    if reason.Some? {
      next := Skip(st, row, reason.value, rowNumber);
    } else {
      var leadData := NormalizeRow(row, user);
      var outcome := Attempt(st.store, leadData, env);
      next := RecordOutcome(st, row, rowNumber, outcome);
    }
  }

  method RecordOutcome(st: ImportState, row: CsvRow, rowNumber: nat, outcome: CreateResult) returns (next: ImportState)
    ensures next == Record(st, row, rowNumber, outcome)
  {
    var leads, created, skipped, errors, skippedLeads := st.store, st.created, st.skipped, st.errors, st.skippedLeads;
    if outcome.Created? {
      leads := outcome.store;
      created := created + 1;
    } else if IsDuplicate(outcome.error) {
      skippedLeads := skippedLeads + [SkippedLead(row, DuplicateReason(row), rowNumber)];
      skipped := skipped + 1;
    } else {
      errors := errors + 1;
      skippedLeads := skippedLeads + [SkippedLead(row, "Error: " + outcome.error.message, rowNumber)];
    }
    next := ImportState(leads, created, skipped, errors, skippedLeads);
  }

  /** The `importLeads` loop over the parsed rows, starting from the collection `store`. */
  method ImportLeads(store: seq<Lead>, rows: seq<CsvRow>, user: UserId, envs: seq<RowEnv>) returns (st: ImportState)
    requires |envs| == |rows|
    ensures st == RunImport(Start(store), rows, user, envs)
  {
    st := Start(store);
    for i := 0 to |rows|
      invariant st == RunImport(Start(store), rows[..i], user, envs[..i])
    {
      var next := ProcessRow(st, rows[i], i + 2, user, envs[i]);
      RunImportStep(Start(store), rows, user, envs, i, st, next);
      st := next;
    }
    RunImportAll(Start(store), rows, user, envs);
  }

  /* Validation against the schema. */

  lemma PresentTrimmed(s: string)
    ensures Present(Some(Trim(s))) <==> !IsBlank(s)
  {
    TrimIdempotent(s);
  }

  lemma PresentLowered(s: string)
    ensures Present(Some(Lower(Trim(s)))) <==> !IsBlank(s)
  {
    TrimOfLowerTrimmed(s);
  }

  lemma LastNamePresent(s: string)
    ensures Present(Some(if Trim(s) == "" then Placeholder else Trim(s)))
  {
    var t := Trim(s);
    if t == "" {
      assert !IsSpace(Placeholder[0]);
    } else {
      assert !IsSpace(t[0]);
    }
  }

  /**
   * The four checks of the loop are exactly the schema's `required` validators on
   * the normalised document: a row passes them if and only if `Lead.create` cannot
   * fail validation (the last name is never missing, it falls back to "N/A").
   */
  lemma ValidateMatchesSchema(row: CsvRow, user: UserId)
    ensures Validate(row).None? <==> Complete(NormalizeRow(row, user))
  {
    var input := NormalizeRow(row, user);
    assert Present(input.first_name) <==> !IsBlank(row.firstName) by { PresentTrimmed(row.firstName); }
    assert Present(input.last_name) by { LastNamePresent(row.lastName); }
    assert Present(input.designation) <==> !IsBlank(row.designation) by { PresentTrimmed(row.designation); }
    assert Present(input.email) <==> !IsBlank(row.email) by { PresentLowered(row.email); }
    assert Present(input.company_name) <==> !IsBlank(row.companyName) by { PresentLowered(row.companyName); }
  }

  /** The (email, company_name, job_link) triple the unique index sees for a row. */
  function RowKey(row: CsvRow): LeadKey {
    LeadKey(Lower(Trim(row.email)), Lower(Trim(row.companyName)), OrUndefined(row.jobLink))
  }

  lemma NormalizedKey(row: CsvRow, user: UserId, now: int)
    requires Validate(row).None?
    ensures Cast(NormalizeRow(row, user), now).Success?
    ensures KeyOf(Cast(NormalizeRow(row, user), now).value) == RowKey(row)
  {
    var input := NormalizeRow(row, user);
    ValidateMatchesSchema(row, user);
    MissingPathsEmpty(input);
    CastNormalizes(input, now);
    var l := Cast(input, now).value;
    assert l.email == Lower(Trim(row.email)) by {
      assert input.email == Some(Lower(Trim(row.email)));
      TrimOfLowerTrimmed(row.email);
      LowerIsLowerCase(Trim(row.email));
    }
    assert l.company_name == Lower(Trim(row.companyName)) by {
      assert input.company_name == Some(Lower(Trim(row.companyName)));
      TrimOfLowerTrimmed(row.companyName);
      LowerIsLowerCase(Trim(row.companyName));
    }
    assert l.job_link == OrUndefined(row.jobLink) by {
      assert input.job_link == OrUndefined(row.jobLink);
      TrimIdempotent(row.jobLink);
    }
  }

  /** How an insert or a duplicate-key refusal is accounted for. */
  lemma RecordOfCreate(st: ImportState, row: CsvRow, rowNumber: nat, outcome: CreateResult)
    ensures outcome.Created? ==>
      Record(st, row, rowNumber, outcome) == st.(store := outcome.store, created := st.created + 1)
    ensures outcome.Rejected? && outcome.error.code == Some(DuplicateKeyCode) ==>
      Record(st, row, rowNumber, outcome) == Skip(st, row, DuplicateReason(row), rowNumber)
  {
  }

  /** A complete document is inserted when its triple is new and skipped as a duplicate otherwise. */
  lemma RecordOfInsert(st: ImportState, row: CsvRow, rowNumber: nat, input: LeadInput, now: int)
    requires Complete(input)
    ensures !HasKey(st.store, KeyOf(Cast(input, now).value)) ==>
      Record(st, row, rowNumber, Create(st.store, input, now))
        == st.(store := st.store + [Cast(input, now).value], created := st.created + 1)
    ensures HasKey(st.store, KeyOf(Cast(input, now).value)) ==>
      Record(st, row, rowNumber, Create(st.store, input, now)) == Skip(st, row, DuplicateReason(row), rowNumber)
  {
    CreateOutcome(st.store, input, now);
    RecordOfCreate(st, row, rowNumber, Create(st.store, input, now));
  }

  /**
   * A valid row with no database fault is inserted exactly when its triple is not
   * stored yet; otherwise it is skipped as a duplicate.
   */
  lemma StepOfValidRow(st: ImportState, row: CsvRow, rowNumber: nat, user: UserId, env: RowEnv)
    requires Validate(row).None? && env.fault.None?
    ensures !HasKey(st.store, RowKey(row)) ==>
      Cast(NormalizeRow(row, user), env.now).Success? &&
      StepRow(st, row, rowNumber, user, env)
        == st.(store := st.store + [Cast(NormalizeRow(row, user), env.now).value], created := st.created + 1)
    ensures HasKey(st.store, RowKey(row)) ==>
      StepRow(st, row, rowNumber, user, env) == Skip(st, row, DuplicateReason(row), rowNumber)
  {
    var input := NormalizeRow(row, user);
    assert StepRow(st, row, rowNumber, user, env) == Record(st, row, rowNumber, Create(st.store, input, env.now)) by {
      assert Attempt(st.store, input, env) == Create(st.store, input, env.now);
    }
    ValidateMatchesSchema(row, user);
    NormalizedKey(row, user, env.now);
    RecordOfInsert(st, row, rowNumber, input, env.now);
  }

  /* Accounting. */

  /** From `st` to `s` one row was accounted for: exactly one counter moved, and a report entry for the row was added unless its lead was created. */
  predicate Counted(st: ImportState, s: ImportState, row: CsvRow, rowNumber: nat) {
    && s.created + s.skipped + s.errors == st.created + st.skipped + st.errors + 1
    && (s.created - st.created) + (|s.skippedLeads| - |st.skippedLeads|) == 1
    && |s.skippedLeads| - |st.skippedLeads| == (s.skipped - st.skipped) + (s.errors - st.errors)
    && st.store <= s.store && |s.store| - |st.store| == s.created - st.created
    && st.skippedLeads <= s.skippedLeads
    && (|s.skippedLeads| > |st.skippedLeads| ==>
          s.skippedLeads[|st.skippedLeads|].row == row && s.skippedLeads[|st.skippedLeads|].rowNumber == rowNumber)
  }

  lemma SkipCounts(st: ImportState, row: CsvRow, reason: string, rowNumber: nat)
    ensures Counted(st, Skip(st, row, reason, rowNumber), row, rowNumber)
  {
  }

  lemma RecordCounts(st: ImportState, row: CsvRow, rowNumber: nat, outcome: CreateResult)
    requires outcome.Created? ==> outcome.store == st.store + [outcome.lead]
    ensures Counted(st, Record(st, row, rowNumber, outcome), row, rowNumber)
  {
  }

  lemma StepCounts(st: ImportState, row: CsvRow, rowNumber: nat, user: UserId, env: RowEnv)
    ensures Counted(st, StepRow(st, row, rowNumber, user, env), row, rowNumber)
  {
    var reason := Validate(row);
    if reason.Some? {
      SkipCounts(st, row, reason.value, rowNumber);
    } else {
      RecordCounts(st, row, rowNumber, Attempt(st.store, NormalizeRow(row, user), env));
    }
  }

  lemma {:induction false} RunImportCounts(st: ImportState, rows: seq<CsvRow>, user: UserId, envs: seq<RowEnv>)
    requires |envs| == |rows|
    ensures var r := RunImport(st, rows, user, envs);
      && r.created + r.skipped + r.errors == st.created + st.skipped + st.errors + |rows|
      && |r.skippedLeads| - |st.skippedLeads| == (r.skipped - st.skipped) + (r.errors - st.errors)
      && st.store <= r.store && |r.store| - |st.store| == r.created - st.created
      && st.skippedLeads <= r.skippedLeads
  {
    if rows != [] {
      var n := |rows| - 1;
      RunImportCounts(st, rows[..n], user, envs[..n]);
      StepCounts(RunImport(st, rows[..n], user, envs[..n]), rows[n], n + 2, user, envs[n]);
    }
  }

  /**
   * The import summary adds up: every row is created, skipped or an error; the
   * report holds one entry per skipped or failed row; the collection grows by
   * the created leads and keeps what it held.
   */
  lemma ImportAccounting(store: seq<Lead>, rows: seq<CsvRow>, user: UserId, envs: seq<RowEnv>)
    requires |envs| == |rows|
    ensures var r := RunImport(Start(store), rows, user, envs);
      && r.created + r.skipped + r.errors == |rows|
      && |r.skippedLeads| == r.skipped + r.errors
      && |r.store| == |store| + r.created
      && store <= r.store
  {
    RunImportCounts(Start(store), rows, user, envs);
  }

  /* The report entries. */

  /** Report entries name their row: numbers are increasing, between 2 and |rows| + 1, and point back at the row they copy. */
  predicate Traced(skipped: seq<SkippedLead>, rows: seq<CsvRow>) {
    && (forall k :: 0 <= k < |skipped| ==>
          2 <= skipped[k].rowNumber <= |rows| + 1 && skipped[k].row == rows[skipped[k].rowNumber - 2])
    && (forall j, k :: 0 <= j < k < |skipped| ==> skipped[j].rowNumber < skipped[k].rowNumber)
  }

  lemma TracedStep(prev: ImportState, next: ImportState, rows: seq<CsvRow>)
    requires rows != []
    requires Traced(prev.skippedLeads, rows[..|rows| - 1])
    requires Counted(prev, next, rows[|rows| - 1], |rows| + 1)
    ensures Traced(next.skippedLeads, rows)
  {
    var n := |rows| - 1;
    forall k | 0 <= k < |prev.skippedLeads|
      ensures prev.skippedLeads[k].row == rows[prev.skippedLeads[k].rowNumber - 2]
    {
      assert rows[..n][prev.skippedLeads[k].rowNumber - 2] == rows[prev.skippedLeads[k].rowNumber - 2];
    }
  }

  lemma {:induction false} SkippedRowsTraced(store: seq<Lead>, rows: seq<CsvRow>, user: UserId, envs: seq<RowEnv>)
    requires |envs| == |rows|
    ensures Traced(RunImport(Start(store), rows, user, envs).skippedLeads, rows)
  {
    if rows != [] {
      var n := |rows| - 1;
      var prev := RunImport(Start(store), rows[..n], user, envs[..n]);
      SkippedRowsTraced(store, rows[..n], user, envs[..n]);
      StepCounts(prev, rows[n], n + 2, user, envs[n]);
      TracedStep(prev, RunImport(Start(store), rows, user, envs), rows);
    }
  }

  /* The collection. */

  lemma RecordStore(st: ImportState, row: CsvRow, rowNumber: nat, outcome: CreateResult)
    ensures Record(st, row, rowNumber, outcome).store == if outcome.Created? then outcome.store else st.store
    ensures Record(st, row, rowNumber, outcome).created == if outcome.Created? then st.created + 1 else st.created
  {
  }

  lemma AttemptPreserves(store: seq<Lead>, input: LeadInput, env: RowEnv)
    ensures Attempt(store, input, env).Created? && UniqueKeys(store) ==> UniqueKeys(Attempt(store, input, env).store)
    ensures Attempt(store, input, env).Created? && StoreWellFormed(store) ==> StoreWellFormed(Attempt(store, input, env).store)
  {
    if Attempt(store, input, env).Created? {
      CreatePreserves(store, input, env.now);
    }
  }

  lemma StepPreserves(st: ImportState, row: CsvRow, rowNumber: nat, user: UserId, env: RowEnv)
    ensures UniqueKeys(st.store) ==> UniqueKeys(StepRow(st, row, rowNumber, user, env).store)
    ensures StoreWellFormed(st.store) ==> StoreWellFormed(StepRow(st, row, rowNumber, user, env).store)
  {
    if Validate(row).None? {
      var input := NormalizeRow(row, user);
      RecordStore(st, row, rowNumber, Attempt(st.store, input, env));
      AttemptPreserves(st.store, input, env);
    }
  }

  /** The import keeps the unique index's invariant and stores only well-formed leads. */
  lemma {:induction false} ImportPreserves(st: ImportState, rows: seq<CsvRow>, user: UserId, envs: seq<RowEnv>)
    requires |envs| == |rows|
    ensures UniqueKeys(st.store) ==> UniqueKeys(RunImport(st, rows, user, envs).store)
    ensures StoreWellFormed(st.store) ==> StoreWellFormed(RunImport(st, rows, user, envs).store)
  {
    if rows != [] {
      var n := |rows| - 1;
      ImportPreserves(st, rows[..n], user, envs[..n]);
      StepPreserves(RunImport(st, rows[..n], user, envs[..n]), rows[n], n + 2, user, envs[n]);
    }
  }

  /* Without database faults. */

  predicate NoFaults(envs: seq<RowEnv>) {
    forall k :: 0 <= k < |envs| ==> envs[k].fault.None?
  }

  lemma StepWithoutFault(st: ImportState, row: CsvRow, rowNumber: nat, user: UserId, env: RowEnv)
    requires env.fault.None?
    ensures StepRow(st, row, rowNumber, user, env).errors == st.errors
    ensures Validate(row).None? ==> HasKey(StepRow(st, row, rowNumber, user, env).store, RowKey(row))
  {
    if Validate(row).None? {
      StepOfValidRow(st, row, rowNumber, user, env);
      var s := StepRow(st, row, rowNumber, user, env);
      if !HasKey(st.store, RowKey(row)) {
        NormalizedKey(row, user, env.now);
        assert KeyOf(s.store[|st.store|]) == RowKey(row);
      }
    }
  }

  lemma HasKeyGrows(store: seq<Lead>, store': seq<Lead>, key: LeadKey)
    requires store <= store' && HasKey(store, key)
    ensures HasKey(store', key)
  {
    var i :| 0 <= i < |store| && KeyOf(store[i]) == key;
    assert store'[i] == store[i];
  }

  predicate IsValid(row: CsvRow) {
    Validate(row).None?
  }

  /** Every row among `rows` that `valid` accepts has its `key` in `store`. */
  predicate Covers(store: seq<Lead>, rows: seq<CsvRow>, valid: CsvRow -> bool, key: CsvRow -> LeadKey) {
    forall k :: 0 <= k < |rows| && valid(rows[k]) ==> HasKey(store, key(rows[k]))
  }

  lemma CoversStep(prev: seq<Lead>, next: seq<Lead>, rows: seq<CsvRow>, valid: CsvRow -> bool, key: CsvRow -> LeadKey)
    requires rows != [] && Covers(prev, rows[..|rows| - 1], valid, key) && prev <= next
    requires valid(rows[|rows| - 1]) ==> HasKey(next, key(rows[|rows| - 1]))
    ensures Covers(next, rows, valid, key)
  {
    var n := |rows| - 1;
    forall k | 0 <= k < n && valid(rows[k])
      ensures HasKey(next, key(rows[k]))
    {
      assert rows[..n][k] == rows[k];
      HasKeyGrows(prev, next, key(rows[k]));
    }
  }

  lemma CoversPrefix(store: seq<Lead>, rows: seq<CsvRow>, n: nat, valid: CsvRow -> bool, key: CsvRow -> LeadKey)
    requires n <= |rows| && Covers(store, rows, valid, key)
    ensures Covers(store, rows[..n], valid, key)
  {
    forall k | 0 <= k < n && valid(rows[..n][k])
      ensures HasKey(store, key(rows[..n][k]))
    {
      assert rows[..n][k] == rows[k];
    }
  }

  /**
   * With no database faults nothing ends up under "Error:", and every row that
   * passes validation has its triple in the collection afterwards, whether it was
   * created now or was already there.
   */
  lemma {:induction false} ImportWithoutFaults(st: ImportState, rows: seq<CsvRow>, user: UserId, envs: seq<RowEnv>)
    requires |envs| == |rows| && NoFaults(envs)
    ensures RunImport(st, rows, user, envs).errors == st.errors
    ensures Covers(RunImport(st, rows, user, envs).store, rows, IsValid, RowKey)
  {
    if rows != [] {
      var n := |rows| - 1;
      var prev := RunImport(st, rows[..n], user, envs[..n]);
      ImportWithoutFaults(st, rows[..n], user, envs[..n]);
      StepWithoutFault(prev, rows[n], n + 2, user, envs[n]);
      StepCounts(prev, rows[n], n + 2, user, envs[n]);
      CoversStep(prev.store, RunImport(st, rows, user, envs).store, rows, IsValid, RowKey);
    }
  }

  /** Rows whose triples are all stored already create nothing and leave the collection as it was. */
  /** A row whose triple is stored already (or that fails validation) leaves the collection and the created count as they were. */
  lemma StepOfStoredRow(st: ImportState, row: CsvRow, rowNumber: nat, user: UserId, env: RowEnv)
    requires IsValid(row) ==> HasKey(st.store, RowKey(row))
    ensures StepRow(st, row, rowNumber, user, env).store == st.store
    ensures StepRow(st, row, rowNumber, user, env).created == st.created
  {
    if Validate(row).None? {
      if env.fault.None? {
        StepOfValidRow(st, row, rowNumber, user, env);
      } else {
        RecordStore(st, row, rowNumber, Attempt(st.store, NormalizeRow(row, user), env));
      }
    }
  }

  lemma {:induction false} ImportOfStoredRows(st: ImportState, rows: seq<CsvRow>, user: UserId, envs: seq<RowEnv>)
    requires |envs| == |rows|
    requires Covers(st.store, rows, IsValid, RowKey)
    ensures RunImport(st, rows, user, envs).created == st.created
    ensures RunImport(st, rows, user, envs).store == st.store
  {
    if rows != [] {
      var n := |rows| - 1;
      CoversPrefix(st.store, rows, n, IsValid, RowKey);
      ImportOfStoredRows(st, rows[..n], user, envs[..n]);
      StepOfStoredRow(RunImport(st, rows[..n], user, envs[..n]), rows[n], n + 2, user, envs[n]);
    }
  }

  /**
   * Running the script a second time on the same file, after a run without
   * database faults, creates no lead: every valid row is now a duplicate. When the
   * second run has no database fault either, every row is counted as skipped.
   */
  lemma ReimportCreatesNothing(store: seq<Lead>, rows: seq<CsvRow>, user: UserId, envs: seq<RowEnv>, envs': seq<RowEnv>)
    requires |envs| == |rows| && |envs'| == |rows| && NoFaults(envs)
    ensures var first := RunImport(Start(store), rows, user, envs);
      var second := RunImport(Start(first.store), rows, user, envs');
      && second.created == 0 && second.store == first.store
      && (NoFaults(envs') ==> second.skipped == |rows| && second.errors == 0)
  {
    var first := RunImport(Start(store), rows, user, envs);
    ImportWithoutFaults(Start(store), rows, user, envs);
    ImportOfStoredRows(Start(first.store), rows, user, envs');
    ImportAccounting(first.store, rows, user, envs');
    if NoFaults(envs') {
      ImportWithoutFaults(Start(first.store), rows, user, envs');
    }
  }
}
