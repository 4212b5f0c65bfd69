# Leads hub: a verified model of its core

This project models, in Dafny, the core logic of a small lead-management
application (a Next.js front end over a MongoDB `Lead` collection) and proves
properties of that model. It covers:

- the CSV import script: splitting the file into lines, the header-to-field
  mapping, the quote-toggling line scanner, the fixed-order row validation,
  normalisation into a lead document, insertion into the store under the
  unique (email, company, job link) index, the created / skipped / errors
  accounting, and the content of the skipped-leads report with its RFC 4180
  (section 2, rules 6 and 7) field quoting;
- the `Lead` schema: required fields, trimming and lowercasing setters,
  defaults, the shape of `additional_emails` and the unique compound index;
- the leads API: the POST duplicate pre-check and normalisation, and the GET
  role scoping, filters, inclusive date range, sort mapping and pagination
  arithmetic; the filter-options route, the company lookup and the country
  registry;
- the client pages: grouping, counting, top-N and last-N in the reports and
  analytics pages, the admin leads CSV export and `clearFilters`, the
  create-lead form (validation, location joining, editing the list of
  additional emails), the admin users page's local list updates and modal
  resets, and the admin dashboard's stats, relative times and activity merge.

Pure code is modelled as datatypes, functions and lemmas. Code that updates
state step by step is imperative Dafny: the import loop and the CSV scanner
are methods with loop invariants proved against specification functions;
the leads collection, the country collection and the page components that
hold state are classes whose methods state their whole new state.

Everything the application takes from outside becomes a parameter: the
clock (`now`, times in milliseconds), calendar and date formatting
(`calendar`, `isoDate`, month and day keys given as strings), database
faults (`RowEnv`, `createError`, `ok`), the default import user
(`user`, standing for `getOrCreateDefaultUser`), the answer to a
confirmation dialog (`confirmed`) and the logged-in role and user id.

Three behaviours of the import script that the model keeps as the code has
them:

- the header mapping is last-wins: when several columns match a field, the
  last one is used;
- the line scanner drops every quote character rather than keeping it, so a
  field written by the report's escaping reads back only when it holds no
  quote;
- a store error that is not a duplicate is counted under errors and its row
  is still listed in the report, but not counted as skipped.

Modules: `Wrappers` (Option and Result), `Text` (trim, ASCII lowercase,
substring search, split and join, decimal digits), `Sorting` and `Counting`
(stable sorts, take and last-N, tallies in first-seen order), one module per
modelled source file (`Rfc4180` and `CsvReader` for the import script's CSV
code, `ImportPipeline`, `SkipReport`, `LeadSchema`, `LeadsRoute`,
`FilterOptions`, `CompanyCheck`, `Countries`, `Reports`, `Analytics`,
`AdminLeads`, `CreateLead`, `UsersPage`, `Dashboard`).

## Model

A function that defines an operation (`LeadsRoute.Post`, `LeadsRoute.Get`, `Reports.LeadsByUser`, `Counting.GroupCounts`, `CsvReader.RawFields`, `ImportPipeline.RunImport` and the like) has no row of its own when it carries no contract: the rows of the lemmas about it, which cite the same source lines, stand for it.

| member | source | states |
|---|---|---|
| Text.Trim | scripts/importLeads.ts:28 | `trim()`: the result has no whitespace at either end, is no longer than the input, and is empty if and only if the input is whitespace only |
| Text.TrimIsMiddle | scripts/importLeads.ts:28 | `trim()` keeps a contiguous middle slice of the input and removes only whitespace on either side of it |
| Text.TrimPadded | models/Lead.ts:8 | whitespace added around a value does not change its trimmed form |
| Text.TrimChars | scripts/importLeads.ts:28 | trimming only removes characters |
| Text.TrimOfTrimmed | models/Lead.ts:8 | a value with no surrounding whitespace is left alone by the `trim` setter |
| Text.TrimIdempotent | models/Lead.ts:8 | trimming twice is trimming once |
| Text.Lower | models/Lead.ts:29 | `toLowerCase` (ASCII): same length, each character lowercased |
| Text.LowerIsLowerCase | models/Lead.ts:29 | the result is lower case, and lowercasing again changes nothing |
| Text.LowerOfLowerCase | models/Lead.ts:29 | a lower-case value is left alone by the `lowercase` setter |
| Text.LowerTrimCommute | models/Lead.ts:29-30 | lowercasing and trimming commute, so the order of the two setters does not matter |
| Text.TrimOfLowerTrimmed | scripts/importLeads.ts:246-248 | a value already trimmed and lowercased is a fixed point of the schema's `lowercase` and `trim` setters |
| Text.ContainsAt | scripts/importLeads.ts:40 | `includes` holds when the text occurs at some position |
| Text.ContainsChar | scripts/importLeads.ts:129 | `includes` of a single character holds if and only if the character occurs |
| Text.Split | scripts/importLeads.ts:28 | `split('\n')` gives at least one piece and no piece holds the separator |
| Text.JoinSplit | scripts/importLeads.ts:28 | joining the pieces of a split with the separator gives the text back |
| Text.SplitJoin | scripts/importLeads.ts:171-174 | splitting a join of separator-free pieces gives the pieces back |
| Text.LinesSplitBack | scripts/importLeads.ts:171-174 | a header line followed by line-break-free row lines, joined by `'\n'`, splits back into those lines |
| Text.JoinFree | scripts/importLeads.ts:173 | a character absent from the pieces and the separator is absent from the join |
| Text.JoinSnoc | scripts/importLeads.ts:173 | `join` of one more piece adds the separator and the piece |
| Text.NatToString | scripts/importLeads.ts:157 | `rowNumber.toString()` is a non-empty string of decimal digits |
| Text.NatToStringRoundTrip | scripts/importLeads.ts:157 | the decimal value of the rendering is the number |
| Text.NatToStringInjective | scripts/importLeads.ts:157 | different row numbers render differently |
| Rfc4180.DoubleQuotes | scripts/importLeads.ts:130 | `replace(/"/g, '""')` never shortens a field |
| Rfc4180.UndoubleDoubleQuotes | scripts/importLeads.ts:130 | reading a doubled-quote text back under rule 7 of section 2 of RFC 4180 gives the original text |
| Rfc4180.QuotedRoundTrip | scripts/importLeads.ts:129-130 | a field wrapped in quotes with its quotes doubled reads back unchanged under RFC 4180 |
| Rfc4180.UndoubleQuoteFree | app/admin/leads/page.tsx:232 | a quote-free text inside enclosing quotes reads back as itself |
| Rfc4180.UndoubleNotIdentity | app/admin/leads/page.tsx:232 | a text holding a quote never reads back as itself once enclosed in quotes |
| Rfc4180.NaiveQuotedReadBack | app/admin/leads/page.tsx:232 | wrapping in quotes without doubling reads back if and only if the field holds no quote |
| CsvReader.TrimAll | scripts/importLeads.ts:69-75 | every value is trimmed, one for one |
| CsvReader.ScanLine | scripts/importLeads.ts:59-75 | the character loop over one line returns exactly the trimmed values of the scanner function `RawFields` |
| CsvReader.ScanPrefixSnoc | scripts/importLeads.ts:63-74 | one more character is one more step of the loop |
| CsvReader.ScanPrefixFacts | scripts/importLeads.ts:63-74 | after any prefix: in quotes if and only if an odd number of quotes was seen; one pushed value per unquoted comma; values joined by commas are the text minus its quotes; no value holds a quote |
| CsvReader.FieldCount | scripts/importLeads.ts:63-75 | a line yields one more value than it has commas outside quotes |
| CsvReader.ScannerDropsQuotes | scripts/importLeads.ts:66-67 | quote characters are never copied into a value: joining the values with commas gives the line without its quotes |
| CsvReader.ScanPrefixIsRun | scripts/importLeads.ts:63-74 | scanning from the start state is the resumable scanner `Run` from the initial state |
| CsvReader.RunAppend | scripts/importLeads.ts:63-74 | scanning a concatenation resumes from the state the first part leaves |
| CsvReader.FirstNamedFacts | scripts/importLeads.ts:40-49 | the `else if` chain picks the first test that matches, and picks none exactly when no test matches |
| CsvReader.FieldOfColumnFirstMatch | scripts/importLeads.ts:38-49 | each header column, lowercased and trimmed, binds to at most one field: the first in the order first name … city/location whose name it contains |
| CsvReader.EveryFieldTested | scripts/importLeads.ts:40-49 | each of the ten fields has a test in the chain |
| CsvReader.BuildHeaderMap | scripts/importLeads.ts:36-50 | the `forEach` over the header builds exactly the map the function `HeaderMapOf` gives |
| CsvReader.MapOfLastWins | scripts/importLeads.ts:38-50 | for any binding rule, a field is mapped if and only if some column binds to it, and then to the last such column |
| CsvReader.HeaderMapLastWins | scripts/importLeads.ts:38-50 | several columns naming the same field: the last one wins; a field no column names stays unmapped |
| CsvReader.Cell | scripts/importLeads.ts:79-88 | a cell reads as empty for an unmapped field or a missing value, the mapped value otherwise |
| CsvReader.RowOf | scripts/importLeads.ts:78-89 | every field of the row is the cell its header mapping selects |
| CsvReader.LineRowsAt | scripts/importLeads.ts:55-89 | the data line at index k gives the k-th candidate row |
| CsvReader.LineRowsLength | scripts/importLeads.ts:55-89 | one candidate row per data line |
| CsvReader.NonEmpty | scripts/importLeads.ts:28 | the kept lines are non-empty lines of the input |
| CsvReader.ParseRows | scripts/importLeads.ts:55-96 | the data-line loop returns exactly the rows with data, in line order (`RowsOf`) |
| CsvReader.ParseCsv | scripts/importLeads.ts:26-98 | fails with the "at least a header and one data row" error if and only if fewer than two non-blank lines remain; otherwise returns the rows of the data lines mapped through the header line |
| CsvReader.KeepDataSnoc | scripts/importLeads.ts:91-95 | a row is appended after the kept rows exactly when it has data |
| CsvReader.KeepDataFacts | scripts/importLeads.ts:91-95 | every kept row has data and comes from the input; no more rows than lines |
| CsvReader.KeepDataComplete | scripts/importLeads.ts:91-95 | every row with data is kept |
| CsvReader.KeepDataAppend | scripts/importLeads.ts:55-96 | the filter keeps line order across concatenation |
| CsvReader.RowsOfLine | scripts/importLeads.ts:91-95 | a data line yields a row if and only if one of its mapped fields is not blank |
| CsvReader.TrimKeepsQuoteFree | scripts/importLeads.ts:69-75 | trimming a quote-free value leaves it quote-free and trimmed |
| CsvReader.ValuesClean | scripts/importLeads.ts:59-75 | every scanned value is trimmed and holds no quote |
| CsvReader.RowOfClean | scripts/importLeads.ts:78-89 | a row built from clean values has only clean fields |
| CsvReader.LineRowClean | scripts/importLeads.ts:59-89 | every field of a parsed row is trimmed and holds no quote character |
| LeadSchema.EntryMissing | models/Lead.ts:64-80 | an `additional_emails` entry lists no missing path if and only if its first name, last name and email are all present and not blank |
| LeadSchema.MissingInEntriesEmpty | models/Lead.ts:64-93 | the entries list no missing path if and only if every entry has its three required fields |
| LeadSchema.MissingPathsEmpty | models/Lead.ts:5-115 | the validation error names no path if and only if every `required` validator passes |
| LeadSchema.Cast | models/Lead.ts:3-126 | the document is accepted if and only if no required path is missing or blank; a refusal is a validation error, which carries no error code |
| LeadSchema.CastPresent | models/Lead.ts:5-9 | a required string that is not blank is stored non-empty and trimmed |
| LeadSchema.CastPresentLower | models/Lead.ts:26-31 | a required lowercased path is stored non-empty, trimmed and lower case, whichever setter runs first |
| LeadSchema.CastOptTrimmed | models/Lead.ts:20-23 | an optional path is stored trimmed or absent |
| LeadSchema.CastEntryWellFormed | models/Lead.ts:64-93 | a complete entry is stored with its names trimmed and its email trimmed and lowercased |
| LeadSchema.CastWellFormed | models/Lead.ts:3-126 | an accepted document is a well-formed lead (required paths present, strings trimmed, email and company name lowercased) stamped `created_at == updated_at ==` the creation time |
| LeadSchema.CastNormalizes | models/Lead.ts:26-61 | email and company name are stored lowercased and trimmed, `job_link` trimmed |
| LeadSchema.CastEntriesFacts | models/Lead.ts:64-93 | every entry is kept, in order, its email lowercased and trimmed, `is_primary` defaulting to false |
| LeadSchema.CastKeepsAdditionalEmails | models/Lead.ts:64-93 | the stored lead keeps every additional email, in order, lowercased and trimmed, with `is_primary` false unless given |
| LeadSchema.TrimOptOfTrimmed | models/Lead.ts:20-23 | the `trim` setter leaves a trimmed optional value alone |
| LeadSchema.RequiredTextFixed | models/Lead.ts:5-9 | a stored required value passes its setter and validator unchanged |
| LeadSchema.LowerTextFixed | models/Lead.ts:26-31 | a stored lowercased value passes its setters and validator unchanged |
| LeadSchema.CastEntryOfStored | models/Lead.ts:64-93 | a stored entry handed back to the schema comes out unchanged |
| LeadSchema.StoredEntriesCast | models/Lead.ts:64-93 | the stored entries handed back are complete and cast to themselves |
| LeadSchema.StoredRequiredFields | models/Lead.ts:5-47 | the required paths of a stored lead are fixed points of their setters and not blank |
| LeadSchema.StoredOptionalFields | models/Lead.ts:20-103 | the optional paths of a stored lead are fixed points of the `trim` setter |
| LeadSchema.StoredInputComplete | models/Lead.ts:5-115 | a stored lead handed back passes every `required` validator |
| LeadSchema.BuildOfStored | models/Lead.ts:3-126 | the setters and defaults rebuild a stored lead from its own fields |
| LeadSchema.CastOfStored | models/Lead.ts:3-126 | casting is idempotent: a stored lead handed back to the schema comes out unchanged |
| LeadSchema.Create | models/Lead.ts:129 | an insert that succeeds appends exactly the cast document to the collection |
| LeadSchema.CreateOutcome | models/Lead.ts:129 | an insert succeeds if and only if the document is valid and its (email, company_name, job_link) is not stored yet; it fails with code 11000 if and only if the document is valid and the triple is taken |
| LeadSchema.AppendKeepsUnique | models/Lead.ts:129 | appending a lead with a new key keeps the keys unique |
| LeadSchema.AppendKeepsWellFormed | models/Lead.ts:3-126 | appending a well-formed lead keeps the collection well-formed |
| LeadSchema.CreatePreserves | models/Lead.ts:129 | a successful insert keeps the unique index invariant and every stored lead well-formed |
| LeadSchema.FindFirst | app/api/leads/route.ts:29-32 | `findOne`: the first matching lead in collection order, and none exactly when no lead matches |
| LeadSchema.Select | app/api/leads/filters/route.ts:20 | `find`: exactly the matching leads, no more than stored |
| LeadSchema.SelectCounts | app/api/leads/filters/route.ts:20 | `find` keeps each matching lead as many times as it is stored and no other lead |
| LeadSchema.SelectAppend | app/api/leads/filters/route.ts:20 | `find` keeps collection order: the selection of a concatenation is the concatenation of the selections |
| LeadSchema.QueryValue | models/Lead.ts:25-30 | an equality filter value on `email` or `company_name` is cast through the path's setters, so the query looks up the lowercased, trimmed value |
| LeadSchema.QueryValueIgnoresPadding | models/Lead.ts:25-30 | the cast query value ignores surrounding whitespace and case |
| LeadSchema.SelectSame | app/api/leads/route.ts:155-159 | two queries that agree on every lead select the same leads |
| ImportPipeline.OrUndefined | scripts/importLeads.ts:241-255 | an optional cell becomes absent exactly when it is blank, and its trimmed text otherwise |
| ImportPipeline.Attempt | scripts/importLeads.ts:259 | `Lead.create` as the loop sees it: a lead is created only when the database raises no fault, and it is appended to the collection |
| ImportPipeline.ProcessRow | scripts/importLeads.ts:203-278 | one pass of the loop body computes the specified step: validation, the document, the insert and its accounting |
| ImportPipeline.RecordOutcome | scripts/importLeads.ts:259-278 | a created lead counts as created; a code-11000 or "duplicate" failure as skipped with the duplicate reason; anything else as an error reported under "Error: " and its message |
| ImportPipeline.ImportLeads | scripts/importLeads.ts:202-279 | the loop over the parsed rows ends in the state the step function gives for all rows, numbering row i as i + 2 |
| ImportPipeline.RunImportSnoc | scripts/importLeads.ts:202-204 | the state after i + 1 rows is one step from the state after i rows, with row number i + 2 |
| ImportPipeline.RunImportStep | scripts/importLeads.ts:202-204 | the loop invariant is kept by one iteration |
| ImportPipeline.RunImportAll | scripts/importLeads.ts:202 | after the last iteration the invariant describes the whole run |
| ImportPipeline.PresentTrimmed | scripts/importLeads.ts:208-214 | a trimmed required cell passes the schema's `required` check exactly when the raw cell is not blank |
| ImportPipeline.PresentLowered | scripts/importLeads.ts:216-222 | the trimmed, lowercased email or company name passes `required` exactly when the raw cell is not blank |
| ImportPipeline.LastNamePresent | scripts/importLeads.ts:243 | the last name is never missing: a blank one becomes "N/A" |
| ImportPipeline.ValidateMatchesSchema | scripts/importLeads.ts:208-238 | a row passes the loop's four checks if and only if its document passes every `required` validator of the schema |
| ImportPipeline.NormalizedKey | scripts/importLeads.ts:241-255 | a valid row's document is accepted by the schema and stored under (lowercased trimmed email, lowercased trimmed company, trimmed job link or none) |
| ImportPipeline.RecordOfCreate | scripts/importLeads.ts:259-268 | a created lead increments `created` and stores the new collection; a code-11000 refusal is skipped with the duplicate reason |
| ImportPipeline.RecordOfInsert | scripts/importLeads.ts:259-268 | a complete document is inserted when its triple is new and skipped as a duplicate otherwise |
| ImportPipeline.StepOfValidRow | scripts/importLeads.ts:241-268 | without a database fault, a valid row is appended when its triple is new and reported as "Duplicate lead (email at company)" otherwise |
| ImportPipeline.SkipCounts | scripts/importLeads.ts:210-213 | a skipped row moves exactly one counter and adds its own report entry |
| ImportPipeline.RecordCounts | scripts/importLeads.ts:259-278 | every outcome of the insert moves exactly one counter; only a failure adds a report entry |
| ImportPipeline.StepCounts | scripts/importLeads.ts:203-278 | one iteration accounts for its row exactly once |
| ImportPipeline.RunImportCounts | scripts/importLeads.ts:202-279 | over any prefix, the counters grow by the number of rows, the report by skipped plus errors, the collection by the created leads |
| ImportPipeline.ImportAccounting | scripts/importLeads.ts:202-286 | the summary adds up: created + skipped + errors is the number of rows, the report has one entry per skipped or failed row, the collection grows by exactly the created leads and keeps what it held |
| ImportPipeline.TracedStep | scripts/importLeads.ts:204-211 | one iteration keeps the report entries pointing back at their rows with increasing row numbers |
| ImportPipeline.SkippedRowsTraced | scripts/importLeads.ts:204-276 | every report entry carries a row number between 2 and the number of rows + 1, copies the row it names, and entries are in increasing row order |
| ImportPipeline.RecordStore | scripts/importLeads.ts:259-278 | only a created lead changes the collection and the created counter |
| ImportPipeline.AttemptPreserves | models/Lead.ts:129 | a successful insert keeps the keys unique and the leads well-formed |
| ImportPipeline.StepPreserves | scripts/importLeads.ts:203-278 | one iteration keeps the unique index invariant and the well-formedness of the collection |
| ImportPipeline.ImportPreserves | scripts/importLeads.ts:202-279 | the whole import keeps the unique index invariant and stores only well-formed leads |
| ImportPipeline.StepWithoutFault | scripts/importLeads.ts:241-278 | without a database fault an iteration adds no error, and a valid row's triple is stored afterwards |
| ImportPipeline.HasKeyGrows | models/Lead.ts:129 | a key stored in a collection stays stored in any extension of it |
| ImportPipeline.CoversStep | scripts/importLeads.ts:202-279 | if every valid earlier row is stored and the new row's triple is stored, every valid row so far is stored |
| ImportPipeline.CoversPrefix | scripts/importLeads.ts:202 | coverage of all rows implies coverage of any prefix |
| ImportPipeline.ImportWithoutFaults | scripts/importLeads.ts:202-279 | with no database fault no row ends up under "Error:", and every valid row's triple is in the collection afterwards |
| ImportPipeline.StepOfStoredRow | scripts/importLeads.ts:208-268 | a row that is invalid or whose triple is stored already leaves the collection and the created count unchanged |
| ImportPipeline.ImportOfStoredRows | scripts/importLeads.ts:202-279 | rows whose triples are all stored create nothing and leave the collection as it was |
| ImportPipeline.ReimportCreatesNothing | scripts/importLeads.ts:202-279 | importing the same file a second time, after a run without database faults, creates no lead and leaves the collection unchanged; without faults in the second run either, every row is counted as skipped |
| SkipReport.NeedsQuotingIff | scripts/importLeads.ts:128 | a field is quoted if and only if it holds a comma, a quote or a newline |
| SkipReport.EscapeFieldRfc | scripts/importLeads.ts:126-133 | every field, escaped, reads back unchanged under RFC 4180 |
| SkipReport.DoubleQuotesOfQuoteFree | scripts/importLeads.ts:129 | doubling quotes leaves quote-free text unchanged |
| SkipReport.RunPlain | scripts/importLeads.ts:63-74 | the import scanner copies text with no quote (and no comma outside quotes) into the current value |
| SkipReport.RunEscaped | scripts/importLeads.ts:126-133 | the import scanner reads an escaped quote-free field back as the field itself |
| SkipReport.DropQuotesQuoteFree | scripts/importLeads.ts:66-67 | what the scanner keeps of any text holds no quote |
| SkipReport.ScanEscapedQuoteFree | scripts/importLeads.ts:126-133 | an escaped quote-free field scans to exactly that one field |
| SkipReport.ScanEscapedDropsQuotes | scripts/importLeads.ts:126-133 | whatever the field, the scanner reads its escaped form back without quotes |
| SkipReport.TrimOneTrimmed | scripts/importLeads.ts:72-75 | trimming a single trimmed field leaves it as it is |
| SkipReport.TrimOneQuoteFree | scripts/importLeads.ts:72-75 | a single field trimmed from quote-free text is quote-free |
| SkipReport.EscapeScanRoundTrip | scripts/importLeads.ts:126-133 | a trimmed field, escaped and read back by the import script's own line scanner, comes back unchanged if and only if it holds no quote |
| SkipReport.EscapeAll | scripts/importLeads.ts:156-169 | each cell is escaped in place, in order |
| SkipReport.RunJoined | scripts/importLeads.ts:63-75 | pieces that each scan to one field, joined with commas, scan to those fields in order |
| SkipReport.ShiftHead | scripts/importLeads.ts:68-70 | completing the first field and then the rest gives the completed fields in order |
| SkipReport.RunJoinedHead | scripts/importLeads.ts:68-70 | a comma after the first piece completes the first field and starts the next |
| SkipReport.RunEscapedLine | scripts/importLeads.ts:126-133 | a line of escaped quote-free fields scans to those fields, the last one still open |
| SkipReport.EscapedLineRoundTrip | scripts/importLeads.ts:156-171 | a line of escaped quote-free fields reads back as those fields one for one |
| SkipReport.RawFieldsOfRun | scripts/importLeads.ts:63-75 | a line whose scan ends with the given fields, the last open, splits into exactly those fields |
| SkipReport.Cells | scripts/importLeads.ts:141-169 | a report line has one cell per header column |
| SkipReport.ReportLines | scripts/importLeads.ts:156-169 | one line per skipped row, in the order the rows were skipped |
| SkipReport.ReportContent | scripts/importLeads.ts:136-174 | no file is written if and only if no row was skipped |
| SkipReport.DigitsNeedNoQuoting | scripts/importLeads.ts:157 | the row number cell is digits: it needs no escaping and holds no quote or newline |
| SkipReport.ReportLineEscapesAll | scripts/importLeads.ts:156-169 | a report line is its cells escaped and joined with commas, the row number included |
| SkipReport.ReportLineRoundTrip | scripts/importLeads.ts:156-169 | a report line whose cells hold no quote reads back through the import scanner as its twelve cells in order |
| SkipReport.DoubleQuotesKeeps | scripts/importLeads.ts:129 | doubling quotes introduces no character other than quotes |
| SkipReport.EscapeKeepsNewlines | scripts/importLeads.ts:126-133 | escaping introduces no newline |
| SkipReport.ReportLineSingle | scripts/importLeads.ts:156-169 | a line whose cells hold no newline is a single line of the file |
| SkipReport.HeaderSingleLine | scripts/importLeads.ts:141-154 | the header is a single line |
| SkipReport.ReportLinesInOrder | scripts/importLeads.ts:171-174 | when no cell holds a newline, the file splits into the header followed by one line per skipped row, in order |
| LeadsRoute.PostDocument | app/api/leads/route.ts:43-60 | the document handed to `Lead.create` is the body with email and company name lowercased and `additional_emails` defaulting to the empty list, every other field passed through |
| LeadsRoute.Insert | app/api/leads/route.ts:43-68 | the insert either creates a lead or answers 500 with the collection unchanged |
| LeadsRoute.StoredEmailOfDocument | app/api/leads/route.ts:48-51 | the lead stored from the body keeps its email and company trimmed and lowercased |
| LeadsRoute.InsertOutcome | app/api/leads/route.ts:43-68 | the insert answers 201 if and only if the document passes the schema and its unique-index key is new, appending the stored lead; otherwise 500 with the collection unchanged |
| LeadsRoute.KeyImpliesEmailCompany | app/api/leads/route.ts:29-60 | a stored lead sharing the document's index key also shares its trimmed, lowercased email and company |
| LeadsRoute.DecideOutcome | app/api/leads/route.ts:35-60 | 400 exactly when the pre-check finds a lead; 201 exactly when it finds none and the document is complete; only 201 changes the collection |
| LeadsRoute.PostOutcome | app/api/leads/route.ts:5-70 | 400 exactly when a lead with the body's email and company, trimmed and lowercased, is stored; 201 exactly when none is and the document passes the schema; 500 otherwise, leaving the collection unchanged |
| LeadsRoute.LookupValues | app/api/leads/route.ts:29-33 | the duplicate pre-check looks up the trimmed, lowercased email and company once the schema has cast `toLowerCase()` of each |
| LeadsRoute.PostIgnoresPadding | app/api/leads/route.ts:29-40 | whitespace around the email or the company does not change whether the POST is refused as a duplicate |
| LeadsRoute.PostCreatedLead | app/api/leads/route.ts:43-62 | a created lead is appended, well-formed, under the lowercased trimmed email and company, with as many additional emails as were sent |
| LeadsRoute.EmailCompanyUniqueIsStricter | app/api/leads/route.ts:29-40 | unique (email, company) pairs imply unique (email, company, job_link) index keys |
| LeadsRoute.PostKeepsEmailCompanyUnique | app/api/leads/route.ts:29-40 | behind the duplicate pre-check no two stored leads ever share an email and a company |
| LeadsRoute.AppendKeepsEmailCompanyUnique | app/api/leads/route.ts:29-40 | appending a lead whose email and company are not stored keeps the pairs unique |
| LeadsRoute.PostNeverHitsIndex | app/api/leads/route.ts:63-68 | behind the pre-check the unique index never fires: a 500 comes only from a missing email or company or an incomplete document |
| LeadsRoute.PostDocumentComplete | app/api/leads/route.ts:43-60 | a body whose required fields are all non-blank passes the schema once the handler has lowercased it |
| LeadsRoute.NewKeyByJobLink | models/Lead.ts:129 | a document with a job link never shares its index key with stored leads that have none |
| LeadsRoute.PaddedEmailIsRefused | app/api/leads/route.ts:29-40 | " a@x.io" at "x" next to a stored "a@x.io" at "x" is refused with 400, although the unique index alone would accept it when it has a job link |
| LeadsRoute.EndOfDayBound | app/api/leads/route.ts:140-145 | a time is at or before the end of the day of `dateTo` exactly when it falls on that day or an earlier one |
| LeadsRoute.BuildFilter | app/api/leads/route.ts:86-146 | the filter built from the parameters matches a lead if and only if the query wants it: owner scope, search over five fields, company, location, designation, admin `assignedTo`, source and the date range |
| LeadsRoute.AddContains | app/api/leads/route.ts:102-118 | company, location and designation each set a case-insensitive "contains" condition exactly when given |
| LeadsRoute.AddDateRange | app/api/leads/route.ts:132-146 | `dateFrom` sets the lower bound as given and `dateTo` the upper bound at the end of its day |
| LeadsRoute.FilterMeansWanted | app/api/leads/route.ts:86-146 | the conditions the handler leaves in the filter match exactly the wanted leads |
| LeadsRoute.SortOption | app/api/leads/route.ts:149-152 | the sort is on `created_at` unless `sortBy` is given, and descending (-1) exactly when `sortOrder` is absent or "desc", ascending (1) otherwise |
| LeadsRoute.TotalPagesIsCeiling | app/api/leads/route.ts:164 | with a positive limit the page count is the ceiling of total over limit: enough pages for every lead and no empty page |
| LeadsRoute.HasNextIffMoreLeads | app/api/leads/route.ts:175 | with a positive limit `hasNext` holds exactly when some matching lead lies beyond the current page |
| LeadsRoute.Window | app/api/leads/route.ts:159-160 | the page is a contiguous slice of the sorted matches starting at `skip`, at most the limit long, and as long as the limit allows |
| LeadsRoute.GetDefaults | app/api/leads/route.ts:79-83 | without paging parameters the page is 1, the limit 10 and the skip 0 |
| LeadsRoute.GetListsWanted | app/api/leads/route.ts:155-177 | a GET answers a page exactly when the skip is not negative; the page lists only stored, wanted leads, at most the limit of them, and both totals count every wanted lead |
| LeadsRoute.NonAdminSeesOwnLeads | app/api/leads/route.ts:88-90 | a non-admin only ever sees leads assigned to their own user id, whatever `assignedTo` says |
| LeadsRoute.AdminAssignedToScopes | app/api/leads/route.ts:120-124 | an admin's `assignedTo` narrows the other filters to exactly that user's leads |
| LeadsRoute.DateRangeInclusive | app/api/leads/route.ts:135-146 | a lead inside the range was created no later than the day of `dateTo` |
| LeadsRoute.GetHasNext | app/api/leads/route.ts:164-175 | on a positive limit the reply's `hasNext` holds exactly when the next page would not start past the last match |
| LeadsRoute.LeadCollection.constructor | app/api/leads/route.ts:1-3 | the route starts from the collection given |
| LeadsRoute.LeadCollection.HandlePost | app/api/leads/route.ts:5-70 | one POST looks up the cast email and company, then inserts: it answers and updates the collection as the handler function `Post` does, with status 400, 201 or 500 |
| LeadsRoute.LeadCollection.HandleGet | app/api/leads/route.ts:72-186 | one GET builds the filter, counts and pages the matches, and answers as the handler function `Get` does |
| FilterOptions.Values | app/api/leads/filters/route.ts:20-37 | the values a field takes on the leads in scope: a value is listed if and only if some lead in scope carries it |
| FilterOptions.DistinctSorted | app/api/leads/filters/route.ts:40-43 | `distinct` then `.sort()`: exactly the values given, each once, in ascending code-point order |
| FilterOptions.CompaniesInScope | app/api/leads/filters/route.ts:20 | a company is offered if and only if some lead in scope has it |
| FilterOptions.DesignationsInScope | app/api/leads/filters/route.ts:29 | a designation is offered if and only if some lead in scope has it |
| FilterOptions.LocationsInScope | app/api/leads/filters/route.ts:23-26 | a location is offered if and only if it is not empty and some lead in scope has it |
| FilterOptions.SourcesInScope | app/api/leads/filters/route.ts:33-36 | a source is offered if and only if it is not empty and some lead in scope has it |
| FilterOptions.OptionsAreScopedValues | app/api/leads/filters/route.ts:5-44 | each of the four lists holds exactly the non-excluded values of the leads in scope, once each and ascending; sources only for an admin |
| FilterOptions.NonAdminOptions | app/api/leads/filters/route.ts:15-37 | a non-admin's options all come from leads assigned to them, and they get no sources |
| CompanyCheck.StatusOf | app/api/leads/company/route.ts:12-26 | the answer is 400 exactly when the name is required |
| CompanyCheck.Check | app/api/leads/company/route.ts:5-27 | a missing or empty name is refused; otherwise `exists` holds exactly when a company is returned, looked up by the name as the schema casts it (lowercased and trimmed) |
| CompanyCheck.CheckFindsCompany | app/api/leads/company/route.ts:19-26 | a given name is found exactly when some stored lead carries its trimmed lowercase form, and the reply is the first such lead's name and link |
| CompanyCheck.CheckIgnoresCase | app/api/leads/company/route.ts:20 | two names with the same lowercase form get the same answer |
| CompanyCheck.CheckIgnoresPadding | app/api/leads/company/route.ts:19-21 | surrounding whitespace does not change the answer: the query value is cast through the `trim` setter |
| CompanyCheck.LookupValue | app/api/leads/company/route.ts:19-21 | `companyName.toLowerCase()` cast through the schema's setters is the trimmed lowercase name |
| CompanyCheck.LookupFinds | app/api/leads/company/route.ts:19-21 | `findOne` on `company_name` finds a lead exactly when one carries that name, and then the first in collection order |
| Countries.StatusOf | app/api/countries/route.ts:21-66 | 201 exactly for a created country, 500 exactly for a server error, 400 for the rest |
| Countries.ErrorOf | app/api/countries/route.ts:28-64 | every refused request carries an error text and a created country none |
| Countries.AddCountryOutcome | app/api/countries/route.ts:21-66 | a country is added exactly when the name is given and not blank, its trimmed form is not stored and the insert succeeds, and then the trimmed name is appended; 400 "required" exactly for a missing or blank name; 500 exactly for an insert failure other than code 11000; any refusal leaves the names unchanged |
| Countries.AddCountryKeepsRegistered | models/Country.ts:10-15 | a POST keeps the stored names trimmed, non-empty and unique |
| Countries.AppendKeepsRegistered | models/Country.ts:10-15 | appending a new trimmed non-empty name keeps the names registered |
| Countries.AddCountryTwice | app/api/countries/route.ts:35-45 | a name added once, or any name with the same trimmed form, is refused the second time as already existing |
| Countries.ListingFacts | app/api/countries/route.ts:9 | the listing holds every stored name once, in strictly ascending order, and is the only list that does |
| Countries.CountryCollection.constructor | models/Country.ts:26 | the collection starts empty |
| Countries.CountryCollection.Post | app/api/countries/route.ts:21-66 | one POST answers and updates the names as the specified handler does, with the status the reply calls for |
| Countries.CountryCollection.List | app/api/countries/route.ts:5-19 | GET answers a permutation of the stored names in ascending order |
| Sorting.StrLeTotal | app/admin/reports/page.tsx:117 | the code-point order used for `sort()` and `localeCompare` on the report keys compares any two strings |
| Sorting.StrLeTransitive | app/admin/reports/page.tsx:117 | the code-point order is transitive |
| Sorting.StrLeAntisymmetric | app/admin/reports/page.tsx:117 | the code-point order is antisymmetric, so a sorted list of distinct strings is strictly ascending |
| Sorting.InsertDesc | app/admin/reports/page.tsx:89 | one insertion step of the stable sort keeps every element and adds the new one |
| Sorting.InsertDescSum | app/admin/reports/page.tsx:89 | one insertion step adds the new element's count to the total |
| Sorting.InsertDescSorted | app/admin/reports/page.tsx:89 | one insertion step keeps a list largest-first |
| Sorting.SortDesc | app/admin/reports/page.tsx:87-89 | `sort((a, b) => b.count - a.count)`: a permutation of the entries, largest count first, with the same total |
| Sorting.InsertAsc | app/admin/reports/page.tsx:117 | one insertion step of the ascending sort keeps every element and adds the new one |
| Sorting.InsertAscSorted | app/admin/reports/page.tsx:117 | one insertion step keeps a list in ascending key order |
| Sorting.SortAsc | app/admin/reports/page.tsx:115-117 | `sort((a, b) => a.month.localeCompare(b.month))`: a permutation in ascending key order |
| Sorting.SortNoRepeats | app/api/leads/filters/route.ts:40-43 | sorting values that do not repeat gives a strictly ascending list of exactly those values |
| Sorting.StrictlyAscendingUnique | app/api/leads/filters/route.ts:40-43 | a strictly ascending list is determined by its members |
| Sorting.Take | app/admin/reports/page.tsx:103 | `slice(0, n)`: the first n elements, or all when there are fewer |
| Sorting.TakeLast | app/admin/reports/page.tsx:118 | `slice(-n)`: the last n elements, or all when there are fewer |
| Counting.OccPresent | app/admin/reports/page.tsx:95-98 | a key that occurs is counted at least once |
| Counting.OccPresentInverse | app/admin/reports/page.tsx:95-98 | a key with a positive count occurs among the keys |
| Counting.Distinct | app/admin/reports/page.tsx:100 | the dictionary's keys: each key once, exactly the keys that occur |
| Counting.EntriesFor | app/admin/reports/page.tsx:100-101 | one entry per dictionary key, carrying the number of occurrences of that key |
| Counting.CountKeys | app/admin/reports/page.tsx:93-101 | the `forEach` that fills the dictionary ends with the entries `Object.entries` reads back: each key once, in order of first insertion, with its count |
| Counting.TallySum | app/admin/reports/page.tsx:93-101 | every item is counted once: the counts add up to the number of items |
| Counting.PermutedTallyEntries | app/admin/reports/page.tsx:100-102 | after any reordering each entry still counts the occurrences of its key |
| Counting.PermutedTallyCover | app/admin/reports/page.tsx:100-102 | after any reordering every key that occurs has an entry |
| Counting.PermutedTallyDistinct | app/admin/reports/page.tsx:100-102 | after any reordering no key has two entries |
| Counting.GroupCountsFacts | app/admin/reports/page.tsx:78-90 | a grouped count is largest first, counts each key's occurrences, lists every key exactly once and adds up to the number of items |
| Counting.TopCountsFacts | app/admin/reports/page.tsx:92-104 | the top n groups: at most n, largest first, each key once with its occurrence count |
| Counting.TopCountsAreLargest | app/admin/reports/page.tsx:100-103 | no key left out of the top n groups occurs more often than any key kept |
| Counting.TallySuffixFacts | app/admin/reports/page.tsx:115-118 | the tail of the key-sorted groups stays ascending, each key once with its count |
| Counting.LatestCountsFacts | app/admin/reports/page.tsx:106-119 | the last n months: at most n, keys ascending and each once, each with its occurrence count |
| Counting.KeptSuffixIsLatest | app/admin/reports/page.tsx:117-118 | a key left out of the tail of the sorted groups sorts before every key kept |
| Counting.LatestCountsAreLatest | app/admin/reports/page.tsx:117-118 | every month left out of the last n sorts before every month kept |
| Reports.FilterByDateRange | app/admin/reports/page.tsx:70-76 | 'all' keeps every lead; a number of days keeps exactly the leads created at or after the cut-off |
| Reports.FilterByDateRangeCounts | app/admin/reports/page.tsx:70-76 | each lead in range is kept as many times as it occurs, and a lead out of range not at all |
| Reports.FilterByDateRangeAppend | app/admin/reports/page.tsx:70-76 | filtering keeps the order of the leads: the filter of a concatenation is the concatenation of the filters |
| Reports.LongerRangeKeepsMore | app/admin/reports/page.tsx:70-76 | a longer period keeps every lead a shorter one keeps |
| Reports.UserNames | app/admin/reports/page.tsx:79 | the map knows exactly the listed user ids, `undefined` included when some user has no `id` |
| Reports.MissingIdsShowUnknown | app/admin/reports/page.tsx:78-91 | when the user listing carries no `id`, the map's only key is `undefined`, and the chart shows every lead in one 'Unknown' group |
| Reports.SingleKeyGroup | app/admin/reports/page.tsx:82-90 | when every lead has the same owner name, the counts are one group holding every lead |
| Reports.UserNamesLastWins | app/admin/reports/page.tsx:79 | for a repeated id the map holds the name of the last user with that id |
| Reports.KeysOf | app/admin/reports/page.tsx:95-97 | the grouping key of every lead, in list order |
| Reports.KeyOfSomeLead | app/admin/reports/page.tsx:95-97 | every grouping key comes from some lead |
| Reports.Pad2 | app/admin/reports/page.tsx:111 | `padStart(2, '0')` gives two digits for any number below 100 |
| Reports.MonthKeyShape | app/admin/reports/page.tsx:110-111 | a month key is the year's digits, a dash and two digits spelling the month number from 1 to 12 |
| Reports.BuildReport | app/admin/reports/page.tsx:50-60 | the report's total is the number of leads in the chosen period |
| Reports.LeadsByUserFacts | app/admin/reports/page.tsx:78-90 | leads by user add up to the number of leads, largest first, each name once |
| Reports.UnlistedOwnerIsUnknown | app/admin/reports/page.tsx:83 | a lead whose owner is not among the users is counted under 'Unknown' |
| Reports.LeadsByCompanyFacts | app/admin/reports/page.tsx:92-104 | at most ten companies, largest first, each once with its number of leads |
| Reports.TopDesignationsFacts | app/admin/reports/page.tsx:134-146 | at most ten designations, largest first, each once with its number of leads |
| Reports.LeadsBySourceFacts | app/admin/reports/page.tsx:121-132 | leads by source add up to the number of leads, largest first, and no source key is empty |
| Reports.LeadsByMonthFacts | app/admin/reports/page.tsx:106-119 | at most twelve months, ascending, each once, each the month of some lead |
| Reports.PeakCount | app/admin/reports/page.tsx:504 | the peak is at least every month's count and is one of them, or 0 when there are none |
| Reports.RoundedRatio | app/admin/reports/page.tsx:264 | `Math.round(a / b)` on whole numbers is the quotient rounded half up, and 0 when b is 0 |
| Reports.UniqueCompaniesCounts | app/admin/reports/page.tsx:467-469 | the corrected figure counts each company found among the leads exactly once |
| Reports.UniqueCompaniesShownIsCapped | app/admin/reports/page.tsx:469 | the figure shown is the number of companies capped at ten |
| Reports.DesignationTypesCounts | app/admin/reports/page.tsx:473-476 | the corrected figure counts each designation found among the leads exactly once |
| Reports.DesignationTypesShownIsCapped | app/admin/reports/page.tsx:475 | the "Designation Types" figure shown is the number of designations capped at ten |
| Reports.DistinctOfNoRepeats | app/admin/reports/page.tsx:100 | keys that do not repeat are their own dictionary keys |
| Reports.ElevenCompaniesShowTen | app/admin/reports/page.tsx:469 | eleven leads at eleven different companies show "Unique Companies" as 10 |
| Analytics.CountByFieldFacts | app/user/analytics/page.tsx:98-109 | every lead is counted once under its value or 'Unknown': counts add up to the number of leads, largest first, each key once and never empty, each count the number of leads with that key, every lead's key listed |
| Analytics.KeepNamed | app/user/analytics/page.tsx:81-83 | `.filter(item => item.location)` keeps exactly the entries whose key is not empty |
| Analytics.KeepNamedOfNamed | app/user/analytics/page.tsx:81-83 | the filter keeps a list with no empty key unchanged |
| Analytics.KeepNamedDropsNothing | app/user/analytics/page.tsx:81-83 | the location and source filters drop nothing, since 'Unknown' already stands for every empty value |
| Analytics.LeadsOverTimeFacts | app/user/analytics/page.tsx:111-123 | at most fourteen days, ascending and each once, each the day of some lead, each count the number of leads of that day |
| Analytics.LeadsOverTimeAreLatest | app/user/analytics/page.tsx:119-122 | a day left out of the fourteen sorts before every day kept |
| Analytics.CalculateAnalytics | app/user/analytics/page.tsx:70-96 | the total is the number of leads in the period |
| Analytics.AnalyticsCountsRecentLeads | app/user/analytics/page.tsx:70-96 | exactly the leads created at or after the cut-off are counted, and each of them once in every grouping |
| Analytics.TopCompaniesArePrefix | app/user/analytics/page.tsx:85 | the top companies are the first ten company groups, or all of them when there are fewer |
| Analytics.TopCompaniesAreLargest | app/user/analytics/page.tsx:85 | no company left out of the top ten has more leads in the period than any company kept |
| AdminLeads.Cells | app/admin/leads/page.tsx:217-228 | a lead gives one cell per header column |
| AdminLeads.QuoteAll | app/admin/leads/page.tsx:232 | every cell is wrapped in quotes, in place and in order |
| AdminLeads.RowLines | app/admin/leads/page.tsx:230-233 | one line per listed lead, in list order |
| AdminLeads.RowLineSingle | app/admin/leads/page.tsx:232 | a lead whose cells hold no line break gives a single line |
| AdminLeads.HeaderSingleLine | app/admin/leads/page.tsx:204-215 | the header is a single line |
| AdminLeads.HeaderUnquoted | app/admin/leads/page.tsx:231 | the header names are written without quotes |
| AdminLeads.ExportLines | app/admin/leads/page.tsx:203-233 | split at line breaks the export is the header line followed by one line per lead in list order, `leads.length + 1` lines, when no cell holds a line break |
| AdminLeads.RowLineReadBack | app/admin/leads/page.tsx:232 | a line whose cells hold no quote is cut by an RFC 4180 reader into ten quoted cells, each of which reads back as the lead's cell; commas inside a cell (the rendered date has one) stay inside its quotes |
| AdminLeads.ExportedCellReadBack | app/admin/leads/page.tsx:232 | quotes are not doubled, so an exported cell reads back under RFC 4180 if and only if it holds no quote |
| AdminLeads.MissingOptionalIsEmptyCell | app/admin/leads/page.tsx:223-225 | a missing location, mobile or source is exported as an empty quoted cell |
| AdminLeads.LeadsPage.constructor | app/admin/leads/page.tsx:67-76 | the page starts with no filter, sorted by `created_at` descending, on page 1 |
| AdminLeads.LeadsPage.ClearFilters | app/admin/leads/page.tsx:191-201 | the eight filters are emptied and the page goes back to 1; the sort is kept |
| CreateLead.LooksLikeEmailInContext | app/user/create-lead/page.tsx:137 | the e-mail pattern is not anchored: text around a matching address still matches |
| CreateLead.LooksLikeEmailNeeds | app/user/create-lead/page.tsx:137 | a match needs an `@` with a non-space character before it and a `.` after it |
| CreateLead.BlankIsNoEmail | app/user/create-lead/page.tsx:137 | text that is only whitespace never matches the pattern |
| CreateLead.EmailExamples | app/user/create-lead/page.tsx:137 | "a@b.co" and "x a@b.c y" match; "a@b", "a@.co" and "a @b.co" do not |
| CreateLead.GetSet | app/user/create-lead/page.tsx:277-280 | setting an input changes that input to the value and no other input |
| CreateLead.FormsAgree | app/user/create-lead/page.tsx:19-35 | two forms that agree on every input are the same form |
| CreateLead.MainEmailErrorNone | app/user/create-lead/page.tsx:135-139 | the main e-mail gets no error exactly when it matches the pattern |
| CreateLead.ContactEmailErrorNone | app/user/create-lead/page.tsx:153-158 | a contact's e-mail gets no error exactly when it matches the pattern |
| CreateLead.AcceptableHasNoError | app/user/create-lead/page.tsx:120-159 | an acceptable form gets no error under any key |
| CreateLead.NoErrorIsAcceptable | app/user/create-lead/page.tsx:120-159 | a form with no error under any key is acceptable |
| CreateLead.Check | app/user/create-lead/page.tsx:123-158 | one check sets its message under its key, overwriting an earlier one, and leaves every other key alone |
| CreateLead.FormErrorsShown | app/user/create-lead/page.tsx:123-143 | the main form's checks record the expected error of each of its fields and nothing for the contacts |
| CreateLead.FieldErrorShown | app/user/create-lead/page.tsx:123-143 | the error recorded for a main-form input is the one its own rule gives |
| CreateLead.ContactErrorsShown | app/user/create-lead/page.tsx:146-159 | checking contact n records its expected errors, a later "required" replacing an "invalid", and keeps the others |
| CreateLead.ValidationVerdict | app/user/create-lead/page.tsx:161-162 | validation passes exactly when no error was recorded, that is when the form is acceptable |
| CreateLead.CollectErrors | app/user/create-lead/page.tsx:120-163 | the loop over the checks records exactly the expected error of every key, and passes if and only if the form is acceptable, that is if and only if no error is recorded |
| CreateLead.CombinedLocation | app/user/create-lead/page.tsx:175-182 | the loop-free steps build `JoinedLocation`: the trimmed city and country joined by ", ", either alone when the other is blank, or empty |
| CreateLead.RequestBodyFields | app/user/create-lead/page.tsx:184-197 | the request carries every form field as typed except city and country, which are dropped, and the location, which is the combined one; editing the city or country changes the request only through the location |
| CreateLead.AddContact | app/user/create-lead/page.tsx:290-302 | adding a contact appends one blank, non-primary entry and keeps the others |
| CreateLead.KeepOthersSlice | app/user/create-lead/page.tsx:305 | the position filter from any point on drops the entry at `index` and keeps the rest in order |
| CreateLead.RemoveContactDropsOne | app/user/create-lead/page.tsx:304-306 | removing drops exactly the entry at `index` and keeps the others in order; an index past the end changes nothing |
| CreateLead.RemoveUndoesAdd | app/user/create-lead/page.tsx:290-306 | adding a contact and removing it again gives the list back |
| CreateLead.UpdateContactChangesOneField | app/user/create-lead/page.tsx:308-312 | updating keeps the length and every other entry, and changes only the named field of entry `index` |
| CreateLead.CreateLeadPage.constructor | app/user/create-lead/page.tsx:19-40 | the page starts with an empty form, no contacts, no errors and no success |
| CreateLead.CreateLeadPage.ValidateForm | app/user/create-lead/page.tsx:120-163 | validation changes only the errors, which then hold exactly the expected errors, and passes if and only if the form is acceptable, that is if and only if no error is recorded |
| CreateLead.CreateLeadPage.HandleChange | app/user/create-lead/page.tsx:275-288 | the input takes the value and no other input changes; an error shown for it is blanked, every other error kept |
| CreateLead.CreateLeadPage.AddAdditionalEmail | app/user/create-lead/page.tsx:290-302 | the contacts gain one blank entry; nothing else changes |
| CreateLead.CreateLeadPage.RemoveAdditionalEmail | app/user/create-lead/page.tsx:304-306 | the contact at `index` is removed; nothing else changes |
| CreateLead.CreateLeadPage.UpdateAdditionalEmail | app/user/create-lead/page.tsx:308-312 | one field of one contact is set; nothing else changes |
| CreateLead.CreateLeadPage.HandleSubmit | app/user/create-lead/page.tsx:165-232 | nothing is sent unless validation passes, and then the body sent is the form without city and country, the combined location, the contacts and the user id as assignee and creator; a created lead clears the form, the contacts and the errors and shows success; a refusal keeps the form and the success flag and shows its message as the only error |
| Dashboard.WholeMinutes | app/admin/dashboard/page.tsx:120 | `Math.floor(diff / 60000)`: the whole minutes contained in the difference, rounded down |
| Dashboard.AgeOfBounds | app/admin/dashboard/page.tsx:117-126 | the bucket holds the true age: "Just now" for under a minute (the future included), else n whole minutes, hours or days with n at least 1 and the age between n and n + 1 units, minutes under 60 and hours under 24 |
| Dashboard.RenderStart | app/admin/dashboard/page.tsx:122-125 | only "Just now" starts with a letter |
| Dashboard.RenderInjective | app/admin/dashboard/page.tsx:122-125 | different ages are shown differently: the text gives the bucket and the number back |
| Dashboard.FirstNonZero | app/admin/dashboard/page.tsx:57-58 | the first figure present and not zero, and 0 exactly when neither is |
| Dashboard.CountWhere | app/admin/dashboard/page.tsx:59-66 | `filter(p).length`: at most the length, the length exactly when all satisfy p, 0 exactly when none does |
| Dashboard.CompanyNames | app/admin/dashboard/page.tsx:69 | the company name of every lead, in list order |
| Dashboard.DistinctNoLonger | app/admin/dashboard/page.tsx:69 | a set of names has no more members than the list it was built from |
| Dashboard.UniqueCompanyCountBounds | app/admin/dashboard/page.tsx:69 | there are no more companies than leads, and at least one as soon as there is a lead |
| Dashboard.ComputeStats | app/admin/dashboard/page.tsx:57-78 | the totals are the pagination figures or else the listing lengths; active users and new leads never exceed the listings; the rate is 0 without leads |
| Dashboard.StatsFacts | app/admin/dashboard/page.tsx:57-78 | without pagination totals the totals are the listing lengths, active users are all users exactly when every user is active, there is no new lead exactly when every lead is older than a week, and the company figure never exceeds the leads |
| Dashboard.ConversionRate | app/admin/dashboard/page.tsx:77 | the rate is 0 when there are no leads |
| Dashboard.ConversionRateBounds | app/admin/dashboard/page.tsx:77 | the rate is a percentage when the new leads are among the total, and 100 when all of them are new |
| Dashboard.LeadActivity | app/admin/dashboard/page.tsx:97-106 | a lead entry names its creator, or 'System' when there is none |
| Dashboard.UserActivities | app/admin/dashboard/page.tsx:84-95 | one entry per recent user, in list order |
| Dashboard.LeadActivities | app/admin/dashboard/page.tsx:96-107 | one entry per recent lead, in list order |
| Dashboard.PushActivities | app/admin/dashboard/page.tsx:84-107 | the two `forEach` loops push an entry per user, then one per lead |
| Dashboard.RecentActivity | app/admin/dashboard/page.tsx:81-108 | the activity is a permutation of the first three users' and first two leads' entries, newest first, at most five entries |
| UsersPage.EditDataOf | app/admin/users/page.tsx:103-108 | the edit form filled from a user holds its name, email, role and status |
| UsersPage.EditUser | app/admin/users/page.tsx:142-144 | an edit keeps the list's ids in order |
| UsersPage.EditChangesOnlyMatching | app/admin/users/page.tsx:142-144 | an edit gives the matching users the form's four fields and keeps their id and creation date; every other user and the length stay as they were |
| UsersPage.EditIdempotent | app/admin/users/page.tsx:142-144 | submitting the same edit twice changes nothing more |
| UsersPage.DeleteUser | app/admin/users/page.tsx:222 | a delete never lengthens the list |
| UsersPage.DeleteUserMembers | app/admin/users/page.tsx:222 | the users left are exactly the listed users with another id |
| UsersPage.DeleteAbsentKeepsAll | app/admin/users/page.tsx:222 | deleting an id no user has changes nothing |
| UsersPage.DeleteRemovesOne | app/admin/users/page.tsx:222 | with unique ids, deleting a listed user removes exactly that one user and keeps the others in order |
| UsersPage.SetActive | app/admin/users/page.tsx:253-255 | a status change keeps the list's ids in order |
| UsersPage.ToggleFlips | app/admin/users/page.tsx:253-255 | a toggle gives the matching users the opposite of the status shown and changes no other user |
| UsersPage.ToggleTwiceRestores | app/admin/users/page.tsx:237-255 | toggling a user twice, from the status shown each time, gives the list back |
| UsersPage.PageAfterDelete | app/admin/users/page.tsx:225-227 | the page stays or goes one back, only when the deleted user was the only one listed, and never below 1 from a later page |
| UsersPage.UsersPageState.constructor | app/admin/users/page.tsx:31-57 | the page starts on page 1 with no users, no search, no modal open and blank forms |
| UsersPage.UsersPageState.HandleSearch | app/admin/users/page.tsx:91-94 | a search goes back to page 1 and changes nothing else |
| UsersPage.UsersPageState.OpenEditModal | app/admin/users/page.tsx:101-110 | the user is remembered, the form holds its four fields and the modal opens; the list, search, page and add modal are unchanged |
| UsersPage.UsersPageState.CloseEditModal | app/admin/users/page.tsx:112-121 | nobody is edited, the form is blank with role 'user' and active, the modal closes; everything else is unchanged |
| UsersPage.UsersPageState.HandleEditSubmit | app/admin/users/page.tsx:123-153 | with nobody edited nothing happens; on success the list takes the form's fields for the edited id and the modal closes; on failure the list and modal stay and an alert is shown; the search, page and add modal are unchanged throughout |
| UsersPage.UsersPageState.OpenAddModal | app/admin/users/page.tsx:156-164 | the add form is blank with role 'user' and the modal opens; everything else is unchanged |
| UsersPage.UsersPageState.CloseAddModal | app/admin/users/page.tsx:166-174 | the modal closes and the add form is blank again; everything else is unchanged |
| UsersPage.UsersPageState.HandleDeleteUser | app/admin/users/page.tsx:206-234 | without confirmation nothing happens; on success the user is dropped and the page goes one back when it was the only user on a later page; on failure only an alert; the search and both modals are unchanged throughout |
| UsersPage.UsersPageState.ToggleUserStatus | app/admin/users/page.tsx:237-262 | the request asks for the opposite status; on success the matching users take it, on failure only an alert; the page, search and both modals are unchanged |

## Left out

- Rendering, styling, React effects, modals as UI, `localStorage`, `fetch` and the sign-in flow: the model keeps only the state the pages update.
- Database driver calls (connect, `find`, `distinct`, `countDocuments`, `create`, `populate`): the collections are sequences or sets held in memory, and a driver failure is a parameter.
- `populate` of `assigned_to` and `created_by` in the leads GET: references stay ids.
- Sorting the leads list by an arbitrary `sortBy` field: the model states the sort option the route builds (`SortOption`), and `Get` returns the page in collection order.
- Ids in the leads routes: `userId` and an admin's `assignedTo` are taken to be well-formed ObjectIds; one that is not makes Mongoose throw a cast error, which the route answers with 500.
- Reports: a lead whose assigned user no longer exists populates `assigned_to` as `null`, so `lead.assigned_to?._id` is `undefined`; the model gives every lead a populated owner id.
- `parseInt` and `NaN` for `page`, `limit` and the report range: these arrive as integers.
- Dates and time zones (`new Date`, `setDate`, `setHours`, `toISOString`, `toLocaleDateString`, month and day formatting): times are integers in milliseconds, the server clock is taken as UTC for the end of day of `dateTo`, and calendar keys come from function parameters.
- Floating point: bar widths and chart heights; `Math.round` ratios are modelled on integers. For a single division of non-negative counts (`RoundedRatio`) this agrees with JavaScript.
- Dashboard.ConversionRate: rounds 100 × new / total exactly, while the page computes `Math.round((new / total) * 100)` in doubles, whose two roundings can give one less (23 new of 40: the page shows 57, the model 58).
- Sorting.StrLe: compares strings by code point, while JavaScript's `sort()` compares UTF-16 code units; the two orders differ only between characters above U+FFFF and characters from U+E000 to U+FFFF.
- FilterOptions.DistinctSorted: sorts in the code-point order of `Sorting.StrLe`, which differs from JavaScript's code-unit `sort()` only for characters above U+FFFF.
- LeadSchema.QueryValue: casting of query values is modelled for the equality filters on `email` and `company_name` in `findOne`; `$regex` filters are not cast, as in Mongoose.
- Regular expressions: `$regex` filters are case-insensitive substring searches, so a search text holding regex metacharacters is not modelled; the email pattern of the create-lead form is modelled by its meaning (some non-space text, `@`, non-space text, `.`, non-space text).
- Case and whitespace: `toLowerCase` is ASCII lowercasing and `trim` removes space, tab, newline, carriage return, vertical tab and form feed.
- Tie order in grouped counts: equal counts keep the order in which keys were first seen (a stable sort); JavaScript's listing of integer-like object keys first is not modelled.
- The import script's file reading and writing, console output, connection handling and process exit: the file content is a string, and the report is its content string.
- `getOrCreateDefaultUser` in the import script: the default user id is a parameter.
- The company lookup's 500 reply when the database throws.
- Create-lead page: `isSubmitting`, the timed reset of the success message, loading the country list, and adding a new country from the form.
- Admin users page: `handleAddUser`, `fetchUsers`, `handlePageChange` and `loadingAction`; after an add, a delete or a page change the page reloads its list from the server, which is network plumbing.
- Admin leads page: the Blob download of the export; the export content is a string.
- Dashboard: the order of activities with equal times, which depends on JavaScript's sort; times are given as integers.
- CreateLead.UpdateContact: requires that the value has the field's type (text for text fields, a flag for `is_primary`), which TypeScript's typing of the call sites guarantees.

## Findings

| source | as written | input that shows it | evidently intended | confidence | as-written member | corrected member |
|---|---|---|---|---|---|---|
| app/admin/reports/page.tsx:469 | "Unique Companies" shows `leadsByCompany.length`, which `slice(0, 10)` caps at ten | leads at eleven different companies show 10 unique companies | count every distinct company name among the filtered leads | not executed | Reports.UniqueCompaniesShownIsCapped | Reports.UniqueCompaniesCounts |
| app/admin/reports/page.tsx:475 | "Designation Types" shows `topDesignations.length`, which `slice(0, 10)` at page.tsx:145 caps at ten | leads with eleven different designations show 10 designation types | count every distinct designation among the filtered leads | not executed | Reports.DesignationTypesShownIsCapped | Reports.DesignationTypesCounts |
