# Lead tracker core, in Dafny

This project models the logic behind a lead-tracking web application for a
pool and homeowners-association service company.

The application finds places on a map, keeps a contacted or not-interested
status for each lead, exports leads as CSV, and fills e-mail templates. It
also imports customer contracts from spreadsheets. The model covers:

- `common.dfy` (`Common`): optional values and JavaScript truthiness
  (`s || ''`, `a || b`, `s || undefined`), ASCII `toLowerCase`, `includes`,
  and the message a `catch` block takes from what was thrown.
- `lead.dfy` (`Leads`): the `Lead` record and its four categories.
- `contract_parser.dfy` (`ContractParser`):
  - `cleanValue` and the 100 × 20 cell grid, built by nested loops.
  - The fixed cell of each contract field.
  - `validateContractData`.
  - The all-or-nothing batch parse of several files.
- `batch_contract_import.dfy` (`BatchImport`):
  - The contract-to-lead mapping.
  - `importContractsToLeads`: a loop over the records that isolates each
    failure, counts imports and failures, logs errors and reports progress.
    The geocoder, the three store writes and the progress callback are
    oracles: a callback that throws fails its record, or rejects the whole
    import when it throws at the final report. The loop records every call
    in an event trace, so the order of the calls can be stated.
- `contract_preview_table.dfy` (`ContractPreview`): the preview list of
  parsed contracts, as a class. Records can be removed and fields edited.
  Only valid records are forwarded to the import.
- `email_templates.dfy` (`EmailTemplates`): `fillTemplate`, a loop of three
  replace-all passes, plus the built-in templates and `getTemplate`.
- `csv_export.dfy` (`CsvExport`):
  - `escapeCSVValue` and `generateCSV`.
  - A field and record parser, used to prove that an export reads back as
    the values written. Fields follow section 2 of RFC 4180 (quoting, doubled
    quotes), but records end with a line feed, as `generateCSV` writes them,
    not with the CRLF that standard prescribes.
- `places_service.dfy` (`Places`): `classifyPlace`.
- `search_cache.dfy` (`SearchCache`): the saved search in local storage, as
  a class with one optional entry. Entries expire after one hour, and the
  clock is a parameter.
- `use_lead_data.dfy` (`LeadData`): the lead list of the `useLeadData` hook,
  as a class.
  - Merging the stored metadata into search results.
  - The five actions: mark contacted, mark uncontacted, mark not
    interested, update contact info, delete. Each calls the store, an
    oracle, then updates the leads with the id.
- `contacts_table.dfy` (`Contacts`): the contacts table's filter and its
  comparator-driven sort. The sort is a stable insertion sort.

## Model

| member | source | states |
|---|---|---|
| Common.Text | src/lib/batch-contract-import.ts:200-201 | `s \|\| ''` is empty exactly when `s` is not truthy, and otherwise is `s` itself |
| Common.OrElse | src/hooks/useLeadData.ts:61-62 | `a \|\| b` is `a` when `a` is a non-empty string, else `b` unchanged |
| Common.NonEmpty | src/components/contracts/ContractPreviewTable.tsx:37 | `value \|\| undefined` is absent exactly when the string is empty, else holds the string |
| Common.Defined | src/lib/batch-contract-import.ts:81-82 | `s \|\| undefined` keeps a truthy value and turns the rest into absent |
| Common.OrElseBool | src/hooks/useLeadData.ts:63 | `a \|\| b` on booleans is `true` when `a` is `true`, else `b` unchanged |
| Common.Message | src/hooks/useLeadData.ts:135-136 | what a `catch` reports: the message of an `Error`, the fallback for any other thrown value |
| Common.ToLowerIdempotent | src/lib/places-service.ts:58-59 | lower-casing twice is lower-casing once |
| Common.ContainsIffOccurs | src/components/contacts/ContactsTable.tsx:48-49 | the left-to-right scan of `includes` holds exactly when the substring occurs at some position |
| Common.ContainsOnlyOwnChars | src/lib/places-service.ts:63-66 | a string never contains a substring with a character the string lacks |
| Common.NatToString | src/lib/batch-contract-import.ts:161-168 | the decimal text of a number is non-empty, all digits, starts with `0` only for zero, and its digits read back (`DecimalValue`) as the number itself |
| Common.NatToStringInjective | src/lib/batch-contract-import.ts:161-168 | two numbers with the same decimal text are equal |
| Leads.TypeName | src/types/lead.ts:1 | each category's wire name is one of `pool`, `hoa`, `neighborhood`, `other` |
| ContractParser.Set | src/components/contracts/ContractPreviewTable.tsx:35-38 | `{...c, [field]: v}` sets that key to `v` and leaves every other key as it was |
| ContractParser.TrimStart | src/lib/contract-parser.ts:102 | the result is a suffix of the input, does not start with white space, and only white space was dropped |
| ContractParser.TrimEnd | src/lib/contract-parser.ts:102 | the result is a prefix of the input, does not end with white space, and only white space was dropped |
| ContractParser.Trim | src/lib/contract-parser.ts:102-109 | `trim()` is a slice of the input with no white space at either end |
| ContractParser.TrimDropsOnlySpace | src/lib/contract-parser.ts:102 | everything `trim()` drops before and after the slice it keeps is white space |
| ContractParser.TrimKeepsText | src/lib/contract-parser.ts:102 | trimming keeps every non-white-space character, in order |
| ContractParser.CollapseSpaces | src/lib/contract-parser.ts:109 | `replace(/\s+/g, ' ')` leaves every white-space run as one plain space, empties nothing, and keeps whether the text starts with white space |
| ContractParser.CollapseKeepsText | src/lib/contract-parser.ts:109 | collapsing keeps every non-white-space character, in order |
| ContractParser.CollapseRun | src/lib/contract-parser.ts:109 | a run of white space alone becomes one space |
| ContractParser.CollapseAppend | src/lib/contract-parser.ts:109 | collapsing a concatenation cut outside a white-space run collapses each part on its own; with `CollapseRun` this fixes the result on every input |
| ContractParser.StripQuotes | src/lib/contract-parser.ts:103-106 | one matching pair of `"` or `'` is sliced off, and text not so quoted is unchanged |
| ContractParser.CleanValue | src/lib/contract-parser.ts:98-112 | an absent or empty value cleans to `''`; the result never starts or ends with white space and every white-space run in it is one space |
| ContractParser.CleanKeepsText | src/lib/contract-parser.ts:98-112 | cleaning keeps the non-white-space characters of the trimmed, unquoted value, in order |
| ContractParser.CollapseSingleSpaced | src/lib/contract-parser.ts:109 | collapsing text already single-spaced changes nothing |
| ContractParser.CleanFixpoint | src/lib/contract-parser.ts:98-112 | text that is trimmed, single-spaced and not quoted is its own clean value |
| ContractParser.CleanIdempotentUnlessQuoted | src/lib/contract-parser.ts:98-112 | cleaning twice equals cleaning once whenever the first result is not quoted |
| ContractParser.CleanQuoted | src/lib/contract-parser.ts:103-109 | quoted text with a clean inside loses exactly its quotes |
| ContractParser.CleanStripsOnePair | src/lib/contract-parser.ts:103-106 | only one pair of quotes goes per call: `""a""` cleans to `"a"`, which cleans to `a`, so cleaning is not idempotent |
| ContractParser.Grid | src/lib/contract-parser.ts:44-53 | the grid has 100 rows of 20 cells |
| ContractParser.BuildGrid | src/lib/contract-parser.ts:44-53 | the nested loops yield the 100 × 20 grid whose cell (i, j) is the cell's text, `''` when the cell is missing |
| ContractParser.CellOf | src/lib/contract-parser.ts:59-83 | every cell the extraction reads lies inside the 100 × 20 grid |
| ContractParser.FromTable | src/lib/contract-parser.ts:59-83 | the record as the cell table gives it, each field read through `CellOf`; specified by `ParseReadsCells` and `ParseEffectiveDate` |
| ContractParser.Extract | src/lib/contract-parser.ts:56-84 | the object literal with its hard-coded offsets, as written; shown equal to `FromTable` by `ExtractFollowsTable` |
| ContractParser.TableCells | src/lib/contract-parser.ts:59-83 | each field's table cell, as `CellOf` gives it |
| ContractParser.ExtractFollowsTable | src/lib/contract-parser.ts:56-84 | the hard-coded reads of the object literal, applied to the built grid, give each field the cleaned text of its table cell |
| ContractParser.ParseContract | src/lib/contract-parser.ts:34-92 | parsing fails exactly when the workbook cannot be decoded, with the message `Failed to parse contract file: ` and the decoder's message |
| ContractParser.ParseReadsCells | src/lib/contract-parser.ts:59-83 | each field but the date is the cleaned text of its fixed cell (name (22,1), billing line 1 (23,5), phone (25,9), site contact (42,3), …); a missing cell gives `''`, never an error |
| ContractParser.ParseEffectiveDate | src/lib/contract-parser.ts:82 | the effective date is cleaned cell (29,9) when that is non-empty, else cleaned cell (29,10) |
| ContractParser.ParseContractXLSX | src/lib/contract-parser.ts:34-92 | the method with the grid loops computes `ParseContract` |
| ContractParser.ParseFile | src/lib/contract-parser.ts:151-159 | a file fails exactly when it cannot be read or decoded, and the message starts with `Failed to parse <file name>: ` |
| ContractParser.CollectSpec | src/lib/contract-parser.ts:148-163 | collecting results succeeds exactly when every one succeeds, with the values in order; otherwise it yields the error of the first failure |
| ContractParser.CollectFailureSticks | src/lib/contract-parser.ts:156-159 | once a prefix has failed, later files change nothing |
| ContractParser.ParseEach | src/lib/contract-parser.ts:151-155 | one outcome per file, in order |
| ContractParser.ParseMultipleContractXLSX | src/lib/contract-parser.ts:148-163 | the loop stops at the first failing file and returns `Collect` of the per-file outcomes |
| ContractParser.ParseMultipleSpec | src/lib/contract-parser.ts:148-163 | a batch parses exactly when every file parses, then yields one record per file in order; otherwise the error names the first failing file and no list is returned |
| ContractParser.ValidateContractData | src/lib/contract-parser.ts:117-141 | `valid` exactly when there are no errors; the name error is present exactly when the name is empty; the address error is present exactly when all six address lines are empty; the name error comes first; the list has at most two entries, so it is one of `[]`, `[name]`, `[address]`, `[name, address]` |
| ContractParser.ValidIff | src/lib/contract-parser.ts:117-141 | a record is valid exactly when it has a name and some address line |
| BatchImport.LeadName | src/lib/batch-contract-import.ts:31 | the name is the customer name, else the site name, else `Unknown Customer`, and is never empty |
| BatchImport.JoinLines | src/lib/batch-contract-import.ts:36-39 | line 1, followed by `", "` and line 2 only when line 2 is set |
| BatchImport.LeadAddress | src/lib/batch-contract-import.ts:34-50 | the address comes from the first of the customer, billing and site groups whose line 1 is set; it is `''` exactly when no line 1 is set |
| BatchImport.LeadCategory | src/lib/batch-contract-import.ts:66-71 | `hoa` exactly when the service type mentions "hoa"; `neighborhood` when it mentions "neighborhood" and not "hoa"; `pool` otherwise; never `other` |
| BatchImport.LeadPhone | src/lib/batch-contract-import.ts:63 | mobile, else phone, else absent |
| BatchImport.ContractToLead | src/lib/batch-contract-import.ts:29-86 | each mapped field: name, address, type, phone, e-mail and contact person copied or absent, notes `Service: <type>` exactly when a service type is set, date from the effective date |
| BatchImport.NameFallback | src/lib/batch-contract-import.ts:31 | a record that fails validation for its name still gets a lead name: the site name or `Unknown Customer` |
| BatchImport.ValidButUnaddressable | src/lib/batch-contract-import.ts:34-50 | a record whose only address is a line 2 passes validation yet maps to an empty address |
| BatchImport.Geocode | src/lib/batch-contract-import.ts:110-142 | an empty address is refused before any request; otherwise the reply gives the location or the error thrown for it |
| BatchImport.FullLead | src/lib/batch-contract-import.ts:189-194 | the lead passed on for marking has the new id, every mapped field, the location and `isManual`, and no other field is set |
| BatchImport.RecordOf | src/lib/batch-contract-import.ts:199-217 | the stored contract links to the created lead, carries the location and import time, defaults name and first address line to `''`, and copies every other field of the record as it is |
| BatchImport.Outcome | src/lib/batch-contract-import.ts:172-229 | the `try` body after the report, and its `catch`: at most four calls, all four when the record is imported; specified by `EmptyAddressWritesNothing`, `ImportedIff` and `LeadWrittenBeforeLaterSteps` |
| BatchImport.EmptyAddressWritesNothing | src/lib/batch-contract-import.ts:112-114 | a record without an address fails with `Address is empty or invalid` and makes no call at all |
| BatchImport.ImportedIff | src/lib/batch-contract-import.ts:173-221 | a record is imported exactly when it has an address, the geocoder finds it, and lead creation, marking and contract creation all succeed |
| BatchImport.LeadWrittenBeforeLaterSteps | src/lib/batch-contract-import.ts:176-219 | geocoding and lead creation (with `isManual: true`) come first; marking and the stored contract only follow a created lead and refer to its id; nothing undoes the lead |
| BatchImport.Attempt | src/lib/batch-contract-import.ts:163-229 | the whole `try` for one record: without a callback it is `Outcome`; a report that throws fails the record before any call; specified by `AttemptImportedIff` |
| BatchImport.AttemptImportedIff | src/lib/batch-contract-import.ts:163-230 | the progress report is inside the `try`: a record is imported exactly when the report before it returns and the record itself succeeds; a report that throws fails the record with the thrown message before any call |
| BatchImport.ImportOne | src/lib/batch-contract-import.ts:172-230 | the awaited calls for one record, stopping at the first failure, match `Outcome` |
| BatchImport.Steps | src/lib/batch-contract-import.ts:159-170 | each record's attempt, progress report included, in record order |
| BatchImport.LoopStep | src/lib/batch-contract-import.ts:159-231 | one more record is one more pass of the loop body |
| BatchImport.Import | src/lib/batch-contract-import.ts:148-242 | `importContractsToLeads` as a function: the promise rejects exactly when the final report throws; specified by `ImportAccounts` and `ImportReports` |
| BatchImport.ImportNext | src/lib/batch-contract-import.ts:163-230 | one pass of the loop body: report, run the record unless the report threw, count it and log its error |
| BatchImport.ImportContractsToLeads | src/lib/batch-contract-import.ts:148-242 | the loop and the final report compute `Import`; a final report that throws rejects the promise |
| BatchImport.FailedIndices | src/lib/batch-contract-import.ts:222-228 | the failing records' indices, strictly increasing, and every failing record is among them |
| BatchImport.LoopCounts | src/lib/batch-contract-import.ts:152-230 | imported plus failed equals the number of records; success exactly when none failed; one error per failure |
| BatchImport.LabelInjective | src/lib/batch-contract-import.ts:226 | two records never share a `Contract k` label, so each error names its own record |
| BatchImport.LoopErrors | src/lib/batch-contract-import.ts:225-228 | the log lists the failing records in order, each labelled `Contract k` (1-based) with its own message |
| BatchImport.LoopAccounts | src/lib/batch-contract-import.ts:152-231 | the counters and the error log together |
| BatchImport.ImportAccounts | src/lib/batch-contract-import.ts:148-242 | the promise rejects, with what was thrown, exactly when the final report throws; otherwise it resolves to the counters and log above, stated on the contracts and the oracles' replies |
| BatchImport.ReportsAppend | src/lib/batch-contract-import.ts:165-170 | the reports of a concatenated trace are the reports of its parts |
| BatchImport.OutcomeReportsNothing | src/lib/batch-contract-import.ts:172-230 | a record's own calls contain no progress report |
| BatchImport.LoopReports | src/lib/batch-contract-import.ts:165-170 | with a callback, the loop reports once before each record, with its number, the total and `processing` |
| BatchImport.ImportReports | src/lib/batch-contract-import.ts:159-239 | the callback fires N + 1 times, in order, even when some of its calls throw, and the last report is `Complete`, whose status is `completed` exactly when nothing failed |
| BatchImport.SilentWithoutCallback | src/lib/batch-contract-import.ts:165-239 | without a callback the trace holds no report |
| BatchImport.LoopIsolates | src/lib/batch-contract-import.ts:159-231 | a failure never stops the loop: the trace is every record's own calls, in record order |
| BatchImport.SecondOfThreeFails | src/lib/batch-contract-import.ts:159-231 | three records of which the second fails: two imported, one failed, and the log names `Contract 2` only |
| ContractPreview.DropIndex | src/components/contracts/ContractPreviewTable.tsx:24-26 | removing at an index in range shortens the list by one; an index out of range leaves the length unchanged |
| ContractPreview.DropIndexIsRemoval | src/components/contracts/ContractPreviewTable.tsx:24-26 | `filter((_, i) => i !== index)` is the list without that element, the rest in order; an index out of range changes nothing |
| ContractPreview.ValidContracts | src/components/contracts/ContractPreviewTable.tsx:45-48 | the forwarded records are valid members of the list |
| ContractPreview.ValidContractsAppend | src/components/contracts/ContractPreviewTable.tsx:45-48 | filtering keeps the order |
| ContractPreview.ValidContractsComplete | src/components/contracts/ContractPreviewTable.tsx:45-48 | every valid record is forwarded; the filter keeps the whole list exactly when every record is valid |
| ContractPreview.PreviewTable.ReadyCount | src/components/contracts/ContractPreviewTable.tsx:170 | the "ready to import" count is the number of valid records |
| ContractPreview.PreviewTable.RemoveContract | src/components/contracts/ContractPreviewTable.tsx:24-26 | the new list is the old one without the element at the index |
| ContractPreview.PreviewTable.EditField | src/components/contracts/ContractPreviewTable.tsx:28-41 | only the named field of the record at the index changes; an empty value is stored as absent; other records and fields are unchanged |
| ContractPreview.PreviewTable.Confirm | src/components/contracts/ContractPreviewTable.tsx:43-56 | the valid records are forwarded in order, and nothing is forwarded exactly when none is valid |
| EmailTemplates.ReplaceAll | src/lib/email-templates.ts:102-103 | `replace(new RegExp(placeholder, 'g'), value)` as a literal left-to-right replace-all; specified by `ReplaceAllAbsent`, `ReplaceAfterInert` and `ReplaceFillsHoles` |
| EmailTemplates.ReplaceAllAbsent | src/lib/email-templates.ts:102-103 | text without the pattern comes back unchanged |
| EmailTemplates.ReplaceAfterInert | src/lib/email-templates.ts:102-103 | a prefix in which no occurrence can start is copied as it is |
| EmailTemplates.Placeholder | src/lib/email-templates.ts:101 | a placeholder starts with `{{` followed by a non-brace |
| EmailTemplates.PlaceholdersInert | src/lib/email-templates.ts:100-104 | no placeholder can start inside another one |
| EmailTemplates.Value | src/lib/email-templates.ts:90-94 | the name and the address as they are; the contact person, or `there` when absent or empty |
| EmailTemplates.Filled | src/lib/email-templates.ts:106-110 | id, name and description are kept; subject and body are filled |
| EmailTemplates.FillTemplate | src/lib/email-templates.ts:89-111 | the loop of passes computes `Filled` |
| EmailTemplates.NoPlaceholderUnchanged | src/lib/email-templates.ts:100-104 | a subject or body with no placeholder is returned unchanged |
| EmailTemplates.ReplaceFillsHoles | src/lib/email-templates.ts:102-103 | one pass over a well-formed template fills exactly the holes of its key |
| EmailTemplates.FillRenders | src/lib/email-templates.ts:100-104 | filling a well-formed template puts each value in place of each occurrence of its placeholder |
| EmailTemplates.FilledHasNoBrace | src/lib/email-templates.ts:100-104 | a filled well-formed template holds no `{` when the values hold none |
| EmailTemplates.FillLeavesNoPlaceholder | src/lib/email-templates.ts:100-104 | no placeholder survives filling a well-formed template whose values hold no `{` |
| EmailTemplates.FillByPasses | src/lib/email-templates.ts:100-104 | filling is the three passes in the order name, address, contact person |
| EmailTemplates.PlaceholderCanSurvive | src/lib/email-templates.ts:100-104 | on a template that is not well formed, `{{na{{name}}me}}` with an empty name, a `{{name}}` survives |
| EmailTemplates.Find | src/lib/email-templates.ts:117 | `find` yields the first template in the list with the id, and nothing exactly when no template has it |
| EmailTemplates.FindUnique | src/lib/email-templates.ts:117 | with distinct ids, each template's id finds that template |
| EmailTemplates.BuiltInDistinct | src/lib/email-templates.ts:13-84 | the three built-in ids are distinct |
| EmailTemplates.GetTemplate | src/lib/email-templates.ts:116-118 | `find` over the built-in list; specified by `Find`, `BuiltInIds` and `UnknownId` |
| EmailTemplates.BuiltInIds | src/lib/email-templates.ts:116-118 | `getTemplate` of each built-in id gives that template |
| EmailTemplates.UnknownId | src/lib/email-templates.ts:116-118 | any other id gives nothing |
| CsvExport.NeedsQuotesIff | src/lib/csv-export.ts:50 | a value is quoted exactly when it holds a comma, a newline or a double quote |
| CsvExport.DoubleQuotes | src/lib/csv-export.ts:51 | text without `"` is unchanged by the doubling |
| CsvExport.EscapeCSVValue | src/lib/csv-export.ts:46-55 | `''` stays `''`; a value without comma, newline or `"` is unchanged; any other is quoted with each `"` doubled |
| CsvExport.QuotedBodyRoundTrip | src/lib/csv-export.ts:51 | reading a doubled body up to its closing quote gives back the value |
| CsvExport.UnquotedRoundTrip | src/lib/csv-export.ts:54 | an unquoted value reads back up to the next separator |
| CsvExport.QuotedFieldRoundTrip | src/lib/csv-export.ts:51 | a quoted field reads back as its value |
| CsvExport.FieldRoundTrip | src/lib/csv-export.ts:46-55 | every escaped value reads back as the value, whatever separator follows |
| CsvExport.UnescapeEscape | src/lib/csv-export.ts:46-55 | unescaping an escaped value gives the value |
| CsvExport.EscapeAll | src/lib/csv-export.ts:20-36 | one escaped field per value, in order |
| CsvExport.RecordRoundTrip | src/lib/csv-export.ts:40 | a record of escaped values joined by commas reads back as the values |
| CsvExport.CSVRoundTrip | src/lib/csv-export.ts:38-41 | records joined by newlines read back as the records |
| CsvExport.RowValues | src/lib/csv-export.ts:20-36 | thirteen values per lead, and the Contacted column is `Yes` exactly when the lead is contacted, `No` otherwise |
| CsvExport.HeadersPlain | src/lib/csv-export.ts:4-18 | no header needs quoting |
| CsvExport.RowIsEscaped | src/lib/csv-export.ts:20-36 | a row is its escaped values joined by commas, given date and number texts that need no quoting |
| CsvExport.Row | src/lib/csv-export.ts:20-40 | one lead's values joined by commas; specified by `RowIsEscaped` |
| CsvExport.GenerateCSV | src/lib/csv-export.ts:38-41 | the header line, then one row per lead, joined by newlines; specified by `GenerateEmpty` and `GenerateRoundTrip` |
| CsvExport.GenerateEmpty | src/lib/csv-export.ts:38-41 | an empty lead list yields exactly the header line, which reads back as the thirteen headers |
| CsvExport.GenerateRoundTrip | src/lib/csv-export.ts:3-44 | the export reads back as the headers followed by each lead's values, in input order |
| CsvExport.TableRoundTrip | src/lib/csv-export.ts:38-41 | a header line and escaped records joined by newlines read back as headers and records |
| Places.LowerAll | src/lib/places-service.ts:59 | each type is lower-cased, position by position, into a new list of the same length |
| Places.ClassifyPlace | src/lib/places-service.ts:57-91 | `pool` exactly when the name has a pool word or the types include `swimming_pool`; `hoa` exactly when not pool and the name has an association word; `neighborhood` exactly when neither and an area type is present; `other` exactly when none holds |
| Places.LowerAllIdempotent | src/lib/places-service.ts:59 | lower-casing the types twice is lower-casing them once |
| Places.ClassifyIgnoresCase | src/lib/places-service.ts:58-59 | the case of the name and the types makes no difference |
| Places.PoolTypeWins | src/lib/places-service.ts:66-68 | a `swimming_pool` type in any case makes a pool, whatever the name says |
| Places.NeighborhoodOnlyFromTypes | src/lib/places-service.ts:82-88 | `neighborhood` needs an area type, so a place with no types is never one |
| Places.NameDecidesOnlyByWords | src/lib/places-service.ts:72-90 | past the pool and association words the name plays no part |
| SearchCache.Loaded | src/lib/search-cache.ts:37-56 | a state is returned exactly when a parseable entry is stored and is not more than an hour old, and then it is the stored state |
| SearchCache.AfterLoad | src/lib/search-cache.ts:45-49 | loading removes the entry exactly when it is expired, and otherwise leaves storage as it was |
| SearchCache.Cache.Save | src/lib/search-cache.ts:21-31 | the entry becomes the state stamped with the current time; a failed write leaves the old entry |
| SearchCache.Cache.Load | src/lib/search-cache.ts:37-56 | the result is `Loaded` of the stored entry, and the new entry is `AfterLoad` of it |
| SearchCache.Cache.Clear | src/lib/search-cache.ts:61-67 | the entry is removed |
| SearchCache.SaveThenLoad | src/lib/search-cache.ts:21-51 | saving, then loading within the hour, gives the saved fields with the save time, and keeps the entry |
| SearchCache.ExpiryIsFinal | src/lib/search-cache.ts:45-49 | an expired entry stays expired: later loads give nothing |
| SearchCache.LoadTwice | src/lib/search-cache.ts:37-56 | two loads at the same time answer the same |
| SearchCache.ServedForAnHour | src/lib/search-cache.ts:16-46 | a state is served up to exactly 3,600,000 ms after its timestamp, the boundary included |
| SearchCache.SaveLoadScenario | src/lib/search-cache.ts:21-67 | on a cache object, save then load within the hour gives the stamped state back, and clear then load gives nothing |
| LeadData.Apply | src/hooks/useLeadData.ts:122-237 | each action sets its own fields (an empty note, reason or contact value keeps the old one) and leaves every other field of the lead as it was |
| LeadData.UpdateWhere | src/hooks/useLeadData.ts:122-133 | only leads with the id change, each by the action; the order and every other lead are unchanged |
| LeadData.UpdateAbsentId | src/hooks/useLeadData.ts:122-133 | an id not in the list changes nothing |
| LeadData.EmptyContactInfoNoop | src/hooks/useLeadData.ts:226-237 | a contact-info edit with only empty values changes nothing |
| LeadData.UpdateTwice | src/hooks/useLeadData.ts:122-133 | applying the same action twice is applying it once |
| LeadData.ApplyTwice | src/hooks/useLeadData.ts:124-130 | the same for one lead |
| LeadData.ContactedThenUncontacted | src/hooks/useLeadData.ts:122-159 | marking contacted then uncontacted leaves the lead uncontacted, without a date |
| LeadData.DeleteWhere | src/hooks/useLeadData.ts:254-256 | the list shrinks by the number of leads with the id |
| LeadData.DeleteAppend | src/hooks/useLeadData.ts:254-256 | deletion keeps the order of the remaining leads |
| LeadData.DeleteExactly | src/hooks/useLeadData.ts:254-256 | no lead with the id remains, and every other lead remains as often as before |
| LeadData.StampOr | src/hooks/useLeadData.ts:64-73 | a stored timestamp gives its ISO text; anything else keeps the lead's own date |
| LeadData.Merge | src/hooks/useLeadData.ts:53-80 | a failed fetch or a missing document keeps the lead; otherwise each stored text field (contact person, e-mail, contact notes, rejection reason) replaces the lead's value exactly when it is non-empty, a stored `true` sets contacted or not-interested and anything else keeps the lead's flag, each date is the stored timestamp's ISO text or the lead's own; contacted and not-interested are never turned off; no other field changes |
| LeadData.MergeAll | src/hooks/useLeadData.ts:51-82 | each lead merged with its own fetch, in order |
| LeadData.EmptyMetadataNoop | src/hooks/useLeadData.ts:57-75 | a stored document with all fields empty changes nothing |
| LeadData.MergeIdempotent | src/hooks/useLeadData.ts:57-75 | merging the same document twice is merging it once |
| LeadData.MergeAllContactedMonotone | src/hooks/useLeadData.ts:63 | a lead contacted before the merge, or marked contacted in the store, is contacted after it |
| LeadData.FindById | src/hooks/useLeadData.ts:109 | a lead is found exactly when one in the list has the id, and it is the first lead in the list with that id |
| LeadData.LeadToMark | src/hooks/useLeadData.ts:103-113 | a lead passed in is used as is; an id is looked up in the list |
| LeadData.LeadList.Refresh | src/hooks/useLeadData.ts:40-97 | no leads gives an empty list; otherwise the error is cleared and the list is the merged leads |
| LeadData.LeadList.Fail | src/hooks/useLeadData.ts:134-138 | the error becomes the thrown message or the fallback, the list is kept, and the value is rethrown |
| LeadData.LeadList.MarkAsContacted | src/hooks/useLeadData.ts:99-142 | an unknown id throws `Lead with id … not found` before any store call; a store failure keeps the list and rethrows; otherwise only leads with the id are marked contacted |
| LeadData.LeadList.MarkAsUncontacted | src/hooks/useLeadData.ts:144-166 | the store is called; on success the leads with the id lose contacted and date; on failure the list is kept |
| LeadData.LeadList.MarkAsNotInterested | src/hooks/useLeadData.ts:168-211 | as marking contacted, with not-interested, its date and the reason |
| LeadData.LeadList.UpdateContactInfo | src/hooks/useLeadData.ts:213-246 | on success each of contact person, e-mail and notes is replaced only by a non-empty value; on failure the list is kept |
| LeadData.LeadList.DeleteLead | src/hooks/useLeadData.ts:248-265 | on success exactly the leads with the id are removed; on failure the list is kept |
| Contacts.Keep | src/components/contacts/ContactsTable.tsx:38-54 | the filter callback: the type test, then the case-insensitive search on name and address when the query is non-empty; specified by `FilterLeads`, `NoFilterKeepsAll` and `QueryIgnoresCase` |
| Contacts.FilterLeads | src/components/contacts/ContactsTable.tsx:38-54 | a lead is kept exactly when it is in the input and passes the type and text filters |
| Contacts.FilterCounts | src/components/contacts/ContactsTable.tsx:38-54 | each kept lead appears as often as in the input, and no dropped lead appears |
| Contacts.FilterAppend | src/components/contacts/ContactsTable.tsx:38 | filtering keeps the order |
| Contacts.NoFilterKeepsAll | src/components/contacts/ContactsTable.tsx:40-53 | type `all` with an empty query keeps every lead |
| Contacts.QueryIgnoresCase | src/components/contacts/ContactsTable.tsx:45-50 | the query's case does not matter |
| Contacts.Sign | src/components/contacts/ContactsTable.tsx:70 | the sign is negative or zero exactly when its argument is |
| Contacts.Compare | src/components/contacts/ContactsTable.tsx:57-76 | the sort comparator of each option; specified by `CompareByKey` and `DescendingIsSwapped` |
| Contacts.CompareByKey | src/components/contacts/ContactsTable.tsx:57-76 | each comparator is negative exactly when the first lead's sort key is smaller, and zero exactly when the keys are equal; a missing date counts as 0 |
| Contacts.DescendingIsSwapped | src/components/contacts/ContactsTable.tsx:59-72 | `name-desc` is `name-asc` with the arguments swapped, and `oldest` is `newest` swapped |
| Contacts.InsertPermutes | src/components/contacts/ContactsTable.tsx:57 | insertion adds exactly the one element |
| Contacts.InsertSorted | src/components/contacts/ContactsTable.tsx:57 | insertion keeps a list sorted |
| Contacts.InsertStable | src/components/contacts/ContactsTable.tsx:57 | among equal keys the inserted element comes first |
| Contacts.SortPermutes | src/components/contacts/ContactsTable.tsx:57 | the sort is a permutation |
| Contacts.SortSorted | src/components/contacts/ContactsTable.tsx:57 | the result is ordered by the key |
| Contacts.SortStable | src/components/contacts/ContactsTable.tsx:57 | leads with equal keys keep their input order |
| Contacts.Rows | src/components/contacts/ContactsTable.tsx:38-76 | the filtered leads, sorted; specified by `RowsSpec` |
| Contacts.RowsSpec | src/components/contacts/ContactsTable.tsx:38-76 | the rows are exactly the filtered leads, each as often as in the input, ordered so the comparator is never positive on a pair, with ties in input order |

## Left out

- Spreadsheet decoding (`XLSX.read`, `sheet_to_json`) and the file reader are foreign code. A decoded sheet is a function from cell to optional text, and a file is unreadable, undecodable or decoded.
- JavaScript `Date` parsing and formatting are parameters:
  - `toIso` stands for `parseDate` with `new Date(...).toISOString()`.
  - `Formats` stands for `toLocaleDateString` and the number texts in the CSV.
  - The current time is a parameter, as an ISO string or in milliseconds.
- Network and store calls, and the progress callback, are oracles giving a success value or the thrown value: the geocoding endpoint, `createManualLead`, `markAsContacted`, `createContract`, `getLeadData` and the store writes of the hook. What they do remotely is not modelled.
- BatchImport.Outcome: the `Could not geocode address` branch is not modelled. The geocoder either returns a location or throws, so that branch cannot be reached.
- EmailTemplates.ReplaceAll is a literal replace-all. The special replacement patterns of `String.replace` (`$&`, `$1`, …) in lead values are not modelled.
- Common.ToLower folds ASCII letters only. Unicode case folding is not modelled.
- Contacts.LocaleCompare: `localeCompare` is modelled as the sign of a difference of collation ranks. This covers any consistent collation: a total preorder on names. A collation that is not transitive is not modelled.
- Contacts.Time: a date string that does not parse (NaN in JavaScript) is not distinguished; the time function is total.
- Contacts.Rows: the in-place `sort` of the freshly filtered array is modelled on values. The `leads` prop is untouched because the model never changes its input.
- CsvExport.GenerateRoundTrip requires that the date and number texts need no quoting (`PlainFormats`). The source writes the Type, Rating, Distance and Contact Date columns without escaping.
- `downloadCSV`, `copyToClipboard` and all other DOM, Blob and clipboard effects.
- EmailTemplates.FillLeavesNoPlaceholder holds for templates built from brace-free text and placeholders, with values free of `{`. `PlaceholderCanSurvive` shows that the general statement is false.
- ContractPreview.PreviewTable.EditField requires the index to be in range. The source would create a new record past the end; the table only edits existing rows.
- LeadData.Merge models the declared metadata fields only. Extra fields of a stored document are not modelled: the full lead written by `markAsContacted` and `lastUpdated`, which the spread `...metadata` would copy onto the lead.
- LeadData.LeadList: the `loading` flag is not modelled, nor the outer `catch` of the metadata effect. Each per-lead fetch catches its own failure, so that `catch` cannot run.
- SearchCache: JSON serialisation is taken as faithful. A stored value that does not parse is `Unparseable`. An empty stored string, which `saveSearchState` never writes, is not distinguished from no entry.
- Rendering, styling and navigation of the React pages, the map and the modals.
