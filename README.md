# automate-vuln: a Dafny model of the audit-to-tracker core

The scripts run `yarn npm audit -R --json`, turn its output into vulnerability records,
and open one tracker ticket (a child of an epic) for each vulnerability that is not
yet tracked. They also keep a file that maps each vulnerability id to its ticket.
This project models the sequential logic of those scripts and proves properties of it:

- `AuditDecode` (audit.js, `runYarnAudit`).
  Every stdout chunk is split on `"\n"`.
  Every line is decoded as JSON.
  A line that decodes to an object with a truthy `value` and truthy `children` becomes a flat `Vulnerability` record.
  Every other line is skipped.
  `DecodeChunk` and `CollectVulnerabilities` are the `forEach`/`push` loops.
  They are proved equal to the filter-map `DecodeLines`.
  Lemmas then characterise that filter-map: which lines are kept, order, length and chunk-wise decoding.
- `Ticket` (audit.js, `createJiraTicket`).
  It builds the summary `[SEVERITY] Vulnerability in <module>`.
  It builds the inline description with its three `"N/A"` fallbacks.
  It builds the issue type and the parent epic.
  When the record has no severity, tree versions or dependents, evaluating these fields throws a TypeError.
  That throw is the `Err` outcome.
- `Tracking` (audit.js, `main`).
  This is the `for...of` loop over the records.
  A record whose id is already tracked is skipped.
  Any other record leads to a creation request.
  When the tracker returns a truthy key, the entry `{module_name, ticketKey}` is inserted.
  The whole map is then saved.
  A throw while composing the request ends `main`: the promise rejection reaches `main().catch`.
  In the model this is `completed == false`, and no later record is looked at.
  `TrackVulnerabilities` is the loop, proved equal to the specification function `Run`.
  Lemmas about `Run` prove the run-level invariants:
  keys are only added, at most one success per id, one save per success with each save the full current map, provenance of every new entry, and idempotence across runs.
- `Jira` (utils/jira.js).
  `FriendlySeverity` is `jiraFriendlyCaseSeverity`: case-sensitive `"info"`/`"moderate"` renaming and title-casing of every other label.
  `ChildIssues` is the projection of a search response in `fetchChildIssues`.
- `Files` (utils/files.js, `loadIssueTemplate`).
  `Render` is the global replacement of every lazy, single-line `{{...}}` match by the data value under its trimmed inner text (or `"N/A"`).
  It is written as the regular-expression engine works: a left-to-right scan reads the template into literal characters and matches (`Pieces`), and each piece is then filled in (`Fill`).
  The reading is proved to lose nothing (`Unparse`), and each match is proved to be lazy and single-line.
- `Text` holds the JavaScript string operations the scripts rely on.
  These are ASCII `toUpperCase`, `trim`, `join` and `split` on one character.
- `Wrappers` holds `Option` and `Result`.

External effects are parameters:

- JSON decoding is `parse: string -> Option<JsonLine>`.
- The tracker's answers to the creation calls are `responses`, one per record.
- The tracking file is the map passed in.
- The writes to the tracking file are the returned sequence `saves`.
- The template and the data object of `loadIssueTemplate` are arguments.

## Behaviour worth noting

- The severity match is case-sensitive: only the exact labels `info` and `moderate` are renamed. The lower-cased value computed first is never used.
- `createJiraTicket` sets no priority. `jiraFriendlyCaseSeverity` is not called from audit.js.
- The description is an inline template literal. `loadIssueTemplate` is not used by audit.js, so `Files` is modelled on its own.
- There is no drift correction. The scripts do not drop tracked entries whose tickets are closed or missing, and do not adopt untracked children of the epic.
- There is one report shape (`{value, children}`) and no dispatch on format family.
- With repeated ids in one scan, the first record whose creation succeeds wins. Later records with that id are skipped, because the id is then tracked. There is no last-write-wins rule.

## Model

| member | source | states |
|---|---|---|
| `AuditDecode.DecodeLine` | audit.js:43-63 | a line yields a record iff it decodes and has a non-empty `value` and present `children`; the record's fields are `module_name = value`, `id = children.ID`, issue, URL, severity, vulnerable versions, tree versions and dependents copied from `children` |
| `AuditDecode.DecodeLines` | audit.js:42-64 | the records of a run of lines, one per decodable report line, in line order; never more records than lines (kept lines are characterised by `DecodeLinesOrigins`) |
| `AuditDecode.DecodeLinesOrigins` | audit.js:42-64 | record j comes from line `KeptLines[j]`; the kept indices are strictly increasing (record order is line order); a line is kept iff it decodes to a report line; never more records than lines |
| `AuditDecode.DecodeLinesAppend` | audit.js:40-65 | decoding is line by line: the records of `a + b` are the records of `a` followed by those of `b` |
| `AuditDecode.DecodeChunk` | audit.js:40-64 | one call of the `data` handler returns exactly the records of the chunk's `"\n"`-separated lines, in order (loop proved against `DecodeLines`) |
| `AuditDecode.CollectVulnerabilities` | audit.js:37-65 | the array resolved by `runYarnAudit` is the records of all lines of all chunks, chunk after chunk, as in `DecodeLines(StreamLines(chunks))` |
| `Text.Upper` | audit.js:99 | ASCII `toUpperCase`: keeps the length, and maps each character to its upper-case form, leaving every non-lower-case character as it is |
| `Text.Trim` | utils/files.js:26 | `trim`: the result neither starts nor ends with JavaScript white space or a line terminator; `TrimSplits`, `TrimUnpadded` and `TrimPadded` pin down which string it is |
| `Text.Split` | audit.js:41 | `split` on one character: at least one piece, and no piece contains the separator |
| `Text.JoinSplit` | audit.js:41 | `split("\n")` loses nothing: joining the pieces with the separator gives the chunk back |
| `Text.JoinEmptyIff` | audit.js:105-106 | `join(", ")` is empty iff the list is empty or a single empty string |
| `Text.TrimPadded` | utils/files.js:26 | `trim` ignores surrounding white space: `trim(pre + s + post) == trim(s)` for all-white-space `pre`, `post` |
| `Text.TrimUnpadded` | utils/files.js:26 | a string with no white space at either end is its own trim |
| `Text.TrimSplits` | utils/files.js:26 | the trim is a contiguous middle part `s[i..j]` of the string, with only white space before `i` and after `j`; with `TrimPadded` and `TrimUnpadded`, `trim` is the string with its outer white space removed and nothing else |
| `Ticket.Summary` | audit.js:99 | the summary is `[`, the upper-cased severity, `] Vulnerability in `, then the module name, with these lengths and positions |
| `Ticket.SummarySeverityLength` | audit.js:99 | two equal summaries come from severities of the same length, because the fixed infix cannot sit at two places inside one summary |
| `Ticket.SummaryInjective` | audit.js:99 | equal summaries have severities of equal length, equal module names and equal upper-cased severities, for all inputs |
| `Ticket.SummaryCaseInsensitive` | audit.js:99 | upper-casing the severity first does not change the summary |
| `Ticket.SummaryUpperCased` | audit.js:99 | the severity part of the summary contains no lower-case letter |
| `Ticket.OrFallback` | audit.js:104 | a string with its `"N/A"` fallback: never empty, the text itself when it is non-empty, `"N/A"` when it is empty |
| `Ticket.ListText` | audit.js:105-106 | a list's text is never empty, and is its `", "`-joined text whenever that is non-empty |
| `Ticket.ListTextFallback` | audit.js:105-106 | a joined list renders as `"N/A"` iff (up to a literal "N/A" text) it is empty or `[""]`, and otherwise as its `", "`-joined text, never empty |
| `Ticket.DescriptionLines` | audit.js:100-108 | the description template has nine lines: the issue id, the issue, the severity as given (not upper-cased) and the URL written as a link to itself come first, and the last two are a blank indented line and the closing request |
| `Ticket.DescriptionFallbacks` | audit.js:100-108 | the description's vulnerable-versions line reads `"N/A"` when that field is empty; the tree-versions and dependents lines read `"N/A"` when their list is empty or `[""]`; otherwise each line shows the value |
| `Ticket.ComposeIssue` | audit.js:94-116 | building the request fails exactly when the record is not `Composable` (severity, tree versions or dependents missing), with the error of the first missing one in evaluation order |
| `Tracking.TrackVulnerabilities` | audit.js:145-166 | the loop returns exactly the final map, the sequence of saved maps and the completion flag of the specification `Run` over all records; it sends one creation request per record `Run` requested, and each request is the issue `ComposeIssue` builds from that record |
| `Tracking.Step` | audit.js:148-165 | one record: when the run has ended or the id is tracked nothing changes (the `continue` of line 152); at most one creation request is sent |
| `Tracking.Run` | audit.js:147-166 | the state after the first n records; never more creation requests than records |
| `Tracking.StepConsistent` | audit.js:150-165 | one iteration keeps the run invariant `Consistent` |
| `Tracking.CreationConsistent` | audit.js:159-164 | inserting `{module_name, ticketKey}` under an untracked id and saving the map keeps `Consistent` |
| `Tracking.StepKeepsEntries` | audit.js:150-165 | one iteration either leaves the map as it is or adds an entry under the record's id, which was untracked; no entry is removed or replaced |
| `Tracking.RunConsistent` | audit.js:147-166 | at every point of a run: initial entries are unchanged; every extra key was created in this run; no id succeeds twice or was tracked before; saves equal successes in number, never exceed requests, save j is the full map at that point and the last save is the current map |
| `Tracking.RunProvenance` | audit.js:159-164 | every entry added in a run is `{module_name, ticketKey}` of the FIRST record with that id whose creation returned a truthy key; later records with that id never replace it |
| `Tracking.AbortedStays` | audit.js:158 | once composing a request has thrown, later records change nothing |
| `Tracking.AllTrackedIsNoop` | audit.js:150-153 | records whose ids are all tracked cause no creation request, no save and no change to the map |
| `Tracking.RunCoverage` | audit.js:147-166 | after a run that did not abort, every record's id is tracked unless that record's own creation returned no key |
| `Tracking.RerunCreatesNothing` | audit.js:147-166 | a second run over the same records, starting from the map of a completed run whose creations all succeeded, sends no request and changes nothing |
| `Jira.FriendlySeverity` | utils/jira.js:36-48 | exactly `"info"` maps to `"Minor"` and exactly `"moderate"` to `"Medium"`; any other label keeps its length and everything after its first character, which is upper-cased |
| `Jira.FriendlySeverityShape` | utils/jira.js:39-44 | the result is empty iff the label is, and never starts with a lower-case letter |
| `Jira.FriendlySeverityIdempotent` | utils/jira.js:36-48 | mapping a priority label again changes nothing |
| `Jira.FriendlySeverityTable` | utils/jira.js:39-44 | info→Minor, moderate→Medium, low→Low, high→High, critical→Critical, hIGH→HIGH, Info→Info, MODERATE→MODERATE, ""→"" |
| `Jira.ChildIssues` | utils/jira.js:67-71 | the child issues of a search response, one per issue (same length) |
| `Jira.ChildIssuesPointwise` | utils/jira.js:67-71 | the projection keeps length and order; child i is `{key, summary: fields.summary, status: fields.status.name}` of issue i |
| `Jira.ChildIssuesAppend` | utils/jira.js:67-71 | projecting a concatenation is concatenating the projections |
| `Files.FindClose` | utils/files.js:25 | the lazy `(.*?)}}` from a given point ends at the first `}}`, and only if no line terminator comes before it; it fails iff every `}}` has a line terminator before it |
| `Files.Lookup` | utils/files.js:26 | the replacement is never empty; it is the value under the trimmed key whenever that value is present and non-empty, and `"N/A"` iff the trimmed key is missing or its value is empty (or literally "N/A") |
| `Files.Render` | utils/files.js:24-27 | the global replacement: the pieces found by the scan, each literal copied and each placeholder replaced by its lookup, in order; it carries no contract of its own. `LiteralHeadRendered` (no match starts at the scan point) and `PlaceholderRendered` (a `{{key}}` match starts there), with `FindClose` deciding which case holds, fix its result on every template; `LiteralCopied`, `NoPlaceholderUnchanged` and `MultiLineStaysLiteral` are consequences |
| `Files.UnparsePieces` | utils/files.js:24-27 | reading the template into literals and placeholders loses nothing: the template is recovered from its pieces |
| `Files.PiecesAreKeys` | utils/files.js:25 | each placeholder's inner text has no line terminator and ends at the first `}}` (lazy, non-overlapping matches) |
| `Files.PlaceholderRendered` | utils/files.js:24-27 | `{{key}}` becomes the value stored under `trim(key)`, or `"N/A"` when that is missing or empty, and scanning resumes right after its `}}` |
| `Files.TrimmedKeysAgree` | utils/files.js:26 | padding the key with white space does not change its replacement |
| `Files.PaddedPlaceholderAgrees` | utils/files.js:26 | `{{ id }}` and `{{id}}` render alike |
| `Files.LiteralCopied` | utils/files.js:24-27 | text with no `{` is copied verbatim and in order |
| `Files.NoPlaceholderUnchanged` | utils/files.js:24-27 | a template with no `{{` is returned unchanged |
| `Files.LiteralHeadRendered` | utils/files.js:24-27 | where no match starts (no `{{`, or a `{{` whose lazy match fails), the first character is copied and the scan moves on by one character |
| `Files.MultiLineUnclosed` | utils/files.js:25 | a match whose brace-free inner text holds a line terminator fails, whatever follows it |
| `Files.MultiLineStaysLiteral` | utils/files.js:25 | a `{{ ... }}` whose inner text holds a line terminator stays literal, braces included, and the rest of the template is rendered after it |

## Left out

- Running `yarn` as a subprocess is not modelled (audit.js:35-39, 67-78). Nor are stderr logging or the rule that the promise resolves only on exit code 1. The chunks of standard output are a parameter.
- `JSON.parse` is the parameter `parse`. `None` stands for text it rejects and for values that are not objects.
  - `value` is a string, and `""` stands for every falsy value.
  - A missing `children` is `None`.
  - `ID` is a string: object keys are strings in JavaScript, and a numeric ID is coerced to one.
  - An absent `Vulnerable Versions` is `""`.
  - Non-string or non-array field values of other shapes are not modelled.
- The creation post of `createJiraTicket` is the `responses` oracle: its key, or `None` for the `null` it returns on a failed request.
- The search request of `fetchChildIssues` is not modelled. The issues of its response are the argument of `Jira.ChildIssues`, and the error path (logging and rethrow) is not modelled.
- `getJiraTicketStatus` (utils/jira.js:10-34) is not modelled: it is one HTTP request with its 404 handling, and no code shown calls it.
- Authentication and request headers are not modelled.
- `loadTrackedVulnerabilities` and `saveTrackedVulnerabilities` are not modelled: reading and writing the file is I/O. The loaded map is an argument, and each write is one element of `saves`.
- Environment configuration and `process.exit` are not modelled.
- utils/yarn.js (`getYarnVersion`) is not modelled: it only wraps `execSync`.
- Logging and the async/Promise structure are not modelled. Records are processed strictly one after another, as the `await` does.
- `toUpperCase` is modelled for ASCII only. Full Unicode case mapping can change length and is not modelled.
- Only the pattern `{{(.*?)}}` is modelled, as a direct scan, not a general regular-expression engine.
- `Tracking.Step`: `trackedVulnerabilities[id]` is modelled as map membership. In JavaScript, ids such as `constructor` or `__proto__` read inherited properties and count as tracked. Entries loaded from the file whose value is falsy count as untracked in JavaScript. Neither case is modelled.
- `Files.Render`: the data object is modelled as `map<string, string>`. Falsy non-string values (`0`, `false`, `null`) and the string conversion of other values are not modelled.
- `Ticket.ComposeIssue`: its contract states only when composition fails and with which error. The fields of a composed issue are stated by `Summary` and `DescriptionFallbacks`, not by its own `ensures`.
- Drift correction, format-family dispatch and priority setting are not modelled: they do not appear in the code.
