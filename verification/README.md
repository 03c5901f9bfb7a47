# survey-be: a Dafny model of the export and per-request logic

survey-be is the HTTP back end of a two-arm (control/experimental) research study.
It stores participants in a hosted database. It asks a hosted language model for
chat replies in three scripted rounds. It gives administrators a CSV export and
summary counts. This project models the deterministic logic inside that glue and
proves properties of it:

- the CSV export of `utils.js`: `escapeCSV`, `formatDemographicValue`, `rowsToCsv`
  and the label and question maps they read (modules `CsvWriter`, `Demographics`,
  `Export`, with an RFC 4180 reader in `CsvReader` to state the round trip);
- the screening handler: the exclusion test on the trimmed, lower-cased answer and
  the random condition draw (module `Screening`);
- system-prompt selection with substitution of the participant's concerns for the
  first placeholder, and the per-round greeting instruction (module `Prompts`);
- assembly of the message list from the stored chat, replaying turns of earlier
  rounds in stored order, and the append-only chat update (module `Transcript`);
- the admin stats counters (module `Stats`).

The JavaScript primitives this logic relies on are modelled on their own:
- `trim` with ECMAScript's whitespace set, ASCII `toLowerCase`/`toUpperCase`, and
  `split`/`join` on one character (module `JsStrings`);
- `String.prototype.replace` with a string pattern, including the `$` patterns of
  its replacement text (module `JsStrings`);
- `String(value)` and truthiness of the dynamic values in a row (module `JsValues`).

The database is a map from participant id to record (module `Participants`).
- A nullable text column is a string in which "" stands for null. Every use the
  server makes of such a column treats null and "" alike.
- A null chat column is the empty history.
- Updating a missing id changes nothing, as an update that matches no row does.

Several inputs are parameters of the model:
- the language model is a function from the message list to the reply text;
- the coin `Math.random() < 0.5` is a boolean;
- the time stamp of a new chat turn is a string;
- the locale rendering of the consent date is a function on strings.

Facts about the code that the model keeps:
- The screening handler writes only the answer and the baseline use; no field
  marks a participant as excluded (server.js:101-108, `Screening.Screen`).
- The update travels as JSON, which drops a key whose value is `undefined`, so a
  field the request omits keeps its stored value (`Screening.OmittedFieldsKept`).
- Placeholder substitution is not purely literal. JavaScript's `replace` expands
  `$$`, `$&`, `` $` `` and `$'` in the replacement (`Prompts.SystemPromptCases`
  states both the general form and the literal one for answers without `$`).
- The condition is not assigned at most once. A second screening redraws it
  (`Screening.ResubmissionRedraws`).
- A missing participant is not a 404. `.single()` reports an error when no row
  matches, so the handler throws. The model returns a `Failure` and leaves the
  status code out.

## Model

| member | source | states |
|---|---|---|
| JsValues.DecimalRoundTrip | utils.js:156 | the decimal text `String(n)` of a count reads back as that count |
| JsStrings.LowerIsNo | server.js:99 | `toLowerCase()` gives "no" exactly for the four spellings no, nO, No, NO |
| JsStrings.TrimSpec | server.js:99 | `trim()` returns a slice of its input with only ECMAScript whitespace cut off on either side, and neither end of the result is whitespace |
| JsStrings.TrimOfPadded | server.js:99 | a text with whitespace only outside positions i..j, and none at those ends, trims to exactly s[i..j] |
| JsStrings.SplitJoin | utils.js:69-71 | `split("-")` gives one more part than there are hyphens, no part holds a hyphen, and joining the parts with "-" gives the input back |
| JsStrings.IndexOf | server.js:146 | the index of the first occurrence of the pattern, or -1 when there is none: it is an occurrence and no earlier position is one |
| JsStrings.SubstitutionLiteral | server.js:146 | a replacement text without `$` is inserted literally |
| JsStrings.NoEarlyStartNoOccurrence | server.js:146 | when every position of lead either does not hold the first character of pat or is followed, inside lead, by a character other than its second, pat occurs at no position inside lead in lead + pat + tail, so `replace` finds the occurrence after lead first |
| JsStrings.ReplaceAfterPrefix | server.js:146 | `replace(pat, r)` on lead + pat + tail, where pat occurs at no position inside lead, keeps lead and tail, and puts r (after its `$` patterns) in its place; literally when r has no `$` |
| JsStrings.ReplaceAbsent | server.js:146 | `replace` leaves a text without the pattern unchanged |
| CsvWriter.EscapeText | utils.js:79-83 | a string with no comma, double quote or LF is returned unchanged; any other is wrapped in double quotes |
| CsvWriter.EscapedReadsBack | utils.js:79-83 | the body of a quoted string reads back under rule 7 of section 2 of RFC 4180 (inner quotes doubled) as the original string, with nothing left over |
| CsvWriter.EscapeCsv | utils.js:77-84 | null and undefined give ""; every other value gives the escaped form of `String(value)` |
| CsvWriter.ReadDoubled | utils.js:81 | a string with its quotes doubled, then a closing quote, reads back as a quoted field holding the string, the rest untouched |
| CsvWriter.ReadEscaped | utils.js:79-83 | every escaped cell reads back as exactly the cell text, up to the next comma or line break |
| CsvWriter.ReadLine | utils.js:158 | a line of escaped cells joined by commas reads back as its cell texts, in order |
| CsvWriter.ReadLines | utils.js:161 | lines joined by LF read back as their records, in order |
| CsvWriter.DocumentRoundTrip | utils.js:121-161 | a document of at least two non-empty records read back under RFC 4180 with LF line breaks gives exactly those records |
| Demographics.FormatDemographicValue | utils.js:57-75 | a falsy value, and only it, gives ""; for age_category, gender and education a known code gives its label and an unknown code itself; nationality and occupation are title-cased; any other field passes the value through |
| Demographics.TitleCaseIsCharwise | utils.js:68-71 | split on "-", upper-case each word's first character, join with " " is the same as reading the value character by character |
| Demographics.TitleCaseShape | utils.js:66-71 | title-casing keeps the length and leaves no hyphen; each hyphen becomes a space, each word's first character is upper-cased and every other character is kept; the word count is the hyphen count + 1 |
| Export.PushAnswers | utils.js:138-147 | the inner loop appends, in question order, the stored answer to each question, or "" when it is unanswered |
| Export.PushBaseValues | utils.js:127-135 | the nine base values pushed for a row are its base cells |
| Export.PushOtherValues | utils.js:150-156 | the seven trailing values appended for a row are its other cells |
| Export.RowValues | utils.js:124-156 | the values pushed for one row are exactly that row's cells, column by column |
| Export.PushRowLines | utils.js:122-159 | the `for (const row of rows)` loop appends, in input order, the CSV line of each row's cells |
| Export.RowsToCsv | utils.js:86-162 | the export built line by line with `push` is the text of the header and each row's line, in input order, joined by LF, and "" for a missing or empty table |
| Export.CsvLines | utils.js:121-158 | the `lines` array has rows.length + 1 entries |
| Export.RowWidth | utils.js:90-119 | the header has 9 + 12 + 12 + 7 = 40 columns and every row has exactly as many values |
| Export.RowSections | utils.js:126-156 | a row's cells are its base cells, then its ATTARI answers, then its TAI answers, then its other cells, at the header's positions |
| Export.RowFlagCells | utils.js:134-156 | the recruitment-experience and completed cells are exactly "Yes" or "No" according to the field's truth, and the last cell is the number of stored chat turns, 0 for no chat |
| Export.RowAnswerCells | utils.js:137-147 | a question's cell holds the stored answer when there is one and "" when the question is unanswered |
| Export.ExportRoundTrip | utils.js:121-161 | for a non-empty table the export reads back under RFC 4180 as rows.length + 1 records: the header, then each row's cell texts in input order |
| Export.ExportEmptyIff | utils.js:87 | the export is "" exactly when the table is missing or empty |
| Export.ExportedChatCount | utils.js:156 | each row's last exported field reads back as a decimal number equal to that row's chat length |
| Screening.ExcludedIff | server.js:99 | a participant is excluded exactly when the answer is a spelling of "no" with only whitespace around it |
| Screening.ScreeningExamples | server.js:99 | "No " is excluded and "I have some concerns" is not |
| Screening.Screen | server.js:96-123 | the answer and the baseline use the request carries are written in every case, and an omitted one keeps its stored value; the reply is `{excluded: true}` exactly when the answer (or "" when it is missing) is a trimmed spelling of "no"; otherwise the condition written is "control" exactly for a draw below 0.5 and "experimental" otherwise; an excluded participant keeps the condition stored before; no other participant or field changes, and an unknown id changes nothing |
| Screening.OmittedFieldsKept | server.js:98-104 | a request without `baseline_use` keeps the stored baseline use; one without `screening_text` keeps the stored answer and, reading as "", is assigned a condition |
| Screening.ResubmissionRedraws | server.js:101-115 | screening again with an answer that is not "no" replaces the condition by the new draw |
| Prompts.EffectiveCondition | server.js:139 | a stored condition is kept, and a missing one reads as "control" |
| Prompts.ExperimentalSubstituted | server.js:144-147 | substitution into the experimental template replaces its first placeholder by the answer and keeps the rest |
| Prompts.SystemPromptCases | server.js:144-147 | the control template is used exactly for "control" and the experimental one otherwise; the placeholder is replaced only for "experimental" with a non-empty answer, and then only its first occurrence |
| Prompts.SecondPlaceholderSurvives | prompts.js:27-31 | every non-control prompt still ends with the second placeholder and the text after it, whatever the answer |
| Prompts.GreetingDistinguishes | server.js:163-172 | two greeting instructions are equal exactly when they open the same round and, in rounds 1 and 2, agree on whether the condition is control |
| Prompts.GreetingFallsThrough | server.js:163-172 | any round other than 1 and 2, including 0 and 4, gets the round-3 text, whatever the condition |
| Transcript.ReplayedAppend | server.js:153-160 | replaying two stretches of history one after the other is replaying them joined, so stored order is kept |
| Transcript.ReplayedMembers | server.js:155 | a turn is replayed exactly when it is stored and its round is strictly less than the request's |
| Transcript.ReplayedAll | server.js:153-160 | a history entirely of earlier rounds is replayed whole |
| Transcript.ReplayedNone | server.js:153-160 | a history with no turn of an earlier round is not replayed at all |
| Transcript.PairsAt | server.js:156-157 | replayed turn k gives message 2k, the user's message, and message 2k + 1, the reply; none is a system message |
| Transcript.MessageShape | server.js:150-174 | the list has 2 + 2 × (replayed turns) messages: exactly one system message, first, with the condition's prompt; then the replayed pairs in stored order; then one user message at the end |
| Transcript.SelectSystemPrompt | server.js:144-147 | the prompt chosen and then reassigned is the condition's system prompt |
| Transcript.PushReplayed | server.js:153-160 | the `forEach` over the stored history appends a user message and an assistant message for each turn of an earlier round, in stored order, and nothing for the others |
| Transcript.BuildContext | server.js:139-160 | the messages built with `push` in `forEach` are the system prompt followed by the pairs of the turns of earlier rounds, in stored order |
| Transcript.HandleGreeting | server.js:126-189 | a missing participant is an error; otherwise the reply is the model's answer to the context followed by the round's greeting instruction, returned with the round; nothing is written |
| Transcript.AppendTurn | server.js:237 | the new history is one turn longer, keeps the old one as its prefix and ends with the new turn |
| Transcript.ReplayAfterAppend | server.js:237 | the appended turn is not replayed by requests of its own round or earlier, and is replayed, after the earlier turns, by every later round |
| Transcript.HandleChat | server.js:191-246 | a missing participant is an error and changes nothing; otherwise the reply is the model's answer to the context followed by the user's message, and the participant's history gains the turn {round, message, reply, time} at the end |
| Transcript.ChatChangesOnlyHistory | server.js:237-239 | a chat update changes no other participant and no other field, and lengthens the history by exactly one |
| Stats.Count | server.js:348-351 | a `filter(...).length` is at most the number of rows |
| Stats.CountIsMatching | server.js:348-351 | the count is the number of positions whose row satisfies the predicate |
| Stats.CountAppend | server.js:348-351 | counts over two batches add up |
| Stats.CountDisjoint | server.js:349-350 | two predicates no row satisfies together count at most the number of rows between them |
| Stats.AdminStats | server.js:346-352 | total is the row count; completed, control, experimental and excluded are the numbers of rows that have completed, are in the control arm, are in the experimental arm, and whose answer lower-cases to "no"; completed and excluded are at most total; control + experimental is at most total; every row counted as excluded was excluded at screening |
| Stats.CountedIsScreenedOut | server.js:351 | an answer that lower-cases to "no" is excluded by the screening test too |
| Stats.TrailingSpaceNotCounted | server.js:351 | a participant who answered "No " was excluded at screening but is not counted as excluded |
| Stats.CountedExcludedIff | server.js:351 | a row is counted as excluded exactly when its stored answer is one of no, nO, No, NO |
| Stats.CorrectedAdminStats | server.js:346-352 | the stats with excluded counting the rows whose stored answer passes the screening test; every other counter as the handler computes it |
| Stats.CorrectedExcludedCounts | server.js:346-352 | the corrected excluded counter is the number of rows the screening test excludes; it is never below the handler's and equals it when every excluded answer lower-cases to "no" |
| Stats.CorrectedStatsAdd | server.js:346-352 | the statistics of two batches of participants add up, counter by counter |

## Left out

- Express setup, routing, body parsing, CORS, logging, the health endpoint and `listen`: framework plumbing with no logic of its own.
- The participant, demographics, scales, complete, login and admin list/detail handlers: each is a single database read or write, with no logic to verify.
- The database calls themselves: the table is a map passed in and returned. Errors from the database and the 500 response they produce are not modelled.
- Concurrent requests: two chat requests racing on the read-modify-write of the history (last writer wins) are concurrency.
- The language-model call: its reply is the value of a function parameter. Model name, token limit and response parsing are out.
- `Math.random`, `new Date()` and `toLocaleString()`: the draw is a boolean, the time stamp a string and the consent-date rendering a function parameter, since all three depend on the clock, randomness or locale.
- Admin token checks: equality against an environment variable.
- The prose of the two system prompts: it is replaced by shorter stand-ins. The control stand-in has no placeholder. The experimental one holds it twice. Its lead keeps a "Primary goal" line, so the placeholder's first letter occurs before the first placeholder, but never followed by its second letter. Only the greeting instructions are verbatim.
- HTTP status codes: a missing participant is a `Failure`, and the code the response carries is not modelled.
- Request fields of the wrong type: rounds are integers, screening answers and chat messages are strings, and demographic values are strings. The server does not check any of these.
- Values of rows that are not strings or simple scalars: `Value` has no objects, arrays or floating-point numbers.
- JsValues.ToJsString: integers print with every digit; `String(n)` switches to exponent form from 10^21 on and loses precision above 2^53, which no count or stored answer here reaches.
- Screening.Screen: a request that omits both fields sends an empty update; the model changes nothing for it, and how the database answers an empty update is not modelled.
- `toLowerCase`/`toUpperCase` outside ASCII, and `charAt` on UTF-16 code units: strings are sequences of Unicode scalar values and case mapping is ASCII only.
- Label lookups of keys inherited from `Object.prototype` (a code such as "constructor"): the label maps hold only their own entries.
- Stats.Count: states only the bound in its own contract; what it counts is stated by Stats.CountIsMatching.

## Findings

| source | as written | input that shows it | evidently intended | confidence | as-written member | corrected member |
|---|---|---|---|---|---|---|
| server.js:351 | the stats count a participant as excluded when `screening_text?.toLowerCase() === "no"`, with no `trim()` | a participant whose answer is "No " is excluded by the screening handler (server.js:99) but not counted as excluded | the excluded counter counts the participants the screening handler excluded | not executed; medium, since the two tests are meant to describe the same participants | Stats.TrailingSpaceNotCounted | Stats.CorrectedExcludedCounts |
