# 52-weeks planner — a verified model of its core logic

52-weeks is a React/Supabase planner for the 52 weeks of a year. Each week has a
focus text and seven day texts. This project models the planner's dependency-free
library logic in Dafny and proves properties of that model. The model covers:

- **Line markup** (`TextParser`). A day's text is split into lines. Each line gets:
  - a status from the inline `++` (done) and `+-` (partial) markers;
  - a type from an ordered rule list (header, subtask, task);
  - an optional leading time token such as `10`, `10:00`, `10-11` or `10:00 - 12:30`, which is stripped from the display text and normalised.

  `countStats` counts the task lines by status. The source's regular expressions are replaced by small scanners. Each scanner is argued to give the regex's own match, backtracking included.
- **Week text codec** (`WeekExport`, `WeekRoundTrip`).
  - The export writes a week as plain text: a title, an optional 🎯 focus block, then the seven days, each as its name, its content (or `* `) and a blank line. The whole is trimmed.
  - The import is a line-by-line state machine. It reads such a text back into a focus text and a list of days, or gives no result (`null` in the source).
  - Both are imperative loops, proved equal to specification functions.
  - The round trip export→import is proved for every week whose contents cannot be mistaken for markup.
- **Calendar navigation** (`DateUtils`): quarters of 13 weeks, the weeks of a quarter and of a year, and the previous and next week across year boundaries.
- **One-time-password rate limiting** (`RateLimit`): a ten-minute sliding window of at most ten requests, a one-minute cooldown, and whole-second retry times. The stored history is a class field.
- **E-mail whitelist** (`EmailWhitelist`): comma-separated allowed e-mails, compared after trimming and lower-casing.
- **Translation helpers** (`Translation`): `{{key}}` interpolation and the choice of a plural form.

Shared string primitives (`trim`, `split`, `join`, `toLowerCase`, `indexOf`,
`includes`, `startsWith`) are in `Strings`, an `Option` type is in `Wrappers`,
and integer ceiling division is in `Arith`.

Modelling choices:

- Strings are sequences of Unicode scalar values. `trim` removes the ECMAScript whitespace and line-terminator characters. `toLowerCase` lower-cases two ranges only: `A`-`Z`, and U+0400-U+042F (the Cyrillic capitals `Ѐ`-`Я`).
- Integers are unbounded. Every quantity the modelled code computes is an integer of a few digits, so wrap-around does not arise.
- Values that the source reads from the environment become parameters:
  - the clock (`Date.now()`) is a parameter `now`;
  - the two formatted dates of the export title are string parameters;
  - the week count of a year is a function parameter `weeksIn`. Most lemmas that need it assume only 52 or 53 weeks. The source computes `weeksIn(y)` as `getISOWeeksInYear(new Date(y, 0, 1))`. That is the week count of the ISO 8601 week-numbering year that holds 1 January of `y` (section 4.1.4 of ISO 8601:2004). It is the count of ISO year `y - 1` when 1 January falls on a Friday, Saturday or Sunday. Both that count (`DateUtils.JanFirstWeeks`) and the count of ISO year `y` (`DateUtils.IsoWeeksInYear`) are modelled from day counts; see "## Findings";
  - the `VITE_ALLOWED_EMAILS` build variable is an `Option<string>`;
  - the history in `localStorage` is the field `RateLimit.HistoryStore.stored`.

## Model

| member | source | states |
|---|---|---|
| TextParser.ParseContent | src/lib/text-parser.ts:9-51 | one record per `'\n'`-separated segment, in order; record `i` is the parse of segment `i`; joining the records' texts with `'\n'` gives back the input |
| TextParser.ParseLine | src/lib/text-parser.ts:10-49 | a record's `text` is its line untrimmed, and no line is typed `note` |
| TextParser.ParsedTextsAreLines | src/lib/text-parser.ts:10 | no record's text holds a line break |
| TextParser.ParseContentConcat | src/lib/text-parser.ts:9-10 | parsing two texts joined by a line break is parsing each and concatenating |
| TextParser.StatusFromMarkers | src/lib/text-parser.ts:13-23 | status is done iff the trimmed line contains `++`, partial iff it contains `+-` but not `++`, none otherwise |
| TextParser.StripMarkerAbsent | src/lib/text-parser.ts:19 | removing `\s*++\s*` matches from a string without `++` changes nothing |
| TextParser.AcronymIsCapitalizedWord | src/lib/text-parser.ts:29 | every all-caps acronym is already a capitalised word, so the second header pattern adds nothing |
| TextParser.TypeRules | src/lib/text-parser.ts:25-36 | header iff the trimmed line is one capitalised Latin/Cyrillic word; else subtask iff it starts with `—` or `-`; else task |
| TextParser.HeaderHasNoStatus | src/lib/text-parser.ts:17-31 | a header line always has status none, as `+` is not a letter |
| TextParser.SubtaskDisplay | src/lib/text-parser.ts:33-36 | for a subtask, one leading dash and the whitespace after it are removed from the marker-stripped text |
| TextParser.BlankLineIsTask | src/lib/text-parser.ts:11-47 | a blank line is an unmarked task with empty display text and no time |
| TextParser.PlainLineShowsTrimmed | src/lib/text-parser.ts:15-47 | an unmarked, non-subtask line without a time displays its trimmed text |
| TextParser.MatchTime | src/lib/text-parser.ts:40 | a time match starts with a digit; its token is a time token; one or more whitespace characters follow it, and all of them are taken |
| TextParser.MatchTokenAt | src/lib/text-parser.ts:40 | the converse: a time token that starts the text, followed by whitespace up to a character that is not whitespace (nor, after a single clock, a hyphen) or the end, is matched with exactly that token and length |
| TextParser.StripMarkerRemoves | src/lib/text-parser.ts:19-21 | a marker with the whitespace around it at the start of a text is removed, and the removal goes on with the rest |
| TextParser.TimeTaken | src/lib/text-parser.ts:40-47 | on any line, a time token and whitespace at the start of the text left for the time step give that token, normalised, as the time and the rest as the display text |
| TextParser.TimedLineFinds | src/lib/text-parser.ts:10-47 | a trimmed line without `+` that starts with a time token and its whitespace is an unmarked task with that time and the rest of the line as display text |
| TextParser.TimedLine | src/lib/text-parser.ts:10-47 | the same for a line built as token, whitespace and a trimmed rest |
| TextParser.ClockLine | src/lib/text-parser.ts:10-47 | a single clock keeps its form as the time |
| TextParser.RangeLine | src/lib/text-parser.ts:10-47 | a range of two clocks, with any whitespace around its hyphen, becomes the two clocks around `" - "` |
| TextParser.DoneLine | src/lib/text-parser.ts:10-47 | `++`, whitespace and a rest without `+` or a leading digit give a done task whose display text is the rest |
| TextParser.DigitLine | src/lib/text-parser.ts:10-47 | a trimmed line without `+` that starts with a digit is an unmarked task, and its time and display text are those of the time match on the whole line |
| TextParser.ClockLineExample | src/lib/text-parser.ts:10-47 | `10:00 Standup` has time `10:00` and display text `Standup` |
| TextParser.RangeLineExample | src/lib/text-parser.ts:10-47 | `10 - 11:30 Deep work` has time `10 - 11:30` and display text `Deep work` |
| TextParser.DoneLineExample | src/lib/text-parser.ts:10-47 | `++ Buy milk` is done, with display text `Buy milk` and no time |
| TextParser.TimeNeedsWhitespace | src/lib/text-parser.ts:40 | `10:00` alone yields no time, as the expression needs whitespace after the token |
| TextParser.LongDigitRunNoTime | src/lib/text-parser.ts:40 | `1234 x` yields no time, as four digits are no hour |
| TextParser.NoTimeKeepsText | src/lib/text-parser.ts:40-47 | no time is set exactly when the time expression does not match; the display text is then left as it was |
| TextParser.TimeExtraction | src/lib/text-parser.ts:40-47 | with a time, the earlier display text is the token, its whitespace and the new display text; the time is the token normalised |
| TextParser.TimeNormalForm | src/lib/text-parser.ts:45 | a time token without a hyphen is kept; a range becomes its two clocks around `" - "` |
| TextParser.NormalizeFirstHyphen | src/lib/text-parser.ts:45 | only the first hyphen and the whitespace around it are replaced by `" - "` |
| TextParser.RangeNormalized | src/lib/text-parser.ts:45 | `"10-11"` becomes `"10 - 11"` |
| TextParser.CountStats | src/lib/text-parser.ts:53-62 | `done + partial <= total <= ` number of lines |
| TextParser.LineStats | src/lib/text-parser.ts:53-61 | a single line counts 1 in the total iff it is a task, and 1 as done or as partial iff it is a task with that status; headers and subtasks count nothing |
| TextParser.StatsOfThree | src/lib/text-parser.ts:53-61 | the counts of three lines joined by line breaks are the sums of their counts |
| TextParser.CountStatsExample | src/lib/text-parser.ts:29-61 | `countStats("++ A\n+- B\nC")` is total 2, done 1, partial 1: the one-letter line `C` matches the header pattern and is not counted |
| TextParser.CountBounds | src/lib/text-parser.ts:55-60 | the done and the partial tasks are among the tasks, and the tasks among the lines |
| TextParser.StatsConcat | src/lib/text-parser.ts:53-62 | the counts of two texts joined by a line break are the sums of their counts |
| WeekExport.DayContent | src/lib/week-export.ts:42-43 | the content of the first day with that index, or empty when there is none |
| WeekExport.ExportWeekToText | src/lib/week-export.ts:18-57 | the loop builds exactly the export text, which is trimmed |
| WeekRoundTrip.SplitExport | src/lib/week-export.ts:27-56 | the export's lines are the title, a blank line, the focus block only for a non-blank trimmed focus, then days 0..6 in order, each its locale name, its trimmed content or `* `, and a blank line (the last day's padding trimmed) |
| WeekRoundTrip.ExportLinesNoBreaks | src/lib/week-export.ts:27-54 | no exported line holds a line break when the dates hold none |
| WeekExport.ParseDayNameMatches | src/lib/week-export.ts:151-170 | for each `i` in 0..6, `parseDayName` is `i` iff the lower-cased, trimmed text is the `i`-th Russian, English or full English day token; -1 iff it is none of them |
| WeekExport.ParseDayName | src/lib/week-export.ts:151-170 | the result is -1 or a day index 0..6 whose token the normalised text is |
| WeekExport.LookupMatches | src/lib/week-export.ts:154-169 | the three lookups in order find the index of the token |
| WeekExport.TokensApart | src/lib/week-export.ts:155-165 | no token of a later table is in an earlier one, so the order of lookups does not matter |
| WeekExport.ImportWeekFromText | src/lib/week-export.ts:62-146 | the result is the loop's final state with the last open day saved, or none when no day and no focus was found |
| WeekExport.ImportLines | src/lib/week-export.ts:67-126 | the loop over the lines computes exactly the import step folded over them in order |
| WeekExport.ImportLine | src/lib/week-export.ts:77-125 | one pass of the loop body updates the state exactly as the import step does |
| WeekExport.FoldAppend | src/lib/week-export.ts:76-126 | running the loop over two stretches of lines is running it over the first, then over the second |
| WeekExport.ImportNullIff | src/lib/week-export.ts:137-139 | no result exactly when no day marker was seen and the focus text is empty |
| WeekExport.ImportedDaysWellFormed | src/lib/week-export.ts:92-134 | every imported day has index 0..6 and trimmed content |
| WeekExport.ImportedDaysInOrder | src/lib/week-export.ts:92-134 | the days appear in the order their markers occur in the input |
| WeekExport.FoldWellFormed | src/lib/week-export.ts:76-126 | the loop keeps the state well formed |
| WeekExport.FoldOpened | src/lib/week-export.ts:92-110 | the opened days are those opened before plus the markers of the lines, in order |
| WeekExport.DroppedBeforeFirstDay | src/lib/week-export.ts:122-125 | outside a focus section and before the first marker, a plain line is dropped |
| WeekExport.TitleSkippedAtStart | src/lib/week-export.ts:80-83 | a title line is skipped when it is line 0 |
| WeekExport.LineJoinsOpenDay | src/lib/week-export.ts:122-125 | after line 0, any plain line, a title line included, joins the open day |
| WeekExport.FocusBlankLine | src/lib/week-export.ts:114-118 | in a focus section, a blank line closes it after one or more focus lines and is ignored before them |
| WeekExport.FocusLineCollected | src/lib/week-export.ts:119-121 | in a focus section, a non-blank plain line is collected |
| WeekExport.FocusClosedByDay | src/lib/week-export.ts:94-98 | a day marker closes the focus section with the joined, trimmed focus lines |
| WeekExport.FoldFocusLines | src/lib/week-export.ts:114-121 | a run of non-blank plain lines is all collected into the focus section |
| WeekExport.UnclosedFocusDropped | src/lib/week-export.ts:128-139 | a focus section that runs to the end of the input leaves no focus, so the import gives no result |
| WeekRoundTrip.ExportTextLines | src/lib/week-export.ts:32-56 | the exported text is its lines joined by line breaks |
| WeekRoundTrip.DayNameParses | src/lib/week-export.ts:12-13 | each locale's `i`-th day name parses back to `i` and is no focus heading |
| WeekRoundTrip.FocusPartStep | src/lib/week-export.ts:35-38 | the import reads the exported focus block back as the trimmed focus |
| WeekRoundTrip.DaysStep | src/lib/week-export.ts:41-54 | the import reads exported days 0..5 back as their blocks, in order |
| WeekRoundTrip.LastStep | src/lib/week-export.ts:41-56 | the import reads the last day's trimmed block as day 6 |
| WeekRoundTrip.ExportImportRoundTrip | src/lib/week-export.ts:18-146 | importing an export gives the trimmed focus and days 0..6 in order, each with its trimmed content, or `*` when blank, for every week whose focus and day lines are not markup and whose focus has no blank line |
| DateUtils.QuarterFromWeek | src/lib/date-utils.ts:67-69 | `ceil(week / 13)`: `13 * (q - 1) < week <= 13 * q` |
| DateUtils.QuarterBands | src/lib/date-utils.ts:67-69 | weeks 1-13 give 1, 14-26 give 2, 27-39 give 3, 40-52 give 4, week 53 gives 5 |
| DateUtils.WeeksInQuarter | src/lib/date-utils.ts:71-79 | consecutive weeks from `(q-1)*13+1` to `min(q*13, W)`, quarter 4 ending at `W` |
| DateUtils.AllWeeksInYear | src/lib/date-utils.ts:106-109 | weeks `1..W`, in order |
| DateUtils.Range | src/lib/date-utils.ts:78 | `Array.from` gives consecutive integers; a negative length gives none |
| DateUtils.QuartersCoverYear | src/lib/date-utils.ts:71-79 | for 52- and 53-week years, the four quarters concatenated are exactly the weeks of the year |
| DateUtils.QuarterOfItsWeeks | src/lib/date-utils.ts:67-79 | every week up to 52 of a quarter has that quarter |
| DateUtils.Week53OutsideItsQuarter | src/lib/date-utils.ts:67-79 | week 53 is in quarter 4's weeks but gets quarter 5 |
| DateUtils.QuarterOfWeek | src/lib/date-utils.ts:67-69 | the corrected quarter: at most 4, equal to the source's up to week 52 |
| DateUtils.QuarterOfWeekInverts | src/lib/date-utils.ts:67-79 | a week is in a quarter's weeks iff it is a week of the year and its corrected quarter is that quarter |
| DateUtils.NextPreviousInverse | src/lib/date-utils.ts:48-64 | on valid weeks, previous after next and next after previous are the identity |
| DateUtils.StepsStayValid | src/lib/date-utils.ts:48-64 | the previous and the next week of a valid week are valid |
| DateUtils.YearBoundaries | src/lib/date-utils.ts:53-63 | the last week steps to week 1 of the next year; week 1 steps back to the last week of the previous year |
| DateUtils.YearLength | src/lib/date-utils.ts:58 | a calendar year has 366 days in a leap year and 365 otherwise |
| DateUtils.NextJanFirst | src/lib/date-utils.ts:58 | 1 January moves on two weekdays after a leap year and one after a common year |
| DateUtils.IsoWeeksInYear | src/lib/date-utils.ts:58 | the week count of ISO year `y` is 52 or 53, and 7 times it is the distance in days between the Mondays that start week 1 of `y` and of `y + 1` |
| DateUtils.JanFirstIsoYear | src/lib/date-utils.ts:58 | the ISO year of 1 January of `y` is the one whose weeks hold that day; it is `y` iff that day is a Monday to Thursday |
| DateUtils.JanFirstWeeks | src/lib/date-utils.ts:58 | `getISOWeeksInYear(new Date(y, 0, 1))` is the count of ISO year `y` when 1 January is a Monday to Thursday and of ISO year `y - 1` otherwise |
| DateUtils.JanFirstWeeksStepPast2021 | src/lib/date-utils.ts:57-63 | for 2021 that count is 53 though ISO 2021 has 52 weeks, so week 52 of 2021 steps to week 53 of 2021; with the ISO count it steps to week 1 of 2022 |
| RateLimit.Recent | src/lib/rate-limit.ts:28 | the window filter never lengthens the history |
| RateLimit.RecentMembers | src/lib/rate-limit.ts:8-28 | it keeps exactly the entries younger than ten minutes |
| RateLimit.RecentAppend | src/lib/rate-limit.ts:28 | it keeps the order: filtering a concatenation filters each part |
| RateLimit.RecentIdempotent | src/lib/rate-limit.ts:28-74 | filtering twice with the same clock changes nothing, so the second filter is redundant |
| RateLimit.CanSendOtpRequest | src/lib/rate-limit.ts:50-94 | allowed iff there is no reason; a refusal always carries a retry time, and an allowance never does |
| RateLimit.CooldownFirst | src/lib/rate-limit.ts:59-71 | a newest request under a minute old gives a cooldown refusal, whatever the count; the wait is `ceil((60000 - age) / 1000)` seconds, 1-60 when the age is not negative |
| RateLimit.WindowFull | src/lib/rate-limit.ts:73-88 | past the cooldown, ten requests in the window give a rate-limit refusal with none left and a wait of at least a second that covers the oldest request's remaining time |
| RateLimit.WindowFullDecision | src/lib/rate-limit.ts:73-88 | that wait is the oldest request's remaining window time, rounded up to whole seconds |
| RateLimit.AllowedLeft | src/lib/rate-limit.ts:90-93 | otherwise allowed, with ten less the count left, in 1..10 |
| RateLimit.AllowedIff | src/lib/rate-limit.ts:59-93 | allowed iff past the cooldown and under ten requests in the window |
| RateLimit.EmailIgnored | src/lib/rate-limit.ts:50 | the email makes no difference to the decision |
| RateLimit.RateLimitInfo | src/lib/rate-limit.ts:118-137 | requests made is the window count; requests left is `max(0, 10 - made)`; the oldest request's age is 0 for an empty history, and otherwise `now` less the timestamp of the first kept entry, under ten minutes |
| RateLimit.InfoMatchesDecision | src/lib/rate-limit.ts:59-137 | past the cooldown, the decision and the information agree on the requests left |
| RateLimit.HistoryStore.RecordOtpRequest | src/lib/rate-limit.ts:99-106 | the stored history becomes the pruned history with `(email, now)` appended |
| RateLimit.HistoryStore.ClearRateLimitHistory | src/lib/rate-limit.ts:111-113 | the stored history becomes empty |
| RateLimit.RecordKeepsWindow | src/lib/rate-limit.ts:99-106 | the recorded history is all in the window, one longer than before, the new entry last |
| RateLimit.CooldownAfterRecord | src/lib/rate-limit.ts:59-71 | for a minute after a recorded request, any new request is refused for the cooldown |
| EmailWhitelist.Normalize | src/lib/email-whitelist.ts:18 | the normalised email is trimmed and lower-case, and empty exactly for a blank email |
| EmailWhitelist.Entries | src/lib/email-whitelist.ts:16-19 | every entry is non-empty, trimmed and lower-case |
| EmailWhitelist.EntriesMembers | src/lib/email-whitelist.ts:16-19 | the entries are exactly the normalised non-blank pieces |
| EmailWhitelist.AllowedEmails | src/lib/email-whitelist.ts:9-20 | every allowed entry is non-empty, trimmed and lower-case |
| EmailWhitelist.BlankPieces | src/lib/email-whitelist.ts:12-19 | a blank variable splits into blank pieces only, so the early return for it agrees with the filter |
| EmailWhitelist.BlankEnvAllowsAll | src/lib/email-whitelist.ts:12-36 | an unset or blank variable gives no entries, the whitelist is off and every email is allowed |
| EmailWhitelist.EnabledIff | src/lib/email-whitelist.ts:16-27 | the whitelist is on iff some comma-separated piece is not blank |
| EmailWhitelist.AllowedIff | src/lib/email-whitelist.ts:32-41 | with the whitelist on, an email is allowed iff it equals a non-blank piece once both are trimmed and lower-cased |
| EmailWhitelist.NormalizationIgnored | src/lib/email-whitelist.ts:38-41 | lower-casing or normalising the email does not change the answer |
| Translation.HoleAt | src/hooks/use-translation.ts:23 | a match of `\{\{(\w+)\}\}` is `{{`, a word and `}}` |
| Translation.HoleAtFinds | src/hooks/use-translation.ts:23 | every placeholder is matched where it starts, with its whole key |
| Translation.Replacement | src/hooks/use-translation.ts:24 | the value's text when present and non-empty, else the match itself |
| Translation.PlaceholderThenRest | src/hooks/use-translation.ts:23-25 | a placeholder at the front is replaced or kept whole, its replacement is not scanned again, and the rest is interpolated |
| Translation.CharThenRest | src/hooks/use-translation.ts:23 | a character that starts no placeholder is copied and the rest is interpolated |
| Translation.PlainThenRest | src/hooks/use-translation.ts:23 | text without `{` is copied as it is |
| Translation.HoleAtSuffix | src/hooks/use-translation.ts:23 | a match depends only on the text from its start on, so resuming the scan after a match is interpolating the rest |
| Translation.NothingSubstituted | src/hooks/use-translation.ts:23-25 | when no placeholder of the string has a substituting value, the string comes back unchanged |
| Translation.NoPlaceholderUnchanged | src/hooks/use-translation.ts:23 | a string without placeholders is returned unchanged |
| Translation.BlankValuesUnchanged | src/hooks/use-translation.ts:24 | placeholders with missing keys or empty values are left verbatim |
| Translation.WeekNumberExample | src/hooks/use-translation.ts:20 | `interpolate("Week {{number}}", { number: 5 })` is `"Week 5"` |
| Translation.NotRescannedExample | src/hooks/use-translation.ts:23-25 | a value that looks like a placeholder is inserted as it is |
| Translation.NumberText | src/hooks/use-translation.ts:24 | a number's text is never empty, so a number always replaces its placeholder |
| Translation.DigitsRoundTrip | src/hooks/use-translation.ts:24 | the decimal digits written for a number denote that number |
| Translation.PluralizeExact | src/hooks/use-translation.ts:36-41 | count 0 takes a non-empty zero form; count 1 takes a non-empty one form |
| Translation.PluralizeFallback | src/hooks/use-translation.ts:42 | every other case takes `other`, else `one`, else the empty string |
| Translation.PluralizeFromForms | src/hooks/use-translation.ts:36-42 | the result is a non-empty given form or empty; it is empty iff neither `other` nor `one` is non-empty and no zero form applies |
| Strings.JoinSplit | src/lib/text-parser.ts:10 | joining the pieces of a split gives back the string |
| Strings.SplitJoin | src/lib/week-export.ts:67 | splitting a join of separator-free pieces gives back the pieces |
| Strings.TrimOfPadded | src/lib/week-export.ts:56 | trim removes exactly the whitespace around a trimmed string |
| Strings.TrimLower | src/lib/week-export.ts:152 | trimming and lower-casing commute |

## Left out

- The React components, the Supabase and authentication plumbing, cookie storage, the locale store and the debounced save are not part of this model. They are UI, network, timer and browser work.
- The date-based functions of src/lib/date-utils.ts are not modelled: `getWeekDates`, `formatWeekRange`, `formatQuarterRange`, `getCurrentWeek`, `getCurrentQuarter`, `getWeekNumber`, `getDateFnsLocale` and `getQuarterName`. They depend on JavaScript `Date`, date-fns, the system clock or the locale store. For the same reason, the export title takes its two formatted dates as parameters.
- DateUtils.PreviousWeek, DateUtils.NextWeek: date-fns `getISOWeeksInYear` is the parameter `weeksIn`. The navigation lemmas assume only that every year has 52 or 53 weeks, which both `JanFirstWeeks` and `IsoWeeksInYear` meet. JavaScript `Date` and time zones are not modelled; the day counts use the proleptic Gregorian calendar.
- DateUtils.QuarterFromWeek: `Math.ceil(weekNumber / 13)` is modelled for integer week numbers only.
- `downloadTextFile` is Blob and DOM work.
- WeekExport.ImportWeekFromText: the `try`/`catch` does not apply, since nothing in the modelled code throws.
- WeekRoundTrip.ExportImportRoundTrip is stated under its conditions:
  - the dates contain no line break;
  - no line of a trimmed day content or of the trimmed focus reads as a day name or a 🎯 focus heading;
  - the trimmed focus holds no blank line.

  A blank day comes back as `*`, not as its blank content.
- In src/lib/rate-limit.ts:
  - the `localStorage` reads and writes, `JSON.parse` and its error path are replaced by the field `HistoryStore.stored`;
  - `Date.now()` is the parameter `now`. Three functions read the clock twice, and each pair of readings is taken to return the same time: `canSendOtpRequest` (lines 25 and 57), `recordOtpRequest` (lines 25 and 103) and `getRateLimitInfo` (lines 25 and 129). Line 25 is the reading inside `getRequestHistory`.
- In src/lib/email-whitelist.ts, `getWhitelistErrorMessage` is a constant message and is left out.
- Translation.Interpolate:
  - `vars` is a map of own keys, so keys inherited from `Object.prototype` (such as `constructor`) are not modelled;
  - numbers are integers written in decimal, so fractions and exponent notation are left out.

  The `useTranslation` hook is React state.
- Translation.Pluralize: the count is an integer.
- Strings.Lower: full Unicode case mapping is not modelled. Only `A`-`Z` and U+0400-U+042F are lower-cased; other capitals, such as `À` or the Greek ones, are kept. Whitespace is the ECMAScript set.

## Findings

| source | as written | input that shows it | evidently intended | confidence | as-written member | corrected member |
|---|---|---|---|---|---|---|
| src/lib/date-utils.ts:67-69 | `getQuarterFromWeek` is `Math.ceil(weekNumber / 13)`, so week 53 gets quarter 5, while `getWeeksInQuarter(year, 4)` lists week 53 in quarter 4 | week 53 of any 53-week year, for example 2020 | week 53 belongs to quarter 4, the quarter whose weeks list it | not executed | DateUtils.Week53OutsideItsQuarter | DateUtils.QuarterOfWeekInverts |
| src/lib/date-utils.ts:58 | the week count of year `y` is `getISOWeeksInYear(new Date(y, 0, 1))`, the count of the ISO year that holds 1 January, which is ISO year `y - 1` when 1 January is a Friday, Saturday or Sunday | `getNextWeek(2021, 52)`: 1 January 2021 is a Friday of ISO 2020, which has 53 weeks, so the result is week 53 of 2021, though ISO 2021 has 52 weeks | a count under which week 52 of 2021 steps to week 1 of 2022, as the ISO count of year `y` does; the app numbers weeks with `getWeek(date, { weekStartsOn: 1 })` and `getWeekDates` (lines 11-17), whose week 1 holds 1 January, and in that numbering no count derived from ISO weeks fits every year: 2023 there has a week 53 (25-31 December), while both counts here give 52 | medium, not executed | DateUtils.JanFirstWeeksStepPast2021 | DateUtils.IsoWeeksInYear |
