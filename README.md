# Access-log parser, modelled in Dafny

This project models the core of a small Java tool that reads a web server's
access log in the combined log format and computes statistics from it:

- **LogEntry constructor.** It cuts a line into tokens with one regular
  expression: a bare run, a `[...]` group or a `"..."` group. The tokens at
  positions 1, 4, 5, 6, 7, 8 and 9 become the client address, the time, the
  request (an HTTP method split off the path), the response code and size,
  the referer and the User-Agent.
- **UserAgent constructor.** It upper-cases the text once, then picks the
  first matching browser rule and the first matching operating-system rule
  from fixed ordered lists, and sets a search-robot flag.
- **Statistics.** A running total of response sizes and the earliest and
  latest entry time, with traffic rates per second, minute, hour and day.
- **MaxLengthCheck.** A line gate that accepts strings up to a fixed length
  and throws `StringIsTooLongException` for longer ones.
- **Two LogFile classes.**
  - The parser package's LogFile gates each line, builds its entry, skips
    lines that fail to parse and appends the others to a list.
  - The default package's LogFile counts lines and tracks the shortest and
    longest accepted line.

Modules, one per concern:

| file | module | models |
|---|---|---|
| outcomes.dfy | Outcomes | `Option` and `Result` (with `:-`) |
| text.dfy | Text | ASCII `toUpperCase`, `indexOf`, `Integer.parseInt`, word characters |
| timestamps.dfy | Timestamps | `LocalDateTime.parse` with `dd/MMM/yyyy:HH:mm:ss Z`, US locale |
| user_agents.dfy | UserAgents | the UserAgent constructor |
| log_entries.dfy | LogEntries | the tokenizer, `HttpMethod` and the LogEntry constructor |
| statistics.dfy | TrafficStatistics | the Statistics class and its `TimeIntervals` formulas |
| max_length_checks.dfy | Checks | `Checkable` and `MaxLengthCheck` |
| entry_log_file.dfy | EntryLogFile | `ru.accesslogparser.LogFile` |
| row_log_file.dfy | RowLogFile | the default package's `LogFile` |

How Java's types and exceptions are represented:

- **Exceptions are results.**
  - `Result<LogEntry, CreateError>` stands for the constructor or its
    `LogEntryCreateException`.
  - `Option.None` stands for `DateTimeParseException` and
    `NumberFormatException`.
  - `CheckOutcome.StringIsTooLong` stands for the gate's exception.
- **Null fields are `Option.None`.** Java keywords are renamed: the field
  `method` is `httpMethod`.
- **A time is an integer count of seconds** since 1970-01-01T00:00:00 on the
  local time line. `LocalDateTime` drops the offset, and so does the model.
  `LocalDateTime.MAX` and `MIN` are the same count at years ±999999999.
- **The file is a sequence of lines** (`seq<string>`), as `readLine` would
  return them.
- **Checkable is a total function** `string -> CheckOutcome`.

Each imperative piece is a method with a loop, proved equal to a
specification function. The properties are then proved about that function:
- `LogEntries.NewLogEntry` runs the `find()` loop with its position counter
  and `switch`. It is proved equal to `LogEntries.Parse`, which reads the
  tokens as a grammar of named fields.
- `UserAgents.NewUserAgent` runs the two first-match loops.
- `EntryLogFile.LogFile.Read` and `RowLogFile.LogFile.Read` run the line
  loops against `Ingest` and `Scan`.
- `TrafficStatistics.Statistics` keeps a ghost history `added`. Its `Valid()`
  invariant ties the three fields to `Fold(added)`.

## Behaviour worth knowing

What the Java code does at the edges, as the model states it:

- **Unterminated quote or bracket.** `find()` skips an unclosed `[` or `"`
  and scanning goes on (`LogEntries.NextToken`,
  `LogEntries.ExampleUnclosedBracket`). A line with fewer than four tokens
  always constructs, with only the address set
  (`LogEntries.ShortLineHasDefaults`). A line shorter than nine tokens
  constructs when each token it reaches converts; the fields it does not
  reach stay null or 0 (`LogEntries.MissingFieldsKeepDefaults`).
- **Bot word.** `BOT` needs a boundary after it but none before it, so
  GOOGLEBOT is a robot and BOTANY is not (`UserAgents.GooglebotIsBot`,
  `UserAgents.BotanyIsNotBot`).
- **Too-long line.** In both LogFile classes `StringIsTooLongException`
  leaves the loop and ends `read` (`EntryLogFile.IngestMeaning`,
  `RowLogFile.ScanCompletes`).
- **Entry without a time.** `addEntry` adds its size, then throws
  `NullPointerException` (`TrafficStatistics.Statistics.AddEntry`).
- **Zero span.** The rate divides by the span as a double, so a zero span
  gives an infinity or NaN (`TrafficStatistics.RateOf`).
- **Negative size.** `Integer.parseInt` accepts a negative size, and the
  total adds it (`TrafficStatistics.FoldTotal`).
- **Span before any time.** The span starts from `LocalDateTime.MAX` and
  ends at `MIN`. It is negative, and one second longer than the difference
  of their seconds, because MAX carries 999999999 nanoseconds
  (`TrafficStatistics.CleanSpanIsNegative`,
  `TrafficStatistics.TimelessEntriesRate`).

## Model

| member | source | states |
|---|---|---|
| Text.ToUpper | src/ru/accesslogparser/UserAgent.java:58 | upper-casing keeps the length and maps each ASCII lower-case letter to its capital, every other character to itself |
| Text.ToUpperIdempotent | src/ru/accesslogparser/UserAgent.java:58 | upper-casing twice is upper-casing once |
| Text.IndexOf | src/ru/accesslogparser/LogEntry.java:51 | `indexOf` returns the first index at or after `from` holding the character, or none when no such index exists |
| Text.ParseInt | src/ru/accesslogparser/LogEntry.java:58-59 | `Integer.parseInt` gives a value only for signed ASCII decimal text whose value fits in 32 bits, and then that value; every other text is the NumberFormatException (the two lemmas below give the round trip and the overflow refusal) |
| Text.ParseIntOfDecimalText | src/ru/accesslogparser/LogEntry.java:58-59 | `parseInt` reads back the decimal text of every 32-bit value |
| Text.ParseIntRefusesOverflow | src/ru/accesslogparser/LogEntry.java:58-59 | `parseInt` refuses the decimal text of every value outside the 32-bit range |
| Timestamps.LocalDateTimeLimits | src/ru/accesslogparser/Statistics.java:44-45 | the constants for LocalDateTime.MAX and MIN are the seconds of +999999999-12-31T23:59:59 and -999999999-01-01T00:00:00 |
| Timestamps.MonthNumber | src/ru/accesslogparser/LogEntry.java:47 | a month abbreviation maps to the number whose US short name it is exactly (case-sensitive); anything else maps to none |
| Timestamps.ParseTimestamp | src/ru/accesslogparser/LogEntry.java:46-47 | `LocalDateTime.parse` with "dd/MMM/yyyy:HH:mm:ss Z" accepts only text of that shape with a US month abbreviation, a day from 1 to 31 and a year of at least 1 |
| Timestamps.AcceptedExactly | src/ru/accesslogparser/LogEntry.java:46-47 | a text is accepted exactly when it has the pattern's shape, a US month abbreviation, a year of at least 1, a day from 1 to 31, minutes and seconds up to 59, an hour up to 23 or 24:00:00, and an offset of at most 18 hours with minutes up to 59 |
| Timestamps.ParseFormatted | src/ru/accesslogparser/LogEntry.java:46-47 | the text written from any accepted field values with a four-digit year (by the model's own writer `FormatTimestamp`, an independent reference) parses back to the local second of that date and time, with a day past the month's end moved to its last day and the offset dropped |
| Timestamps.MidnightIsNextDay | src/ru/accesslogparser/LogEntry.java:47 | 24:00:00 of a day is 00:00:00 of the next day |
| Timestamps.ExampleTimestamp | src/ru/accesslogparser/LogEntry.java:46-47 | "10/Oct/2020:13:55:36 -0700" is 2020-10-10T13:55:36 |
| Timestamps.ExampleMidnight | src/ru/accesslogparser/LogEntry.java:46-47 | "10/Oct/2020:24:00:00 +0000" is 2020-10-11T00:00:00 |
| Timestamps.ParsedTimeInRange | src/ru/accesslogparser/LogEntry.java:47 | every accepted timestamp lies strictly between LocalDateTime.MIN and LocalDateTime.MAX |
| Timestamps.OffsetIsDiscarded | src/ru/accesslogparser/LogEntry.java:46-47 | two accepted timestamps that differ only in the offset give the same time |
| Timestamps.ExampleDayClamped | src/ru/accesslogparser/LogEntry.java:47 | the smart resolver turns 31 April into 30 April |
| Timestamps.ExampleMonthCase | src/ru/accesslogparser/LogEntry.java:47 | "OCT" in upper case is not a month name, so the timestamp is refused |
| UserAgents.SingleLine | src/ru/accesslogparser/UserAgent.java:63 | `.*` matches only text without a Java line terminator |
| UserAgents.SearchFrom | src/ru/accesslogparser/UserAgent.java:63 | a pattern is found at or after `from` exactly when it matches at some such index |
| UserAgents.MatchesMeaning | src/ru/accesslogparser/UserAgent.java:21-43 | `matches(".*(P1\|P2).*")` holds exactly when the text has no line terminator and some alternative matches at some index, with its required boundaries |
| UserAgents.FirstMatchFrom | src/ru/accesslogparser/UserAgent.java:62-67 | the result is the index of a matching rule with no matching rule before it, or none exactly when no rule matches |
| UserAgents.FirstMatchAt | src/ru/accesslogparser/UserAgent.java:73-78 | a matching rule preceded only by non-matching rules is the first match |
| UserAgents.FindFirstRule | src/ru/accesslogparser/UserAgent.java:62-67 | the loop with `break` yields the label of the first matching rule, or null |
| UserAgents.NewUserAgent | src/ru/accesslogparser/UserAgent.java:57-83 | the constructor's result is the first-match classification of the upper-cased text |
| UserAgents.ClassifyIgnoresCase | src/ru/accesslogparser/UserAgent.java:58 | classifying the upper-cased text gives the same result as classifying the text |
| UserAgents.EmptyAgent | src/ru/accesslogparser/UserAgent.java:68-82 | the empty string is UNKNOWN, UNKNOWN and not a robot |
| UserAgents.ChromeOutranksOtherBrowsers | src/ru/accesslogparser/UserAgent.java:38-40 | whenever CHROME/ occurs after a boundary the browser is CHROME, whatever else (EDG/ included) occurs |
| UserAgents.WindowsOutranksOtherSystems | src/ru/accesslogparser/UserAgent.java:21-25 | whenever the word WINDOWS occurs the system is WINDOWS, whatever else (LINUX included) occurs |
| UserAgents.NoMobileTokenInsideIeMobile | src/ru/accesslogparser/UserAgent.java:42-43 | the MOBILE/ inside an IEMOBILE/ has no boundary before it, so the SAFARI token does not match there |
| UserAgents.IeMobileIsIe | src/ru/accesslogparser/UserAgent.java:42-43 | an agent whose only browser token is IEMOBILE/ is IE, not SAFARI |
| UserAgents.GooglebotIsBot | src/ru/accesslogparser/UserAgent.java:82 | GOOGLEBOT/2.1 is a robot: BOT needs no boundary before it |
| UserAgents.BotanyIsNotBot | src/ru/accesslogparser/UserAgent.java:82 | BOTANY is not a robot: BOT needs a boundary after it |
| LogEntries.AllMethodsListed | src/ru/accesslogparser/LogEntry.java:111 | `values()` lists every HttpMethod |
| LogEntries.RunEnd | src/ru/accesslogparser/LogEntry.java:38 | the bare alternative takes the longest run of characters other than space, `"` and `[` |
| LogEntries.ClosedAt | src/ru/accesslogparser/LogEntry.java:38 | a `[` or `"` group closes at the first closing character after it, and there is no closing exactly when that character never occurs later |
| LogEntries.MatchAt | src/ru/accesslogparser/LogEntry.java:38 | a match at a position spans exactly the text `group()` returns, for one of the three token shapes; there is no match exactly at a space, an unclosed `[` or an unclosed `"` |
| LogEntries.NextToken | src/ru/accesslogparser/LogEntry.java:41 | `find()` returns the leftmost match; every position it skips is one where no token can start |
| LogEntries.TokensFrom | src/ru/accesslogparser/LogEntry.java:41 | every token found has one of the three shapes, and a line has no more tokens than characters |
| LogEntries.VerbFrom | src/ru/accesslogparser/LogEntry.java:50-56 | the result is the first method in declaration order whose name is the text before the first space, or none exactly when none is |
| LogEntries.RequestParts | src/ru/accesslogparser/LogEntry.java:50-56 | a method is split off exactly when its name, followed by a space at index > 0, starts the text; the path is then the text after that space, and otherwise the whole text |
| LogEntries.SplitRequest | src/ru/accesslogparser/LogEntry.java:50-56 | the loop over `HttpMethod.values()` with `break` computes the method and path of the request text |
| LogEntries.ParseTokensStep | src/ru/accesslogparser/LogEntry.java:43-62 | reading one more token is one pass of the `switch` on its position |
| LogEntries.ParseTokensFailureSticks | src/ru/accesslogparser/LogEntry.java:63-65 | once a conversion has failed, later tokens do not change the outcome |
| LogEntries.NewLogEntry | src/ru/accesslogparser/LogEntry.java:36-68 | the constructor's positional loop produces exactly the entry, or the first error, of the named-field grammar |
| LogEntries.ShortLineHasDefaults | src/ru/accesslogparser/LogEntry.java:41-67 | a line with fewer than four tokens always constructs, with only the address set |
| LogEntries.AddressIsFirstMatch | src/ru/accesslogparser/LogEntry.java:44 | the address is the text of the line's first match, delimiters included |
| LogEntries.MissingFieldsKeepDefaults | src/ru/accesslogparser/LogEntry.java:41-67 | every field whose position a short line does not reach stays null or 0 |
| LogEntries.RefererNeverFails | src/ru/accesslogparser/LogEntry.java:60 | the eighth token never causes an error; one that is not quoted gives a null referer |
| LogEntries.ExtraTokensIgnored | src/ru/accesslogparser/LogEntry.java:43-62 | tokens after the ninth change nothing |
| LogEntries.DelimitedNumberFails | src/ru/accesslogparser/LogEntry.java:58-59 | a quoted or bracketed token in a numeric position fails `parseInt`, because `group()` keeps the delimiters |
| LogEntries.WrongKindIsMissingGroup | src/ru/accesslogparser/LogEntry.java:45-61 | a non-bracketed token at position 4, or a non-quoted one at position 5 or 9, fails on a null named group |
| LogEntries.ExampleUnclosedBracket | src/ru/accesslogparser/LogEntry.java:38-41 | an unclosed `[` is skipped and the bare run after it is the first token |
| LogEntries.ExampleRequests | src/ru/accesslogparser/LogEntry.java:50-56 | "GET /a" splits into GET and "/a"; "GET" without a space and lower-case "get /a" are not split |
| LogEntries.ParsedTimeIsInRange | src/ru/accesslogparser/LogEntry.java:47 | the time of a constructed entry is a valid LocalDateTime |
| Checks.MaxLengthCheck.CheckString | src/ru/accesslogparser/MaxLengthCheck.java:11-16 | the answer is true exactly when the length is at most maxLength; the exception, carrying the length, occurs exactly when the length is greater; the answer is never false |
| Checks.MaxLengthCheck.AsCheckable | src/ru/accesslogparser/MaxLengthCheck.java:3 | as a Checkable the object answers every string as `checkString` does |
| Checks.BoundaryIsInclusive | src/ru/accesslogparser/MaxLengthCheck.java:12 | a string of exactly maxLength characters passes |
| Checks.ShorterStringsPass | src/ru/accesslogparser/MaxLengthCheck.java:12 | every string no longer than an accepted one is accepted |
| TrafficStatistics.FoldTotal | src/ru/accesslogparser/Statistics.java:49 | the total is the sum of all sizes added, entries without a time included |
| TrafficStatistics.FoldBounds | src/ru/accesslogparser/Statistics.java:50-54 | minTime and maxTime bound every time added |
| TrafficStatistics.FoldWithoutTimes | src/ru/accesslogparser/Statistics.java:42-46 | with no time added, minTime stays LocalDateTime.MAX and maxTime stays LocalDateTime.MIN |
| TrafficStatistics.FoldMinAttained | src/ru/accesslogparser/Statistics.java:50-51 | once a time is added, minTime is one of the times added |
| TrafficStatistics.FoldMaxAttained | src/ru/accesslogparser/Statistics.java:53-54 | once a time is added, maxTime is one of the times added |
| TrafficStatistics.MinNotAfterMax | src/ru/accesslogparser/Statistics.java:50-54 | once a time is added, minTime <= maxTime |
| TrafficStatistics.StepsCommute | src/ru/accesslogparser/Statistics.java:48-55 | two `addEntry` calls in either order give the same state |
| TrafficStatistics.AddTwice | src/ru/accesslogparser/Statistics.java:48-55 | adding an entry again counts its size twice and leaves minTime and maxTime unchanged |
| TrafficStatistics.FoldMoveLast | src/ru/accesslogparser/Statistics.java:48-55 | any one entry can be added last without changing the state |
| TrafficStatistics.FoldPermutation | src/ru/accesslogparser/Statistics.java:48-55 | the state depends only on the multiset of entries added, not on their order |
| TrafficStatistics.RateOf | src/ru/accesslogparser/Statistics.java:12-31 | the rate is finite exactly when the span is nonzero; it is then the total times the interval's seconds divided by the span; a zero span gives the IEEE result of dividing by zero |
| TrafficStatistics.Span | src/ru/accesslogparser/Statistics.java:14-29 | `Duration.between(minTime, maxTime).toSeconds()` is the nanosecond difference rounded down to whole seconds, counting the 999999999 nanoseconds of LocalDateTime.MAX |
| TrafficStatistics.RatesScale | src/ru/accesslogparser/Statistics.java:12-31 | the minute rate is 60 times the second rate, the hour rate 60 times the minute rate, and the day rate 24 times the hour rate |
| TrafficStatistics.CleanSpanIsNegative | src/ru/accesslogparser/Statistics.java:12-31 | straight after `clean()` the span from MAX to MIN is their difference in seconds less one (MAX's nanoseconds), negative, and every rate is 0 |
| TrafficStatistics.TimelessEntriesRate | src/ru/accesslogparser/Statistics.java:12-31 | after entries that all lack a time, the span is still the one from MAX to MIN, and every rate is finite with its product with that span equal to the summed sizes times the interval's seconds |
| TrafficStatistics.SingleTimeHasNoRate | src/ru/accesslogparser/Statistics.java:14 | with one time added the span is zero and the rate is a division by zero |
| TrafficStatistics.Statistics.constructor | src/ru/accesslogparser/Statistics.java:38-40 | a new object holds 0, MAX and MIN and has nothing added |
| TrafficStatistics.Statistics.Clean | src/ru/accesslogparser/Statistics.java:42-46 | `clean()` restores 0, MAX and MIN and forgets everything added, whatever the prior state |
| TrafficStatistics.Statistics.AddEntry | src/ru/accesslogparser/Statistics.java:48-55 | the entry joins the history and the invariant holds; the total grows by exactly its size; an entry without a time leaves minTime and maxTime unchanged and reports the NullPointerException |
| TrafficStatistics.Statistics.TrafficRate | src/ru/accesslogparser/Statistics.java:64-66 | the rate over the object's fields is finite exactly when the span is nonzero, which for a minTime other than MAX is exactly when minTime != maxTime; its product with the span is then the total times the interval's seconds |
| TrafficStatistics.Statistics.DefaultTrafficRate | src/ru/accesslogparser/Statistics.java:60-62 | the parameterless rate is the hourly rate |
| EntryLogFile.IngestStep | src/ru/accesslogparser/LogFile.java:28-38 | reading one more line is one more pass of the loop |
| EntryLogFile.KeptEntriesAppend | src/ru/accesslogparser/LogFile.java:28-38 | the reference list of one more line is the old list followed by that line's contribution |
| EntryLogFile.IngestMeaning | src/ru/accesslogparser/LogFile.java:23-40 | `read` completes exactly when no line is too long, and then appends the in-order entries of the lines that pass the gate and parse; otherwise it stops at the first too-long line, keeping the entries of the lines before it |
| EntryLogFile.UngatedKeepsEveryParsedLine | src/ru/accesslogparser/LogFile.java:29 | with a null check, `read` never aborts and keeps the entry of every line that parses |
| EntryLogFile.MaxLengthGate | src/ru/accesslogparser/LogFile.java:29 | with a MaxLengthCheck, `read` completes exactly when no line exceeds the limit |
| EntryLogFile.UnparsableLineIsSkipped | src/ru/accesslogparser/LogFile.java:32-37 | a line that passes the gate but fails to parse changes nothing, so later lines are still processed |
| EntryLogFile.RefusedLineIsSkipped | src/ru/accesslogparser/LogFile.java:29-30 | a line the check answers false for changes nothing |
| EntryLogFile.AbortSticks | src/ru/accesslogparser/LogFile.java:23-40 | once `read` has aborted, later lines are never looked at |
| EntryLogFile.LogFile.constructor | src/ru/accesslogparser/LogFile.java:18-21 | a new LogFile holds its lines and check and no entries |
| EntryLogFile.LogFile.Read | src/ru/accesslogparser/LogFile.java:23-40 | `read` appends the ingested entries to those already held and ends as the ingestion does |
| EntryLogFile.LogFile.GetEntries | src/ru/accesslogparser/LogFile.java:42-44 | `getEntries` returns a fresh array equal to the entries; the object itself is not changed |
| RowLogFile.ScanCountsRows | src/LogFile.java:28-31 | every line read is counted before the check, the aborting one included: on completion by the number of lines, on an abort at line k by k + 1 |
| RowLogFile.NullCheckFailsAtFirstLine | src/LogFile.java:14-31 | without a check, `read` fails at the first line, which is already counted, and the lengths are unchanged |
| RowLogFile.ScanCompletes | src/LogFile.java:31-40 | with a check, `read` completes exactly when no line is too long; otherwise it stops at the first too-long line |
| RowLogFile.ScanLengths | src/LogFile.java:8-35 | from the initial state, a completed read leaves maxRowLength and minRowLength at the greatest and least accepted length, both among them, or at 0 and Integer.MAX_VALUE when no line is accepted |
| RowLogFile.ScanLengthsOnAbort | src/LogFile.java:31-40 | from the initial state, a read that stops at a too-long line k leaves maxRowLength and minRowLength as the lines before k left them: the greatest and least length accepted before k, or 0 and Integer.MAX_VALUE when none was |
| RowLogFile.MinLengthNotAboveMax | src/LogFile.java:34-35 | after at least one accepted line, minRowLength <= maxRowLength |
| RowLogFile.ScanSticks | src/LogFile.java:38-40 | once `read` has stopped, later lines are never looked at |
| RowLogFile.LogFile.constructor | src/LogFile.java:14-16 | the one-argument constructor has a null check and the initial counters 0, 0 and Integer.MAX_VALUE |
| RowLogFile.LogFile.WithCheck | src/LogFile.java:18-21 | the two-argument constructor holds the given check and the initial counters |
| RowLogFile.LogFile.Read | src/LogFile.java:23-41 | `read` leaves the counters and the outcome of the scan started from the counters it found |

## Left out

- Console input, file existence checks, `BufferedReader`/`FileReader` and
  `IOException`: a file is its sequence of lines. Both `Main` classes are not
  part of this model.
- `toString`, the getters (plain field reads) and the console print of a
  `LogEntryCreateException` in the parser package's `read`.
- Exception message texts. The errors keep their cause: the position, the
  text, or the length and the limit.
- TrafficStatistics.RateOf: rates are exact reals, not doubles. Rounding is
  not modelled, nor is the sign of a zero: Java's 0 divided by a negative
  span is -0.0, which `Finite(0.0)` does not tell apart from 0.0. Division
  by zero gives the IEEE infinities or NaN as values of `Rate`.
- The base `TimeIntervals.getTrafficRate` that returns 0: every constant
  overrides it, so it is never called.
- TrafficStatistics.Statistics.AddEntry does not model 64-bit overflow of
  `totalTraffic`, because integers are unbounded.
- RowLogFile.LogFile.Read does not model 32-bit overflow of `rowsCount`, for
  the same reason.
- Times carry no nanoseconds. Parsed times are on whole seconds, and the
  999999999 nanoseconds of `LocalDateTime.MAX` appear only in
  TrafficStatistics.Span, as the extra second of a span starting at MAX.
- Timestamps.ParseTimestamp reads the year as exactly four digits. Java's
  `yyyy` also accepts a wider year written with a leading '+' ("+20201"),
  and the model refuses one.
- Text.ParseInt reads ASCII digits only. Java's `Integer.parseInt` also
  accepts other Unicode decimal digits (`"\u0661\u0662"` is 12), which the
  model refuses.
- Unicode case mapping, Unicode word characters and UTF-16 lengths.
  - Text.ToUpper only upper-cases ASCII letters, and ignores the default
    locale that Java's `toUpperCase()` follows: in a Turkish locale
    "windows" becomes "WİNDOWS" and no longer matches WINDOWS, which the
    model does not show.
  - UserAgents.IsBoundary uses ASCII word characters.
  - MaxLengthCheck and the row lengths count characters, not UTF-16 code
    units.
- Java's regular-expression engine: the three expressions are stated
  directly as scanners and predicates.
- A Checkable other than MaxLengthCheck is any total function from a line
  to an answer or the too-long exception. Other runtime exceptions it might
  throw are not modelled.
- UserAgents.IeMobileIsIe states its premise as "every MOBILE/ in the text
  is the tail of an IEMOBILE/", which is how "the only browser token is
  IEMOBILE/" reads.
- RowLogFile.ScanLengths assumes every line is at most Integer.MAX_VALUE
  characters long, as every Java string is.
