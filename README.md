# Log processor, modelled in Dafny

A command-line tool reads a log file whose lines look like
`YYYY-MM-DD HH:MM:SS LEVEL message`. It turns them into entries (timestamp, level,
message) and runs three kinds of read-only report over them:

- per-level counts of `INFO`, `WARNING` and `ERROR`;
- a listing of the entries at a requested level, once per `--list`;
- the uptime between the first "System startup" message and the first "System shutdown" message.

The command line chooses the file and the reports.

The model has three modules:

- `CppString` (`CppString.dfy`) covers the parts of `std::string` and `<cctype>` the
  code relies on. `find` returns `npos`, and positions are `size_t`, so `npos + 1`
  wraps to 0. It also covers the substring search `find(sub) != npos` and ASCII `toupper`.
- `LogProcessor` (`LogProcessor.dfy`) covers `VHT/LogProcessor.cpp`:
  - the line splitter and the `readLogFile` loop;
  - `countLogLevels`;
  - `listMessagesByLevel`, with its in-place upper-casing of the query;
  - `calculateUptime`, with its two searches that stop at the first marker, and C++'s
    truncating `/` and `%` written out.
- `LogProcessorMain` (`Main.dfy`) covers `VHT/main.cpp`: the `argv` scan with its
  `++i` skip, the early `return` on `--help` and the `break` on an unknown token, the
  exit code, and the order of the reports. The C++ `main` becomes the method `Run`.

Each C++ function that loops is a method with a `while` or `for` loop. Its `ensures`
ties the result to a specification function, and lemmas state what the
source promises about that function. Printing is replaced by structured results:

- the counts (`LevelCounts`);
- the listed entries, or an `InvalidLogLevel` error;
- the uptime split into hours, minutes and seconds, or a `NoLogEntries` / `NoStartupLog` error;
- for `main`, a `RunResult`: the exit code, whether the usage text was shown, and
  the reports in the order they ran.

The outside world is passed in as parameters:

- `parse: string -> Option<int>` stands for `std::get_time` + `mktime`, where `None`
  means the stream failed. `ParseTimestamp` maps `None` to the sentinel -1.
- `fs: string -> Option<seq<CString>>` stands for opening the file and reading its
  lines with `getline`, where `None` means the file cannot be opened.

Two behaviours of `calculateUptime` are kept as written:

- The uptime fails when the start time is 0 after the search. So a real startup
  entry whose timestamp is 0 counts as "no startup log", not only a missing one.
- When there is no shutdown message, the end time is the initial 0.

## Model

| member | source | states |
|---|---|---|
| `CppString.FindSpec` | VHT/LogProcessor.cpp:46-48 | `find(' ', pos)` returns `npos` exactly when no space occurs from `pos` on, otherwise the index of the first one from `pos` on |
| `CppString.SizeSucc` | VHT/LogProcessor.cpp:47-48 | `p + 1` in `size_t` is `(p + 1) mod 2^64`, so `npos + 1` is 0 |
| `CppString.FindCount` | VHT/LogProcessor.cpp:46-48 | each successful `find` accounts for exactly one occurrence; a failed one leaves none |
| `CppString.ContainsIsOccurrence` | VHT/LogProcessor.cpp:122 | `message.find(marker) != npos` holds exactly when the marker occurs at some index of the message |
| `CppString.UpperChar` | VHT/LogProcessor.cpp:89 | `::toupper` on one character: the result is never an ASCII lower-case letter; a-z move down by 32; any other character is unchanged |
| `CppString.ToUpperIdempotent` | VHT/LogProcessor.cpp:89 | upper-casing an already upper-cased query changes nothing |
| `CppString.ToUpperHasNoLower` | VHT/LogProcessor.cpp:89 | the upper-cased query holds no ASCII lower-case letter |
| `CppString.UpperInPlace` | VHT/LogProcessor.cpp:89 | `std::transform` with `toupper` over the buffer leaves exactly the ASCII upper-casing of its old contents |
| `LogProcessor.FindSpacesFound` | VHT/LogProcessor.cpp:46-50 | when none of the three searches returns `npos`, they found the 1st, 2nd and 3rd space in increasing order, with no space between them |
| `LogProcessor.AllFoundIffThreeSpaces` | VHT/LogProcessor.cpp:46-50 | the three-way `npos` test passes exactly when the line has at least three spaces, despite `npos + 1` wrapping to 0 |
| `LogProcessor.SplitLineAccepts` | VHT/LogProcessor.cpp:46-50 | a line is split exactly when it holds at least three spaces |
| `LogProcessor.SplitLineRoundTrip` | VHT/LogProcessor.cpp:52-54 | timestamp text + " " + level + " " + message gives back the line |
| `LogProcessor.SplitLineTimestampOneSpace` | VHT/LogProcessor.cpp:52 | the timestamp text (up to the 2nd space) holds exactly one space |
| `LogProcessor.SplitLineLevelNoSpace` | VHT/LogProcessor.cpp:53 | the level (between the 2nd and 3rd space) holds no space |
| `LogProcessor.ParseLineSpec` | VHT/LogProcessor.cpp:40-60 | a line yields an entry exactly when it has three or more spaces (blank lines and shorter lines yield nothing); the entry holds the split fields and `parseTimestamp` of the timestamp text |
| `LogProcessor.UnparsableTimestampKeepsEntry` | VHT/LogProcessor.cpp:56-60 | a well-split line whose timestamp does not parse still yields an entry, stamped -1, with its level and message |
| `LogProcessor.ParseLinesLength` | VHT/LogProcessor.cpp:39-62 | the number of entries equals the number of lines with at least three spaces |
| `LogProcessor.ParseLinesAppend` | VHT/LogProcessor.cpp:39-62 | the entries of two runs of lines are those of the first, then those of the second (file order) |
| `LogProcessor.ParseLinesSingle` | VHT/LogProcessor.cpp:39-62 | a single line yields its own entry or nothing |
| `LogProcessor.ReadLogFile` | VHT/LogProcessor.cpp:21-65 | the loop with `push_back` returns the specified entries; an empty path or an unopenable file gives no entries |
| `LogProcessor.CountLogLevels` | VHT/LogProcessor.cpp:68-76 | the three counters are the numbers of entries whose level is exactly "INFO", "WARNING" and "ERROR" |
| `LogProcessor.CountsSumToRecognised` | VHT/LogProcessor.cpp:72-76 | the three counts sum to the number of entries whose level is one of the three |
| `LogProcessor.OtherLevelCountsNothing` | VHT/LogProcessor.cpp:72-76 | an entry with any other level changes no count |
| `LogProcessor.ListMessagesByLevel` | VHT/LogProcessor.cpp:87-106 | upper-cases the query in place, rejects it unless it is a recognised level, and lists the matching entries in order |
| `LogProcessor.EntriesAtMembers` | VHT/LogProcessor.cpp:99-100 | an entry is listed exactly when it is in the log and its stored level equals the query |
| `LogProcessor.EntriesAtAppend` | VHT/LogProcessor.cpp:99-106 | listing keeps log order: the listing of two runs of entries is the first's, then the second's |
| `LogProcessor.EntriesAtLength` | VHT/LogProcessor.cpp:99-100 | the listing holds one entry per entry at that level |
| `LogProcessor.ListByLevelSpec` | VHT/LogProcessor.cpp:88-100 | an error exactly when the upper-cased query is outside {INFO, WARNING, ERROR}; otherwise exactly the entries whose level equals the upper-cased query |
| `LogProcessor.ListIgnoresQueryCase` | VHT/LogProcessor.cpp:88-89 | a query and its upper-cased form give the same listing, and one fails exactly when the other does (the error names the query as given) |
| `LogProcessor.ListInfoLowerEqualsUpper` | VHT/LogProcessor.cpp:89 | "info" and "INFO" list the same entries |
| `LogProcessor.LowerCaseLevelNeverListed` | VHT/LogProcessor.cpp:100 | the stored level is not normalised: an entry whose level holds a lower-case letter is listed by no query |
| `LogProcessor.TruncDivRem` | VHT/LogProcessor.cpp:143-145 | C++ truncating division: quotient times divisor plus remainder is the dividend; the remainder has the dividend's sign and is smaller than the divisor |
| `LogProcessor.TruncRemHourMinute` | VHT/LogProcessor.cpp:144-145 | `(d % 3600) % 60 == d % 60` under truncating remainder |
| `LogProcessor.SplitSecondsSpec` | VHT/LogProcessor.cpp:140-145 | hours*3600 + minutes*60 + seconds equals the difference; for a non-negative difference 0 <= minutes, seconds < 60 and hours >= 0; for a negative one all three are non-positive |
| `LogProcessor.FirstTimestampNone` | VHT/LogProcessor.cpp:117-133 | when no message has the marker, the search leaves its accumulator at the initial value 0 |
| `LogProcessor.FirstTimestampAt` | VHT/LogProcessor.cpp:121-133 | the search yields the timestamp of the first entry whose message contains the marker |
| `LogProcessor.CalculateUptime` | VHT/LogProcessor.cpp:111-147 | the two loops with `break` and the final checks compute the specified uptime or error |
| `LogProcessor.ComputeUptimeErrors` | VHT/LogProcessor.cpp:112-138 | an error exactly when the log is empty, or the start time ends up 0 (no startup message, or one stamped 0) |
| `LogProcessor.ComputeUptimeSum` | VHT/LogProcessor.cpp:140-145 | on success, the parts add up to end time minus start time |
| `LogProcessor.NoShutdownEndsAtZero` | VHT/LogProcessor.cpp:118-133 | with no shutdown message the end time is 0, so the uptime adds up to minus the start time |
| `LogProcessor.NoStartupMessageFails` | VHT/LogProcessor.cpp:120-138 | a non-empty log with no startup message gives the "no startup log" error |
| `LogProcessor.UptimeExample` | VHT/LogProcessor.cpp:111-147 | a startup at t (not 0) and a shutdown 5415 s later give 01:30:15 |
| `LogProcessorMain.ScanArguments` | VHT/main.cpp:10-32 | the loop over `argv` yields exactly the specified scan outcome |
| `LogProcessorMain.FileSetsPath` | VHT/main.cpp:11-12 | `--file X` sets the path to X; a later `--file Y` overrides it |
| `LogProcessorMain.ListAppendsLevel` | VHT/main.cpp:17-18 | `--list X` appends X to the levels to list |
| `LogProcessorMain.ScanExtends` | VHT/main.cpp:10-32 | the levels collected so far stay first and in order, and set flags stay set |
| `LogProcessorMain.HelpEndsScan` | VHT/main.cpp:23-25 | `--help` ends the scan with the help outcome, whatever follows |
| `LogProcessorMain.UnknownTokenStopsScan` | VHT/main.cpp:27-31 | an unknown token, or a trailing `--file`/`--list`, sets the error flag and ends the scan |
| `LogProcessorMain.Run` | VHT/main.cpp:3-65 | `main` produces exactly the specified exit code, usage flag and reports |
| `LogProcessorMain.ExitCodeSpec` | VHT/main.cpp:40-50 | the exit code is 0 or 1; it is 1 exactly when the scan did not stop at `--help` and the path is empty or no entry was read, and then no report runs |
| `LogProcessorMain.HelpExitsZero` | VHT/main.cpp:23-25 | the help outcome exits with 0, shows the usage text and runs no report |
| `LogProcessorMain.ErrorIsNotFatal` | VHT/main.cpp:34-64 | after an unknown argument with a usable file, the usage text is shown, all requested reports still run, and the exit code is 0 |
| `LogProcessorMain.ListReportsInOrder` | VHT/main.cpp:56-58 | one listing per `--list`, the k-th for the k-th level |
| `LogProcessorMain.ReportOrder` | VHT/main.cpp:52-62 | the count comes first if requested and the uptime last if requested, with one report per listing in between |
| `LogProcessorMain.ReportListsInOrder` | VHT/main.cpp:52-62 | the listings sit right after the count, in command-line order |

## Left out

- The calendar conversion in `parseTimestamp` (`std::get_time`, `mktime`, the local time
  zone) is library and OS code. It is the parameter `parse`; only its failure value -1 is modelled.
- The formatting of listed entries (`localtime_s`, `std::put_time`) is left out. A listing
  reports the entries themselves, so the format-then-parse round trip of timestamps is not stated.
- Opening the file and `std::getline` become the parameter `fs`. How the bytes of the
  file are cut into lines (newline and carriage-return handling) is not modelled.
- All printing to `std::cout` / `std::cerr`, the diagnostics, and the text of `displayHelp`
  are left out. The model returns structured results and a `usageShown` flag.
- LogProcessor.SplitSecondsSpec: does not model `difftime`'s `double` result or the
  `static_cast<long>` / `static_cast<int>` conversions. It uses exact integer subtraction,
  so spans too large for those types are not covered. `time_t` is an unbounded integer, and the
  exact difference of two integers stands for `difftime` followed by `static_cast<long>`.
- LogProcessor.CountLogLevels: the `int` counters are unbounded, so 32-bit overflow on
  more than 2^31 entries is not modelled.
- `::toupper` is the "C"-locale ASCII mapping. Other locales are not modelled.
- The bytes of a `std::string` are modelled as `char`s. `::toupper` of a byte above 0x7F
  (undefined for a negative `char`) is modelled as leaving it unchanged.
- A `std::string` is modelled as a string shorter than `npos` (type `CString`).
  `std::string::max_size()` guarantees this.
