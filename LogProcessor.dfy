/**
 The log processor: a reader that splits each line of a log file into a timestamp,
 a level and a message, and three read-only reports over the resulting entries
 (per-level counts, a listing by level, and the uptime between the first startup
 and the first shutdown message).
 */
module LogProcessor {
  import opened CppString

  datatype Option<T> = None | Some(value: T)

  datatype Result<T, E> = Ok(value: T) | Err(error: E)

  /** One parsed line of the log, never changed after it is built. */
  datatype LogEntry = LogEntry(timestamp: int, logLevel: string, message: string)

  /**
   The calendar conversion `std::get_time` with "%Y-%m-%d %H:%M:%S" followed by
   `mktime` in the local time zone: `None` when the stream fails, otherwise the
   resulting `time_t`.
   */
  type TimeParser = string -> Option<int>

  /** The `time_t` value `parseTimestamp` returns when the string does not parse. */
  const InvalidTimestamp: int := -1

  /** `parseTimestamp`: the parsed time, or the sentinel -1 on failure. */
  function ParseTimestamp(parse: TimeParser, timestampStr: string): (r: int)
  {
    match parse(timestampStr)
    case None => InvalidTimestamp
    case Some(t) => t
  }

  /** The open file as the sequence of lines `std::getline` yields, or `None` if it cannot be opened. */
  type FileSystem = string -> Option<seq<CString>>

  // ---------------------------------------------------------------------------
  // Line splitting (readLogFile)
  // ---------------------------------------------------------------------------

  /** The three text fields cut out of one line. */
  datatype Fields = Fields(timestampStr: string, logLevel: string, message: string)

  /** The results of the three `find` calls `readLogFile` makes on a line. */
  datatype SpacePositions = SpacePositions(first: SizeT, second: SizeT, third: SizeT)

  /**
   The 1st, 2nd and 3rd space of a line, each search starting one past the previous
   result in `size_t` arithmetic (so a search after `npos` starts over at 0).
   */
  function FindSpaces(line: CString): (r: SpacePositions)
  {
    var firstSpace := Find(line, ' ', 0);
    var secondSpace := Find(line, ' ', SizeSucc(firstSpace));
    SpacePositions(firstSpace, secondSpace, Find(line, ' ', SizeSucc(secondSpace)))
  }

  predicate AllFound(p: SpacePositions)
  {
    p.first != NPos && p.second != NPos && p.third != NPos
  }

  /** When all three searches succeed they find the first three spaces of the line, in order. */
  lemma FindSpacesFound(line: CString)
    requires AllFound(FindSpaces(line))
    ensures var p := FindSpaces(line);
            && p.first < p.second < p.third < |line|
            && line[p.first] == ' ' && line[p.second] == ' ' && line[p.third] == ' '
            && (forall k :: 0 <= k < p.first ==> line[k] != ' ')
            && (forall k :: p.first < k < p.second ==> line[k] != ' ')
            && (forall k :: p.second < k < p.third ==> line[k] != ' ')
  {
    var p := FindSpaces(line);
    FindSpec(line, ' ', 0);
    assert SizeSucc(p.first) == p.first + 1;
    FindSpec(line, ' ', p.first + 1);
    assert SizeSucc(p.second) == p.second + 1;
    FindSpec(line, ' ', p.second + 1);
  }

  /**
   Cut a line at its 1st, 2nd and 3rd space: everything before the 2nd space, the
   text between the 2nd and the 3rd, and everything after the 3rd.
   */
  function SplitLine(line: CString): (r: Option<Fields>)
  {
    var p := FindSpaces(line);
    if AllFound(p) then
      FindSpacesFound(line);
      Some(Fields(line[..p.second], line[p.second + 1..p.third], line[p.third + 1..]))
    else
      None
  }

  function SpaceCount(s: string): (r: nat)
  {
    Count(s, ' ')
  }

  /** The three searches all succeed exactly when the line holds at least three spaces. */
  lemma AllFoundIffThreeSpaces(line: CString)
    ensures AllFound(FindSpaces(line)) <==> SpaceCount(line) >= 3
  {
    var first := Find(line, ' ', 0);
    FindCount(line, ' ', 0);
    if first == NPos {
      assert SizeSucc(first) == 0;
    } else {
      FindSpec(line, ' ', 0);
      assert SizeSucc(first) == first + 1;
      var second := Find(line, ' ', first + 1);
      FindCount(line, ' ', first + 1);
      if second != NPos {
        FindSpec(line, ' ', first + 1);
        assert SizeSucc(second) == second + 1;
        FindCount(line, ' ', second + 1);
      }
    }
  }

  /** A line is split exactly when it holds at least three spaces. */
  lemma SplitLineAccepts(line: CString)
    ensures SplitLine(line).Some? <==> SpaceCount(line) >= 3
  {
    AllFoundIffThreeSpaces(line);
  }

  lemma JoinAtSpaces(s: string, i: nat, j: nat)
    requires i < j < |s| && s[i] == ' ' && s[j] == ' '
    ensures s[..i] + " " + s[i + 1..j] + " " + s[j + 1..] == s
  {
  }

  /** The fields of a split line, put back together with single spaces, give the line. */
  lemma SplitLineRoundTrip(line: CString)
    requires SplitLine(line).Some?
    ensures var f := SplitLine(line).value;
            f.timestampStr + " " + f.logLevel + " " + f.message == line
  {
    var p := FindSpaces(line);
    FindSpacesFound(line);
    JoinAtSpaces(line, p.second, p.third);
  }

  /** The timestamp text of a split line holds exactly one space, between date and time. */
  lemma SplitLineTimestampOneSpace(line: CString)
    requires SplitLine(line).Some?
    ensures SpaceCount(SplitLine(line).value.timestampStr) == 1
  {
    var p := FindSpaces(line);
    FindSpacesFound(line);
    var ts := line[..p.second];
    CountSkip(ts, ' ', 0, p.first);
    CountSkip(ts, ' ', p.first + 1, |ts|);
  }

  /** The level of a split line holds no space. */
  lemma SplitLineLevelNoSpace(line: CString)
    requires SplitLine(line).Some?
    ensures SpaceCount(SplitLine(line).value.logLevel) == 0
  {
    var p := FindSpaces(line);
    FindSpacesFound(line);
    var level := line[p.second + 1..p.third];
    CountSkip(level, ' ', 0, |level|);
  }

  /** `readLogFile`'s treatment of one line: skipped when blank or short of spaces. */
  function ParseLine(parse: TimeParser, line: CString): (r: Option<LogEntry>)
  {
    if line == "" then None
    else match SplitLine(line)
      case None => None
      case Some(f) => Some(LogEntry(ParseTimestamp(parse, f.timestampStr), f.logLevel, f.message))
  }

  /**
   A line yields an entry exactly when it holds at least three spaces, and that
   entry carries the split fields with the parsed (or sentinel) timestamp.
   */
  lemma ParseLineSpec(parse: TimeParser, line: CString)
    ensures ParseLine(parse, line).Some? <==> SpaceCount(line) >= 3
    ensures SpaceCount(line) >= 3 ==>
              var f := SplitLine(line).value;
              ParseLine(parse, line) == Some(LogEntry(ParseTimestamp(parse, f.timestampStr), f.logLevel, f.message))
  {
    SplitLineAccepts(line);
  }

  /** A well-split line whose timestamp does not parse still gives an entry, stamped -1. */
  lemma UnparsableTimestampKeepsEntry(parse: TimeParser, line: CString)
    requires SplitLine(line).Some?
    requires parse(SplitLine(line).value.timestampStr).None?
    ensures ParseLine(parse, line).Some?
    ensures ParseLine(parse, line).value.timestamp == InvalidTimestamp
    ensures ParseLine(parse, line).value.logLevel == SplitLine(line).value.logLevel
    ensures ParseLine(parse, line).value.message == SplitLine(line).value.message
  {
    SplitLineAccepts(line);
  }

  /** The entries of a file's lines, in file order. */
  function ParseLines(parse: TimeParser, lines: seq<CString>): (r: seq<LogEntry>)
  {
    if lines == [] then []
    else
      var last := lines[|lines| - 1];
      ParseLines(parse, lines[..|lines| - 1]) +
        match ParseLine(parse, last) case None => [] case Some(e) => [e]
  }

  /** Number of lines holding at least three spaces. */
  function AcceptedCount(lines: seq<CString>): (r: nat)
  {
    if lines == [] then 0
    else AcceptedCount(lines[..|lines| - 1]) + (if SpaceCount(lines[|lines| - 1]) >= 3 then 1 else 0)
  }

  /** One entry per line with at least three spaces. */
  lemma {:induction false} ParseLinesLength(parse: TimeParser, lines: seq<CString>)
    ensures |ParseLines(parse, lines)| == AcceptedCount(lines)
  {
    if lines != [] {
      ParseLinesLength(parse, lines[..|lines| - 1]);
      ParseLineSpec(parse, lines[|lines| - 1]);
    }
  }

  /** Reading is line by line: the entries of `a + b` are those of `a` then those of `b`. */
  lemma {:induction false} ParseLinesAppend(parse: TimeParser, a: seq<CString>, b: seq<CString>)
    ensures ParseLines(parse, a + b) == ParseLines(parse, a) + ParseLines(parse, b)
    decreases |b|
  {
    if b == [] {
      assert a + b == a;
    } else {
      var b' := b[..|b| - 1];
      assert (a + b)[..|a + b| - 1] == a + b';
      assert (a + b)[|a + b| - 1] == b[|b| - 1];
      ParseLinesAppend(parse, a, b');
    }
  }

  /** Reading a single line gives that line's entry, if any. */
  lemma ParseLinesSingle(parse: TimeParser, line: CString)
    ensures ParseLines(parse, [line]) ==
              match ParseLine(parse, line) case None => [] case Some(e) => [e]
  {
    assert [line][..0] == [];
  }

  /** `readLogFile`: the empty path and an unopenable file both give no entries. */
  function ReadLog(fs: FileSystem, parse: TimeParser, filePath: string): (r: seq<LogEntry>)
  {
    if filePath == "" then []
    else match fs(filePath)
      case None => []
      case Some(lines) => ParseLines(parse, lines)
  }

  /** `readLogFile`, line by line with `push_back`. */
  method ReadLogFile(fs: FileSystem, parse: TimeParser, filePath: string) returns (logEntries: seq<LogEntry>)
    ensures logEntries == ReadLog(fs, parse, filePath)
    ensures filePath == "" || fs(filePath).None? ==> logEntries == []
  {
    logEntries := [];
    if filePath == "" {
      return;
    }
    var file := fs(filePath);
    if file.None? {
      return;
    }
    var lines := file.value;
    var i := 0;
    while i < |lines|
      invariant 0 <= i <= |lines|
      invariant logEntries == ParseLines(parse, lines[..i])
    {
      var line := lines[i];
      assert lines[..i + 1][..i] == lines[..i];
      if line != "" {
        var split := SplitLine(line);
        if split.Some? {
          var entry := LogEntry(ParseTimestamp(parse, split.value.timestampStr),
                                split.value.logLevel, split.value.message);
          logEntries := logEntries + [entry];
        }
      }
      i := i + 1;
    }
    assert lines[..i] == lines;
  }

  // ---------------------------------------------------------------------------
  // Level counter (countLogLevels)
  // ---------------------------------------------------------------------------

  /** The three tallies `countLogLevels` prints. */
  datatype LevelCounts = LevelCounts(info: nat, warning: nat, error: nat)

  /** Number of entries whose stored level is exactly `level`. */
  function CountLevel(entries: seq<LogEntry>, level: string): (r: nat)
  {
    if entries == [] then 0
    else CountLevel(entries[..|entries| - 1], level) + (if entries[|entries| - 1].logLevel == level then 1 else 0)
  }

  const ValidLevels: set<string> := {"INFO", "WARNING", "ERROR"}

  /** Number of entries whose stored level is one of the three recognised ones. */
  function CountRecognised(entries: seq<LogEntry>): (r: nat)
  {
    if entries == [] then 0
    else CountRecognised(entries[..|entries| - 1]) + (if entries[|entries| - 1].logLevel in ValidLevels then 1 else 0)
  }

  /** The three tallies of a log: exact, case-sensitive counts per recognised level. */
  function Tally(entries: seq<LogEntry>): (r: LevelCounts)
  {
    LevelCounts(CountLevel(entries, "INFO"), CountLevel(entries, "WARNING"), CountLevel(entries, "ERROR"))
  }

  /** `countLogLevels`: one pass with three accumulators and exact, case-sensitive matching. */
  method CountLogLevels(logEntries: seq<LogEntry>) returns (counts: LevelCounts)
    ensures counts == Tally(logEntries)
  {
    var infoCount, warningCount, errorCount := 0, 0, 0;
    var i := 0;
    while i < |logEntries|
      invariant 0 <= i <= |logEntries|
      invariant infoCount == CountLevel(logEntries[..i], "INFO")
      invariant warningCount == CountLevel(logEntries[..i], "WARNING")
      invariant errorCount == CountLevel(logEntries[..i], "ERROR")
    {
      var entry := logEntries[i];
      assert logEntries[..i + 1][..i] == logEntries[..i];
      if entry.logLevel == "INFO" {
        infoCount := infoCount + 1;
      } else if entry.logLevel == "WARNING" {
        warningCount := warningCount + 1;
      } else if entry.logLevel == "ERROR" {
        errorCount := errorCount + 1;
      }
      i := i + 1;
    }
    assert logEntries[..i] == logEntries;
    counts := LevelCounts(infoCount, warningCount, errorCount);
  }

  /** The three tallies together count exactly the entries with a recognised level. */
  lemma {:induction false} CountsSumToRecognised(entries: seq<LogEntry>)
    ensures Tally(entries).info + Tally(entries).warning + Tally(entries).error == CountRecognised(entries)
  {
    if entries != [] {
      CountsSumToRecognised(entries[..|entries| - 1]);
    }
  }

  /** An entry whose level is not one of the three leaves every tally unchanged. */
  lemma OtherLevelCountsNothing(entries: seq<LogEntry>, e: LogEntry, level: string)
    requires e.logLevel !in ValidLevels
    requires level in ValidLevels
    ensures CountLevel(entries + [e], level) == CountLevel(entries, level)
    ensures CountRecognised(entries + [e]) == CountRecognised(entries)
  {
    assert (entries + [e])[..|entries|] == entries;
  }

  // ---------------------------------------------------------------------------
  // Level lister (listMessagesByLevel)
  // ---------------------------------------------------------------------------

  datatype ListError = InvalidLogLevel(level: string)

  /** The entries, in order, whose stored level equals `level`. */
  function EntriesAt(entries: seq<LogEntry>, level: string): (r: seq<LogEntry>)
  {
    if entries == [] then []
    else
      var last := entries[|entries| - 1];
      EntriesAt(entries[..|entries| - 1], level) + (if last.logLevel == level then [last] else [])
  }

  /**
   `listMessagesByLevel`: the query is upper-cased and must be a recognised level;
   the stored levels are compared as they are.
   */
  function ListByLevel(entries: seq<LogEntry>, level: string): (r: Result<seq<LogEntry>, ListError>)
  {
    var formattedLevel := ToUpper(level);
    if formattedLevel !in ValidLevels then Err(InvalidLogLevel(level))
    else Ok(EntriesAt(entries, formattedLevel))
  }

  /** `listMessagesByLevel`, with the in-place upper-casing and the filtering loop. */
  method ListMessagesByLevel(logEntries: seq<LogEntry>, level: string)
    returns (listed: Result<seq<LogEntry>, ListError>)
    ensures listed == ListByLevel(logEntries, level)
  {
    var buffer := new char[|level|](i requires 0 <= i < |level| => level[i]);
    assert buffer[..] == level;
    UpperInPlace(buffer);
    var formattedLevel := buffer[..];
    if formattedLevel !in ValidLevels {
      return Err(InvalidLogLevel(level));
    }
    var shown := [];
    var i := 0;
    while i < |logEntries|
      invariant 0 <= i <= |logEntries|
      invariant shown == EntriesAt(logEntries[..i], formattedLevel)
    {
      var entry := logEntries[i];
      assert logEntries[..i + 1][..i] == logEntries[..i];
      if entry.logLevel == formattedLevel {
        shown := shown + [entry];
      }
      i := i + 1;
    }
    assert logEntries[..i] == logEntries;
    listed := Ok(shown);
  }

  /** The filter keeps exactly the entries at that level, and nothing else. */
  lemma {:induction false} EntriesAtMembers(entries: seq<LogEntry>, level: string)
    ensures forall e :: e in EntriesAt(entries, level) <==> e in entries && e.logLevel == level
  {
    if entries != [] {
      var init := entries[..|entries| - 1];
      EntriesAtMembers(init, level);
      assert entries == init + [entries[|entries| - 1]];
    }
  }

  /** The filter keeps file order: filtering `a + b` is filtering `a`, then `b`. */
  lemma {:induction false} EntriesAtAppend(a: seq<LogEntry>, b: seq<LogEntry>, level: string)
    ensures EntriesAt(a + b, level) == EntriesAt(a, level) + EntriesAt(b, level)
    decreases |b|
  {
    if b == [] {
      assert a + b == a;
    } else {
      var b' := b[..|b| - 1];
      assert (a + b)[..|a + b| - 1] == a + b';
      EntriesAtAppend(a, b', level);
    }
  }

  /** The filter keeps one entry per entry at that level. */
  lemma {:induction false} EntriesAtLength(entries: seq<LogEntry>, level: string)
    ensures |EntriesAt(entries, level)| == CountLevel(entries, level)
  {
    if entries != [] {
      EntriesAtLength(entries[..|entries| - 1], level);
    }
  }

  /**
   The listing is an error exactly when the upper-cased query is not one of the three
   levels; otherwise it is exactly the entries at the upper-cased level, one per such
   entry; `EntriesAtAppend` gives their order.
   */
  lemma ListByLevelSpec(entries: seq<LogEntry>, level: string)
    ensures ListByLevel(entries, level).Err? <==> ToUpper(level) !in ValidLevels
    ensures ListByLevel(entries, level).Ok? ==>
              var r := ListByLevel(entries, level).value;
              && |r| == CountLevel(entries, ToUpper(level))
              && forall e :: e in r <==> e in entries && e.logLevel == ToUpper(level)
  {
    EntriesAtLength(entries, ToUpper(level));
    EntriesAtMembers(entries, ToUpper(level));
  }

  /** The query's case does not matter: listing by a query equals listing by its upper-case form. */
  lemma ListIgnoresQueryCase(entries: seq<LogEntry>, level: string)
    ensures ListByLevel(entries, level).Ok? ==> ListByLevel(entries, ToUpper(level)).Ok?
    ensures ListByLevel(entries, level).Ok? ==>
              ListByLevel(entries, level).value == ListByLevel(entries, ToUpper(level)).value
    ensures ListByLevel(entries, level).Err? <==> ListByLevel(entries, ToUpper(level)).Err?
  {
    ToUpperIdempotent(level);
  }

  /** In particular, "info" and "INFO" list the same entries. */
  lemma ListInfoLowerEqualsUpper(entries: seq<LogEntry>)
    ensures ListByLevel(entries, "info") == Ok(EntriesAt(entries, "INFO"))
    ensures ListByLevel(entries, "INFO") == Ok(EntriesAt(entries, "INFO"))
  {
    assert ToUpper("info") == "INFO";
    assert ToUpper("INFO") == "INFO";
  }

  /**
   The stored level is never normalised: an entry whose level holds an ASCII
   lower-case letter (such as "info") is listed by no query.
   */
  lemma LowerCaseLevelNeverListed(entries: seq<LogEntry>, level: string, e: LogEntry, k: nat)
    requires k < |e.logLevel| && IsLowerAscii(e.logLevel[k])
    requires ListByLevel(entries, level).Ok?
    ensures e !in ListByLevel(entries, level).value
  {
    EntriesAtMembers(entries, ToUpper(level));
    ToUpperHasNoLower(level);
  }

  // ---------------------------------------------------------------------------
  // Uptime calculator (calculateUptime)
  // ---------------------------------------------------------------------------

  const StartupMarker: string := "System startup"
  const ShutdownMarker: string := "System shutdown"

  datatype UptimeError = NoLogEntries | NoStartupLog

  /** Elapsed time split as `calculateUptime` prints it as HH:MM:SS. */
  datatype Uptime = Uptime(hours: int, minutes: int, seconds: int)

  /** C++ integer division `a / b`, which truncates toward zero. */
  function TruncDiv(a: int, b: int): (r: int)
    requires b > 0
  {
    if a >= 0 then a / b else -((-a) / b)
  }

  /** C++ integer remainder `a % b`, which takes the sign of `a`. */
  function TruncRem(a: int, b: int): (r: int)
    requires b > 0
  {
    a - b * TruncDiv(a, b)
  }

  lemma EuclidNonNeg(a: int, b: int)
    requires a >= 0 && b > 0
    ensures a / b >= 0 && 0 <= a - b * (a / b) < b
  {
    assert a == b * (a / b) + a % b;
  }

  /** Truncating division and remainder: the remainder is smaller than `b` and has `a`'s sign. */
  lemma TruncDivRem(a: int, b: int)
    requires b > 0
    ensures b * TruncDiv(a, b) + TruncRem(a, b) == a
    ensures a >= 0 ==> 0 <= TruncRem(a, b) < b && TruncDiv(a, b) >= 0
    ensures a < 0 ==> -b < TruncRem(a, b) <= 0 && TruncDiv(a, b) <= 0
  {
    if a >= 0 {
      EuclidNonNeg(a, b);
    } else {
      EuclidNonNeg(-a, b);
      assert TruncRem(a, b) == -((-a) - b * ((-a) / b));
    }
  }

  /** The seconds of a remainder modulo an hour are the seconds of the whole. */
  lemma TruncRemHourMinute(d: int)
    ensures TruncRem(TruncRem(d, 3600), 60) == TruncRem(d, 60)
  {
    var n := if d >= 0 then d else -d;
    var q := n / 3600;
    var r := n % 3600;
    assert n == 3600 * q + r;
    assert n == 60 * (60 * q + r / 60) + r % 60;
    assert n / 60 == 60 * q + r / 60;
    assert n % 60 == r % 60;
  }

  /** `calculateUptime`'s split of elapsed seconds into hours, minutes and seconds. */
  function SplitSeconds(uptimeSeconds: int): (r: Uptime)
  {
    Uptime(TruncDiv(uptimeSeconds, 3600), TruncDiv(TruncRem(uptimeSeconds, 3600), 60), TruncRem(uptimeSeconds, 60))
  }

  /**
   The split adds back up to the elapsed time; for a non-negative time the minutes
   and seconds are below 60, for a negative one all three parts are non-positive.
   */
  lemma SplitSecondsSpec(d: int)
    ensures var u := SplitSeconds(d);
            u.hours * 3600 + u.minutes * 60 + u.seconds == d
    ensures d >= 0 ==> var u := SplitSeconds(d);
                       u.hours >= 0 && 0 <= u.minutes < 60 && 0 <= u.seconds < 60
    ensures d < 0 ==> var u := SplitSeconds(d);
                      u.hours <= 0 && -60 < u.minutes <= 0 && -60 < u.seconds <= 0
  {
    TruncDivRem(d, 3600);
    var r := TruncRem(d, 3600);
    TruncDivRem(r, 60);
    TruncRemHourMinute(d);
    TruncDivRem(d, 60);
    assert TruncDiv(r, 60) * 60 + TruncRem(d, 60) == r;
  }

  /** `entry.message.find(marker) != npos`. */
  predicate Mentions(entry: LogEntry, marker: string)
  {
    Contains(entry.message, marker)
  }

  /**
   The timestamp of the first entry whose message contains `marker`, or `initial`
   (the value the source's accumulator starts at) when there is none.
   */
  function FirstTimestampWith(entries: seq<LogEntry>, marker: string, initial: int): (r: int)
  {
    if entries == [] then initial
    else if Mentions(entries[0], marker) then entries[0].timestamp
    else FirstTimestampWith(entries[1..], marker, initial)
  }

  /** With no entry mentioning the marker, the accumulator keeps its initial value. */
  lemma {:induction false} FirstTimestampNone(entries: seq<LogEntry>, marker: string, initial: int)
    requires forall k :: 0 <= k < |entries| ==> !Mentions(entries[k], marker)
    ensures FirstTimestampWith(entries, marker, initial) == initial
  {
    if entries != [] {
      assert forall k :: 0 <= k < |entries| - 1 ==> entries[1..][k] == entries[k + 1];
      FirstTimestampNone(entries[1..], marker, initial);
    }
  }

  /** The search yields the timestamp of the first entry that mentions the marker. */
  lemma {:induction false} FirstTimestampAt(entries: seq<LogEntry>, marker: string, initial: int, k: nat)
    requires k < |entries| && Mentions(entries[k], marker)
    requires forall j :: 0 <= j < k ==> !Mentions(entries[j], marker)
    ensures FirstTimestampWith(entries, marker, initial) == entries[k].timestamp
  {
    if k > 0 {
      assert !Mentions(entries[0], marker);
      assert forall j :: 0 <= j < |entries| - 1 ==> entries[1..][j] == entries[j + 1];
      FirstTimestampAt(entries[1..], marker, initial, k - 1);
    }
  }

  /** `calculateUptime` on the entry collection. */
  function ComputeUptime(entries: seq<LogEntry>): (r: Result<Uptime, UptimeError>)
  {
    if entries == [] then Err(NoLogEntries)
    else
      var startTime := FirstTimestampWith(entries, StartupMarker, 0);
      var endTime := FirstTimestampWith(entries, ShutdownMarker, 0);
      if startTime == 0 then Err(NoStartupLog)
      else Ok(SplitSeconds(endTime - startTime))
  }

  /** `calculateUptime`, with its two searches that stop at the first marker. */
  method CalculateUptime(logEntries: seq<LogEntry>) returns (uptime: Result<Uptime, UptimeError>)
    ensures uptime == ComputeUptime(logEntries)
  {
    if |logEntries| == 0 {
      return Err(NoLogEntries);
    }
    var startTime := 0;
    var endTime := 0;
    var i := 0;
    while i < |logEntries|
      invariant 0 <= i <= |logEntries|
      invariant startTime == 0
      invariant FirstTimestampWith(logEntries[i..], StartupMarker, 0) == FirstTimestampWith(logEntries, StartupMarker, 0)
    {
      assert logEntries[i..][1..] == logEntries[i + 1..];
      if Mentions(logEntries[i], StartupMarker) {
        startTime := logEntries[i].timestamp;
        break;
      }
      i := i + 1;
    }
    var j := 0;
    while j < |logEntries|
      invariant 0 <= j <= |logEntries|
      invariant endTime == 0
      invariant FirstTimestampWith(logEntries[j..], ShutdownMarker, 0) == FirstTimestampWith(logEntries, ShutdownMarker, 0)
    {
      assert logEntries[j..][1..] == logEntries[j + 1..];
      if Mentions(logEntries[j], ShutdownMarker) {
        endTime := logEntries[j].timestamp;
        break;
      }
      j := j + 1;
    }
    if startTime == 0 {
      return Err(NoStartupLog);
    }
    var uptimeSeconds := endTime - startTime;
    uptime := Ok(SplitSeconds(uptimeSeconds));
  }

  /**
   The uptime is an error exactly when there are no entries, or when the start time
   ends up 0: no startup message, or one whose timestamp is 0.
   */
  lemma ComputeUptimeErrors(entries: seq<LogEntry>)
    ensures ComputeUptime(entries) == Err(NoLogEntries) <==> entries == []
    ensures ComputeUptime(entries) == Err(NoStartupLog) <==>
              entries != [] && FirstTimestampWith(entries, StartupMarker, 0) == 0
    ensures ComputeUptime(entries).Err? <==>
              entries == [] || FirstTimestampWith(entries, StartupMarker, 0) == 0
  {
  }

  /** Otherwise the hours, minutes and seconds add up to the end time minus the start time. */
  lemma ComputeUptimeSum(entries: seq<LogEntry>)
    requires ComputeUptime(entries).Ok?
    ensures var u := ComputeUptime(entries).value;
            u.hours * 3600 + u.minutes * 60 + u.seconds ==
              FirstTimestampWith(entries, ShutdownMarker, 0) - FirstTimestampWith(entries, StartupMarker, 0)
  {
    SplitSecondsSpec(FirstTimestampWith(entries, ShutdownMarker, 0) - FirstTimestampWith(entries, StartupMarker, 0));
  }

  /**
   Without a shutdown message the end time stays at its initial 0, so the uptime
   adds up to minus the start time.
   */
  lemma NoShutdownEndsAtZero(entries: seq<LogEntry>)
    requires forall k :: 0 <= k < |entries| ==> !Mentions(entries[k], ShutdownMarker)
    ensures FirstTimestampWith(entries, ShutdownMarker, 0) == 0
    ensures ComputeUptime(entries).Ok? ==>
              var u := ComputeUptime(entries).value;
              u.hours * 3600 + u.minutes * 60 + u.seconds == -FirstTimestampWith(entries, StartupMarker, 0)
  {
    FirstTimestampNone(entries, ShutdownMarker, 0);
    if ComputeUptime(entries).Ok? {
      ComputeUptimeSum(entries);
    }
  }

  /** A non-empty log with no startup message gives the "no startup" error. */
  lemma NoStartupMessageFails(entries: seq<LogEntry>)
    requires entries != []
    requires forall k :: 0 <= k < |entries| ==> !Mentions(entries[k], StartupMarker)
    ensures ComputeUptime(entries) == Err(NoStartupLog)
  {
    FirstTimestampNone(entries, StartupMarker, 0);
  }

  /**
   A startup at time `t` (not 0) and a shutdown 1 h 30 min 15 s later give 01:30:15.
   */
  lemma UptimeExample(t: int)
    requires t != 0
    ensures ComputeUptime([LogEntry(t, "INFO", "System startup"), LogEntry(t + 5415, "INFO", "System shutdown")])
            == Ok(Uptime(1, 30, 15))
  {
    var entries := [LogEntry(t, "INFO", "System startup"), LogEntry(t + 5415, "INFO", "System shutdown")];
    assert FirstTimestampWith(entries, StartupMarker, 0) == t by {
      assert Mentions(entries[0], StartupMarker);
    }
    assert FirstTimestampWith(entries, ShutdownMarker, 0) == t + 5415 by {
      ContainsIsOccurrence(entries[0].message, ShutdownMarker);
      assert Mentions(entries[1], ShutdownMarker);
      FirstTimestampAt(entries, ShutdownMarker, 0, 1);
    }
    assert SplitSeconds(5415) == Uptime(1, 30, 15);
  }
}
