/**
 The command line of the log processor: the scan of the arguments into a
 configuration, the exit code, and the order in which the reports run.
 The arguments are those after the program name (`argv[1]` to `argv[argc - 1]`).
 */
module LogProcessorMain {
  import opened CppString
  import opened LogProcessor

  /** What the argument scan collects. */
  datatype Config = Config(filePath: string, countLevels: bool, listLevels: seq<string>, uptime: bool, isError: bool)

  const InitialConfig: Config := Config("", false, [], false, false)

  /** The scan either stops at `--help` or yields a configuration. */
  datatype ScanOutcome = HelpRequested | Scanned(config: Config)

  /** The tokens the scan recognises on their own (without a following argument). */
  predicate IsFlagToken(token: string)
  {
    token == "--count-levels" || token == "--uptime" || token == "--help"
  }

  /**
   The scan of the remaining tokens from configuration `cfg`. `--file` and `--list`
   take the next token only when there is one; anything unrecognised sets `isError`
   and ends the scan.
   */
  function ScanFrom(cfg: Config, args: seq<string>): (r: ScanOutcome)
    decreases |args|
  {
    if args == [] then Scanned(cfg)
    else if args[0] == "--file" && 1 < |args| then ScanFrom(cfg.(filePath := args[1]), args[2..])
    else if args[0] == "--count-levels" then ScanFrom(cfg.(countLevels := true), args[1..])
    else if args[0] == "--list" && 1 < |args| then ScanFrom(cfg.(listLevels := cfg.listLevels + [args[1]]), args[2..])
    else if args[0] == "--uptime" then ScanFrom(cfg.(uptime := true), args[1..])
    else if args[0] == "--help" then HelpRequested
    else Scanned(cfg.(isError := true))
  }

  /** The loop over `argv` in `main`, with its `++i` skip, early `return` and `break`. */
  method ScanArguments(args: seq<string>) returns (outcome: ScanOutcome)
    ensures outcome == ScanFrom(InitialConfig, args)
  {
    var filePath := "";
    var countLevels := false;
    var listLevels: seq<string> := [];
    var uptime := false;
    var isError := false;
    var i := 0;
    while i < |args|
      invariant 0 <= i <= |args|
      invariant !isError
      invariant ScanFrom(Config(filePath, countLevels, listLevels, uptime, isError), args[i..]) ==
                ScanFrom(InitialConfig, args)
    {
      assert args[i..][0] == args[i];
      if args[i] == "--file" && i + 1 < |args| {
        assert args[i..][2..] == args[i + 2..];
        i := i + 1;
        filePath := args[i];
      } else if args[i] == "--count-levels" {
        assert args[i..][1..] == args[i + 1..];
        countLevels := true;
      } else if args[i] == "--list" && i + 1 < |args| {
        assert args[i..][2..] == args[i + 2..];
        i := i + 1;
        listLevels := listLevels + [args[i]];
      } else if args[i] == "--uptime" {
        assert args[i..][1..] == args[i + 1..];
        uptime := true;
      } else if args[i] == "--help" {
        return HelpRequested;
      } else {
        isError := true;
        assert ScanFrom(InitialConfig, args) == Scanned(Config(filePath, countLevels, listLevels, uptime, isError));
        break;
      }
      i := i + 1;
    }
    outcome := Scanned(Config(filePath, countLevels, listLevels, uptime, isError));
  }

  /** `--file X` sets the file path to X; a later `--file` overrides an earlier one. */
  lemma FileSetsPath(cfg: Config, x: string, y: string, rest: seq<string>)
    ensures ScanFrom(cfg, ["--file", x] + rest) == ScanFrom(cfg.(filePath := x), rest)
    ensures ScanFrom(cfg, ["--file", x, "--file", y] + rest) == ScanFrom(cfg.(filePath := y), rest)
  {
    assert (["--file", x] + rest)[2..] == rest;
    assert (["--file", x, "--file", y] + rest)[2..] == ["--file", y] + rest;
    assert (["--file", y] + rest)[2..] == rest;
  }

  /** Each `--list X` appends X to the levels to list. */
  lemma ListAppendsLevel(cfg: Config, x: string, rest: seq<string>)
    ensures ScanFrom(cfg, ["--list", x] + rest) == ScanFrom(cfg.(listLevels := cfg.listLevels + [x]), rest)
  {
    assert (["--list", x] + rest)[2..] == rest;
  }

  /**
   The scan only ever appends to the levels to list, so the levels already collected
   stay first and in their order; the two flags, once set, stay set.
   */
  lemma {:induction false} ScanExtends(cfg: Config, args: seq<string>)
    ensures ScanFrom(cfg, args).Scanned? ==>
              var c := ScanFrom(cfg, args).config;
              && cfg.listLevels <= c.listLevels
              && (cfg.countLevels ==> c.countLevels)
              && (cfg.uptime ==> c.uptime)
    decreases |args|
  {
    if args == [] {
    } else if args[0] == "--file" && 1 < |args| {
      ScanExtends(cfg.(filePath := args[1]), args[2..]);
    } else if args[0] == "--count-levels" {
      ScanExtends(cfg.(countLevels := true), args[1..]);
    } else if args[0] == "--list" && 1 < |args| {
      ScanExtends(cfg.(listLevels := cfg.listLevels + [args[1]]), args[2..]);
    } else if args[0] == "--uptime" {
      ScanExtends(cfg.(uptime := true), args[1..]);
    }
  }

  /** `--help` ends the scan, whatever follows it. */
  lemma HelpEndsScan(cfg: Config, rest: seq<string>)
    ensures ScanFrom(cfg, ["--help"] + rest) == HelpRequested
  {
  }

  /**
   An unrecognised token, or a `--file` or `--list` with nothing after it, sets
   `isError` and ends the scan: the tokens after it are ignored.
   */
  lemma UnknownTokenStopsScan(cfg: Config, token: string, rest: seq<string>)
    requires !IsFlagToken(token)
    requires token == "--file" || token == "--list" ==> rest == []
    ensures ScanFrom(cfg, [token] + rest) == Scanned(cfg.(isError := true))
  {
  }

  /** What one report produces, in place of what it prints. */
  datatype Report =
    | CountReport(counts: LevelCounts)
    | ListReport(level: string, listed: Result<seq<LogEntry>, ListError>)
    | UptimeReport(uptime: Result<Uptime, UptimeError>)

  /** The exit code, whether the usage text was shown, and the reports in the order they ran. */
  datatype RunResult = RunResult(exitCode: int, usageShown: bool, reports: seq<Report>)

  /** One listing per requested level, in command-line order. */
  function ListReports(entries: seq<LogEntry>, levels: seq<string>): (r: seq<Report>)
  {
    if levels == [] then []
    else
      var last := levels[|levels| - 1];
      ListReports(entries, levels[..|levels| - 1]) + [ListReport(last, ListByLevel(entries, last))]
  }

  /** The reports `main` runs: the count if requested, then every listing, then the uptime if requested. */
  function Reports(cfg: Config, entries: seq<LogEntry>): (r: seq<Report>)
  {
    (if cfg.countLevels then [CountReport(Tally(entries))] else []) +
    ListReports(entries, cfg.listLevels) +
    (if cfg.uptime then [UptimeReport(ComputeUptime(entries))] else [])
  }

  /** What `main` does with its arguments, a file system and the timestamp parser. */
  function RunSpec(args: seq<string>, fs: FileSystem, parse: TimeParser): (r: RunResult)
  {
    match ScanFrom(InitialConfig, args)
    case HelpRequested => RunResult(0, true, [])
    case Scanned(cfg) =>
      if cfg.filePath == "" then RunResult(1, cfg.isError, [])
      else
        var entries := ReadLog(fs, parse, cfg.filePath);
        if entries == [] then RunResult(1, cfg.isError, [])
        else RunResult(0, cfg.isError, Reports(cfg, entries))
  }

  /** `main`: scan, show the usage text on an error, read the file, run the reports. */
  method Run(args: seq<string>, fs: FileSystem, parse: TimeParser) returns (run: RunResult)
    ensures run == RunSpec(args, fs, parse)
  {
    var outcome := ScanArguments(args);
    if outcome.HelpRequested? {
      return RunResult(0, true, []);
    }
    var cfg := outcome.config;
    var usageShown := cfg.isError;
    if cfg.filePath == "" {
      return RunResult(1, usageShown, []);
    }
    var logEntries := ReadLogFile(fs, parse, cfg.filePath);
    if logEntries == [] {
      return RunResult(1, usageShown, []);
    }
    assert logEntries == ReadLog(fs, parse, cfg.filePath);
    var countPart: seq<Report> := [];
    if cfg.countLevels {
      var counts := CountLogLevels(logEntries);
      countPart := [CountReport(counts)];
    }
    var levels := cfg.listLevels;
    var listPart: seq<Report> := [];
    for k := 0 to |levels|
      invariant listPart == ListReports(logEntries, levels[..k])
    {
      var listed := ListMessagesByLevel(logEntries, levels[k]);
      assert levels[..k + 1][..k] == levels[..k];
      listPart := listPart + [ListReport(levels[k], listed)];
    }
    assert levels[..|levels|] == levels;
    var uptimePart: seq<Report> := [];
    if cfg.uptime {
      var uptime := CalculateUptime(logEntries);
      uptimePart := [UptimeReport(uptime)];
    }
    var reports := countPart + listPart + uptimePart;
    assert reports == Reports(cfg, logEntries);
    run := RunResult(0, usageShown, reports);
  }

  /**
   The exit code is 1 exactly when the scan did not stop at `--help` and either no
   file path was given (even after an unknown argument) or no entry was read; it is
   0 otherwise, also when an unknown argument was reported.
   */
  lemma ExitCodeSpec(args: seq<string>, fs: FileSystem, parse: TimeParser)
    ensures var r := RunSpec(args, fs, parse);
            && (r.exitCode == 0 || r.exitCode == 1)
            && (r.exitCode == 1 <==>
                  ScanFrom(InitialConfig, args).Scanned? &&
                  var cfg := ScanFrom(InitialConfig, args).config;
                  cfg.filePath == "" || ReadLog(fs, parse, cfg.filePath) == [])
            && (r.exitCode == 1 ==> r.reports == [])
  {
  }

  /** `--help` anywhere the scan reaches gives exit code 0, the usage text and no report. */
  lemma HelpExitsZero(args: seq<string>, fs: FileSystem, parse: TimeParser)
    requires ScanFrom(InitialConfig, args) == HelpRequested
    ensures RunSpec(args, fs, parse) == RunResult(0, true, [])
  {
  }

  /**
   An unknown argument after a usable `--file` shows the usage text but still runs
   every requested report and exits with 0.
   */
  lemma ErrorIsNotFatal(args: seq<string>, fs: FileSystem, parse: TimeParser)
    requires ScanFrom(InitialConfig, args).Scanned?
    requires var cfg := ScanFrom(InitialConfig, args).config;
             cfg.isError && cfg.filePath != "" && ReadLog(fs, parse, cfg.filePath) != []
    ensures var cfg := ScanFrom(InitialConfig, args).config;
            RunSpec(args, fs, parse) == RunResult(0, true, Reports(cfg, ReadLog(fs, parse, cfg.filePath)))
  {
  }

  /** The listings keep the command-line order: the k-th listing is for the k-th `--list`. */
  lemma {:induction false} ListReportsInOrder(entries: seq<LogEntry>, levels: seq<string>, k: nat)
    requires k < |levels|
    ensures |ListReports(entries, levels)| == |levels|
    ensures ListReports(entries, levels)[k] == ListReport(levels[k], ListByLevel(entries, levels[k]))
  {
    var init := levels[..|levels| - 1];
    if k < |init| {
      ListReportsInOrder(entries, init, k);
    } else if init != [] {
      ListReportsInOrder(entries, init, 0);
    }
  }

  /**
   The reports run in a fixed order: the count first if requested, then one listing
   per `--list`, then the uptime if requested.
   */
  lemma ReportOrder(cfg: Config, entries: seq<LogEntry>)
    ensures var r := Reports(cfg, entries);
            && |r| == (if cfg.countLevels then 1 else 0) + |cfg.listLevels| + (if cfg.uptime then 1 else 0)
            && (cfg.countLevels ==> r[0] == CountReport(Tally(entries)))
            && (cfg.uptime ==> r[|r| - 1] == UptimeReport(ComputeUptime(entries)))
  {
    if cfg.listLevels == [] {
      assert ListReports(entries, cfg.listLevels) == [];
    } else {
      ListReportsInOrder(entries, cfg.listLevels, 0);
    }
  }

  /** The listings sit between the count and the uptime, in command-line order. */
  lemma ReportListsInOrder(cfg: Config, entries: seq<LogEntry>, k: nat)
    requires k < |cfg.listLevels|
    ensures var c := if cfg.countLevels then 1 else 0;
            c + k < |Reports(cfg, entries)| &&
            Reports(cfg, entries)[c + k] == ListReport(cfg.listLevels[k], ListByLevel(entries, cfg.listLevels[k]))
  {
    var countPart: seq<Report> := if cfg.countLevels then [CountReport(Tally(entries))] else [];
    var lists := ListReports(entries, cfg.listLevels);
    var uptimePart: seq<Report> := if cfg.uptime then [UptimeReport(ComputeUptime(entries))] else [];
    assert Reports(cfg, entries) == countPart + lists + uptimePart;
    ListReportsInOrder(entries, cfg.listLevels, k);
    assert (countPart + lists + uptimePart)[|countPart| + k] == lists[k];
  }
}
