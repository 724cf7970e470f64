/**
  `main`: read the two dates, give up on a malformed date or a start after the
  end, announce and (unless simulating) create a missing destination, then for
  each date of the range create its folder unless it already exists.

  The filesystem is the set of paths that exist. What `main` prints is kept as
  a log of `Report`s, one per message about a path.
 */
module FolderCreator {
  import opened Wrappers
  import opened Calendar
  import opened DateParser
  import opened DateSequence
  import opened FormatString
  import opened FolderNaming

  /** The command-line options, `--dest` already resolved to a path. */
  datatype Config = Config(dest: string, start: string, end: string, format: string, dryRun: bool)

  /** The options' defaults; `.` stands for the working directory. */
  const DefaultConfig: Config := Config(".", "2025-09-08", "2026-01-03", DefaultTemplate, false)

  /** A message about one path. */
  datatype Report =
    | DestinationMissing(path: string)  // "La carpeta destino no existe. Se creará:"
    | WouldCreate(path: string)         // "[DRY-RUN] Crear:"
    | Created(path: string)             // "Creada:"
    | AlreadyExists(path: string)       // "Ya existe:"

  /** Why `main` returned before touching anything. */
  datatype Abort = InvalidDate | StartAfterEnd

  /** The exceptions that escape `main`. */
  datatype Crash = FormatFailed(error: FormatError) | DateOverflow

  datatype Outcome = Finished | Aborted(reason: Abort) | Crashed(crash: Crash)

  /** What a run reports and the filesystem it leaves behind. */
  datatype RunResult = RunResult(outcome: Outcome, log: seq<Report>, paths: set<string>)

  /** The per-date part of a run: its reports, the filesystem after it, and the format error that stopped it, if any. */
  datatype Progress = Progress(log: seq<Report>, paths: set<string>, failure: Option<FormatError>)

  /** `dest / name`. */
  function JoinPath(dest: string, name: string): string {
    if name == "" then dest
    else if |dest| > 0 && dest[|dest| - 1] == '/' then dest + name
    else dest + "/" + name
  }

  /** An empty name leaves the directory as it is; otherwise the path starts with the directory and ends with the name. */
  lemma JoinPathShape(dest: string, name: string)
    ensures var p := JoinPath(dest, name);
      && (name == "" ==> p == dest)
      && (name != "" ==> |p| > |dest| + |name| - 1 && p[..|dest|] == dest && p[|p| - |name|..] == name)
  {
  }

  /** The name `nombre_carpeta` gives each date, or the error it raises. */
  function Names(dates: seq<Date>, template: string): (r: seq<Result<string, FormatError>>)
    requires forall i :: 0 <= i < |dates| ==> Valid(dates[i])
    ensures |r| == |dates|
  {
    seq(|dates|, i requires 0 <= i < |dates| && Valid(dates[i]) => FolderName(dates[i], template))
  }

  predicate AllRendered(names: seq<Result<string, FormatError>>) {
    forall i :: 0 <= i < |names| ==> names[i].Success?
  }

  /** The folder paths of the rendered names, in order. */
  function Targets(dest: string, names: seq<Result<string, FormatError>>): (r: seq<string>)
    requires AllRendered(names)
    ensures |r| == |names| && forall i :: 0 <= i < |names| ==> r[i] == JoinPath(dest, names[i].value)
  {
    seq(|names|, i requires 0 <= i < |names| && names[i].Success? => JoinPath(dest, names[i].value))
  }

  function ToSet(s: seq<string>): set<string> {
    set p | p in s
  }

  /**
    One date's folder: only announced when simulating; otherwise created
    exactly when absent and reported either way. Afterwards the path exists
    unless simulating, and nothing else has changed.
   */
  function Decide(paths: set<string>, path: string, dryRun: bool): (r: (Report, set<string>))
    ensures r.0.path == path
    ensures r.0.WouldCreate? <==> dryRun
    ensures !dryRun ==> !r.0.DestinationMissing? && (r.0.Created? <==> path !in paths)
    ensures r.1 == if dryRun then paths else paths + {path}
  {
    if dryRun then (WouldCreate(path), paths)
    else if path !in paths then (Created(path), paths + {path})
    else assert paths + {path} == paths; (AlreadyExists(path), paths)
  }

  /**
    The loop over the dates' names, stopping at the first that could not be
    rendered. Paths are only ever added, and none when simulating.
   */
  function Visit(paths: set<string>, dest: string, names: seq<Result<string, FormatError>>, dryRun: bool): (v: Progress)
    ensures paths <= v.paths && (dryRun ==> v.paths == paths)
    decreases |names|
  {
    if names == [] then Progress([], paths, None)
    else match names[0]
      case Failure(e) => Progress([], paths, Some(e))
      case Success(name) =>
        var step := Decide(paths, JoinPath(dest, name), dryRun);
        Prefixed([step.0], Visit(step.1, dest, names[1..], dryRun))
  }

  /** One pass of the loop: the first name renders, so its folder is dealt with before the rest. */
  lemma VisitStep(paths: set<string>, dest: string, names: seq<Result<string, FormatError>>, dryRun: bool)
    requires |names| > 0 && names[0].Success?
    ensures var step := Decide(paths, JoinPath(dest, names[0].value), dryRun);
      Visit(paths, dest, names, dryRun) == Prefixed([step.0], Visit(step.1, dest, names[1..], dryRun))
  {
  }

  /**
    The loop's reports follow the names: one report per name up to the first
    that did not render, whose error stops the loop, or one per name when all
    render. The `i`-th report is about the `i`-th name's path, and none of
    them is the destination's announcement.
   */
  lemma {:induction false} VisitReports(paths: set<string>, dest: string, names: seq<Result<string, FormatError>>, dryRun: bool)
    decreases |names|
    ensures var v := Visit(paths, dest, names, dryRun);
      && |v.log| <= |names| && (v.failure.None? <==> |v.log| == |names|)
      && (v.failure.Some? ==> names[|v.log|] == Failure(v.failure.value))
      && forall i :: 0 <= i < |v.log| ==>
        && names[i].Success? && v.log[i].path == JoinPath(dest, names[i].value) && !v.log[i].DestinationMissing?
  {
    if names != [] && names[0].Success? {
      var step := Decide(paths, JoinPath(dest, names[0].value), dryRun);
      var v, v' := Visit(paths, dest, names, dryRun), Visit(step.1, dest, names[1..], dryRun);
      VisitReports(step.1, dest, names[1..], dryRun);
      assert v.log == [step.0] + v'.log;
      forall i | 0 < i < |v.log|
        ensures names[i].Success? && v.log[i].path == JoinPath(dest, names[i].value) && !v.log[i].DestinationMissing?
      {
        assert v.log[i] == v'.log[i - 1] && names[1..][i - 1] == names[i];
      }
    }
  }

  /** The invariant of `CreateFolders`, carried over one name that renders. */
  lemma VisitAdvance(whole: Progress, visited: seq<Report>, before: set<string>, dest: string,
                     rest: seq<Result<string, FormatError>>, dryRun: bool)
    requires |rest| > 0 && rest[0].Success?
    requires whole == Prefixed(visited, Visit(before, dest, rest, dryRun))
    ensures var step := Decide(before, JoinPath(dest, rest[0].value), dryRun);
      whole == Prefixed(visited + [step.0], Visit(step.1, dest, rest[1..], dryRun))
  {
    var step := Decide(before, JoinPath(dest, rest[0].value), dryRun);
    VisitStep(before, dest, rest, dryRun);
    PrefixedTwice(visited, [step.0], Visit(step.1, dest, rest[1..], dryRun));
  }

  function Prefixed(log: seq<Report>, p: Progress): Progress {
    Progress(log + p.log, p.paths, p.failure)
  }

  /**
    Whether the destination is announced, and the filesystem once it has been
    dealt with: a missing destination is announced once, and made unless
    simulating.
   */
  function PrepareDestination(existing: set<string>, dest: string, dryRun: bool): (r: (seq<Report>, set<string>))
    ensures r.0 == [] <==> dest in existing
    ensures |r.0| <= 1 && forall i :: 0 <= i < |r.0| ==> r.0[i] == DestinationMissing(dest)
    ensures r.1 == if dryRun then existing else existing + {dest}
  {
    if dest in existing then ([], existing)
    else ([DestinationMissing(dest)], if dryRun then existing else existing + {dest})
  }

  /**
    What `main` does with the filesystem `existing`. It only ever adds paths,
    none when simulating, and when it gives up it reports and changes nothing.
   */
  function RunSpec(existing: set<string>, cfg: Config): (r: RunResult)
    ensures existing <= r.paths && (cfg.dryRun ==> r.paths == existing)
    ensures r.outcome.Aborted? ==> r.log == [] && r.paths == existing
  {
    var s, e := ParseDate(cfg.start), ParseDate(cfg.end);
    if s.None? || e.None? then RunResult(Aborted(InvalidDate), [], existing)
    else if Before(e.value, s.value) then RunResult(Aborted(StartAfterEnd), [], existing)
    else RunRange(existing, cfg, s.value, e.value)
  }

  /**
    The part of `main` after the dates have been read and checked. It never
    aborts; it only adds paths, the destination among them unless simulating,
    and none when simulating.
   */
  function RunRange(existing: set<string>, cfg: Config, start: Date, end: Date): (r: RunResult)
    requires Valid(start) && Valid(end)
    ensures !r.outcome.Aborted?
    ensures existing <= r.paths && (cfg.dryRun ==> r.paths == existing) && (!cfg.dryRun ==> cfg.dest in r.paths)
  {
    RunNames(existing, cfg.dest, Names(DateRange(start, end), cfg.format), cfg.dryRun, end == MaxDate)
  }

  /**
    `RunRange` once the dates' names are known: the destination, the loop over
    the names, and the end of the run, where `overflow` says whether the range
    reached `date.max`.
   */
  function RunNames(existing: set<string>, dest: string, names: seq<Result<string, FormatError>>, dryRun: bool,
                    overflow: bool): (r: RunResult)
    ensures !r.outcome.Aborted?
    ensures existing <= r.paths && (dryRun ==> r.paths == existing) && (!dryRun ==> dest in r.paths)
  {
    var prepared := PrepareDestination(existing, dest, dryRun);
    var v := Visit(prepared.1, dest, names, dryRun);
    RunResult(Ending(v.failure, overflow), prepared.0 + v.log, v.paths)
  }

  /** How a run past the checks ends: with the template's error, else with the overflow at `date.max`, else normally. */
  function Ending(failure: Option<FormatError>, overflow: bool): Outcome {
    if failure.Some? then Crashed(FormatFailed(failure.value))
    else if overflow then Crashed(DateOverflow)
    else Finished
  }

  // ---------------------------------------------------------------------------
  // The loop over the dates

  /**
    Whether a template renders does not depend on the date, so over a range
    either every name renders or the first one already fails.
   */
  lemma NamesAgree(start: Date, end: Date, template: string)
    requires Valid(start) && Valid(end) && !Before(end, start)
    ensures var names := Names(DateRange(start, end), template);
      && |names| > 0 && names[0] == FolderName(start, template)
      && (FolderName(start, template).Success? ==> AllRendered(names))
  {
    var dates := DateRange(start, end);
    var names := Names(dates, template);
    RangeEnds(start, end);
    forall i | 0 <= i < |names|
      ensures names[i].Success? == FolderName(start, template).Success?
    {
      var d := dates[i];
      assert names[i] == FolderName(d, template);
      FolderNameOutcomeIgnoresDate(start, d, template);
    }
  }

  /** A name that fails stops the loop before any report or change. */
  lemma VisitFails(paths: set<string>, dest: string, names: seq<Result<string, FormatError>>, dryRun: bool)
    requires |names| > 0 && names[0].Failure?
    ensures Visit(paths, dest, names, dryRun) == Progress([], paths, Some(names[0].error))
  {
  }

  /** Simulating reports every folder as to be created and changes nothing. */
  lemma {:induction false} VisitDryRun(paths: set<string>, dest: string, names: seq<Result<string, FormatError>>)
    requires AllRendered(names)
    decreases |names|
    ensures var v := Visit(paths, dest, names, true);
      && v.failure == None && v.paths == paths && |v.log| == |names|
      && forall i :: 0 <= i < |names| ==> v.log[i] == WouldCreate(Targets(dest, names)[i])
  {
    if names != [] {
      var rest := names[1..];
      TargetsCons(dest, names);
      VisitDryRun(paths, dest, rest);
      var v, v' := Visit(paths, dest, names, true), Visit(paths, dest, rest, true);
      assert v.log == [WouldCreate(Targets(dest, names)[0])] + v'.log;
      forall i | 0 < i < |names|
        ensures v.log[i] == WouldCreate(Targets(dest, names)[i])
      {
        assert v.log[i] == v'.log[i - 1] && rest[i - 1] == names[i];
      }
    }
  }

  /**
    Without simulation each folder is created exactly when it is absent, that
    is neither there before nor made for an earlier date, and reported as
    existing otherwise; afterwards every folder exists and nothing else was
    added.
   */
  lemma {:induction false} VisitCreates(paths: set<string>, dest: string, names: seq<Result<string, FormatError>>)
    requires AllRendered(names)
    decreases |names|
    ensures var v, t := Visit(paths, dest, names, false), Targets(dest, names);
      && v.failure == None && v.paths == paths + ToSet(t) && |v.log| == |names|
      && forall i :: 0 <= i < |names| ==>
        v.log[i] == if t[i] in paths || t[i] in t[..i] then AlreadyExists(t[i]) else Created(t[i])
  {
    if names != [] {
      var rest := names[1..];
      TargetsCons(dest, names);
      var t, t' := Targets(dest, names), Targets(dest, rest);
      var paths' := paths + {t[0]};
      VisitCreates(paths', dest, rest);
      var v, v' := Visit(paths, dest, names, false), Visit(paths', dest, rest, false);
      var first := if t[0] in paths then AlreadyExists(t[0]) else Created(t[0]);
      assert Decide(paths, t[0], false) == (first, paths') by {
        if t[0] in paths {
          assert paths' == paths;
        }
      }
      assert v == Prefixed([first], v');
      assert ToSet(t) == {t[0]} + ToSet(t');
      CreatesStep(paths, t, t', first, v'.log);
    }
  }

  /** One step of `VisitCreates`: what the first folder's report adds in front of the rest. */
  lemma CreatesStep(paths: set<string>, t: seq<string>, t': seq<string>, first: Report, log': seq<Report>)
    requires |t| > 0 && t == [t[0]] + t'
    requires first == if t[0] in paths then AlreadyExists(t[0]) else Created(t[0])
    requires |log'| == |t'| && forall i :: 0 <= i < |t'| ==>
      log'[i] == if t'[i] in paths + {t[0]} || t'[i] in t'[..i] then AlreadyExists(t'[i]) else Created(t'[i])
    ensures forall i :: 0 <= i < |t| ==>
      ([first] + log')[i] == if t[i] in paths || t[i] in t[..i] then AlreadyExists(t[i]) else Created(t[i])
  {
    forall i | 0 < i < |t|
      ensures ([first] + log')[i] == if t[i] in paths || t[i] in t[..i] then AlreadyExists(t[i]) else Created(t[i])
    {
      assert ([first] + log')[i] == log'[i - 1] && t[i] == t'[i - 1];
      assert t[..i] == [t[0]] + t'[..i - 1];
    }
  }

  lemma TargetsCons(dest: string, names: seq<Result<string, FormatError>>)
    requires AllRendered(names) && names != []
    ensures AllRendered(names[1..])
    ensures Targets(dest, names) == [JoinPath(dest, names[0].value)] + Targets(dest, names[1..])
  {
    var rest := names[1..];
    assert AllRendered(rest) by {
      forall i | 0 <= i < |rest| ensures rest[i].Success? {
        assert rest[i] == names[i + 1];
      }
    }
  }

  /** A second pass over folders that all exist changes nothing and creates nothing. */
  lemma VisitAgain(paths: set<string>, dest: string, names: seq<Result<string, FormatError>>)
    requires AllRendered(names) && ToSet(Targets(dest, names)) <= paths
    ensures var v := Visit(paths, dest, names, false);
      && v.failure == None && v.paths == paths && |v.log| == |names|
      && forall i :: 0 <= i < |names| ==> v.log[i] == AlreadyExists(Targets(dest, names)[i])
  {
    VisitCreates(paths, dest, names);
    var t := Targets(dest, names);
    forall i | 0 <= i < |names| ensures t[i] in paths {
      assert t[i] in ToSet(t);
    }
  }

  /** The loop run twice: the second pass changes nothing and reports each of the first pass's folders as existing. */
  lemma VisitTwice(paths: set<string>, dest: string, names: seq<Result<string, FormatError>>)
    requires AllRendered(names)
    ensures var v1 := Visit(paths, dest, names, false);
      var v2 := Visit(v1.paths, dest, names, false);
      && v1.failure == None && v2.failure == None && v2.paths == v1.paths
      && |v1.log| == |names| && |v2.log| == |names|
      && forall i :: 0 <= i < |names| ==>
           v2.log[i] == AlreadyExists(Targets(dest, names)[i]) && v1.log[i].path == Targets(dest, names)[i]
  {
    var v1 := Visit(paths, dest, names, false);
    VisitReports(paths, dest, names, false);
    VisitCreates(paths, dest, names);
    VisitAgain(v1.paths, dest, names);
  }

  lemma PrefixedTwice(a: seq<Report>, b: seq<Report>, p: Progress)
    ensures Prefixed(a, Prefixed(b, p)) == Prefixed(a + b, p)
  {
    assert a + (b + p.log) == (a + b) + p.log;
  }

  // ---------------------------------------------------------------------------
  // Whole runs

  /**
    A run gives up exactly when a date does not parse or the start is after
    the end, and then it reports nothing and leaves the filesystem alone.
   */
  lemma RunAborts(existing: set<string>, cfg: Config)
    ensures var r, s, e := RunSpec(existing, cfg), ParseDate(cfg.start), ParseDate(cfg.end);
      && (r.outcome == Aborted(InvalidDate) <==> s.None? || e.None?)
      && (r.outcome == Aborted(StartAfterEnd) <==> s.Some? && e.Some? && Before(e.value, s.value))
      && (r.outcome.Aborted? ==> r.log == [] && r.paths == existing)
  {
    var s, e := ParseDate(cfg.start), ParseDate(cfg.end);
    if s.Some? && e.Some? && !Before(e.value, s.value) {
      RangeNeverAborts(existing, cfg, s.value, e.value);
    }
  }

  lemma RangeNeverAborts(existing: set<string>, cfg: Config, start: Date, end: Date)
    requires Valid(start) && Valid(end)
    ensures !RunRange(existing, cfg, start, end).outcome.Aborted?
  {
  }

  /** A simulated run leaves the filesystem as it was and only announces. */
  lemma RunDryRun(existing: set<string>, cfg: Config)
    requires cfg.dryRun
    ensures var r := RunSpec(existing, cfg);
      && r.paths == existing
      && forall i :: 0 <= i < |r.log| ==> r.log[i].DestinationMissing? || r.log[i].WouldCreate?
  {
    var s, e := ParseDate(cfg.start), ParseDate(cfg.end);
    if s.Some? && e.Some? && !Before(e.value, s.value) {
      RangeDryRun(existing, cfg, s.value, e.value);
    }
  }

  /**
    What a simulated run over `names` reports: the filesystem is left as it
    was, every report only announces, and a missing destination is announced
    first. If the first name fails, so do all, and the run stops with its
    error before any folder; otherwise the `i`-th name's folder is announced
    as one that would be created, and the run ends normally unless `overflow`.
   */
  predicate Simulates(r: RunResult, existing: set<string>, dest: string, names: seq<Result<string, FormatError>>,
                      overflow: bool)
  {
    var pre := if dest in existing then [] else [DestinationMissing(dest)];
    && |names| > 0 && (names[0].Success? ==> AllRendered(names))
    && r.paths == existing
    && (forall i :: 0 <= i < |r.log| ==> r.log[i].DestinationMissing? || r.log[i].WouldCreate?)
    && (names[0].Failure? ==> r == RunResult(Crashed(FormatFailed(names[0].error)), pre, existing))
    && (names[0].Success? ==>
          && r.outcome == (if overflow then Crashed(DateOverflow) else Finished)
          && |r.log| == |pre| + |names|
          && r.log[..|pre|] == pre
          && forall i :: 0 <= i < |names| ==> r.log[|pre| + i] == WouldCreate(Targets(dest, names)[i]))
  }

  /**
    What a real run over `names` reports and leaves: a missing destination is
    announced first and made. If the first name fails, so do all, and the run
    stops with its error before any folder; otherwise the `i`-th name's folder
    is created exactly when absent, that is neither there before nor made for
    an earlier name, and reported as existing otherwise; the filesystem gains
    the destination and the folders and nothing else, and the run ends
    normally unless `overflow`.
   */
  predicate Creates(r: RunResult, existing: set<string>, dest: string, names: seq<Result<string, FormatError>>,
                    overflow: bool)
  {
    var pre := if dest in existing then [] else [DestinationMissing(dest)];
    var paths0 := existing + {dest};
    && |names| > 0 && (names[0].Success? ==> AllRendered(names))
    && (names[0].Failure? ==> r == RunResult(Crashed(FormatFailed(names[0].error)), pre, paths0))
    && (names[0].Success? ==>
          && var t := Targets(dest, names);
          && r.outcome == (if overflow then Crashed(DateOverflow) else Finished)
          && r.paths == paths0 + ToSet(t)
          && |r.log| == |pre| + |names|
          && r.log[..|pre|] == pre
          && forall i :: 0 <= i < |names| ==>
               r.log[|pre| + i] == if t[i] in paths0 || t[i] in t[..i] then AlreadyExists(t[i]) else Created(t[i]))
  }

  /**
    `second` repeats `first` without changing anything: the same filesystem
    and ending, and each report of `first` after the first `k` comes back, in
    order, as the path already existing.
   */
  predicate Repeats(first: RunResult, second: RunResult, k: nat) {
    && second.paths == first.paths
    && second.outcome == first.outcome
    && |second.log| == |first.log| - k
    && forall i :: 0 <= i < |second.log| ==> second.log[i] == AlreadyExists(first.log[k + i].path)
  }

  /** `r` reports, for every one of `names`, its folder as existing, in order, and nothing else. */
  predicate FindsAll(r: RunResult, dest: string, names: seq<Result<string, FormatError>>) {
    && AllRendered(names)
    && |r.log| == |names|
    && forall i :: 0 <= i < |names| ==> r.log[i] == AlreadyExists(Targets(dest, names)[i])
  }

  /**
    `RunDryRun` once the dates have been read: the run simulates over the
    dates' names, the first of which is the start date's.
   */
  lemma RangeDryRun(existing: set<string>, cfg: Config, start: Date, end: Date)
    requires cfg.dryRun && Valid(start) && Valid(end) && !Before(end, start)
    ensures var names := Names(DateRange(start, end), cfg.format);
      && |names| > 0 && names[0] == FolderName(start, cfg.format)
      && Simulates(RunRange(existing, cfg, start, end), existing, cfg.dest, names, end == MaxDate)
  {
    var names := Names(DateRange(start, end), cfg.format);
    NamesAgree(start, end, cfg.format);
    assert RunRange(existing, cfg, start, end) == RunNames(existing, cfg.dest, names, true, end == MaxDate);
    NamesDryRun(existing, cfg.dest, names, end == MaxDate);
  }

  /** `RangeDryRun` over the names. */
  lemma NamesDryRun(existing: set<string>, dest: string, names: seq<Result<string, FormatError>>, overflow: bool)
    requires |names| > 0 && (names[0].Success? ==> AllRendered(names))
    ensures Simulates(RunNames(existing, dest, names, true, overflow), existing, dest, names, overflow)
  {
    var pre := PrepareDestination(existing, dest, true).0;
    var v := Visit(existing, dest, names, true);
    var r := RunNames(existing, dest, names, true, overflow);
    assert r.log == pre + v.log && r.paths == v.paths;
    if names[0].Failure? {
      VisitFails(existing, dest, names, true);
    } else {
      VisitDryRun(existing, dest, names);
      OnlyAnnounces(pre, v.log, r.log);
    }
  }

  /** Reports that only announce, put together, only announce. */
  lemma OnlyAnnounces(pre: seq<Report>, visited: seq<Report>, log: seq<Report>)
    requires log == pre + visited
    requires forall i :: 0 <= i < |pre| ==> pre[i].DestinationMissing?
    requires forall i :: 0 <= i < |visited| ==> visited[i].WouldCreate?
    ensures forall i :: 0 <= i < |log| ==> log[i].DestinationMissing? || log[i].WouldCreate?
  {
    forall i | 0 <= i < |log| ensures log[i].DestinationMissing? || log[i].WouldCreate? {
      if i >= |pre| {
        assert log[i] == visited[i - |pre|];
      }
    }
  }

  /**
    A real run over a parsed range creates the folders of the dates' names,
    the first of which is the start date's; stepping past `date.max` at the
    end of the range overflows.
   */
  lemma RangeCreates(existing: set<string>, cfg: Config, start: Date, end: Date)
    requires !cfg.dryRun && Valid(start) && Valid(end) && !Before(end, start)
    ensures var names := Names(DateRange(start, end), cfg.format);
      && |names| > 0 && names[0] == FolderName(start, cfg.format)
      && Creates(RunRange(existing, cfg, start, end), existing, cfg.dest, names, end == MaxDate)
  {
    var names := Names(DateRange(start, end), cfg.format);
    NamesAgree(start, end, cfg.format);
    assert RunRange(existing, cfg, start, end) == RunNames(existing, cfg.dest, names, false, end == MaxDate);
    NamesCreate(existing, cfg.dest, names, end == MaxDate);
  }

  /** `RangeCreates` over the names. */
  lemma NamesCreate(existing: set<string>, dest: string, names: seq<Result<string, FormatError>>, overflow: bool)
    requires |names| > 0 && (names[0].Success? ==> AllRendered(names))
    ensures Creates(RunNames(existing, dest, names, false, overflow), existing, dest, names, overflow)
  {
    var paths0 := existing + {dest};
    assert PrepareDestination(existing, dest, false).1 == paths0;
    if names[0].Failure? {
      VisitFails(paths0, dest, names, false);
    } else {
      VisitCreates(paths0, dest, names);
    }
  }

  /**
    Running again on what a real run left behind changes nothing, creates
    nothing and finds the destination in place: each folder the first run
    reported, created or not, is reported again as existing, in the same
    order, and the run ends the same way. Only the first run's announcement
    of a missing destination, made unless it gave up, is not repeated.
   */
  lemma RunIdempotent(existing: set<string>, cfg: Config)
    requires !cfg.dryRun
    ensures var first := RunSpec(existing, cfg);
      Repeats(first, RunSpec(first.paths, cfg), if first.outcome.Aborted? || cfg.dest in existing then 0 else 1)
  {
    var s, e := ParseDate(cfg.start), ParseDate(cfg.end);
    if s.Some? && e.Some? && !Before(e.value, s.value) {
      var first := RunSpec(existing, cfg);
      assert first == RunRange(existing, cfg, s.value, e.value);
      assert RunSpec(first.paths, cfg) == RunRange(first.paths, cfg, s.value, e.value);
      RangeIdempotent(existing, cfg, s.value, e.value);
    }
  }

  /** The first report of a run is about the destination exactly when the destination was missing. */
  lemma NamesAnnounce(existing: set<string>, dest: string, names: seq<Result<string, FormatError>>, dryRun: bool,
                      overflow: bool)
    ensures var r := RunNames(existing, dest, names, dryRun, overflow);
      r.log != [] && r.log[0].DestinationMissing? <==> dest !in existing
  {
    var prep := PrepareDestination(existing, dest, dryRun);
    VisitReports(prep.1, dest, names, dryRun);
    var v := Visit(prep.1, dest, names, dryRun);
    assert RunNames(existing, dest, names, dryRun, overflow).log == prep.0 + v.log;
    if dest in existing && v.log != [] {
      assert (prep.0 + v.log)[0] == v.log[0];
    }
  }

  /**
    `RunIdempotent` once the dates have been read; when the start date's name
    renders, the second run reports each date's folder as existing, one
    report per date.
   */
  lemma RangeIdempotent(existing: set<string>, cfg: Config, start: Date, end: Date)
    requires !cfg.dryRun && Valid(start) && Valid(end) && !Before(end, start)
    ensures var names := Names(DateRange(start, end), cfg.format);
      var first := RunRange(existing, cfg, start, end);
      var second := RunRange(first.paths, cfg, start, end);
      && Repeats(first, second, if cfg.dest in existing then 0 else 1)
      && |names| > 0 && names[0] == FolderName(start, cfg.format)
      && (names[0].Success? ==> FindsAll(second, cfg.dest, names))
  {
    var names := Names(DateRange(start, end), cfg.format);
    var first := RunRange(existing, cfg, start, end);
    assert first == RunNames(existing, cfg.dest, names, false, end == MaxDate);
    assert RunRange(first.paths, cfg, start, end) == RunNames(first.paths, cfg.dest, names, false, end == MaxDate);
    NamesAgree(start, end, cfg.format);
    if names[0].Success? {
      NamesAgain(existing, cfg.dest, names, end == MaxDate);
    } else {
      NamesAgainFailed(existing, cfg.dest, names, end == MaxDate);
    }
  }

  /** `RangeIdempotent` over names that all render: the second run reports each folder of the first as existing. */
  lemma NamesAgain(existing: set<string>, dest: string, names: seq<Result<string, FormatError>>, overflow: bool)
    requires AllRendered(names)
    ensures var first := RunNames(existing, dest, names, false, overflow);
      var second := RunNames(first.paths, dest, names, false, overflow);
      var k := if dest in existing then 0 else 1;
      && Repeats(first, second, k)
      && FindsAll(second, dest, names)
      && |first.log| == k + |names|
      && forall i :: 0 <= i < |names| ==> first.log[k + i].path == Targets(dest, names)[i]
  {
    var prep := PrepareDestination(existing, dest, false);
    var v1 := Visit(prep.1, dest, names, false);
    var first := RunNames(existing, dest, names, false, overflow);
    assert first.log == prep.0 + v1.log && first.paths == v1.paths;
    assert PrepareDestination(first.paths, dest, false) == ([], first.paths) by {
      assert first.paths + {dest} == first.paths;
    }
    VisitTwice(prep.1, dest, names);
    forall i | 0 <= i < |names| ensures first.log[|prep.0| + i] == v1.log[i] {
    }
  }

  /** `RangeIdempotent` for names whose first fails: the second run fails the same way, without any report. */
  lemma NamesAgainFailed(existing: set<string>, dest: string, names: seq<Result<string, FormatError>>, overflow: bool)
    requires |names| > 0 && names[0].Failure?
    ensures var first := RunNames(existing, dest, names, false, overflow);
      var second := RunNames(first.paths, dest, names, false, overflow);
      var k := if dest in existing then 0 else 1;
      && Repeats(first, second, k)
      && |first.log| == k
      && second.log == []
  {
    var prep := PrepareDestination(existing, dest, false);
    var first := RunNames(existing, dest, names, false, overflow);
    VisitFails(prep.1, dest, names, false);
    assert PrepareDestination(first.paths, dest, false) == ([], first.paths) by {
      assert first.paths + {dest} == first.paths;
    }
    VisitFails(first.paths, dest, names, false);
  }

  /**
    A real run with every option at its default: it ends normally after one
    report per date of the 118 from 2025-09-08 to 2026-01-03, the first about
    `./2025-09-08_Lunes`, created unless it was there already.
   */
  lemma DefaultRun(existing: set<string>, cfg: Config)
    requires cfg == DefaultConfig
    ensures var r := RunSpec(existing, cfg);
      var k := if "." in existing then 0 else 1;
      var first := "./2025-09-08_Lunes";
      && r.outcome == Finished && |r.log| == k + 118
      && r.log[k] == if first in existing then AlreadyExists(first) else Created(first)
  {
    var start, end := DefaultDates(cfg);
    DefaultRangeLength(start, end);
    DefaultFirstName(cfg, start);
    RunFirstReport(existing, cfg, start, end, "2025-09-08_Lunes");
    DefaultFirstPath(cfg.dest, "2025-09-08_Lunes");
  }

  /** The default dates parse, in order. */
  lemma DefaultDates(cfg: Config) returns (start: Date, end: Date)
    requires cfg == DefaultConfig
    ensures start == Date(2025, 9, 8) && end == Date(2026, 1, 3)
    ensures ParseDate(cfg.start) == Some(start) && ParseDate(cfg.end) == Some(end)
    ensures Valid(start) && Valid(end) && !Before(end, start) && end != MaxDate
    ensures !cfg.dryRun && cfg.dest == "." && cfg.format == DefaultTemplate
  {
    start, end := Date(2025, 9, 8), Date(2026, 1, 3);
    ParseAcceptsPadded();
    ParseAcceptsDefaultEnd();
  }

  lemma DefaultFirstName(cfg: Config, start: Date)
    requires cfg.format == DefaultTemplate && start == Date(2025, 9, 8)
    ensures FolderName(start, cfg.format) == Success("2025-09-08_Lunes")
  {
    DefaultTemplateExample(start);
  }

  lemma DefaultFirstPath(dest: string, name: string)
    requires dest == "." && name == "2025-09-08_Lunes"
    ensures JoinPath(dest, name) == "./2025-09-08_Lunes" != dest
  {
    assert dest + "/" + name == "./2025-09-08_Lunes";
  }

  /**
    A real run whose dates parse in order, over a range that stops short of
    `date.max`, with a template that renders on the start date: it ends
    normally with one report per date after the destination's, the log opens
    with the destination's announcement exactly when it was missing, and the
    first folder report is about the start date's folder, created unless it
    was there already.
   */
  lemma RunFirstReport(existing: set<string>, cfg: Config, start: Date, end: Date, name: string)
    requires !cfg.dryRun && ParseDate(cfg.start) == Some(start) && ParseDate(cfg.end) == Some(end)
    requires Valid(start) && Valid(end) && !Before(end, start) && end != MaxDate
    requires FolderName(start, cfg.format) == Success(name)
    ensures var r, t := RunSpec(existing, cfg), JoinPath(cfg.dest, name);
      var k := if cfg.dest in existing then 0 else 1;
      && r.outcome == Finished && |r.log| == k + |DateRange(start, end)|
      && (r.log[0].DestinationMissing? <==> k == 1)
      && r.log[k] == if t in existing || t == cfg.dest then AlreadyExists(t) else Created(t)
  {
    assert RunSpec(existing, cfg) == RunRange(existing, cfg, start, end);
    RangeFirstReport(existing, cfg, start, end, name);
  }

  /** `RunFirstReport` once the dates have been read. */
  lemma RangeFirstReport(existing: set<string>, cfg: Config, start: Date, end: Date, name: string)
    requires !cfg.dryRun && Valid(start) && Valid(end) && !Before(end, start) && end != MaxDate
    requires FolderName(start, cfg.format) == Success(name)
    ensures var r, t := RunRange(existing, cfg, start, end), JoinPath(cfg.dest, name);
      var k := if cfg.dest in existing then 0 else 1;
      && r.outcome == Finished && |r.log| == k + |DateRange(start, end)|
      && (r.log[0].DestinationMissing? <==> k == 1)
      && r.log[k] == if t in existing || t == cfg.dest then AlreadyExists(t) else Created(t)
  {
    RangeCreates(existing, cfg, start, end);
    var names := Names(DateRange(start, end), cfg.format);
    var t := Targets(cfg.dest, names);
    assert t[..0] == [];
    assert RunRange(existing, cfg, start, end) == RunNames(existing, cfg.dest, names, false, false);
    NamesAnnounce(existing, cfg.dest, names, false, false);
  }

  // ---------------------------------------------------------------------------
  // The filesystem and the run as a program

  /** The existing paths, changed in place by `mkdir`. */
  class FileSystem {
    var paths: set<string>

    constructor (initial: set<string>)
      ensures paths == initial
    {
      paths := initial;
    }

    /** `Path.exists()`. */
    method Exists(p: string) returns (b: bool)
      ensures b <==> p in paths
    {
      b := p in paths;
    }

    /** `Path.mkdir(parents=True, exist_ok=True)` on the path itself. */
    method MakeDir(p: string)
      modifies this
      ensures paths == old(paths) + {p}
    {
      paths := paths + {p};
    }
  }

  /** `main` on the filesystem `fs`: what it reports, how it ends, and the filesystem it leaves, as `RunSpec` says. */
  method Run(fs: FileSystem, cfg: Config) returns (outcome: Outcome, log: seq<Report>)
    modifies fs
    ensures RunResult(outcome, log, fs.paths) == RunSpec(old(fs.paths), cfg)
  {
    var s := ParseDate(cfg.start);
    var e := ParseDate(cfg.end);
    if s.None? || e.None? {
      return Aborted(InvalidDate), [];
    }
    var start, end := s.value, e.value;
    if Before(end, start) {
      return Aborted(StartAfterEnd), [];
    }
    outcome, log := RunDates(fs, cfg, start, end);
  }

  /** The part of `main` after the dates have been read and checked, as `RunRange` says. */
  method RunDates(fs: FileSystem, cfg: Config, start: Date, end: Date) returns (outcome: Outcome, log: seq<Report>)
    requires Valid(start) && Valid(end)
    modifies fs
    ensures RunResult(outcome, log, fs.paths) == RunRange(old(fs.paths), cfg, start, end)
  {
    ghost var existing := fs.paths;
    var pre: seq<Report> := [];
    var present := fs.Exists(cfg.dest);
    if !present {
      pre := [DestinationMissing(cfg.dest)];
      if !cfg.dryRun {
        fs.MakeDir(cfg.dest);
      }
    }
    assert (pre, fs.paths) == PrepareDestination(existing, cfg.dest, cfg.dryRun);
    var dates, overflow := GenerateDates(start, end);
    var visited, failure := CreateFolders(fs, cfg.dest, Renderer(cfg.format), cfg.dryRun, dates);
    log := pre + visited;
    outcome := Ending(failure, overflow);
    RunNamesRendered(existing, cfg.dest, dates, cfg.format, cfg.dryRun, overflow);
  }

  /** `nombre_carpeta(f, fmt)` as a function of the date alone. */
  function Renderer(template: string): Date --> Result<string, FormatError> {
    d requires Valid(d) => FolderName(d, template)
  }

  /** Rendering the dates one by one gives their names. */
  lemma RunNamesRendered(existing: set<string>, dest: string, dates: seq<Date>, template: string, dryRun: bool,
                         overflow: bool)
    requires forall i :: 0 <= i < |dates| ==> Valid(dates[i])
    ensures RunNames(existing, dest, RenderAll(dates, Renderer(template)), dryRun, overflow)
         == RunNames(existing, dest, Names(dates, template), dryRun, overflow)
  {
    assert RenderAll(dates, Renderer(template)) == Names(dates, template);
  }

  /**
    The `for` loop of `main`, with `render` standing for `nombre_carpeta(f, args.format)`: the
    reports and the filesystem `Visit` gives over the rendered names, and the error that stopped it, if any.
   */
  method CreateFolders(fs: FileSystem, dest: string, render: Date --> Result<string, FormatError>, dryRun: bool,
                       dates: seq<Date>)
    returns (visited: seq<Report>, failure: Option<FormatError>)
    requires forall i :: 0 <= i < |dates| ==> render.requires(dates[i])
    modifies fs
    ensures Progress(visited, fs.paths, failure) == Visit(old(fs.paths), dest, RenderAll(dates, render), dryRun)
  {
    ghost var whole := Visit(fs.paths, dest, RenderAll(dates, render), dryRun);
    visited := [];
    var i := 0;
    assert dates[i..] == dates;
    while i < |dates|
      invariant 0 <= i <= |dates|
      invariant whole == Prefixed(visited, Visit(fs.paths, dest, RenderAll(dates[i..], render), dryRun))
    {
      var name := render(dates[i]);
      ghost var rest := RenderAll(dates[i..], render);
      RenderAllCons(dates, render, i);
      if name.Failure? {
        VisitFails(fs.paths, dest, rest, dryRun);
        assert visited + [] == visited;
        return visited, Some(name.error);
      }
      var report := CreateNamed(fs, dest, name.value, dryRun, whole, visited, rest);
      visited := visited + [report];
      i := i + 1;
    }
    failure := None;
  }

  /** The rendered names from the `i`-th date on: the `i`-th date's, then those from the next date on. */
  lemma RenderAllCons(dates: seq<Date>, render: Date --> Result<string, FormatError>, i: int)
    requires forall i :: 0 <= i < |dates| ==> render.requires(dates[i])
    requires 0 <= i < |dates|
    ensures RenderAll(dates[i..], render)[0] == render(dates[i])
    ensures RenderAll(dates[i..], render)[1..] == RenderAll(dates[i + 1..], render)
  {
    assert dates[i..][1..] == dates[i + 1..];
  }

  /** What `render` gives each date, in order. */
  function RenderAll(dates: seq<Date>, render: Date --> Result<string, FormatError>): (r: seq<Result<string, FormatError>>)
    requires forall i :: 0 <= i < |dates| ==> render.requires(dates[i])
    ensures |r| == |dates|
  {
    seq(|dates|, i requires 0 <= i < |dates| && render.requires(dates[i]) => render(dates[i]))
  }

  /** The loop body for a name that rendered: its folder is dealt with, and the invariant moves past it. */
  method CreateNamed(fs: FileSystem, dest: string, name: string, dryRun: bool,
                     ghost whole: Progress, ghost visited: seq<Report>, ghost rest: seq<Result<string, FormatError>>)
    returns (report: Report)
    requires |rest| > 0 && rest[0] == Success(name)
    requires whole == Prefixed(visited, Visit(fs.paths, dest, rest, dryRun))
    modifies fs
    ensures whole == Prefixed(visited + [report], Visit(fs.paths, dest, rest[1..], dryRun))
  {
    ghost var before := fs.paths;
    report := CreateFolder(fs, JoinPath(dest, name), dryRun);
    VisitAdvance(whole, visited, before, dest, rest, dryRun);
  }

  /** The body of the loop for one folder path, as `Decide` says. */
  method CreateFolder(fs: FileSystem, path: string, dryRun: bool) returns (report: Report)
    modifies fs
    ensures (report, fs.paths) == Decide(old(fs.paths), path, dryRun)
  {
    if dryRun {
      report := WouldCreate(path);
    } else {
      var found := fs.Exists(path);
      if !found {
        fs.MakeDir(path);
        report := Created(path);
      } else {
        report := AlreadyExists(path);
      }
    }
  }
}
