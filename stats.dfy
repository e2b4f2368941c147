/** The SNP count and the statistics call of `GPRS.prs_statistics`
    (gprs/gprs.py:386-423). */
module StatisticsStage {
  import opened Outcomes
  import opened Naming
  import opened Tables
  import opened Files

  datatype StatArgs = StatArgs(
    scoreFile: string, phenoFile: string, outputName: string, dataSet: string,
    script: string, rCommand: string, kb: string, p1: string, r2: string)

  function Cond(s: StatArgs): string
  {
    Conditions(s.kb, s.p1, s.r2)
  }

  /** The SNP list counted for chromosome `i` (lines 392-394). */
  function CountFile(d: Dirs, s: StatArgs, i: nat): string
  {
    StatSnplist(d.qcClump, s.dataSet, Cond(s), i)
  }

  /** The log so far, the row counts collected in `lines`, and whether an exception ended the loop. */
  datatype Count = Count(events: seq<Event>, lines: seq<nat>, status: Status)

  /** Lines 390-403 for chromosomes 1 .. n: a present list is read and its row
      count collected; an absent one is skipped with a diagnostic; a list that
      does not read as a table raises. */
  function CountSnps(fs: FileSystem, d: Dirs, s: StatArgs, n: nat): Count
    decreases n
  {
    if n == 0 then Count([], [], Done)
    else
      var prev := CountSnps(fs, d, s, n - 1);
      var file := CountFile(d, s, n);
      if prev.status.Failed? then prev
      else if file !in fs then Count(prev.events + [Skip(file)], prev.lines, Done)
      else match ReadTable(fs, file)
        case Err(e) => Count(prev.events, prev.lines, Failed(e))
        case Ok(t) => Count(prev.events, prev.lines + [|t.rows|], Done)
  }

  /** An exception ends the loop: the chromosomes after it add nothing. */
  lemma {:induction false} CountSnpsStopped(fs: FileSystem, d: Dirs, s: StatArgs, m: nat, n: nat)
    requires m <= n && CountSnps(fs, d, s, m).status.Failed?
    ensures CountSnps(fs, d, s, n) == CountSnps(fs, d, s, m)
    decreases n
  {
    if n > m {
      CountSnpsStopped(fs, d, s, m, n - 1);
    }
  }

  /** `sum(lines)`. */
  function Sum(xs: seq<nat>): nat
    decreases |xs|
  {
    if xs == [] then 0 else Sum(xs[..|xs| - 1]) + xs[|xs| - 1]
  }

  /** The `Rscript` call of lines 408-410, given the SNP total. */
  function StatsCommand(d: Dirs, s: StatArgs, total: nat): Command
  {
    Stats(s.rCommand, s.script, s.scoreFile, s.phenoFile, s.dataSet, Cond(s), total, Join(d.stat, s.outputName))
  }

  /** The whole call: count, then run the statistics script when the score
      file exists (line 405) or log that it is missing (line 423). */
  function StatisticsEffect(fs: FileSystem, d: Dirs, s: StatArgs): Effect
  {
    var c := CountSnps(fs, d, s, Chromosomes);
    if c.status.Failed? then Effect(fs, c.events, c.status)
    else
      var last := if s.scoreFile in fs then Run(StatsCommand(d, s, Sum(c.lines))) else Skip(s.scoreFile);
      Effect(fs, c.events + [last], Done)
  }

  // ---- a reference definition ----

  /** The SNPs of chromosomes 1 .. n: the rows of each list, a missing list counting zero. */
  function SnpTotal(fs: FileSystem, d: Dirs, s: StatArgs, n: nat): nat
    decreases n
  {
    if n == 0 then 0
    else
      var r := ReadTable(fs, CountFile(d, s, n));
      SnpTotal(fs, d, s, n - 1) + (if r.Ok? then |r.value.rows| else 0)
  }

  /** Every present list of chromosomes 1 .. n reads as a table. */
  ghost predicate AllCountable(fs: FileSystem, d: Dirs, s: StatArgs, n: nat)
  {
    forall i :: 1 <= i <= n && CountFile(d, s, i) in fs ==> ReadTable(fs, CountFile(d, s, i)).Ok?
  }

  /** The skip diagnostics: one per missing list, in chromosome order. */
  function MissingLists(fs: FileSystem, d: Dirs, s: StatArgs, n: nat): seq<Event>
    decreases n
  {
    if n == 0 then []
    else MissingLists(fs, d, s, n - 1) + (if CountFile(d, s, n) in fs then [] else [Skip(CountFile(d, s, n))])
  }

  lemma SumAppend(xs: seq<nat>, x: nat)
    ensures Sum(xs + [x]) == Sum(xs) + x
  {
    assert (xs + [x])[..|xs|] == xs;
  }

  /** The loop ends normally exactly when every present list reads; its sum is
      then the SNP total and its log the missing lists. */
  lemma {:induction false} CountSnpsResult(fs: FileSystem, d: Dirs, s: StatArgs, n: nat)
    ensures var c := CountSnps(fs, d, s, n);
      (c.status == Done <==> AllCountable(fs, d, s, n))
      && (c.status == Done ==> Sum(c.lines) == SnpTotal(fs, d, s, n) && c.events == MissingLists(fs, d, s, n))
    decreases n
  {
    if n > 0 {
      CountSnpsResult(fs, d, s, n - 1);
      var prev := CountSnps(fs, d, s, n - 1);
      var file := CountFile(d, s, n);
      if prev.status == Done && file in fs && ReadTable(fs, file).Ok? {
        SumAppend(prev.lines, |ReadTable(fs, file).value.rows|);
      }
      if !AllCountable(fs, d, s, n - 1) {
        var i :| 1 <= i <= n - 1 && CountFile(d, s, i) in fs && !ReadTable(fs, CountFile(d, s, i)).Ok?;
      }
    }
  }

  /** What `prs_statistics` does before its reformatting step: it changes no
      file; it fails exactly when a present SNP list does not read; otherwise
      it runs the statistics script with the SNP total exactly when the score
      file exists, and issues no command at all when it does not. */
  lemma StatisticsBehaviour(fs: FileSystem, d: Dirs, s: StatArgs)
    ensures var e := StatisticsEffect(fs, d, s);
      e.fs == fs
      && (e.status == Done <==> AllCountable(fs, d, s, Chromosomes))
      && (e.status == Done ==>
            e.events == MissingLists(fs, d, s, Chromosomes)
                        + [if s.scoreFile in fs then Run(StatsCommand(d, s, SnpTotal(fs, d, s, Chromosomes)))
                           else Skip(s.scoreFile)])
      && (s.scoreFile !in fs ==> Runs(e.events) == [])
  {
    CountSnpsResult(fs, d, s, Chromosomes);
    var e := StatisticsEffect(fs, d, s);
    if s.scoreFile !in fs {
      CountSnpsHasNoRuns(fs, d, s, Chromosomes);
      var c := CountSnps(fs, d, s, Chromosomes);
      if c.status == Done {
        RunsSkipsAppend(c.events, [Skip(s.scoreFile)]);
        assert Runs([Skip(s.scoreFile)]) == Runs([]);
      }
    }
  }

  /** The counting loop issues no command, whatever way it ends. */
  lemma {:induction false} CountSnpsHasNoRuns(fs: FileSystem, d: Dirs, s: StatArgs, n: nat)
    ensures Runs(CountSnps(fs, d, s, n).events) == []
    decreases n
  {
    if n > 0 {
      CountSnpsHasNoRuns(fs, d, s, n - 1);
      CountSnpsEventsStep(fs, d, s, n);
      var prev := CountSnps(fs, d, s, n - 1).events;
      if CountSnps(fs, d, s, n).events != prev {
        RunsSkipsAppend(prev, [Skip(CountFile(d, s, n))]);
        assert Runs([Skip(CountFile(d, s, n))]) == Runs([]);
      }
    }
  }

  /** One more chromosome adds at most the skip of its file to the log. */
  lemma CountSnpsEventsStep(fs: FileSystem, d: Dirs, s: StatArgs, n: nat)
    requires n > 0
    ensures var prev := CountSnps(fs, d, s, n - 1).events;
      CountSnps(fs, d, s, n).events == prev
      || CountSnps(fs, d, s, n).events == prev + [Skip(CountFile(d, s, n))]
  {
  }
}
