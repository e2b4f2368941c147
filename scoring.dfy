/** `GPRS.build_prs` (gprs/gprs.py:300-344): one `plink2 --score` call per
    chromosome whose QC-and-clump SNP list exists, on a VCF of the input folder
    whose name carries the chromosome token. */
module ScoringStage {
  import opened Outcomes
  import opened Strings
  import opened Naming
  import opened Files

  /** The parameters of `build_prs`; the Python defaults are `symbol = "."`,
      `columns = "1 2 3"`, `modifier = "no-mean-imputation"`. */
  datatype ScoreArgs = ScoreArgs(
    vcfInput: string, outputName: string, folder: string, memory: string,
    kb: string, p1: string, r2: string, symbol: string, columns: string, modifier: string)

  function Cond(a: ScoreArgs): string
  {
    Conditions(a.kb, a.p1, a.r2)
  }

  /** The folder made before the loop (lines 306-311). */
  function ScoreFolder(d: Dirs, a: ScoreArgs): string
  {
    TaggedFolder(d.prs, a.outputName, Cond(a))
  }

  /** The SNP list scored for chromosome `k` (lines 322-324). */
  function QcFile(d: Dirs, a: ScoreArgs, k: nat): string
  {
    PrsQcFile(d.qcClump, a.folder, Cond(a), k)
  }

  /** The file test of line 320. */
  predicate VcfMatches(name: string, a: ScoreArgs, k: nat)
  {
    EndsWith(name, ".vcf.gz") && Chr(k) != "chrY" && Chr(k) != "chrX" && Chr(k) != "wgs"
    && Contains(name, Chr(k) + a.symbol)
  }

  /** The `plink2` call for VCF `name` and chromosome `k` (lines 326-332). */
  function ScoreCommand(d: Dirs, a: ScoreArgs, name: string, k: nat): Command
  {
    Score(a.vcfInput + "/" + name, QcFile(d, a, k), a.columns, a.modifier, a.memory,
          PrsOut(d.prs, a.outputName, Cond(a), k))
  }

  /** The log so far and the `visited` set of line 313. */
  datatype Scan = Scan(events: seq<Event>, visited: set<string>)

  /** The inner loop of lines 318-337 over the listing `names`, for chromosome `k`:
      each matching VCF either scores the SNP list, when it exists and is not yet
      visited, or logs a skip naming it; either way the list becomes visited. */
  function ScanFiles(fs: FileSystem, d: Dirs, a: ScoreArgs, k: nat, names: seq<string>, visited: set<string>): Scan
    decreases |names|
  {
    if names == [] then Scan([], visited)
    else
      var prev := ScanFiles(fs, d, a, k, names[..|names| - 1], visited);
      var name := names[|names| - 1];
      if VcfMatches(name, a, k) then
        var qc := QcFile(d, a, k);
        var event := if qc in fs && qc !in prev.visited then Run(ScoreCommand(d, a, name, k)) else Skip(qc);
        Scan(prev.events + [event], prev.visited + {qc})
      else prev
  }

  /** The state of the outer loop: log, `visited`, and whether an exception ended it. */
  datatype Pass = Pass(events: seq<Event>, visited: set<string>, status: Status)

  /** Chromosomes 1 .. n (line 315). The input folder is listed anew for each
      chromosome (line 318); listing a missing folder raises. */
  function ScorePass(fs: FileSystem, d: Dirs, a: ScoreArgs, n: nat): Pass
    decreases n
  {
    if n == 0 then Pass([], {}, Done)
    else
      var prev := ScorePass(fs, d, a, n - 1);
      if prev.status.Failed? then prev
      else match ListDir(fs, a.vcfInput)
        case Err(e) => Pass(prev.events, prev.visited, Failed(e))
        case Ok(names) =>
          var s := ScanFiles(fs, d, a, n, names, prev.visited);
          Pass(prev.events + s.events, s.visited, Done)
  }

  /** An exception ends the loop: the chromosomes after it add nothing. */
  lemma {:induction false} ScorePassStopped(fs: FileSystem, d: Dirs, a: ScoreArgs, m: nat, n: nat)
    requires m <= n && ScorePass(fs, d, a, m).status.Failed?
    ensures ScorePass(fs, d, a, n) == ScorePass(fs, d, a, m)
    decreases n
  {
    if n > m {
      ScorePassStopped(fs, d, a, m, n - 1);
    }
  }

  /** The whole call: make the score folder if absent, then the loop. */
  function BuildPrsEffect(fs: FileSystem, d: Dirs, a: ScoreArgs): Effect
  {
    var fs1 := MakeDir(fs, ScoreFolder(d, a));
    var r := ScorePass(fs1, d, a, Chromosomes);
    Effect(fs1, r.events, r.status)
  }

  // ---- a reference definition without the visited set ----

  /** The VCF files of the listing that chromosome `k` matches, in listing order. */
  function Matching(names: seq<string>, a: ScoreArgs, k: nat): seq<string>
    decreases |names|
  {
    if names == [] then []
    else Matching(names[..|names| - 1], a, k) + (if VcfMatches(names[|names| - 1], a, k) then [names[|names| - 1]] else [])
  }

  /** `m` copies of `e`. */
  function Repeat(e: Event, m: nat): seq<Event>
  {
    seq(m, _ => e)
  }

  /** What chromosome `k` logs: one entry per matching VCF; the first scores the
      SNP list when it exists, every other one is a skip naming the list. */
  function ChromosomeEvents(fs: FileSystem, d: Dirs, a: ScoreArgs, names: seq<string>, k: nat): seq<Event>
  {
    var m := Matching(names, a, k);
    var qc := QcFile(d, a, k);
    if |m| > 0 && qc in fs then [Run(ScoreCommand(d, a, m[0], k))] + Repeat(Skip(qc), |m| - 1)
    else Repeat(Skip(qc), |m|)
  }

  /** The log of chromosomes 1 .. n, chromosome by chromosome. */
  function ScoreEvents(fs: FileSystem, d: Dirs, a: ScoreArgs, names: seq<string>, n: nat): seq<Event>
    decreases n
  {
    if n == 0 then [] else ScoreEvents(fs, d, a, names, n - 1) + ChromosomeEvents(fs, d, a, names, n)
  }

  /** The SNP lists chromosomes 1 .. n mark visited. */
  function Visited(d: Dirs, a: ScoreArgs, names: seq<string>, n: nat): set<string>
    decreases n
  {
    if n == 0 then {}
    else Visited(d, a, names, n - 1) + (if |Matching(names, a, n)| > 0 then {QcFile(d, a, n)} else {})
  }

  /** The score command of chromosome `k`: on its first matching VCF, when its SNP list exists. */
  function ChromosomeCommands(fs: FileSystem, d: Dirs, a: ScoreArgs, names: seq<string>, k: nat): seq<Command>
  {
    var m := Matching(names, a, k);
    if |m| > 0 && QcFile(d, a, k) in fs then [ScoreCommand(d, a, m[0], k)] else []
  }

  /** The score commands of chromosomes 1 .. n. */
  function ScoreCommands(fs: FileSystem, d: Dirs, a: ScoreArgs, names: seq<string>, n: nat): seq<Command>
    decreases n
  {
    if n == 0 then [] else ScoreCommands(fs, d, a, names, n - 1) + ChromosomeCommands(fs, d, a, names, n)
  }

  // ---- lemmas ----

  /** The chromosome exclusions of line 320 never reject a chromosome of the loop. */
  lemma VcfMatchesAutosome(name: string, a: ScoreArgs, k: nat)
    ensures VcfMatches(name, a, k) <==> EndsWith(name, ".vcf.gz") && Contains(name, Chr(k) + a.symbol)
  {
    ChrIsAutosome(k);
  }

  /** Distinct chromosomes score distinct SNP lists. */
  lemma QcFileDistinct(d: Dirs, a: ScoreArgs, m: nat, n: nat)
    requires m != n
    ensures QcFile(d, a, m) != QcFile(d, a, n)
  {
    var pre := d.qcClump + "/" + a.folder + "_" + Cond(a) + "/";
    var post := "_" + a.folder + "_" + Cond(a) + ".qc_clump_snpslist.csv";
    assert QcFile(d, a, m) == pre + Chr(m) + post;
    assert QcFile(d, a, n) == pre + Chr(n) + post;
    if QcFile(d, a, m) == QcFile(d, a, n) {
      ChrSlotInjective(pre, m, n, post);
    }
  }

  /** `Matching` grows with the listing and keeps its first element. */
  lemma MatchingStep(names: seq<string>, a: ScoreArgs, k: nat)
    requires names != []
    ensures Matching(names, a, k) == Matching(names[..|names| - 1], a, k)
      + (if VcfMatches(names[|names| - 1], a, k) then [names[|names| - 1]] else [])
  {
  }

  /** A matching VCF is in the listing, and every VCF of the listing that
      matches is among the matches. */
  lemma {:induction false} MatchingMembers(names: seq<string>, a: ScoreArgs, k: nat)
    ensures forall x :: x in Matching(names, a, k) <==> x in names && VcfMatches(x, a, k)
    decreases |names|
  {
    if names != [] {
      MatchingMembers(names[..|names| - 1], a, k);
      assert names == names[..|names| - 1] + [names[|names| - 1]];
    }
  }

  /** The inner loop for a chromosome whose SNP list is not yet visited logs
      exactly `ChromosomeEvents` and marks the list visited when some VCF matched. */
  lemma {:induction false} ScanFilesFresh(fs: FileSystem, d: Dirs, a: ScoreArgs, k: nat,
                                          names: seq<string>, visited: set<string>)
    requires QcFile(d, a, k) !in visited
    ensures ScanFiles(fs, d, a, k, names, visited).events == ChromosomeEvents(fs, d, a, names, k)
    ensures ScanFiles(fs, d, a, k, names, visited).visited
         == visited + (if |Matching(names, a, k)| > 0 then {QcFile(d, a, k)} else {})
    decreases |names|
  {
    if names != [] {
      var init := names[..|names| - 1];
      var name := names[|names| - 1];
      var qc := QcFile(d, a, k);
      ScanFilesFresh(fs, d, a, k, init, visited);
      var prev := ScanFiles(fs, d, a, k, init, visited);
      var m0 := Matching(init, a, k);
      var m := Matching(names, a, k);
      MatchingStep(names, a, k);
      if VcfMatches(name, a, k) {
        assert m == m0 + [name];
        if |m0| == 0 {
          assert m[0] == name && qc !in prev.visited;
        } else {
          assert m[0] == m0[0] && qc in prev.visited;
          assert Repeat(Skip(qc), |m| - 1) == Repeat(Skip(qc), |m0| - 1) + [Skip(qc)];
          assert Repeat(Skip(qc), |m|) == Repeat(Skip(qc), |m0|) + [Skip(qc)];
        }
      }
    }
  }

  /** No SNP list of chromosomes 1 .. n - 1 is the one of chromosome n: the
      `visited` set never suppresses a call across chromosomes. */
  lemma {:induction false} VisitedFresh(d: Dirs, a: ScoreArgs, names: seq<string>, m: nat, n: nat)
    requires m < n
    ensures QcFile(d, a, n) !in Visited(d, a, names, m)
    decreases m
  {
    if m > 0 {
      VisitedFresh(d, a, names, m - 1, n);
      QcFileDistinct(d, a, m, n);
    }
  }

  /** The outer loop is the reference definition: once the input folder can be
      listed, the log is `ScoreEvents` and the visited set `Visited`; if it
      cannot, the first chromosome raises with an empty log. */
  lemma {:induction false} ScorePassResult(fs: FileSystem, d: Dirs, a: ScoreArgs, n: nat)
    ensures var r := ScorePass(fs, d, a, n);
      (n > 0 ==> (r.status == Done <==> ListDir(fs, a.vcfInput).Ok?))
      && (r.status.Failed? ==> r.events == [])
      && (ListDir(fs, a.vcfInput).Ok? ==>
            r.events == ScoreEvents(fs, d, a, ListDir(fs, a.vcfInput).value, n)
            && r.visited == Visited(d, a, ListDir(fs, a.vcfInput).value, n))
    decreases n
  {
    if n > 0 {
      ScorePassResult(fs, d, a, n - 1);
      if ListDir(fs, a.vcfInput).Ok? {
        var names := ListDir(fs, a.vcfInput).value;
        var prev := ScorePass(fs, d, a, n - 1);
        VisitedFresh(d, a, names, n - 1, n);
        ScanFilesFresh(fs, d, a, n, names, prev.visited);
      }
    }
  }

  /** A log of skips holds no command. */
  lemma {:induction false} RunsOfRepeat(e: Event, m: nat)
    requires e.Skip?
    ensures Runs(Repeat(e, m)) == []
    decreases m
  {
    if m > 0 {
      assert Repeat(e, m)[..m - 1] == Repeat(e, m - 1);
      RunsOfRepeat(e, m - 1);
    }
  }

  /** The commands chromosome `k` logs: the one call on its first matching VCF,
      when its SNP list exists, and none otherwise. */
  lemma ChromosomeRuns(fs: FileSystem, d: Dirs, a: ScoreArgs, names: seq<string>, k: nat)
    ensures Runs(ChromosomeEvents(fs, d, a, names, k)) == ChromosomeCommands(fs, d, a, names, k)
  {
    var m := Matching(names, a, k);
    var qc := QcFile(d, a, k);
    if |m| > 0 && qc in fs {
      var run := Run(ScoreCommand(d, a, m[0], k));
      RunsSkipsAppend([run], Repeat(Skip(qc), |m| - 1));
      RunsOfRepeat(Skip(qc), |m| - 1);
      assert Runs([run]) == Runs([]) + [run.command];
    } else {
      RunsOfRepeat(Skip(qc), |m|);
    }
  }

  lemma ScoreEventsStep(fs: FileSystem, d: Dirs, a: ScoreArgs, names: seq<string>, n: nat)
    requires n > 0
    ensures Runs(ScoreEvents(fs, d, a, names, n))
         == Runs(ScoreEvents(fs, d, a, names, n - 1)) + Runs(ChromosomeEvents(fs, d, a, names, n))
  {
    RunsSkipsAppend(ScoreEvents(fs, d, a, names, n - 1), ChromosomeEvents(fs, d, a, names, n));
  }

  /** The commands of the log are `ScoreCommands` (the statement of `ScoreEventsRuns`). */
  ghost predicate RunsAreCommands(fs: FileSystem, d: Dirs, a: ScoreArgs, names: seq<string>, n: nat)
  {
    Runs(ScoreEvents(fs, d, a, names, n)) == ScoreCommands(fs, d, a, names, n)
  }

  lemma ScoreEventsRunsStep(fs: FileSystem, d: Dirs, a: ScoreArgs, names: seq<string>, n: nat)
    requires n > 0 && RunsAreCommands(fs, d, a, names, n - 1)
    ensures RunsAreCommands(fs, d, a, names, n)
  {
    ScoreEventsStep(fs, d, a, names, n);
    ChromosomeRuns(fs, d, a, names, n);
  }

  lemma {:induction false} ScoreEventsRunsUpTo(fs: FileSystem, d: Dirs, a: ScoreArgs, names: seq<string>, n: nat)
    ensures RunsAreCommands(fs, d, a, names, n)
    decreases n
  {
    if n > 0 {
      ScoreEventsRunsUpTo(fs, d, a, names, n - 1);
      ScoreEventsRunsStep(fs, d, a, names, n);
    } else {
      assert ScoreEvents(fs, d, a, names, n) == [];
    }
  }

  /** The commands of the log are `ScoreCommands`. */
  lemma ScoreEventsRuns(fs: FileSystem, d: Dirs, a: ScoreArgs, names: seq<string>, n: nat)
    ensures Runs(ScoreEvents(fs, d, a, names, n)) == ScoreCommands(fs, d, a, names, n)
  {
    ScoreEventsRunsUpTo(fs, d, a, names, n);
  }

  /** Which chromosomes are scored, and how: chromosome k among 1 .. n has a
      command exactly when its SNP list exists and some VCF of the listing
      matches it, and that command reads the first such VCF. */
  lemma {:induction false} ScoreCommandsMembers(fs: FileSystem, d: Dirs, a: ScoreArgs, names: seq<string>, n: nat)
    ensures forall c :: c in ScoreCommands(fs, d, a, names, n) <==>
      exists k :: 1 <= k <= n && |Matching(names, a, k)| > 0 && QcFile(d, a, k) in fs
                  && c == ScoreCommand(d, a, Matching(names, a, k)[0], k)
    decreases n
  {
    if n > 0 {
      ScoreCommandsMembers(fs, d, a, names, n - 1);
    }
  }

  /** No two commands of `cs` score the same SNP list. */
  predicate DistinctScoreFiles(cs: seq<Command>)
  {
    forall i, j :: 0 <= i < j < |cs| ==> cs[i].Score? && cs[j].Score? && cs[i].scoreFile != cs[j].scoreFile
  }

  /** At most one command names any SNP list, so no chromosome is scored twice. */
  lemma {:induction false} ScoreCommandsDistinct(fs: FileSystem, d: Dirs, a: ScoreArgs, names: seq<string>, n: nat)
    ensures DistinctScoreFiles(ScoreCommands(fs, d, a, names, n))
    decreases n
  {
    if n > 0 {
      ScoreCommandsDistinct(fs, d, a, names, n - 1);
      var prev := ScoreCommands(fs, d, a, names, n - 1);
      var m := Matching(names, a, n);
      var cs := ScoreCommands(fs, d, a, names, n);
      if |m| > 0 && QcFile(d, a, n) in fs {
        assert cs == prev + [ScoreCommand(d, a, m[0], n)];
        ScoreCommandsMembers(fs, d, a, names, n - 1);
        forall i | 0 <= i < |prev|
          ensures prev[i].Score? && prev[i].scoreFile != cs[|prev|].scoreFile
        {
          assert prev[i] in prev;
          var k :| 1 <= k <= n - 1 && |Matching(names, a, k)| > 0 && QcFile(d, a, k) in fs
                   && prev[i] == ScoreCommand(d, a, Matching(names, a, k)[0], k);
          QcFileDistinct(d, a, k, n);
        }
        forall i, j | 0 <= i < j < |cs|
          ensures cs[i].Score? && cs[j].Score? && cs[i].scoreFile != cs[j].scoreFile
        {
          if j < |prev| {
            assert cs[i] == prev[i] && cs[j] == prev[j];
            assert prev[i].scoreFile != prev[j].scoreFile;
          } else {
            assert j == |prev| && cs[i] == prev[i];
            assert prev[i].scoreFile != cs[|prev|].scoreFile;
          }
        }
      } else {
        assert cs == prev;
      }
    }
  }

  /** What `build_prs` does: the score folder is made if absent and nothing
      else the model tracks is written (the time table is left out); the call ends normally exactly when the VCF input folder
      can be listed, and then logs `ScoreEvents` over the 22 chromosomes. */
  lemma BuildPrsBehaviour(fs: FileSystem, d: Dirs, a: ScoreArgs)
    ensures var e := BuildPrsEffect(fs, d, a);
      var fs1 := MakeDir(fs, ScoreFolder(d, a));
      e.fs == fs1
      && (e.status == Done <==> ListDir(fs1, a.vcfInput).Ok?)
      && (e.status.Failed? ==> e.events == [])
      && (e.status == Done ==> e.events == ScoreEvents(fs1, d, a, ListDir(fs1, a.vcfInput).value, Chromosomes))
  {
    ScorePassResult(MakeDir(fs, ScoreFolder(d, a)), d, a, Chromosomes);
  }
}
