/** `GPRS.clump` (gprs/gprs.py:161-212): LD clumping of every chromosome whose
    bfile is present, with the QC file naming branch fixed once per call. */
module ClumpStage {
  import opened Outcomes
  import opened Strings
  import opened Naming
  import opened Files

  /** The parameters of `clump`; the Python defaults are `r2 = "0.1"`,
      `field = "Pvalue"`, `snpField = "SNPID"`. */
  datatype ClumpArgs = ClumpArgs(
    qcFileName: string, bfileName: string, outputName: string,
    kb: string, p1: string, p2: string, r2: string, field: string, snpField: string)

  function Tag(a: ClumpArgs): string
  {
    ClumpTag(a.outputName, a.kb, a.p1, a.r2)
  }

  /** The `plink --clump` call for chromosome `n` (lines 179-183). */
  function ClumpCommand(d: Dirs, a: ClumpArgs, withChr: bool, n: nat): Command
  {
    Clump(BimPrefix(d.bfiles, n, a.bfileName), d.qc + "/" + ClumpQcName(a.qcFileName, n, withChr),
          a.p1, a.p2, a.r2, a.kb, a.field, a.snpField, ClumpOut(d.clump, Tag(a), n))
  }

  /** One chromosome (lines 191-199): clump when the `.bim` exists, else skip.
      The `visited` set of `run_plink` is created afresh on every call (line 176),
      so it never suppresses a call. */
  function ClumpStep(fs: FileSystem, d: Dirs, a: ClumpArgs, withChr: bool, n: nat): Event
  {
    var bim := BimPrefix(d.bfiles, n, a.bfileName) + ".bim";
    if bim in fs then Run(ClumpCommand(d, a, withChr, n)) else Skip(bim)
  }

  /** The log of chromosomes 1 .. n. */
  function ClumpEvents(fs: FileSystem, d: Dirs, a: ClumpArgs, withChr: bool, n: nat): seq<Event>
    decreases n
  {
    if n == 0 then [] else ClumpEvents(fs, d, a, withChr, n - 1) + [ClumpStep(fs, d, a, withChr, n)]
  }

  /** The whole call: the tag folder is made if absent (lines 168-173), the QC
      directory is listed once for the naming branch (line 187), then the
      chromosome loop runs. */
  function ClumpEffect(fs: FileSystem, d: Dirs, a: ClumpArgs): Effect
  {
    var fs1 := MakeDir(fs, Join(d.clump, Tag(a)));
    match ListDir(fs1, d.qc)
    case Err(e) => Effect(fs1, [], Failed(e))
    case Ok(names) => Effect(fs1, ClumpEvents(fs1, d, a, HasChrFile(names, a.qcFileName), Chromosomes), Done)
  }

  /** The log holds one entry per chromosome, in chromosome order. */
  lemma {:induction false} ClumpEventsInOrder(fs: FileSystem, d: Dirs, a: ClumpArgs, withChr: bool, n: nat)
    ensures |ClumpEvents(fs, d, a, withChr, n)| == n
    ensures forall k :: 1 <= k <= n ==> ClumpEvents(fs, d, a, withChr, n)[k - 1] == ClumpStep(fs, d, a, withChr, k)
    decreases n
  {
    if n > 0 {
      ClumpEventsInOrder(fs, d, a, withChr, n - 1);
    }
  }

  /** What `clump` does, chromosome by chromosome: it visits exactly N = 1 .. 22
      in order and never aborts once the QC directory is listed; for each N it
      issues the clump call when `{bfiles}/chr{N}_{bfile}.bim` exists and logs a
      skip naming that `.bim` otherwise. */
  lemma ClumpBehaviour(fs: FileSystem, d: Dirs, a: ClumpArgs)
    ensures var e := ClumpEffect(fs, d, a);
      var fs1 := MakeDir(fs, Join(d.clump, Tag(a)));
      e.fs == fs1
      && (e.status == Done <==> d.qc in fs1 && fs1[d.qc].Folder?)
      && (e.status.Failed? ==> e.events == [])
      && (e.status == Done ==>
            var withChr := HasChrFile(fs1[d.qc].names, a.qcFileName);
            |e.events| == Chromosomes
            && forall k :: 1 <= k <= Chromosomes ==>
                 var bim := BimPrefix(d.bfiles, k, a.bfileName) + ".bim";
                 e.events[k - 1] == (if bim in fs1 then Run(ClumpCommand(d, a, withChr, k)) else Skip(bim)))
  {
    var fs1 := MakeDir(fs, Join(d.clump, Tag(a)));
    if d.qc in fs1 && fs1[d.qc].Folder? {
      var withChr := HasChrFile(fs1[d.qc].names, a.qcFileName);
      var events := ClumpEvents(fs1, d, a, withChr, Chromosomes);
      ClumpEventsInOrder(fs1, d, a, withChr, Chromosomes);
      assert ClumpEffect(fs, d, a) == Effect(fs1, events, Done);
      forall k | 1 <= k <= Chromosomes
        ensures var bim := BimPrefix(d.bfiles, k, a.bfileName) + ".bim";
          events[k - 1] == (if bim in fs1 then Run(ClumpCommand(d, a, withChr, k)) else Skip(bim))
      {
        assert events[k - 1] == ClumpStep(fs1, d, a, withChr, k);
      }
    }
  }

  /** The chromosomes among 1 .. n that satisfy `p`. */
  function Among(p: nat -> bool, n: nat): set<nat>
  {
    set k: nat | 1 <= k <= n && p(k)
  }

  lemma AmongStep(p: nat -> bool, n: nat)
    requires n > 0
    ensures |Among(p, n)| == |Among(p, n - 1)| + (if p(n) then 1 else 0)
  {
    assert n !in Among(p, n - 1);
    if p(n) {
      assert Among(p, n) == Among(p, n - 1) + {n};
    } else {
      assert Among(p, n) == Among(p, n - 1);
    }
  }

  /** Chromosome k has its `.bim`. */
  function HasBim(fs: FileSystem, d: Dirs, a: ClumpArgs): nat -> bool
  {
    (k: nat) => BimPrefix(d.bfiles, k, a.bfileName) + ".bim" in fs
  }

  /** The number of clump calls is the number of chromosomes whose `.bim`
      exists, and the number of skips the number of those whose `.bim` is absent. */
  lemma {:induction false} ClumpCounts(fs: FileSystem, d: Dirs, a: ClumpArgs, withChr: bool, n: nat)
    ensures |Runs(ClumpEvents(fs, d, a, withChr, n))| == |Among(HasBim(fs, d, a), n)|
    ensures |Skips(ClumpEvents(fs, d, a, withChr, n))| == n - |Among(HasBim(fs, d, a), n)|
    decreases n
  {
    if n > 0 {
      ClumpCounts(fs, d, a, withChr, n - 1);
      var prev := ClumpEvents(fs, d, a, withChr, n - 1);
      var events := ClumpEvents(fs, d, a, withChr, n);
      assert events[..|events| - 1] == prev;
      assert events[|events| - 1] == ClumpStep(fs, d, a, withChr, n);
      assert HasBim(fs, d, a)(n) == (BimPrefix(d.bfiles, n, a.bfileName) + ".bim" in fs);
      AmongStep(HasBim(fs, d, a), n);
      RunsSkipsCount(prev);
      RunsSkipsCount(events);
    }
  }

  /** Clump outputs of distinct chromosomes never collide. */
  lemma ClumpOutDistinct(clumpDir: string, tag: string, m: nat, n: nat)
    requires m != n
    ensures ClumpOut(clumpDir, tag, m) != ClumpOut(clumpDir, tag, n)
  {
    assert ClumpOut(clumpDir, tag, m) == (clumpDir + "/" + tag + "/") + Chr(m) + ("_" + tag);
    assert ClumpOut(clumpDir, tag, n) == (clumpDir + "/" + tag + "/") + Chr(n) + ("_" + tag);
    if ClumpOut(clumpDir, tag, m) == ClumpOut(clumpDir, tag, n) {
      ChrSlotInjective(clumpDir + "/" + tag + "/", m, n, "_" + tag);
    }
  }

  /** The all-or-nothing naming branch: without a chromosome-named QC file every
      clump call reads the one pooled `{name}.QC.csv`; with one, the calls of
      distinct chromosomes read distinct `chr{N}_{name}.QC.csv`. Outputs never collide. */
  lemma ClumpQcFilesAllOrNothing(d: Dirs, a: ClumpArgs, withChr: bool, m: nat, n: nat)
    requires m != n
    ensures !withChr ==> ClumpCommand(d, a, withChr, m).clumpFile == ClumpCommand(d, a, withChr, n).clumpFile
                           == d.qc + "/" + a.qcFileName + ".QC.csv"
    ensures withChr ==> ClumpCommand(d, a, withChr, m).clumpFile != ClumpCommand(d, a, withChr, n).clumpFile
    ensures ClumpCommand(d, a, withChr, m).out != ClumpCommand(d, a, withChr, n).out
  {
    ClumpOutDistinct(d.clump, Tag(a), m, n);
    if withChr && ClumpCommand(d, a, withChr, m).clumpFile == ClumpCommand(d, a, withChr, n).clumpFile {
      assert ClumpCommand(d, a, withChr, m).clumpFile == (d.qc + "/") + Chr(m) + ("_" + a.qcFileName + ".QC.csv");
      assert ClumpCommand(d, a, withChr, n).clumpFile == (d.qc + "/") + Chr(n) + ("_" + a.qcFileName + ".QC.csv");
      ChrSlotInjective(d.qc + "/", m, n, "_" + a.qcFileName + ".QC.csv");
    }
  }
}
