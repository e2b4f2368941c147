/** `GPRS.select_clump_snps` (gprs/gprs.py:214-298). Step 1 turns every
    `.clumped` table into a clumped SNP list of its chromosome; step 2 joins each
    clumped SNP list with the QC table and writes the QC-and-clump SNP list that
    scoring reads. */
module SelectStage {
  import opened Outcomes
  import opened Strings
  import opened Naming
  import opened Tables
  import opened Files
  import opened Sweeps

  datatype SelectArgs = SelectArgs(
    qcFileName: string, clumpFileName: string, folder: string, outputName: string,
    kb: string, p1: string, r2: string)

  function Cond(a: SelectArgs): string
  {
    Conditions(a.kb, a.p1, a.r2)
  }

  function Clumped(d: Dirs, a: SelectArgs, n: nat): string
  {
    ClumpedFile(d.clump, a.folder, a.clumpFileName, Cond(a), n)
  }

  function Snplist(d: Dirs, a: SelectArgs, n: nat): string
  {
    ClumpedSnplist(d.clump, a.folder, a.clumpFileName, Cond(a), n)
  }

  function QcIn(d: Dirs, a: SelectArgs, withChr: bool, n: nat): string
  {
    SelectQcFile(d.qc, a.qcFileName, n, withChr)
  }

  function ListOut(d: Dirs, a: SelectArgs, n: nat): string
  {
    QcClumpOut(d.qcClump, a.folder, Cond(a), SelectOutputName(n, a.outputName, Cond(a)))
  }

  // ---- step 1 (lines 230-249) ----

  /** What step 1 makes of one chromosome's `.clumped` table: read it and keep
      the rows of this chromosome as CHR and SNP. The `visited` set of
      `generate_clumped_snplist` is created afresh on every call (line 231), so
      it never suppresses a write. */
  function SnplistOf(fs: FileSystem, d: Dirs, a: SelectArgs, n: nat): Result<Table>
  {
    match ReadTable(fs, Clumped(d, a, n))
    case Err(e) => Err(e)
    case Ok(t) => SelectChromosome(t, n)
  }

  function ClumpedAt(d: Dirs, a: SelectArgs): nat -> string
  {
    (k: nat) => Clumped(d, a, k)
  }

  function SnplistAt(d: Dirs, a: SelectArgs): nat -> string
  {
    (k: nat) => Snplist(d, a, k)
  }

  function MakeSnplist(d: Dirs, a: SelectArgs): (FileSystem, nat) -> Result<Table>
  {
    (fs: FileSystem, k: nat) => SnplistOf(fs, d, a, k)
  }

  /** Step 1 over chromosomes 1 .. n: a present `.clumped` file becomes the
      clumped SNP list of its chromosome, a missing one is logged and skipped. */
  function SnplistLoop(start: Effect, d: Dirs, a: SelectArgs, n: nat): Effect
  {
    Sweep(start, ClumpedAt(d, a), SnplistAt(d, a), MakeSnplist(d, a), true, n)
  }

  // ---- step 2 (lines 252-297) ----

  /** What step 2 makes of one chromosome's clumped SNP list: read it, then the
      QC table (a missing one raises), and keep the QC rows whose SNPID the list
      names. The `visited` set of `generate_qc_snplist` is created afresh on
      every call (line 253), so it never suppresses a write either. */
  function JoinOf(fs: FileSystem, d: Dirs, a: SelectArgs, withChr: bool, n: nat): Result<Table>
  {
    match ReadTable(fs, Snplist(d, a, n))
    case Err(e) => Err(e)
    case Ok(clump) =>
      match ReadTable(fs, QcIn(d, a, withChr, n))
      case Err(e) => Err(e)
      case Ok(qc) => JoinClumped(qc, clump)
  }

  function ListOutAt(d: Dirs, a: SelectArgs): nat -> string
  {
    (k: nat) => ListOut(d, a, k)
  }

  function MakeJoin(d: Dirs, a: SelectArgs, withChr: bool): (FileSystem, nat) -> Result<Table>
  {
    (fs: FileSystem, k: nat) => JoinOf(fs, d, a, withChr, k)
  }

  /** Step 2 over chromosomes 1 .. n: a present clumped SNP list becomes a QC
      and clump SNP list, a missing one is logged and skipped. */
  function JoinLoop(start: Effect, d: Dirs, a: SelectArgs, withChr: bool, n: nat): Effect
  {
    Sweep(start, SnplistAt(d, a), ListOutAt(d, a), MakeJoin(d, a, withChr), true, n)
  }

  /** Both folders made if absent (lines 219-227). */
  function SelectFolders(fs: FileSystem, d: Dirs, a: SelectArgs): FileSystem
  {
    MakeDir(MakeDir(fs, TaggedFolder(d.clump, a.folder, Cond(a))), TaggedFolder(d.qcClump, a.folder, Cond(a)))
  }

  /** The whole call: the folders, step 1, the naming probe over the QC listing
      (line 266, which raises when the QC folder is missing), step 2. */
  function SelectEffect(fs: FileSystem, d: Dirs, a: SelectArgs): Effect
  {
    var e1 := SnplistLoop(Effect(SelectFolders(fs, d, a), [], Done), d, a, Chromosomes);
    if e1.status.Failed? then e1
    else
      match ListDir(e1.fs, d.qc)
      case Err(e) => Effect(e1.fs, e1.events, Failed(e))
      case Ok(names) => JoinLoop(e1, d, a, HasChrFile(names, a.qcFileName), Chromosomes)
  }

  // ---- the paths never collide ----

  lemma SnplistDistinct(d: Dirs, a: SelectArgs, m: nat, n: nat)
    requires m != n
    ensures Snplist(d, a, m) != Snplist(d, a, n)
  {
    var pre := d.clump + "/" + a.folder + "_" + Cond(a) + "/";
    var post := "_" + a.clumpFileName + "_" + Cond(a) + "_clumped_snplist.csv";
    assert Snplist(d, a, m) == pre + Chr(m) + post;
    assert Snplist(d, a, n) == pre + Chr(n) + post;
    if Snplist(d, a, m) == Snplist(d, a, n) {
      ChrSlotInjective(pre, m, n, post);
    }
  }

  lemma ListOutDistinct(d: Dirs, a: SelectArgs, m: nat, n: nat)
    requires m != n
    ensures ListOut(d, a, m) != ListOut(d, a, n)
  {
    var pre := d.qcClump + "/" + a.folder + "_" + Cond(a) + "/";
    var post := "_" + a.outputName + "_" + Cond(a) + ".qc_clump_snpslist.csv";
    assert ListOut(d, a, m) == pre + Chr(m) + post;
    assert ListOut(d, a, n) == pre + Chr(n) + post;
    if ListOut(d, a, m) == ListOut(d, a, n) {
      ChrSlotInjective(pre, m, n, post);
    }
  }

  /** What a step writes is never what a step reads: the fixed suffixes differ. */
  lemma ClumpedIsNoWrite(d: Dirs, a: SelectArgs, m: nat, n: nat)
    ensures Clumped(d, a, m) != Snplist(d, a, n)
    ensures Clumped(d, a, m) != ListOut(d, a, n)
  {
    var c := d.clump + "/" + a.folder + "_" + Cond(a) + "/" + Chr(m) + "_" + a.clumpFileName + "_" + Cond(a);
    var s := d.clump + "/" + a.folder + "_" + Cond(a) + "/" + Chr(n) + "_" + a.clumpFileName + "_" + Cond(a);
    var l := d.qcClump + "/" + a.folder + "_" + Cond(a) + "/" + SelectOutputName(n, a.outputName, Cond(a));
    SuffixesDiffer(c, ".clumped", s, "_clumped_snplist.csv", 0);
    SuffixesDiffer(c, ".clumped", l, ".qc_clump_snpslist.csv", 0);
  }

  lemma SnplistIsNoListOut(d: Dirs, a: SelectArgs, m: nat, n: nat)
    ensures Snplist(d, a, m) != ListOut(d, a, n)
  {
    var s := d.clump + "/" + a.folder + "_" + Cond(a) + "/" + Chr(m) + "_" + a.clumpFileName + "_" + Cond(a);
    var l := d.qcClump + "/" + a.folder + "_" + Cond(a) + "/" + SelectOutputName(n, a.outputName, Cond(a));
    SuffixesDiffer(s, "_clumped_snplist.csv", l, ".qc_clump_snpslist.csv", 8);
  }

  lemma QcInIsNoWrite(d: Dirs, a: SelectArgs, withChr: bool, m: nat, n: nat)
    ensures QcIn(d, a, withChr, m) != ListOut(d, a, n)
    ensures QcIn(d, a, withChr, m) != Snplist(d, a, n)
  {
    var q := if withChr then d.qc + "/" + Chr(m) + "_" + a.qcFileName else d.qc + "/" + a.qcFileName;
    assert QcIn(d, a, withChr, m) == q + ".QC.csv";
    var s := d.clump + "/" + a.folder + "_" + Cond(a) + "/" + Chr(n) + "_" + a.clumpFileName + "_" + Cond(a);
    var l := d.qcClump + "/" + a.folder + "_" + Cond(a) + "/" + SelectOutputName(n, a.outputName, Cond(a));
    SuffixesDiffer(q, ".QC.csv", l, ".qc_clump_snpslist.csv", 4);
    SuffixesDiffer(q, ".QC.csv", s, "_clumped_snplist.csv", 4);
  }

  // ---- what the two steps promise ----

  /** Step 1 can process a present `.clumped` file exactly when it is a table
      with CHR and SNP columns. */
  lemma SnplistOfOk(fs: FileSystem, d: Dirs, a: SelectArgs, n: nat)
    requires Clumped(d, a, n) in fs
    ensures SnplistOf(fs, d, a, n).Ok? <==>
      fs[Clumped(d, a, n)].Frame? && "CHR" in fs[Clumped(d, a, n)].table.columns
      && "SNP" in fs[Clumped(d, a, n)].table.columns
  {
  }

  lemma SnplistOfSame(fs1: FileSystem, fs2: FileSystem, d: Dirs, a: SelectArgs, n: nat)
    requires Clumped(d, a, n) in fs1 <==> Clumped(d, a, n) in fs2
    requires Clumped(d, a, n) in fs2 ==> fs1[Clumped(d, a, n)] == fs2[Clumped(d, a, n)]
    ensures SnplistOf(fs1, d, a, n) == SnplistOf(fs2, d, a, n)
  {
    assert ReadTable(fs1, Clumped(d, a, n)) == ReadTable(fs2, Clumped(d, a, n));
  }

  lemma JoinOfSame(fs1: FileSystem, fs2: FileSystem, d: Dirs, a: SelectArgs, withChr: bool, n: nat)
    requires Snplist(d, a, n) in fs1 <==> Snplist(d, a, n) in fs2
    requires Snplist(d, a, n) in fs2 ==> fs1[Snplist(d, a, n)] == fs2[Snplist(d, a, n)]
    requires QcIn(d, a, withChr, n) in fs1 <==> QcIn(d, a, withChr, n) in fs2
    requires QcIn(d, a, withChr, n) in fs2 ==> fs1[QcIn(d, a, withChr, n)] == fs2[QcIn(d, a, withChr, n)]
    ensures JoinOf(fs1, d, a, withChr, n) == JoinOf(fs2, d, a, withChr, n)
  {
    assert ReadTable(fs1, Snplist(d, a, n)) == ReadTable(fs2, Snplist(d, a, n));
    assert ReadTable(fs1, QcIn(d, a, withChr, n)) == ReadTable(fs2, QcIn(d, a, withChr, n));
  }

  /** Step 1 never writes what it reads, and distinct chromosomes write distinct lists. */
  lemma SnplistIndependent(d: Dirs, a: SelectArgs)
    ensures Independent(ClumpedAt(d, a), SnplistAt(d, a), MakeSnplist(d, a))
  {
    forall j: nat, k: nat | j < k
      ensures Snplist(d, a, j) != Snplist(d, a, k) && Clumped(d, a, k) != Snplist(d, a, j)
    {
      SnplistDistinct(d, a, j, k);
      ClumpedIsNoWrite(d, a, k, j);
    }
    forall j: nat, k: nat, fs: FileSystem, t: Table | j < k
      ensures SnplistOf(fs[Snplist(d, a, j) := Frame(t)], d, a, k) == SnplistOf(fs, d, a, k)
    {
      ClumpedIsNoWrite(d, a, k, j);
      SnplistOfSame(fs[Snplist(d, a, j) := Frame(t)], fs, d, a, k);
    }
  }

  /** Step 2 never writes what it reads, and distinct chromosomes write distinct lists. */
  lemma JoinIndependent(d: Dirs, a: SelectArgs, withChr: bool)
    ensures Independent(SnplistAt(d, a), ListOutAt(d, a), MakeJoin(d, a, withChr))
  {
    forall j: nat, k: nat | j < k
      ensures ListOut(d, a, j) != ListOut(d, a, k) && Snplist(d, a, k) != ListOut(d, a, j)
    {
      ListOutDistinct(d, a, j, k);
      SnplistIsNoListOut(d, a, k, j);
    }
    forall j: nat, k: nat, fs: FileSystem, t: Table | j < k
      ensures JoinOf(fs[ListOut(d, a, j) := Frame(t)], d, a, withChr, k) == JoinOf(fs, d, a, withChr, k)
    {
      SnplistIsNoListOut(d, a, k, j);
      QcInIsNoWrite(d, a, withChr, k, j);
      JoinOfSame(fs[ListOut(d, a, j) := Frame(t)], fs, d, a, withChr, k);
    }
  }

  /** In the directory layout of the pipeline, the QC folder is never a clumped SNP list. */
  lemma QcDirIsNoSnplist(result: string, a: SelectArgs, k: nat)
    ensures Layout(result).qc != Snplist(Layout(result), a, k)
  {
    var d := Layout(result);
    var stem := d.clump + "/" + a.folder + "_" + Cond(a) + "/" + Chr(k) + "_" + a.clumpFileName + "_" + Cond(a);
    SuffixesDiffer(result + "/", "qc", stem, "_clumped_snplist.csv", 0);
  }

  /** What `select_clump_snps` leaves for chromosome k when it runs to its end:
      if the k-th `.clumped` file exists, the QC and clump SNP list of k holds
      the join of the QC table with the step-1 list of that `.clumped` file;
      `Tables.JoinSelectedMembers` shows these are exactly the QC rows whose
      SNPID is among its chromosome-k SNPs. Which QC table is read depends on
      whether the QC folder names per-chromosome files. */
  lemma SelectResult(fs: FileSystem, result: string, a: SelectArgs, k: nat)
    requires 1 <= k <= Chromosomes
    requires SelectEffect(fs, Layout(result), a).status == Done
    ensures var d := Layout(result);
      var fs1 := SelectFolders(fs, d, a);
      var e := SelectEffect(fs, d, a);
      ListDir(fs1, d.qc).Ok?
      && var withChr := HasChrFile(ListDir(fs1, d.qc).value, a.qcFileName);
      var qc := ReadTable(fs1, QcIn(d, a, withChr, k));
      Clumped(d, a, k) in fs1 ==>
        SnplistOf(fs1, d, a, k).Ok? && qc.Ok? && JoinClumped(qc.value, SnplistOf(fs1, d, a, k).value).Ok?
        && ListOut(d, a, k) in e.fs
        && e.fs[ListOut(d, a, k)] == Frame(JoinClumped(qc.value, SnplistOf(fs1, d, a, k).value).value)
  {
    var d := Layout(result);
    var fs1 := SelectFolders(fs, d, a);
    var e1 := SnplistLoop(Effect(fs1, [], Done), d, a, Chromosomes);
    assert e1.status == Done;
    forall j | 1 <= j <= Chromosomes
      ensures d.qc != Snplist(d, a, j)
    {
      QcDirIsNoSnplist(result, a, j);
    }
    Step1KeepsQcDir(fs1, d, a);
    var withChr := HasChrFile(ListDir(fs1, d.qc).value, a.qcFileName);
    Step1KeepsQcTable(fs1, d, a, withChr, k);
    var e := JoinLoop(e1, d, a, withChr, Chromosomes);
    assert e == SelectEffect(fs, d, a);
    if Clumped(d, a, k) in fs1 {
      BothStepsResult(fs1, d, a, withChr, k);
    }
  }

  /** Step 2 joins the list step 1 wrote with the QC table step 1 left alone. */
  lemma BothStepsResult(fs1: FileSystem, d: Dirs, a: SelectArgs, withChr: bool, k: nat)
    requires 1 <= k <= Chromosomes && Clumped(d, a, k) in fs1
    requires SnplistLoop(Effect(fs1, [], Done), d, a, Chromosomes).status == Done
    requires var e1 := SnplistLoop(Effect(fs1, [], Done), d, a, Chromosomes);
      JoinLoop(e1, d, a, withChr, Chromosomes).status == Done
      && ReadTable(e1.fs, QcIn(d, a, withChr, k)) == ReadTable(fs1, QcIn(d, a, withChr, k))
    ensures var e := JoinLoop(SnplistLoop(Effect(fs1, [], Done), d, a, Chromosomes), d, a, withChr, Chromosomes);
      var qc := ReadTable(fs1, QcIn(d, a, withChr, k));
      SnplistOf(fs1, d, a, k).Ok? && qc.Ok? && JoinClumped(qc.value, SnplistOf(fs1, d, a, k).value).Ok?
      && ListOut(d, a, k) in e.fs
      && e.fs[ListOut(d, a, k)] == Frame(JoinClumped(qc.value, SnplistOf(fs1, d, a, k).value).value)
  {
    var e1 := SnplistLoop(Effect(fs1, [], Done), d, a, Chromosomes);
    Step1Result(fs1, d, a, k);
    Step2Result(e1, d, a, withChr, k);
    assert ReadTable(e1.fs, Snplist(d, a, k)) == Ok(SnplistOf(fs1, d, a, k).value);
  }

  /** Step 1 leaves the QC folder as it was ... */
  lemma Step1KeepsQcDir(fs1: FileSystem, d: Dirs, a: SelectArgs)
    requires forall j :: 1 <= j <= Chromosomes ==> d.qc != Snplist(d, a, j)
    requires SnplistLoop(Effect(fs1, [], Done), d, a, Chromosomes).status == Done
    ensures ListDir(SnplistLoop(Effect(fs1, [], Done), d, a, Chromosomes).fs, d.qc) == ListDir(fs1, d.qc)
  {
    SnplistIndependent(d, a);
    forall j | 1 <= j <= Chromosomes
      ensures d.qc != SnplistAt(d, a)(j)
    {
    }
    SweepKeeps(Effect(fs1, [], Done), ClumpedAt(d, a), SnplistAt(d, a), MakeSnplist(d, a), true, Chromosomes, d.qc);
  }

  /** ... and the QC tables too. */
  lemma Step1KeepsQcTable(fs1: FileSystem, d: Dirs, a: SelectArgs, withChr: bool, k: nat)
    requires SnplistLoop(Effect(fs1, [], Done), d, a, Chromosomes).status == Done
    ensures ReadTable(SnplistLoop(Effect(fs1, [], Done), d, a, Chromosomes).fs, QcIn(d, a, withChr, k))
         == ReadTable(fs1, QcIn(d, a, withChr, k))
  {
    var q := QcIn(d, a, withChr, k);
    SnplistIndependent(d, a);
    forall j | 1 <= j <= Chromosomes
      ensures q != SnplistAt(d, a)(j)
    {
      QcInIsNoWrite(d, a, withChr, k, j);
    }
    SweepKeeps(Effect(fs1, [], Done), ClumpedAt(d, a), SnplistAt(d, a), MakeSnplist(d, a), true, Chromosomes, q);
  }

  /** Step 1 writes the SNP list of each present `.clumped` file. */
  lemma Step1Result(fs1: FileSystem, d: Dirs, a: SelectArgs, k: nat)
    requires 1 <= k <= Chromosomes && Clumped(d, a, k) in fs1
    requires SnplistLoop(Effect(fs1, [], Done), d, a, Chromosomes).status == Done
    ensures var e1 := SnplistLoop(Effect(fs1, [], Done), d, a, Chromosomes);
      SnplistOf(fs1, d, a, k).Ok? && Snplist(d, a, k) in e1.fs
      && e1.fs[Snplist(d, a, k)] == Frame(SnplistOf(fs1, d, a, k).value)
  {
    SnplistIndependent(d, a);
    assert ClumpedAt(d, a)(k) == Clumped(d, a, k) && SnplistAt(d, a)(k) == Snplist(d, a, k);
    assert MakeSnplist(d, a)(fs1, k) == SnplistOf(fs1, d, a, k);
    SweepWritten(Effect(fs1, [], Done), ClumpedAt(d, a), SnplistAt(d, a), MakeSnplist(d, a), true, Chromosomes, k);
  }

  /** Step 2 writes the join of each present SNP list. */
  lemma Step2Result(e1: Effect, d: Dirs, a: SelectArgs, withChr: bool, k: nat)
    requires 1 <= k <= Chromosomes && e1.status == Done && Snplist(d, a, k) in e1.fs
    requires JoinLoop(e1, d, a, withChr, Chromosomes).status == Done
    ensures var e := JoinLoop(e1, d, a, withChr, Chromosomes);
      JoinOf(e1.fs, d, a, withChr, k).Ok? && ListOut(d, a, k) in e.fs
      && e.fs[ListOut(d, a, k)] == Frame(JoinOf(e1.fs, d, a, withChr, k).value)
  {
    JoinIndependent(d, a, withChr);
    assert SnplistAt(d, a)(k) == Snplist(d, a, k) && ListOutAt(d, a)(k) == ListOut(d, a, k);
    assert MakeJoin(d, a, withChr)(e1.fs, k) == JoinOf(e1.fs, d, a, withChr, k);
    assert Taken(e1.fs, SnplistAt(d, a), true, k);
    SweepWritten(e1, SnplistAt(d, a), ListOutAt(d, a), MakeJoin(d, a, withChr), true, Chromosomes, k);
  }

  // ---- when the call completes, what it logs, what it leaves alone ----

  /** Step 1 runs to its end exactly when every present `.clumped` file can be
      made into a SNP list and that list written; it then has logged a skip for each missing one. */
  lemma Step1Status(fs1: FileSystem, d: Dirs, a: SelectArgs)
    ensures var e1 := SnplistLoop(Effect(fs1, [], Done), d, a, Chromosomes);
      (e1.status == Done <==>
         forall k :: 1 <= k <= Chromosomes && Clumped(d, a, k) in fs1 ==>
           SnplistOf(fs1, d, a, k).Ok? && Writable(fs1, Snplist(d, a, k)))
      && (e1.status == Done ==> e1.events == SweepSkips(fs1, ClumpedAt(d, a), true, Chromosomes))
  {
    var start := Effect(fs1, [], Done);
    SnplistIndependent(d, a);
    SweepStatus(start, ClumpedAt(d, a), SnplistAt(d, a), MakeSnplist(d, a), true, Chromosomes);
    forall k: nat
      ensures Taken(fs1, ClumpedAt(d, a), true, k) == (Clumped(d, a, k) in fs1)
      ensures MakeSnplist(d, a)(fs1, k) == SnplistOf(fs1, d, a, k)
      ensures Makes(fs1, SnplistAt(d, a), MakeSnplist(d, a), k)
           == (SnplistOf(fs1, d, a, k).Ok? && Writable(fs1, Snplist(d, a, k)))
    {
      assert SnplistAt(d, a)(k) == Snplist(d, a, k);
    }
    if SnplistLoop(start, d, a, Chromosomes).status == Done {
      SweepResult(start, ClumpedAt(d, a), SnplistAt(d, a), MakeSnplist(d, a), true, Chromosomes);
    }
  }

  /** Step 2 runs to its end exactly when every SNP list present after step 1
      joins with its QC table and the join can be written; it then has logged a skip for each missing list. */
  lemma Step2Status(e1: Effect, d: Dirs, a: SelectArgs, withChr: bool)
    requires e1.status == Done
    ensures var e := JoinLoop(e1, d, a, withChr, Chromosomes);
      (e.status == Done <==>
         forall k :: 1 <= k <= Chromosomes && Snplist(d, a, k) in e1.fs ==>
           JoinOf(e1.fs, d, a, withChr, k).Ok? && Writable(e1.fs, ListOut(d, a, k)))
      && (e.status == Done ==> e.events == e1.events + SweepSkips(e1.fs, SnplistAt(d, a), true, Chromosomes))
  {
    JoinIndependent(d, a, withChr);
    SweepStatus(e1, SnplistAt(d, a), ListOutAt(d, a), MakeJoin(d, a, withChr), true, Chromosomes);
    forall k: nat
      ensures Taken(e1.fs, SnplistAt(d, a), true, k) == (Snplist(d, a, k) in e1.fs)
      ensures MakeJoin(d, a, withChr)(e1.fs, k) == JoinOf(e1.fs, d, a, withChr, k)
      ensures Makes(e1.fs, ListOutAt(d, a), MakeJoin(d, a, withChr), k)
           == (JoinOf(e1.fs, d, a, withChr, k).Ok? && Writable(e1.fs, ListOut(d, a, k)))
    {
      assert ListOutAt(d, a)(k) == ListOut(d, a, k);
    }
    if JoinLoop(e1, d, a, withChr, Chromosomes).status == Done {
      SweepResult(e1, SnplistAt(d, a), ListOutAt(d, a), MakeJoin(d, a, withChr), true, Chromosomes);
    }
  }

  /** `select_clump_snps` runs to its end exactly when step 1 does, the QC
      folder can be listed afterwards, and step 2 does, each writing only
      where writing succeeds; its log is then the
      skips of step 1 followed by those of step 2. */
  lemma SelectBehaviour(fs: FileSystem, d: Dirs, a: SelectArgs)
    ensures var fs1 := SelectFolders(fs, d, a);
      var e1 := SnplistLoop(Effect(fs1, [], Done), d, a, Chromosomes);
      var e := SelectEffect(fs, d, a);
      (e1.status == Done <==>
         forall k :: 1 <= k <= Chromosomes && Clumped(d, a, k) in fs1 ==>
           SnplistOf(fs1, d, a, k).Ok? && Writable(fs1, Snplist(d, a, k)))
      && (e.status == Done <==>
            e1.status == Done && ListDir(e1.fs, d.qc).Ok?
            && forall k :: 1 <= k <= Chromosomes && Snplist(d, a, k) in e1.fs ==>
                 JoinOf(e1.fs, d, a, HasChrFile(ListDir(e1.fs, d.qc).value, a.qcFileName), k).Ok?
                 && Writable(e1.fs, ListOut(d, a, k)))
      && (e.status == Done ==>
            e.events == SweepSkips(fs1, ClumpedAt(d, a), true, Chromosomes)
                        + SweepSkips(e1.fs, SnplistAt(d, a), true, Chromosomes))
  {
    var fs1 := SelectFolders(fs, d, a);
    var e1 := SnplistLoop(Effect(fs1, [], Done), d, a, Chromosomes);
    Step1Status(fs1, d, a);
    if e1.status == Done && ListDir(e1.fs, d.qc).Ok? {
      Step2Status(e1, d, a, HasChrFile(ListDir(e1.fs, d.qc).value, a.qcFileName));
    }
  }

  /** A completed call changes no path but its two folders and the lists the
      steps write. */
  lemma SelectKeeps(fs: FileSystem, d: Dirs, a: SelectArgs, p: string)
    requires SelectEffect(fs, d, a).status == Done
    requires p != TaggedFolder(d.clump, a.folder, Cond(a)) && p != TaggedFolder(d.qcClump, a.folder, Cond(a))
    requires forall k :: 1 <= k <= Chromosomes ==> p != Snplist(d, a, k) && p != ListOut(d, a, k)
    ensures var e := SelectEffect(fs, d, a);
      (p in e.fs <==> p in fs) && (p in fs ==> e.fs[p] == fs[p])
  {
    var fs1 := SelectFolders(fs, d, a);
    var start := Effect(fs1, [], Done);
    var e1 := SnplistLoop(start, d, a, Chromosomes);
    assert e1.status == Done;
    SnplistIndependent(d, a);
    forall k | 1 <= k <= Chromosomes
      ensures p != SnplistAt(d, a)(k)
    {
    }
    SweepKeeps(start, ClumpedAt(d, a), SnplistAt(d, a), MakeSnplist(d, a), true, Chromosomes, p);
    var withChr := HasChrFile(ListDir(e1.fs, d.qc).value, a.qcFileName);
    JoinIndependent(d, a, withChr);
    forall k | 1 <= k <= Chromosomes
      ensures p != ListOutAt(d, a)(k)
    {
    }
    SweepKeeps(e1, SnplistAt(d, a), ListOutAt(d, a), MakeJoin(d, a, withChr), true, Chromosomes, p);
  }
}
