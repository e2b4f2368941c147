/** The `GPRS` object (gprs/gprs.py:11-423): the directory layout fixed by the
    constructor, the filesystem the stages read and write, and the log of the
    external commands they issue. Each stage is a method of the class; the
    loops it runs are the methods before it, each proved equal to the
    specification function of its stage, about which the stage modules prove
    what the stage promises. */
module Pipeline {
  import opened Outcomes
  import opened Strings
  import opened Naming
  import opened Tables
  import opened Scores
  import opened Files
  import opened Sweeps
  import opened Nested
  import ClumpStage
  import SelectStage
  import ScoringStage
  import CombineStage
  import StatisticsStage
  import BfileStage
  import AtcgStage

  // ---- the loop shapes several stages share ----

  /** Chromosomes 1 .. 22: make each table from the current filesystem and
      write it to `dst(k)`, or, when `skip` holds and `src(k)` is missing,
      log a skip. An exception ends the loop with the state reached. */
  method SweepLoop(start: Effect, src: nat -> string, dst: nat -> string,
                   make: (FileSystem, nat) -> Result<Table>, skip: bool) returns (e: Effect)
    requires start.status == Done
    ensures e == Sweep(start, src, dst, make, skip, Chromosomes)
  {
    e := start;
    var k := 1;
    while k <= Chromosomes
      invariant 1 <= k <= Chromosomes + 1 && e.status == Done
      invariant e == Sweep(start, src, dst, make, skip, k - 1)
    {
      ghost var next := SweepStep(e, src, dst, make, skip, k);
      assert Sweep(start, src, dst, make, skip, k) == next;
      if src(k) in e.fs || !skip {
        var t := make(e.fs, k);
        if t.Err? {
          e := Effect(e.fs, e.events, Failed(t.error));
          assert e == next;
          SweepStopped(start, src, dst, make, skip, k, Chromosomes);
          return;
        }
        var w := Write(e.fs, dst(k), Frame(t.value));
        if w.Err? {
          e := Effect(e.fs, e.events, Failed(w.error));
          assert e == next;
          SweepStopped(start, src, dst, make, skip, k, Chromosomes);
          return;
        }
        e := Effect(w.value, e.events, Done);
      } else {
        e := Effect(e.fs, e.events + [Skip(src(k))], Done);
      }
      assert e == next;
      k := k + 1;
    }
  }

  /** The innermost loop: one command per inner name chromosome `k` uses. */
  method InnerLoop(inner: seq<string>, useInner: (string, nat) -> bool,
                   cmd: (string, string, nat) -> Command, x: string, k: nat) returns (events: seq<Event>)
    ensures events == InnerRuns(inner, useInner, cmd, x, k)
  {
    events := [];
    var i := 0;
    while i < |inner|
      invariant 0 <= i <= |inner|
      invariant events == InnerRuns(inner[..i], useInner, cmd, x, k)
    {
      assert inner[..i + 1][..i] == inner[..i];
      if useInner(inner[i], k) {
        events := events + [Run(cmd(x, inner[i], k))];
      }
      i := i + 1;
    }
    assert inner[..i] == inner;
  }

  /** The loop over the outer listing for chromosome `k`: each name it uses
      lists `innerDir` anew. */
  method OuterLoop(disk: FileSystem, innerDir: string, outer: seq<string>,
                   useOuter: (string, nat) -> bool, useInner: (string, nat) -> bool,
                   cmd: (string, string, nat) -> Command, k: nat) returns (r: Log)
    ensures r == OuterPass(disk, innerDir, outer, useOuter, useInner, cmd, k)
  {
    r := Log([], Done);
    var j := 0;
    while j < |outer|
      invariant 0 <= j <= |outer| && r.status == Done
      invariant r == OuterPass(disk, innerDir, outer[..j], useOuter, useInner, cmd, k)
    {
      assert outer[..j + 1][..j] == outer[..j];
      if useOuter(outer[j], k) {
        var inner := ListDir(disk, innerDir);
        if inner.Err? {
          r := Log(r.events, Failed(inner.error));
          OuterPassStopped(disk, innerDir, outer, useOuter, useInner, cmd, k, j + 1);
          return;
        }
        var events := InnerLoop(inner.value, useInner, cmd, outer[j], k);
        r := Log(r.events + events, Done);
      }
      j := j + 1;
    }
    assert outer[..j] == outer;
  }

  /** Chromosomes 1 .. 22: list `outerDir`, then the outer loop. */
  method NestedLoop(disk: FileSystem, outerDir: string, innerDir: string,
                    useOuter: (string, nat) -> bool, useInner: (string, nat) -> bool,
                    cmd: (string, string, nat) -> Command) returns (r: Log)
    ensures r == NestedPass(disk, outerDir, innerDir, useOuter, useInner, cmd, Chromosomes)
  {
    r := Log([], Done);
    var k := 1;
    while k <= Chromosomes
      invariant 1 <= k <= Chromosomes + 1 && r.status == Done
      invariant r == NestedPass(disk, outerDir, innerDir, useOuter, useInner, cmd, k - 1)
    {
      var outer := ListDir(disk, outerDir);
      if outer.Err? {
        r := Log(r.events, Failed(outer.error));
        NestedPassStopped(disk, outerDir, innerDir, useOuter, useInner, cmd, k, Chromosomes);
        return;
      }
      var pass := OuterLoop(disk, innerDir, outer.value, useOuter, useInner, cmd, k);
      r := Log(r.events + pass.events, pass.status);
      if pass.status.Failed? {
        NestedPassStopped(disk, outerDir, innerDir, useOuter, useInner, cmd, k, Chromosomes);
        return;
      }
      k := k + 1;
    }
  }

  // ---- the loops of single stages ----

  /** The chromosome loop of `clump` (lines 188-211). */
  method ClumpLoop(disk: FileSystem, d: Dirs, a: ClumpStage.ClumpArgs, withChr: bool) returns (events: seq<Event>)
    ensures events == ClumpStage.ClumpEvents(disk, d, a, withChr, Chromosomes)
  {
    events := [];
    var k := 1;
    while k <= Chromosomes
      invariant 1 <= k <= Chromosomes + 1
      invariant events == ClumpStage.ClumpEvents(disk, d, a, withChr, k - 1)
    {
      var bim := BimPrefix(d.bfiles, k, a.bfileName) + ".bim";
      if bim in disk {
        events := events + [Run(ClumpStage.ClumpCommand(d, a, withChr, k))];
      } else {
        events := events + [Skip(bim)];
      }
      k := k + 1;
    }
  }

  /** The loop over the VCF listing of `build_prs` for chromosome `k`
      (lines 318-337), with its `visited` set. */
  method ScanLoop(disk: FileSystem, d: Dirs, a: ScoringStage.ScoreArgs, k: nat, names: seq<string>,
                  visited0: set<string>) returns (events: seq<Event>, visited: set<string>)
    ensures ScoringStage.ScanFiles(disk, d, a, k, names, visited0) == ScoringStage.Scan(events, visited)
  {
    events := [];
    visited := visited0;
    var i := 0;
    while i < |names|
      invariant 0 <= i <= |names|
      invariant ScoringStage.ScanFiles(disk, d, a, k, names[..i], visited0) == ScoringStage.Scan(events, visited)
    {
      var name := names[i];
      assert names[..i + 1][..i] == names[..i];
      if ScoringStage.VcfMatches(name, a, k) {
        var qc := ScoringStage.QcFile(d, a, k);
        if qc in disk && qc !in visited {
          events := events + [Run(ScoringStage.ScoreCommand(d, a, name, k))];
        } else {
          events := events + [Skip(qc)];
        }
        visited := visited + {qc};
      }
      i := i + 1;
    }
    assert names[..i] == names;
  }

  /** The chromosome loop of `build_prs` (lines 313-340). */
  method ScoreLoop(disk: FileSystem, d: Dirs, a: ScoringStage.ScoreArgs) returns (p: ScoringStage.Pass)
    ensures p == ScoringStage.ScorePass(disk, d, a, Chromosomes)
  {
    p := ScoringStage.Pass([], {}, Done);
    var k := 1;
    while k <= Chromosomes
      invariant 1 <= k <= Chromosomes + 1 && p.status == Done
      invariant p == ScoringStage.ScorePass(disk, d, a, k - 1)
    {
      var vcfFiles := ListDir(disk, a.vcfInput);
      if vcfFiles.Err? {
        p := ScoringStage.Pass(p.events, p.visited, Failed(vcfFiles.error));
        ScoringStage.ScorePassStopped(disk, d, a, k, Chromosomes);
        return;
      }
      var events, visited := ScanLoop(disk, d, a, k, vcfFiles.value, p.visited);
      p := ScoringStage.Pass(p.events + events, visited, Done);
      k := k + 1;
    }
  }

  /** Lines 357-366 over the lines of one `.sscore` file: each data line is
      parsed and appended to its id's list in the `defaultdict` `table`; the
      first bad line raises. */
  method ParseLoop(lines: seq<seq<Token>>, rows0: seq<Contribution>, table0: Groups)
    returns (table: Groups, error: Option<Error>)
    requires table0 == GroupAll(rows0)
    ensures error.None? <==> ParseScoreLines(lines, |lines|).Ok?
    ensures error.Some? ==> ParseScoreLines(lines, |lines|) == Err(error.value)
    ensures error.None? ==>
      table == GroupAll(rows0 + ParseScoreLines(lines, |lines|).value)
  {
    table := table0;
    assert rows0 + ParseScoreLines(lines, 0).value == rows0;
    var m := 0;
    while m < |lines|
      invariant 0 <= m <= |lines|
      invariant ParseScoreLines(lines, m).Ok?
      invariant table == GroupAll(rows0 + ParseScoreLines(lines, m).value)
    {
      if m > 0 {
        var row := ParseScoreRow(lines[m], m);
        if row.Err? {
          ParseStopped(lines, m + 1, |lines|);
          return table, Some(row.error);
        }
        var x := row.value;
        ghost var before := rows0 + ParseScoreLines(lines, m).value;
        assert ParseScoreLines(lines, m + 1) == Ok(ParseScoreLines(lines, m).value + [x]);
        assert rows0 + ParseScoreLines(lines, m + 1).value == before + [x];
        GroupAllSnoc(before, x);
        ghost var next := AddRow(table, x);
        if x.id in table.lists {
          table := Groups(table.keys, table.lists[x.id := table.lists[x.id] + [(x.alleles, x.weighted)]]);
        } else {
          table := Groups(table.keys + [x.id], table.lists[x.id := [(x.alleles, x.weighted)]]);
        }
        assert table == next;
      }
      m := m + 1;
    }
    error := None;
  }

  /** The listing loop of `combine_prs` (lines 352-369). */
  method GatherLoop(disk: FileSystem, dir: string, names: seq<string>) returns (g: CombineStage.Gather, table: Groups)
    ensures g == CombineStage.GatherFiles(disk, dir, names)
    ensures g.status == Done ==> table == GroupAll(g.rows)
  {
    g := CombineStage.Gather([], [], Done);
    table := Groups([], map[]);
    var i := 0;
    while i < |names|
      invariant 0 <= i <= |names| && g.status == Done
      invariant g == CombineStage.GatherFiles(disk, dir, names[..i])
      invariant table == GroupAll(g.rows)
    {
      var name := names[i];
      var path := dir + "/" + name;
      assert names[..i + 1][..i] == names[..i];
      if EndsWith(name, ".sscore") {
        if path in disk {
          var read := ReadLines(disk, path);
          if read.Err? {
            g := CombineStage.Gather(g.events, g.rows, Failed(read.error));
            CombineStage.GatherFilesStopped(disk, dir, names, i + 1);
            return;
          }
          var error;
          table, error := ParseLoop(read.value, g.rows, table);
          if error.Some? {
            g := CombineStage.Gather(g.events, g.rows, Failed(error.value));
            CombineStage.GatherFilesStopped(disk, dir, names, i + 1);
            return;
          }
          g := CombineStage.Gather(g.events, g.rows + ParseScoreLines(read.value, |read.value|).value, Done);
        } else {
          g := CombineStage.Gather(g.events + [Skip(path)], g.rows, Done);
        }
      }
      i := i + 1;
    }
    assert names[..i] == names;
  }

  /** Lines 371-377: one row per key, in insertion order, with the sums of its list. */
  method SummaryLoop(table: Groups) returns (result: seq<ScoreRow>)
    requires forall key :: key in table.keys ==> key in table.lists
    ensures result == Summarise(table)
  {
    result := [];
    var j := 0;
    while j < |table.keys|
      invariant 0 <= j <= |table.keys|
      invariant result == Summarise(table)[..j]
    {
      var values := table.lists[table.keys[j]];
      result := result + [ScoreRow(table.keys[j], SumFirst(values), SumSecond(values))];
      j := j + 1;
    }
  }

  /** The counting loop of `prs_statistics` (lines 390-403). */
  method CountLoop(disk: FileSystem, d: Dirs, s: StatisticsStage.StatArgs) returns (c: StatisticsStage.Count)
    ensures c == StatisticsStage.CountSnps(disk, d, s, Chromosomes)
  {
    c := StatisticsStage.Count([], [], Done);
    var k := 1;
    while k <= Chromosomes
      invariant 1 <= k <= Chromosomes + 1 && c.status == Done
      invariant c == StatisticsStage.CountSnps(disk, d, s, k - 1)
    {
      var file := StatisticsStage.CountFile(d, s, k);
      if file in disk {
        var df := ReadTable(disk, file);
        if df.Err? {
          c := StatisticsStage.Count(c.events, c.lines, Failed(df.error));
          StatisticsStage.CountSnpsStopped(disk, d, s, k, Chromosomes);
          return;
        }
        c := StatisticsStage.Count(c.events, c.lines + [|df.value.rows|], Done);
      } else {
        c := StatisticsStage.Count(c.events + [Skip(file)], c.lines, Done);
      }
      k := k + 1;
    }
  }

  // ---- the object ----

  class GPRS {
    /** What exists on disk, and what it holds. */
    var fs: FileSystem
    /** Every command issued and every skip diagnostic printed so far. */
    var log: seq<Event>
    /** The reference VCF folder `self.ref`. */
    const ref: string
    /** The sub-directories of the result folder (lines 20-29). */
    const dirs: Dirs

    /** The object over an existing filesystem whose result folder resolves to `result`. */
    constructor (disk: FileSystem, ref: string, result: string)
      ensures fs == disk && log == [] && this.ref == ref && dirs == Layout(result)
    {
      fs := disk;
      log := [];
      this.ref := ref;
      dirs := Layout(result);
    }

    /** Record the outcome of a stage call. */
    method Apply(e: Effect) returns (status: Status)
      modifies this
      ensures fs == e.fs && log == old(log) + e.events && status == e.status
    {
      fs := e.fs;
      log := log + e.events;
      status := e.status;
    }

    /** `transfer_atcg` (lines 87-93). */
    method TransferAtcg(qcFileName: string) returns (status: Status)
      modifies this
      ensures var e := AtcgStage.TransferAtcgEffect(old(fs), dirs, qcFileName);
        fs == e.fs && log == old(log) + e.events && status == e.status
    {
      var path := AtcgStage.AtcgAt(dirs, qcFileName);
      var e := SweepLoop(Effect(fs, [], Done), path, path, AtcgStage.MakeUppered(dirs, qcFileName), false);
      status := Apply(e);
    }

    /** `generate_plink_bfiles` (lines 96-134). */
    method GeneratePlinkBfiles(a: BfileStage.BfileArgs) returns (status: Status)
      modifies this
      ensures var e := BfileStage.GenerateBfilesEffect(old(fs), ref, dirs, a);
        fs == e.fs && log == old(log) + e.events && status == e.status
    {
      var r := NestedLoop(fs, dirs.snplists, ref, BfileStage.UseSnplist(a), BfileStage.UseRef(a),
                          BfileStage.MakeBedAt(ref, dirs, a));
      status := Apply(Effect(fs, r.events, r.status));
    }

    /** `subset_pop` (lines 136-139). */
    method SubsetPop(input: string, column: string, pop: string, output: string) returns (status: Status)
      modifies this
      ensures var e := BfileStage.SubsetPopEffect(old(fs), input, column, pop, output);
        fs == e.fs && log == old(log) + e.events && status == e.status
    {
      var file := ReadTable(fs, input);
      if file.Err? {
        status := Apply(Effect(fs, [], Failed(file.error)));
        return;
      }
      var subset := SubsetPopulation(file.value, column, pop);
      if subset.Err? {
        status := Apply(Effect(fs, [], Failed(subset.error)));
        return;
      }
      var w := Write(fs, output, Frame(subset.value));
      if w.Err? {
        status := Apply(Effect(fs, [], Failed(w.error)));
        return;
      }
      status := Apply(Effect(w.value, [], Done));
    }

    /** `generate_plink_bfiles_w_individual_info` (lines 141-159). */
    method GeneratePlinkBfilesWithIndividualInfo(a: BfileStage.KeepArgs) returns (status: Status)
      modifies this
      ensures var e := BfileStage.KeepBfilesEffect(old(fs), dirs, a);
        fs == e.fs && log == old(log) + e.events && status == e.status
    {
      var r := NestedLoop(fs, dirs.pop, dirs.bfiles, BfileStage.UsePopfile(a), BfileStage.UseBfile(a),
                          BfileStage.KeepAt(dirs, a));
      status := Apply(Effect(fs, r.events, r.status));
    }

    /** `clump` with its `run_plink` (lines 161-212). */
    method Clump(a: ClumpStage.ClumpArgs) returns (status: Status)
      modifies this
      ensures var e := ClumpStage.ClumpEffect(old(fs), dirs, a);
        fs == e.fs && log == old(log) + e.events && status == e.status
    {
      var disk := MakeDir(fs, Join(dirs.clump, ClumpStage.Tag(a)));
      var qcFiles := ListDir(disk, dirs.qc);
      if qcFiles.Err? {
        status := Apply(Effect(disk, [], Failed(qcFiles.error)));
        return;
      }
      var events := ClumpLoop(disk, dirs, a, HasChrFile(qcFiles.value, a.qcFileName));
      status := Apply(Effect(disk, events, Done));
    }

    /** `select_clump_snps` with `generate_clumped_snplist` and
        `generate_qc_snplist` (lines 214-298). */
    method SelectClumpSnps(a: SelectStage.SelectArgs) returns (status: Status)
      modifies this
      ensures var e := SelectStage.SelectEffect(old(fs), dirs, a);
        fs == e.fs && log == old(log) + e.events && status == e.status
    {
      var disk := MakeDir(fs, TaggedFolder(dirs.clump, a.folder, SelectStage.Cond(a)));
      disk := MakeDir(disk, TaggedFolder(dirs.qcClump, a.folder, SelectStage.Cond(a)));
      var e1 := SweepLoop(Effect(disk, [], Done), SelectStage.ClumpedAt(dirs, a), SelectStage.SnplistAt(dirs, a),
                          SelectStage.MakeSnplist(dirs, a), true);
      if e1.status.Failed? {
        status := Apply(e1);
        return;
      }
      var qcFiles := ListDir(e1.fs, dirs.qc);
      if qcFiles.Err? {
        status := Apply(Effect(e1.fs, e1.events, Failed(qcFiles.error)));
        return;
      }
      var withChr := HasChrFile(qcFiles.value, a.qcFileName);
      var e2 := SweepLoop(e1, SelectStage.SnplistAt(dirs, a), SelectStage.ListOutAt(dirs, a),
                          SelectStage.MakeJoin(dirs, a, withChr), true);
      status := Apply(e2);
    }

    /** `build_prs` (lines 300-344). */
    method BuildPrs(a: ScoringStage.ScoreArgs) returns (status: Status)
      modifies this
      ensures var e := ScoringStage.BuildPrsEffect(old(fs), dirs, a);
        fs == e.fs && log == old(log) + e.events && status == e.status
    {
      var disk := MakeDir(fs, ScoringStage.ScoreFolder(dirs, a));
      var p := ScoreLoop(disk, dirs, a);
      status := Apply(Effect(disk, p.events, p.status));
    }

    /** `combine_prs` (lines 346-383). */
    method CombinePrs(c: CombineStage.CombineArgs) returns (status: Status)
      modifies this
      ensures var e := CombineStage.CombineEffect(old(fs), dirs, c);
        fs == e.fs && log == old(log) + e.events && status == e.status
    {
      var dir := CombineStage.ScoreDir(dirs, c);
      var listing := ListDir(fs, dir);
      if listing.Err? {
        status := Apply(Effect(fs, [], Failed(listing.error)));
        return;
      }
      var g, table := GatherLoop(fs, dir, listing.value);
      if g.status.Failed? {
        status := Apply(Effect(fs, g.events, g.status));
        return;
      }
      GroupAllIsPairs(g.rows);
      var result := SummaryLoop(table);
      var w := Write(fs, CombinedFile(dirs.prs, c.fileName, CombineStage.Cond(c)), Combined(CombineStage.Header, result));
      if w.Err? {
        status := Apply(Effect(fs, g.events, Failed(w.error)));
        return;
      }
      status := Apply(Effect(RemoveTree(w.value, dir), g.events, Done));
    }

    /** `prs_statistics` up to the statistics call (lines 386-410). */
    method PrsStatistics(s: StatisticsStage.StatArgs) returns (status: Status)
      modifies this
      ensures var e := StatisticsStage.StatisticsEffect(old(fs), dirs, s);
        fs == e.fs && log == old(log) + e.events && status == e.status
    {
      var c := CountLoop(fs, dirs, s);
      if c.status.Failed? {
        status := Apply(Effect(fs, c.events, c.status));
        return;
      }
      var last := if s.scoreFile in fs then Run(StatisticsStage.StatsCommand(dirs, s, StatisticsStage.Sum(c.lines)))
                  else Skip(s.scoreFile);
      status := Apply(Effect(fs, c.events + [last], Done));
    }
  }
}
