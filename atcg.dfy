/** `GPRS.transfer_atcg` (gprs/gprs.py:87-93): rewrite the allele column of
    each per-chromosome QC table through the lower-to-upper letter map. Unlike
    the other passes, a missing table is not skipped: reading it raises. */
module AtcgStage {
  import opened Outcomes
  import opened Naming
  import opened Tables
  import opened Files
  import opened Sweeps

  /** The table read and rewritten for chromosome `k` (lines 90, 92). */
  function AtcgPath(d: Dirs, name: string, k: nat): string
  {
    AtcgFile(d.qc, k, name)
  }

  /** Read the table of chromosome `k` and map its alleles. */
  function Uppered(fs: FileSystem, d: Dirs, name: string, k: nat): Result<Table>
  {
    match ReadTable(fs, AtcgPath(d, name, k))
    case Err(e) => Err(e)
    case Ok(t) => TransferAlleles(t)
  }

  function AtcgAt(d: Dirs, name: string): nat -> string
  {
    (k: nat) => AtcgPath(d, name, k)
  }

  function MakeUppered(d: Dirs, name: string): (FileSystem, nat) -> Result<Table>
  {
    (fs: FileSystem, k: nat) => Uppered(fs, d, name, k)
  }

  /** The whole call: chromosomes 1 .. 22, each table rewritten in place. */
  function TransferAtcgEffect(fs: FileSystem, d: Dirs, name: string): Effect
  {
    Sweep(Effect(fs, [], Done), AtcgAt(d, name), AtcgAt(d, name), MakeUppered(d, name), false, Chromosomes)
  }

  /** Distinct chromosomes rewrite distinct tables. */
  lemma AtcgPathDistinct(d: Dirs, name: string, j: nat, k: nat)
    requires j != k
    ensures AtcgPath(d, name, j) != AtcgPath(d, name, k)
  {
    assert AtcgPath(d, name, j) == (d.qc + "/") + Chr(j) + ("_" + name + ".QC.csv");
    assert AtcgPath(d, name, k) == (d.qc + "/") + Chr(k) + ("_" + name + ".QC.csv");
    if AtcgPath(d, name, j) == AtcgPath(d, name, k) {
      ChrSlotInjective(d.qc + "/", j, k, "_" + name + ".QC.csv");
    }
  }

  /** A chromosome's rewrite does not change what a later chromosome reads. */
  lemma AtcgIndependent(d: Dirs, name: string)
    ensures Independent(AtcgAt(d, name), AtcgAt(d, name), MakeUppered(d, name))
  {
    forall j: nat, k: nat | j < k
      ensures AtcgPath(d, name, j) != AtcgPath(d, name, k)
    {
      AtcgPathDistinct(d, name, j, k);
    }
    forall j: nat, k: nat, fs: FileSystem, t: Table | j < k
      ensures Uppered(fs[AtcgPath(d, name, j) := Frame(t)], d, name, k) == Uppered(fs, d, name, k)
    {
      AtcgPathDistinct(d, name, j, k);
    }
  }

  /** Table `k` reads, has an `Allele` column, and can be written back. */
  predicate Rewritable(fs: FileSystem, d: Dirs, name: string, k: nat)
  {
    Uppered(fs, d, name, k).Ok? && Writable(fs, AtcgPath(d, name, k))
  }

  /** The pass runs to its end exactly when all 22 tables exist, read, have
      an `Allele` column and can be written back. */
  lemma AtcgStatus(fs: FileSystem, d: Dirs, name: string)
    ensures TransferAtcgEffect(fs, d, name).status == Done
        <==> forall k :: 1 <= k <= Chromosomes ==> Rewritable(fs, d, name, k)
  {
    var src := AtcgAt(d, name);
    var make := MakeUppered(d, name);
    AtcgIndependent(d, name);
    SweepStatus(Effect(fs, [], Done), src, src, make, false, Chromosomes);
    forall k | 1 <= k <= Chromosomes
      ensures (Taken(fs, src, false, k) ==> Makes(fs, src, make, k)) <==> Rewritable(fs, d, name, k)
    {
      assert make(fs, k) == Uppered(fs, d, name, k) && src(k) == AtcgPath(d, name, k);
    }
  }

  /** After a completed pass, table k holds the letter map of its original. */
  lemma AtcgWritten(fs: FileSystem, d: Dirs, name: string, k: nat)
    requires TransferAtcgEffect(fs, d, name).status == Done && 1 <= k <= Chromosomes
    ensures var e := TransferAtcgEffect(fs, d, name);
      Uppered(fs, d, name, k).Ok? && AtcgPath(d, name, k) in e.fs
        && e.fs[AtcgPath(d, name, k)] == Frame(Uppered(fs, d, name, k).value)
  {
    var src := AtcgAt(d, name);
    var make := MakeUppered(d, name);
    AtcgIndependent(d, name);
    assert Taken(fs, src, false, k);
    SweepWritten(Effect(fs, [], Done), src, src, make, false, Chromosomes, k);
    assert src(k) == AtcgPath(d, name, k) && make(fs, k) == Uppered(fs, d, name, k);
  }

  /** A completed pass leaves every other path as it was. */
  lemma AtcgKeeps(fs: FileSystem, d: Dirs, name: string, p: string)
    requires TransferAtcgEffect(fs, d, name).status == Done
    requires forall k :: 1 <= k <= Chromosomes ==> p != AtcgPath(d, name, k)
    ensures var e := TransferAtcgEffect(fs, d, name);
      (p in e.fs <==> p in fs) && (p in fs ==> e.fs[p] == fs[p])
  {
    var src := AtcgAt(d, name);
    AtcgIndependent(d, name);
    forall k | 1 <= k <= Chromosomes
      ensures p != src(k)
    {
      assert src(k) == AtcgPath(d, name, k);
    }
    SweepKeeps(Effect(fs, [], Done), src, src, MakeUppered(d, name), false, Chromosomes, p);
  }

  /** What `transfer_atcg` does: it logs nothing; it runs to its end exactly
      when every one of the 22 tables exists, reads, has an `Allele` column
      and can be written back;
      then each table holds the letter map of its original, and every other
      path is as it was. */
  lemma TransferAtcgBehaviour(fs: FileSystem, d: Dirs, name: string)
    ensures var e := TransferAtcgEffect(fs, d, name);
      e.events == []
      && (e.status == Done <==> forall k :: 1 <= k <= Chromosomes ==> Rewritable(fs, d, name, k))
      && (e.status == Done ==>
            (forall k :: 1 <= k <= Chromosomes ==>
                  Uppered(fs, d, name, k).Ok? && AtcgPath(d, name, k) in e.fs
                  && e.fs[AtcgPath(d, name, k)] == Frame(Uppered(fs, d, name, k).value))
            && (forall p :: (forall k :: 1 <= k <= Chromosomes ==> p != AtcgPath(d, name, k)) ==>
                  (p in e.fs <==> p in fs) && (p in fs ==> e.fs[p] == fs[p])))
  {
    SweepSilent(Effect(fs, [], Done), AtcgAt(d, name), AtcgAt(d, name), MakeUppered(d, name), Chromosomes);
    AtcgStatus(fs, d, name);
    var e := TransferAtcgEffect(fs, d, name);
    if e.status == Done {
      AtcgAllWritten(fs, d, name, e);
      AtcgAllKept(fs, d, name, e);
    }
  }

  lemma AtcgAllWritten(fs: FileSystem, d: Dirs, name: string, e: Effect)
    requires e == TransferAtcgEffect(fs, d, name) && e.status == Done
    ensures forall k :: 1 <= k <= Chromosomes ==>
      Uppered(fs, d, name, k).Ok? && AtcgPath(d, name, k) in e.fs
        && e.fs[AtcgPath(d, name, k)] == Frame(Uppered(fs, d, name, k).value)
  {
    forall k | 1 <= k <= Chromosomes
      ensures Uppered(fs, d, name, k).Ok? && AtcgPath(d, name, k) in e.fs
        && e.fs[AtcgPath(d, name, k)] == Frame(Uppered(fs, d, name, k).value)
    {
      AtcgWritten(fs, d, name, k);
    }
  }

  lemma AtcgAllKept(fs: FileSystem, d: Dirs, name: string, e: Effect)
    requires e == TransferAtcgEffect(fs, d, name) && e.status == Done
    ensures forall p :: (forall k :: 1 <= k <= Chromosomes ==> p != AtcgPath(d, name, k)) ==>
      (p in e.fs <==> p in fs) && (p in fs ==> e.fs[p] == fs[p])
  {
    forall p | forall k :: 1 <= k <= Chromosomes ==> p != AtcgPath(d, name, k)
      ensures (p in e.fs <==> p in fs) && (p in fs ==> e.fs[p] == fs[p])
    {
      AtcgKeeps(fs, d, name, p);
    }
  }

  /** Every table holds an `Allele` column and no allele. */
  ghost predicate AllelesMissing(fs: FileSystem, d: Dirs, name: string)
  {
    forall k :: 1 <= k <= Chromosomes ==>
      var p := AtcgPath(d, name, k);
      p in fs && fs[p].Frame? && "Allele" in fs[p].table.columns
      && forall r :: 0 <= r < |fs[p].table.rows| ==>
           At(fs[p].table.rows[r], IndexOf(fs[p].table.columns, "Allele").value) == NA
  }

  /** After a completed pass every table can be rewritten once more. */
  lemma SecondPassRuns(fs: FileSystem, d: Dirs, name: string, e1: Effect)
    requires e1 == TransferAtcgEffect(fs, d, name) && e1.status == Done
    ensures TransferAtcgEffect(e1.fs, d, name).status == Done
  {
    forall k | 1 <= k <= Chromosomes
      ensures Rewritable(e1.fs, d, name, k)
    {
      RewritableAgain(fs, d, name, k);
    }
    AtcgStatus(e1.fs, d, name);
  }

  /** Table `k` of a completed pass reads again, still has its `Allele`
      column, and can still be written. */
  lemma RewritableAgain(fs: FileSystem, d: Dirs, name: string, k: nat)
    requires TransferAtcgEffect(fs, d, name).status == Done && 1 <= k <= Chromosomes
    ensures Rewritable(TransferAtcgEffect(fs, d, name).fs, d, name, k)
  {
    var e1 := TransferAtcgEffect(fs, d, name);
    var p := AtcgPath(d, name, k);
    AtcgStatus(fs, d, name);
    assert Rewritable(fs, d, name, k);
    AtcgWritten(fs, d, name, k);
    var t := Uppered(fs, d, name, k).value;
    assert ReadTable(e1.fs, p) == Ok(t);
    assert "Allele" in t.columns;
    SweepKeepsWritable(Effect(fs, [], Done), AtcgAt(d, name), AtcgAt(d, name), MakeUppered(d, name), false,
                       Chromosomes, p);
  }

  /** Table `k` after two completed passes has every allele missing. */
  lemma MissingAfterTwo(fs: FileSystem, d: Dirs, name: string, k: nat)
    requires TransferAtcgEffect(fs, d, name).status == Done && 1 <= k <= Chromosomes
    requires TransferAtcgEffect(TransferAtcgEffect(fs, d, name).fs, d, name).status == Done
    ensures var e2 := TransferAtcgEffect(TransferAtcgEffect(fs, d, name).fs, d, name);
      var p := AtcgPath(d, name, k);
      p in e2.fs && e2.fs[p].Frame? && "Allele" in e2.fs[p].table.columns
      && forall r :: 0 <= r < |e2.fs[p].table.rows| ==>
           At(e2.fs[p].table.rows[r], IndexOf(e2.fs[p].table.columns, "Allele").value) == NA
  {
    var e1 := TransferAtcgEffect(fs, d, name);
    AtcgWritten(fs, d, name, k);
    AtcgWritten(e1.fs, d, name, k);
    TransferAllelesTwice(ReadTable(fs, AtcgPath(d, name, k)).value);
  }

  /** Running `transfer_atcg` twice succeeds and leaves every allele of every
      table missing: the second pass maps the upper-case letters to `None`. */
  lemma TransferAtcgTwice(fs: FileSystem, d: Dirs, name: string)
    requires TransferAtcgEffect(fs, d, name).status == Done
    ensures var e2 := TransferAtcgEffect(TransferAtcgEffect(fs, d, name).fs, d, name);
      e2.status == Done && AllelesMissing(e2.fs, d, name)
  {
    var e1 := TransferAtcgEffect(fs, d, name);
    SecondPassRuns(fs, d, name, e1);
    var e2 := TransferAtcgEffect(e1.fs, d, name);
    forall k | 1 <= k <= Chromosomes
      ensures var p := AtcgPath(d, name, k);
        p in e2.fs && e2.fs[p].Frame? && "Allele" in e2.fs[p].table.columns
        && forall r :: 0 <= r < |e2.fs[p].table.rows| ==>
             At(e2.fs[p].table.rows[r], IndexOf(e2.fs[p].table.columns, "Allele").value) == NA
    {
      MissingAfterTwo(fs, d, name, k);
    }
  }
}
