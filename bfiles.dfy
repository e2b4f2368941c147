/** The bfile generators and the population subset of `GPRS`
    (gprs/gprs.py:96-159): `generate_plink_bfiles` extracts SNP lists from
    reference VCFs, `subset_pop` filters a population table, and
    `generate_plink_bfiles_w_individual_info` keeps the individuals of a
    population file. */
module BfileStage {
  import opened Outcomes
  import opened Strings
  import opened Naming
  import opened Tables
  import opened Files
  import opened Nested

  // ---- generate_plink_bfiles (lines 96-134) ----

  /** The parameters of `generate_plink_bfiles`; the Python defaults are
      `symbol = "."` and `extra = " "`. */
  datatype BfileArgs = BfileArgs(snplistName: string, outputName: string, symbol: string, extra: string)

  /** Line 103. The condition reads `"chr" and X in snps`; the non-empty string
      `"chr"` is always true, so only the membership `X in snps` is tested. */
  predicate ChrSnplist(snps: string, a: BfileArgs, k: nat)
  {
    Contains(snps, Chr(k) + "_" + a.snplistName + ".csv")
  }

  /** Line 121: a SNP list without the chromosome token, used for every chromosome. */
  predicate PooledSnplist(snps: string, a: BfileArgs)
  {
    !Contains(snps, "chr") && Contains(snps, a.snplistName + ".csv")
  }

  /** A listed SNP list enters the reference loop for chromosome `k` (either branch). */
  predicate UsesSnplist(snps: string, a: BfileArgs, k: nat)
  {
    ChrSnplist(snps, a, k) || PooledSnplist(snps, a)
  }

  /** The reference VCF test of lines 108-110 and 123-124. */
  predicate RefMatches(name: string, a: BfileArgs, k: nat)
  {
    EndsWith(name, ".vcf.gz") && Chr(k) != "chrX" && Chr(k) != "chrY" && Chr(k) != "chrMT"
    && Contains(name, Chr(k) + a.symbol)
  }

  /** The `plink --make-bed` call of lines 112-119 (the same in both branches). */
  function MakeBedCommand(ref: string, d: Dirs, a: BfileArgs, snps: string, vcf: string, k: nat): Command
  {
    MakeBed(ref + "/" + vcf, d.snplists + "/" + snps, a.extra, BfileOut(d.bfiles, k, a.outputName))
  }

  function UseSnplist(a: BfileArgs): (string, nat) -> bool
  {
    (snps: string, k: nat) => UsesSnplist(snps, a, k)
  }

  function UseRef(a: BfileArgs): (string, nat) -> bool
  {
    (vcf: string, k: nat) => RefMatches(vcf, a, k)
  }

  function MakeBedAt(ref: string, d: Dirs, a: BfileArgs): (string, string, nat) -> Command
  {
    (snps: string, vcf: string, k: nat) => MakeBedCommand(ref, d, a, snps, vcf, k)
  }

  /** The whole call: for each chromosome list the SNP list folder, and for each
      list it uses list the reference folder `ref` (the constructor's `ref`). */
  function GenerateBfilesEffect(fs: FileSystem, ref: string, d: Dirs, a: BfileArgs): Effect
  {
    var r := NestedPass(fs, d.snplists, ref, UseSnplist(a), UseRef(a), MakeBedAt(ref, d, a), Chromosomes);
    Effect(fs, r.events, r.status)
  }

  /** What `generate_plink_bfiles` does: it changes no file; it fails exactly
      when the SNP list folder cannot be listed, or some chromosome uses a list
      and the reference folder cannot be listed, having then issued nothing;
      otherwise, for each chromosome k, it issues one `--make-bed` call per pair
      of a list it uses and a reference VCF it matches, outer-major, every one
      of them writing `{bfiles}/chr{k}_{output}`. */
  lemma GenerateBfilesBehaviour(fs: FileSystem, ref: string, d: Dirs, a: BfileArgs)
    ensures var e := GenerateBfilesEffect(fs, ref, d, a);
      e.fs == fs
      && (e.status == Done <==>
            ListDir(fs, d.snplists).Ok?
            && (ListDir(fs, ref).Ok? || NoneSelected(Listing(fs, d.snplists), UseSnplist(a), Chromosomes)))
      && (e.status.Failed? ==> e.events == [])
      && (e.status == Done ==>
            e.events == NestedEvents(Listing(fs, d.snplists), Listing(fs, ref), UseSnplist(a), UseRef(a),
                                     MakeBedAt(ref, d, a), Chromosomes))
  {
    NestedPassResult(fs, d.snplists, ref, UseSnplist(a), UseRef(a), MakeBedAt(ref, d, a), Chromosomes);
  }

  /** The commands chromosome k adds: every pair of a used SNP list and a
      matching VCF, once each, all writing the same bfile prefix, so with more
      than one pair the later calls overwrite the earlier output. A pooled list
      is used for every chromosome. */
  lemma MakeBedRuns(snplists: seq<string>, refs: seq<string>, ref: string, d: Dirs, a: BfileArgs, k: nat)
    ensures var xs := Selected(snplists, UseSnplist(a), k);
      var ys := Selected(refs, UseRef(a), k);
      var es := Cross(xs, ys, MakeBedAt(ref, d, a), k);
      |es| == |xs| * |ys|
      && (forall e :: e in es <==>
            exists snps, vcf :: snps in snplists && UsesSnplist(snps, a, k) && vcf in refs && RefMatches(vcf, a, k)
                                && e == Run(MakeBedCommand(ref, d, a, snps, vcf, k)))
      && (forall e :: e in es ==> e.Run? && e.command.MakeBed? && e.command.out == BfileOut(d.bfiles, k, a.outputName))
      && (forall snps :: snps in snplists && PooledSnplist(snps, a) ==> snps in xs)
  {
    var xs := Selected(snplists, UseSnplist(a), k);
    var ys := Selected(refs, UseRef(a), k);
    SelectedMembers(snplists, UseSnplist(a), k);
    SelectedMembers(refs, UseRef(a), k);
    CrossMembers(xs, ys, MakeBedAt(ref, d, a), k);
    forall snps | snps in snplists
      ensures snps in xs <==> UsesSnplist(snps, a, k)
    {
      assert UseSnplist(a)(snps, k) == UsesSnplist(snps, a, k);
    }
    forall vcf | vcf in refs
      ensures vcf in ys <==> RefMatches(vcf, a, k)
    {
      assert UseRef(a)(vcf, k) == RefMatches(vcf, a, k);
    }
  }

  /** The exclusions of chromosomes X, Y and MT never reject a chromosome of the loop. */
  lemma RefMatchesAutosome(name: string, a: BfileArgs, k: nat)
    ensures RefMatches(name, a, k) <==> EndsWith(name, ".vcf.gz") && Contains(name, Chr(k) + a.symbol)
  {
    ChrIsAutosome(k);
  }

  // ---- subset_pop (lines 136-139) ----

  /** Read the table, keep the rows whose `column` is `pop`, write them to `output`. */
  function SubsetPopEffect(fs: FileSystem, input: string, column: string, pop: string, output: string): Effect
  {
    match ReadTable(fs, input)
    case Err(e) => Effect(fs, [], Failed(e))
    case Ok(t) =>
      match SubsetPopulation(t, column, pop)
      case Err(e) => Effect(fs, [], Failed(e))
      case Ok(r) =>
        match Write(fs, output, Frame(r))
        case Err(e) => Effect(fs, [], Failed(e))
        case Ok(fs') => Effect(fs', [], Done)
  }

  /** `subset_pop` fails, changing nothing, exactly when the input does not
      read, lacks the column, or the output cannot be written (a folder, or a
      path whose folder is missing); otherwise the output holds the input's columns
      and exactly its rows whose column is `pop`, and nothing else changes. */
  lemma SubsetPopBehaviour(fs: FileSystem, input: string, column: string, pop: string, output: string)
    ensures var e := SubsetPopEffect(fs, input, column, pop, output);
      e.events == []
      && (e.status == Done <==> ReadTable(fs, input).Ok? && column in ReadTable(fs, input).value.columns
                                && Writable(fs, output))
      && (e.status.Failed? && ReadTable(fs, input).Ok? && column in ReadTable(fs, input).value.columns ==>
            e.status.error == WriteError(fs, output).value)
      && (e.status.Failed? ==> e.fs == fs)
      && (e.status == Done ==>
            var t := ReadTable(fs, input).value;
            output in e.fs && e.fs[output].Frame? && e.fs[output].table.columns == t.columns
            && (forall row :: row in e.fs[output].table.rows <==>
                  row in t.rows && At(row, IndexOf(t.columns, column).value) == Str(pop))
            && (forall p :: p != output ==> (p in e.fs <==> p in fs) && (p in fs ==> e.fs[p] == fs[p])))
  {
  }

  // ---- generate_plink_bfiles_w_individual_info (lines 141-159) ----

  datatype KeepArgs = KeepArgs(popfileName: string, bfileName: string, outputName: string)

  /** Line 147: the population file, independent of the chromosome. */
  function UsePopfile(a: KeepArgs): (string, nat) -> bool
  {
    (j: string, k: nat) => Contains(j, a.popfileName + ".txt")
  }

  /** Line 150: any listed bfile part whose name holds `chr{k}_{bfile}`. */
  function UseBfile(a: KeepArgs): (string, nat) -> bool
  {
    (i: string, k: nat) => Contains(i, Chr(k) + "_" + a.bfileName)
  }

  /** The `plink --keep` call of lines 151-157, on the listed name cut at its first dot. */
  function KeepCommand(d: Dirs, a: KeepArgs, j: string, i: string, k: nat): Command
  {
    KeepBed(d.bfiles + "/" + BeforeFirstDot(i), d.pop + "/" + j, BfileOut(d.bfiles, k, a.outputName))
  }

  function KeepAt(d: Dirs, a: KeepArgs): (string, string, nat) -> Command
  {
    (j: string, i: string, k: nat) => KeepCommand(d, a, j, i, k)
  }

  /** The whole call: for each chromosome list the population folder, and for
      each population file list the bfile folder. */
  function KeepBfilesEffect(fs: FileSystem, d: Dirs, a: KeepArgs): Effect
  {
    var r := NestedPass(fs, d.pop, d.bfiles, UsePopfile(a), UseBfile(a), KeepAt(d, a), Chromosomes);
    Effect(fs, r.events, r.status)
  }

  /** What `generate_plink_bfiles_w_individual_info` does: it changes no file;
      it fails, having issued nothing, exactly when the population folder
      cannot be listed or a population file is listed and the bfile folder
      cannot be; otherwise it logs one `--keep` call per chromosome, population
      file and matching bfile part. */
  lemma KeepBfilesBehaviour(fs: FileSystem, d: Dirs, a: KeepArgs)
    ensures var e := KeepBfilesEffect(fs, d, a);
      e.fs == fs
      && (e.status == Done <==>
            ListDir(fs, d.pop).Ok?
            && (ListDir(fs, d.bfiles).Ok? || NoneSelected(Listing(fs, d.pop), UsePopfile(a), Chromosomes)))
      && (e.status.Failed? ==> e.events == [])
      && (e.status == Done ==>
            e.events == NestedEvents(Listing(fs, d.pop), Listing(fs, d.bfiles), UsePopfile(a), UseBfile(a),
                                     KeepAt(d, a), Chromosomes))
  {
    NestedPassResult(fs, d.pop, d.bfiles, UsePopfile(a), UseBfile(a), KeepAt(d, a), Chromosomes);
  }

  /** A part `chr{k}_{bfile}.{ext}` of a bfile whose name has no dot matches
      chromosome k and is cut back to `chr{k}_{bfile}`. */
  lemma BfilePart(a: KeepArgs, k: nat, ext: string)
    requires '.' !in a.bfileName
    ensures var stem := Chr(k) + "_" + a.bfileName;
      UseBfile(a)(stem + "." + ext, k) && BeforeFirstDot(stem + "." + ext) == stem
  {
    var stem := Chr(k) + "_" + a.bfileName;
    var s := stem + "." + ext;
    assert s[..|stem|] == stem;
    assert '.' !in Chr(k) by {
      assert forall i :: 3 <= i < |Chr(k)| ==> Chr(k)[i] == NatToString(k)[i - 3];
    }
    assert '.' !in stem;
    BeforeFirstDotOfExtension(stem, ext);
  }

  /** The listed parts `chr{k}_{bfile}.{ext}` of one bfile, one per extension. */
  function BfileParts(a: KeepArgs, k: nat, exts: seq<string>): seq<string>
  {
    seq(|exts|, i requires 0 <= i < |exts| => Chr(k) + "_" + a.bfileName + "." + exts[i])
  }

  /** Every part matches chromosome k and yields the call on the bfile `chr{k}_{bfile}`. */
  lemma PartsSelected(d: Dirs, a: KeepArgs, j: string, k: nat, exts: seq<string>)
    requires '.' !in a.bfileName
    ensures var parts := BfileParts(a, k, exts);
      Selected(parts, UseBfile(a), k) == parts
      && forall i :: 0 <= i < |parts| ==>
           KeepAt(d, a)(j, parts[i], k)
             == KeepBed(d.bfiles + "/" + Chr(k) + "_" + a.bfileName, d.pop + "/" + j, BfileOut(d.bfiles, k, a.outputName))
  {
    var parts := BfileParts(a, k, exts);
    forall i | 0 <= i < |parts|
      ensures UseBfile(a)(parts[i], k)
      ensures KeepAt(d, a)(j, parts[i], k)
           == KeepBed(d.bfiles + "/" + Chr(k) + "_" + a.bfileName, d.pop + "/" + j, BfileOut(d.bfiles, k, a.outputName))
    {
      BfilePart(a, k, exts[i]);
    }
    SelectedAll(parts, UseBfile(a), k);
  }

  /** The bfiles `generate_plink_bfiles` writes feed
      `generate_plink_bfiles_w_individual_info`: every part
      `{bfiles}/chr{k}_{output}.{ext}` of a bfile written with `--out
      {bfiles}/chr{k}_{output}` is listed under a name that chromosome k uses,
      and the `--keep` call reads it back through that very prefix. */
  lemma GeneratedBfilesFeedKeep(d: Dirs, gen: BfileArgs, keep: KeepArgs, popfile: string, k: nat, ext: string)
    requires keep.bfileName == gen.outputName && '.' !in gen.outputName
    ensures var name := Chr(k) + "_" + gen.outputName + "." + ext;
      d.bfiles + "/" + name == BfileOut(d.bfiles, k, gen.outputName) + "." + ext
      && UseBfile(keep)(name, k)
      && KeepCommand(d, keep, popfile, name, k).bfile == BfileOut(d.bfiles, k, gen.outputName)
  {
    BfilePart(keep, k, ext);
  }

  /** Every part of a bfile matches: with the parts `chr{k}_{bfile}.{ext}`
      listed (`.bed`, `.bim`, `.fam`) and one population file, chromosome k
      issues the same `--keep` call once per part. */
  lemma KeepBedPerPart(d: Dirs, a: KeepArgs, j: string, k: nat, exts: seq<string>)
    requires '.' !in a.bfileName && UsePopfile(a)(j, k)
    ensures var c := KeepBed(d.bfiles + "/" + Chr(k) + "_" + a.bfileName, d.pop + "/" + j,
                             BfileOut(d.bfiles, k, a.outputName));
      Cross(Selected([j], UsePopfile(a), k), Selected(BfileParts(a, k, exts), UseBfile(a), k), KeepAt(d, a), k)
        == seq(|exts|, _ => Run(c))
  {
    var c := KeepBed(d.bfiles + "/" + Chr(k) + "_" + a.bfileName, d.pop + "/" + j, BfileOut(d.bfiles, k, a.outputName));
    PartsSelected(d, a, j, k, exts);
    assert Selected([j], UsePopfile(a), k) == [j] by {
      assert [j][..0] == [];
    }
    CrossConstant(j, BfileParts(a, k, exts), KeepAt(d, a), k, c);
  }
}
