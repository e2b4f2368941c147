/** The naming convention that ties the stages together: every artifact path
    is a fixed string built from a result sub-directory, a clump-condition tag
    and a chromosome token. One function per format string of gprs/gprs.py. */
module Naming {
  import opened Strings

  /** The chromosomes every stage loops over: Python's `range(1, 23)`. */
  const Chromosomes: nat := 22

  /** The result tree: one path per sub-directory, fixed by the constructor. */
  datatype Dirs = Dirs(
    result: string, plink: string, pop: string, stat: string, bfiles: string,
    clump: string, prs: string, qc: string, snplists: string, qcClump: string)

  /** `"{}/{}".format(dir, name)`. */
  function Join(dir: string, name: string): string
  {
    dir + "/" + name
  }

  /** The sub-directories of the resolved result directory `result`. */
  function Layout(result: string): Dirs
  {
    var plink := Join(result, "plink");
    Dirs(result, plink, Join(result, "pop"), Join(result, "stat"), Join(plink, "bfiles"),
         Join(plink, "clump"), Join(plink, "prs"), Join(result, "qc"), Join(result, "snplists"),
         Join(plink, "qc_and_clump_snpslist"))
  }

  /** No two sub-directories of the layout coincide, so no stage writes into
      another stage's directory by accident. */
  lemma LayoutDistinct(result: string)
    ensures var d := Layout(result);
      var all := [d.result, d.plink, d.pop, d.stat, d.bfiles, d.clump, d.prs, d.qc, d.snplists, d.qcClump];
      forall i, j :: 0 <= i < j < |all| ==> all[i] != all[j]
  {
  }

  /** The chromosome token `chr{N}`. */
  function Chr(n: nat): string
  {
    "chr" + NatToString(n)
  }

  /** Distinct chromosomes have distinct tokens. */
  lemma ChrInjective(m: nat, n: nat)
    requires Chr(m) == Chr(n)
    ensures m == n
  {
    assert NatToString(m) == Chr(m)[3..];
    assert NatToString(n) == Chr(n)[3..];
    NatToStringInjective(m, n);
  }

  /** A path that holds the chromosome token between a fixed prefix and a fixed
      suffix names a different file for each chromosome. */
  lemma ChrSlotInjective(a: string, m: nat, n: nat, b: string)
    requires a + Chr(m) + b == a + Chr(n) + b
    ensures m == n
  {
    InfixInjective(a, Chr(m), Chr(n), b);
    ChrInjective(m, n);
  }

  /** The exclusions `chrnb != "chrX"`, `"chrY"`, `"chrMT"`, `"wgs"` at lines 109,
      124 and 320 hold for every chromosome the loops produce. */
  lemma ChrIsAutosome(n: nat)
    ensures Chr(n) != "chrX" && Chr(n) != "chrY" && Chr(n) != "chrMT" && Chr(n) != "wgs"
  {
    var s := Chr(n);
    if |s| == 4 {
      assert IsDigit(s[3]);
    }
    if |s| == 5 {
      assert IsDigit(s[3]);
    }
  }

  /** The condition tag `{kb}_{p1}_{r2}`. */
  function Conditions(kb: string, p1: string, r2: string): string
  {
    kb + "_" + p1 + "_" + r2
  }

  /** The clump tag `{output}_{kb}_{p1}_{r2}` (line 164). */
  function ClumpTag(outputName: string, kb: string, p1: string, r2: string): string
  {
    outputName + "_" + kb + "_" + p1 + "_" + r2
  }

  /** Every folder-plus-conditions path elsewhere: `{dir}/{name}_{conditions}`
      (lines 219, 224, 306, 349). */
  function TaggedFolder(dir: string, name: string, conditions: string): string
  {
    dir + "/" + name + "_" + conditions
  }

  /** The clump output prefix for chromosome N: `{clump}/{tag}/chr{N}_{tag}` (lines 193, 205). */
  function ClumpOut(clumpDir: string, tag: string, n: nat): string
  {
    clumpDir + "/" + tag + "/" + Chr(n) + "_" + tag
  }

  /** The bfile prefix probed by `clump`: `"{bfiles}/chr{N}_{bfile}.bim".split(".")[0]` (line 194). */
  function BimPrefix(bfilesDir: string, n: nat, bfileName: string): string
  {
    BeforeFirstDot(bfilesDir + "/" + Chr(n) + "_" + bfileName + ".bim")
  }

  /** The QC file name given to `plink --clump` (lines 192, 204). */
  function ClumpQcName(qcFileName: string, n: nat, withChr: bool): string
  {
    if withChr then Chr(n) + "_" + qcFileName + ".QC.csv" else qcFileName + ".QC.csv"
  }

  /** The `.clumped` table `select_clump_snps` reads (line 244). */
  function ClumpedFile(clumpDir: string, folder: string, file: string, conditions: string, n: nat): string
  {
    clumpDir + "/" + folder + "_" + conditions + "/" + Chr(n) + "_" + file + "_" + conditions + ".clumped"
  }

  /** The clumped SNP list written in step 1 and read in step 2 (lines 236, 270, 286). */
  function ClumpedSnplist(clumpDir: string, folder: string, file: string, conditions: string, n: nat): string
  {
    clumpDir + "/" + folder + "_" + conditions + "/" + Chr(n) + "_" + file + "_" + conditions + "_clumped_snplist.csv"
  }

  /** The QC table joined in step 2 (lines 275, 292). */
  function SelectQcFile(qcDir: string, qcFileName: string, n: nat, withChr: bool): string
  {
    if withChr then qcDir + "/" + Chr(n) + "_" + qcFileName + ".QC.csv" else qcDir + "/" + qcFileName + ".QC.csv"
  }

  /** The output stem of step 2 (lines 276, 291). */
  function SelectOutputName(n: nat, outputName: string, conditions: string): string
  {
    Chr(n) + "_" + outputName + "_" + conditions
  }

  /** The QC-and-clump SNP list written by step 2 (line 260). */
  function QcClumpOut(qcClumpDir: string, folder: string, conditions: string, output: string): string
  {
    qcClumpDir + "/" + folder + "_" + conditions + "/" + output + ".qc_clump_snpslist.csv"
  }

  /** The scoring input `build_prs` looks for (lines 322-324). */
  function PrsQcFile(qcClumpDir: string, folder: string, conditions: string, n: nat): string
  {
    qcClumpDir + "/" + folder + "_" + conditions + "/" + Chr(n) + "_" + folder + "_" + conditions + ".qc_clump_snpslist.csv"
  }

  /** The `plink2 --out` prefix of `build_prs` (lines 330-332). */
  function PrsOut(prsDir: string, outputName: string, conditions: string, n: nat): string
  {
    prsDir + "/" + outputName + "_" + conditions + "/" + Chr(n) + "_" + outputName + "_" + conditions
  }

  /** The combined score file (line 380). */
  function CombinedFile(prsDir: string, fileName: string, conditions: string): string
  {
    prsDir + "/" + fileName + "_" + conditions + "_combined.sscore"
  }

  /** The per-chromosome SNP list counted by `prs_statistics` (line 392). */
  function StatSnplist(qcClumpDir: string, dataSetName: string, conditions: string, n: nat): string
  {
    qcClumpDir + "/" + dataSetName + "_" + conditions + "/chr" + NatToString(n) + "_" + dataSetName + "_" + conditions + ".qc_clump_snpslist.csv"
  }

  /** The bfile output prefix of both bfile generators (lines 117-119, 156-157). */
  function BfileOut(bfilesDir: string, n: nat, outputName: string): string
  {
    bfilesDir + "/" + Chr(n) + "_" + outputName
  }

  /** The per-chromosome QC table `transfer_atcg` rewrites (lines 90, 92). */
  function AtcgFile(qcDir: string, n: nat, qcFileName: string): string
  {
    qcDir + "/" + Chr(n) + "_" + qcFileName + ".QC.csv"
  }

  /** The probe of lines 187 and 266: does some file of the QC listing name both
      "chr" and the QC file name? Evaluated once per call, it fixes the naming
      branch for all 22 chromosomes. */
  function HasChrFile(names: seq<string>, qcFileName: string): (b: bool)
    ensures b <==> exists i :: 0 <= i < |names| && Contains(names[i], "chr") && Contains(names[i], qcFileName)
    decreases |names|
  {
    if names == [] then false
    else
      var rest := HasChrFile(names[1..], qcFileName);
      assert forall i :: 0 <= i < |names| - 1 ==> names[1..][i] == names[i + 1];
      (Contains(names[0], "chr") && Contains(names[0], qcFileName)) || rest
  }

  // ---- agreement between the stages ----

  /** The clump tag is the folder tag `{name}_{conditions}` of the later stages
      with the clump output name as the folder name. */
  lemma ClumpTagIsFolderTag(outputName: string, kb: string, p1: string, r2: string)
    ensures ClumpTag(outputName, kb, p1, r2) == outputName + "_" + Conditions(kb, p1, r2)
  {
  }

  /** The `.clumped` table `select_clump_snps` reads is the one `clump` writes
      (plink appends `.clumped` to `--out`) when the folder and file names are
      the clump output name and the conditions agree. */
  lemma ClumpFeedsSelect(clumpDir: string, outputName: string, kb: string, p1: string, r2: string, n: nat)
    ensures ClumpedFile(clumpDir, outputName, outputName, Conditions(kb, p1, r2), n)
         == ClumpOut(clumpDir, ClumpTag(outputName, kb, p1, r2), n) + ".clumped"
  {
  }

  /** The list `select_clump_snps` writes is the one `build_prs` scores and the
      one `prs_statistics` counts, when its output name is its folder name. */
  lemma SelectFeedsScoringAndStatistics(qcClumpDir: string, folder: string, conditions: string, n: nat)
    ensures QcClumpOut(qcClumpDir, folder, conditions, SelectOutputName(n, folder, conditions))
         == PrsQcFile(qcClumpDir, folder, conditions, n)
    ensures PrsQcFile(qcClumpDir, folder, conditions, n) == StatSnplist(qcClumpDir, folder, conditions, n)
  {
  }

  /** The score file plink2 writes for chromosome N (`--out` plus `.sscore`)
      lies directly in the folder `combine_prs` lists and ends in `.sscore`. */
  lemma ScoringFeedsCombine(prsDir: string, outputName: string, conditions: string, n: nat)
    ensures var name := Chr(n) + "_" + outputName + "_" + conditions + ".sscore";
      PrsOut(prsDir, outputName, conditions, n) + ".sscore" == Join(TaggedFolder(prsDir, outputName, conditions), name)
      && EndsWith(name, ".sscore")
  {
  }

  /** The combined file is not inside the folder the cleanup `rm -rf` removes. */
  lemma CombinedOutsideScoreFolder(prsDir: string, fileName: string, conditions: string)
    ensures var folder := TaggedFolder(prsDir, fileName, conditions);
      CombinedFile(prsDir, fileName, conditions) != folder
      && !StartsWith(CombinedFile(prsDir, fileName, conditions), folder + "/")
  {
    var folder := TaggedFolder(prsDir, fileName, conditions);
    var c := CombinedFile(prsDir, fileName, conditions);
    assert c == folder + "_combined.sscore";
    assert c[|folder|] == '_';
  }

  /** A worked instance: tag `T`, conditions (250, 0.05, 0.1), chromosome 7. */
  lemma ClumpOutExample(clumpDir: string)
    ensures ClumpOut(clumpDir, ClumpTag("T", "250", "0.05", "0.1"), 7)
         == clumpDir + "/T_250_0.05_0.1/chr7_T_250_0.05_0.1"
  {
  }

  /** When neither the bfile directory nor the bfile name holds a dot, the
      probed prefix is the plain `{bfiles}/chr{N}_{bfile}`. */
  lemma BimPrefixPlain(bfilesDir: string, n: nat, bfileName: string)
    requires '.' !in bfilesDir && '.' !in bfileName
    ensures BimPrefix(bfilesDir, n, bfileName) == bfilesDir + "/" + Chr(n) + "_" + bfileName
  {
    var s := bfilesDir + "/" + Chr(n) + "_" + bfileName;
    assert '.' !in Chr(n) by {
      assert forall i :: 3 <= i < |Chr(n)| ==> Chr(n)[i] == NatToString(n)[i - 3];
    }
    assert '.' !in s;
    assert bfilesDir + "/" + Chr(n) + "_" + bfileName + ".bim" == s + "." + "bim";
    BeforeFirstDotOfExtension(s, "bim");
  }

  /** The bfiles `clump` probes are those the bfile generators write with
      `--out {bfiles}/chr{N}_{output}` (lines 132, 157), when the bfile name
      is that output name and neither it nor the folder holds a dot. */
  lemma BfilesFeedClump(bfilesDir: string, n: nat, name: string)
    requires '.' !in bfilesDir && '.' !in name
    ensures BimPrefix(bfilesDir, n, name) == BfileOut(bfilesDir, n, name)
  {
    BimPrefixPlain(bfilesDir, n, name);
  }

  /** The per-chromosome QC table `transfer_atcg` rewrites is the one `clump`
      hands to plink and the one step 2 of `select_clump_snps` joins with, in
      the per-chromosome naming branch. */
  lemma AtcgFeedsClumpAndSelect(qcDir: string, n: nat, qcFileName: string)
    ensures AtcgFile(qcDir, n, qcFileName) == qcDir + "/" + ClumpQcName(qcFileName, n, true)
    ensures AtcgFile(qcDir, n, qcFileName) == SelectQcFile(qcDir, qcFileName, n, true)
  {
  }

  /** A dot in the bfile name cuts the probed prefix short: the `.bim` that
      `clump` looks for is not the one the bfile generators write. */
  lemma BimPrefixDottedName(bfilesDir: string)
    requires '.' !in bfilesDir
    ensures BimPrefix(bfilesDir, 1, "eur.v2") == bfilesDir + "/chr1_eur"
  {
    var s := bfilesDir + "/chr1_eur";
    assert '.' !in s;
    assert bfilesDir + "/" + Chr(1) + "_" + "eur.v2" + ".bim" == s + "." + "v2.bim";
    BeforeFirstDotOfExtension(s, "v2.bim");
  }
}
