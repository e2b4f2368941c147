# GPRS pipeline model

A Dafny model of class `GPRS` in `gprs/gprs.py`, the orchestrator of a
polygenic risk score (PRS) pipeline. It covers the following stages:

- converting allele letters to upper case (`transfer_atcg`);
- building plink bfiles from reference VCFs (`generate_plink_bfiles`);
- subsetting a population (`subset_pop`);
- keeping the individuals of a population file (`generate_plink_bfiles_w_individual_info`);
- LD clumping (`clump` with `run_plink`);
- selecting clumped SNPs, in two steps (`select_clump_snps` with `generate_clumped_snplist` and `generate_qc_snplist`);
- scoring (`build_prs`);
- combining per-chromosome scores (`combine_prs`);
- the SNP count and statistics call of `prs_statistics`.

## How the model is built

**World.** The pipeline's world is a filesystem, a map from path to entry:

- a folder, holding its listing in `os.listdir` order;
- a pandas table;
- the whitespace-split lines of a `.sscore` file;
- the combined score table;
- an opaque file.

The pipeline also keeps a log. Each entry is one external command issued, or
one "not found … skip" diagnostic. The commands are `plink --make-bed`,
`plink --keep`, `plink --clump`, `plink2 --score` and the `Rscript` call.
Nothing external is run: a command is a record of the values its shell line
interpolates.

**Errors.** Python exceptions end a stage and leave its partial effects in
place. They are modelled as a `Failed` status: a missing file for
`read_csv`/`open`/`listdir`, a missing column, a short `.sscore` row, a
non-numeric field, and a write (`to_csv`, `open(…, 'w')`) to a folder or into
a folder that is missing or is a file (`Files.Write`).

**Stages as functions.** Each stage has a specification function
(`…Effect`) that gives the new filesystem, the log entries it adds, and its
status. Each chromosome loop is a prefix recursion over chromosomes 1 … n
(`range(1, 23)`). The stage modules prove what the stage promises about that
function.

**Stages as methods.** The class `Pipeline.GPRS` holds the mutable state,
`fs` and `log`. Each Python method is a Dafny method. It runs the stage's
loops as `while` loops, with invariants, in the module-level methods before
the class, and each method is proved equal to its specification function.

**Naming.** The naming convention that links the stages is modelled one
format string at a time (module `Naming`):

- the condition tag `{kb}_{p1}_{r2}`;
- the chromosome token `chr{N}`;
- `split(".")[0]`;
- Python's `in` and `endswith`.

Lemmas prove, for each hand-off between stages, that the path one stage
writes is the path the next stage reads, under the naming agreements the
lemma states: clump to select (`ClumpFeedsSelect`), select to scoring and
statistics (`SelectFeedsScoringAndStatistics`), scoring to combine
(`ScoringFeedsCombine`), `transfer_atcg` to clump and select
(`AtcgFeedsClumpAndSelect`), the bfile generators to clump
(`BfilesFeedClump`), and `generate_plink_bfiles` to
`generate_plink_bfiles_w_individual_info` (`GeneratedBfilesFeedKeep`).

**Shared loop shapes.** Two loop shapes recur, and each is a generic module
parameterised by paths and makers given as functions:

- `Sweeps`: a per-chromosome read-make-write pass (steps 1 and 2 of
  `select_clump_snps`, and `transfer_atcg`);
- `Nested`: chromosome × outer listing × inner listing (both bfile generators).

**Behaviour of the code worth noting:**

- The `visited` sets of `run_plink`, `generate_clumped_snplist` and
  `generate_qc_snplist` are created inside the function, so they never
  suppress a call.
- The `visited` set of `build_prs` belongs to the whole call. All SNP lists
  differ between chromosomes, so it only suppresses repeats within one
  chromosome (`ScoringStage.VisitedFresh`).
- `"chr" and X in snps` tests only `X in snps`.
- `transfer_atcg` does not skip a missing file: reading it raises.
- `transfer_atcg` maps upper-case letters to missing values, so running it
  twice erases every allele.
- `split(".")[0]` is applied to the whole path, so a dot in the bfile name (or
  in the directory) shortens the probed prefix.

## Model

| member | source | states |
|---|---|---|
| Strings.NatToString | gprs/gprs.py:89 | the decimal form of a chromosome number is a non-empty digit string with no leading zero |
| Strings.DecimalRoundTrip | gprs/gprs.py:89 | reading back the decimal form of n gives n |
| Strings.NatToStringInjective | gprs/gprs.py:89 | distinct numbers have distinct decimal forms |
| Strings.BeforeFirstDot | gprs/gprs.py:194 | `split(".")[0]` is a dot-free prefix of the string that ends at its first dot |
| Strings.BeforeFirstDotOfExtension | gprs/gprs.py:151 | cutting `s.ext` at its first dot gives back `s` when `s` has no dot |
| Strings.InfixInjective | gprs/gprs.py:193 | a path between a fixed prefix and a fixed suffix determines its middle |
| Strings.SuffixesDiffer | gprs/gprs.py:236 | paths whose fixed suffixes differ at the same distance from the end are different paths |
| Naming.ClumpTag | gprs/gprs.py:164 | the C+T tag `{output}_{kb}_{p1}_{r2}` |
| Naming.ClumpOut | gprs/gprs.py:193 | clump's `--out` prefix `{clump}/{tag}/chr{N}_{tag}` (also line 205) |
| Naming.BimPrefix | gprs/gprs.py:194 | the bfile prefix clump probes: `{bfiles}/chr{N}_{bfile}.bim` cut at its first dot (also line 206) |
| Naming.ClumpQcName | gprs/gprs.py:192 | the QC file name clump passes to plink, `chr{N}_{qc}.QC.csv` or the pooled `{qc}.QC.csv` (line 204) |
| Naming.ClumpedFile | gprs/gprs.py:244 | the `.clumped` table step 1 of select reads for chromosome N |
| Naming.ClumpedSnplist | gprs/gprs.py:236-238 | the `_clumped_snplist.csv` step 1 writes and step 2 reads (lines 270-274) |
| Naming.SelectQcFile | gprs/gprs.py:275 | the QC table step 2 reads, `chr{N}_{qc}.QC.csv` or the pooled `{qc}.QC.csv` (line 292) |
| Naming.SelectOutputName | gprs/gprs.py:276 | the output stem `chr{N}_{output}_{cond}` of step 2 (also line 291) |
| Naming.QcClumpOut | gprs/gprs.py:260 | the `.qc_clump_snpslist.csv` path step 2 writes |
| Naming.PrsQcFile | gprs/gprs.py:322-324 | the SNP list build_prs scores for chromosome N |
| Naming.PrsOut | gprs/gprs.py:326-332 | plink2's `--out` prefix `{prs}/{output}_{cond}/chr{N}_{output}_{cond}` |
| Naming.CombinedFile | gprs/gprs.py:380 | the combined file `{prs}/{file}_{cond}_combined.sscore` |
| Naming.StatSnplist | gprs/gprs.py:392-394 | the list prs_statistics counts for chromosome i |
| Naming.BfileOut | gprs/gprs.py:113-119 | the `--out {bfiles}/chr{N}_{output}` of both bfile generators (also lines 130-132, 153-157) |
| Naming.AtcgFile | gprs/gprs.py:90 | the per-chromosome QC table transfer_atcg reads and writes back (line 92) |
| Naming.LayoutDistinct | gprs/gprs.py:21-30 | the ten sub-directories the constructor derives from the result folder are pairwise distinct |
| Naming.ChrInjective | gprs/gprs.py:89 | distinct chromosomes have distinct `chr{N}` tokens |
| Naming.ChrSlotInjective | gprs/gprs.py:193 | a path with the chromosome token between fixed parts names a different file per chromosome |
| Naming.ChrIsAutosome | gprs/gprs.py:108-110 | the exclusions of chrX, chrY, chrMT and wgs never reject a chromosome the loops produce |
| Naming.HasChrFile | gprs/gprs.py:187 | the naming probe holds exactly when some listed QC file names both "chr" and the QC file name |
| Naming.ClumpTagIsFolderTag | gprs/gprs.py:164 | the clump tag is the later stages' folder tag `{name}_{kb}_{p1}_{r2}` |
| Naming.ClumpFeedsSelect | gprs/gprs.py:244 | the `.clumped` file select reads is the `--out` prefix clump writes plus `.clumped` when the names agree |
| Naming.SelectFeedsScoringAndStatistics | gprs/gprs.py:260 | the list step 2 writes is the one build_prs scores and the one prs_statistics counts |
| Naming.ScoringFeedsCombine | gprs/gprs.py:330-332 | the `.sscore` a plink2 call writes lies directly in the folder combine_prs lists, and its name ends in `.sscore` |
| Naming.CombinedOutsideScoreFolder | gprs/gprs.py:380-382 | the combined file is neither the folder `rm -rf` removes nor inside it |
| Naming.ClumpOutExample | gprs/gprs.py:193 | for tag T and conditions 250/0.05/0.1, chromosome 7 clumps to `{clump}/T_250_0.05_0.1/chr7_T_250_0.05_0.1` |
| Naming.BimPrefixPlain | gprs/gprs.py:194 | without dots in the folder or the bfile name, the probed prefix is `{bfiles}/chr{N}_{bfile}` |
| Naming.BimPrefixDottedName | gprs/gprs.py:194 | a dotted bfile name `eur.v2` shortens the probed prefix to `{bfiles}/chr1_eur` |
| Naming.BfilesFeedClump | gprs/gprs.py:194 | without dots, the bfile prefix clump probes is the `--out` prefix the bfile generators write (lines 113-119, 153-157) |
| Naming.AtcgFeedsClumpAndSelect | gprs/gprs.py:90-92 | the table transfer_atcg rewrites is the per-chromosome QC file clump passes to plink (line 192) and the one step 2 reads (line 275) |
| Tables.IndexOf | gprs/gprs.py:234 | the position of the first column with the name, and none exactly when the name is absent |
| Tables.Column | gprs/gprs.py:234 | a column lookup succeeds exactly when the column exists, and otherwise raises KeyError naming it |
| Tables.KeepRows | gprs/gprs.py:138 | boolean-mask indexing: the rows that satisfy the mask, in order (also line 234 and 259) |
| Tables.IsChromosome | gprs/gprs.py:234 | `df['CHR'] == nb` for one cell: an integer or float equal to the chromosome number |
| Tables.KeepRowsMembers | gprs/gprs.py:138 | boolean-mask indexing keeps exactly the rows that satisfy the mask |
| Tables.KeepRowsAppend | gprs/gprs.py:138 | masking keeps row order: masking a concatenation concatenates the masked parts |
| Tables.KeepRowsIdempotent | gprs/gprs.py:259 | applying the same mask twice changes nothing |
| Tables.KeepRowsNone | gprs/gprs.py:259 | when no row satisfies the mask, no row is left |
| Tables.SelectChromosome | gprs/gprs.py:234-235 | step 1 fails exactly on a missing CHR or SNP column; otherwise its header is CHR, SNP and every row is of the chromosome |
| Tables.SelectChromosomeMembers | gprs/gprs.py:234-235 | the list holds exactly the CHR and SNP cells of the rows of the chromosome: each such row reaches it, and no other row does |
| Tables.SelectChromosomeKeepsOrder | gprs/gprs.py:234-235 | step 1 keeps the row order of the `.clumped` table |
| Tables.RenameSnpColumns | gprs/gprs.py:257 | after the rename no SNP column is left, and every column other than SNP and SNPID is there exactly when it was before |
| Tables.RenameSnpHasId | gprs/gprs.py:257 | the renamed clump table has SNPID exactly when it had SNP or SNPID |
| Tables.JoinClumped | gprs/gprs.py:256-259 | step 2 succeeds exactly when both tables have SNPID; it keeps the QC header, and every kept row is a QC row whose SNPID matches a clumped id under `isin`'s int/float equality |
| Tables.IdKeyEquality | gprs/gprs.py:259 | `isin` compares ids as pandas does: equal cells match, and an integer matches the float of the same number |
| Tables.JoinClumpedIntMatchesReal | gprs/gprs.py:259 | a QC id 1 is kept when the clump table holds the id 1.0 |
| Tables.JoinSelectedMembers | gprs/gprs.py:234-259 | steps 1 and 2 together keep exactly the QC rows whose SNPID matches, under `isin`'s equality, the SNP of a row of the chromosome in the `.clumped` table |
| Tables.JoinClumpedComplete | gprs/gprs.py:259 | every QC row whose SNPID is clumped is kept |
| Tables.JoinClumpedKeepsOrder | gprs/gprs.py:259 | the join keeps QC row order |
| Tables.JoinClumpedEmpty | gprs/gprs.py:259-260 | with no shared id, the written list is the header alone |
| Tables.JoinClumpedIdempotent | gprs/gprs.py:259 | joining the result again with the same clump table changes nothing |
| Tables.SubsetPopulation | gprs/gprs.py:138 | the subset fails exactly on a missing column; otherwise it keeps the header and exactly the rows whose column is the population |
| Tables.SubsetPopulationKeepsOrder | gprs/gprs.py:138 | the subset keeps input row order |
| Tables.UpperAlleleImage | gprs/gprs.py:91 | the letter map keeps exactly a, t, c, g, upper-cased, and anything else becomes missing |
| Tables.UpperAllele | gprs/gprs.py:91 | the dictionary `get` of the letter map: a, t, c, g to upper case and anything else to missing |
| Tables.UpperAlleleTwice | gprs/gprs.py:91 | mapping twice leaves every allele missing |
| Tables.TransferAlleles | gprs/gprs.py:91 | the rewrite fails exactly without an Allele column; otherwise it maps that cell of every row and changes nothing else |
| Tables.TransferAllelesTwice | gprs/gprs.py:91 | after two rewrites, no row has an allele |
| Tables.TransferAllelesNotIdempotent | gprs/gprs.py:91 | a one-row table on which the second rewrite changes the result |
| Files.ListDir | gprs/gprs.py:101 | `os.listdir`: a folder's names in listing order; FileNotFoundError for a missing path and NotADirectoryError for a file (also lines 105, 146, 149, 187, 266, 318, 352) |
| Files.ReadTable | gprs/gprs.py:90 | `pd.read_csv`: the stored table; FileNotFoundError for a missing path, IsADirectoryError for a folder, and a parse error for a file that is no table (also lines 137, 245, 256, 258, 397) |
| Files.ReadLines | gprs/gprs.py:356-357 | `open(…).readlines()`: the whitespace-split lines of a text file, with the same errors as reading a table |
| Files.MakeDir | gprs/gprs.py:168-173 | `mkdir` when the path does not exist: an empty folder there, and nothing else changes (also lines 219-227, 306-311) |
| Files.Parent | gprs/gprs.py:139 | the folder a written path lies in is a strict prefix of it, ending before its last `/` |
| Files.Write | gprs/gprs.py:139 | a write fails exactly when the path is a folder or its folder is missing or a file, with IsADirectoryError, FileNotFoundError or NotADirectoryError; otherwise the path holds the written entry (also lines 92, 236, 260, 380) |
| Files.WriteKeepsOthers | gprs/gprs.py:139 | a successful write changes no path but the one written |
| Files.WritableAfterWrite | gprs/gprs.py:236-238 | a successful write of a file never changes whether any path can be written |
| Files.RemoveTreeIdempotent | gprs/gprs.py:382 | `rm -rf` of a folder a second time changes nothing |
| Files.RemoveTreeAfterWrite | gprs/gprs.py:380-382 | a file written outside the removed folder survives `rm -rf`: writing it before or after the removal gives the same filesystem |
| Files.RunsSkipsAppend | gprs/gprs.py:179 | the commands and diagnostics of consecutive logs are those of the parts, in order |
| Files.RunsSkipsCount | gprs/gprs.py:195-199 | every log entry is either a command or a diagnostic |
| Sweeps.SweepKeepsInputs | gprs/gprs.py:242-248 | the writes for earlier chromosomes never change what a later chromosome reads, nor whether its output can be written |
| Sweeps.SweepKeepsWritable | gprs/gprs.py:236-238 | a pass changes for no path whether it can be written |
| Sweeps.SweepStepStatus | gprs/gprs.py:242-248 | one chromosome ends normally exactly when it is skipped or its table can be made and written, and then writes that table or logs the skip |
| Sweeps.SweepStatus | gprs/gprs.py:242-248 | a pass runs to its end exactly when every chromosome it takes can be made and its output written |
| Sweeps.SweepStopped | gprs/gprs.py:242-248 | after an exception, the later chromosomes change nothing |
| Sweeps.SweepSilent | gprs/gprs.py:88-92 | a pass that never skips logs nothing |
| Sweeps.SweepOutputsMembers | gprs/gprs.py:236-238 | the paths a pass writes are exactly the outputs of the chromosomes it takes |
| Sweeps.SweepOutputsAvoid | gprs/gprs.py:236-238 | a path no chromosome writes is not an output |
| Sweeps.SweepResult | gprs/gprs.py:242-248 | a completed pass wrote each taken chromosome's table computed from the starting filesystem, left every other path alone, and logged the skips in order |
| Sweeps.SweepWritten | gprs/gprs.py:236-238 | a completed pass has written the table of each chromosome it took |
| Sweeps.SweepKeeps | gprs/gprs.py:236-238 | a completed pass leaves a path no chromosome writes as it was |
| Nested.OuterPassStopped | gprs/gprs.py:146-149 | after a failed listing, the later outer names add nothing |
| Nested.NestedPassStopped | gprs/gprs.py:143-146 | after a failed listing, the later chromosomes add nothing |
| Nested.SelectedMembers | gprs/gprs.py:101-103 | the used names are exactly the listed names that pass the test |
| Nested.SelectedAll | gprs/gprs.py:149-150 | a listing whose every name passes is used whole |
| Nested.InnerRunsAreSelected | gprs/gprs.py:105-119 | the inner loop issues one command per used inner name, in listing order |
| Nested.OuterPassResult | gprs/gprs.py:101-133 | for one chromosome: fails, having logged nothing, exactly when an outer name is used and the inner folder cannot be listed; otherwise it logs the cross product of used names |
| Nested.CrossSnoc | gprs/gprs.py:101-119 | one more outer name adds its row of commands at the end |
| Nested.CrossConstant | gprs/gprs.py:149-157 | a single outer name whose commands are all one command gives that command once per inner name |
| Nested.NestedStatus | gprs/gprs.py:98-133 | the loop fails exactly when the outer folder cannot be listed, or some chromosome uses an outer name and the inner folder cannot be listed |
| Nested.NestedDone | gprs/gprs.py:98-133 | a completed loop has logged the reference `NestedEvents` |
| Nested.NestedFailedSilent | gprs/gprs.py:98-133 | a failed loop has logged nothing |
| Nested.NestedPassResult | gprs/gprs.py:98-133 | the loop's status iff and its log, in both outcomes |
| Nested.NoneSelectedLogsNothing | gprs/gprs.py:98-103 | chromosomes that use no outer name log nothing |
| Nested.CrossMembers | gprs/gprs.py:101-119 | the cross product has one command per pair, and holds exactly the commands of pairs of used names |
| ClumpStage.ClumpEventsInOrder | gprs/gprs.py:190-199 | the clump log has one entry per chromosome, in chromosome order |
| ClumpStage.ClumpCommand | gprs/gprs.py:179-183 | the `plink --clump` call for chromosome N, with its bfile prefix, QC file, thresholds and output |
| ClumpStage.ClumpStep | gprs/gprs.py:194-199 | one chromosome: the clump call when the `.bim` exists, otherwise a skip naming it |
| ClumpStage.ClumpEffect | gprs/gprs.py:161-212 | the whole call: the tag folder made if absent, the QC listing probed once, then one step per chromosome |
| ClumpStage.ClumpBehaviour | gprs/gprs.py:161-212 | clump makes the tag folder; it fails exactly when the QC folder cannot be listed; otherwise for each of the 22 chromosomes in order it issues the clump call when the `.bim` exists, and else logs a skip naming it |
| ClumpStage.ClumpCounts | gprs/gprs.py:195-199 | there are as many clump calls as chromosomes with a `.bim`, and as many skips as chromosomes without one |
| ClumpStage.ClumpOutDistinct | gprs/gprs.py:193 | clump outputs of distinct chromosomes never collide |
| ClumpStage.ClumpQcFilesAllOrNothing | gprs/gprs.py:187-205 | without a chromosome-named QC file every call reads the one pooled QC file; with one, distinct chromosomes read distinct per-chromosome files |
| SelectStage.SnplistDistinct | gprs/gprs.py:236 | the step 1 lists of distinct chromosomes are distinct files |
| SelectStage.SnplistOf | gprs/gprs.py:244-246 | step 1 for one chromosome: read the `.clumped` table and keep its chromosome rows as CHR and SNP |
| SelectStage.JoinOf | gprs/gprs.py:256-259 | step 2 for one chromosome: read the clump list and the QC table, and keep the QC rows whose SNPID the list names |
| SelectStage.SelectEffect | gprs/gprs.py:214-298 | the whole call: the two folders, step 1, the QC listing probe, step 2 |
| SelectStage.ListOutDistinct | gprs/gprs.py:260 | the step 2 lists of distinct chromosomes are distinct files |
| SelectStage.ClumpedIsNoWrite | gprs/gprs.py:244 | no `.clumped` input is a file either step writes |
| SelectStage.SnplistIsNoListOut | gprs/gprs.py:270 | no step 1 list is a step 2 output |
| SelectStage.QcInIsNoWrite | gprs/gprs.py:275 | no QC table is a file either step writes |
| SelectStage.SnplistOfOk | gprs/gprs.py:244-246 | step 1 handles a present `.clumped` file exactly when it is a table with CHR and SNP columns |
| SelectStage.SnplistOfSame | gprs/gprs.py:245 | step 1's result depends only on the `.clumped` file |
| SelectStage.JoinOfSame | gprs/gprs.py:256-258 | step 2's result depends only on the clump list and the QC table |
| SelectStage.SnplistIndependent | gprs/gprs.py:242-248 | step 1 never writes what it reads, and writes a different file per chromosome |
| SelectStage.JoinIndependent | gprs/gprs.py:266-281 | step 2 never writes what it reads, and writes a different file per chromosome |
| SelectStage.QcDirIsNoSnplist | gprs/gprs.py:236 | in the pipeline's layout, step 1 never writes the QC folder |
| SelectStage.SelectResult | gprs/gprs.py:214-298 | after a completed call, each chromosome with a `.clumped` file has its QC-and-clump list equal to the QC rows whose SNPID is among that file's chromosome SNPs |
| SelectStage.BothStepsResult | gprs/gprs.py:256-260 | step 2 joins the list step 1 wrote with the QC table as it stood before step 1 |
| SelectStage.Step1KeepsQcDir | gprs/gprs.py:266 | step 1 leaves the QC listing the naming probe reads unchanged |
| SelectStage.Step1KeepsQcTable | gprs/gprs.py:258 | step 1 leaves every QC table unchanged |
| SelectStage.Step1Result | gprs/gprs.py:244-246 | step 1 writes the chromosome's SNP list for each present `.clumped` file |
| SelectStage.Step2Result | gprs/gprs.py:277-279 | step 2 writes the join for each present clump list |
| SelectStage.Step1Status | gprs/gprs.py:242-248 | step 1 completes exactly when every present `.clumped` file is a table with CHR and SNP columns and its SNP list can be written, and then has logged a skip for each missing one |
| SelectStage.Step2Status | gprs/gprs.py:268-297 | step 2 completes exactly when every SNP list present after step 1 reads, joins with its QC table and the join can be written, and then has logged a skip for each missing list |
| SelectStage.SelectBehaviour | gprs/gprs.py:214-298 | the call completes exactly when step 1 does, the QC folder can then be listed, and step 2 does with the naming branch the listing fixes, each step failing on the first table it cannot make or write; its log is step 1's skips followed by step 2's |
| SelectStage.SelectKeeps | gprs/gprs.py:214-298 | a completed call changes no path except its two folders and the SNP lists the two steps write |
| ScoringStage.ScorePassStopped | gprs/gprs.py:315-318 | after a failed listing, the later chromosomes add nothing |
| ScoringStage.ScoreCommand | gprs/gprs.py:326-332 | the `plink2 --score` call for a VCF and chromosome N |
| ScoringStage.ScanFiles | gprs/gprs.py:318-337 | the VCF loop of one chromosome: each matching VCF scores the list when it exists and is unvisited, and otherwise logs a skip; the list becomes visited |
| ScoringStage.ScorePass | gprs/gprs.py:313-340 | the chromosome loop, listing the VCF folder anew for each chromosome; a failed listing ends it |
| ScoringStage.BuildPrsEffect | gprs/gprs.py:300-344 | the whole call: the score folder made if absent, then the chromosome loop |
| ScoringStage.VcfMatchesAutosome | gprs/gprs.py:320 | the VCF test reduces to the suffix test and the `chr{N}{symbol}` test |
| ScoringStage.QcFileDistinct | gprs/gprs.py:322-324 | distinct chromosomes score distinct SNP lists |
| ScoringStage.MatchingMembers | gprs/gprs.py:318-320 | the matching VCFs are exactly the listed names that pass the test |
| ScoringStage.ScanFilesFresh | gprs/gprs.py:318-336 | for an unvisited list, the inner loop logs the call on the first matching VCF when the list exists and a skip for every other match, and marks the list visited |
| ScoringStage.VisitedFresh | gprs/gprs.py:313-336 | no earlier chromosome has visited a chromosome's list, so `visited` never suppresses a call across chromosomes |
| ScoringStage.ScorePassResult | gprs/gprs.py:313-340 | the loop fails exactly when the VCF folder cannot be listed, having logged nothing; otherwise its log and visited set are the reference definitions |
| ScoringStage.RunsOfRepeat | gprs/gprs.py:335 | a run of skips holds no command |
| ScoringStage.ChromosomeRuns | gprs/gprs.py:325-335 | a chromosome issues one command, on its first matching VCF, when its list exists, and otherwise none |
| ScoringStage.ScoreEventsRuns | gprs/gprs.py:315-336 | the commands of the log are those of the chromosomes, in order |
| ScoringStage.ScoreCommandsMembers | gprs/gprs.py:325-332 | chromosome k has a command exactly when its list exists and a VCF matches, and the command reads the first match |
| ScoringStage.ScoreCommandsDistinct | gprs/gprs.py:325-336 | no two commands score the same SNP list |
| ScoringStage.BuildPrsBehaviour | gprs/gprs.py:300-344 | build_prs makes the score folder and writes nothing else the model tracks (the time table is left out); it completes exactly when the VCF folder can be listed, and then logs the reference events over the 22 chromosomes |
| Scores.ParseScoreRow | gprs/gprs.py:362-366 | a data row contributes (id, row[1], row[3]·row[1]) exactly when it has four fields and both parse as numbers; otherwise it raises IndexError or ValueError |
| Scores.ParseScoreLines | gprs/gprs.py:357-366 | a file parses exactly when every data row does; the header is skipped and there is one contribution per data row, in order |
| Scores.ParseStopped | gprs/gprs.py:357-366 | the first bad line decides the outcome |
| Scores.FirstAppearance | gprs/gprs.py:350 | the dictionary's keys are distinct and are exactly the ids of the rows |
| Scores.FirstAppearancePrefix | gprs/gprs.py:350 | ids already seen keep their place as more rows arrive |
| Scores.TotalsAdditive | gprs/gprs.py:375-376 | totals of consecutive row sequences add up |
| Scores.TotalsOrderIndependent | gprs/gprs.py:352 | per-id totals do not depend on the order the files are listed in |
| Scores.TotalsOfAbsentId | gprs/gprs.py:375-376 | an id that never appears totals zero |
| Scores.Combine | gprs/gprs.py:371-377 | the reference combined table: one row per distinct id in first-appearance order, with that id's totals |
| Scores.CombineFacts | gprs/gprs.py:371-377 | the combined table has one row per distinct id, in first-appearance order, each holding that id's allele and score totals |
| Scores.PairsSum | gprs/gprs.py:374-376 | summing the unzipped pairs of an id gives its totals |
| Scores.FirstAppearanceOrder | gprs/gprs.py:373 | the keys come in order of first appearance |
| Scores.GroupAll | gprs/gprs.py:350-366 | the `defaultdict(list)` after appending every row's pair under its id |
| Scores.Summarise | gprs/gprs.py:371-377 | one row per dictionary key in insertion order, with the sums of the key's pairs |
| Scores.GroupAllIsPairs | gprs/gprs.py:366 | the dictionary holds the ids in first-appearance order, each with exactly the pairs of its rows, in row order |
| Scores.PairsOfAbsentId | gprs/gprs.py:366 | an id that never appears has no pairs |
| Scores.SummariseIsCombine | gprs/gprs.py:371-377 | the table built from the dictionary is the reference combined table |
| Scores.CombineExample | gprs/gprs.py:362-377 | rows (2, 0.5) and (3, 0.7) of one sample combine to ALLELE_CT 5 and SCORE_SUM 3.1 |
| CombineStage.GatherFilesStopped | gprs/gprs.py:352-369 | after a read or parse error, the later names add nothing |
| CombineStage.GatherFiles | gprs/gprs.py:352-369 | the listing loop: each present `.sscore` read and its rows gathered, each absent one skipped, a read or parse error ending the loop |
| CombineStage.CombineEffect | gprs/gprs.py:346-383 | the whole call: list, gather, write the combined table, then `rm -rf` the score folder |
| CombineStage.GatherFilesResult | gprs/gprs.py:352-369 | gathering completes exactly when every present `.sscore` reads and parses; it then holds all their rows in listing order and logs the absent ones |
| CombineStage.AllRowsTotals | gprs/gprs.py:352-366 | rows gathered file by file total, per id, the sum of the files' totals |
| CombineStage.CombineBehaviour | gprs/gprs.py:346-383 | combine_prs fails, changing nothing, exactly when the folder cannot be listed, a file fails, or the combined file cannot be written; otherwise it writes header `id ALLELE_CT SCORE_SUM` and one summed row per id in first-appearance order, removes the score folder, and keeps every other path |
| StatisticsStage.CountSnpsStopped | gprs/gprs.py:391-403 | after a read error, the later chromosomes add nothing |
| StatisticsStage.CountSnps | gprs/gprs.py:390-403 | the counting loop: each present list's row count collected, each absent one skipped, a read error ending the loop |
| StatisticsStage.StatsCommand | gprs/gprs.py:408-410 | the `Rscript` call with the SNP total |
| StatisticsStage.StatisticsEffect | gprs/gprs.py:386-410 | the whole call: count, then the R script when the score file exists |
| StatisticsStage.SumAppend | gprs/gprs.py:409 | `sum` of a list with one more count adds that count |
| StatisticsStage.CountSnpsResult | gprs/gprs.py:390-403 | counting completes exactly when every present list reads; its sum is then the SNP total and its log the missing lists |
| StatisticsStage.StatisticsBehaviour | gprs/gprs.py:386-410 | no file changes; the call fails exactly when a present list does not read; otherwise it runs the R script with the SNP total when the score file exists, and otherwise issues no command |
| StatisticsStage.CountSnpsHasNoRuns | gprs/gprs.py:390-403 | the counting loop issues no command |
| AtcgStage.AtcgPathDistinct | gprs/gprs.py:90 | distinct chromosomes rewrite distinct QC tables |
| AtcgStage.Uppered | gprs/gprs.py:90-91 | one chromosome: read its QC table and map its Allele column |
| AtcgStage.TransferAtcgEffect | gprs/gprs.py:87-93 | the whole call: chromosomes 1 to 22, each table read, mapped and written back in place, without skipping a missing one |
| AtcgStage.AtcgIndependent | gprs/gprs.py:88-92 | one chromosome's rewrite never changes what a later one reads |
| AtcgStage.AtcgStatus | gprs/gprs.py:88-92 | the call completes exactly when all 22 tables exist, read, have an Allele column and can be written back |
| AtcgStage.AtcgWritten | gprs/gprs.py:90-92 | after a completed call, each table holds the letter map of its original |
| AtcgStage.AtcgKeeps | gprs/gprs.py:88-92 | a completed call leaves every other path as it was |
| AtcgStage.TransferAtcgBehaviour | gprs/gprs.py:87-93 | transfer_atcg logs nothing, completes exactly when every table can be read, rewritten and written back, rewrites each one in place, and touches nothing else |
| AtcgStage.AtcgAllWritten | gprs/gprs.py:90-92 | after a completed call, all 22 tables hold the letter map of their originals |
| AtcgStage.AtcgAllKept | gprs/gprs.py:88-92 | after a completed call, every path other than the 22 tables is as it was |
| AtcgStage.TransferAtcgTwice | gprs/gprs.py:91 | running transfer_atcg twice succeeds and leaves every allele of every table missing |
| AtcgStage.SecondPassRuns | gprs/gprs.py:88-92 | after a completed call, a second call runs to its end |
| AtcgStage.RewritableAgain | gprs/gprs.py:90-92 | after a completed call, each table still reads, has its Allele column and can be written |
| AtcgStage.MissingAfterTwo | gprs/gprs.py:91 | after two completed calls, a table has every allele missing |
| BfileStage.GenerateBfilesBehaviour | gprs/gprs.py:96-134 | no file changes; the call fails, having issued nothing, exactly when the SNP list folder cannot be listed, or a list is used and the reference folder cannot be; otherwise it logs the reference pairs of lists and VCFs |
| BfileStage.UsesSnplist | gprs/gprs.py:103 | a listed SNP list enters the reference loop for chromosome N in either branch (also line 122) |
| BfileStage.RefMatches | gprs/gprs.py:108-110 | the reference VCF test: `.vcf.gz`, not chrX/chrY/chrMT, and naming `chr{N}{symbol}` (also lines 124-125) |
| BfileStage.MakeBedCommand | gprs/gprs.py:112-119 | the `plink --make-bed` call for a SNP list, a VCF and chromosome N (also lines 126-132) |
| BfileStage.GenerateBfilesEffect | gprs/gprs.py:96-134 | the whole call: the nested listing loop over chromosomes, SNP lists and reference VCFs |
| BfileStage.MakeBedRuns | gprs/gprs.py:101-132 | each chromosome issues one `--make-bed` per pair of a used SNP list and a matching VCF, all writing `{bfiles}/chr{k}_{output}`, and a pooled list is used for every chromosome |
| BfileStage.RefMatchesAutosome | gprs/gprs.py:108-110 | the VCF test reduces to the suffix test and the `chr{N}{symbol}` test |
| BfileStage.SubsetPopBehaviour | gprs/gprs.py:136-139 | subset_pop fails, changing nothing, exactly when the input does not read, lacks the column, or the output is a folder or lies in a missing folder (with the write's exception); otherwise the output holds exactly the matching rows under the input's header, and nothing else changes |
| BfileStage.SubsetPopEffect | gprs/gprs.py:136-139 | the whole call: read, keep the matching rows, write the output |
| BfileStage.KeepBfilesBehaviour | gprs/gprs.py:141-159 | no file changes; the call fails, having issued nothing, exactly when the population folder cannot be listed, or a population file is listed and the bfile folder cannot be; otherwise it logs one `--keep` per chromosome, population file and matching bfile part |
| BfileStage.KeepCommand | gprs/gprs.py:151-157 | the `plink --keep` call on the listed bfile part cut at its first dot |
| BfileStage.KeepBfilesEffect | gprs/gprs.py:141-159 | the whole call: the nested listing loop over chromosomes, population files and bfile parts |
| BfileStage.BfilePart | gprs/gprs.py:150-151 | a part `chr{k}_{bfile}.{ext}` matches chromosome k and is cut back to `chr{k}_{bfile}` |
| BfileStage.GeneratedBfilesFeedKeep | gprs/gprs.py:149-157 | each part `chr{k}_{output}.{ext}` the bfile generator writes under `--out {bfiles}/chr{k}_{output}` is used for chromosome k by the `--keep` loop, which reads it back through that prefix |
| BfileStage.PartsSelected | gprs/gprs.py:149-157 | all parts of a bfile match, and each gives the same `--keep` call |
| BfileStage.KeepBedPerPart | gprs/gprs.py:146-157 | with one population file and the listed parts of a bfile, chromosome k issues the same `--keep` call once per part |
| Pipeline.SweepLoop | gprs/gprs.py:242-248 | the write-pass loop computes the `Sweep` specification |
| Pipeline.InnerLoop | gprs/gprs.py:105-119 | the innermost listing loop computes `InnerRuns` |
| Pipeline.OuterLoop | gprs/gprs.py:101-133 | the outer listing loop computes `OuterPass`, listing the inner folder for each used name |
| Pipeline.NestedLoop | gprs/gprs.py:98-133 | the chromosome loop of the bfile generators computes `NestedPass` |
| Pipeline.ClumpLoop | gprs/gprs.py:189-211 | the clump loop computes `ClumpEvents` |
| Pipeline.ScanLoop | gprs/gprs.py:318-337 | the VCF loop of build_prs, with its visited set, computes `ScanFiles` |
| Pipeline.ScoreLoop | gprs/gprs.py:313-340 | the chromosome loop of build_prs computes `ScorePass` |
| Pipeline.ParseLoop | gprs/gprs.py:357-366 | the line loop fails exactly when the file does not parse, with the first error; otherwise it leaves the dictionary of all rows seen, updated in place |
| Pipeline.GatherLoop | gprs/gprs.py:352-369 | the listing loop computes `GatherFiles` and, when it completes, the dictionary of the gathered rows |
| Pipeline.SummaryLoop | gprs/gprs.py:371-377 | the result loop computes `Summarise` of the dictionary |
| Pipeline.CountLoop | gprs/gprs.py:390-403 | the counting loop computes `CountSnps` |
| Pipeline.GPRS.constructor | gprs/gprs.py:12-30 | the object starts on the given filesystem with an empty log, the given reference folder and the sub-directory layout of the result folder |
| Pipeline.GPRS.Apply | gprs/gprs.py:87-410 | recording the outcome of one of the stage methods sets the filesystem to the stage's, appends its log entries and returns its status |
| Pipeline.GPRS.TransferAtcg | gprs/gprs.py:87-93 | the method's new filesystem, log and status are those of `TransferAtcgEffect` |
| Pipeline.GPRS.GeneratePlinkBfiles | gprs/gprs.py:96-134 | the method's new state is that of `GenerateBfilesEffect` |
| Pipeline.GPRS.SubsetPop | gprs/gprs.py:136-139 | the method's new state is that of `SubsetPopEffect` |
| Pipeline.GPRS.GeneratePlinkBfilesWithIndividualInfo | gprs/gprs.py:141-159 | the method's new state is that of `KeepBfilesEffect` |
| Pipeline.GPRS.Clump | gprs/gprs.py:161-212 | the method's new state is that of `ClumpEffect` |
| Pipeline.GPRS.SelectClumpSnps | gprs/gprs.py:214-298 | the method's new state is that of `SelectEffect` |
| Pipeline.GPRS.BuildPrs | gprs/gprs.py:300-344 | the method's new state is that of `BuildPrsEffect` |
| Pipeline.GPRS.CombinePrs | gprs/gprs.py:346-383 | the method's new state is that of `CombineEffect`, the dictionary being built in place line by line |
| Pipeline.GPRS.PrsStatistics | gprs/gprs.py:386-410 | the method's new state is that of `StatisticsEffect` |

## Left out

- Console output: the progress `print`s are left out. Only the "not found … skip" diagnostics are logged, as `Skip` events naming the path.
- External tools: plink, plink2 and Rscript are not run. A command does not create its output files, so no stage's input is produced by an earlier command within the model.
- Timing: `timer.py`, the `timeit` timers and the `time_table.txt` file `build_prs` opens and writes are left out, because clocks are not modelled.
- Directory set-up: `setup_dir` and the `create_*_dir` methods are left out. The constructor takes a filesystem, and the resolution of `result_dir` against the working directory is given as the `result` parameter. `data_dir` is unused by the core.
- Listings after writes: writes and `mkdir` do not update the parent folder's listing. No stage lists a folder it wrote to earlier in the same call.
- `mkdir`: does not check that the parent exists (`Files.MakeDir`); a write does check its folder.
- Well-formed filesystems: the model does not require the folder of every stored file to be in the map. On such a map a write can fail where the real filesystem, which always holds the folder of an existing file, would not; every stage's contract states its failure condition in terms of `Writable`, so it stays exact for the map given.
- pandas parsing: separators, `delim_whitespace` and type inference are left out. A table file is stored as a parsed `Table`, and cells are integer, real, string or missing.
- Output format: CSV and TSV layout (headers, separators, `index=False`) is not modelled. The combined `.sscore` is stored as its header and rows, not rendered as text.
- Floating point: scores and allele counts are exact reals. `float()` parsing, float rounding and the textual form of the sums are not modelled.
- `prs_statistics` reformatting (lines 411-421): left out, because it only rewrites the R script's output in another float format. The source's `read_csv` on line 413 comes before the existence check on line 414, so a missing stat file would raise.
- `combine_prs_stat`: left out, as outside the core.
- Shell strings: the command lines are records of their interpolated values, not strings. Shell quoting and `extra_commands` splitting are not modelled.
- `rm -rf`: modelled only as removing the paths at or below the folder.
- `generate_plink_bfiles`: gives identical commands for the chromosome branch (line 103) and the pooled branch (line 122). Which branch a list took is therefore not distinguished.
