/** `GPRS.combine_prs` (gprs/gprs.py:346-383): gather the rows of every
    `.sscore` file of the score folder, sum them per sample id into one table,
    then delete the folder. */
module CombineStage {
  import opened Outcomes
  import opened Strings
  import opened Naming
  import opened Scores
  import opened Files

  datatype CombineArgs = CombineArgs(fileName: string, kb: string, p1: string, r2: string)

  function Cond(c: CombineArgs): string
  {
    Conditions(c.kb, c.p1, c.r2)
  }

  /** The folder of per-chromosome score files (line 349). */
  function ScoreDir(d: Dirs, c: CombineArgs): string
  {
    TaggedFolder(d.prs, c.fileName, Cond(c))
  }

  /** The header line of the combined file (line 371). */
  const Header: seq<string> := ["id", "ALLELE_CT", "SCORE_SUM"]

  /** The log so far, the rows gathered so far, and whether an exception ended the loop. */
  datatype Gather = Gather(events: seq<Event>, rows: seq<Contribution>, status: Status)

  /** The contributions of one listed name, or the exception reading it raises:
      none for a name not ending in `.sscore`; otherwise the data lines of the file. */
  function ReadScoreFile(fs: FileSystem, path: string): Result<seq<Contribution>>
  {
    match ReadLines(fs, path)
    case Err(e) => Err(e)
    case Ok(lines) => ParseScoreLines(lines, |lines|)
  }

  /** Lines 352-369 over the listing `names` of folder `dir`: each `.sscore` name
      that exists is read and its rows gathered; one that does not is skipped
      with a diagnostic; a read or parse error ends the loop. */
  function GatherFiles(fs: FileSystem, dir: string, names: seq<string>): Gather
    decreases |names|
  {
    if names == [] then Gather([], [], Done)
    else
      var prev := GatherFiles(fs, dir, names[..|names| - 1]);
      var name := names[|names| - 1];
      var path := dir + "/" + name;
      if prev.status.Failed? || !EndsWith(name, ".sscore") then prev
      else if path !in fs then Gather(prev.events + [Skip(path)], prev.rows, Done)
      else match ReadScoreFile(fs, path)
        case Err(e) => Gather(prev.events, prev.rows, Failed(e))
        case Ok(cs) => Gather(prev.events, prev.rows + cs, Done)
  }

  /** An exception ends the loop: the names after it add nothing. */
  lemma {:induction false} GatherFilesStopped(fs: FileSystem, dir: string, names: seq<string>, j: nat)
    requires j <= |names| && GatherFiles(fs, dir, names[..j]).status.Failed?
    ensures GatherFiles(fs, dir, names) == GatherFiles(fs, dir, names[..j])
    decreases |names|
  {
    if j < |names| {
      var init := names[..|names| - 1];
      assert init[..j] == names[..j];
      GatherFilesStopped(fs, dir, init, j);
    } else {
      assert names[..j] == names;
    }
  }

  /** The whole call: list the folder, gather, write the combined table built
      from the dictionary (lines 371-381), then `rm -rf` the folder (line 382). */
  function CombineEffect(fs: FileSystem, d: Dirs, c: CombineArgs): Effect
  {
    var dir := ScoreDir(d, c);
    match ListDir(fs, dir)
    case Err(e) => Effect(fs, [], Failed(e))
    case Ok(names) =>
      var g := GatherFiles(fs, dir, names);
      if g.status.Failed? then Effect(fs, g.events, g.status)
      else
        match Write(fs, CombinedFile(d.prs, c.fileName, Cond(c)), Combined(Header, Summarise(GroupAll(g.rows))))
        case Err(e) => Effect(fs, g.events, Failed(e))
        case Ok(fs1) => Effect(RemoveTree(fs1, dir), g.events, Done)
  }

  // ---- a reference definition, file by file ----

  /** Listed name `name` is a score file that exists. */
  predicate Present(fs: FileSystem, dir: string, name: string)
  {
    EndsWith(name, ".sscore") && dir + "/" + name in fs
  }

  /** Every present score file of the listing reads and parses. */
  ghost predicate AllReadable(fs: FileSystem, dir: string, names: seq<string>)
  {
    forall i :: 0 <= i < |names| && Present(fs, dir, names[i]) ==> ReadScoreFile(fs, dir + "/" + names[i]).Ok?
  }

  /** The rows of the present score files of the listing, file after file in
      listing order. */
  function AllRows(fs: FileSystem, dir: string, names: seq<string>): seq<Contribution>
    decreases |names|
  {
    if names == [] then []
    else
      var name := names[|names| - 1];
      var r := ReadScoreFile(fs, dir + "/" + name);
      AllRows(fs, dir, names[..|names| - 1]) + (if Present(fs, dir, name) && r.Ok? then r.value else [])
  }

  /** The skip diagnostics: one per listed score file that is absent. */
  function AbsentSkips(fs: FileSystem, dir: string, names: seq<string>): seq<Event>
    decreases |names|
  {
    if names == [] then []
    else
      var name := names[|names| - 1];
      AbsentSkips(fs, dir, names[..|names| - 1])
      + (if EndsWith(name, ".sscore") && dir + "/" + name !in fs then [Skip(dir + "/" + name)] else [])
  }

  // ---- lemmas ----

  /** The loop ends normally exactly when every present score file reads and
      parses; it then holds the rows of all of them in listing order and has
      logged the absent ones. */
  lemma {:induction false} GatherFilesResult(fs: FileSystem, dir: string, names: seq<string>)
    ensures var g := GatherFiles(fs, dir, names);
      (g.status == Done <==> AllReadable(fs, dir, names))
      && (g.status == Done ==> g.rows == AllRows(fs, dir, names) && g.events == AbsentSkips(fs, dir, names))
    decreases |names|
  {
    if names != [] {
      var init := names[..|names| - 1];
      var name := names[|names| - 1];
      GatherFilesResult(fs, dir, init);
      assert forall i :: 0 <= i < |init| ==> init[i] == names[i];
      if AllReadable(fs, dir, init) {
        assert AllReadable(fs, dir, names) <==> (Present(fs, dir, name) ==> ReadScoreFile(fs, dir + "/" + name).Ok?);
      } else {
        assert !AllReadable(fs, dir, names);
      }
    }
  }

  /** Rows gathered file by file total, per id, the sum of the files' totals. */
  lemma {:induction false} AllRowsTotals(fs: FileSystem, dir: string, names: seq<string>, id: string)
    requires names != []
    ensures var name := names[|names| - 1];
      var r := ReadScoreFile(fs, dir + "/" + name);
      var last := if Present(fs, dir, name) && r.Ok? then r.value else [];
      AlleleTotal(AllRows(fs, dir, names), id) == AlleleTotal(AllRows(fs, dir, names[..|names| - 1]), id) + AlleleTotal(last, id)
      && ScoreTotal(AllRows(fs, dir, names), id) == ScoreTotal(AllRows(fs, dir, names[..|names| - 1]), id) + ScoreTotal(last, id)
  {
    var name := names[|names| - 1];
    var r := ReadScoreFile(fs, dir + "/" + name);
    var last := if Present(fs, dir, name) && r.Ok? then r.value else [];
    TotalsAdditive(AllRows(fs, dir, names[..|names| - 1]), last, id);
  }

  /** What `combine_prs` does. It fails, leaving the filesystem as it was,
      exactly when the folder cannot be listed, a present score file does
      not read or parse, or the combined file cannot be written. Otherwise it writes the combined file under the
      header `id ALLELE_CT SCORE_SUM` with one row per sample id, in order of
      first appearance, holding that id's summed allele counts and weighted
      scores over all files; it removes the score folder and everything in it;
      and it leaves every other path as it was. */
  lemma CombineBehaviour(fs: FileSystem, d: Dirs, c: CombineArgs)
    ensures var e := CombineEffect(fs, d, c);
      var dir := ScoreDir(d, c);
      var out := CombinedFile(d.prs, c.fileName, Cond(c));
      (e.status == Done <==> ListDir(fs, dir).Ok? && AllReadable(fs, dir, ListDir(fs, dir).value) && Writable(fs, out))
      && (e.status.Failed? ==> e.fs == fs)
      && (e.status == Done ==>
            var rows := AllRows(fs, dir, ListDir(fs, dir).value);
            out in e.fs && e.fs[out] == Combined(Header, Combine(rows))
            && e.events == AbsentSkips(fs, dir, ListDir(fs, dir).value)
            && (forall p :: p in e.fs && p != out ==> p in fs && !Under(p, dir) && e.fs[p] == fs[p])
            && (forall p :: p in fs && p != out && !Under(p, dir) ==> p in e.fs))
  {
    var dir := ScoreDir(d, c);
    var out := CombinedFile(d.prs, c.fileName, Cond(c));
    if ListDir(fs, dir).Ok? {
      var names := ListDir(fs, dir).value;
      GatherFilesResult(fs, dir, names);
      var g := GatherFiles(fs, dir, names);
      if g.status == Done {
        SummariseIsCombine(g.rows);
        CombinedOutsideScoreFolder(d.prs, c.fileName, Cond(c));
        assert !Under(out, dir);
      }
    }
  }
}
