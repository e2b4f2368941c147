/** The filesystem the stages see, and the log of external commands and skip
    diagnostics they leave. The external tools (plink, plink2, Rscript) are not
    run: each call is a `Command` record appended to the log. */
module Files {
  import opened Outcomes
  import opened Strings
  import opened Tables
  import opened Scores

  /** What a path holds: a directory with its `os.listdir` order, a table
      written or read by pandas, the whitespace-split lines of a text file
      (`.sscore`), the tab-separated combined score file, or a file no stage
      reads the content of (VCF, bfiles). */
  datatype Entry =
    | Folder(names: seq<string>)
    | Frame(table: Table)
    | Text(lines: seq<seq<Token>>)
    | Combined(header: seq<string>, rows: seq<ScoreRow>)
    | Blob

  /** The existing paths and their contents. */
  type FileSystem = map<string, Entry>

  /** `os.listdir(p)`. */
  function ListDir(fs: FileSystem, p: string): Result<seq<string>>
  {
    if p !in fs then Err(FileNotFound(p))
    else if fs[p].Folder? then Ok(fs[p].names)
    else Err(NotADirectory(p))
  }

  /** `pd.read_csv(p)`. */
  function ReadTable(fs: FileSystem, p: string): Result<Table>
  {
    if p !in fs then Err(FileNotFound(p))
    else match fs[p]
      case Frame(t) => Ok(t)
      case Folder(_) => Err(IsADirectory(p))
      case _ => Err(Unreadable(p))
  }

  /** `open(p).readlines()`, each line split on whitespace. */
  function ReadLines(fs: FileSystem, p: string): Result<seq<seq<Token>>>
  {
    if p !in fs then Err(FileNotFound(p))
    else match fs[p]
      case Text(lines) => Ok(lines)
      case Folder(_) => Err(IsADirectory(p))
      case _ => Err(Unreadable(p))
  }

  /** `if not os.path.exists(p): os.mkdir(p)`. */
  function MakeDir(fs: FileSystem, p: string): FileSystem
  {
    if p in fs then fs else fs[p := Folder([])]
  }

  /** The position of the last `/` of `p`, if it has one. */
  function LastSlash(p: string): (r: Option<nat>)
    ensures r.Some? ==> r.value < |p| && p[r.value] == '/' && forall i :: r.value < i < |p| ==> p[i] != '/'
    ensures r.None? ==> forall i :: 0 <= i < |p| ==> p[i] != '/'
    decreases |p|
  {
    if p == [] then None
    else if p[|p| - 1] == '/' then Some(|p| - 1)
    else LastSlash(p[..|p| - 1])
  }

  /** The folder a new file `p` is created in, when `p` names one: the part
      before its last `/`. A bare name lies in the working directory and
      `/name` in the root, both of which exist. */
  function Parent(p: string): (r: Option<string>)
    ensures r.Some? ==> |r.value| < |p| && r.value == p[..|r.value|]
  {
    match LastSlash(p)
    case Some(i) => if i > 0 then Some(p[..i]) else None
    case None => None
  }

  /** The exception opening `p` for writing raises (`to_csv`, `open(p, 'w')`):
      IsADirectoryError when `p` is a folder, FileNotFoundError when its folder
      does not exist, NotADirectoryError when its folder is a file. */
  function WriteError(fs: FileSystem, p: string): Option<Error>
  {
    if p in fs && fs[p].Folder? then Some(IsADirectory(p))
    else match Parent(p)
      case None => None
      case Some(q) =>
        if q !in fs then Some(FileNotFound(p))
        else if !fs[q].Folder? then Some(NotADirectory(p))
        else None
  }

  /** Opening `p` for writing succeeds. */
  predicate Writable(fs: FileSystem, p: string)
  {
    WriteError(fs, p).None?
  }

  /** Write `entry`, a file, to `p`, replacing what was there. */
  function Write(fs: FileSystem, p: string, entry: Entry): (r: Result<FileSystem>)
    ensures r.Ok? <==> Writable(fs, p)
    ensures r.Err? ==> r.error == WriteError(fs, p).value
    ensures r.Ok? ==> p in r.value && r.value[p] == entry
  {
    match WriteError(fs, p)
    case Some(e) => Err(e)
    case None => Ok(fs[p := entry])
  }

  /** A successful write changes no path but the one written. */
  lemma WriteKeepsOthers(fs: FileSystem, p: string, entry: Entry, q: string)
    requires Write(fs, p, entry).Ok? && q != p
    ensures (q in Write(fs, p, entry).value <==> q in fs)
    ensures q in fs ==> Write(fs, p, entry).value[q] == fs[q]
  {
  }

  /** Writing a file at `q` never decides whether a path `p` can be written:
      if `q` is the folder of `p`, it was no folder before the write (or the
      write would have raised) and is none after it; if `q` is `p` itself, its
      folder is untouched and it is still no folder. */
  lemma WritableAfterWrite(fs: FileSystem, q: string, entry: Entry, p: string)
    requires Writable(fs, q) && !entry.Folder?
    ensures Writable(fs[q := entry], p) <==> Writable(fs, p)
  {
  }

  /** `p` is `dir` or lies below it. */
  predicate Under(p: string, dir: string)
  {
    p == dir || StartsWith(p, dir + "/")
  }

  /** `rm -rf dir`. */
  function RemoveTree(fs: FileSystem, dir: string): (r: FileSystem)
    ensures forall p :: p in r <==> p in fs && !Under(p, dir)
    ensures forall p :: p in r ==> r[p] == fs[p]
  {
    map p | p in fs && !Under(p, dir) :: fs[p]
  }

  /** Removing a folder a second time changes nothing. */
  lemma RemoveTreeIdempotent(fs: FileSystem, dir: string)
    ensures RemoveTree(RemoveTree(fs, dir), dir) == RemoveTree(fs, dir)
  {
  }

  /** A file written outside the folder survives its removal: writing it
      before `rm -rf` or after gives the same filesystem. */
  lemma RemoveTreeAfterWrite(fs: FileSystem, dir: string, q: string, entry: Entry)
    requires !Under(q, dir)
    ensures RemoveTree(fs[q := entry], dir) == RemoveTree(fs, dir)[q := entry]
  {
  }

  /** One external process call, with the values the shell command line interpolates. */
  datatype Command =
      /** `plink --vcf {vcf} --extract {extract} {extra} --make-bed --out {out}` */
    | MakeBed(vcf: string, extract: string, extra: string, out: string)
      /** `plink --bfile {bfile} --keep {keep} --make-bed --out {out}` */
    | KeepBed(bfile: string, keep: string, out: string)
      /** `plink --bfile ... --clump ... --clump-p1 ... --clump-p2 ... --clump-r2 ... --clump-kb ...
          --clump-field ... --clump-snp-field ... --out ...` */
    | Clump(bfile: string, clumpFile: string, p1: string, p2: string, r2: string, kb: string,
            field: string, snpField: string, out: string)
      /** `plink2 --vcf {vcf} dosage=DS --score {scoreFile} {columns} '{modifier}' --memory {memory} --out {out}` */
    | Score(vcf: string, scoreFile: string, columns: string, modifier: string, memory: string, out: string)
      /** `{rCommand} --vanilla {script} {scoreFile} {phenoFile} {dataSet} {condition} {snpTotal} {out}` */
    | Stats(rCommand: string, script: string, scoreFile: string, phenoFile: string, dataSet: string,
            condition: string, snpTotal: nat, out: string)

  /** An entry of the log: a command issued, or a "not found ... skip" diagnostic naming a path. */
  datatype Event = Run(command: Command) | Skip(path: string)

  /** The commands of a log, in order. */
  function Runs(events: seq<Event>): seq<Command>
    decreases |events|
  {
    if events == [] then []
    else Runs(events[..|events| - 1]) + (if events[|events| - 1].Run? then [events[|events| - 1].command] else [])
  }

  /** The paths of the skip diagnostics of a log, in order. */
  function Skips(events: seq<Event>): seq<string>
    decreases |events|
  {
    if events == [] then []
    else Skips(events[..|events| - 1]) + (if events[|events| - 1].Skip? then [events[|events| - 1].path] else [])
  }

  /** Commands and diagnostics of consecutive logs are those of the parts, in order. */
  lemma {:induction false} RunsSkipsAppend(a: seq<Event>, b: seq<Event>)
    ensures Runs(a + b) == Runs(a) + Runs(b)
    ensures Skips(a + b) == Skips(a) + Skips(b)
    decreases |b|
  {
    if b == [] {
      assert a + b == a;
    } else {
      var init := b[..|b| - 1];
      assert (a + b)[..|a + b| - 1] == a + init;
      RunsSkipsAppend(a, init);
    }
  }

  /** Every entry of a log is a command or a diagnostic. */
  lemma {:induction false} RunsSkipsCount(events: seq<Event>)
    ensures |Runs(events)| + |Skips(events)| == |events|
    decreases |events|
  {
    if events != [] {
      RunsSkipsCount(events[..|events| - 1]);
    }
  }

  /** The result of a stage call: the new filesystem, what it appended to the
      log and how it ended. */
  datatype Effect = Effect(fs: FileSystem, events: seq<Event>, status: Status)
}
