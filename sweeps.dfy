/** A pass over chromosomes 1 .. n that, for each chromosome, reads what it
    needs, makes one table and writes it to a path of its own, stopping at the
    first exception. Step 1 and step 2 of `select_clump_snps` and
    `transfer_atcg` are passes of this shape; they differ in the paths and in
    what becomes of a missing input: the steps of `select_clump_snps` log a
    skip, `transfer_atcg` reads it regardless and raises. */
module Sweeps {
  import opened Outcomes
  import opened Tables
  import opened Files

  /** Chromosome k is processed rather than skipped. */
  predicate Taken(fs: FileSystem, src: nat -> string, skip: bool, k: nat)
  {
    src(k) in fs || !skip
  }

  /** One chromosome: make the table from the current filesystem and write it
      to `dst(n)`, or log a skip of the missing `src(n)`. Making the table and
      writing it can both raise. */
  function SweepStep(prev: Effect, src: nat -> string, dst: nat -> string,
                     make: (FileSystem, nat) -> Result<Table>, skip: bool, n: nat): Effect
  {
    if Taken(prev.fs, src, skip, n) then
      match make(prev.fs, n)
      case Err(e) => Effect(prev.fs, prev.events, Failed(e))
      case Ok(t) =>
        match Write(prev.fs, dst(n), Frame(t))
        case Err(e) => Effect(prev.fs, prev.events, Failed(e))
        case Ok(fs) => Effect(fs, prev.events, Done)
    else Effect(prev.fs, prev.events + [Skip(src(n))], Done)
  }

  /** Chromosomes 1 .. n in order; an exception ends the pass with the state reached. */
  function Sweep(start: Effect, src: nat -> string, dst: nat -> string,
                 make: (FileSystem, nat) -> Result<Table>, skip: bool, n: nat): Effect
    decreases n
  {
    if n == 0 then start
    else
      var prev := Sweep(start, src, dst, make, skip, n - 1);
      if prev.status.Failed? then prev else SweepStep(prev, src, dst, make, skip, n)
  }

  /** The skips a pass over 1 .. n logs, judged on the filesystem it starts from. */
  function SweepSkips(fs: FileSystem, src: nat -> string, skip: bool, n: nat): seq<Event>
    decreases n
  {
    if n == 0 then []
    else SweepSkips(fs, src, skip, n - 1) + (if Taken(fs, src, skip, n) then [] else [Skip(src(n))])
  }

  /** What later chromosomes read is never what earlier ones write, and no
      chromosome overwrites another's output. */
  ghost predicate Independent(src: nat -> string, dst: nat -> string,
                              make: (FileSystem, nat) -> Result<Table>)
  {
    (forall j, k :: j < k ==> dst(j) != dst(k) && src(k) != dst(j))
    && (forall j, k, fs: FileSystem, t: Table {:trigger make(fs[dst(j) := Frame(t)], k)} ::
          j < k ==> make(fs[dst(j) := Frame(t)], k) == make(fs, k))
  }

  /** Chromosome k can be made and its table written. */
  predicate Makes(fs: FileSystem, dst: nat -> string, make: (FileSystem, nat) -> Result<Table>, k: nat)
  {
    make(fs, k).Ok? && Writable(fs, dst(k))
  }

  /** The writes of chromosomes 1 .. m do not change what chromosome k > m
      sees, nor whether its output can be written. */
  lemma {:induction false} SweepKeepsInputs(start: Effect, src: nat -> string, dst: nat -> string,
                                            make: (FileSystem, nat) -> Result<Table>, skip: bool, m: nat, k: nat, n: nat)
    requires Independent(src, dst, make) && m < k <= n
    ensures var e := Sweep(start, src, dst, make, skip, m);
      (src(k) in e.fs <==> src(k) in start.fs) && make(e.fs, k) == make(start.fs, k)
      && (Writable(e.fs, dst(k)) <==> Writable(start.fs, dst(k)))
    decreases m
  {
    if m > 0 {
      SweepKeepsInputs(start, src, dst, make, skip, m - 1, k, n);
      var prev := Sweep(start, src, dst, make, skip, m - 1);
      if prev.status.Done? && Taken(prev.fs, src, skip, m) && Makes(prev.fs, dst, make, m) {
        var t := Frame(make(prev.fs, m).value);
        assert Sweep(start, src, dst, make, skip, m).fs == prev.fs[dst(m) := t];
        WritableAfterWrite(prev.fs, dst(m), t, dst(k));
      }
    }
  }

  /** A pass changes for no path whether it can be written: it only writes
      tables, and only where writing succeeds. */
  lemma {:induction false} SweepKeepsWritable(start: Effect, src: nat -> string, dst: nat -> string,
                                              make: (FileSystem, nat) -> Result<Table>, skip: bool, m: nat, p: string)
    ensures Writable(Sweep(start, src, dst, make, skip, m).fs, p) <==> Writable(start.fs, p)
    decreases m
  {
    if m > 0 {
      SweepKeepsWritable(start, src, dst, make, skip, m - 1, p);
      var prev := Sweep(start, src, dst, make, skip, m - 1);
      if prev.status.Done? && Taken(prev.fs, src, skip, m) && Makes(prev.fs, dst, make, m) {
        var t := Frame(make(prev.fs, m).value);
        assert Sweep(start, src, dst, make, skip, m).fs == prev.fs[dst(m) := t];
        WritableAfterWrite(prev.fs, dst(m), t, p);
      }
    }
  }

  /** A pass runs to its end exactly when every chromosome it takes can be
      made and written. */
  lemma {:induction false} SweepStatus(start: Effect, src: nat -> string, dst: nat -> string,
                                       make: (FileSystem, nat) -> Result<Table>, skip: bool, n: nat)
    requires start.status == Done && Independent(src, dst, make)
    ensures Sweep(start, src, dst, make, skip, n).status == Done <==> AllMake(start.fs, src, dst, make, skip, n)
    decreases n
  {
    if n > 0 {
      SweepStatus(start, src, dst, make, skip, n - 1);
      SweepKeepsInputs(start, src, dst, make, skip, n - 1, n, n);
      var prev := Sweep(start, src, dst, make, skip, n - 1);
      AllMakeStep(start.fs, src, dst, make, skip, n);
      if prev.status == Done {
        assert Sweep(start, src, dst, make, skip, n) == SweepStep(prev, src, dst, make, skip, n);
        SweepStepStatus(prev, src, dst, make, skip, n);
        assert Taken(prev.fs, src, skip, n) == Taken(start.fs, src, skip, n);
        assert Makes(prev.fs, dst, make, n) == Makes(start.fs, dst, make, n);
      } else {
        assert Sweep(start, src, dst, make, skip, n) == prev;
      }
    }
  }

  /** Every chromosome of 1 .. n that is taken can be made and written. */
  ghost predicate AllMake(fs: FileSystem, src: nat -> string, dst: nat -> string,
                          make: (FileSystem, nat) -> Result<Table>, skip: bool, n: nat)
  {
    forall k :: 1 <= k <= n && Taken(fs, src, skip, k) ==> Makes(fs, dst, make, k)
  }

  lemma AllMakeStep(fs: FileSystem, src: nat -> string, dst: nat -> string,
                    make: (FileSystem, nat) -> Result<Table>, skip: bool, n: nat)
    requires n > 0
    ensures AllMake(fs, src, dst, make, skip, n)
        <==> AllMake(fs, src, dst, make, skip, n - 1) && (Taken(fs, src, skip, n) ==> Makes(fs, dst, make, n))
  {
  }

  /** One chromosome after a normal prefix: it ends normally exactly when it is
      skipped or can be made and written, and then writes its table there. */
  lemma SweepStepStatus(prev: Effect, src: nat -> string, dst: nat -> string,
                        make: (FileSystem, nat) -> Result<Table>, skip: bool, n: nat)
    requires prev.status == Done
    ensures var e := SweepStep(prev, src, dst, make, skip, n);
      (e.status == Done <==> (Taken(prev.fs, src, skip, n) ==> Makes(prev.fs, dst, make, n)))
      && (e.status == Done && Taken(prev.fs, src, skip, n) ==>
            e.fs == prev.fs[dst(n) := Frame(make(prev.fs, n).value)] && e.events == prev.events)
      && (!Taken(prev.fs, src, skip, n) ==> e.fs == prev.fs && e.events == prev.events + [Skip(src(n))])
  {
  }

  /** An exception ends the pass: the chromosomes after it change nothing. */
  lemma {:induction false} SweepStopped(start: Effect, src: nat -> string, dst: nat -> string,
                                       make: (FileSystem, nat) -> Result<Table>, skip: bool, m: nat, n: nat)
    requires m <= n && Sweep(start, src, dst, make, skip, m).status.Failed?
    ensures Sweep(start, src, dst, make, skip, n) == Sweep(start, src, dst, make, skip, m)
    decreases n
  {
    if n > m {
      SweepStopped(start, src, dst, make, skip, m, n - 1);
    }
  }

  /** A pass that skips nothing logs nothing, however it ends. */
  lemma {:induction false} SweepSilent(start: Effect, src: nat -> string, dst: nat -> string,
                                      make: (FileSystem, nat) -> Result<Table>, n: nat)
    ensures Sweep(start, src, dst, make, false, n).events == start.events
    decreases n
  {
    if n > 0 {
      SweepSilent(start, src, dst, make, n - 1);
    }
  }

  /** The paths a pass over 1 .. n writes, judged on the filesystem it starts from. */
  function SweepOutputs(fs: FileSystem, src: nat -> string, dst: nat -> string, skip: bool, n: nat): set<string>
    decreases n
  {
    if n == 0 then {}
    else SweepOutputs(fs, src, dst, skip, n - 1) + (if Taken(fs, src, skip, n) then {dst(n)} else {})
  }

  /** Everything a pass over 1 .. n promises once it has run to its end: each
      chromosome it took has its table written, computed from the filesystem
      the pass started from; no other path changed; and the log gained exactly
      the skips, in chromosome order. */
  ghost predicate SweepDone(start: Effect, e: Effect, src: nat -> string, dst: nat -> string,
                            make: (FileSystem, nat) -> Result<Table>, skip: bool, n: nat)
  {
    e.status == Done
    && (forall k :: 1 <= k <= n && Taken(start.fs, src, skip, k) ==>
          make(start.fs, k).Ok? && dst(k) in e.fs && e.fs[dst(k)] == Frame(make(start.fs, k).value))
    && (forall p :: p !in SweepOutputs(start.fs, src, dst, skip, n) ==>
          (p in e.fs <==> p in start.fs) && (p in start.fs ==> e.fs[p] == start.fs[p]))
    && e.events == start.events + SweepSkips(start.fs, src, skip, n)
  }

  /** The outputs are exactly the `dst` paths of the chromosomes taken. */
  lemma {:induction false} SweepOutputsMembers(fs: FileSystem, src: nat -> string, dst: nat -> string, skip: bool, n: nat, p: string)
    ensures p in SweepOutputs(fs, src, dst, skip, n) <==> exists k :: 1 <= k <= n && Taken(fs, src, skip, k) && p == dst(k)
    decreases n
  {
    if n > 0 {
      SweepOutputsMembers(fs, src, dst, skip, n - 1, p);
    }
  }

  /** A path no chromosome writes is not an output. */
  lemma SweepOutputsAvoid(fs: FileSystem, src: nat -> string, dst: nat -> string, skip: bool, n: nat, p: string)
    requires forall k :: 1 <= k <= n ==> p != dst(k)
    ensures p !in SweepOutputs(fs, src, dst, skip, n)
  {
    SweepOutputsMembers(fs, src, dst, skip, n, p);
  }

  /** A pass that has run to its end keeps the promises of `SweepDone`. */
  lemma {:induction false} SweepResult(start: Effect, src: nat -> string, dst: nat -> string,
                                       make: (FileSystem, nat) -> Result<Table>, skip: bool, n: nat)
    requires start.status == Done && Independent(src, dst, make)
    requires Sweep(start, src, dst, make, skip, n).status == Done
    ensures SweepDone(start, Sweep(start, src, dst, make, skip, n), src, dst, make, skip, n)
    decreases n
  {
    if n > 0 {
      assert Sweep(start, src, dst, make, skip, n - 1).status == Done;
      SweepResult(start, src, dst, make, skip, n - 1);
      SweepResultStep(start, src, dst, make, skip, n);
    }
  }

  /** The step of `SweepResult`: one more chromosome after a completed prefix. */
  lemma SweepResultStep(start: Effect, src: nat -> string, dst: nat -> string,
                        make: (FileSystem, nat) -> Result<Table>, skip: bool, n: nat)
    requires n > 0 && start.status == Done && Independent(src, dst, make)
    requires Sweep(start, src, dst, make, skip, n).status == Done
    requires SweepDone(start, Sweep(start, src, dst, make, skip, n - 1), src, dst, make, skip, n - 1)
    ensures SweepDone(start, Sweep(start, src, dst, make, skip, n), src, dst, make, skip, n)
  {
    var prev := Sweep(start, src, dst, make, skip, n - 1);
    SweepKeepsInputs(start, src, dst, make, skip, n - 1, n, n);
    assert Sweep(start, src, dst, make, skip, n) == SweepStep(prev, src, dst, make, skip, n);
    assert forall j :: 1 <= j < n ==> dst(j) != dst(n);
    SweepStepDone(start, prev, src, dst, make, skip, n);
  }

  /** One more chromosome keeps the promises of `SweepDone`. */
  lemma SweepStepDone(start: Effect, prev: Effect, src: nat -> string, dst: nat -> string,
                      make: (FileSystem, nat) -> Result<Table>, skip: bool, n: nat)
    requires n > 0 && SweepDone(start, prev, src, dst, make, skip, n - 1)
    requires (src(n) in prev.fs <==> src(n) in start.fs) && make(prev.fs, n) == make(start.fs, n)
    requires SweepStep(prev, src, dst, make, skip, n).status == Done
    requires forall j :: 1 <= j < n ==> dst(j) != dst(n)
    ensures SweepDone(start, SweepStep(prev, src, dst, make, skip, n), src, dst, make, skip, n)
  {
    var e := SweepStep(prev, src, dst, make, skip, n);
    SweepStepStatus(prev, src, dst, make, skip, n);
    assert Taken(prev.fs, src, skip, n) == Taken(start.fs, src, skip, n);
    if Taken(start.fs, src, skip, n) {
      assert e.fs == prev.fs[dst(n) := Frame(make(start.fs, n).value)] && e.events == prev.events;
      assert start.events + SweepSkips(start.fs, src, skip, n - 1) == e.events;
    } else {
      assert e.fs == prev.fs && e.events == prev.events + [Skip(src(n))];
      assert e.events == start.events + SweepSkips(start.fs, src, skip, n);
    }
  }

  /** The table a completed pass wrote for one chromosome it took. */
  lemma SweepWritten(start: Effect, src: nat -> string, dst: nat -> string,
                     make: (FileSystem, nat) -> Result<Table>, skip: bool, n: nat, k: nat)
    requires start.status == Done && Independent(src, dst, make)
    requires Sweep(start, src, dst, make, skip, n).status == Done
    requires 1 <= k <= n && Taken(start.fs, src, skip, k)
    ensures var e := Sweep(start, src, dst, make, skip, n);
      make(start.fs, k).Ok? && dst(k) in e.fs && e.fs[dst(k)] == Frame(make(start.fs, k).value)
  {
    SweepResult(start, src, dst, make, skip, n);
  }

  /** A completed pass leaves a path that no chromosome writes as it was. */
  lemma SweepKeeps(start: Effect, src: nat -> string, dst: nat -> string,
                   make: (FileSystem, nat) -> Result<Table>, skip: bool, n: nat, p: string)
    requires start.status == Done && Independent(src, dst, make)
    requires Sweep(start, src, dst, make, skip, n).status == Done
    requires forall k :: 1 <= k <= n ==> p != dst(k)
    ensures var e := Sweep(start, src, dst, make, skip, n);
      (p in e.fs <==> p in start.fs) && (p in start.fs ==> e.fs[p] == start.fs[p])
  {
    SweepResult(start, src, dst, make, skip, n);
    SweepOutputsAvoid(start.fs, src, dst, skip, n, p);
  }
}
