/** The loop shape of both bfile generators: for each chromosome k = 1 .. n,
    list an outer folder; for each listed name x it uses, list an inner folder
    and issue one command for each listed name y it uses. Listing a missing
    folder raises. The filesystem does not change during the loop, so every
    listing of a folder gives the same names. */
module Nested {
  import opened Outcomes
  import opened Files

  /** The log so far and whether an exception ended the loop. */
  datatype Log = Log(events: seq<Event>, status: Status)

  /** The commands for outer name `x`: one per inner name `k` uses, in listing order. */
  function InnerRuns(inner: seq<string>, useInner: (string, nat) -> bool,
                     cmd: (string, string, nat) -> Command, x: string, k: nat): seq<Event>
    decreases |inner|
  {
    if inner == [] then []
    else
      var y := inner[|inner| - 1];
      InnerRuns(inner[..|inner| - 1], useInner, cmd, x, k) + (if useInner(y, k) then [Run(cmd(x, y, k))] else [])
  }

  /** The loop over the outer listing for chromosome `k`. */
  function OuterPass(fs: FileSystem, innerDir: string, outer: seq<string>,
                     useOuter: (string, nat) -> bool, useInner: (string, nat) -> bool,
                     cmd: (string, string, nat) -> Command, k: nat): Log
    decreases |outer|
  {
    if outer == [] then Log([], Done)
    else
      var prev := OuterPass(fs, innerDir, outer[..|outer| - 1], useOuter, useInner, cmd, k);
      var x := outer[|outer| - 1];
      if prev.status.Failed? || !useOuter(x, k) then prev
      else match ListDir(fs, innerDir)
        case Err(e) => Log(prev.events, Failed(e))
        case Ok(inner) => Log(prev.events + InnerRuns(inner, useInner, cmd, x, k), Done)
  }

  /** An exception ends the loop: the outer names after it add nothing. */
  lemma {:induction false} OuterPassStopped(fs: FileSystem, innerDir: string, outer: seq<string>,
                                           useOuter: (string, nat) -> bool, useInner: (string, nat) -> bool,
                                           cmd: (string, string, nat) -> Command, k: nat, j: nat)
    requires j <= |outer| && OuterPass(fs, innerDir, outer[..j], useOuter, useInner, cmd, k).status.Failed?
    ensures OuterPass(fs, innerDir, outer, useOuter, useInner, cmd, k)
         == OuterPass(fs, innerDir, outer[..j], useOuter, useInner, cmd, k)
    decreases |outer|
  {
    if j < |outer| {
      var init := outer[..|outer| - 1];
      assert init[..j] == outer[..j];
      OuterPassStopped(fs, innerDir, init, useOuter, useInner, cmd, k, j);
    } else {
      assert outer[..j] == outer;
    }
  }

  /** Chromosomes 1 .. n. */
  function NestedPass(fs: FileSystem, outerDir: string, innerDir: string,
                      useOuter: (string, nat) -> bool, useInner: (string, nat) -> bool,
                      cmd: (string, string, nat) -> Command, n: nat): Log
    decreases n
  {
    if n == 0 then Log([], Done)
    else
      var prev := NestedPass(fs, outerDir, innerDir, useOuter, useInner, cmd, n - 1);
      if prev.status.Failed? then prev
      else match ListDir(fs, outerDir)
        case Err(e) => Log(prev.events, Failed(e))
        case Ok(outer) =>
          var r := OuterPass(fs, innerDir, outer, useOuter, useInner, cmd, n);
          Log(prev.events + r.events, r.status)
  }

  /** An exception ends the loop: the chromosomes after it add nothing. */
  lemma {:induction false} NestedPassStopped(fs: FileSystem, outerDir: string, innerDir: string,
                                            useOuter: (string, nat) -> bool, useInner: (string, nat) -> bool,
                                            cmd: (string, string, nat) -> Command, m: nat, n: nat)
    requires m <= n && NestedPass(fs, outerDir, innerDir, useOuter, useInner, cmd, m).status.Failed?
    ensures NestedPass(fs, outerDir, innerDir, useOuter, useInner, cmd, n)
         == NestedPass(fs, outerDir, innerDir, useOuter, useInner, cmd, m)
    decreases n
  {
    if n > m {
      NestedPassStopped(fs, outerDir, innerDir, useOuter, useInner, cmd, m, n - 1);
    }
  }

  // ---- a reference definition ----

  /** The names of a listing chromosome `k` uses, in listing order. */
  function Selected(names: seq<string>, use: (string, nat) -> bool, k: nat): seq<string>
    decreases |names|
  {
    if names == [] then []
    else Selected(names[..|names| - 1], use, k) + (if use(names[|names| - 1], k) then [names[|names| - 1]] else [])
  }

  /** One command per pair of a selected outer name and a selected inner name,
      outer-major. */
  function Cross(xs: seq<string>, ys: seq<string>, cmd: (string, string, nat) -> Command, k: nat): seq<Event>
    decreases |xs|
  {
    if xs == [] then []
    else Cross(xs[..|xs| - 1], ys, cmd, k) + seq(|ys|, j requires 0 <= j < |ys| => Run(cmd(xs[|xs| - 1], ys[j], k)))
  }

  /** The listing of `p`, or nothing when it cannot be listed. */
  function Listing(fs: FileSystem, p: string): seq<string>
  {
    if ListDir(fs, p).Ok? then ListDir(fs, p).value else []
  }

  /** The log of chromosomes 1 .. n. */
  function NestedEvents(outer: seq<string>, inner: seq<string>,
                        useOuter: (string, nat) -> bool, useInner: (string, nat) -> bool,
                        cmd: (string, string, nat) -> Command, n: nat): seq<Event>
    decreases n
  {
    if n == 0 then []
    else NestedEvents(outer, inner, useOuter, useInner, cmd, n - 1)
         + Cross(Selected(outer, useOuter, n), Selected(inner, useInner, n), cmd, n)
  }

  // ---- lemmas ----

  lemma {:induction false} SelectedMembers(names: seq<string>, use: (string, nat) -> bool, k: nat)
    ensures forall x :: x in Selected(names, use, k) <==> x in names && use(x, k)
    decreases |names|
  {
    if names != [] {
      SelectedMembers(names[..|names| - 1], use, k);
      assert names == names[..|names| - 1] + [names[|names| - 1]];
    }
  }

  /** A listing every name of which is used is selected whole. */
  lemma {:induction false} SelectedAll(names: seq<string>, use: (string, nat) -> bool, k: nat)
    requires forall i :: 0 <= i < |names| ==> use(names[i], k)
    ensures Selected(names, use, k) == names
    decreases |names|
  {
    if names != [] {
      SelectedAll(names[..|names| - 1], use, k);
    }
  }

  /** The inner loop issues one command per selected inner name. */
  lemma {:induction false} InnerRunsAreSelected(inner: seq<string>, useInner: (string, nat) -> bool,
                                               cmd: (string, string, nat) -> Command, x: string, k: nat)
    ensures var ys := Selected(inner, useInner, k);
      InnerRuns(inner, useInner, cmd, x, k) == seq(|ys|, j requires 0 <= j < |ys| => Run(cmd(x, ys[j], k)))
    decreases |inner|
  {
    if inner != [] {
      InnerRunsAreSelected(inner[..|inner| - 1], useInner, cmd, x, k);
    }
  }

  /** The outer loop for one chromosome fails exactly when it uses some outer
      name and the inner folder cannot be listed, with nothing logged; otherwise
      it logs `Cross` of the selected names. */
  lemma {:induction false} OuterPassResult(fs: FileSystem, innerDir: string, outer: seq<string>,
                                          useOuter: (string, nat) -> bool, useInner: (string, nat) -> bool,
                                          cmd: (string, string, nat) -> Command, k: nat)
    ensures var r := OuterPass(fs, innerDir, outer, useOuter, useInner, cmd, k);
      (r.status == Done <==> |Selected(outer, useOuter, k)| == 0 || ListDir(fs, innerDir).Ok?)
      && (r.status.Failed? ==> r.events == [])
      && (r.status == Done ==>
            r.events == Cross(Selected(outer, useOuter, k), Selected(Listing(fs, innerDir), useInner, k), cmd, k))
    decreases |outer|
  {
    if outer != [] {
      var init := outer[..|outer| - 1];
      var x := outer[|outer| - 1];
      OuterPassResult(fs, innerDir, init, useOuter, useInner, cmd, k);
      var prev := OuterPass(fs, innerDir, init, useOuter, useInner, cmd, k);
      var xs0 := Selected(init, useOuter, k);
      if useOuter(x, k) {
        assert Selected(outer, useOuter, k) == xs0 + [x];
        if prev.status == Done && ListDir(fs, innerDir).Ok? {
          var ys := Selected(Listing(fs, innerDir), useInner, k);
          InnerRunsAreSelected(Listing(fs, innerDir), useInner, cmd, x, k);
          CrossSnoc(xs0, x, ys, cmd, k);
          assert OuterPass(fs, innerDir, outer, useOuter, useInner, cmd, k)
              == Log(prev.events + InnerRuns(Listing(fs, innerDir), useInner, cmd, x, k), Done);
        }
      } else {
        assert Selected(outer, useOuter, k) == xs0;
      }
    }
  }

  /** One more outer name adds its row of commands. */
  lemma CrossSnoc(xs: seq<string>, x: string, ys: seq<string>, cmd: (string, string, nat) -> Command, k: nat)
    ensures Cross(xs + [x], ys, cmd, k)
         == Cross(xs, ys, cmd, k) + seq(|ys|, j requires 0 <= j < |ys| => Run(cmd(x, ys[j], k)))
  {
    assert (xs + [x])[..|xs|] == xs;
  }

  /** A single outer name whose commands are all `c` yields `c` once per inner name. */
  lemma CrossConstant(x: string, ys: seq<string>, cmd: (string, string, nat) -> Command, k: nat, c: Command)
    requires forall i :: 0 <= i < |ys| ==> cmd(x, ys[i], k) == c
    ensures Cross([x], ys, cmd, k) == seq(|ys|, _ => Run(c))
  {
    CrossSnoc([], x, ys, cmd, k);
    assert [] + [x] == [x];
  }

  /** No chromosome among 1 .. n uses an outer name. */
  ghost predicate NoneSelected(outer: seq<string>, useOuter: (string, nat) -> bool, n: nat)
  {
    forall k :: 1 <= k <= n ==> |Selected(outer, useOuter, k)| == 0
  }

  /** When the loop fails: the outer folder cannot be listed, or some
      chromosome uses an outer name and the inner folder cannot be listed. */
  lemma {:induction false} NestedStatus(fs: FileSystem, outerDir: string, innerDir: string,
                                       useOuter: (string, nat) -> bool, useInner: (string, nat) -> bool,
                                       cmd: (string, string, nat) -> Command, n: nat)
    ensures NestedPass(fs, outerDir, innerDir, useOuter, useInner, cmd, n).status == Done <==>
      n == 0
      || (ListDir(fs, outerDir).Ok? && (ListDir(fs, innerDir).Ok? || NoneSelected(Listing(fs, outerDir), useOuter, n)))
    decreases n
  {
    if n > 0 {
      NestedStatus(fs, outerDir, innerDir, useOuter, useInner, cmd, n - 1);
      var prev := NestedPass(fs, outerDir, innerDir, useOuter, useInner, cmd, n - 1);
      var outer := Listing(fs, outerDir);
      if prev.status.Failed? {
        assert !NoneSelected(outer, useOuter, n - 1) ==> !NoneSelected(outer, useOuter, n);
      } else if ListDir(fs, outerDir).Ok? {
        OuterPassResult(fs, innerDir, outer, useOuter, useInner, cmd, n);
        assert NoneSelected(outer, useOuter, n)
           <==> NoneSelected(outer, useOuter, n - 1) && |Selected(outer, useOuter, n)| == 0;
      }
    }
  }

  /** A completed loop has logged `NestedEvents`. */
  lemma {:induction false} NestedDone(fs: FileSystem, outerDir: string, innerDir: string,
                                     useOuter: (string, nat) -> bool, useInner: (string, nat) -> bool,
                                     cmd: (string, string, nat) -> Command, n: nat)
    requires NestedPass(fs, outerDir, innerDir, useOuter, useInner, cmd, n).status == Done
    ensures NestedPass(fs, outerDir, innerDir, useOuter, useInner, cmd, n).events
         == NestedEvents(Listing(fs, outerDir), Listing(fs, innerDir), useOuter, useInner, cmd, n)
    decreases n
  {
    if n > 0 {
      NestedDone(fs, outerDir, innerDir, useOuter, useInner, cmd, n - 1);
      OuterPassResult(fs, innerDir, Listing(fs, outerDir), useOuter, useInner, cmd, n);
    }
  }

  /** A failed loop has logged nothing: the chromosomes before the failing one
      used no outer name. */
  lemma {:induction false} NestedFailedSilent(fs: FileSystem, outerDir: string, innerDir: string,
                                             useOuter: (string, nat) -> bool, useInner: (string, nat) -> bool,
                                             cmd: (string, string, nat) -> Command, n: nat)
    requires NestedPass(fs, outerDir, innerDir, useOuter, useInner, cmd, n).status.Failed?
    ensures NestedPass(fs, outerDir, innerDir, useOuter, useInner, cmd, n).events == []
    decreases n
  {
    var prev := NestedPass(fs, outerDir, innerDir, useOuter, useInner, cmd, n - 1);
    if prev.status.Failed? {
      NestedFailedSilent(fs, outerDir, innerDir, useOuter, useInner, cmd, n - 1);
    } else if ListDir(fs, outerDir).Ok? {
      var outer := Listing(fs, outerDir);
      OuterPassResult(fs, innerDir, outer, useOuter, useInner, cmd, n);
      NestedStatus(fs, outerDir, innerDir, useOuter, useInner, cmd, n - 1);
      NestedDone(fs, outerDir, innerDir, useOuter, useInner, cmd, n - 1);
      NoneSelectedLogsNothing(outer, Listing(fs, innerDir), useOuter, useInner, cmd, n - 1);
    }
  }

  /** The loop is the reference definition: it fails exactly when the outer
      folder cannot be listed, or some chromosome uses an outer name and the
      inner folder cannot be listed, and then has logged nothing; otherwise it
      logs `NestedEvents`. */
  lemma NestedPassResult(fs: FileSystem, outerDir: string, innerDir: string,
                         useOuter: (string, nat) -> bool, useInner: (string, nat) -> bool,
                         cmd: (string, string, nat) -> Command, n: nat)
    ensures var r := NestedPass(fs, outerDir, innerDir, useOuter, useInner, cmd, n);
      (r.status == Done <==>
         n == 0
         || (ListDir(fs, outerDir).Ok? && (ListDir(fs, innerDir).Ok? || NoneSelected(Listing(fs, outerDir), useOuter, n))))
      && (r.status.Failed? ==> r.events == [])
      && (r.status == Done ==>
            r.events == NestedEvents(Listing(fs, outerDir), Listing(fs, innerDir), useOuter, useInner, cmd, n))
  {
    NestedStatus(fs, outerDir, innerDir, useOuter, useInner, cmd, n);
    var r := NestedPass(fs, outerDir, innerDir, useOuter, useInner, cmd, n);
    if r.status.Failed? {
      NestedFailedSilent(fs, outerDir, innerDir, useOuter, useInner, cmd, n);
    } else {
      NestedDone(fs, outerDir, innerDir, useOuter, useInner, cmd, n);
    }
  }

  /** Chromosomes that use no outer name log nothing. */
  lemma {:induction false} NoneSelectedLogsNothing(outer: seq<string>, inner: seq<string>,
                                                  useOuter: (string, nat) -> bool, useInner: (string, nat) -> bool,
                                                  cmd: (string, string, nat) -> Command, n: nat)
    requires NoneSelected(outer, useOuter, n)
    ensures NestedEvents(outer, inner, useOuter, useInner, cmd, n) == []
    decreases n
  {
    if n > 0 {
      NoneSelectedLogsNothing(outer, inner, useOuter, useInner, cmd, n - 1);
      assert Selected(outer, useOuter, n) == [];
    }
  }

  /** `Cross` holds exactly the commands of the pairs, one entry per pair. */
  lemma {:induction false} CrossMembers(xs: seq<string>, ys: seq<string>, cmd: (string, string, nat) -> Command, k: nat)
    ensures |Cross(xs, ys, cmd, k)| == |xs| * |ys|
    ensures forall e :: e in Cross(xs, ys, cmd, k) <==>
      exists x, y :: x in xs && y in ys && e == Run(cmd(x, y, k))
    decreases |xs|
  {
    if xs != [] {
      var init := xs[..|xs| - 1];
      var x := xs[|xs| - 1];
      CrossMembers(init, ys, cmd, k);
      var row := seq(|ys|, j requires 0 <= j < |ys| => Run(cmd(x, ys[j], k)));
      assert Cross(xs, ys, cmd, k) == Cross(init, ys, cmd, k) + row;
      assert xs == init + [x];
      forall e | e in Cross(xs, ys, cmd, k)
        ensures exists x', y :: x' in xs && y in ys && e == Run(cmd(x', y, k))
      {
        CrossMemberOut(init, x, ys, cmd, k, e);
      }
      forall e | exists x', y :: x' in xs && y in ys && e == Run(cmd(x', y, k))
        ensures e in Cross(xs, ys, cmd, k)
      {
        var x', y :| x' in xs && y in ys && e == Run(cmd(x', y, k));
        CrossMemberIn(init, x, ys, cmd, k, x', y);
      }
      assert |xs| * |ys| == |init| * |ys| + |ys|;
    }
  }

  /** A command of the last outer name's row, or of the rows before it, pairs two names. */
  lemma CrossMemberOut(init: seq<string>, x: string, ys: seq<string>, cmd: (string, string, nat) -> Command, k: nat, e: Event)
    requires forall e :: e in Cross(init, ys, cmd, k) ==> exists x, y :: x in init && y in ys && e == Run(cmd(x, y, k))
    requires e in Cross(init, ys, cmd, k) + seq(|ys|, j requires 0 <= j < |ys| => Run(cmd(x, ys[j], k)))
    ensures exists x', y :: x' in init + [x] && y in ys && e == Run(cmd(x', y, k))
  {
    var row := seq(|ys|, j requires 0 <= j < |ys| => Run(cmd(x, ys[j], k)));
    if e in row {
      var j :| 0 <= j < |ys| && row[j] == e;
      assert x in init + [x] && ys[j] in ys;
    } else {
      var x', y :| x' in init && y in ys && e == Run(cmd(x', y, k));
      assert x' in init + [x];
    }
  }

  /** Each pair of names has its command in the last row or in the rows before it. */
  lemma CrossMemberIn(init: seq<string>, x: string, ys: seq<string>, cmd: (string, string, nat) -> Command, k: nat, x': string, y: string)
    requires forall e :: (exists x, y :: x in init && y in ys && e == Run(cmd(x, y, k))) ==> e in Cross(init, ys, cmd, k)
    requires x' in init + [x] && y in ys
    ensures Run(cmd(x', y, k)) in Cross(init, ys, cmd, k) + seq(|ys|, j requires 0 <= j < |ys| => Run(cmd(x, ys[j], k)))
  {
    var row := seq(|ys|, j requires 0 <= j < |ys| => Run(cmd(x, ys[j], k)));
    if x' == x {
      var j :| 0 <= j < |ys| && ys[j] == y;
      assert row[j] == Run(cmd(x', y, k));
    } else {
      assert x' in init;
    }
  }
}
