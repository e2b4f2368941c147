/** The score aggregation of `combine_prs` (gprs/gprs.py:350-377): the rows of
    the `.sscore` files, what each data row contributes, and the reference
    totals per sample id that the combined table must hold. */
module Scores {
  import opened Outcomes

  /** A whitespace-separated field of a `.sscore` line, with the value `float()`
      gives it (None where `float()` raises). */
  datatype Token = Token(text: string, number: Option<real>)

  /** What one data row adds to its sample's list: the allele count `row[1]`
      and the weighted score `row[3] * row[1]`. */
  datatype Contribution = Contribution(id: string, alleles: real, weighted: real)

  /** Lines 362-366 for the line at index `line`, with the IndexError or
      ValueError Python raises first. */
  function ParseScoreRow(row: seq<Token>, line: nat): (r: Result<Contribution>)
    ensures r.Ok? <==> |row| >= 4 && row[1].number.Some? && row[3].number.Some?
    ensures r.Ok? ==>
      r.value.id == row[0].text && r.value.alleles == row[1].number.value
      && r.value.weighted == row[3].number.value * row[1].number.value
    ensures r.Err? ==> r.error.MissingField? || r.error.NotANumber?
  {
    if |row| < 2 then Err(MissingField(line, |row|))
    else if row[1].number.None? then Err(NotANumber(line, row[1].text))
    else if |row| < 4 then Err(MissingField(line, 3))
    else if row[3].number.None? then Err(NotANumber(line, row[3].text))
    else Ok(Contribution(row[0].text, row[1].number.value, row[3].number.value * row[1].number.value))
  }

  /** The contributions of lines 1 .. n-1 of a file (line 0, the header, is skipped). */
  function ParseScoreLines(lines: seq<seq<Token>>, n: nat): (r: Result<seq<Contribution>>)
    requires n <= |lines|
    ensures r.Ok? <==> forall k :: 1 <= k < n ==> ParseScoreRow(lines[k], k).Ok?
    ensures r.Ok? ==> |r.value| == (if n == 0 then 0 else n - 1)
    ensures r.Ok? ==> forall k :: 1 <= k < n ==> r.value[k - 1] == ParseScoreRow(lines[k], k).value
    decreases n
  {
    if n <= 1 then Ok([])
    else
      match ParseScoreLines(lines, n - 1)
      case Err(e) => Err(e)
      case Ok(cs) =>
        match ParseScoreRow(lines[n - 1], n - 1)
        case Err(e) => Err(e)
        case Ok(c) => Ok(cs + [c])
  }

  /** The first bad line decides the outcome: the lines after it are not parsed. */
  lemma {:induction false} ParseStopped(lines: seq<seq<Token>>, m: nat, n: nat)
    requires m <= n <= |lines| && ParseScoreLines(lines, m).Err?
    ensures ParseScoreLines(lines, n) == ParseScoreLines(lines, m)
    decreases n
  {
    if n > m {
      ParseStopped(lines, m, n - 1);
    }
  }

  /** The sample ids in order of first appearance (the key order of the
      `defaultdict`). */
  function FirstAppearance(cs: seq<Contribution>): (ids: seq<string>)
    ensures forall i, j :: 0 <= i < j < |ids| ==> ids[i] != ids[j]
    ensures forall id :: id in ids <==> exists c :: c in cs && c.id == id
    decreases |cs|
  {
    if cs == [] then []
    else
      var init := cs[..|cs| - 1];
      var prev := FirstAppearance(init);
      assert forall c :: c in init ==> c in cs;
      assert cs == init + [cs[|cs| - 1]];
      if cs[|cs| - 1].id in prev then prev else prev + [cs[|cs| - 1].id]
  }

  /** Ids already seen keep their place as more rows arrive: the order of the
      ids of `a` is a prefix of the order for `a + b`. */
  lemma {:induction false} FirstAppearancePrefix(a: seq<Contribution>, b: seq<Contribution>)
    ensures var p := FirstAppearance(a);
      |p| <= |FirstAppearance(a + b)| && FirstAppearance(a + b)[..|p|] == p
    decreases |b|
  {
    if b == [] {
      assert a + b == a;
    } else {
      var init := b[..|b| - 1];
      assert (a + b)[..|a + b| - 1] == a + init;
      FirstAppearancePrefix(a, init);
    }
  }

  /** The reference totals: ALLELE_CT and SCORE_SUM of `id` over all rows. */
  function AlleleTotal(cs: seq<Contribution>, id: string): real
    decreases |cs|
  {
    if cs == [] then 0.0
    else AlleleTotal(cs[..|cs| - 1], id) + (if cs[|cs| - 1].id == id then cs[|cs| - 1].alleles else 0.0)
  }

  function ScoreTotal(cs: seq<Contribution>, id: string): real
    decreases |cs|
  {
    if cs == [] then 0.0
    else ScoreTotal(cs[..|cs| - 1], id) + (if cs[|cs| - 1].id == id then cs[|cs| - 1].weighted else 0.0)
  }

  /** Totals add up over files: rows `a` followed by rows `b` total the sum of their totals. */
  lemma {:induction false} TotalsAdditive(a: seq<Contribution>, b: seq<Contribution>, id: string)
    ensures AlleleTotal(a + b, id) == AlleleTotal(a, id) + AlleleTotal(b, id)
    ensures ScoreTotal(a + b, id) == ScoreTotal(a, id) + ScoreTotal(b, id)
    decreases |b|
  {
    if b == [] {
      assert a + b == a;
    } else {
      var init := b[..|b| - 1];
      assert (a + b)[..|a + b| - 1] == a + init;
      TotalsAdditive(a, init, id);
    }
  }

  /** The totals do not depend on the order in which the chromosome files are read. */
  lemma TotalsOrderIndependent(a: seq<Contribution>, b: seq<Contribution>, id: string)
    ensures AlleleTotal(a + b, id) == AlleleTotal(b + a, id)
    ensures ScoreTotal(a + b, id) == ScoreTotal(b + a, id)
  {
    TotalsAdditive(a, b, id);
    TotalsAdditive(b, a, id);
  }

  /** An id that never appears totals zero. */
  lemma {:induction false} TotalsOfAbsentId(cs: seq<Contribution>, id: string)
    requires forall c :: c in cs ==> c.id != id
    ensures AlleleTotal(cs, id) == 0.0 && ScoreTotal(cs, id) == 0.0
    decreases |cs|
  {
    if cs != [] {
      var init := cs[..|cs| - 1];
      assert forall c :: c in init ==> c in cs;
      TotalsOfAbsentId(init, id);
    }
  }

  /** A row of the combined table: `{id}\t{ALLELE_CT}\t{SCORE_SUM}`. */
  datatype ScoreRow = ScoreRow(id: string, alleleCount: real, scoreSum: real)

  /** The combined table: one row per distinct id, in first
      appearance order, with that id's totals. */
  function Combine(cs: seq<Contribution>): (rows: seq<ScoreRow>)
  {
    var ids := FirstAppearance(cs);
    seq(|ids|, i requires 0 <= i < |ids| => ScoreRow(ids[i], AlleleTotal(cs, ids[i]), ScoreTotal(cs, ids[i])))
  }

  /** The ids of the rows of a table, in row order. */
  function RowIds(rows: seq<ScoreRow>): (ids: seq<string>)
    ensures |ids| == |rows| && forall i :: 0 <= i < |rows| ==> ids[i] == rows[i].id
  {
    seq(|rows|, i requires 0 <= i < |rows| => rows[i].id)
  }

  /** What the combined table holds: each row the totals of its id; distinct
      ids; a row for an id exactly when some gathered row has it; and the rows
      in order of first appearance of their ids. */
  lemma CombineFacts(cs: seq<Contribution>)
    ensures var rows := Combine(cs);
      (forall i :: 0 <= i < |rows| ==>
         rows[i].alleleCount == AlleleTotal(cs, rows[i].id) && rows[i].scoreSum == ScoreTotal(cs, rows[i].id))
      && (forall i, j :: 0 <= i < j < |rows| ==> rows[i].id != rows[j].id)
      && (forall x :: x in cs ==> x.id in RowIds(rows))
      && (forall i :: 0 <= i < |rows| ==> exists x :: x in cs && x.id == rows[i].id)
      && InAppearanceOrder(cs, RowIds(rows))
  {
    var rows := Combine(cs);
    var ids := FirstAppearance(cs);
    FirstAppearanceOrder(cs);
    assert RowIds(rows) == ids;
    forall i | 0 <= i < |rows|
      ensures exists x :: x in cs && x.id == rows[i].id
    {
      assert ids[i] in ids;
    }
  }

  /** The per-id list of `(allele count, weighted score)` pairs the `defaultdict` holds. */
  function Pairs(cs: seq<Contribution>, id: string): seq<(real, real)>
    decreases |cs|
  {
    if cs == [] then []
    else if cs[|cs| - 1].id == id then Pairs(cs[..|cs| - 1], id) + [(cs[|cs| - 1].alleles, cs[|cs| - 1].weighted)]
    else Pairs(cs[..|cs| - 1], id)
  }

  /** `sum(list(zip(*value))[0])` and `sum(list(zip(*value))[1])`. */
  function SumFirst(ps: seq<(real, real)>): real
    decreases |ps|
  {
    if ps == [] then 0.0 else SumFirst(ps[..|ps| - 1]) + ps[|ps| - 1].0
  }

  function SumSecond(ps: seq<(real, real)>): real
    decreases |ps|
  {
    if ps == [] then 0.0 else SumSecond(ps[..|ps| - 1]) + ps[|ps| - 1].1
  }

  /** Summing an id's list, as lines 375-376 do, gives that id's totals. */
  lemma {:induction false} PairsSum(cs: seq<Contribution>, id: string)
    ensures SumFirst(Pairs(cs, id)) == AlleleTotal(cs, id)
    ensures SumSecond(Pairs(cs, id)) == ScoreTotal(cs, id)
    decreases |cs|
  {
    if cs != [] {
      var init := cs[..|cs| - 1];
      PairsSum(init, id);
      var p := Pairs(init, id);
      if cs[|cs| - 1].id == id {
        assert (p + [(cs[|cs| - 1].alleles, cs[|cs| - 1].weighted)])[..|p|] == p;
      }
    }
  }

  /** Whenever `ids[j]` occurs in the rows, `ids[i]` for i < j has occurred before it. */
  ghost predicate InAppearanceOrder(cs: seq<Contribution>, ids: seq<string>)
  {
    forall i, j, q :: 0 <= i < j < |ids| && 0 <= q < |cs| && cs[q].id == ids[j] ==>
      exists p :: 0 <= p < q && cs[p].id == ids[i]
  }

  /** The ids come in order of first appearance. */
  lemma {:induction false} FirstAppearanceOrder(cs: seq<Contribution>)
    ensures InAppearanceOrder(cs, FirstAppearance(cs))
    decreases |cs|
  {
    if cs != [] {
      var init := cs[..|cs| - 1];
      var last := |cs| - 1;
      FirstAppearanceOrder(init);
      var prev := FirstAppearance(init);
      var ids := FirstAppearance(cs);
      forall i, j, q | 0 <= i < j < |ids| && 0 <= q < |cs| && cs[q].id == ids[j]
        ensures exists p :: 0 <= p < q && cs[p].id == ids[i]
      {
        if j < |prev| {
          assert ids[i] == prev[i] && ids[j] == prev[j];
          var q' := q;
          if q == last {
            assert prev[j] in prev;
            var c :| c in init && c.id == prev[j];
            var r :| 0 <= r < |init| && init[r] == c;
            q' := r;
          }
          assert 0 <= q' < |init| && q' <= q && init[q'].id == prev[j];
          assert exists p :: 0 <= p < q' && init[p].id == prev[i];
          var p :| 0 <= p < q' && init[p].id == prev[i];
          assert cs[p].id == ids[i];
        } else {
          assert ids == prev + [cs[last].id] && ids[j] == cs[last].id;
          assert cs[last].id !in prev;
          assert ids[i] == prev[i] && prev[i] in prev;
          var c :| c in init && c.id == prev[i];
          var r :| 0 <= r < |init| && init[r] == c;
          assert cs[r].id == ids[i];
        }
      }
    }
  }

  /** The `defaultdict(list)` of lines 350 and 366: the keys in insertion
      order and each key's list of `(allele count, weighted score)` pairs. */
  datatype Groups = Groups(keys: seq<string>, lists: map<string, seq<(real, real)>>)

  /** `table[key].append((nb, score))`: a missing key is inserted with an empty list first. */
  function AddRow(g: Groups, c: Contribution): Groups
  {
    if c.id in g.lists then Groups(g.keys, g.lists[c.id := g.lists[c.id] + [(c.alleles, c.weighted)]])
    else Groups(g.keys + [c.id], g.lists[c.id := [(c.alleles, c.weighted)]])
  }

  /** The dictionary after the given rows. */
  function GroupAll(cs: seq<Contribution>): Groups
    decreases |cs|
  {
    if cs == [] then Groups([], map[]) else AddRow(GroupAll(cs[..|cs| - 1]), cs[|cs| - 1])
  }

  /** One more row updates the dictionary of the rows before it. */
  lemma GroupAllSnoc(cs: seq<Contribution>, c: Contribution)
    ensures GroupAll(cs + [c]) == AddRow(GroupAll(cs), c)
  {
    assert (cs + [c])[..|cs|] == cs;
  }

  /** Lines 371-377: one row per key in insertion order, with the sums of the
      key's pairs. */
  function Summarise(g: Groups): seq<ScoreRow>
  {
    seq(|g.keys|, i requires 0 <= i < |g.keys| =>
      var ps := if g.keys[i] in g.lists then g.lists[g.keys[i]] else [];
      ScoreRow(g.keys[i], SumFirst(ps), SumSecond(ps)))
  }

  /** The dictionary holds the ids in first-appearance order, and for each id
      exactly the pairs of its rows, in row order. */
  lemma {:induction false} GroupAllIsPairs(cs: seq<Contribution>)
    ensures var g := GroupAll(cs);
      g.keys == FirstAppearance(cs)
      && (forall id :: id in g.lists <==> id in g.keys)
      && (forall id :: id in g.lists ==> g.lists[id] == Pairs(cs, id))
    decreases |cs|
  {
    if cs != [] {
      var init := cs[..|cs| - 1];
      var c := cs[|cs| - 1];
      GroupAllIsPairs(init);
      var g := GroupAll(cs);
      forall id | id in g.lists
        ensures g.lists[id] == Pairs(cs, id)
      {
        if id == c.id {
          if id !in GroupAll(init).lists {
            PairsOfAbsentId(init, id);
          }
          assert Pairs(cs, id) == Pairs(init, id) + [(c.alleles, c.weighted)];
        } else {
          assert Pairs(cs, id) == Pairs(init, id);
        }
      }
    }
  }

  /** An id that never appears has no pairs. */
  lemma {:induction false} PairsOfAbsentId(cs: seq<Contribution>, id: string)
    requires forall c :: c in cs ==> c.id != id
    ensures Pairs(cs, id) == []
    decreases |cs|
  {
    if cs != [] {
      var init := cs[..|cs| - 1];
      assert forall c :: c in init ==> c in cs;
      PairsOfAbsentId(init, id);
    }
  }

  /** The table the code builds is the reference `Combine`: the summed pairs are
      the totals. */
  lemma SummariseIsCombine(cs: seq<Contribution>)
    ensures Summarise(GroupAll(cs)) == Combine(cs)
  {
    GroupAllIsPairs(cs);
    var g := GroupAll(cs);
    forall i | 0 <= i < |g.keys|
      ensures Summarise(g)[i] == Combine(cs)[i]
    {
      PairsSum(cs, g.keys[i]);
    }
  }

  /** A worked example: sample S1 with (2, 0.5) in one file and
      (3, 0.7) in another weighs 1.0 and 2.1 and combines to ALLELE_CT 5 and
      SCORE_SUM 3.1. */
  lemma CombineExample()
    ensures var row1 := [Token("S1", None), Token("2", Some(2.0)), Token("1.0", Some(1.0)), Token("0.5", Some(0.5))];
      var row2 := [Token("S1", None), Token("3", Some(3.0)), Token("1.5", Some(1.5)), Token("0.7", Some(0.7))];
      ParseScoreRow(row1, 1) == Ok(Contribution("S1", 2.0, 1.0))
      && ParseScoreRow(row2, 1) == Ok(Contribution("S1", 3.0, 2.1))
      && Combine([Contribution("S1", 2.0, 1.0), Contribution("S1", 3.0, 2.1)]) == [ScoreRow("S1", 5.0, 3.1)]
  {
    var c1 := Contribution("S1", 2.0, 1.0);
    var c2 := Contribution("S1", 3.0, 2.1);
    var cs := [c1, c2];
    assert cs[..1] == [c1];
    assert FirstAppearance([c1]) == ["S1"];
    assert FirstAppearance(cs) == ["S1"];
    assert AlleleTotal([c1], "S1") == 2.0;
    assert ScoreTotal([c1], "S1") == 1.0;
    assert AlleleTotal(cs, "S1") == 5.0;
    assert ScoreTotal(cs, "S1") == 3.1;
    assert Combine(cs)[0] == ScoreRow("S1", 5.0, 3.1);
  }
}
