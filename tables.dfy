/** The pandas tables the stages read and write, and the pure row operations
    applied to them: the chromosome selection of step 1 of `select_clump_snps`,
    the QC/clump inner join of its step 2, the population filter of
    `subset_pop` and the allele-letter map of `transfer_atcg`. */
module Tables {
  import opened Outcomes

  /** A cell as pandas parses it: an integer, a float, a string, or missing (NaN). */
  datatype Cell = Int(i: int) | Real(x: real) | Str(s: string) | NA

  type Row = seq<Cell>

  /** A data frame: its header and its data rows in file order. */
  datatype Table = Table(columns: seq<string>, rows: seq<Row>)

  /** Cell `j` of `row`; pandas fills the cells of a short row with NaN. */
  function At(row: Row, j: nat): Cell
  {
    if j < |row| then row[j] else NA
  }

  /** The position of the first column called `name`. */
  function IndexOf(names: seq<string>, name: string): (r: Option<nat>)
    ensures r.Some? ==> r.value < |names| && names[r.value] == name
    ensures r.Some? ==> forall k :: 0 <= k < r.value ==> names[k] != name
    ensures r.None? <==> name !in names
    decreases |names|
  {
    if names == [] then None
    else if names[0] == name then Some(0)
    else match IndexOf(names[1..], name)
      case None => None
      case Some(k) => Some(k + 1)
  }

  /** `df[name]`: the column's position, or the KeyError pandas raises. */
  function Column(columns: seq<string>, name: string): (r: Result<nat>)
    ensures r.Ok? <==> name in columns
    ensures r.Ok? ==> r.value < |columns| && columns[r.value] == name
    ensures r.Err? ==> r.error == MissingColumn(name)
  {
    match IndexOf(columns, name)
    case None => Err(MissingColumn(name))
    case Some(k) => Ok(k)
  }

  /** The rows that satisfy `keep`, in their original order (boolean-mask indexing). */
  function KeepRows(rows: seq<Row>, keep: Row -> bool): seq<Row>
    decreases |rows|
  {
    if rows == [] then []
    else if keep(rows[|rows| - 1]) then KeepRows(rows[..|rows| - 1], keep) + [rows[|rows| - 1]]
    else KeepRows(rows[..|rows| - 1], keep)
  }

  /** A row survives the mask exactly when it is a row that satisfies `keep`. */
  lemma {:induction false} KeepRowsMembers(rows: seq<Row>, keep: Row -> bool)
    ensures forall row :: row in KeepRows(rows, keep) <==> row in rows && keep(row)
    ensures |KeepRows(rows, keep)| <= |rows|
    decreases |rows|
  {
    if rows != [] {
      var init := rows[..|rows| - 1];
      KeepRowsMembers(init, keep);
      assert rows == init + [rows[|rows| - 1]];
    }
  }

  /** The mask keeps the order of the rows: masking a concatenation is
      concatenating the masked parts. */
  lemma {:induction false} KeepRowsAppend(a: seq<Row>, b: seq<Row>, keep: Row -> bool)
    ensures KeepRows(a + b, keep) == KeepRows(a, keep) + KeepRows(b, keep)
    decreases |b|
  {
    if b == [] {
      assert a + b == a;
    } else {
      var init := b[..|b| - 1];
      assert (a + b)[..|a + b| - 1] == a + init;
      KeepRowsAppend(a, init, keep);
    }
  }

  /** Applying the same mask twice changes nothing. */
  lemma {:induction false} KeepRowsIdempotent(rows: seq<Row>, keep: Row -> bool)
    ensures KeepRows(KeepRows(rows, keep), keep) == KeepRows(rows, keep)
    decreases |rows|
  {
    if rows != [] {
      var init := rows[..|rows| - 1];
      KeepRowsIdempotent(init, keep);
      var k := KeepRows(init, keep);
      if keep(rows[|rows| - 1]) {
        assert (k + [rows[|rows| - 1]])[..|k|] == k;
      }
    }
  }

  /** When no row satisfies `keep`, nothing is left. */
  lemma {:induction false} KeepRowsNone(rows: seq<Row>, keep: Row -> bool)
    requires forall row :: row in rows ==> !keep(row)
    ensures KeepRows(rows, keep) == []
    decreases |rows|
  {
    if rows != [] {
      var init := rows[..|rows| - 1];
      assert forall row :: row in init ==> row in rows;
      KeepRowsNone(init, keep);
    }
  }

  // ---- select_clump_snps, step 1 (lines 234-235) ----

  /** `cell == nb` for the CHR column: an integer or float equal to `nb`. */
  predicate IsChromosome(c: Cell, nb: int)
  {
    match c
    case Int(i) => i == nb
    case Real(x) => x == nb as real
    case _ => false
  }

  function Project(rows: seq<Row>, c: nat, s: nat): (r: seq<Row>)
    ensures |r| == |rows|
    ensures forall k :: 0 <= k < |rows| ==> r[k] == [At(rows[k], c), At(rows[k], s)]
  {
    seq(|rows|, k requires 0 <= k < |rows| => [At(rows[k], c), At(rows[k], s)])
  }

  /** `df.loc[df['CHR'] == nb][['CHR', 'SNP']]`. */
  function SelectChromosome(t: Table, nb: int): (r: Result<Table>)
    ensures r.Ok? <==> "CHR" in t.columns && "SNP" in t.columns
    ensures r.Err? ==> r.error == MissingColumn(if "CHR" in t.columns then "SNP" else "CHR")
    ensures r.Ok? ==> r.value.columns == ["CHR", "SNP"]
    ensures r.Ok? ==> forall row :: row in r.value.rows ==> |row| == 2 && IsChromosome(row[0], nb)
  {
    match Column(t.columns, "CHR")
    case Err(e) => Err(e)
    case Ok(c) =>
      var kept := KeepRows(t.rows, row => IsChromosome(At(row, c), nb));
      match Column(t.columns, "SNP")
      case Err(e) => Err(e)
      case Ok(s) =>
        KeepRowsMembers(t.rows, row => IsChromosome(At(row, c), nb));
        var p := Project(kept, c, s);
        assert forall k :: 0 <= k < |p| ==> IsChromosome(p[k][0], nb) by {
          forall k | 0 <= k < |p| ensures IsChromosome(p[k][0], nb) {
            assert kept[k] in kept;
          }
        }
        Ok(Table(["CHR", "SNP"], p))
  }

  /** The SNP list holds exactly the CHR and SNP cells of the rows of
      chromosome `nb`: every such row reaches it, and nothing else does. */
  lemma SelectChromosomeMembers(t: Table, nb: int)
    requires "CHR" in t.columns && "SNP" in t.columns
    ensures var c, s := IndexOf(t.columns, "CHR").value, IndexOf(t.columns, "SNP").value;
      forall row :: row in SelectChromosome(t, nb).value.rows <==>
        exists src :: src in t.rows && IsChromosome(At(src, c), nb) && row == [At(src, c), At(src, s)]
  {
    var c, s := IndexOf(t.columns, "CHR").value, IndexOf(t.columns, "SNP").value;
    var keep := row => IsChromosome(At(row, c), nb);
    var kept := KeepRows(t.rows, keep);
    var p := Project(kept, c, s);
    KeepRowsMembers(t.rows, keep);
    assert SelectChromosome(t, nb).value.rows == p;
    forall row
      ensures row in p <==>
        exists src :: src in t.rows && IsChromosome(At(src, c), nb) && row == [At(src, c), At(src, s)]
    {
      if row in p {
        var k :| 0 <= k < |p| && p[k] == row;
        assert kept[k] in kept;
      }
      if exists src :: src in t.rows && IsChromosome(At(src, c), nb) && row == [At(src, c), At(src, s)] {
        var src :| src in t.rows && IsChromosome(At(src, c), nb) && row == [At(src, c), At(src, s)];
        assert keep(src);
        var k :| 0 <= k < |kept| && kept[k] == src;
        assert p[k] == row;
      }
    }
  }

  /** Step 1 keeps the row order of the `.clumped` table: selecting from rows
      `a + b` gives the selection from `a` followed by that from `b`. */
  lemma SelectChromosomeKeepsOrder(columns: seq<string>, a: seq<Row>, b: seq<Row>, nb: int)
    requires "CHR" in columns && "SNP" in columns
    ensures SelectChromosome(Table(columns, a + b), nb).value.rows
         == SelectChromosome(Table(columns, a), nb).value.rows + SelectChromosome(Table(columns, b), nb).value.rows
  {
    var c, s := IndexOf(columns, "CHR").value, IndexOf(columns, "SNP").value;
    var keep := row => IsChromosome(At(row, c), nb);
    KeepRowsAppend(a, b, keep);
    var ka, kb := KeepRows(a, keep), KeepRows(b, keep);
    assert Project(ka + kb, c, s) == Project(ka, c, s) + Project(kb, c, s);
  }

  // ---- select_clump_snps, step 2 (lines 256-259) ----

  /** `clump_snp.rename(columns={'SNP': 'SNPID'})`. */
  function RenameSnp(columns: seq<string>): (r: seq<string>)
    ensures |r| == |columns|
    ensures forall k :: 0 <= k < |columns| ==> r[k] == if columns[k] == "SNP" then "SNPID" else columns[k]
  {
    seq(|columns|, k requires 0 <= k < |columns| => if columns[k] == "SNP" then "SNPID" else columns[k])
  }

  /** The renamed clump table has an SNPID column exactly when it had SNP or SNPID. */
  lemma RenameSnpHasId(columns: seq<string>)
    ensures "SNPID" in RenameSnp(columns) <==> "SNP" in columns || "SNPID" in columns
  {
    var r := RenameSnp(columns);
    if "SNPID" in r {
      var k :| 0 <= k < |r| && r[k] == "SNPID";
      assert columns[k] in columns;
    }
    if "SNP" in columns {
      var k :| 0 <= k < |columns| && columns[k] == "SNP";
      assert r[k] in r;
    }
    if "SNPID" in columns {
      var k :| 0 <= k < |columns| && columns[k] == "SNPID";
      assert r[k] in r;
    }
  }

  /** After the rename no SNP column is left, and every other column but
      SNPID is there exactly when it was before. */
  lemma RenameSnpColumns(columns: seq<string>)
    ensures |RenameSnp(columns)| == |columns|
    ensures "SNP" !in RenameSnp(columns)
    ensures forall c :: c != "SNP" && c != "SNPID" ==> (c in RenameSnp(columns) <==> c in columns)
  {
    var r := RenameSnp(columns);
    forall c | c != "SNP" && c != "SNPID"
      ensures c in r <==> c in columns
    {
      if c in r {
        var k :| 0 <= k < |r| && r[k] == c;
        assert columns[k] in columns;
      }
      if c in columns {
        var k :| 0 <= k < |columns| && columns[k] == c;
        assert r[k] in r;
      }
    }
  }

  /** The value `isin` compares a cell by: pandas takes an integer and a float
      to be equal when they are the same number, so an integer is keyed as
      that float; every other cell is its own key. */
  function IdKey(c: Cell): Cell
  {
    match c
    case Int(i) => Real(i as real)
    case _ => c
  }

  /** Two cells have the same key exactly when they are equal, or one is the
      integer and the other the float of the same number. */
  lemma IdKeyEquality(a: Cell, b: Cell)
    ensures IdKey(a) == IdKey(b) <==>
      a == b
      || (a.Int? && b.Real? && b.x == a.i as real)
      || (a.Real? && b.Int? && a.x == b.i as real)
  {
  }

  /** The keys of column `j`, as the set `isin` looks them up in. */
  function ColumnValues(rows: seq<Row>, j: nat): set<Cell>
  {
    set row | row in rows :: IdKey(At(row, j))
  }

  /** `qc[qc["SNPID"].isin(clump["SNPID"])]`, the clump table renamed first. */
  function JoinClumped(qc: Table, clump: Table): (r: Result<Table>)
    ensures r.Ok? <==> "SNPID" in qc.columns && "SNPID" in RenameSnp(clump.columns)
    ensures r.Ok? ==> r.value.columns == qc.columns
    ensures r.Ok? ==> forall row :: row in r.value.rows ==>
      row in qc.rows && IdKey(At(row, IndexOf(qc.columns, "SNPID").value))
        in ColumnValues(clump.rows, IndexOf(RenameSnp(clump.columns), "SNPID").value)
  {
    match Column(qc.columns, "SNPID")
    case Err(e) => Err(e)
    case Ok(q) =>
      match Column(RenameSnp(clump.columns), "SNPID")
      case Err(e) => Err(e)
      case Ok(c) =>
        var ids := ColumnValues(clump.rows, c);
        KeepRowsMembers(qc.rows, row => IdKey(At(row, q)) in ids);
        Ok(Table(qc.columns, KeepRows(qc.rows, row => IdKey(At(row, q)) in ids)))
  }

  /** Every QC row whose SNPID is among the clumped ids is kept. */
  lemma JoinClumpedComplete(qc: Table, clump: Table, row: Row)
    requires JoinClumped(qc, clump).Ok? && row in qc.rows
    requires IdKey(At(row, IndexOf(qc.columns, "SNPID").value))
      in ColumnValues(clump.rows, IndexOf(RenameSnp(clump.columns), "SNPID").value)
    ensures row in JoinClumped(qc, clump).value.rows
  {
    var q, c := IndexOf(qc.columns, "SNPID").value, IndexOf(RenameSnp(clump.columns), "SNPID").value;
    var ids := ColumnValues(clump.rows, c);
    KeepRowsMembers(qc.rows, row => IdKey(At(row, q)) in ids);
  }

  /** The keys of the second cells of rows built as `[At(src, c), At(src, s)]`
      from the chromosome-`nb` rows of `t`. */
  lemma SecondCellKeys(sel: seq<Row>, t: seq<Row>, c: nat, s: nat, nb: int, x: Cell)
    requires forall r :: r in sel <==>
      exists src :: src in t && IsChromosome(At(src, c), nb) && r == [At(src, c), At(src, s)]
    ensures x in ColumnValues(sel, 1) <==>
      exists src :: src in t && IsChromosome(At(src, c), nb) && x == IdKey(At(src, s))
  {
    if x in ColumnValues(sel, 1) {
      var r :| r in sel && IdKey(At(r, 1)) == x;
      var src :| src in t && IsChromosome(At(src, c), nb) && r == [At(src, c), At(src, s)];
      assert At(r, 1) == At(src, s);
    }
    if exists src :: src in t && IsChromosome(At(src, c), nb) && x == IdKey(At(src, s)) {
      var src :| src in t && IsChromosome(At(src, c), nb) && x == IdKey(At(src, s));
      var r := [At(src, c), At(src, s)];
      assert r in sel;
      assert At(r, 1) == At(src, s);
    }
  }

  /** Steps 1 and 2 together: joining a QC table with the chromosome-`nb` SNP
      list of a `.clumped` table keeps exactly the QC rows whose SNPID matches,
      under `isin`'s equality, the SNP of some chromosome-`nb` row of it. */
  lemma JoinSelectedMembers(qc: Table, clumped: Table, nb: int)
    requires "SNPID" in qc.columns && "CHR" in clumped.columns && "SNP" in clumped.columns
    ensures var sel := SelectChromosome(clumped, nb).value;
      JoinClumped(qc, sel).Ok?
      && var q := IndexOf(qc.columns, "SNPID").value;
      var c, s := IndexOf(clumped.columns, "CHR").value, IndexOf(clumped.columns, "SNP").value;
      forall row :: row in JoinClumped(qc, sel).value.rows <==>
        row in qc.rows
        && exists src :: src in clumped.rows && IsChromosome(At(src, c), nb) && IdKey(At(row, q)) == IdKey(At(src, s))
  {
    var sel := SelectChromosome(clumped, nb).value;
    var q := IndexOf(qc.columns, "SNPID").value;
    var c, s := IndexOf(clumped.columns, "CHR").value, IndexOf(clumped.columns, "SNP").value;
    assert RenameSnp(sel.columns) == ["CHR", "SNPID"];
    assert IndexOf(RenameSnp(sel.columns), "SNPID").value == 1;
    var joined := JoinClumped(qc, sel).value;
    SelectChromosomeMembers(clumped, nb);
    forall row
      ensures row in joined.rows <==>
        row in qc.rows
        && exists src :: src in clumped.rows && IsChromosome(At(src, c), nb) && IdKey(At(row, q)) == IdKey(At(src, s))
    {
      SecondCellKeys(sel.rows, clumped.rows, c, s, nb, IdKey(At(row, q)));
      if row in qc.rows && IdKey(At(row, q)) in ColumnValues(sel.rows, 1) {
        JoinClumpedComplete(qc, sel, row);
      }
    }
  }

  /** An integer QC id matches the float the clump table holds for it. */
  lemma JoinClumpedIntMatchesReal()
    ensures JoinClumped(Table(["SNPID"], [[Int(1)]]), Table(["CHR", "SNP"], [[Int(1), Real(1.0)]])).value
         == Table(["SNPID"], [[Int(1)]])
  {
    var qc, clump := Table(["SNPID"], [[Int(1)]]), Table(["CHR", "SNP"], [[Int(1), Real(1.0)]]);
    assert RenameSnp(clump.columns) == ["CHR", "SNPID"];
    assert IdKey(At(clump.rows[0], 1)) in ColumnValues(clump.rows, 1);
    JoinClumpedComplete(qc, clump, qc.rows[0]);
  }

  /** The join keeps QC order: joining QC rows `a + b` gives the joined `a`
      followed by the joined `b`. */
  lemma JoinClumpedKeepsOrder(columns: seq<string>, a: seq<Row>, b: seq<Row>, clump: Table)
    requires JoinClumped(Table(columns, a + b), clump).Ok?
    ensures JoinClumped(Table(columns, a + b), clump).value.rows
         == JoinClumped(Table(columns, a), clump).value.rows + JoinClumped(Table(columns, b), clump).value.rows
  {
    var q, c := IndexOf(columns, "SNPID").value, IndexOf(RenameSnp(clump.columns), "SNPID").value;
    var ids := ColumnValues(clump.rows, c);
    KeepRowsAppend(a, b, row => IdKey(At(row, q)) in ids);
  }

  /** No shared id: the written list has the header and no rows. */
  lemma JoinClumpedEmpty(qc: Table, clump: Table)
    requires JoinClumped(qc, clump).Ok?
    requires forall row :: row in qc.rows ==>
      IdKey(At(row, IndexOf(qc.columns, "SNPID").value))
        !in ColumnValues(clump.rows, IndexOf(RenameSnp(clump.columns), "SNPID").value)
    ensures JoinClumped(qc, clump).value == Table(qc.columns, [])
  {
    var q, c := IndexOf(qc.columns, "SNPID").value, IndexOf(RenameSnp(clump.columns), "SNPID").value;
    var ids := ColumnValues(clump.rows, c);
    KeepRowsNone(qc.rows, row => IdKey(At(row, q)) in ids);
  }

  /** Filtering the result again against the same clumped ids changes nothing. */
  lemma JoinClumpedIdempotent(qc: Table, clump: Table)
    requires JoinClumped(qc, clump).Ok?
    ensures JoinClumped(JoinClumped(qc, clump).value, clump) == JoinClumped(qc, clump)
  {
    var q, c := IndexOf(qc.columns, "SNPID").value, IndexOf(RenameSnp(clump.columns), "SNPID").value;
    var ids := ColumnValues(clump.rows, c);
    KeepRowsIdempotent(qc.rows, row => IdKey(At(row, q)) in ids);
  }

  // ---- subset_pop (line 138) ----

  /** `file.loc[file[column] == pop]`: a cell equals the formatted string `pop`
      only when it is that string. */
  function SubsetPopulation(t: Table, column: string, pop: string): (r: Result<Table>)
    ensures r.Ok? <==> column in t.columns
    ensures r.Err? ==> r.error == MissingColumn(column)
    ensures r.Ok? ==> r.value.columns == t.columns
    ensures r.Ok? ==> forall row :: row in r.value.rows <==>
      row in t.rows && At(row, IndexOf(t.columns, column).value) == Str(pop)
  {
    match Column(t.columns, column)
    case Err(e) => Err(e)
    case Ok(c) =>
      KeepRowsMembers(t.rows, row => At(row, c) == Str(pop));
      Ok(Table(t.columns, KeepRows(t.rows, row => At(row, c) == Str(pop))))
  }

  /** The subset keeps the input's row order. */
  lemma SubsetPopulationKeepsOrder(columns: seq<string>, a: seq<Row>, b: seq<Row>, column: string, pop: string)
    requires column in columns
    ensures SubsetPopulation(Table(columns, a + b), column, pop).value.rows
         == SubsetPopulation(Table(columns, a), column, pop).value.rows
          + SubsetPopulation(Table(columns, b), column, pop).value.rows
  {
    var c := IndexOf(columns, column).value;
    KeepRowsAppend(a, b, row => At(row, c) == Str(pop));
  }

  // ---- transfer_atcg (line 91) ----

  /** `{'a': 'A', 't': 'T', 'c': 'C', 'g': 'G'}.get`: anything else, upper-case
      letters included, becomes missing. */
  function UpperAllele(c: Cell): Cell
  {
    if c == Str("a") then Str("A")
    else if c == Str("t") then Str("T")
    else if c == Str("c") then Str("C")
    else if c == Str("g") then Str("G")
    else NA
  }

  /** The map keeps exactly the four lower-case letters, upper-cased. */
  lemma UpperAlleleImage(c: Cell)
    ensures UpperAllele(c) != NA <==> c in {Str("a"), Str("t"), Str("c"), Str("g")}
    ensures UpperAllele(c) in {Str("A"), Str("T"), Str("C"), Str("G"), NA}
  {
  }

  /** Mapping twice leaves every allele missing, so the map is not idempotent. */
  lemma UpperAlleleTwice(c: Cell)
    ensures UpperAllele(UpperAllele(c)) == NA
  {
  }

  function UpperRow(row: Row, a: nat): Row
  {
    if a < |row| then row[a := UpperAllele(row[a])] else row
  }

  /** `df.loc[:, 'Allele'] = df['Allele'].apply(map.get)`. */
  function TransferAlleles(t: Table): (r: Result<Table>)
    ensures r.Ok? <==> "Allele" in t.columns
    ensures r.Err? ==> r.error == MissingColumn("Allele")
    ensures r.Ok? ==> r.value.columns == t.columns && |r.value.rows| == |t.rows|
    ensures r.Ok? ==> var a := IndexOf(t.columns, "Allele").value;
      forall k :: 0 <= k < |t.rows| ==>
        |r.value.rows[k]| == |t.rows[k]|
        && At(r.value.rows[k], a) == UpperAllele(At(t.rows[k], a))
        && forall j :: 0 <= j < |t.rows[k]| && j != a ==> r.value.rows[k][j] == t.rows[k][j]
  {
    match Column(t.columns, "Allele")
    case Err(e) => Err(e)
    case Ok(a) => Ok(Table(t.columns, seq(|t.rows|, k requires 0 <= k < |t.rows| => UpperRow(t.rows[k], a))))
  }

  /** After two passes no allele is left: the second pass maps the upper-case
      letters of the first to missing. */
  lemma TransferAllelesTwice(t: Table)
    requires "Allele" in t.columns
    ensures var once := TransferAlleles(t).value;
      var twice := TransferAlleles(once).value;
      var a := IndexOf(t.columns, "Allele").value;
      forall k :: 0 <= k < |twice.rows| ==> At(twice.rows[k], a) == NA
  {
    var once := TransferAlleles(t).value;
    var twice := TransferAlleles(once).value;
    var a := IndexOf(t.columns, "Allele").value;
    forall k | 0 <= k < |twice.rows|
      ensures At(twice.rows[k], a) == NA
    {
      UpperAlleleTwice(At(t.rows[k], a));
    }
  }

  /** A concrete table on which a second pass changes the result. */
  lemma TransferAllelesNotIdempotent()
    ensures var t := Table(["SNPID", "Allele"], [[Str("rs1"), Str("a")]]);
      TransferAlleles(TransferAlleles(t).value) != TransferAlleles(t)
  {
    var t := Table(["SNPID", "Allele"], [[Str("rs1"), Str("a")]]);
    assert IndexOf(t.columns, "Allele") == Some(1);
    assert TransferAlleles(t).value.rows[0][1] == Str("A");
    assert TransferAlleles(TransferAlleles(t).value).value.rows[0][1] == NA;
  }
}
