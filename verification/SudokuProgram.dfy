/** The checker of Sudoku tables: builder, conflict check and solver put together. */
module SudokuProgram {
  import opened SudokuBuilder
  import Solver = SudokuSolver

  /** The cover with a row and a column of labels before it. */
  ghost predicate WithLabels(locTable: array2<int>, locCover: array2<int>)
    reads locTable, locCover
  {
    && locTable.Length0 == locCover.Length0 + 1 && locTable.Length1 == locCover.Length1 + 1
    && (forall c, r | 0 <= c < locCover.Length0 && 0 <= r < locCover.Length1 ::
      locTable[c + 1, r + 1] == locCover[c, r])
    && (forall r | 0 <= r < locTable.Length1 :: locTable[0, r] == r)
    && (forall c | 0 <= c < locTable.Length0 :: locTable[c, 0] == c)
  }

  method AddLabels(locCover: array2<int>) returns (locTable: array2<int>)
    requires locCover.Length0 > 0
    ensures fresh(locTable) && WithLabels(locTable, locCover)
  {
    var n, m := locCover.Length0, locCover.Length1;
    locTable := new int[n + 1, m + 1];
    for i := 0 to n
      invariant forall c, r | 0 <= c < i && 0 <= r < m :: locTable[c + 1, r + 1] == locCover[c, r]
      invariant forall c | 0 <= c < i :: locTable[c, 0] == c
      invariant i > 0 ==> forall r | 0 <= r < m :: locTable[0, r] == r
    {
      for j := 0 to m
        invariant forall c, r | 0 <= c < i && 0 <= r < m :: locTable[c + 1, r + 1] == locCover[c, r]
        invariant forall c | 0 <= c < i :: locTable[c, 0] == c
        invariant forall r | 0 <= r < j :: locTable[i + 1, r + 1] == locCover[i, r]
        invariant forall r | 0 <= r < j || (i > 0 && 0 <= r < m) :: locTable[0, r] == r
      {
        locTable[i + 1, j + 1] := locCover[i, j];
        locTable[0, j] := j;
      }
      locTable[i, 0] := i;
    }
    locTable[0, m] := m;
    locTable[n, 0] := n;
  }

  /** The labelled cover is a table the solver understands. */
  lemma LabelledCover(d: Dims, givens: iset<Choice>, cover: seq<int>, orders: map<Section, seq<Choice>>,
                      locCover: array2<int>, locTable: array2<int>)
    requires Regular(d) && |cover| == Area(CoverColumns(d), CoverRows(d)) && Built(d, givens, cover, orders)
    requires locCover.Length0 == CoverColumns(d) && locCover.Length1 == CoverRows(d)
    requires forall r, c | 0 <= r < CoverRows(d) && 0 <= c < CoverColumns(d) ::
      locCover[c, r] == At(cover, CoverColumns(d), CoverRows(d), r, c)
    requires WithLabels(locTable, locCover)
    ensures Solver.Labelled(locTable)
  {
    forall i, j | 1 <= i < locTable.Length0 && 1 <= j < locTable.Length1
      ensures locTable[i, j] == 0 || locTable[i, j] == 1
    {
      var c, r := i - 1, j - 1;
      var s := SectionOf(d, c);
      assert Filled(d, givens, cover, s, orders[s]);
      assert locTable[c + 1, r + 1] == locCover[c, r];
      assert locCover[c, r] == At(cover, CoverColumns(d), CoverRows(d), r, c) == Entry(d, givens, s, orders[s], r, c);
    }
  }

  function SectionOf(d: Dims, c: nat): (s: Section)
    requires c < CoverColumns(d)
    ensures From(d, s) <= c < To(d, s)
  {
    if c < To(d, Cells) then Cells else if c < To(d, Rows) then Rows else if c < To(d, Columns) then Columns else Boxes
  }

  ghost predicate NoConflicts(t: array2<int>)
    reads t
  {
    forall i | 1 <= i < t.Length0 :: Solver.Single(t, i)
  }

  /** The conflict check on the labelled cover says whether every section is clean. */
  lemma SingleIffClean(d: Dims, cover: seq<int>, locCover: array2<int>, locTable: array2<int>)
    requires |cover| == Area(CoverColumns(d), CoverRows(d))
    requires locCover.Length0 == CoverColumns(d) && locCover.Length1 == CoverRows(d)
    requires forall r, c | 0 <= r < CoverRows(d) && 0 <= c < CoverColumns(d) ::
      locCover[c, r] == At(cover, CoverColumns(d), CoverRows(d), r, c)
    requires WithLabels(locTable, locCover) && Solver.Labelled(locTable)
    ensures NoConflicts(locTable) <==> forall s: Section :: Clean(d, cover, s)
  {
    if NoConflicts(locTable) {
      forall s: Section, c, r, r1 | 0 <= c < CoverColumns(d) && From(d, s) <= c < To(d, s) && 0 <= r < r1 < CoverRows(d)
        ensures !(At(cover, CoverColumns(d), CoverRows(d), r, c) == 1
          && At(cover, CoverColumns(d), CoverRows(d), r1, c) == 1)
      {
        assert Solver.Single(locTable, c + 1);
        assert locTable[c + 1, r + 1] == locCover[c, r] && locTable[c + 1, r1 + 1] == locCover[c, r1];
      }
    }
    if forall s: Section :: Clean(d, cover, s) {
      forall i, j, k | 1 <= i < locTable.Length0 && 1 <= j < k < locTable.Length1
        ensures locTable[i, j] == 0 || locTable[i, k] == 0
      {
        var c, r, r1 := i - 1, j - 1, k - 1;
        assert Clean(d, cover, SectionOf(d, c));
        assert locTable[c + 1, r + 1] == locCover[c, r] && locTable[c + 1, r1 + 1] == locCover[c, r1];
      }
    }
  }

  /** The verdict: for boxes that tile the table, with as many cells as the table is wide, `Run` accepts exactly the
      tables in which no symbol from one to the width repeats in a row, a column or a box. */
  method Run(sudokuTable: array2<int>, boxRows: nat, boxColumns: nat) returns (ok: bool)
    requires boxRows > 0 && boxColumns > 0 && sudokuTable.Length0 == boxRows * boxColumns
    requires sudokuTable.Length1 % boxRows == 0 && sudokuTable.Length0 > 0
    ensures ok <==> NoRepeats(Dims(sudokuTable.Length0, sudokuTable.Length1, boxRows, boxColumns), sudokuTable)
  {
    ghost var d := Dims(sudokuTable.Length0, sudokuTable.Length1, boxRows, boxColumns);
    var bld := new SimpleBuilder(boxRows, boxColumns);
    var symbols := new int[sudokuTable.Length0];
    for i := 0 to symbols.Length
      invariant forall k | 0 <= k < i :: symbols[k] == k + 1
      modifies symbols
    {
      symbols[i] := i + 1;
    }
    ghost var orders;
    ok, orders := bld.Run(d, sudokuTable, symbols);
    if !ok { return; }
    ok := Decide(d, bld, sudokuTable, symbols, orders);
  }

  /** The second half of `Run`, once the cover is built. */
  method Decide(ghost d: Dims, bld: SimpleBuilder, input: array2<int>, symbols: array<int>,
                ghost orders: map<Section, seq<Choice>>)
    returns (ok: bool)
    requires bld.Ready(d, input, symbols) && d.w > 0 && Built(d, Givens(d, input), bld.cover[..], orders)
    ensures ok <==> NoRepeats(d, input)
  {
    CoverIsWide(d);
    CoverCleanIff(d, input, bld.cover[..], orders);
    var locCover := bld.GetCover(d, input, symbols);
    ok := Solve(d, Givens(d, input), bld.cover[..], orders, locCover);
  }

  method Solve(ghost d: Dims, ghost givens: iset<Choice>, ghost cover: seq<int>,
               ghost orders: map<Section, seq<Choice>>,
               locCover: array2<int>) returns (ok: bool)
    requires Regular(d) && CoverColumns(d) > 0
    requires |cover| == Area(CoverColumns(d), CoverRows(d)) && Built(d, givens, cover, orders)
    requires locCover.Length0 == CoverColumns(d) && locCover.Length1 == CoverRows(d)
    requires forall r, c | 0 <= r < CoverRows(d) && 0 <= c < CoverColumns(d) ::
      locCover[c, r] == At(cover, CoverColumns(d), CoverRows(d), r, c)
    ensures ok <==> forall s: Section :: Clean(d, cover, s)
  {
    var locTable := AddLabels(locCover);
    LabelledCover(d, givens, cover, orders, locCover, locTable);
    SingleIffClean(d, cover, locCover, locTable);
    ok := CheckAndResolve(locTable);
  }

  /** A table without conflicts is always resolved. */
  method CheckAndResolve(locTable: array2<int>) returns (ok: bool)
    requires Solver.Labelled(locTable)
    ensures ok <==> old(NoConflicts(locTable))
  {
    ok := Solver.CheckConflicts(locTable);
    if !ok { return; }
    forall i, j, k | 1 <= i < locTable.Length0 && 1 <= j < k < locTable.Length1
      ensures !(locTable[i, j] == 1 && locTable[i, k] == 1)
    {
      assert Solver.Single(locTable, i);
    }
    var arrSolution;
    ghost var picks, rest;
    ok, arrSolution, picks, rest := Solver.Resolve(locTable, []);
  }

  lemma CoverIsWide(d: Dims)
    requires d.w > 0
    ensures CoverColumns(d) > 0
  {
    assert d.w * d.w > 0;
  }
}
