/** The exact-cover matrix of a Sudoku table, written section by section into a flat array. */
module SudokuBuilder {
  import opened Sequences

  /** The choice of symbol k + 1 for the cell in column i and row j of the table: one row of the cover. */
  datatype Choice = Choice(i: nat, j: nat, k: nat)

  /** The four kinds of constraint; each has its own columns of the cover. */
  datatype Section = Cells | Rows | Columns | Boxes

  /** Width and height of the table, rows and columns of a box. */
  datatype Dims = Dims(w: nat, h: nat, boxRows: nat, boxColumns: nat)

  predicate Regular(d: Dims) {
    d.boxRows > 0 && d.boxColumns > 0 && d.w == d.boxRows * d.boxColumns && d.h % d.boxRows == 0
  }

  predicate InGrid(d: Dims, t: Choice) {
    t.i < d.w && t.j < d.h && t.k < d.w
  }

  /** The number of the box, as the builder computes it. */
  function BoxOf(d: Dims, i: nat, j: nat): nat
    requires Regular(d)
  {
    DivideNat(i, d.boxColumns);
    DivideNat(j, d.boxRows);
    Times(0, j / d.boxRows, d.w);
    DivideNat(j / d.boxRows * d.w, d.boxColumns);
    i / d.boxColumns + j / d.boxRows * d.w / d.boxColumns
  }

  function CoverColumns(d: Dims): nat {
    d.w * d.h + d.h * d.w + d.w * d.w + d.w * d.h
  }

  function CoverRows(d: Dims): nat {
    d.w * d.h * d.w
  }

  /** The first column of a section, and the first after it. */
  function From(d: Dims, s: Section): nat {
    match s
    case Cells => 0
    case Rows => d.w * d.h
    case Columns => d.w * d.h + d.h * d.w
    case Boxes => d.w * d.h + d.h * d.w + d.w * d.w
  }

  function To(d: Dims, s: Section): nat {
    match s
    case Cells => d.w * d.h
    case Rows => d.w * d.h + d.h * d.w
    case Columns => d.w * d.h + d.h * d.w + d.w * d.w
    case Boxes => CoverColumns(d)
  }

  /** The constraint of a section that a choice meets: a cell, or a line or box with a symbol. */
  function Group(d: Dims, s: Section, t: Choice): (nat, nat)
    requires Regular(d)
  {
    match s
    case Cells => (t.j, t.i)
    case Rows => (t.j, t.k)
    case Columns => (t.i, t.k)
    case Boxes => (BoxOf(d, t.i, t.j), t.k)
  }

  function ColumnOf(d: Dims, s: Section, t: Choice): nat
    requires Regular(d)
  {
    From(d, s) + Index(d.w, Group(d, s, t).0, Group(d, s, t).1)
  }

  // ---- Index arithmetic ----

  lemma Below(x: int, n: int, y: int, w: int)
    requires 0 <= x < n && 0 <= y < w
    ensures 0 <= x * w <= x * w + y < n * w
  {
    Times(x + 1, n, w);
    Times(0, x, w);
  }

  lemma Times(x: int, y: int, w: int)
    requires w >= 0
    ensures x <= y ==> x * w <= y * w
  {
    if x <= y { assert (y - x) * w >= 0; }
  }

  /** The length of a flat array with `m` rows of `n`. */
  function Area(n: nat, m: nat): nat {
    if m == 0 then 0 else n + Area(n, m - 1)
  }

  /** The place of row `r` and column `c`. */
  function Index(n: nat, r: nat, c: nat): nat
    decreases r
  {
    if r == 0 then c else n + Index(n, r - 1, c)
  }

  lemma {:induction false} AreaIs(n: nat, m: nat)
    ensures Area(n, m) == n * m
  {
    if m > 0 {
      AreaIs(n, m - 1);
      NextLine(m - 1, n, 0);
    }
  }

  lemma {:induction false} IndexIs(n: nat, r: nat, c: nat)
    ensures Index(n, r, c) == r * n + c
    decreases r
  {
    if r > 0 {
      IndexIs(n, r - 1, c);
      NextLine(r - 1, n, 0);
    }
  }

  lemma NextLine(j: int, m: int, w: int)
    ensures (j + 1) * m == j * m + m && ((j + 1) * m) * w == (j * m + m) * w
  {
  }

  lemma {:induction false} InArea(n: nat, m: nat, r: nat, c: nat)
    requires r < m && c < n
    ensures Index(n, r, c) < Area(n, m)
    decreases r
  {
    if r > 0 { InArea(n, m - 1, r - 1, c); }
  }

  lemma {:induction false} OneIndex(n: nat, r: nat, c: nat, r1: nat, c1: nat)
    requires c < n && c1 < n
    ensures Index(n, r, c) == Index(n, r1, c1) <==> r == r1 && c == c1
    decreases r
  {
    if r > 0 && r1 > 0 { OneIndex(n, r - 1, c, r1 - 1, c1); }
  }

  lemma DivideNat(x: int, c: int)
    requires x >= 0 && c > 0
    ensures x / c >= 0
  {
  }

  lemma Positional(x: int, y: int, x1: int, y1: int, w: int)
    requires 0 <= y < w && 0 <= y1 < w && x * w + y == x1 * w + y1
    ensures x == x1 && y == y1
  {
    Times(x + 1, x1, w);
    Times(x1 + 1, x, w);
  }

  lemma Multiple(q: int, c: int)
    requires c > 0
    ensures q * c / c == q
  {
    Positional(q * c / c, q * c % c, q, 0, c);
  }

  /** Boxes are numbered by the quotients, and there are as many as the table has rows. */
  lemma BoxNumbers(d: Dims, i: nat, j: nat)
    requires Regular(d) && i < d.w && j < d.h
    ensures BoxOf(d, i, j) == Index(d.boxRows, j / d.boxRows, i / d.boxColumns)
    ensures i / d.boxColumns < d.boxRows && BoxOf(d, i, j) < d.h
  {
    var q := j / d.boxRows;
    assert q * d.w == q * d.boxRows * d.boxColumns;
    Multiple(q * d.boxRows, d.boxColumns);
    assert i < d.boxRows * d.boxColumns;
    Quotient(i, d.boxColumns, d.boxRows);
    assert d.h == d.h / d.boxRows * d.boxRows;
    Quotient(j, d.boxRows, d.h / d.boxRows);
    Below(q, d.h / d.boxRows, i / d.boxColumns, d.boxRows);
    IndexIs(d.boxRows, q, i / d.boxColumns);
  }

  lemma Quotient(x: nat, c: nat, n: nat)
    requires c > 0 && x < n * c
    ensures 0 <= x / c < n
  {
    Times(n, x / c, c);
  }

  lemma GroupInSection(d: Dims, s: Section, t: Choice)
    requires Regular(d) && InGrid(d, t)
    ensures Group(d, s, t).1 < d.w && From(d, s) <= ColumnOf(d, s, t) < To(d, s)
  {
    AreaIs(d.w, d.h);
    AreaIs(d.w, d.w);
    match s
    case Cells => InArea(d.w, d.h, t.j, t.i);
    case Rows => InArea(d.w, d.h, t.j, t.k);
    case Columns => InArea(d.w, d.w, t.i, t.k);
    case Boxes => BoxNumbers(d, t.i, t.j); InArea(d.w, d.h, BoxOf(d, t.i, t.j), t.k);
  }

  /** Two choices share a column exactly when they are in the same group. */
  lemma SameColumnIff(d: Dims, s: Section, t: Choice, u: Choice)
    requires Regular(d) && InGrid(d, t) && InGrid(d, u)
    ensures ColumnOf(d, s, t) == ColumnOf(d, s, u) <==> Group(d, s, t) == Group(d, s, u)
  {
    GroupInSection(d, s, t);
    GroupInSection(d, s, u);
    OneIndex(d.w, Group(d, s, t).0, Group(d, s, t).1, Group(d, s, u).0, Group(d, s, u).1);
  }

  // ---- The flat array ----

  function At(cover: seq<int>, n: nat, m: nat, r: nat, c: nat): int
    requires |cover| == Area(n, m) && r < m && c < n
  {
    InArea(n, m, r, c);
    cover[Index(n, r, c)]
  }

  method Put(cover: array<int>, n: nat, m: nat, r: nat, c: nat, v: int)
    requires cover.Length == Area(n, m) && r < m && c < n
    modifies cover
    ensures forall r1, c1 | 0 <= r1 < m && 0 <= c1 < n ::
      At(cover[..], n, m, r1, c1) == if r1 == r && c1 == c then v else At(old(cover[..]), n, m, r1, c1)
  {
    InArea(n, m, r, c);
    IndexIs(n, r, c);
    cover[r * n + c] := v;
    forall r1, c1 | 0 <= r1 < m && 0 <= c1 < n
      ensures At(cover[..], n, m, r1, c1) == if r1 == r && c1 == c then v else At(old(cover[..]), n, m, r1, c1)
    {
      InArea(n, m, r1, c1);
      OneIndex(n, r, c, r1, c1);
    }
  }

  // ---- What the builder promises ----

  /** The choices of a section in the order of its cover rows: each once. */
  ghost predicate Enumerates(d: Dims, order: seq<Choice>) {
    && (forall t :: t in order <==> InGrid(d, t))
    && Distinct(order)
  }

  /** The choices the table makes. */
  ghost function Givens(d: Dims, input: array2<int>): iset<Choice>
    requires input.Length0 == d.w && input.Length1 == d.h
    reads input
  {
    iset t: Choice | InGrid(d, t) && input[t.i, t.j] == t.k + 1
  }

  /** The entry of a section: whether the choice of a cover row is given and meets the constraint of a column. */
  ghost function Entry(d: Dims, givens: iset<Choice>, s: Section, order: seq<Choice>, r: nat, c: nat): int
    requires Regular(d)
  {
    if r < |order| && order[r] in givens && c == ColumnOf(d, s, order[r]) then 1 else 0
  }

  /** The rows of a section hold a one where the given choices meet their constraints, and zeros elsewhere. */
  ghost predicate Filled(d: Dims, givens: iset<Choice>, cover: seq<int>, s: Section, order: seq<Choice>)
    requires Regular(d) && |cover| == Area(CoverColumns(d), CoverRows(d))
  {
    && |order| <= CoverRows(d) && (forall t <- order :: InGrid(d, t))
    && forall r, c | 0 <= r < CoverRows(d) && 0 <= c < CoverColumns(d) && From(d, s) <= c < To(d, s) ::
         At(cover, CoverColumns(d), CoverRows(d), r, c) == Entry(d, givens, s, order, r, c)
  }

  /** The other sections. */
  ghost predicate OthersKept(d: Dims, was: seq<int>, cover: seq<int>, s: Section)
    requires |was| == |cover| == Area(CoverColumns(d), CoverRows(d))
  {
    forall r, c | 0 <= r < CoverRows(d) && 0 <= c < CoverColumns(d) && !(From(d, s) <= c < To(d, s)) ::
      At(cover, CoverColumns(d), CoverRows(d), r, c) == At(was, CoverColumns(d), CoverRows(d), r, c)
  }

  /** In the nested loops, the cells before (x, y), by the counters from the outer one to the inner. */
  predicate Before(a: nat, b: nat, x: nat, y: nat) {
    a < x || (a == x && b < y)
  }

  /** The choices listed so far, when the outer loop runs over the rows of the table. */
  ghost predicate ByRows(d: Dims, order: seq<Choice>, j: nat, i: nat) {
    Distinct(order) && forall t :: t in order <==> InGrid(d, t) && Before(t.j, t.i, j, i)
  }

  /** The same when it runs over the columns. */
  ghost predicate ByColumns(d: Dims, order: seq<Choice>, i: nat, j: nat) {
    Distinct(order) && forall t :: t in order <==> InGrid(d, t) && Before(t.i, t.j, i, j)
  }

  /** The first `n` choices for a cell. */
  ghost function Choices(i: nat, j: nat, n: nat): (r: seq<Choice>)
    ensures |r| == n && forall t :: t in r <==> t.i == i && t.j == j && t.k < n
  {
    var r := seq(n, (k: nat) => Choice(i, j, k));
    assert forall k: nat | k < n :: r[k] == Choice(i, j, k);
    r
  }

  lemma Listed(order: seq<Choice>, i: nat, j: nat, n: nat)
    requires Distinct(order) && forall t <- order :: t.i != i || t.j != j
    ensures Distinct(order + Choices(i, j, n))
    ensures forall t :: t in order + Choices(i, j, n) <==> t in order || (t.i == i && t.j == j && t.k < n)
  {
    var all := order + Choices(i, j, n);
    forall a, b | 0 <= a < b < |all|
      ensures all[a] != all[b]
    {
      assert a < |order| ==> all[a] in order;
    }
  }

  lemma RowsStep(d: Dims, order: seq<Choice>, j: nat, i: nat)
    requires ByRows(d, order, j, i) && j < d.h && i < d.w
    ensures ByRows(d, order + Choices(i, j, d.w), j, i + 1)
  {
    Listed(order, i, j, d.w);
  }

  lemma ColumnsStep(d: Dims, order: seq<Choice>, i: nat, j: nat)
    requires ByColumns(d, order, i, j) && j < d.h && i < d.w
    ensures ByColumns(d, order + Choices(i, j, d.w), i, j + 1)
  {
    Listed(order, i, j, d.w);
  }

  lemma {:induction false} NextIndex(n: nat, r: nat, c: nat)
    ensures Index(n, r, c + 1) == Index(n, r, c) + 1 && Index(n, r, n) == Index(n, r + 1, 0)
    decreases r
  {
    if r > 0 { NextIndex(n, r - 1, c); }
  }

  lemma {:induction false} AreaIsIndex(n: nat, r: nat, c: nat)
    ensures Index(n, r, c) == Area(n, r) + c
    decreases r
  {
    if r > 0 { AreaIsIndex(n, r - 1, c); }
  }

  /** The columns of the choices for one cell follow one another, or are all the same. */
  lemma ColumnOfSymbol(d: Dims, s: Section, i: nat, j: nat, k: nat)
    requires Regular(d)
    ensures ColumnOf(d, s, Choice(i, j, k)) == ColumnOf(d, s, Choice(i, j, 0)) + if s.Cells? then 0 else k
  {
    var g := Group(d, s, Choice(i, j, 0)).0;
    AreaIsIndex(d.w, g, 0);
    AreaIsIndex(d.w, g, k);
  }

  lemma BoxColumn(d: Dims, i: nat, j: nat)
    requires Regular(d)
    ensures ColumnOf(d, Boxes, Choice(i, j, 0)) == From(d, Boxes) + BoxOf(d, i, j) * d.w
  {
    IndexIs(d.w, BoxOf(d, i, j), 0);
  }

  /** The cover rows before those of a cell, when the cells of `m` lines of `n` are taken in turn, `w` rows each. */
  function RowsBefore(n: nat, x: nat, y: nat, w: nat): nat {
    Area(w, Index(n, x, y))
  }

  lemma RowsOfCell(n: nat, m: nat, x: nat, y: nat, w: nat)
    requires x < m && y < n
    ensures RowsBefore(n, x, y, w) + w == RowsBefore(n, x, y + 1, w) <= m * n * w
    ensures RowsBefore(n, x, n, w) == RowsBefore(n, x + 1, 0, w)
  {
    NextIndex(n, x, y);
    InArea(n, m, x, y);
    AreaIs(n, m);
    var cell := Index(n, x, y) + 1;
    AreaIs(w, cell);
    Times(cell, m * n, w);
  }

  lemma RowOfCell(d: Dims, j: nat, i: nat)
    requires j < d.h && i < d.w
    ensures RowsBefore(d.w, j, i, d.w) + d.w == RowsBefore(d.w, j, i + 1, d.w) <= CoverRows(d)
    ensures RowsBefore(d.w, j, d.w, d.w) == RowsBefore(d.w, j + 1, 0, d.w)
  {
    RowsOfCell(d.w, d.h, j, i, d.w);
    assert d.h * d.w * d.w == d.w * d.h * d.w;
  }

  lemma RowOfBoxCell(d: Dims, i: nat, j: nat)
    requires j < d.h && i < d.w
    ensures RowsBefore(d.h, i, j, d.w) + d.w == RowsBefore(d.h, i, j + 1, d.w) <= CoverRows(d)
    ensures RowsBefore(d.h, i, d.h, d.w) == RowsBefore(d.h, i + 1, 0, d.w)
  {
    RowsOfCell(d.h, d.w, i, j, d.w);
  }

  /** Writing one section keeps what was written in the others. */
  lemma KeepFilled(d: Dims, givens: iset<Choice>, was: seq<int>, cover: seq<int>, s: Section, order: seq<Choice>,
                   other: Section)
    requires Regular(d) && |was| == |cover| == Area(CoverColumns(d), CoverRows(d)) && s != other
    requires Filled(d, givens, was, s, order) && OthersKept(d, was, cover, other)
    ensures Filled(d, givens, cover, s, order)
  {
  }

  /** An empty cover, for any section. */
  lemma BlankIsFilled(d: Dims, givens: iset<Choice>, cover: seq<int>, s: Section)
    requires Regular(d) && |cover| == Area(CoverColumns(d), CoverRows(d)) && forall x | 0 <= x < |cover| ::
      cover[x] == 0
    ensures Filled(d, givens, cover, s, [])
  {
    forall r, c | 0 <= r < CoverRows(d) && 0 <= c < CoverColumns(d)
      ensures At(cover, CoverColumns(d), CoverRows(d), r, c) == 0
    {
      InArea(CoverColumns(d), CoverRows(d), r, c);
    }
  }

  class SimpleBuilder {
    var cover: array<int>
    var nCoverRows: nat
    var nCoverColumns: nat
    var nCellTaken: nat
    var nRowCond: nat
    var nColumnCond: nat
    var nBoxCond: nat
    var nBoxRows: nat
    var nBoxColumns: nat

    constructor (rows: nat, columns: nat)
      ensures nBoxRows == rows && nBoxColumns == columns && fresh(cover)
    {
      cover := new int[0];
      nBoxRows, nBoxColumns := rows, columns;
    }

    /** The sizes fit the table, and the symbols are the numbers from one to its width. */
    ghost predicate Ready(d: Dims, input: array2<int>, symbols: array<int>)
      reads this, symbols
    {
      && Regular(d) && input.Length0 == d.w && input.Length1 == d.h && symbols.Length == d.w
      && (forall k | 0 <= k < d.w :: symbols[k] == k + 1)
      && nCellTaken == d.w * d.h && nRowCond == d.h * d.w && nColumnCond == d.w * d.w && nBoxCond == d.w * d.h
      && nCoverColumns == CoverColumns(d) && nCoverRows == CoverRows(d)
      && cover.Length == Area(CoverColumns(d), CoverRows(d)) && cover != symbols
    }

    /** The assignment in the innermost loop of every section, for the cover row that comes next. */
    method Mark(ghost d: Dims, input: array2<int>, symbols: array<int>, ghost s: Section, ghost order: seq<Choice>,
                t: Choice,
                row: nat, column: nat) returns (ok: bool)
      requires Ready(d, input, symbols) && InGrid(d, t) && Filled(d, Givens(d, input), cover[..], s, order)
      requires row == |order| < CoverRows(d) && column == ColumnOf(d, s, t)
      modifies cover
      ensures ok && Filled(d, Givens(d, input), cover[..], s, order + [t])
        && OthersKept(d, old(cover[..]), cover[..], s)
    {
      GroupInSection(d, s, t);
      assert At(cover[..], CoverColumns(d), CoverRows(d), row, column)
        == Entry(d, Givens(d, input), s, order, row, column) == 0;
      if input[t.i, t.j] == symbols[t.k] {
        if 1 == At(cover[..], nCoverColumns, nCoverRows, row, column) { return false; }
        Put(cover, nCoverColumns, nCoverRows, row, column, 1);
      } else {
        Put(cover, nCoverColumns, nCoverRows, row, column, 0);
      }
      ok := true;
      forall r: nat, c: nat
        ensures Entry(d, Givens(d, input), s, order + [t], r, c) ==
          if r == row && c == column then (if t in Givens(d, input) then 1 else 0)
            else Entry(d, Givens(d, input), s, order, r, c)
      {
      }
    }

    /** The innermost loop of every section: all symbols for one cell. */
    method MarkCell(ghost d: Dims, input: array2<int>, symbols: array<int>, ghost s: Section, ghost order: seq<Choice>,
                    i: nat, j: nat,
                    row: nat, column: nat, perSymbol: bool) returns (ok: bool)
      requires Ready(d, input, symbols) && i < d.w && j < d.h && Filled(d, Givens(d, input), cover[..], s, order)
      requires row == |order| && row + d.w <= CoverRows(d) && perSymbol == !s.Cells?
      requires column == ColumnOf(d, s, Choice(i, j, 0))
      modifies cover
      ensures ok && Filled(d, Givens(d, input), cover[..], s, order + Choices(i, j, d.w))
        && OthersKept(d, old(cover[..]), cover[..], s)
    {
      assert order + Choices(i, j, 0) == order;
      for k := 0 to symbols.Length
        invariant Filled(d, Givens(d, input), cover[..], s, order + Choices(i, j, k))
          && OthersKept(d, old(cover[..]), cover[..], s)
      {
        ColumnOfSymbol(d, s, i, j, k);
        ok := Mark(d, input, symbols, s, order + Choices(i, j, k), Choice(i, j, k), row + k,
                   if perSymbol then column + k else column);
        if !ok { return; }
        assert order + Choices(i, j, k) + [Choice(i, j, k)] == order + Choices(i, j, k + 1);
      }
      ok := true;
    }

    method AddCells(ghost d: Dims, input: array2<int>, symbols: array<int>) returns (ok: bool, ghost order: seq<Choice>)
      requires Ready(d, input, symbols) && Filled(d, Givens(d, input), cover[..], Cells, [])
      modifies cover
      ensures ok && Enumerates(d, order) && Filled(d, Givens(d, input), cover[..], Cells, order)
      ensures OthersKept(d, old(cover[..]), cover[..], Cells)
    {
      order := [];
      var nCrtRow, nCrtCol := 0, 0;
      for j := 0 to input.Length1
        invariant nCrtCol == Index(d.w, j, 0) && nCrtRow == |order| == RowsBefore(d.w, j, 0, d.w)
          && ByRows(d, order, j, 0)
        invariant Filled(d, Givens(d, input), cover[..], Cells, order)
          && OthersKept(d, old(cover[..]), cover[..], Cells)
      {
        for i := 0 to input.Length0
          invariant nCrtCol == Index(d.w, j, i) && nCrtRow == |order| == RowsBefore(d.w, j, i, d.w)
            && ByRows(d, order, j, i)
          invariant Filled(d, Givens(d, input), cover[..], Cells, order)
            && OthersKept(d, old(cover[..]), cover[..], Cells)
        {
          RowOfCell(d, j, i);
          ok := MarkCell(d, input, symbols, Cells, order, i, j, nCrtRow, nCrtCol, false);
          if !ok { return; }
          RowsStep(d, order, j, i);
          order := order + Choices(i, j, d.w);
          nCrtRow := nCrtRow + symbols.Length;
          NextIndex(d.w, j, i);
          nCrtCol := nCrtCol + 1;
        }
        NextIndex(d.w, j, 0);
      }
      ok := true;
    }

    method AddRows(ghost d: Dims, input: array2<int>, symbols: array<int>) returns (ok: bool, ghost order: seq<Choice>)
      requires Ready(d, input, symbols) && Filled(d, Givens(d, input), cover[..], Rows, [])
      modifies cover
      ensures ok && Enumerates(d, order) && Filled(d, Givens(d, input), cover[..], Rows, order)
      ensures OthersKept(d, old(cover[..]), cover[..], Rows)
    {
      order := [];
      var nCrtRow, nCrtCol := 0, 0;
      for j := 0 to input.Length1
        invariant nCrtCol == Area(d.w, j) && nCrtRow == |order| == RowsBefore(d.w, j, 0, d.w) && ByRows(d, order, j, 0)
        invariant Filled(d, Givens(d, input), cover[..], Rows, order) && OthersKept(d, old(cover[..]), cover[..], Rows)
      {
        for i := 0 to input.Length0
          invariant nCrtCol == Area(d.w, j) && nCrtRow == |order| == RowsBefore(d.w, j, i, d.w)
            && ByRows(d, order, j, i)
          invariant Filled(d, Givens(d, input), cover[..], Rows, order)
            && OthersKept(d, old(cover[..]), cover[..], Rows)
        {
          RowOfCell(d, j, i);
          AreaIsIndex(d.w, j, 0);
          ok := MarkCell(d, input, symbols, Rows, order, i, j, nCrtRow, nCellTaken + nCrtCol, true);
          if !ok { return; }
          RowsStep(d, order, j, i);
          order := order + Choices(i, j, d.w);
          nCrtRow := nCrtRow + symbols.Length;
        }
        NextIndex(d.w, j, 0);
        nCrtCol := nCrtCol + symbols.Length;
      }
      ok := true;
    }

    method AddCols(ghost d: Dims, input: array2<int>, symbols: array<int>) returns (ok: bool, ghost order: seq<Choice>)
      requires Ready(d, input, symbols) && Filled(d, Givens(d, input), cover[..], Columns, [])
      modifies cover
      ensures ok && Enumerates(d, order) && Filled(d, Givens(d, input), cover[..], Columns, order)
      ensures OthersKept(d, old(cover[..]), cover[..], Columns)
    {
      order := [];
      var nCrtRow, nCrtCol := 0, 0;
      for j := 0 to input.Length1
        invariant nCrtCol == 0 && nCrtRow == |order| == RowsBefore(d.w, j, 0, d.w) && ByRows(d, order, j, 0)
        invariant Filled(d, Givens(d, input), cover[..], Columns, order)
          && OthersKept(d, old(cover[..]), cover[..], Columns)
      {
        for i := 0 to input.Length0
          invariant nCrtCol == Area(d.w, i) && nCrtRow == |order| == RowsBefore(d.w, j, i, d.w)
            && ByRows(d, order, j, i)
          invariant Filled(d, Givens(d, input), cover[..], Columns, order)
            && OthersKept(d, old(cover[..]), cover[..], Columns)
        {
          RowOfCell(d, j, i);
          AreaIsIndex(d.w, i, 0);
          ok := MarkCell(d, input, symbols, Columns, order, i, j, nCrtRow, nCellTaken + nRowCond + nCrtCol, true);
          if !ok { return; }
          RowsStep(d, order, j, i);
          order := order + Choices(i, j, d.w);
          nCrtRow := nCrtRow + symbols.Length;
          nCrtCol := nCrtCol + symbols.Length;
        }
        NextIndex(d.w, j, 0);
        nCrtCol := 0;
      }
      ok := true;
    }

    /** This section runs over the columns of the table first, so its cover rows stand for other choices. */
    method AddBoxes(ghost d: Dims, input: array2<int>, symbols: array<int>) returns (ok: bool, ghost order: seq<Choice>)
      requires Ready(d, input, symbols) && Filled(d, Givens(d, input), cover[..], Boxes, [])
      requires nBoxRows == d.boxRows && nBoxColumns == d.boxColumns
      modifies cover
      ensures ok && Enumerates(d, order) && Filled(d, Givens(d, input), cover[..], Boxes, order)
      ensures OthersKept(d, old(cover[..]), cover[..], Boxes)
    {
      order := [];
      var nCrtRow, nCrtCol, nCrtBox := 0, 0, 0;
      for i := 0 to input.Length0
        invariant nCrtRow == |order| == RowsBefore(d.h, i, 0, d.w) && ByColumns(d, order, i, 0)
        invariant Filled(d, Givens(d, input), cover[..], Boxes, order)
          && OthersKept(d, old(cover[..]), cover[..], Boxes)
      {
        for j := 0 to input.Length1
          invariant nCrtRow == |order| == RowsBefore(d.h, i, j, d.w) && ByColumns(d, order, i, j)
          invariant Filled(d, Givens(d, input), cover[..], Boxes, order)
            && OthersKept(d, old(cover[..]), cover[..], Boxes)
        {
          nCrtBox := i / nBoxColumns + j / nBoxRows * input.Length0 / nBoxColumns;
          nCrtCol := nCrtBox * symbols.Length;
          BoxColumn(d, i, j);
          RowOfBoxCell(d, i, j);
          ok := MarkCell(d, input, symbols, Boxes, order, i, j, nCrtRow, nCellTaken + nRowCond + nColumnCond + nCrtCol,
                         true);
          if !ok { return; }
          ColumnsStep(d, order, i, j);
          order := order + Choices(i, j, d.w);
          nCrtRow := nCrtRow + symbols.Length;
        }
        NextIndex(d.h, i, 0);
      }
      ok := true;
    }

    /** The sizes, and a cover of zeros. */
    method Allocate(ghost d: Dims, input: array2<int>, symbols: array<int>)
      requires Regular(d) && input.Length0 == d.w && input.Length1 == d.h && symbols.Length == d.w
      requires forall k | 0 <= k < d.w :: symbols[k] == k + 1
      modifies this
      ensures nBoxRows == old(nBoxRows) && nBoxColumns == old(nBoxColumns)
      ensures Ready(d, input, symbols) && fresh(cover)
      ensures forall s: Section :: Filled(d, Givens(d, input), cover[..], s, [])
    {
      nCellTaken := input.Length0 * input.Length1;
      nRowCond := input.Length1 * symbols.Length;
      nColumnCond := input.Length0 * symbols.Length;
      nBoxCond := input.Length0 * input.Length1;
      nCoverColumns := nCellTaken + nRowCond + nColumnCond + nBoxCond;
      nCoverRows := input.Length0 * input.Length1 * symbols.Length;
      cover := Zeros(nCoverColumns, nCoverRows);
      forall s: Section
        ensures Filled(d, Givens(d, input), cover[..], s, [])
      {
        BlankIsFilled(d, Givens(d, input), cover[..], s);
      }
    }

    static method Zeros(n: nat, m: nat) returns (a: array<int>)
      ensures fresh(a) && a.Length == Area(n, m) && forall x | 0 <= x < a.Length :: a[x] == 0
    {
      AreaIs(n, m);
      a := new int[n * m](_ => 0);
    }

    method Run(ghost d: Dims, input: array2<int>, symbols: array<int>) returns (ok: bool,
                                                                                ghost orders: map<Section, seq<Choice>>)
      requires Regular(d) && input.Length0 == d.w && input.Length1 == d.h && symbols.Length == d.w
      requires nBoxRows == d.boxRows && nBoxColumns == d.boxColumns
      requires forall k | 0 <= k < d.w :: symbols[k] == k + 1
      modifies this
      ensures ok && Ready(d, input, symbols) && fresh(cover)
      ensures Built(d, Givens(d, input), cover[..], orders)
    {
      Allocate(d, input, symbols);
      ok, orders := Fill(d, input, symbols);
    }

    method Fill(ghost d: Dims, input: array2<int>, symbols: array<int>) returns (ok: bool,
                                                                                 ghost orders: map<Section,
                                                                                 seq<Choice>>)
      requires Ready(d, input, symbols) && nBoxRows == d.boxRows && nBoxColumns == d.boxColumns
      requires forall s: Section :: Filled(d, Givens(d, input), cover[..], s, [])
      modifies cover
      ensures ok && Built(d, Givens(d, input), cover[..], orders)
    {
      orders := map[];
      ghost var givens, blank := Givens(d, input), cover[..];
      ghost var cells, rows, columns, boxes;
      ok, cells := AddCells(d, input, symbols);
      if !ok { return; }
      KeepFilled(d, givens, blank, cover[..], Rows, [], Cells);
      KeepFilled(d, givens, blank, cover[..], Columns, [], Cells);
      KeepFilled(d, givens, blank, cover[..], Boxes, [], Cells);
      ghost var one := cover[..];
      ok, rows := AddRows(d, input, symbols);
      if !ok { return; }
      KeepFilled(d, givens, one, cover[..], Cells, cells, Rows);
      KeepFilled(d, givens, one, cover[..], Columns, [], Rows);
      KeepFilled(d, givens, one, cover[..], Boxes, [], Rows);
      ghost var two := cover[..];
      ok, columns := AddCols(d, input, symbols);
      if !ok { return; }
      KeepFilled(d, givens, two, cover[..], Cells, cells, Columns);
      KeepFilled(d, givens, two, cover[..], Rows, rows, Columns);
      KeepFilled(d, givens, two, cover[..], Boxes, [], Columns);
      ghost var three := cover[..];
      ok, boxes := AddBoxes(d, input, symbols);
      if !ok { return; }
      KeepFilled(d, givens, three, cover[..], Cells, cells, Boxes);
      KeepFilled(d, givens, three, cover[..], Rows, rows, Boxes);
      KeepFilled(d, givens, three, cover[..], Columns, columns, Boxes);
      orders := map[Cells := cells, Rows := rows, Columns := columns, Boxes := boxes];
      Assembled(d, givens, cover[..], cells, rows, columns, boxes);
    }

    /** The cover as a table of columns by rows. */
    method GetCover(ghost d: Dims, input: array2<int>, symbols: array<int>) returns (ret: array2<int>)
      requires Ready(d, input, symbols) && d.w > 0
      ensures fresh(ret) && ret.Length0 == CoverColumns(d) && ret.Length1 == CoverRows(d)
      ensures forall r, c | 0 <= r < CoverRows(d) && 0 <= c < CoverColumns(d) ::
        ret[c, r] == At(cover[..], CoverColumns(d), CoverRows(d), r, c)
    {
      ret := new int[nCoverColumns, nCoverRows];
      assert nCoverColumns > 0;
      for i := 0 to cover.Length
        invariant forall r, c | 0 <= r < nCoverRows && 0 <= c < nCoverColumns && Index(nCoverColumns, r, c) < i ::
          ret[c, r] == At(cover[..], nCoverColumns, nCoverRows, r, c)
      {
        Split(i, nCoverColumns, nCoverRows);
        OnePlace(nCoverColumns, nCoverRows, i / nCoverColumns, i % nCoverColumns);
        ret[i % nCoverColumns, i / nCoverColumns] := cover[i];
      }
      forall r, c | 0 <= r < nCoverRows && 0 <= c < nCoverColumns
        ensures ret[c, r] == At(cover[..], nCoverColumns, nCoverRows, r, c)
      {
        InArea(nCoverColumns, nCoverRows, r, c);
      }
    }
  }

  /** Every index of the flat array is that of one row and one column. */
  lemma Split(x: nat, n: nat, m: nat)
    requires n > 0 && x < Area(n, m)
    ensures 0 <= x / n < m && 0 <= x % n < n && Index(n, x / n, x % n) == x
  {
    AreaIs(n, m);
    Quotient(x, n, m);
    Remainder(x, n);
    IndexIs(n, x / n, x % n);
  }

  lemma Remainder(x: nat, n: nat)
    requires n > 0
    ensures x / n * n + x % n == x && x % n < n
  {
  }

  lemma OnePlace(n: nat, m: nat, y: nat, z: nat)
    requires z < n
    ensures forall r, c | 0 <= r < m && 0 <= c < n :: Index(n, r, c) == Index(n, y, z) <==> r == y && c == z
  {
    forall r, c | 0 <= r < m && 0 <= c < n
      ensures Index(n, r, c) == Index(n, y, z) <==> r == y && c == z
    {
      OneIndex(n, r, c, y, z);
    }
  }

  /** Every section is filled, with an enumeration of all choices of its own. */
  ghost predicate Built(d: Dims, givens: iset<Choice>, cover: seq<int>, orders: map<Section, seq<Choice>>)
    requires Regular(d) && |cover| == Area(CoverColumns(d), CoverRows(d))
  {
    forall s: Section :: s in orders && Enumerates(d, orders[s]) && Filled(d, givens, cover, s, orders[s])
  }

  lemma Assembled(d: Dims, givens: iset<Choice>, cover: seq<int>, cells: seq<Choice>, rows: seq<Choice>,
                  columns: seq<Choice>, boxes: seq<Choice>)
    requires Regular(d) && |cover| == Area(CoverColumns(d), CoverRows(d))
    requires Enumerates(d, cells) && Enumerates(d, rows) && Enumerates(d, columns) && Enumerates(d, boxes)
    requires Filled(d, givens, cover, Cells, cells) && Filled(d, givens, cover, Rows, rows)
    requires Filled(d, givens, cover, Columns, columns) && Filled(d, givens, cover, Boxes, boxes)
    ensures Built(d, givens, cover, map[Cells := cells, Rows := rows, Columns := columns, Boxes := boxes])
  {
    var orders := map[Cells := cells, Rows := rows, Columns := columns, Boxes := boxes];
    forall s: Section
      ensures s in orders && Enumerates(d, orders[s]) && Filled(d, givens, cover, s, orders[s])
    {
      match s
      case Cells =>
      case Rows =>
      case Columns =>
      case Boxes =>
    }
  }

  // ---- What the cover says about the table ----

  /** The row and the column of a cell's box among the boxes. */
  function BoxPlace(d: Dims, i: nat, j: nat): (nat, nat)
    requires Regular(d)
  {
    (j / d.boxRows, i / d.boxColumns)
  }

  predicate SameBox(d: Dims, i: nat, j: nat, i1: nat, j1: nat)
    requires Regular(d)
  {
    BoxPlace(d, i, j) == BoxPlace(d, i1, j1)
  }

  /** No symbol from one to the width stands twice in a row, a column or a box. */
  ghost predicate NoRepeats(d: Dims, input: array2<int>)
    requires Regular(d) && input.Length0 == d.w && input.Length1 == d.h
    reads input
  {
    forall i, j, i1, j1 | 0 <= i < d.w && 0 <= i1 < d.w && 0 <= j < d.h && 0 <= j1 < d.h && (i, j) != (i1, j1) ::
      1 <= input[i, j] <= d.w && input[i, j] == input[i1, j1] ==> j != j1 && i != i1 && !SameBox(d, i, j, i1, j1)
  }

  /** No column of the cover holds two ones. */
  ghost predicate Clean(d: Dims, cover: seq<int>, s: Section)
    requires |cover| == Area(CoverColumns(d), CoverRows(d))
  {
    forall c, r, r1 | 0 <= c < CoverColumns(d) && From(d, s) <= c < To(d, s) && 0 <= r < r1 < CoverRows(d) ::
      !(At(cover, CoverColumns(d), CoverRows(d), r, c) == 1 && At(cover, CoverColumns(d), CoverRows(d), r1, c) == 1)
  }

  /** Given choices meet different constraints of a section. */
  ghost predicate Apart(d: Dims, givens: iset<Choice>, s: Section)
    requires Regular(d)
  {
    forall t, u :: t in givens && u in givens && t != u ==> Group(d, s, t) != Group(d, s, u)
  }

  lemma CleanIsApart(d: Dims, givens: iset<Choice>, cover: seq<int>, s: Section, order: seq<Choice>)
    requires Regular(d) && |cover| == Area(CoverColumns(d), CoverRows(d)) && forall t <- givens :: InGrid(d, t)
    requires Enumerates(d, order) && Filled(d, givens, cover, s, order) && Clean(d, cover, s)
    ensures Apart(d, givens, s)
  {
    forall t, u | t in givens && u in givens && t != u
      ensures Group(d, s, t) != Group(d, s, u)
    {
      GroupInSection(d, s, t);
      SameColumnIff(d, s, t, u);
      var a :| 0 <= a < |order| && order[a] == t;
      var b :| 0 <= b < |order| && order[b] == u;
      var c := ColumnOf(d, s, t);
      assert Entry(d, givens, s, order, a, c) == 1;
      assert ColumnOf(d, s, u) == c ==> Entry(d, givens, s, order, b, c) == 1;
    }
  }

  lemma ApartIsClean(d: Dims, givens: iset<Choice>, cover: seq<int>, s: Section, order: seq<Choice>)
    requires Regular(d) && |cover| == Area(CoverColumns(d), CoverRows(d)) && forall t <- givens :: InGrid(d, t)
    requires Enumerates(d, order) && Filled(d, givens, cover, s, order) && Apart(d, givens, s)
    ensures Clean(d, cover, s)
  {
    forall c, r, r1 | 0 <= c < CoverColumns(d) && From(d, s) <= c < To(d, s) && 0 <= r < r1 < CoverRows(d)
      ensures !(At(cover, CoverColumns(d), CoverRows(d), r, c) == 1
        && At(cover, CoverColumns(d), CoverRows(d), r1, c) == 1)
    {
      if Entry(d, givens, s, order, r, c) == 1 && r1 < |order| {
        SameColumnIff(d, s, order[r], order[r1]);
      }
    }
  }

  lemma ApartIffNoRepeats(d: Dims, input: array2<int>)
    requires Regular(d) && input.Length0 == d.w && input.Length1 == d.h
    ensures (forall s: Section :: Apart(d, Givens(d, input), s)) <==> NoRepeats(d, input)
  {
    var givens := Givens(d, input);
    if forall s: Section :: Apart(d, givens, s) {
      forall i, j, i1, j1 | 0 <= i < d.w && 0 <= i1 < d.w && 0 <= j < d.h && 0 <= j1 < d.h && (i, j) != (i1, j1)
        ensures 1 <= input[i, j] <= d.w && input[i, j] == input[i1, j1] ==>
          j != j1 && i != i1 && !SameBox(d, i, j, i1, j1)
      {
        if 1 <= input[i, j] <= d.w && input[i, j] == input[i1, j1] {
          var t, u := Choice(i, j, input[i, j] - 1), Choice(i1, j1, input[i, j] - 1);
          assert t in givens && u in givens;
          assert Apart(d, givens, Rows) && Apart(d, givens, Columns) && Apart(d, givens, Boxes);
          BoxNumbers(d, i, j);
          BoxNumbers(d, i1, j1);
        }
      }
    }
    if NoRepeats(d, input) {
      forall s: Section
        ensures Apart(d, givens, s)
      {
        forall t, u | t in givens && u in givens && t != u
          ensures Group(d, s, t) != Group(d, s, u)
        {
          SameBoxIff(d, t, u);
        }
      }
    }
  }

  lemma SameBoxIff(d: Dims, t: Choice, u: Choice)
    requires Regular(d) && InGrid(d, t) && InGrid(d, u)
    ensures BoxOf(d, t.i, t.j) == BoxOf(d, u.i, u.j) <==> SameBox(d, t.i, t.j, u.i, u.j)
  {
    var (q, p) := BoxPlace(d, t.i, t.j);
    var (q1, p1) := BoxPlace(d, u.i, u.j);
    BoxNumbers(d, t.i, t.j);
    BoxNumbers(d, u.i, u.j);
    assert BoxOf(d, t.i, t.j) == Index(d.boxRows, q, p) && BoxOf(d, u.i, u.j) == Index(d.boxRows, q1, p1);
    OneIndex(d.boxRows, q, p, q1, p1);
  }

  /** Two cells are in one box exactly when one of the rectangles of the box size that tile the table holds both. */
  lemma BoxIsRectangle(d: Dims, i: nat, j: nat, i1: nat, j1: nat)
    requires Regular(d)
    ensures SameBox(d, i, j, i1, j1) <==> exists a: nat, b: nat :: InBox(d, a, b, i, j) && InBox(d, a, b, i1, j1)
  {
    OnlyInside(i, d.boxColumns);
    OnlyInside(i1, d.boxColumns);
    OnlyInside(j, d.boxRows);
    OnlyInside(j1, d.boxRows);
    if SameBox(d, i, j, i1, j1) {
      var (b, a) := BoxPlace(d, i, j);
      assert InBox(d, a, b, i, j) && InBox(d, a, b, i1, j1);
    }
  }

  predicate InBox(d: Dims, a: nat, b: nat, i: nat, j: nat) {
    Inside(a, d.boxColumns, i) && Inside(b, d.boxRows, j)
  }

  /** The place is in stretch number `a` of the given length. */
  predicate Inside(a: nat, length: nat, x: nat) {
    a * length <= x < (a + 1) * length
  }

  lemma OnlyInside(x: nat, length: nat)
    requires length > 0
    ensures x / length >= 0 && forall a: nat :: Inside(a, length, x) <==> a == x / length
  {
    var q, y := x / length, x % length;
    assert x == q * length + y;
    NextLine(q, length, 1);
    forall a: nat | Inside(a, length, x)
      ensures a == q
    {
      NextLine(a, length, 1);
      Positional(a, x - a * length, q, y, length);
    }
  }

  /** No column of the whole cover holds two ones exactly when no symbol repeats. */
  lemma CoverCleanIff(d: Dims, input: array2<int>, cover: seq<int>, orders: map<Section, seq<Choice>>)
    requires Regular(d) && input.Length0 == d.w && input.Length1 == d.h
    requires |cover| == Area(CoverColumns(d), CoverRows(d)) && Built(d, Givens(d, input), cover, orders)
    ensures (forall s: Section :: Clean(d, cover, s)) <==> NoRepeats(d, input)
  {
    var givens := Givens(d, input);
    forall s: Section
      ensures Clean(d, cover, s) <==> Apart(d, givens, s)
    {
      if Clean(d, cover, s) { CleanIsApart(d, givens, cover, s, orders[s]); }
      if Apart(d, givens, s) { ApartIsClean(d, givens, cover, s, orders[s]); }
    }
    ApartIffNoRepeats(d, input);
  }
}
