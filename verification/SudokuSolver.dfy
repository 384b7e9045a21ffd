/** The exact-cover solver: it takes the column with the fewest ones, and with it a row, and goes on with what is
    left. */
module SudokuSolver {
  import opened Sequences

  /** The first index is the column and the second the row; the first row and column hold labels. */
  ghost predicate Labelled(t: array2<int>)
    reads t
  {
    && t.Length0 >= 1 && t.Length1 >= 1
    && (forall i, j | 1 <= i < t.Length0 && 1 <= j < t.Length1 :: t[i, j] == 0 || t[i, j] == 1)
    && (forall j | 1 <= j < t.Length1 :: t[0, j] > 0)
    && (forall j, k | 1 <= j < k < t.Length1 :: t[0, j] != t[0, k])
  }

  /** No column holds two ones. */
  ghost predicate AtMostOne(t: array2<int>)
    reads t
  {
    forall i, j, k | 1 <= i < t.Length0 && 1 <= j < k < t.Length1 :: !(t[i, j] == 1 && t[i, k] == 1)
  }

  /** The ones of a column in the rows from `j` on. */
  ghost function Ones(t: array2<int>, i: nat, j: nat): nat
    requires i < t.Length0 && j <= t.Length1
    reads t
    decreases t.Length1 - j
  {
    if j == t.Length1 then 0 else (if t[i, j] == 1 then 1 else 0) + Ones(t, i, j + 1)
  }

  /** The entries of a column that are not zero, in the rows from one up to `n`. */
  ghost function NonZeros(t: array2<int>, i: nat, n: nat): nat
    requires i < t.Length0 && (n == 1 || 1 <= n <= t.Length1)
    reads t
  {
    if n == 1 then 0 else (if t[i, n - 1] != 0 then 1 else 0) + NonZeros(t, i, n - 1)
  }

  lemma {:induction false} OnesAre(t: array2<int>, i: nat, j: nat)
    requires AtMostOne(t) && 1 <= i < t.Length0 && 1 <= j <= t.Length1
    ensures Ones(t, i, j) <= 1
    ensures Ones(t, i, j) == 1 <==> exists k :: j <= k < t.Length1 && t[i, k] == 1
    decreases t.Length1 - j
  {
    if j < t.Length1 { OnesAre(t, i, j + 1); }
  }

  lemma {:induction false} NonZerosAre(t: array2<int>, i: nat, n: nat)
    requires 1 <= i < t.Length0 && (n == 1 || 1 <= n <= t.Length1)
    ensures NonZeros(t, i, n) == 0 <==> forall j | 1 <= j < n :: t[i, j] == 0
    ensures NonZeros(t, i, n) <= 1 <==> forall j, k | 1 <= j < k < n :: t[i, j] == 0 || t[i, k] == 0
  {
    if n > 1 { NonZerosAre(t, i, n - 1); }
  }

  ghost predicate HasOne(t: array2<int>, j: nat)
    requires j < t.Length1
    reads t
  {
    exists i :: 1 <= i < t.Length0 && t[i, j] == 1
  }

  /** The label of a row that holds a one. */
  ghost predicate Needed(t: array2<int>, name: int)
    requires t.Length0 >= 1
    reads t
  {
    exists j: nat :: 1 <= j < t.Length1 && t[0, j] == name && HasOne(t, j)
  }

  /** The label of a row without ones, or the label of no row. */
  ghost predicate Idle(t: array2<int>, name: int)
    requires t.Length0 >= 1
    reads t
  {
    name == 0 || exists j: nat :: 1 <= j < t.Length1 && t[0, j] == name && !HasOne(t, j)
  }

  /** Exactly the rows with ones, each once. */
  ghost predicate Picks(t: array2<int>, picks: seq<int>)
    requires t.Length0 >= 1
    reads t
  {
    Distinct(picks) && forall x :: x in picks <==> Needed(t, x)
  }

  ghost predicate Trailing(t: array2<int>, rest: seq<int>)
    requires t.Length0 >= 1
    reads t
  {
    |rest| <= 2 && forall x <- rest :: Idle(t, x)
  }

  /** The picked rows cover every column that contains a one exactly once. */
  lemma PicksCoverOnce(t: array2<int>, picks: seq<int>, i: nat, j: nat) returns (p: nat)
    requires Labelled(t) && AtMostOne(t) && Picks(t, picks)
    requires 1 <= i < t.Length0 && 1 <= j < t.Length1 && t[i, j] == 1
    ensures p < |picks| && picks[p] == t[0, j]
    ensures forall q, k | 0 <= q < |picks| && 1 <= k < t.Length1 && picks[q] == t[0, k] && t[i, k] == 1 ::
      q == p && k == j
  {
    assert HasOne(t, j) && Needed(t, t[0, j]);
    p :| 0 <= p < |picks| && picks[p] == t[0, j];
  }

  // ---- Index lists ----

  ghost function Kept(n: nat, del: seq<nat>): seq<nat> {
    if n == 0 then []
    else if n - 1 in del then Kept(n - 1, del)
    else Kept(n - 1, del) + [n - 1]
  }

  lemma {:induction false} KeptAre(n: nat, del: seq<nat>)
    ensures forall x: nat :: x in Kept(n, del) <==> x < n && x !in del
    ensures forall a | 0 <= a < |Kept(n, del)| :: Kept(n, del)[a] < n
    ensures forall a, b | 0 <= a < b < |Kept(n, del)| :: Kept(n, del)[a] < Kept(n, del)[b]
  {
    if n > 0 {
      var before: seq<nat>, last: nat := Kept(n - 1, del), n - 1;
      KeptAre(last, del);
      assert forall x :: x in before + [last] <==> x in before || x == last;
    }
  }

  /** How many of the indices below `n` are deleted. */
  ghost function Below(del: seq<nat>, n: nat): set<nat> {
    set x: nat | x in del && x < n
  }

  lemma {:induction false} KeptLength(n: nat, del: seq<nat>)
    ensures |Kept(n, del)| + |Below(del, n)| == n
  {
    if n == 0 {
      assert Below(del, 0) == {};
    } else {
      var last: nat := n - 1;
      KeptLength(last, del);
      if last in del {
        assert Below(del, n) == Below(del, last) + {last};
      } else {
        assert Below(del, n) == Below(del, last);
      }
    }
  }

  ghost predicate Deletable(n: nat, del: seq<nat>) {
    (forall x <- del :: x < n) && forall a, b | 0 <= a < b < |del| :: del[a] != del[b]
  }

  lemma {:induction false} SetLength(del: seq<nat>)
    requires forall a, b | 0 <= a < b < |del| :: del[a] != del[b]
    ensures |(set x: nat | x in del)| == |del|
  {
    if del != [] {
      var init, last := del[..|del| - 1], del[|del| - 1];
      SetLength(init);
      assert (set x: nat | x in del) == (set x: nat | x in init) + {last};
    }
  }

  lemma KeptCount(n: nat, del: seq<nat>)
    requires Deletable(n, del)
    ensures |Kept(n, del)| == n - |del|
  {
    KeptLength(n, del);
    SetLength(del);
    assert Below(del, n) == set x: nat | x in del;
  }

  lemma KeptInOrder(n: nat, del: seq<nat>)
    requires Deletable(n, del)
    ensures |Kept(n, del)| == n - |del| && forall a | 0 <= a < |Kept(n, del)| :: Kept(n, del)[a] < n
    ensures forall a, b | 0 <= a < b < |Kept(n, del)| :: Kept(n, del)[a] < Kept(n, del)[b]
  {
    KeptCount(n, del);
    KeptAre(n, del);
  }

  lemma {:induction false} KeptPrefix(m: nat, n: nat, del: seq<nat>)
    requires m <= n
    ensures |Kept(m, del)| <= |Kept(n, del)| && Kept(n, del)[..|Kept(m, del)|] == Kept(m, del)
  {
    if m < n { KeptPrefix(m, n - 1, del); }
  }

  /** The next index is kept at the end of the list so far, or not at all. */
  lemma KeptNext(i: nat, n: nat, del: seq<nat>)
    requires i < n
    ensures if i in del then Kept(i + 1, del) == Kept(i, del)
            else |Kept(i + 1, del)| == |Kept(i, del)| + 1 <= |Kept(n, del)| && Kept(n, del)[|Kept(i, del)|] == i
  {
    KeptPrefix(i + 1, n, del);
  }

  // ---- The loops of Resolve ----

  /** The column with the fewest ones, from the last; columns with as many ones as there are columns do not count. */
  method FindColumn(input: array2<int>) returns (nColumn: nat)
    requires input.Length0 >= 1 && input.Length1 >= 1
    ensures nColumn < input.Length0
    ensures nColumn == 0 ==> forall i | 1 <= i < input.Length0 ::
      Ones(input, i, 1) == 0 || Ones(input, i, 1) >= input.Length0
    ensures nColumn > 0 ==> 0 < Ones(input, nColumn, 1) < input.Length0
    ensures nColumn > 0 ==>
      forall i | 1 <= i < input.Length0 :: Ones(input, i, 1) == 0
        || Ones(input, nColumn, 1) < Ones(input, i, 1) || (Ones(input, nColumn, 1) == Ones(input, i, 1) && i <= nColumn)
  {
    var nOnesMin := input.Length0;
    nColumn := 0;
    var i := input.Length0 - 1;
    while i > 0
      invariant 0 <= i < input.Length0 && nColumn < input.Length0 && (nColumn == 0 || i < nColumn)
      invariant nOnesMin == if nColumn == 0 then input.Length0 else Ones(input, nColumn, 1)
      invariant nColumn > 0 ==> 0 < nOnesMin < input.Length0
      invariant nColumn == 0 ==> forall k | i < k < input.Length0 ::
        Ones(input, k, 1) == 0 || nOnesMin <= Ones(input, k, 1)
      invariant nColumn > 0 ==>
        forall k | i < k < input.Length0 :: Ones(input, k, 1) == 0 || nOnesMin < Ones(input, k, 1)
          || (nOnesMin == Ones(input, k, 1) && k <= nColumn)
    {
      var nCrtOnes := 0;
      var j := input.Length1 - 1;
      while j > 0
        invariant 0 <= j < input.Length1 && nCrtOnes == Ones(input, i, j + 1)
      {
        if 1 == input[i, j] { nCrtOnes := nCrtOnes + 1; }
        j := j - 1;
      }
      if nOnesMin > nCrtOnes && nCrtOnes > 0 {
        nColumn := i;
        nOnesMin := nCrtOnes;
      }
      i := i - 1;
    }
  }

  /** The last row that is not zero in the column, and its label. */
  method FindRow(input: array2<int>, nColumn: nat) returns (nRow: nat, nSolutionRow: int)
    requires input.Length1 >= 1 && nColumn < input.Length0
    ensures nRow < input.Length1
    ensures nRow == 0 ==> nSolutionRow == 0 && forall j | 1 <= j < input.Length1 :: input[nColumn, j] == 0
    ensures nRow > 0 ==> nSolutionRow == input[0, nRow] && input[nColumn, nRow] != 0
  {
    nRow, nSolutionRow := 0, 0;
    var i := input.Length1 - 1;
    while i > 0
      invariant 0 <= i < input.Length1 && forall j | i < j < input.Length1 :: input[nColumn, j] == 0
    {
      if input[nColumn, i] != 0 {
        return i, input[0, i];
      }
      i := i - 1;
    }
  }

  ghost predicate Touched(t: array2<int>, nColumn: nat, columns: seq<nat>, j: nat)
    requires nColumn < t.Length0 && j < t.Length1
    reads t
  {
    columns != [] && (t[nColumn, j] == 1 || exists i :: i in columns && i < t.Length0 && t[i, j] == 1)
  }

  /** The columns with a one in the row, and the rows with a one in any of those columns or in the chosen one. */
  method FindDeleted(input: array2<int>, nColumn: nat, nRow: nat) returns (delColumns: seq<nat>, delRows: seq<nat>)
    requires nColumn < input.Length0 && nRow < input.Length1
    ensures Deletable(input.Length0, delColumns) && Deletable(input.Length1, delRows)
    ensures forall i :: i in delColumns <==> 1 <= i < input.Length0 && input[i, nRow] == 1
    ensures forall j :: j in delRows <==> 1 <= j < input.Length1 && Touched(input, nColumn, delColumns, j)
  {
    delColumns, delRows := [], [];
    var i := input.Length0 - 1;
    while i > 0
      invariant 0 <= i < input.Length0
      invariant Deletable(input.Length0, delColumns) && Deletable(input.Length1, delRows)
      invariant forall k :: k in delColumns <==> i < k < input.Length0 && input[k, nRow] == 1
      invariant forall j :: j in delRows <==> 1 <= j < input.Length1 && Touched(input, nColumn, delColumns, j)
    {
      if 1 == input[i, nRow] {
        ghost var before, columns := delRows, delColumns;
        delColumns := delColumns + [i];
        var j := input.Length1 - 1;
        while j > 0
          invariant 0 <= j < input.Length1 && Deletable(input.Length1, delRows)
          invariant forall k :: k in delRows <==>
            k in before || (j < k < input.Length1 && (input[i, k] == 1 || input[nColumn, k] == 1))
        {
          if (1 == input[i, j] || 1 == input[nColumn, j]) && j !in delRows {
            delRows := delRows + [j];
          }
          j := j - 1;
        }
        assert forall k :: k in delColumns <==> k in columns || k == i;
      }
      i := i - 1;
    }
  }

  /** What is left without the deleted columns and rows, in the same order. */
  method Reduce(input: array2<int>, delColumns: seq<nat>, delRows: seq<nat>) returns (reduced: array2<int>)
    requires Deletable(input.Length0, delColumns) && Deletable(input.Length1, delRows)
    ensures fresh(reduced)
    ensures reduced.Length0 == input.Length0 - |delColumns|
    ensures Reduced(input, reduced, Kept(input.Length0, delColumns), Kept(input.Length1, delRows))
  {
    ghost var columns, rows := Kept(input.Length0, delColumns), Kept(input.Length1, delRows);
    KeptInOrder(input.Length0, delColumns);
    KeptInOrder(input.Length1, delRows);
    reduced := new int[input.Length0 - |delColumns|, input.Length1 - |delRows|];
    var nCrtColumn := 0;
    for i := 0 to input.Length0
      invariant nCrtColumn == |Kept(i, delColumns)| <= |columns|
      invariant forall a, b | 0 <= a < nCrtColumn && 0 <= b < |rows| :: reduced[a, b] == input[columns[a], rows[b]]
    {
      KeptNext(i, input.Length0, delColumns);
      if i !in delColumns {
        CopyColumn(input, i, delRows, rows, reduced, nCrtColumn);
        nCrtColumn := nCrtColumn + 1;
      }
    }
  }

  /** The inner loop, for one column that is kept. */
  method CopyColumn(input: array2<int>, i: nat, delRows: seq<nat>, ghost rows: seq<nat>, reduced: array2<int>,
                    nCrtColumn: nat)
    requires i < input.Length0 && nCrtColumn < reduced.Length0 && reduced.Length1 == |rows| && reduced != input
    requires rows == Kept(input.Length1, delRows) && forall b | 0 <= b < |rows| :: rows[b] < input.Length1
    modifies reduced
    ensures forall b | 0 <= b < reduced.Length1 :: reduced[nCrtColumn, b] == input[i, rows[b]]
    ensures forall a, b | 0 <= a < nCrtColumn && 0 <= b < reduced.Length1 :: reduced[a, b] == old(reduced[a, b])
  {
    var nCrtRow := 0;
    for j := 0 to input.Length1
      invariant nCrtRow == |Kept(j, delRows)| <= |rows|
      invariant forall b | 0 <= b < nCrtRow :: reduced[nCrtColumn, b] == input[i, rows[b]]
      invariant forall a, b | 0 <= a < nCrtColumn && 0 <= b < reduced.Length1 :: reduced[a, b] == old(reduced[a, b])
    {
      KeptNext(j, input.Length1, delRows);
      if j !in delRows {
        reduced[nCrtColumn, nCrtRow] := input[i, j];
        nCrtRow := nCrtRow + 1;
      }
    }
  }

  // ---- Resolve ----

  /** The table with the picked row and its columns taken out, by the indices that are kept. */
  ghost predicate Reduced(t: array2<int>, u: array2<int>, columns: seq<nat>, rows: seq<nat>)
    reads t, u
  {
    && u.Length0 == |columns| && u.Length1 == |rows|
    && (forall a | 0 <= a < |columns| :: columns[a] < t.Length0) && (forall b | 0 <= b < |rows| :: rows[b] < t.Length1)
    && (forall a, b | 0 <= a < b < |columns| :: columns[a] < columns[b])
    && (forall a, b | 0 <= a < b < |rows| :: rows[a] < rows[b])
    && forall a, b | 0 <= a < |columns| && 0 <= b < |rows| :: u[a, b] == t[columns[a], rows[b]]
  }

  lemma ReducedKeeps(t: array2<int>, u: array2<int>, columns: seq<nat>, rows: seq<nat>)
    requires Labelled(t) && AtMostOne(t) && Reduced(t, u, columns, rows)
    requires |columns| > 0 && columns[0] == 0 && |rows| > 0 && rows[0] == 0
    ensures Labelled(u) && AtMostOne(u)
  {
  }

  /** Taking out row `r` and the columns it meets leaves the other rows with their ones and their labels. */
  lemma RowsLeft(t: array2<int>, u: array2<int>, columns: seq<nat>, rows: seq<nat>, r: nat, b: nat)
    requires Labelled(t) && AtMostOne(t) && Reduced(t, u, columns, rows) && 1 <= r < t.Length1
    requires |columns| > 0 && columns[0] == 0 && |rows| > 0 && rows[0] == 0
    requires forall i: nat :: i in columns <==> i < t.Length0 && (i == 0 || t[i, r] != 1)
    requires 1 <= b < |rows| && rows[b] != r
    ensures HasOne(u, b) <==> HasOne(t, rows[b])
    ensures u[0, b] == t[0, rows[b]]
  {
    if HasOne(t, rows[b]) {
      var i :| 1 <= i < t.Length0 && t[i, rows[b]] == 1;
      assert t[i, r] != 1;
      var a :| 0 <= a < |columns| && columns[a] == i;
      assert u[a, b] == 1;
    }
  }

  lemma PicksWithRow(t: array2<int>, u: array2<int>, columns: seq<nat>, rows: seq<nat>, r: nat, picks: seq<int>)
    requires Labelled(t) && AtMostOne(t) && Reduced(t, u, columns, rows) && 1 <= r < t.Length1 && HasOne(t, r)
    requires |columns| > 0 && columns[0] == 0 && |rows| > 0 && rows[0] == 0
    requires forall i: nat :: i in columns <==> i < t.Length0 && (i == 0 || t[i, r] != 1)
    requires forall j: nat :: j in rows <==> j < t.Length1 && j != r
    requires Picks(u, picks)
    ensures Picks(t, [t[0, r]] + picks)
    ensures forall x :: Idle(u, x) ==> Idle(t, x)
  {
    forall b: nat | 1 <= b < |rows|
      ensures rows[b] != r && (HasOne(u, b) <==> HasOne(t, rows[b])) && u[0, b] == t[0, rows[b]] && rows[b] > 0
    {
      assert rows[b] in rows;
      RowsLeft(t, u, columns, rows, r, b);
    }
    forall x
      ensures Needed(t, x) <==> x == t[0, r] || Needed(u, x)
    {
      if Needed(t, x) && x != t[0, r] {
        var j: nat :| 1 <= j < t.Length1 && t[0, j] == x && HasOne(t, j);
        assert j in rows;
        var b :| 0 <= b < |rows| && rows[b] == j;
        assert HasOne(u, b);
      }
    }
    assert !Needed(u, t[0, r]);
    var all := [t[0, r]] + picks;
    assert forall x :: x in all <==> x == t[0, r] || x in picks;
  }

  lemma FirstKept(n: nat, del: seq<nat>)
    requires n > 0 && 0 !in del
    ensures |Kept(n, del)| > 0 && Kept(n, del)[0] == 0
  {
    KeptAre(n, del);
    assert 0 in Kept(n, del);
  }

  lemma NoOnes(t: array2<int>)
    requires Labelled(t) && AtMostOne(t) && t.Length0 > 1
    requires forall i | 1 <= i < t.Length0 :: Ones(t, i, 1) == 0 || Ones(t, i, 1) >= t.Length0
    ensures forall j: nat | 1 <= j < t.Length1 :: !HasOne(t, j)
    ensures Picks(t, [])
  {
    forall i, j | 1 <= i < t.Length0 && 1 <= j < t.Length1
      ensures t[i, j] != 1
    {
      OnesAre(t, i, 1);
    }
  }

  /** The chosen row and its columns, when some column holds a one: no other row loses anything. */
  lemma OneRowDeleted(t: array2<int>, nColumn: nat, nRow: nat, delColumns: seq<nat>, delRows: seq<nat>)
    requires Labelled(t) && AtMostOne(t) && 1 <= nColumn < t.Length0 && 1 <= nRow < t.Length1 && t[nColumn, nRow] == 1
    requires forall i :: i in delColumns <==> 1 <= i < t.Length0 && t[i, nRow] == 1
    requires forall j :: j in delRows <==> 1 <= j < t.Length1 && Touched(t, nColumn, delColumns, j)
    ensures HasOne(t, nRow) && nColumn in delColumns && forall j :: j in delRows <==> j == nRow
  {
  }

  /** Without rows, only the column labelled one can still be taken out. */
  lemma NoRowsLeft(t: array2<int>, u: array2<int>, columns: seq<nat>, rows: seq<nat>)
    requires Labelled(t) && t.Length1 == 1 && Reduced(t, u, columns, rows) && |rows| == 1 && |columns| > 0
      && columns[0] == 0
    requires forall i: nat :: i in columns <==> i < t.Length0 && (i == 0 || t[i, 0] != 1)
    ensures Labelled(u) && AtMostOne(u) && forall a | 1 <= a < u.Length0 :: u[a, 0] != 1
  {
    forall a: nat | 1 <= a < u.Length0
      ensures u[a, 0] != 1
    {
      assert columns[a] in columns && columns[0] < columns[a];
      assert rows[0] < t.Length1;
    }
  }

  /** What one step has chosen: a row with ones, or, when none is left, a row without ones or no row at all. */
  ghost predicate Choice(t: array2<int>, nColumn: nat, nRow: nat, name: int, delColumns: seq<nat>, delRows: seq<nat>)
    requires t.Length0 >= 1
    reads t
  {
    && (forall i :: i in delColumns <==> 1 <= i < t.Length0 && nRow < t.Length1 && t[i, nRow] == 1)
    && if nColumn == 0 then
         && Picks(t, []) && Idle(t, name) && delRows == []
         && (if t.Length1 > 1 then delColumns == [] else nRow == 0 && name == 0)
       else
         && 1 <= nRow < t.Length1 && HasOne(t, nRow) && name == t[0, nRow] && nColumn in delColumns
         && forall j :: j in delRows <==> j == nRow
  }

  lemma SomeElement<T>(s: seq<T>)
    ensures s == [] || exists x :: x in s
  {
    if s != [] { assert s[0] in s; }
  }

  lemma Chosen(t: array2<int>, nColumn: nat, nRow: nat, name: int, delColumns: seq<nat>, delRows: seq<nat>)
    requires Labelled(t) && AtMostOne(t) && t.Length0 > 1 && nColumn < t.Length0 && nRow < t.Length1
    requires nColumn == 0 ==> forall i | 1 <= i < t.Length0 :: Ones(t, i, 1) == 0 || Ones(t, i, 1) >= t.Length0
    requires nColumn > 0 ==> Ones(t, nColumn, 1) > 0
    requires nRow == 0 ==> name == 0 && forall j | 1 <= j < t.Length1 :: t[nColumn, j] == 0
    requires nRow > 0 ==> name == t[0, nRow] && t[nColumn, nRow] != 0
    requires forall i :: i in delColumns <==> 1 <= i < t.Length0 && t[i, nRow] == 1
    requires forall j :: j in delRows <==> 1 <= j < t.Length1 && Touched(t, nColumn, delColumns, j)
    ensures Choice(t, nColumn, nRow, name, delColumns, delRows)
  {
    if nColumn == 0 {
      NoOnes(t);
      if t.Length1 > 1 {
        assert t[0, t.Length1 - 1] > 0;
        assert nRow > 0 && !HasOne(t, nRow);
        SomeElement(delColumns);
      }
      SomeElement(delRows);
    } else {
      OnesAre(t, nColumn, 1);
      OneRowDeleted(t, nColumn, nRow, delColumns, delRows);
    }
  }

  lemma StepReduces(t: array2<int>, u: array2<int>, nColumn: nat, nRow: nat, name: int, delColumns: seq<nat>,
                    delRows: seq<nat>)
    requires Labelled(t) && AtMostOne(t) && Choice(t, nColumn, nRow, name, delColumns, delRows)
    requires Reduced(t, u, Kept(t.Length0, delColumns), Kept(t.Length1, delRows)) && (delColumns != [] || delRows != [])
    ensures Labelled(u) && AtMostOne(u)
    ensures nColumn == 0 ==> u.Length1 == 1 && forall a | 1 <= a < u.Length0 :: u[a, 0] != 1
  {
    FirstKept(t.Length0, delColumns);
    FirstKept(t.Length1, delRows);
    KeptAre(t.Length0, delColumns);
    KeptAre(t.Length1, delRows);
    if nColumn == 0 {
      KeptCount(t.Length1, delRows);
      NoRowsLeft(t, u, Kept(t.Length0, delColumns), Kept(t.Length1, delRows));
    } else {
      ReducedKeeps(t, u, Kept(t.Length0, delColumns), Kept(t.Length1, delRows));
    }
  }

  lemma StepPicks(t: array2<int>, u: array2<int>, nColumn: nat, nRow: nat, name: int, delColumns: seq<nat>,
                  delRows: seq<nat>,
                  picks: seq<int>, rest: seq<int>)
    requires Labelled(t) && AtMostOne(t) && Choice(t, nColumn, nRow, name, delColumns, delRows)
    requires Reduced(t, u, Kept(t.Length0, delColumns), Kept(t.Length1, delRows)) && (delColumns != [] || delRows != [])
    requires u.Length0 >= 1 && Picks(u, picks) && Trailing(u, rest) && (nColumn == 0 ==> u.Length1 == 1 && |rest| <= 1)
    ensures if nColumn == 0 then picks == [] && Picks(t, []) && Trailing(t, [name] + rest)
            else Picks(t, [name] + picks) && Trailing(t, rest)
  {
    if nColumn == 0 {
      forall x
        ensures x !in picks
      {
        assert !Needed(u, x);
      }
      SomeElement(picks);
    } else {
      FirstKept(t.Length0, delColumns);
      FirstKept(t.Length1, delRows);
      KeptAre(t.Length0, delColumns);
      KeptAre(t.Length1, delRows);
      PicksWithRow(t, u, Kept(t.Length0, delColumns), Kept(t.Length1, delRows), nRow, picks);
    }
  }

  /** Without columns to delete there is nothing to delete at all, and no row with ones is left; so it is without
      rows. */
  lemma NothingDeleted(t: array2<int>, nColumn: nat, nRow: nat, name: int, delColumns: seq<nat>, delRows: seq<nat>)
    requires t.Length0 >= 1 && nRow < t.Length1 && Choice(t, nColumn, nRow, name, delColumns, delRows)
    ensures delColumns == [] ==> nColumn == 0 && delRows == [] && Picks(t, []) && Trailing(t, [name])
    ensures t.Length1 == 1 && (forall i | 1 <= i < t.Length0 :: t[i, 0] != 1) ==> delColumns == []
  {
    SomeElement(delColumns);
  }

  /** The name put out first leads the picks, or what trails them. */
  lemma FirstOutput(output: seq<int>, name: int, picks: seq<int>, rest: seq<int>, trails: bool)
    requires if trails then picks == [] && rest != [] && rest[0] == name else picks != [] && picks[0] == name
    ensures trails ==> output + [name] + rest[1..] == output + picks + rest
    ensures !trails ==> output + [name] + picks[1..] + rest == output + picks + rest
  {
    if trails {
      assert [name] + rest[1..] == rest;
    } else {
      assert [name] + picks[1..] == picks;
      assert output + [name] + picks[1..] + rest == output + ([name] + picks[1..]) + rest;
    }
  }

  /** The solver never fails: it outputs the rows that hold ones, each once, and perhaps one or two more without any. */
  method Resolve(input: array2<int>, output: seq<int>)
    returns (ok: bool, out: seq<int>, ghost picks: seq<int>, ghost rest: seq<int>)
    requires Labelled(input) && AtMostOne(input)
    ensures ok && out == output + picks + rest
    ensures Picks(input, picks) && Trailing(input, rest)
    ensures input.Length1 == 1 && (forall i | 1 <= i < input.Length0 :: input[i, 0] != 1) ==> |rest| <= 1
    decreases input.Length0, 1
  {
    picks, rest := [], [];
    if input.Length0 == 1 { return true, output, [], []; }
    var nColumn := FindColumn(input);
    var nRow, nSolutionRow := FindRow(input, nColumn);
    out := output + [nSolutionRow];
    var delColumns, delRows := FindDeleted(input, nColumn, nRow);
    Chosen(input, nColumn, nRow, nSolutionRow, delColumns, delRows);
    NothingDeleted(input, nColumn, nRow, nSolutionRow, delColumns, delRows);
    if |delColumns| == 0 && |delRows| == 0 {
      return true, out, [], [nSolutionRow];
    }
    ok, out, picks, rest := ResolveReduced(input, nColumn, nRow, nSolutionRow, delColumns, delRows, out);
    FirstOutput(output, nSolutionRow, picks, rest, nColumn == 0);
  }

  /** The recursive call, on what is left after a step. */
  method ResolveReduced(input: array2<int>, nColumn: nat, nRow: nat, nSolutionRow: int, delColumns: seq<nat>,
                        delRows: seq<nat>,
                        output: seq<int>)
    returns (ok: bool, out: seq<int>, ghost picks: seq<int>, ghost rest: seq<int>)
    requires Labelled(input) && AtMostOne(input) && Choice(input, nColumn, nRow, nSolutionRow, delColumns, delRows)
    requires Deletable(input.Length0, delColumns) && Deletable(input.Length1, delRows) && delColumns != []
    ensures ok && Picks(input, picks) && Trailing(input, rest)
    ensures if nColumn == 0 then picks == [] && rest != [] && rest[0] == nSolutionRow && out == output + rest[1..]
            else picks != [] && picks[0] == nSolutionRow && out == output + picks[1..] + rest
    decreases input.Length0, 0
  {
    var reduced := Reduce(input, delColumns, delRows);
    StepReduces(input, reduced, nColumn, nRow, nSolutionRow, delColumns, delRows);
    ok, out, picks, rest := Resolve(reduced, output);
    StepPicks(input, reduced, nColumn, nRow, nSolutionRow, delColumns, delRows, picks, rest);
    if nColumn == 0 {
      rest := [nSolutionRow] + rest;
    } else {
      picks := [nSolutionRow] + picks;
    }
  }

  ghost predicate Single(t: array2<int>, i: nat)
    requires i < t.Length0
    reads t
  {
    forall j, k | 1 <= j < k < t.Length1 :: t[i, j] == 0 || t[i, k] == 0
  }

  /** Whether no column holds more than one entry that is not zero. */
  method CheckConflicts(table: array2<int>) returns (bRet: bool)
    ensures bRet <==> forall i | 1 <= i < table.Length0 :: Single(table, i)
  {
    bRet := true;
    var i := 1;
    while i < table.Length0
      invariant 1 <= i && (table.Length0 >= 1 ==> i <= table.Length0)
      invariant bRet <==> forall c | 1 <= c < i && c < table.Length0 :: Single(table, c)
    {
      var nOnes := 0;
      var j := 1;
      while j < table.Length1
        invariant (j == 1 || 1 <= j <= table.Length1) && nOnes == NonZeros(table, i, j)
      {
        if table[i, j] != 0 { nOnes := nOnes + 1; }
        j := j + 1;
      }
      NonZerosAre(table, i, j);
      assert Single(table, i) <==> nOnes <= 1;
      if nOnes > 1 { bRet := false; }
      i := i + 1;
    }
  }
}
