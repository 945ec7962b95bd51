/** The slice of pandas the cleaning code relies on: a DataFrame as column
    labels, row index labels and rows of cells, with boolean-mask selection,
    `duplicated`/`drop_duplicates`, `dropna`, `fillna`, forward and backward
    filling, column dropping and `reset_index`, each with its documented
    meaning. */
module Frames {

  /** One cell: a missing value (`NaN`), a string or a number (a float,
      modelled as an exact real). */
  datatype Cell = Missing | Str(s: string) | Num(r: real)

  /** A DataFrame: column labels, one index label per row, and each row's
      cells by column position. */
  datatype Table = Table(columns: seq<string>, index: seq<int>, rows: seq<seq<Cell>>)

  predicate Distinct<T(==)>(s: seq<T>) {
    forall i, j :: 0 <= i < j < |s| ==> s[i] != s[j]
  }

  /** One label per row and one cell per column in every row. */
  predicate Shaped(t: Table) {
    |t.index| == |t.rows| && forall i :: 0 <= i < |t.rows| ==> |t.rows[i]| == |t.columns|
  }

  /** A table whose column labels are distinct, so that a name picks one
      column. */
  predicate Valid(t: Table) {
    Shaped(t) && Distinct(t.columns)
  }

  /** `pd.DataFrame()`. */
  const Empty: Table := Table([], [], [])

  /** `DataFrame.empty`: no rows or no columns. */
  predicate IsEmpty(t: Table) {
    |t.rows| == 0 || |t.columns| == 0
  }

  /** The labels of a `RangeIndex`: `0, 1, ..., n - 1`. */
  function Range(n: nat): (r: seq<int>)
    ensures |r| == n && forall i :: 0 <= i < n ==> r[i] == i
  {
    seq(n, i => i)
  }

  /** `df.reset_index(drop=True)`: the rows keep their order and are
      relabelled `0..n-1`. */
  function ResetIndex(t: Table): (r: Table)
    requires Shaped(t)
    ensures Shaped(r) && r.columns == t.columns && r.rows == t.rows
    ensures r.index == Range(|t.rows|)
  {
    t.(index := Range(|t.rows|))
  }

  // ---------------------------------------------------------------------------
  // Column lookup

  /** The position of the column called `name`. */
  function Position(names: seq<string>, name: string): (p: nat)
    requires name in names
    ensures p < |names| && names[p] == name
    ensures forall q :: 0 <= q < p ==> names[q] != name
  {
    if names[0] == name then 0 else 1 + Position(names[1..], name)
  }

  /** The positions of the columns called `wanted`, in the order asked for. */
  function Positions(names: seq<string>, wanted: seq<string>): (ps: seq<nat>)
    requires forall k :: 0 <= k < |wanted| ==> wanted[k] in names
    ensures |ps| == |wanted|
    ensures forall k :: 0 <= k < |ps| ==> ps[k] < |names| && names[ps[k]] == wanted[k]
  {
    seq(|wanted|, k requires 0 <= k < |wanted| => Position(names, wanted[k]))
  }

  /** The cells of `row` at positions `ps`: the row's key on those columns. */
  function Project(row: seq<Cell>, ps: seq<nat>): (r: seq<Cell>)
    requires forall k :: 0 <= k < |ps| ==> ps[k] < |row|
    ensures |r| == |ps| && forall k :: 0 <= k < |ps| ==> r[k] == row[ps[k]]
  {
    seq(|ps|, k requires 0 <= k < |ps| => row[ps[k]])
  }

  predicate InRange(ps: seq<nat>, n: nat) {
    forall k :: 0 <= k < |ps| ==> ps[k] < n
  }

  /** Every name is a column label of `t`. */
  predicate HasColumns(t: Table, names: seq<string>) {
    forall k :: 0 <= k < |names| ==> names[k] in t.columns
  }

  // ---------------------------------------------------------------------------
  // Boolean-mask selection

  predicate Increasing(ks: seq<nat>) {
    forall k, l :: 0 <= k < l < |ks| ==> ks[k] < ks[l]
  }

  /** The positions where `mask` holds, in increasing order. */
  function Kept(mask: seq<bool>): (ks: seq<nat>)
    ensures |ks| <= |mask| && InRange(ks, |mask|) && Increasing(ks)
    ensures forall k :: 0 <= k < |ks| ==> mask[ks[k]]
  {
    if mask == [] then []
    else
      var n := |mask| - 1;
      var init := Kept(mask[..n]);
      assert forall k :: 0 <= k < |init| ==> mask[init[k]] == mask[..n][init[k]];
      if mask[n] then init + [n] else init
  }

  /** Every position where the mask holds is kept. */
  lemma {:induction false} KeptComplete(mask: seq<bool>, i: nat) returns (k: nat)
    requires i < |mask| && mask[i]
    ensures k < |Kept(mask)| && Kept(mask)[k] == i
  {
    var n := |mask| - 1;
    if i == n {
      k := |Kept(mask)| - 1;
    } else {
      assert mask[..n][i];
      k := KeptComplete(mask[..n], i);
    }
  }

  /** A position is kept exactly when the mask holds there. */
  lemma KeptIff(mask: seq<bool>, i: nat)
    requires i < |mask|
    ensures mask[i] <==> i in Kept(mask)
  {
    if mask[i] {
      var k := KeptComplete(mask, i);
    }
  }

  function Negate(mask: seq<bool>): (r: seq<bool>)
    ensures |r| == |mask| && forall i :: 0 <= i < |mask| ==> r[i] == !mask[i]
  {
    seq(|mask|, i requires 0 <= i < |mask| => !mask[i])
  }

  /** A mask and its negation keep `|mask|` positions between them. */
  lemma {:induction false} KeptSplit(mask: seq<bool>)
    ensures |Kept(mask)| + |Kept(Negate(mask))| == |mask|
  {
    if mask != [] {
      var n := |mask| - 1;
      KeptSplit(mask[..n]);
      assert Negate(mask)[..n] == Negate(mask[..n]);
    }
  }

  /** The elements of `s` at positions `ks`. */
  function Pick<T>(s: seq<T>, ks: seq<nat>): (r: seq<T>)
    requires InRange(ks, |s|)
    ensures |r| == |ks| && forall k :: 0 <= k < |ks| ==> r[k] == s[ks[k]]
  {
    seq(|ks|, k requires 0 <= k < |ks| => s[ks[k]])
  }

  lemma PickSnoc<T>(s: seq<T>, ks: seq<nat>, j: nat)
    requires InRange(ks, |s|) && j < |s|
    ensures InRange(ks + [j], |s|)
    ensures Pick(s, ks + [j]) == Pick(s, ks) + [s[j]]
  {
  }

  lemma PickPrefix<T>(s: seq<T>, n: nat, ks: seq<nat>)
    requires n <= |s| && InRange(ks, n)
    ensures Pick(s[..n], ks) == Pick(s, ks)
  {
  }

  /** Picking increasing positions of a list without repeats gives a list
      without repeats. */
  lemma PickDistinct<T>(s: seq<T>, ks: seq<nat>)
    requires Distinct(s) && InRange(ks, |s|) && Increasing(ks)
    ensures Distinct(Pick(s, ks))
  {
  }

  /** `df[mask]`: the rows where the mask holds, in order, with their
      labels. */
  function Select(t: Table, mask: seq<bool>): (r: Table)
    requires Shaped(t) && |mask| == |t.rows|
    ensures Shaped(r) && r.columns == t.columns
    ensures r.rows == Pick(t.rows, Kept(mask)) && r.index == Pick(t.index, Kept(mask))
  {
    var ks := Kept(mask);
    Table(t.columns, Pick(t.index, ks), Pick(t.rows, ks))
  }

  // ---------------------------------------------------------------------------
  // Missing values

  /** The number of missing cells of a row. */
  function MissingIn(row: seq<Cell>): (n: nat)
    ensures n <= |row|
    ensures n == 0 <==> forall j :: 0 <= j < |row| ==> row[j] != Missing
  {
    if row == [] then 0
    else MissingIn(row[..|row| - 1]) + (if row[|row| - 1] == Missing then 1 else 0)
  }

  /** `df.isnull().sum().sum()`. */
  function CountMissing(rows: seq<seq<Cell>>): nat {
    if rows == [] then 0
    else CountMissing(rows[..|rows| - 1]) + MissingIn(rows[|rows| - 1])
  }

  /** The count is zero exactly when no cell is missing. */
  lemma {:induction false} CountMissingZero(rows: seq<seq<Cell>>)
    ensures CountMissing(rows) == 0 <==>
      forall i, j :: 0 <= i < |rows| && 0 <= j < |rows[i]| ==> rows[i][j] != Missing
  {
    if rows != [] {
      var init := rows[..|rows| - 1];
      CountMissingZero(init);
      assert forall i :: 0 <= i < |init| ==> init[i] == rows[i];
    }
  }

  /** Selecting rows never adds missing cells. */
  lemma {:induction false} SelectMissing(rows: seq<seq<Cell>>, mask: seq<bool>)
    requires |mask| == |rows|
    ensures CountMissing(Pick(rows, Kept(mask))) <= CountMissing(rows)
  {
    if mask != [] {
      var n := |mask| - 1;
      var init := Kept(mask[..n]);
      SelectMissing(rows[..n], mask[..n]);
      PickPrefix(rows, n, init);
      if mask[n] {
        PickSnoc(rows, init, n);
        assert CountMissing(Pick(rows, init) + [rows[n]])
               == CountMissing(Pick(rows, init)) + MissingIn(rows[n]) by {
          assert (Pick(rows, init) + [rows[n]])[..|init|] == Pick(rows, init);
        }
      }
    }
  }

  /** Cell by cell fewer missing values means fewer missing values. */
  lemma {:induction false} FewerMissingRow(a: seq<Cell>, b: seq<Cell>)
    requires |a| == |b|
    requires forall j :: 0 <= j < |a| && a[j] == Missing ==> b[j] == Missing
    ensures MissingIn(a) <= MissingIn(b)
  {
    if a != [] {
      FewerMissingRow(a[..|a| - 1], b[..|b| - 1]);
    }
  }

  lemma {:induction false} FewerMissing(a: seq<seq<Cell>>, b: seq<seq<Cell>>)
    requires |a| == |b|
    requires forall i :: 0 <= i < |a| ==> |a[i]| == |b[i]|
    requires forall i, j :: 0 <= i < |a| && 0 <= j < |a[i]| && a[i][j] == Missing ==> b[i][j] == Missing
    ensures CountMissing(a) <= CountMissing(b)
  {
    if a != [] {
      var n := |a| - 1;
      FewerMissing(a[..n], b[..n]);
      FewerMissingRow(a[n], b[n]);
    }
  }

  /** `df.dropna(subset=cols)` at positions `ps`: the rows with no missing
      cell in those columns. */
  function Complete(t: Table, ps: seq<nat>): (mask: seq<bool>)
    requires Shaped(t) && InRange(ps, |t.columns|)
    ensures |mask| == |t.rows|
    ensures forall i :: 0 <= i < |t.rows| ==>
      (mask[i] <==> forall k :: 0 <= k < |ps| ==> t.rows[i][ps[k]] != Missing)
  {
    seq(|t.rows|, i requires 0 <= i < |t.rows| =>
      forall k :: 0 <= k < |ps| ==> t.rows[i][ps[k]] != Missing)
  }

  function DropNa(t: Table, ps: seq<nat>): (r: Table)
    requires Shaped(t) && InRange(ps, |t.columns|)
    ensures Shaped(r) && r.columns == t.columns
  {
    Select(t, Complete(t, ps))
  }

  /** After `dropna`, no kept row has a missing cell in the chosen columns, and
      every row that had none is still there. */
  lemma DropNaComplete(t: Table, ps: seq<nat>)
    requires Shaped(t) && InRange(ps, |t.columns|)
    ensures forall i, k :: 0 <= i < |DropNa(t, ps).rows| && 0 <= k < |ps| ==>
              DropNa(t, ps).rows[i][ps[k]] != Missing
    ensures forall i :: 0 <= i < |t.rows| && Complete(t, ps)[i] ==> t.rows[i] in DropNa(t, ps).rows
  {
    var mask := Complete(t, ps);
    var ks := Kept(mask);
    forall i | 0 <= i < |t.rows| && mask[i]
      ensures t.rows[i] in DropNa(t, ps).rows
    {
      var k := KeptComplete(mask, i);
      assert DropNa(t, ps).rows[k] == t.rows[i];
    }
  }

  // ---------------------------------------------------------------------------
  // Columns

  /** The cells of column `p`, top to bottom. */
  function Column(t: Table, p: nat): (col: seq<Cell>)
    requires Shaped(t) && p < |t.columns|
    ensures |col| == |t.rows| && forall i :: 0 <= i < |t.rows| ==> col[i] == t.rows[i][p]
  {
    seq(|t.rows|, i requires 0 <= i < |t.rows| => t.rows[i][p])
  }

  /** The table with column `p` replaced by `col`. */
  function SetColumn(t: Table, p: nat, col: seq<Cell>): (r: Table)
    requires Shaped(t) && p < |t.columns| && |col| == |t.rows|
    ensures Shaped(r) && r.columns == t.columns && r.index == t.index && |r.rows| == |t.rows|
    ensures forall i, q :: 0 <= i < |t.rows| && 0 <= q < |t.columns| ==>
              r.rows[i][q] == if q == p then col[i] else t.rows[i][q]
  {
    t.(rows := seq(|t.rows|, i requires 0 <= i < |t.rows| => t.rows[i][p := col[i]]))
  }

  lemma ColumnOfSet(t: Table, p: nat, col: seq<Cell>)
    requires Shaped(t) && p < |t.columns| && |col| == |t.rows|
    ensures Column(SetColumn(t, p, col), p) == col
  {
  }

  /** Setting a column twice keeps the second value. */
  lemma SetColumnTwice(t: Table, p: nat, a: seq<Cell>, b: seq<Cell>)
    requires Shaped(t) && p < |t.columns| && |a| == |t.rows| && |b| == |t.rows|
    ensures SetColumn(SetColumn(t, p, a), p, b) == SetColumn(t, p, b)
  {
    var u := SetColumn(SetColumn(t, p, a), p, b);
    var v := SetColumn(t, p, b);
    forall i | 0 <= i < |t.rows|
      ensures u.rows[i] == v.rows[i]
    {
    }
  }

  /** Setting a column to its own cells changes nothing. */
  lemma SetColumnSame(t: Table, p: nat)
    requires Shaped(t) && p < |t.columns|
    ensures SetColumn(t, p, Column(t, p)) == t
  {
    var u := SetColumn(t, p, Column(t, p));
    forall i | 0 <= i < |t.rows|
      ensures u.rows[i] == t.rows[i]
    {
    }
  }

  /** The columns at `ps` replaced one after the other by `g` of their
      current cells (a loop `for col in columns: df[col] = g(df[col])`). */
  function MapColumns(t: Table, ps: seq<nat>, g: seq<Cell> -> seq<Cell>): (r: Table)
    requires Shaped(t) && InRange(ps, |t.columns|)
    requires forall col :: |g(col)| == |col|
    ensures Shaped(r) && r.columns == t.columns && r.index == t.index && |r.rows| == |t.rows|
    decreases |ps|
  {
    if ps == [] then t
    else
      var n := |ps| - 1;
      assert InRange(ps[..n], |t.columns|);
      var u := MapColumns(t, ps[..n], g);
      SetColumn(u, ps[n], g(Column(u, ps[n])))
  }

  /** One more column: the loop step `df[col] = g(df[col])`. */
  lemma MapColumnsStep(t: Table, ps: seq<nat>, k: nat, g: seq<Cell> -> seq<Cell>)
    requires Shaped(t) && InRange(ps, |t.columns|) && k < |ps|
    requires forall col :: |g(col)| == |col|
    ensures var u := MapColumns(t, ps[..k], g);
      MapColumns(t, ps[..k + 1], g) == SetColumn(u, ps[k], g(Column(u, ps[k])))
  {
    assert ps[..k + 1][..k] == ps[..k];
  }

  /** Columns not listed keep their cells. */
  lemma {:induction false} MapColumnsOthers(t: Table, ps: seq<nat>, g: seq<Cell> -> seq<Cell>)
    requires Shaped(t) && InRange(ps, |t.columns|)
    requires forall col :: |g(col)| == |col|
    ensures forall i, q :: 0 <= i < |t.rows| && 0 <= q < |t.columns| && q !in ps ==>
      MapColumns(t, ps, g).rows[i][q] == t.rows[i][q]
    decreases |ps|
  {
    if ps != [] {
      var n := |ps| - 1;
      MapColumnsOthers(t, ps[..n], g);
      assert ps == ps[..n] + [ps[n]];
    }
  }

  /** With a `g` that is idempotent, each listed column ends as `g` of its
      original cells, however often it is listed. */
  lemma {:induction false} MapColumnsOnce(t: Table, ps: seq<nat>, g: seq<Cell> -> seq<Cell>)
    requires Shaped(t) && InRange(ps, |t.columns|)
    requires forall col :: |g(col)| == |col|
    requires forall col :: g(g(col)) == g(col)
    ensures forall i, q :: 0 <= i < |t.rows| && 0 <= q < |t.columns| && q in ps ==>
      MapColumns(t, ps, g).rows[i][q] == g(Column(t, q))[i]
    decreases |ps|
  {
    if ps != [] {
      var n := |ps| - 1;
      var p := ps[n];
      var u := MapColumns(t, ps[..n], g);
      MapColumnsOnce(t, ps[..n], g);
      MapColumnsOthers(t, ps[..n], g);
      if p in ps[..n] {
        assert Column(u, p) == g(Column(t, p));
      } else {
        assert Column(u, p) == Column(t, p);
      }
      assert ps == ps[..n] + [p];
    }
  }

  /** Whatever `g` promises of every cell it returns holds in every listed
      column. */
  lemma {:induction false} MapColumnsEstablish(t: Table, ps: seq<nat>, g: seq<Cell> -> seq<Cell>, P: Cell -> bool)
    requires Shaped(t) && InRange(ps, |t.columns|)
    requires forall col :: |g(col)| == |col|
    requires forall col, i :: 0 <= i < |g(col)| ==> P(g(col)[i])
    ensures forall i, q :: 0 <= i < |t.rows| && 0 <= q < |t.columns| && q in ps ==>
      P(MapColumns(t, ps, g).rows[i][q])
    decreases |ps|
  {
    if ps != [] {
      var n := |ps| - 1;
      MapColumnsEstablish(t, ps[..n], g, P);
      assert ps == ps[..n] + [ps[n]];
    }
  }

  /** Whether to keep the survivor of a run of duplicates: `'first'`,
      `'last'` or `False`. */
  datatype Keep = First | Last | NoneKept

  /** Rows `i` and `j` agree on the columns at `ps`. */
  predicate SameKey(t: Table, ps: seq<nat>, i: nat, j: nat)
    requires Shaped(t) && InRange(ps, |t.columns|) && i < |t.rows| && j < |t.rows|
  {
    Project(t.rows[i], ps) == Project(t.rows[j], ps)
  }

  /** `duplicated(subset, keep)` for row `i`: another row with the same key
      comes before it (`'first'`), after it (`'last'`), or anywhere
      (`False`). Equal cells include two missing cells. */
  predicate DupAt(t: Table, ps: seq<nat>, keep: Keep, i: nat)
    requires Shaped(t) && InRange(ps, |t.columns|) && i < |t.rows|
  {
    match keep
    case First => exists j :: 0 <= j < i && SameKey(t, ps, i, j)
    case Last => exists j :: i < j < |t.rows| && SameKey(t, ps, i, j)
    case NoneKept => exists j :: 0 <= j < |t.rows| && j != i && SameKey(t, ps, i, j)
  }

  function Duplicated(t: Table, ps: seq<nat>, keep: Keep): (mask: seq<bool>)
    requires Shaped(t) && InRange(ps, |t.columns|)
    ensures |mask| == |t.rows| && forall i :: 0 <= i < |t.rows| ==> mask[i] == DupAt(t, ps, keep, i)
  {
    seq(|t.rows|, i requires 0 <= i < |t.rows| => DupAt(t, ps, keep, i))
  }

  /** `drop_duplicates(subset, keep)`: an empty table comes back as it is;
      otherwise the rows `duplicated` does not flag. */
  function DropDuplicates(t: Table, ps: seq<nat>, keep: Keep): (r: Table)
    requires Shaped(t) && InRange(ps, |t.columns|)
    ensures Shaped(r) && r.columns == t.columns && |r.rows| <= |t.rows|
    ensures IsEmpty(t) ==> r == t
    ensures !IsEmpty(t) ==> r == Select(t, Negate(Duplicated(t, ps, keep)))
  {
    if IsEmpty(t) then t else Select(t, Negate(Duplicated(t, ps, keep)))
  }

  /** The first row with row `i`'s key. */
  function FirstSame(t: Table, ps: seq<nat>, i: nat): (f: nat)
    requires Shaped(t) && InRange(ps, |t.columns|) && i < |t.rows|
    ensures f <= i && SameKey(t, ps, i, f)
    ensures forall j :: 0 <= j < f ==> !SameKey(t, ps, i, j)
  {
    FirstSameFrom(t, ps, i, 0)
  }

  function FirstSameFrom(t: Table, ps: seq<nat>, i: nat, j: nat): (f: nat)
    requires Shaped(t) && InRange(ps, |t.columns|) && i < |t.rows| && j <= i
    requires forall l :: 0 <= l < j ==> !SameKey(t, ps, i, l)
    ensures j <= f <= i && SameKey(t, ps, i, f)
    ensures forall l :: 0 <= l < f ==> !SameKey(t, ps, i, l)
    decreases i - j
  {
    if SameKey(t, ps, i, j) then j else FirstSameFrom(t, ps, i, j + 1)
  }

  /** `drop_duplicates(keep='first')` keeps one row per key, the first
      one: no two kept rows share a key, and every key of the table is the
      key of the kept row that first had it. A table without columns is
      `empty` and keeps all its rows, whose keys are all equal. */
  lemma DropFirstKeepsFirst(t: Table, ps: seq<nat>)
    requires Shaped(t) && InRange(ps, |t.columns|)
    ensures var r := DropDuplicates(t, ps, First);
      |t.columns| > 0 ==> forall a, b :: 0 <= a < b < |r.rows| ==> Project(r.rows[a], ps) != Project(r.rows[b], ps)
    ensures forall i :: 0 <= i < |t.rows| ==>
      t.rows[FirstSame(t, ps, i)] in DropDuplicates(t, ps, First).rows
  {
    if IsEmpty(t) {
      forall i | 0 <= i < |t.rows|
        ensures t.rows[FirstSame(t, ps, i)] in t.rows
      {
      }
      return;
    }
    var mask := Negate(Duplicated(t, ps, First));
    var ks := Kept(mask);
    var r := DropDuplicates(t, ps, First);
    forall a, b | 0 <= a < b < |r.rows|
      ensures Project(r.rows[a], ps) != Project(r.rows[b], ps)
    {
      assert mask[ks[b]];
      assert !SameKey(t, ps, ks[b], ks[a]);
    }
    forall i | 0 <= i < |t.rows|
      ensures t.rows[FirstSame(t, ps, i)] in r.rows
    {
      var f := FirstSame(t, ps, i);
      forall j | 0 <= j < f
        ensures !SameKey(t, ps, f, j)
      {
        assert !SameKey(t, ps, i, j);
      }
      assert mask[f];
      var k := KeptComplete(mask, f);
      assert r.rows[k] == t.rows[f];
    }
  }

  /** `df.drop(columns=...)`: the columns at positions not in `ps`, in
      order; the rows and labels otherwise untouched. */
  function DropColumns(t: Table, ps: set<nat>): (r: Table)
    requires Shaped(t)
    ensures Shaped(r) && r.index == t.index && |r.rows| == |t.rows|
    ensures r.columns == Pick(t.columns, ColumnsKept(t, ps))
    ensures forall i :: 0 <= i < |t.rows| ==> r.rows[i] == Pick(t.rows[i], ColumnsKept(t, ps))
  {
    var keep := ColumnsKept(t, ps);
    Table(Pick(t.columns, keep), t.index,
          seq(|t.rows|, i requires 0 <= i < |t.rows| => Pick(t.rows[i], keep)))
  }

  /** The positions `DropColumns` keeps: every position not in `ps`, in
      order. */
  function ColumnsKept(t: Table, ps: set<nat>): (keep: seq<nat>)
    ensures InRange(keep, |t.columns|) && Increasing(keep)
    ensures forall p :: 0 <= p < |t.columns| ==> (p in keep <==> p !in ps)
  {
    var mask := seq(|t.columns|, p => p !in ps);
    assert forall p :: 0 <= p < |t.columns| ==> (p in Kept(mask) <==> mask[p]) by {
      forall p | 0 <= p < |t.columns| {
        KeptIff(mask, p);
      }
    }
    Kept(mask)
  }

  /** Dropping columns keeps the other column labels distinct. */
  lemma DropColumnsValid(t: Table, ps: set<nat>)
    requires Valid(t)
    ensures Valid(DropColumns(t, ps))
  {
    PickDistinct(t.columns, ColumnsKept(t, ps));
  }

  // ---------------------------------------------------------------------------
  // Filling missing cells of a column

  /** `Series.fillna(v)`: each missing cell becomes `v`. */
  function FillCol(col: seq<Cell>, v: Cell): (r: seq<Cell>)
    ensures |r| == |col|
    ensures forall i :: 0 <= i < |col| ==> r[i] == if col[i] == Missing then v else col[i]
  {
    seq(|col|, i requires 0 <= i < |col| => if col[i] == Missing then v else col[i])
  }

  /** The nearest present cell at or before `i`, or `Missing` when all of
      `col[..i + 1]` is missing. */
  function LastPresent(col: seq<Cell>, i: nat): (c: Cell)
    requires i < |col|
    ensures c == Missing <==> forall j :: 0 <= j <= i ==> col[j] == Missing
    ensures c != Missing ==> exists j :: 0 <= j <= i && col[j] == c &&
                                         forall l :: j < l <= i ==> col[l] == Missing
    decreases i
  {
    if col[i] != Missing then col[i]
    else if i == 0 then Missing
    else LastPresent(col, i - 1)
  }

  /** The nearest present cell at or after `i`, or `Missing` when all of
      `col[i..]` is missing. */
  function NextPresent(col: seq<Cell>, i: nat): (c: Cell)
    requires i < |col|
    ensures c == Missing <==> forall j :: i <= j < |col| ==> col[j] == Missing
    ensures c != Missing ==> exists j :: i <= j < |col| && col[j] == c &&
                                         forall l :: i <= l < j ==> col[l] == Missing
    decreases |col| - i
  {
    if col[i] != Missing then col[i]
    else if i == |col| - 1 then Missing
    else NextPresent(col, i + 1)
  }

  /** `fillna(method='ffill')`. */
  function FFill(col: seq<Cell>): (r: seq<Cell>)
    ensures |r| == |col|
  {
    seq(|col|, i requires 0 <= i < |col| => LastPresent(col, i))
  }

  /** `fillna(method='bfill')`. */
  function BFill(col: seq<Cell>): (r: seq<Cell>)
    ensures |r| == |col|
  {
    seq(|col|, i requires 0 <= i < |col| => NextPresent(col, i))
  }

  /** The column-wise operations `handle_missing_values` applies to a set of
      columns at once. */
  datatype ColumnOp = FillWith(v: Cell) | Forward | Backward

  function ApplyOp(op: ColumnOp, col: seq<Cell>): (r: seq<Cell>)
    ensures |r| == |col|
    ensures forall i :: 0 <= i < |col| && col[i] != Missing ==> r[i] == col[i]
  {
    match op
    case FillWith(v) => FillCol(col, v)
    case Forward => FFill(col)
    case Backward => BFill(col)
  }

  /** `df[cols] = df[cols].<op>()`: each column at a position in `ps` is
      replaced by the operation's result on it; the other columns, the
      labels and the row count stay. */
  function FillColumns(t: Table, ps: seq<nat>, op: ColumnOp): (r: Table)
    requires Shaped(t) && InRange(ps, |t.columns|)
    ensures Shaped(r) && r.columns == t.columns && r.index == t.index && |r.rows| == |t.rows|
    ensures forall i, q :: 0 <= i < |t.rows| && 0 <= q < |t.columns| ==>
              r.rows[i][q] == if q in ps then ApplyOp(op, Column(t, q))[i] else t.rows[i][q]
  {
    var n := |t.rows|;
    var m := |t.columns|;
    t.(rows := seq(n, i requires 0 <= i < n =>
                 seq(m, q requires 0 <= q < m =>
                   if q in ps then ApplyOp(op, Column(t, q))[i] else t.rows[i][q])))
  }

  /** Filling never turns a present cell into a missing one, so it never adds
      missing cells. */
  lemma FillColumnsFewer(t: Table, ps: seq<nat>, op: ColumnOp)
    requires Shaped(t) && InRange(ps, |t.columns|)
    ensures CountMissing(FillColumns(t, ps, op).rows) <= CountMissing(t.rows)
  {
    var r := FillColumns(t, ps, op);
    forall i, j | 0 <= i < |r.rows| && 0 <= j < |r.rows[i]| && r.rows[i][j] == Missing
      ensures t.rows[i][j] == Missing
    {
      if j in ps {
        assert Column(t, j)[i] == t.rows[i][j];
      }
    }
    FewerMissing(r.rows, t.rows);
  }

  /** Filling with a value leaves no missing cell in the chosen columns. */
  lemma FillWithComplete(t: Table, ps: seq<nat>, v: Cell)
    requires Shaped(t) && InRange(ps, |t.columns|) && v != Missing
    ensures forall i, k :: 0 <= i < |t.rows| && 0 <= k < |ps| ==>
              FillColumns(t, ps, FillWith(v)).rows[i][ps[k]] != Missing
  {
  }
}
