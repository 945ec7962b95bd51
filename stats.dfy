/** The column statistics `handle_missing_values` fills with: pandas'
    `median` of the present numbers and the first value of `mode()`. */
module Stats {
  import opened Frames

  // ---------------------------------------------------------------------------
  // median

  predicate Sorted(s: seq<real>) {
    forall i, j :: 0 <= i < j < |s| ==> s[i] <= s[j]
  }

  function InsertSorted(x: real, s: seq<real>): (r: seq<real>)
    requires Sorted(s)
    ensures Sorted(r) && multiset(r) == multiset(s) + multiset{x}
  {
    if s == [] || x <= s[0] then [x] + s
    else
      var rest := InsertSorted(x, s[1..]);
      assert s == [s[0]] + s[1..];
      InsertAbove(x, s, rest);
      ConsSorted(s[0], rest);
      [s[0]] + rest
  }

  lemma InsertAbove(x: real, s: seq<real>, rest: seq<real>)
    requires s != [] && s[0] < x && Sorted(s)
    requires multiset(rest) == multiset(s[1..]) + multiset{x}
    ensures forall i :: 0 <= i < |rest| ==> s[0] <= rest[i]
  {
    forall i | 0 <= i < |rest|
      ensures s[0] <= rest[i]
    {
      var e := rest[i];
      assert e in multiset(rest);
      if e != x {
        assert e in multiset(s[1..]);
        var j :| 0 <= j < |s[1..]| && s[1..][j] == e;
        assert s[j + 1] == e;
      }
    }
  }

  lemma ConsSorted(a: real, rest: seq<real>)
    requires Sorted(rest) && forall i :: 0 <= i < |rest| ==> a <= rest[i]
    ensures Sorted([a] + rest)
  {
    var r := [a] + rest;
    forall i, j | 0 <= i < j < |r|
      ensures r[i] <= r[j]
    {
      assert r[j] == rest[j - 1];
      if i > 0 {
        assert r[i] == rest[i - 1];
      }
    }
  }

  /** The values in ascending order. */
  function SortReals(s: seq<real>): (r: seq<real>)
    ensures Sorted(r) && multiset(r) == multiset(s) && |r| == |s|
  {
    if s == [] then []
    else
      assert s == [s[0]] + s[1..];
      InsertSorted(s[0], SortReals(s[1..]))
  }

  /** `Series.median()` of the present values: the middle value, or the mean
      of the two middle values when their number is even. */
  function Median(vals: seq<real>): real
    requires vals != []
  {
    var r := SortReals(vals);
    var h := |r| / 2;
    if |r| % 2 == 1 then r[h] else (r[h - 1] + r[h]) / 2.0
  }

  /** Which side of a pivot a count looks at. */
  datatype Side = Below | Above

  predicate Beyond(side: Side, m: real, v: real) {
    match side
    case Below => v < m
    case Above => v > m
  }

  /** How many values lie strictly below (or above) `m`. */
  function CountBeyond(s: seq<real>, side: Side, m: real): (n: nat)
    ensures n <= |s|
  {
    if s == [] then 0
    else CountBeyond(s[..|s| - 1], side, m) + (if Beyond(side, m, s[|s| - 1]) then 1 else 0)
  }

  lemma {:induction false} CountAppend(u: seq<real>, v: seq<real>, side: Side, m: real)
    ensures CountBeyond(u + v, side, m) == CountBeyond(u, side, m) + CountBeyond(v, side, m)
    decreases |v|
  {
    if v == [] {
      assert u + v == u;
    } else {
      var n := |v| - 1;
      assert (u + v)[..|u| + n] == u + v[..n];
      CountAppend(u, v[..n], side, m);
    }
  }

  /** Taking the value at `j` out of a list lowers the count by its own
      share. */
  lemma CountRemove(b: seq<real>, j: nat, side: Side, m: real)
    requires j < |b|
    ensures CountBeyond(b, side, m)
         == CountBeyond(b[..j] + b[j + 1..], side, m) + (if Beyond(side, m, b[j]) then 1 else 0)
  {
    var x := b[j];
    assert b == b[..j] + ([x] + b[j + 1..]);
    CountAppend(b[..j], [x] + b[j + 1..], side, m);
    CountAppend([x], b[j + 1..], side, m);
    CountAppend(b[..j], b[j + 1..], side, m);
    assert [x][..0] == [];
  }

  lemma MultisetRemove(b: seq<real>, j: nat)
    requires j < |b|
    ensures multiset(b[..j] + b[j + 1..]) == multiset(b) - multiset{b[j]}
  {
    assert b == b[..j] + [b[j]] + b[j + 1..];
  }

  /** Counting does not depend on the order of the values. */
  lemma {:induction false} CountPerm(a: seq<real>, b: seq<real>, side: Side, m: real)
    requires multiset(a) == multiset(b)
    ensures CountBeyond(a, side, m) == CountBeyond(b, side, m)
    decreases |a|
  {
    if a != [] {
      var n := |a| - 1;
      var x := a[n];
      assert x in multiset(b) by {
        assert x in multiset(a);
      }
      var j :| 0 <= j < |b| && b[j] == x;
      MultisetRemove(a, n);
      MultisetRemove(b, j);
      assert a[..n] + a[n + 1..] == a[..n];
      CountPerm(a[..n], b[..j] + b[j + 1..], side, m);
      CountRemove(b, j, side, m);
    }
  }

  /** When no value from position `k` on lies beyond `m`, at most `k` do. */
  lemma {:induction false} CountPrefixBound(s: seq<real>, side: Side, m: real, k: nat)
    requires k <= |s|
    requires forall i :: k <= i < |s| ==> !Beyond(side, m, s[i])
    ensures CountBeyond(s, side, m) <= k
  {
    if |s| > k {
      CountPrefixBound(s[..|s| - 1], side, m, k);
    }
  }

  /** When no value before position `k` lies beyond `m`, at most `|s| - k`
      do. */
  lemma {:induction false} CountSuffixBound(s: seq<real>, side: Side, m: real, k: nat)
    requires k <= |s|
    requires forall i :: 0 <= i < k ==> !Beyond(side, m, s[i])
    ensures CountBeyond(s, side, m) <= |s| - k
  {
    if |s| == k {
      CountPrefixBound(s, side, m, 0);
    } else {
      CountSuffixBound(s[..|s| - 1], side, m, k);
    }
  }

  /** In a sorted list, nothing from a value at least `m` on lies below `m`. */
  lemma SortedBelow(r: seq<real>, m: real, k: nat)
    requires Sorted(r) && k < |r| && m <= r[k]
    ensures CountBeyond(r, Below, m) <= k
  {
    CountPrefixBound(r, Below, m, k);
  }

  /** In a sorted list, nothing up to a value at most `m` lies above `m`. */
  lemma SortedAbove(r: seq<real>, m: real, k: nat)
    requires Sorted(r) && k < |r| && r[k] <= m
    ensures CountBeyond(r, Above, m) <= |r| - (k + 1)
  {
    CountSuffixBound(r, Above, m, k + 1);
  }

  /** The median splits the values in half: at most half of them lie below
      it and at most half above it. */
  lemma MedianSplits(vals: seq<real>)
    requires vals != []
    ensures 2 * CountBeyond(vals, Below, Median(vals)) <= |vals|
    ensures 2 * CountBeyond(vals, Above, Median(vals)) <= |vals|
  {
    var m := Median(vals);
    var r := SortReals(vals);
    var h := |r| / 2;
    CountPerm(vals, r, Below, m);
    CountPerm(vals, r, Above, m);
    if |r| % 2 == 1 {
      SortedBelow(r, m, h);
      SortedAbove(r, m, h);
    } else {
      SortedBelow(r, m, h);
      SortedAbove(r, m, h - 1);
    }
  }

  // ---------------------------------------------------------------------------
  // mode

  /** Python's string order: lexicographic on code points, a proper prefix
      first. */
  predicate StrLess(a: string, b: string) {
    if a == [] then b != []
    else if b == [] then false
    else if a[0] != b[0] then a[0] < b[0]
    else StrLess(a[1..], b[1..])
  }

  lemma {:induction false} StrLessIrreflexive(a: string)
    ensures !StrLess(a, a)
  {
    if a != [] {
      StrLessIrreflexive(a[1..]);
    }
  }

  lemma {:induction false} StrLessTransitive(a: string, b: string, c: string)
    requires StrLess(a, b) && StrLess(b, c)
    ensures StrLess(a, c)
  {
    if a != [] && b != [] && c != [] && a[0] == b[0] && b[0] == c[0] {
      StrLessTransitive(a[1..], b[1..], c[1..]);
    }
  }

  lemma {:induction false} StrLessTotal(a: string, b: string)
    requires a != b
    ensures StrLess(a, b) || StrLess(b, a)
  {
    if a != [] && b != [] && a[0] == b[0] {
      assert a == [a[0]] + a[1..] && b == [b[0]] + b[1..];
      StrLessTotal(a[1..], b[1..]);
    }
  }

  function Rank(c: Cell): nat {
    match c
    case Missing => 0
    case Num(_) => 1
    case Str(_) => 2
  }

  /** The order in which `mode()` lists its values: numbers by value,
      strings as Python compares them, numbers before strings. */
  predicate CellLess(a: Cell, b: Cell) {
    if Rank(a) != Rank(b) then Rank(a) < Rank(b)
    else match (a, b)
      case (Num(x), Num(y)) => x < y
      case (Str(x), Str(y)) => StrLess(x, y)
      case _ => false
  }

  lemma CellLessIrreflexive(a: Cell)
    ensures !CellLess(a, a)
  {
    if a.Str? {
      StrLessIrreflexive(a.s);
    }
  }

  lemma CellLessTransitive(a: Cell, b: Cell, c: Cell)
    requires CellLess(a, b) && CellLess(b, c)
    ensures CellLess(a, c)
  {
    if a.Str? && b.Str? && c.Str? {
      StrLessTransitive(a.s, b.s, c.s);
    }
  }

  lemma CellLessTotal(a: Cell, b: Cell)
    requires a != b
    ensures CellLess(a, b) || CellLess(b, a)
  {
    if a.Str? && b.Str? {
      StrLessTotal(a.s, b.s);
    }
  }

  /** How often `v` occurs among `vals`. */
  function Occurrences(vals: seq<Cell>, v: Cell): nat {
    multiset(vals)[v]
  }

  /** `v` is a mode of `vals` listed no later than `w`: it occurs more
      often, or as often and sorts first. */
  predicate Before(vals: seq<Cell>, v: Cell, w: Cell) {
    Occurrences(vals, v) > Occurrences(vals, w)
    || (Occurrences(vals, v) == Occurrences(vals, w) && CellLess(v, w))
  }

  /** `m` is the first entry of `mode()`: no value occurs more often, and
      every other value that occurs as often sorts after it. */
  predicate FirstMode(vals: seq<Cell>, m: Cell) {
    forall i :: 0 <= i < |vals| ==>
      Occurrences(vals, vals[i]) <= Occurrences(vals, m)
      && (Occurrences(vals, vals[i]) == Occurrences(vals, m) ==> vals[i] == m || CellLess(m, vals[i]))
  }

  /** The best of the first `n` values by `Before`. */
  function BestOf(vals: seq<Cell>, n: nat): (m: Cell)
    requires 0 < n <= |vals|
    ensures m in vals[..n]
    ensures forall i :: 0 <= i < n ==>
      Occurrences(vals, vals[i]) <= Occurrences(vals, m)
      && (Occurrences(vals, vals[i]) == Occurrences(vals, m) ==> vals[i] == m || CellLess(m, vals[i]))
  {
    if n == 1 then vals[0]
    else
      var b := BestOf(vals, n - 1);
      var x := vals[n - 1];
      BestStep(vals, n, b, x);
      if Before(vals, x, b) then x else b
  }

  lemma BestStep(vals: seq<Cell>, n: nat, b: Cell, x: Cell)
    requires 1 < n <= |vals| && x == vals[n - 1] && b in vals[..n - 1]
    requires forall i :: 0 <= i < n - 1 ==>
      Occurrences(vals, vals[i]) <= Occurrences(vals, b)
      && (Occurrences(vals, vals[i]) == Occurrences(vals, b) ==> vals[i] == b || CellLess(b, vals[i]))
    ensures var m := if Before(vals, x, b) then x else b;
      m in vals[..n] &&
      forall i :: 0 <= i < n ==>
        Occurrences(vals, vals[i]) <= Occurrences(vals, m)
        && (Occurrences(vals, vals[i]) == Occurrences(vals, m) ==> vals[i] == m || CellLess(m, vals[i]))
  {
    assert vals[..n] == vals[..n - 1] + [x];
    if Before(vals, x, b) {
      forall i | 0 <= i < n - 1 && Occurrences(vals, vals[i]) == Occurrences(vals, x) && vals[i] != x
        ensures CellLess(x, vals[i])
      {
        if vals[i] != b {
          CellLessTransitive(x, b, vals[i]);
        }
      }
    } else if x != b && Occurrences(vals, x) == Occurrences(vals, b) {
      CellLessTotal(x, b);
    }
  }

  /** `Series.mode()[0]` over the present values. */
  function Mode(vals: seq<Cell>): (m: Cell)
    requires vals != []
    ensures m in vals && FirstMode(vals, m)
  {
    BestOf(vals, |vals|)
  }

  /** There is one first mode, so `Mode` is the only value `FirstMode`
      allows. */
  lemma FirstModeUnique(vals: seq<Cell>, m: Cell, m': Cell)
    requires m in vals && m' in vals && FirstMode(vals, m) && FirstMode(vals, m')
    ensures m == m'
  {
    var i :| 0 <= i < |vals| && vals[i] == m;
    var j :| 0 <= j < |vals| && vals[j] == m';
    if m != m' {
      assert CellLess(m, m') && CellLess(m', m);
      CellLessTransitive(m, m', m);
      CellLessIrreflexive(m);
    }
  }

  // ---------------------------------------------------------------------------
  // The fill value of the `auto` strategy

  /** The present cells of a column, in order. */
  function Present(col: seq<Cell>): (vals: seq<Cell>)
    ensures forall v :: v in vals <==> v in col && v != Missing
  {
    if col == [] then []
    else if col[0] == Missing then Present(col[1..])
    else [col[0]] + Present(col[1..])
  }

  /** The numbers of a numeric column, in order. */
  function Numbers(col: seq<Cell>): (xs: seq<real>)
    ensures forall x :: x in xs <==> Num(x) in col
  {
    if col == [] then []
    else if col[0].Num? then [col[0].r] + Numbers(col[1..])
    else Numbers(col[1..])
  }

  /** A column of dtype `int64` or `float64`: numbers and missing values
      only. */
  predicate IsNumeric(col: seq<Cell>) {
    forall i :: 0 <= i < |col| ==> col[i] == Missing || col[i].Num?
  }

  /** What `auto` fills a column with: the median of a numeric column, the
      first mode of any other, and nothing (`Missing`, which `fillna`
      ignores) when the column has no present value. */
  function AutoValue(col: seq<Cell>): (v: Cell)
    ensures v == Missing <==> forall i :: 0 <= i < |col| ==> col[i] == Missing
  {
    if IsNumeric(col) then
      var xs := Numbers(col);
      if xs == [] then Missing
      else
        var i :| 0 <= i < |col| && col[i] == Num(xs[0]);
        Num(Median(xs))
    else
      var vals := Present(col);
      var i :| 0 <= i < |col| && !(col[i] == Missing || col[i].Num?);
      assert col[i] in vals;
      Mode(vals)
  }

  /** The branches of `auto`: a numeric column with numbers gets their
      median, one without numbers nothing, any other column its first
      mode, which occurs in it. */
  lemma AutoValueCases(col: seq<Cell>)
    ensures IsNumeric(col) && Numbers(col) != [] ==> AutoValue(col) == Num(Median(Numbers(col)))
    ensures IsNumeric(col) && Numbers(col) == [] ==> AutoValue(col) == Missing
    ensures !IsNumeric(col) ==>
      (Present(col) != [] && AutoValue(col) == Mode(Present(col))
       && AutoValue(col) in col && FirstMode(Present(col), AutoValue(col)))
  {
  }
}
