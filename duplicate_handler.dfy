/** `DuplicateHandler`: rows that agree on Tool Name, Company and Website
    form a duplicate group; in each group the row with the best score
    survives and the others are removed. Nothing is mutated: every operation
    returns new tables. */
module DuplicateHandler {
  import opened Frames

  const ToolName := "Tool Name"
  const Company := "Company"
  const Website := "Website"
  const ReviewCount := "review_count"
  const AverageRating := "average_rating"
  const LaunchYear := "Launch Year"

  /** `duplicate_keys`. */
  const KeyNames: seq<string> := [ToolName, Company, Website]

  /** The numeric columns added to a row's score. */
  const ScoreNames: seq<string> := [ReviewCount, AverageRating, LaunchYear]

  /** The table the handler is built on: labelled rows with distinct column
      names that include the key columns. */
  predicate Ready(t: Table) {
    Valid(t) && HasColumns(t, KeyNames)
  }

  /** The positions of the key columns. */
  function KeyPs(t: Table): (ps: seq<nat>)
    requires Ready(t)
    ensures |ps| == 3 && InRange(ps, |t.columns|)
  {
    Positions(t.columns, KeyNames)
  }

  /** Row `i` and row `j` agree on all three keys; two missing cells agree. */
  predicate Same(t: Table, i: nat, j: nat)
    requires Ready(t) && i < |t.rows| && j < |t.rows|
  {
    SameKey(t, KeyPs(t), i, j)
  }

  /** `duplicated(subset=duplicate_keys, keep=False)`. */
  function DupMask(t: Table): (mask: seq<bool>)
    requires Ready(t)
    ensures |mask| == |t.rows|
    ensures forall i :: 0 <= i < |t.rows| ==>
      (mask[i] <==> exists j :: 0 <= j < |t.rows| && j != i && Same(t, i, j))
  {
    DupAtIff(t);
    Duplicated(t, KeyPs(t), NoneKept)
  }

  lemma DupAtIff(t: Table)
    requires Ready(t)
    ensures forall i :: 0 <= i < |t.rows| ==>
      (DupAt(t, KeyPs(t), NoneKept, i) <==> exists j :: 0 <= j < |t.rows| && j != i && Same(t, i, j))
  {
    forall i | 0 <= i < |t.rows|
      ensures DupAt(t, KeyPs(t), NoneKept, i) ==> exists j :: 0 <= j < |t.rows| && j != i && Same(t, i, j)
    {
      if DupAt(t, KeyPs(t), NoneKept, i) {
        var j :| 0 <= j < |t.rows| && j != i && SameKey(t, KeyPs(t), i, j);
        assert Same(t, i, j);
      }
    }
  }

  /** `find_duplicates`: every row that shares its key with another row, in
      table order and with its label. */
  function FindDuplicates(t: Table): (r: Table)
    requires Ready(t)
    ensures Shaped(r) && r.columns == t.columns
    ensures r.rows == Pick(t.rows, Kept(DupMask(t))) && r.index == Pick(t.index, Kept(DupMask(t)))
  {
    Select(t, DupMask(t))
  }

  /** A row is among the duplicates exactly when another row has its key. */
  lemma FindDuplicatesIff(t: Table, i: nat)
    requires Ready(t) && i < |t.rows|
    ensures i in Kept(DupMask(t)) <==> exists j :: 0 <= j < |t.rows| && j != i && Same(t, i, j)
  {
    KeptIff(DupMask(t), i);
  }

  /** Missing keys match missing keys: two different rows whose three key
      cells are all missing are duplicates of each other. */
  lemma MissingKeysMatch(t: Table, i: nat, j: nat)
    requires Ready(t) && i < |t.rows| && j < |t.rows| && i != j
    requires forall k :: 0 <= k < 3 ==> t.rows[i][KeyPs(t)[k]] == Missing && t.rows[j][KeyPs(t)[k]] == Missing
    ensures Same(t, i, j) && DupMask(t)[i] && DupMask(t)[j]
  {
    var ps := KeyPs(t);
    assert Project(t.rows[i], ps) == Project(t.rows[j], ps);
    assert Same(t, i, j) && Same(t, j, i);
  }

  // ---------------------------------------------------------------------------
  // Groups

  /** The positions of the rows that share row `i`'s key, in table order:
      the group `groupby(duplicate_keys, dropna=False)` puts row `i` in. */
  function Group(t: Table, i: nat): (g: seq<nat>)
    requires Ready(t) && i < |t.rows|
    ensures InRange(g, |t.rows|) && Increasing(g) && g != []
    ensures forall k :: 0 <= k < |g| ==> Same(t, i, g[k])
  {
    var mask := GroupMask(t, i);
    KeptIff(mask, i);
    Kept(mask)
  }

  function GroupMask(t: Table, i: nat): (mask: seq<bool>)
    requires Ready(t) && i < |t.rows|
    ensures |mask| == |t.rows| && forall j :: 0 <= j < |t.rows| ==> mask[j] == Same(t, i, j)
  {
    seq(|t.rows|, j requires 0 <= j < |t.rows| => Same(t, i, j))
  }

  /** Every row with the key is in the group. */
  lemma GroupComplete(t: Table, i: nat, j: nat)
    requires Ready(t) && i < |t.rows| && j < |t.rows| && Same(t, i, j)
    ensures j in Group(t, i)
  {
    KeptIff(GroupMask(t, i), j);
  }

  /** Rows with the same key have the same group. */
  lemma GroupShared(t: Table, i: nat, j: nat)
    requires Ready(t) && i < |t.rows| && j < |t.rows| && Same(t, i, j)
    ensures Group(t, i) == Group(t, j)
  {
    assert GroupMask(t, i) == GroupMask(t, j);
  }

  /** The group of a duplicate holds only duplicates: it is the same group
      `groupby` forms on `find_duplicates()`. */
  lemma GroupAllDuplicated(t: Table, i: nat)
    requires Ready(t) && i < |t.rows| && DupMask(t)[i]
    ensures forall k :: 0 <= k < |Group(t, i)| ==> DupMask(t)[Group(t, i)[k]]
  {
    var g := Group(t, i);
    var j :| 0 <= j < |t.rows| && j != i && Same(t, i, j);
    forall k | 0 <= k < |g|
      ensures DupMask(t)[g[k]]
    {
      if g[k] == i {
        assert Same(t, i, j);
      } else {
        assert Same(t, g[k], i);
      }
    }
  }

  // ---------------------------------------------------------------------------
  // rank_records

  /** `fillna(0)` on a numeric cell. */
  function NumOr0(c: Cell): real {
    if c.Num? then c.r else 0.0
  }

  /** `notna().sum(axis=1)`: the row's present cells. */
  function Completeness(row: seq<Cell>): (n: nat)
    ensures n <= |row|
    ensures n == |row| <==> forall j :: 0 <= j < |row| ==> row[j] != Missing
  {
    |row| - MissingIn(row)
  }

  /** The value of the numeric column `name` in row `j`, missing counted
      as 0. */
  function Field(t: Table, j: nat, name: string): real
    requires Shaped(t) && j < |t.rows|
  {
    if name in t.columns then NumOr0(t.rows[j][Position(t.columns, name)]) else 0.0
  }

  /** The score of row `j` at position `p` of its group: completeness plus
      reviews, rating and launch year, minus the position. */
  function Score(t: Table, j: nat, p: nat): real
    requires Shaped(t) && j < |t.rows|
  {
    Completeness(t.rows[j]) as real + Field(t, j, ReviewCount) + Field(t, j, AverageRating)
      + Field(t, j, LaunchYear) - p as real
  }

  /** `idxmax`: the first position of the greatest value. */
  function ArgMax(xs: seq<real>): (k: nat)
    requires xs != []
    ensures k < |xs|
    ensures forall j :: 0 <= j < |xs| ==> xs[j] <= xs[k]
    ensures forall j :: 0 <= j < k ==> xs[j] < xs[k]
  {
    if |xs| == 1 then 0
    else
      var k := ArgMax(xs[..|xs| - 1]);
      assert forall j :: 0 <= j < |xs| - 1 ==> xs[..|xs| - 1][j] == xs[j];
      if xs[|xs| - 1] > xs[k] then |xs| - 1 else k
  }

  /** The scores of a group, position by position. */
  function Scores(t: Table, g: seq<nat>): (xs: seq<real>)
    requires Shaped(t) && InRange(g, |t.rows|)
    ensures |xs| == |g| && forall p :: 0 <= p < |g| ==> xs[p] == Score(t, g[p], p)
  {
    seq(|g|, p requires 0 <= p < |g| => Score(t, g[p], p))
  }

  /** `rank_records` on row `i`'s group, as a position in the group: no
      member scores higher, and every earlier member scores strictly
      lower. */
  function Best(t: Table, i: nat): (p: nat)
    requires Ready(t) && i < |t.rows|
    ensures p < |Group(t, i)|
    ensures forall q :: 0 <= q < |Group(t, i)| ==>
      Score(t, Group(t, i)[q], q) <= Score(t, Group(t, i)[p], p)
    ensures forall q :: 0 <= q < p ==> Score(t, Group(t, i)[q], q) < Score(t, Group(t, i)[p], p)
  {
    ArgMax(Scores(t, Group(t, i)))
  }

  /** The row kept for row `i`'s group. */
  function Keeper(t: Table, i: nat): (j: nat)
    requires Ready(t) && i < |t.rows|
    ensures j < |t.rows| && Same(t, i, j)
  {
    Group(t, i)[Best(t, i)]
  }

  /** The keeper depends only on the key. */
  lemma KeeperShared(t: Table, i: nat, j: nat)
    requires Ready(t) && i < |t.rows| && j < |t.rows| && Same(t, i, j)
    ensures Keeper(t, i) == Keeper(t, j)
  {
    GroupShared(t, i, j);
  }

  // ---------------------------------------------------------------------------
  // remove_duplicates

  /** The index labels of the duplicates. */
  function DupeLabels(t: Table): set<int>
    requires Ready(t)
  {
    set i | 0 <= i < |t.rows| && DupMask(t)[i] :: t.index[i]
  }

  /** `keep_indices`: the labels of the rows `rank_records` picks. */
  function KeepLabels(t: Table): set<int>
    requires Ready(t)
  {
    set i | 0 <= i < |t.rows| && DupMask(t)[i] :: t.index[Keeper(t, i)]
  }

  /** The rows whose label is a duplicate's but not a keeper's. */
  function RemovedMask(t: Table): (mask: seq<bool>)
    requires Ready(t)
    ensures |mask| == |t.rows|
  {
    seq(|t.rows|, i requires 0 <= i < |t.rows| =>
      t.index[i] in DupeLabels(t) && t.index[i] !in KeepLabels(t))
  }

  /** The rows whose label is not a duplicate's, or is a keeper's. */
  function CleanMask(t: Table): (mask: seq<bool>)
    requires Ready(t)
    ensures mask == Negate(RemovedMask(t))
  {
    seq(|t.rows|, i requires 0 <= i < |t.rows| =>
      t.index[i] !in DupeLabels(t) || t.index[i] in KeepLabels(t))
  }

  /** `rank_records` adds up numeric cells: when there are duplicates, the
      score columns exist and hold numbers or missing values in every
      duplicate row. */
  predicate Scorable(t: Table)
    requires Ready(t)
  {
    true in DupMask(t) ==>
      HasColumns(t, ScoreNames) &&
      forall i, k :: 0 <= i < |t.rows| && DupMask(t)[i] && 0 <= k < 3 ==>
        var c := t.rows[i][Position(t.columns, ScoreNames[k])];
        c == Missing || c.Num?
  }

  /** The `(cleaned, removed)` pair. */
  datatype Split = Split(cleaned: Table, removed: Table)

  /** `remove_duplicates`: with no duplicates, the table itself and an empty
      table; otherwise the surviving rows relabelled `0..n-1`, and the
      removed rows with their labels. Between them they hold every row
      once. */
  function RemoveDuplicates(t: Table): (r: Split)
    requires Ready(t) && Scorable(t)
    ensures true !in DupMask(t) ==> r == Split(t, Empty)
    ensures true in DupMask(t) ==>
      r.cleaned.columns == t.columns && r.removed.columns == t.columns
      && r.cleaned.rows == Pick(t.rows, Kept(CleanMask(t))) && r.cleaned.index == Range(|r.cleaned.rows|)
      && r.removed.rows == Pick(t.rows, Kept(RemovedMask(t)))
      && r.removed.index == Pick(t.index, Kept(RemovedMask(t)))
    ensures |r.cleaned.rows| + |r.removed.rows| == |t.rows|
  {
    if true !in DupMask(t) then Split(t, Empty)
    else
      KeptSplit(RemovedMask(t));
      Split(ResetIndex(Select(t, CleanMask(t))), Select(t, RemovedMask(t)))
  }

  // ---------------------------------------------------------------------------
  // Properties, for tables whose rows carry distinct labels (as read_csv's
  // RangeIndex does)

  /** Under distinct labels, a row's label is a duplicate's exactly when the
      row is a duplicate. */
  lemma DupeLabelAt(t: Table, j: nat)
    requires Ready(t) && Distinct(t.index) && j < |t.rows|
    ensures t.index[j] in DupeLabels(t) <==> DupMask(t)[j]
  {
    if t.index[j] in DupeLabels(t) {
      var i :| 0 <= i < |t.rows| && DupMask(t)[i] && t.index[i] == t.index[j];
      assert i == j;
    }
  }

  /** Under distinct labels, a duplicate's label is a keeper's exactly when
      the row is the keeper of its own group. */
  lemma KeepLabelAt(t: Table, j: nat)
    requires Ready(t) && Distinct(t.index) && j < |t.rows| && DupMask(t)[j]
    ensures t.index[j] in KeepLabels(t) <==> Keeper(t, j) == j
  {
    if t.index[j] in KeepLabels(t) {
      var i :| 0 <= i < |t.rows| && DupMask(t)[i] && t.index[Keeper(t, i)] == t.index[j];
      assert Keeper(t, i) == j;
      assert Same(t, j, i);
      KeeperShared(t, j, i);
    }
  }

  /** Which rows survive: those that are no duplicate and the keepers. */
  lemma CleanAt(t: Table, j: nat)
    requires Ready(t) && Distinct(t.index) && j < |t.rows|
    ensures CleanMask(t)[j] <==> !DupMask(t)[j] || Keeper(t, j) == j
  {
    DupeLabelAt(t, j);
    if DupMask(t)[j] {
      KeepLabelAt(t, j);
    }
  }

  /** Exactly one row of each duplicate group survives: its keeper. */
  lemma OneSurvivorPerGroup(t: Table, i: nat)
    requires Ready(t) && Distinct(t.index) && i < |t.rows| && DupMask(t)[i]
    ensures CleanMask(t)[Keeper(t, i)]
    ensures forall j :: 0 <= j < |t.rows| && Same(t, i, j) && CleanMask(t)[j] ==> j == Keeper(t, i)
  {
    var w := Keeper(t, i);
    KeeperShared(t, i, w);
    assert DupMask(t)[w] by {
      GroupAllDuplicated(t, i);
    }
    CleanAt(t, w);
    forall j | 0 <= j < |t.rows| && Same(t, i, j) && CleanMask(t)[j]
      ensures j == w
    {
      CleanAt(t, j);
      KeeperShared(t, i, j);
      if !DupMask(t)[j] && j != i {
        assert Same(t, j, i);
      }
    }
  }

  /** Every row that is no duplicate survives. */
  lemma UniqueRowsSurvive(t: Table, j: nat)
    requires Ready(t) && Distinct(t.index) && j < |t.rows| && !DupMask(t)[j]
    ensures CleanMask(t)[j] && !RemovedMask(t)[j]
  {
    CleanAt(t, j);
  }

  /** No two surviving rows share a key. */
  lemma SurvivorsDistinct(t: Table, a: nat, b: nat)
    requires Ready(t) && Distinct(t.index) && a < b < |t.rows|
    requires CleanMask(t)[a] && CleanMask(t)[b]
    ensures !Same(t, a, b)
  {
    if Same(t, a, b) {
      assert DupMask(t)[a];
      assert Same(t, b, a);
      assert DupMask(t)[b];
      CleanAt(t, a);
      CleanAt(t, b);
      KeeperShared(t, a, b);
    }
  }

  /** The cleaned table has no duplicates. */
  lemma CleanedHasNoDuplicates(t: Table)
    requires Ready(t) && Distinct(t.index) && Scorable(t)
    ensures var c := RemoveDuplicates(t).cleaned;
      Ready(c) && true !in DupMask(c)
  {
    if true in DupMask(t) {
      var c := RemoveDuplicates(t).cleaned;
      var ks := Kept(CleanMask(t));
      assert KeyPs(c) == KeyPs(t);
      forall a | 0 <= a < |c.rows|
        ensures !DupMask(c)[a]
      {
        forall b | 0 <= b < |c.rows| && b != a
          ensures !Same(c, a, b)
        {
          if a < b {
            SurvivorsDistinct(t, ks[a], ks[b]);
          } else {
            SurvivorsDistinct(t, ks[b], ks[a]);
          }
        }
      }
    }
  }

  /** A second `remove_duplicates` on the cleaned table finds nothing: it
      returns that table and an empty `removed`. */
  lemma RemoveDuplicatesIdempotent(t: Table)
    requires Ready(t) && Distinct(t.index) && Scorable(t)
    ensures var c := RemoveDuplicates(t).cleaned;
      Ready(c) && Scorable(c) && RemoveDuplicates(c) == Split(c, Empty)
  {
    CleanedHasNoDuplicates(t);
  }
}
