/** `DataCleaningPipeline`: an object holding one table (`df`, absent until
    loaded) and a report of counters. Each cleaning step replaces the table
    and records what it did; with no table loaded a step does nothing. */
module CleaningPipeline {
  import opened Wrappers
  import opened Text
  import opened Frames
  import opened Stats

  // ---------------------------------------------------------------------------
  // snake_case column names

  /** The alphabet of a snake_case name: `[a-z0-9_]`. */
  predicate SnakeChar(c: char) { IsLower(c) || IsDigit(c) || c == '_' }

  predicate NoDoubleUnderscore(s: string) {
    forall i :: 0 <= i < |s| - 1 ==> !(s[i] == '_' && s[i + 1] == '_')
  }

  /** Only `[a-z0-9_]` and no `__`: a squeezed name before its ends are
      stripped. */
  predicate SnakeBody(s: string) {
    (forall i :: 0 <= i < |s| ==> SnakeChar(s[i])) && NoDoubleUnderscore(s)
  }

  /** A snake_case name: only `[a-z0-9_]`, no `__`, and no `_` at either
      end. */
  predicate IsSnake(s: string) {
    (forall i :: 0 <= i < |s| ==> SnakeChar(s[i]))
    && NoDoubleUnderscore(s)
    && (s != [] ==> s[0] != '_' && s[|s| - 1] != '_')
  }

  /** `re.sub(r'(?<!^)(?=[A-Z])', '_', s)`: an underscore before every
      upper-case letter except one at the very start. */
  function SplitCamel(s: string): (r: string)
    ensures (forall i :: 0 < i < |s| ==> !IsUpper(s[i])) ==> r == s
    ensures forall i :: 0 <= i < |r| ==> r[i] in s || r[i] == '_'
    ensures |r| >= |s| && (s != [] ==> r[0] == s[0])
    // every upper-case letter after the first position follows an underscore
    ensures forall j :: 0 < j < |r| && IsUpper(r[j]) ==> r[j - 1] == '_'
    // only underscores are added: all other characters are kept, in order
    ensures Filter(r, NotUnderscore) == Filter(s, NotUnderscore)
    decreases |s|
  {
    if |s| <= 1 then s
    else
      var n := |s| - 1;
      var init := SplitCamel(s[..n]);
      var mid := if IsUpper(s[n]) then "_" else "";
      assert s == s[..n] + [s[n]];
      SplitStep(s[..n], init, mid, s[n]);
      init + mid + [s[n]]
  }

  /** One step of `SplitCamel`: appending a character, after an underscore
      when it is upper case, keeps the facts `SplitCamel` promises. */
  lemma SplitStep(pre: string, init: string, mid: string, c: char)
    requires pre != [] && |init| >= |pre| && init[0] == pre[0]
    requires mid == if IsUpper(c) then "_" else ""
    requires forall i :: 0 <= i < |init| ==> init[i] in pre || init[i] == '_'
    requires forall j :: 0 < j < |init| && IsUpper(init[j]) ==> init[j - 1] == '_'
    requires Filter(init, NotUnderscore) == Filter(pre, NotUnderscore)
    ensures var r := init + mid + [c];
      && (forall i :: 0 <= i < |r| ==> r[i] in pre + [c] || r[i] == '_')
      && |r| >= |pre + [c]| && r[0] == (pre + [c])[0]
      && (forall j :: 0 < j < |r| && IsUpper(r[j]) ==> r[j - 1] == '_')
      && Filter(r, NotUnderscore) == Filter(pre + [c], NotUnderscore)
  {
    SplitStepUpper(init, mid, c);
    SplitStepFilter(pre, init, mid, c);
  }

  lemma SplitStepUpper(init: string, mid: string, c: char)
    requires init != [] && mid == if IsUpper(c) then "_" else ""
    requires forall j :: 0 < j < |init| && IsUpper(init[j]) ==> init[j - 1] == '_'
    ensures var r := init + mid + [c];
      forall j :: 0 < j < |r| && IsUpper(r[j]) ==> r[j - 1] == '_'
  {
    var r := init + mid + [c];
    forall j | 0 < j < |r| && IsUpper(r[j]) ensures r[j - 1] == '_' {
      if j < |init| {
        assert r[j] == init[j] && r[j - 1] == init[j - 1];
      }
    }
  }

  lemma SplitStepFilter(pre: string, init: string, mid: string, c: char)
    requires mid == if IsUpper(c) then "_" else ""
    requires Filter(init, NotUnderscore) == Filter(pre, NotUnderscore)
    ensures Filter(init + mid + [c], NotUnderscore) == Filter(pre + [c], NotUnderscore)
  {
    FilterAppend(init + mid, [c], NotUnderscore);
    FilterAppend(init, mid, NotUnderscore);
    FilterAppend(pre, [c], NotUnderscore);
    assert Filter(mid, NotUnderscore) == [];
  }

  /** Reading a split name back: an underscore right before an upper-case
      letter is dropped. */
  function Unsplit(r: string): string
    decreases |r|
  {
    if |r| <= 1 then r
    else if IsUpper(r[|r| - 1]) && r[|r| - 2] == '_' then Unsplit(r[..|r| - 2]) + [r[|r| - 1]]
    else Unsplit(r[..|r| - 1]) + [r[|r| - 1]]
  }

  /** Splitting loses nothing: the underscores it inserts are exactly the
      ones `Unsplit` removes. */
  lemma {:induction false} SplitCamelRoundTrip(s: string)
    ensures Unsplit(SplitCamel(s)) == s
    decreases |s|
  {
    if |s| > 1 {
      var n := |s| - 1;
      var init := SplitCamel(s[..n]);
      SplitCamelRoundTrip(s[..n]);
      SplitCamelUnfold(s);
      RoundTripStep(s, init, SplitCamel(s));
    }
  }

  lemma SplitCamelUnfold(s: string)
    requires |s| > 1
    ensures var n := |s| - 1;
      SplitCamel(s) == SplitCamel(s[..n]) + (if IsUpper(s[n]) then "_" else "") + [s[n]]
  {
  }

  lemma RoundTripStep(s: string, init: string, r: string)
    requires |s| > 1 && |init| >= 1
    requires Unsplit(init) == s[..|s| - 1]
    requires r == init + (if IsUpper(s[|s| - 1]) then "_" else "") + [s[|s| - 1]]
    ensures Unsplit(r) == s
  {
    var n := |s| - 1;
    UnsplitStep(init, if IsUpper(s[n]) then "_" else "", s[n]);
    assert s == s[..n] + [s[n]];
  }

  /** One step of `Unsplit` at the end of a split name. */
  lemma UnsplitStep(init: string, mid: string, c: char)
    requires init != []
    requires mid == if IsUpper(c) then "_" else ""
    ensures Unsplit(init + mid + [c]) == Unsplit(init) + [c]
  {
    var r := init + mid + [c];
    if IsUpper(c) {
      assert r[|r| - 1] == c && r[|r| - 2] == '_' && r[..|r| - 2] == init;
    } else {
      assert r[|r| - 1] == c && r[..|r| - 1] == init;
    }
  }

  /** `re.sub(r'[^a-z0-9_]', '_', s)`. */
  function Underscored(s: string): (r: string)
    ensures |r| == |s| && forall i :: 0 <= i < |r| ==> SnakeChar(r[i])
    ensures forall i :: 0 <= i < |s| && SnakeChar(s[i]) ==> r[i] == s[i]
  {
    seq(|s|, i requires 0 <= i < |s| => if SnakeChar(s[i]) then s[i] else '_')
  }

  /** The replacement keeps the lower-case letters and digits, in order. */
  lemma {:induction false} UnderscoredKeeps(s: string)
    ensures Filter(Underscored(s), LowerOrDigit) == Filter(s, LowerOrDigit)
  {
    if s != [] {
      UnderscoredKeeps(s[1..]);
      assert Underscored(s)[1..] == Underscored(s[1..]);
    }
  }

  /** `re.sub(r'_+', '_', s)`: every run of underscores becomes one. */
  function Squeeze(s: string): (r: string)
    ensures NoDoubleUnderscore(r)
    ensures s != [] ==> r != [] && r[0] == s[0]
    ensures (forall i :: 0 <= i < |s| ==> SnakeChar(s[i])) ==> forall i :: 0 <= i < |r| ==> SnakeChar(r[i])
    ensures NoDoubleUnderscore(s) ==> r == s
    // only underscores are removed: all other characters are kept, in order
    ensures Filter(r, NotUnderscore) == Filter(s, NotUnderscore)
    decreases |s|
  {
    if |s| <= 1 then s
    else if s[0] == '_' && s[1] == '_' then Squeeze(s[1..])
    else
      var rest := Squeeze(s[1..]);
      assert ([s[0]] + rest)[1..] == rest;
      assert NoDoubleUnderscore(s) ==> NoDoubleUnderscore(s[1..]) by {
        if NoDoubleUnderscore(s) {
          forall i | 0 <= i < |s[1..]| - 1
            ensures !(s[1..][i] == '_' && s[1..][i + 1] == '_')
          {
            assert s[1..][i] == s[i + 1] && s[1..][i + 1] == s[i + 2];
          }
        }
      }
      assert s == [s[0]] + s[1..];
      [s[0]] + Squeeze(s[1..])
  }

  /** `.strip('_')` of a squeezed name. */
  function SnakeTrim(s: string): (r: string)
    requires SnakeBody(s)
    ensures IsSnake(r)
  {
    TrimSnake(s);
    Trim(s, IsUnderscore)
  }

  lemma TrimSnake(s: string)
    requires SnakeBody(s)
    ensures IsSnake(Trim(s, IsUnderscore))
  {
    var r := Trim(s, IsUnderscore);
    var k := |s| - |TrimStart(s, IsUnderscore)|;
    TrimSlice(s, IsUnderscore);
    SliceSnake(s, r, k);
  }

  /** A slice that does not start or end with `_` is snake_case. */
  lemma SliceSnake(s: string, t: string, k: nat)
    requires k + |t| <= |s| && t == s[k..k + |t|]
    requires SnakeBody(s)
    requires t != [] ==> !IsUnderscore(t[0]) && !IsUnderscore(t[|t| - 1])
    ensures IsSnake(t)
  {
    forall i | 0 <= i < |t| ensures t[i] == s[k + i] { }
  }

  /** The snake_case form of a column name (`rename_columns` with
      `snake_case=True`). */
  function SnakeCase(name: string): (r: string)
    ensures IsSnake(r)
    ensures Filter(r, LowerOrDigit) == Filter(Lower(name), LowerOrDigit)
  {
    SnakeStepsKeep(name);
    SnakeTrim(Squeeze(Underscored(Lower(SplitCamel(name)))))
  }

  /** Each of the four steps keeps the letters and digits of the name,
      lower-cased, in order. */
  lemma SnakeStepsKeep(name: string)
    ensures Filter(SnakeTrim(Squeeze(Underscored(Lower(SplitCamel(name))))), LowerOrDigit)
            == Filter(Lower(name), LowerOrDigit)
  {
    var under := Underscored(Lower(SplitCamel(name)));
    var squeezed := Squeeze(under);
    SplitLowerKeeps(name);
    UnderscoredKeeps(Lower(SplitCamel(name)));
    SqueezeKeepsWords(under);
    TrimKeepsFiltered(squeezed, IsUnderscore, LowerOrDigit);
  }

  lemma SplitLowerKeeps(name: string)
    ensures Filter(Lower(SplitCamel(name)), LowerOrDigit) == Filter(Lower(name), LowerOrDigit)
  {
    var split := SplitCamel(name);
    LowerFilterWords(split);
    LowerFilterWords(name);
    FilterFilter(split, NotUnderscore, IsAlnum);
    FilterFilter(name, NotUnderscore, IsAlnum);
  }

  lemma SqueezeKeepsWords(s: string)
    ensures Filter(Squeeze(s), LowerOrDigit) == Filter(s, LowerOrDigit)
  {
    FilterFilter(Squeeze(s), NotUnderscore, LowerOrDigit);
    FilterFilter(s, NotUnderscore, LowerOrDigit);
  }

  /** A snake_case name is its own snake_case form. */
  lemma SnakeFixed(s: string)
    requires IsSnake(s)
    ensures SnakeCase(s) == s
  {
    assert SplitCamel(s) == s;
    assert Lower(s) == s;
    assert Underscored(s) == s;
    if s != [] {
      TrimNone(s, IsUnderscore);
    }
  }

  /** Converting twice is converting once. */
  lemma SnakeIdempotent(s: string)
    ensures SnakeCase(SnakeCase(s)) == SnakeCase(s)
  {
    SnakeFixed(SnakeCase(s));
  }

  /** The label list after `rename(columns=d)`: a label found in `d` takes
      its new name, the others stay. */
  function Renamed(cols: seq<string>, d: map<string, string>): (r: seq<string>)
    ensures |r| == |cols|
    ensures forall i :: 0 <= i < |cols| ==> r[i] == if cols[i] in d then d[cols[i]] else cols[i]
  {
    seq(|cols|, i requires 0 <= i < |cols| => if cols[i] in d then d[cols[i]] else cols[i])
  }

  function SnakeNames(cols: seq<string>): (r: seq<string>)
    ensures |r| == |cols| && forall i :: 0 <= i < |cols| ==> r[i] == SnakeCase(cols[i])
  {
    seq(|cols|, i requires 0 <= i < |cols| => SnakeCase(cols[i]))
  }

  /** The labels `rename_columns(d, snake_case)` ends with. */
  function NewNames(cols: seq<string>, d: map<string, string>, snakeCase: bool): (r: seq<string>)
    ensures |r| == |cols|
    ensures snakeCase ==> forall i :: 0 <= i < |r| ==> IsSnake(r[i])
  {
    var named := Renamed(cols, d);
    if snakeCase then SnakeNames(named) else named
  }

  /** Renaming to snake_case twice gives the same labels as once. */
  lemma SnakeNamesIdempotent(cols: seq<string>)
    ensures SnakeNames(SnakeNames(cols)) == SnakeNames(cols)
  {
    forall i | 0 <= i < |cols|
      ensures SnakeNames(SnakeNames(cols))[i] == SnakeNames(cols)[i]
    {
      SnakeIdempotent(cols[i]);
    }
  }

  // ---------------------------------------------------------------------------
  // Column choice

  /** Every column position, in order: what `subset=None` and
      `columns=None` stand for. */
  function AllPositions(t: Table): (ps: seq<nat>)
    ensures |ps| == |t.columns| && forall k :: 0 <= k < |ps| ==> ps[k] == k
  {
    seq(|t.columns|, (k: int) requires 0 <= k < |t.columns| => k as nat)
  }

  /** The positions of the named columns, or of all columns. */
  function Chosen(t: Table, names: Option<seq<string>>): (ps: seq<nat>)
    requires names.Some? ==> HasColumns(t, names.value)
    ensures InRange(ps, |t.columns|)
    ensures names.Some? ==> (|ps| == |names.value| &&
      forall k :: 0 <= k < |ps| ==> t.columns[ps[k]] == names.value[k])
    ensures names.None? ==> ps == AllPositions(t)
  {
    match names
    case None => AllPositions(t)
    case Some(ns) => Positions(t.columns, ns)
  }

  // ---------------------------------------------------------------------------
  // handle_missing_values

  /** The strategies `handle_missing_values` recognises; any other name
      leaves the table alone. */
  datatype Strategy = Drop | Fill | ForwardFill | BackwardFill | Auto | Unrecognized

  /** The name a caller passes for each recognised strategy. */
  function StrategyName(s: Strategy): string
    requires s != Unrecognized
  {
    match s
    case Drop => "drop"
    case Fill => "fill"
    case ForwardFill => "ffill"
    case BackwardFill => "bfill"
    case Auto => "auto"
  }

  /** The strategy a name selects. */
  function StrategyOf(name: string): (s: Strategy)
    ensures s != Unrecognized ==> StrategyName(s) == name
  {
    if name == "drop" then Drop
    else if name == "fill" then Fill
    else if name == "ffill" then ForwardFill
    else if name == "bfill" then BackwardFill
    else if name == "auto" then Auto
    else Unrecognized
  }

  /** Every recognised strategy is selected by its own name. */
  lemma StrategyNamesParse(s: Strategy)
    requires s != Unrecognized
    ensures StrategyOf(StrategyName(s)) == s
  {
  }

  /** One column after `auto`: its missing cells take its own median or
      first mode; a column with no present value stays missing. */
  function AutoColumn(col: seq<Cell>): (r: seq<Cell>)
    ensures |r| == |col|
    ensures forall i :: 0 <= i < |col| && col[i] != Missing ==> r[i] == col[i]
    ensures forall i :: 0 <= i < |col| && r[i] == Missing ==> forall j :: 0 <= j < |col| ==> col[j] == Missing
  {
    FillCol(col, AutoValue(col))
  }

  /** `auto` over the columns at `ps`, one after the other. */
  function AutoFilled(t: Table, ps: seq<nat>): (r: Table)
    requires Shaped(t) && InRange(ps, |t.columns|)
    ensures Shaped(r) && r.columns == t.columns && r.index == t.index && |r.rows| == |t.rows|
  {
    MapColumns(t, ps, AutoColumn)
  }

  /** Filling a column that `auto` already filled changes nothing: it has no
      missing cell left, or it had no value to fill with. */
  lemma AutoColumnIdempotent(col: seq<Cell>)
    ensures AutoColumn(AutoColumn(col)) == AutoColumn(col)
  {
    var f := AutoColumn(col);
    if AutoValue(col) == Missing {
      assert f == col;
    }
  }

  /** `auto` fills every chosen column with the statistic of that column as
      it was before, whatever the order and repetitions of `ps`; the other
      columns are untouched. */
  lemma AutoFilledColumnwise(t: Table, ps: seq<nat>)
    requires Shaped(t) && InRange(ps, |t.columns|)
    ensures forall i, q :: 0 <= i < |t.rows| && 0 <= q < |t.columns| ==>
      AutoFilled(t, ps).rows[i][q] == if q in ps then AutoColumn(Column(t, q))[i] else t.rows[i][q]
  {
    forall col | true
      ensures AutoColumn(AutoColumn(col)) == AutoColumn(col)
    {
      AutoColumnIdempotent(col);
    }
    MapColumnsOnce(t, ps, AutoColumn);
    MapColumnsOthers(t, ps, AutoColumn);
  }

  /** The table `handle_missing_values(strategy, fill_value, columns)`
      leaves behind. */
  function Handled(t: Table, strategy: Strategy, fillValue: Option<Cell>, columns: Option<seq<string>>): (r: Table)
    requires Shaped(t)
    requires strategy != Unrecognized && columns.Some? ==> HasColumns(t, columns.value)
    requires strategy == Fill ==> fillValue.Some?
    ensures Shaped(r) && r.columns == t.columns
  {
    match strategy
    case Drop => DropNa(t, Chosen(t, columns))
    case Fill => FillColumns(t, Chosen(t, columns), FillWith(fillValue.value))
    case ForwardFill => FillColumns(t, Chosen(t, columns), Forward)
    case BackwardFill => FillColumns(t, Chosen(t, columns), Backward)
    case Auto => AutoFilled(t, Chosen(t, columns))
    case Unrecognized => t
  }

  /** The `auto` loop of `handle_missing_values`: column by column, a
      numeric column takes the median of its numbers (when it has any),
      any other column its first mode. */
  method AutoFill(t: Table, ps: seq<nat>) returns (r: Table)
    requires Shaped(t) && InRange(ps, |t.columns|)
    ensures r == AutoFilled(t, ps)
  {
    r := t;
    for k := 0 to |ps|
      invariant r == AutoFilled(t, ps[..k])
    {
      var u := r;
      var p := ps[k];
      var col := Column(u, p);
      var value: Cell;
      if IsNumeric(col) {
        // the median of an all-missing column is NaN, and filling with
        // NaN leaves the column as it is
        var xs := Numbers(col);
        value := if xs != [] then Num(Median(xs)) else Missing;
      } else {
        assert Present(col) != [] by { AutoValueCases(col); }
        value := Mode(Present(col));
      }
      assert value == AutoValue(col) by { AutoValueCases(col); }
      MapColumnsStep(t, ps, k, AutoColumn);
      r := SetColumn(u, p, FillCol(col, value));
    }
    assert ps[..|ps|] == ps;
  }

  /** No strategy adds missing values, so `missing_values_handled` is never
      negative. */
  lemma HandledFewerMissing(t: Table, strategy: Strategy, fillValue: Option<Cell>, columns: Option<seq<string>>)
    requires Shaped(t)
    requires strategy != Unrecognized && columns.Some? ==> HasColumns(t, columns.value)
    requires strategy == Fill ==> fillValue.Some?
    ensures CountMissing(Handled(t, strategy, fillValue, columns).rows) <= CountMissing(t.rows)
  {
    if strategy != Unrecognized {
      var ps := Chosen(t, columns);
      if strategy == Drop {
        SelectMissing(t.rows, Complete(t, ps));
      } else if strategy == Fill {
        FillColumnsFewer(t, ps, FillWith(fillValue.value));
      } else if strategy == ForwardFill {
        FillColumnsFewer(t, ps, Forward);
      } else if strategy == BackwardFill {
        FillColumnsFewer(t, ps, Backward);
      } else {
        AutoFewerMissing(t, ps);
      }
    }
  }

  /** The `auto` strategy adds no missing value. */
  lemma AutoFewerMissing(t: Table, ps: seq<nat>)
    requires Shaped(t) && InRange(ps, |t.columns|)
    ensures CountMissing(AutoFilled(t, ps).rows) <= CountMissing(t.rows)
  {
    var r := AutoFilled(t, ps);
    forall i, j | 0 <= i < |r.rows| && 0 <= j < |r.rows[i]| && r.rows[i][j] == Missing
      ensures t.rows[i][j] == Missing
    {
      AutoCellMissing(t, ps, i, j);
    }
    FewerMissing(r.rows, t.rows);
  }

  /** A cell `auto` leaves missing was missing before. */
  lemma AutoCellMissing(t: Table, ps: seq<nat>, i: nat, j: nat)
    requires Shaped(t) && InRange(ps, |t.columns|)
    requires i < |t.rows| && j < |t.columns| && AutoFilled(t, ps).rows[i][j] == Missing
    ensures t.rows[i][j] == Missing
  {
    AutoFilledColumnwise(t, ps);
    var col := Column(t, j);
    var r := AutoFilled(t, ps);
    assert r.rows[i][j] == if j in ps then AutoColumn(col)[i] else t.rows[i][j];
    if j in ps {
      AutoColumnMissing(col, i);
    }
  }

  lemma AutoColumnMissing(col: seq<Cell>, i: nat)
    requires i < |col| && AutoColumn(col)[i] == Missing
    ensures col[i] == Missing
  {
  }

  /** `drop` leaves no missing value in the chosen columns. */
  lemma DropLeavesNoMissing(t: Table, columns: Option<seq<string>>)
    requires Shaped(t) && (columns.Some? ==> HasColumns(t, columns.value))
    ensures var r := Handled(t, Drop, None, columns);
      var ps := Chosen(t, columns);
      forall i, k :: 0 <= i < |r.rows| && 0 <= k < |ps| ==> r.rows[i][ps[k]] != Missing
  {
    DropNaComplete(t, Chosen(t, columns));
  }

  /** `fill` with a value keeps every row and leaves no missing value in the
      chosen columns. */
  lemma FillLeavesNoMissing(t: Table, v: Cell, columns: Option<seq<string>>)
    requires Shaped(t) && (columns.Some? ==> HasColumns(t, columns.value)) && v != Missing
    ensures var r := Handled(t, Fill, Some(v), columns);
      var ps := Chosen(t, columns);
      |r.rows| == |t.rows| && r.index == t.index &&
      forall i, k :: 0 <= i < |r.rows| && 0 <= k < |ps| ==> r.rows[i][ps[k]] != Missing
  {
    FillWithComplete(t, Chosen(t, columns), v);
  }

  /** `ffill` gives a missing cell the nearest present cell above it in its
      column; cells with only missing cells above stay missing. */
  lemma ForwardFillNearest(t: Table, columns: Option<seq<string>>, i: nat, q: nat)
    requires Shaped(t) && (columns.Some? ==> HasColumns(t, columns.value))
    requires i < |t.rows| && q in Chosen(t, columns)
    ensures var c := Handled(t, ForwardFill, None, columns).rows[i][q];
      var col := Column(t, q);
      (c == Missing <==> forall j :: 0 <= j <= i ==> col[j] == Missing)
      && (c != Missing ==> exists j :: 0 <= j <= i && col[j] == c &&
                                      forall l :: j < l <= i ==> col[l] == Missing)
  {
    var col := Column(t, q);
    assert Handled(t, ForwardFill, None, columns).rows[i][q] == LastPresent(col, i);
  }

  /** `bfill` is the mirror image: the nearest present cell below. */
  lemma BackwardFillNearest(t: Table, columns: Option<seq<string>>, i: nat, q: nat)
    requires Shaped(t) && (columns.Some? ==> HasColumns(t, columns.value))
    requires i < |t.rows| && q in Chosen(t, columns)
    ensures var c := Handled(t, BackwardFill, None, columns).rows[i][q];
      var col := Column(t, q);
      (c == Missing <==> forall j :: i <= j < |col| ==> col[j] == Missing)
      && (c != Missing ==> exists j :: i <= j < |col| && col[j] == c &&
                                      forall l :: i <= l < j ==> col[l] == Missing)
  {
    var col := Column(t, q);
    assert Handled(t, BackwardFill, None, columns).rows[i][q] == NextPresent(col, i);
  }

  /** `auto`: each chosen column's missing cells take the median of its
      numbers (numeric column) or its first mode (other column); a column
      with no present value stays as it was. */
  lemma AutoFillsWithStatistic(t: Table, columns: Option<seq<string>>, i: nat, q: nat)
    requires Shaped(t) && (columns.Some? ==> HasColumns(t, columns.value))
    requires i < |t.rows| && q in Chosen(t, columns) && t.rows[i][q] == Missing
    ensures var c := Handled(t, Auto, None, columns).rows[i][q];
      var col := Column(t, q);
      (IsNumeric(col) && Numbers(col) != [] ==> c == Num(Median(Numbers(col))))
      && (!IsNumeric(col) ==> c in col && FirstMode(Present(col), c))
      && (c == Missing <==> forall j :: 0 <= j < |t.rows| ==> t.rows[j][q] == Missing)
  {
    var col := Column(t, q);
    var c := Handled(t, Auto, None, columns).rows[i][q];
    assert c == AutoValue(col) by {
      AutoFilledColumnwise(t, Chosen(t, columns));
      assert col[i] == Missing;
    }
    AutoValueCases(col);
  }

  // ---------------------------------------------------------------------------
  // standardize_text

  /** `astype(str)`: a missing value prints as "nan"; how a number prints
      is given by `numText`. */
  function AsText(c: Cell, numText: real -> string): string {
    match c
    case Missing => "nan"
    case Str(s) => s
    case Num(x) => numText(x)
  }

  /** The class `[a-zA-Z0-9\s]` that `remove_special` keeps. */
  predicate SpecialKeep(c: char) { IsAlnum(c) || IsSpace(c) }

  /** The three string operations of `standardize_text`. */
  datatype TextOp = StripOp | LowerOp | SpecialOp

  function ApplyText(op: TextOp, s: string): string {
    match op
    case StripOp => Strip(s)
    case LowerOp => Lower(s)
    case SpecialOp => Filter(s, SpecialKeep)
  }

  /** `df[col].astype(str).str.<op>()`. */
  function TextStep(col: seq<Cell>, op: TextOp, numText: real -> string): (r: seq<Cell>)
    ensures |r| == |col|
    ensures forall i :: 0 <= i < |col| ==> r[i] == Str(ApplyText(op, AsText(col[i], numText)))
  {
    seq(|col|, i requires 0 <= i < |col| => Str(ApplyText(op, AsText(col[i], numText))))
  }

  /** The flags of one `standardize_text` call. */
  datatype Flags = Flags(lowercase: bool, strip: bool, removeSpecial: bool) {
    predicate Any() { lowercase || strip || removeSpecial }
  }

  /** What the enabled flags promise of a standardized text: lower-cased
      text has no upper-case letter; after `remove_special` only letters,
      digits and whitespace remain; stripped text (with nothing removed
      after it) neither starts nor ends with whitespace. */
  predicate TextShape(s: string, f: Flags) {
    (f.lowercase ==> forall i :: 0 <= i < |s| ==> !IsUpper(s[i]))
    && (f.removeSpecial ==> forall i :: 0 <= i < |s| ==> SpecialKeep(s[i]))
    && (f.strip && !f.removeSpecial && s != [] ==> !IsSpace(s[0]) && !IsSpace(s[|s| - 1]))
  }

  /** `str.strip()` when enabled. */
  function StripStep(s: string, on: bool): (r: string)
    ensures on && r != [] ==> !IsSpace(r[0]) && !IsSpace(r[|r| - 1])
    ensures !on ==> r == s
  {
    if on then Strip(s) else s
  }

  /** `str.lower()` when enabled; whitespace stays where it is. */
  function LowerStep(s: string, on: bool): (r: string)
    ensures |r| == |s| && forall i :: 0 <= i < |s| ==> (IsSpace(r[i]) <==> IsSpace(s[i]))
    ensures on ==> forall i :: 0 <= i < |r| ==> !IsUpper(r[i])
    ensures !on ==> r == s
  {
    if on then Lower(s) else s
  }

  /** `str.replace(r'[^a-zA-Z0-9\s]', '')` when enabled; it adds no
      upper-case letter. */
  function SpecialStep(s: string, on: bool): (r: string)
    ensures on ==> forall i :: 0 <= i < |r| ==> SpecialKeep(r[i])
    ensures (forall i :: 0 <= i < |s| ==> !IsUpper(s[i])) ==> forall i :: 0 <= i < |r| ==> !IsUpper(r[i])
    ensures !on ==> r == s
  {
    if on then
      FilterKeepsClassIf(s, SpecialKeep, c => !IsUpper(c));
      Filter(s, SpecialKeep)
    else s
  }

  /** The enabled steps on one text, in the order strip, lower,
      remove_special. */
  function Steps(s: string, f: Flags): (r: string)
    ensures TextShape(r, f)
  {
    var stripped := StripStep(s, f.strip);
    var lowered := LowerStep(stripped, f.lowercase);
    SpecialStep(lowered, f.removeSpecial)
  }

  /** A standardized cell: text of the right shape once any flag is set. */
  predicate StandardShape(c: Cell, f: Flags) {
    f.Any() ==> c.Str? && TextShape(c.s, f)
  }

  /** One cell after `standardize_text`: untouched when no flag is set,
      otherwise its text through the enabled steps. */
  function Standardized(c: Cell, f: Flags, numText: real -> string): (r: Cell)
    ensures StandardShape(r, f)
    ensures !f.Any() ==> r == c
  {
    if !f.Any() then c else Str(Steps(AsText(c, numText), f))
  }

  function StandardizedColumn(col: seq<Cell>, f: Flags, numText: real -> string): (r: seq<Cell>)
    ensures |r| == |col| && forall i :: 0 <= i < |col| ==> r[i] == Standardized(col[i], f, numText)
  {
    seq(|col|, i requires 0 <= i < |col| => Standardized(col[i], f, numText))
  }

  /** `standardize_text`'s work on one column, as a column function. */
  function StandardizeOf(f: Flags, numText: real -> string): (g: seq<Cell> -> seq<Cell>)
    ensures forall col :: g(col) == StandardizedColumn(col, f, numText)
  {
    col => StandardizedColumn(col, f, numText)
  }

  /** `standardize_text` over the columns at `ps`, one after the other. */
  function StandardizedColumns(t: Table, ps: seq<nat>, f: Flags, numText: real -> string): (r: Table)
    requires Shaped(t) && InRange(ps, |t.columns|)
    ensures Shaped(r) && r.columns == t.columns && r.index == t.index && |r.rows| == |t.rows|
  {
    MapColumns(t, ps, StandardizeOf(f, numText))
  }

  /** Every cell of a chosen column has the shape the flags promise, and
      the other columns are untouched. */
  lemma StandardizedShape(t: Table, ps: seq<nat>, f: Flags, numText: real -> string)
    requires Shaped(t) && InRange(ps, |t.columns|)
    ensures forall i, q :: 0 <= i < |t.rows| && 0 <= q < |t.columns| ==>
      var c := StandardizedColumns(t, ps, f, numText).rows[i][q];
      (q in ps ==> StandardShape(c, f)) && (q !in ps ==> c == t.rows[i][q])
  {
    var g := StandardizeOf(f, numText);
    MapColumnsEstablish(t, ps, g, c => StandardShape(c, f));
    MapColumnsOthers(t, ps, g);
  }

  const Nan: string := "nan"

  /** A missing value becomes the text "nan" as soon as any flag is set. */
  lemma MissingBecomesNan(f: Flags, numText: real -> string)
    requires f.Any()
    ensures Standardized(Missing, f, numText) == Str(Nan)
  {
    StepsFixed(Nan, f);
  }

  /** A text with no outer whitespace, no upper-case letter and no special
      character comes through every step unchanged. */
  lemma StepsFixed(s: string, f: Flags)
    requires s != [] && !IsSpace(s[0]) && !IsSpace(s[|s| - 1])
    requires forall i :: 0 <= i < |s| ==> !IsUpper(s[i]) && SpecialKeep(s[i])
    ensures Steps(s, f) == s
  {
    TrimNone(s, IsSpace);
    LowerNone(s);
    FilterAll(s, SpecialKeep);
  }

  const HashBlanks: string := "#  a"
  const Blanks: string := "  a"

  lemma HashBlanksFiltered()
    ensures Filter(HashBlanks, SpecialKeep) == Blanks
  {
    assert HashBlanks == ['#'] + Blanks;
    assert !SpecialKeep('#');
    FilterAll(Blanks, SpecialKeep);
  }

  /** `remove_special` runs after `strip`, so it can uncover whitespace:
      `"#  a"` comes out as `"  a"`, with leading blanks. */
  lemma SpecialAfterStripKeepsBlanks(numText: real -> string)
    ensures Standardized(Str(HashBlanks), Flags(false, true, true), numText) == Str(Blanks)
  {
    var f := Flags(false, true, true);
    assert StripStep(HashBlanks, f.strip) == HashBlanks by {
      TrimNone(HashBlanks, IsSpace);
    }
    assert SpecialStep(HashBlanks, f.removeSpecial) == Blanks by {
      HashBlanksFiltered();
    }
  }

  /** The positions of the `object` columns: those holding something other
      than numbers and missing values. */
  function ObjectPositions(t: Table): (ps: seq<nat>)
    requires Shaped(t)
    ensures InRange(ps, |t.columns|)
    ensures forall p :: 0 <= p < |t.columns| ==> (p in ps <==> !IsNumeric(Column(t, p)))
  {
    var mask := seq(|t.columns|, p requires 0 <= p < |t.columns| => !IsNumeric(Column(t, p)));
    assert forall p :: 0 <= p < |t.columns| ==> (p in Kept(mask) <==> mask[p]) by {
      forall p | 0 <= p < |t.columns| {
        KeptIff(mask, p);
      }
    }
    Kept(mask)
  }

  /** The columns `standardize_text(columns)` works on. */
  function TextPositions(t: Table, columns: Option<seq<string>>): (ps: seq<nat>)
    requires Shaped(t) && (columns.Some? ==> HasColumns(t, columns.value))
    ensures InRange(ps, |t.columns|)
  {
    match columns
    case None => ObjectPositions(t)
    case Some(ns) => Positions(t.columns, ns)
  }

  /** `len(columns)` once `None` has become the list of `object` columns:
      what `standardize_text` reports, whether or not the names exist. */
  function ListedCount(t: Table, columns: Option<seq<string>>): (n: nat)
    requires Shaped(t)
    ensures columns.Some? ==> n == |columns.value|
    ensures columns.None? ==> n == |ObjectPositions(t)|
    ensures columns.Some? && HasColumns(t, columns.value) ==> n == |TextPositions(t, columns)|
  {
    match columns
    case None => |ObjectPositions(t)|
    case Some(ns) => |ns|
  }

  // ---------------------------------------------------------------------------
  // remove_columns

  /** `[col for col in columns if col in df.columns]`. */
  function Existing(names: seq<string>, cols: seq<string>): (r: seq<string>)
    ensures |r| <= |names|
    ensures forall c :: c in r <==> c in names && c in cols
  {
    if names == [] then []
    else (if names[0] in cols then [names[0]] else []) + Existing(names[1..], cols)
  }

  /** The positions of the columns whose label is listed. */
  function LabelPositions(t: Table, names: seq<string>): set<nat> {
    set p: nat | p < |t.columns| && t.columns[p] in names
  }

  /** `drop(columns=existing)` removes exactly the listed columns that exist:
      the labels left are the others, in order, and each keeps its cells. */
  lemma RemoveColumnsKeepsOthers(t: Table, names: seq<string>)
    requires Valid(t)
    ensures var r := DropColumns(t, LabelPositions(t, Existing(names, t.columns)));
      Valid(r)
      && (forall c :: c in r.columns <==> c in t.columns && c !in names)
      && (forall i, k :: 0 <= i < |r.rows| && 0 <= k < |r.columns| ==>
            r.columns[k] in t.columns && r.rows[i][k] == t.rows[i][Position(t.columns, r.columns[k])])
  {
    var ps := LabelPositions(t, Existing(names, t.columns));
    var r := DropColumns(t, ps);
    var keep := ColumnsKept(t, ps);
    DropColumnsValid(t, ps);
    forall c | c in t.columns && c !in names
      ensures c in r.columns
    {
      var p := Position(t.columns, c);
      assert c !in Existing(names, t.columns);
      assert p !in ps;
      assert p in keep;
      var k :| 0 <= k < |keep| && keep[k] == p;
      assert r.columns[k] == c;
    }
    forall i, k | 0 <= i < |r.rows| && 0 <= k < |r.columns|
      ensures r.columns[k] in t.columns && r.rows[i][k] == t.rows[i][Position(t.columns, r.columns[k])]
    {
      assert r.columns[k] == t.columns[keep[k]];
    }
  }

  // ---------------------------------------------------------------------------
  // The pipeline object

  const OriginalRows := "original_rows"
  const OriginalColumns := "original_columns"
  const DuplicatesRemoved := "duplicates_removed"
  const MissingValuesHandled := "missing_values_handled"
  const TextColumnsStandardized := "text_columns_standardized"
  const ColumnsRemoved := "columns_removed"

  class DataCleaningPipeline {
    /** `self.df`: `None` until a table is loaded. */
    var df: Option<Table>
    /** `self.original_shape`: rows and columns when loaded. */
    var originalShape: Option<(nat, nat)>
    /** `self.cleaning_report`. */
    var report: map<string, int>

    /** A loaded table has one label per row, full rows and distinct column
        labels. */
    predicate Ok()
      reads this
    {
      df.Some? ==> Valid(df.value)
    }

    constructor ()
      ensures df == None && originalShape == None && report == map[] && Ok()
    {
      df := None;
      originalShape := None;
      report := map[];
    }

    /** `load_data`, from the parsed table on: the table is kept and its
        shape recorded. */
    method Load(t: Table)
      requires Valid(t) && t.index == Range(|t.rows|)
      modifies this
      ensures df == Some(t) && originalShape == Some((|t.rows|, |t.columns|))
      ensures report == old(report)[OriginalRows := |t.rows|][OriginalColumns := |t.columns|]
      ensures Ok()
    {
      df := Some(t);
      originalShape := Some((|t.rows|, |t.columns|));
      report := report[OriginalRows := |t.rows|];
      report := report[OriginalColumns := |t.columns|];
    }

    /** `remove_duplicates(subset, keep)`: `drop_duplicates` on the subset
        (all columns when `None`), recording how many rows went. An empty
        table comes back before `subset` is looked at, so its names need
        not exist. */
    method RemoveDuplicates(subset: Option<seq<string>>, keep: Keep)
      requires Ok()
      requires df.Some? && !IsEmpty(df.value) && subset.Some? ==>
        HasColumns(df.value, subset.value) && subset.value != []
      modifies this
      ensures Ok() && originalShape == old(originalShape)
      ensures old(df).None? ==> df == None && report == old(report)
      ensures old(df).Some? && IsEmpty(old(df).value) ==>
        df == old(df) && report == old(report)[DuplicatesRemoved := 0]
      ensures old(df).Some? && !IsEmpty(old(df).value) ==>
        var t := old(df).value;
        var r := DropDuplicates(t, Chosen(t, subset), keep);
        df == Some(r) && report == old(report)[DuplicatesRemoved := |t.rows| - |r.rows|]
    {
      if df.None? {
        return;
      }
      var t := df.value;
      var initialRows := |t.rows|;
      if !IsEmpty(t) {
        df := Some(DropDuplicates(t, Chosen(t, subset), keep));
      }
      var rowsRemoved := initialRows - |df.value.rows|;
      report := report[DuplicatesRemoved := rowsRemoved];
    }

    /** `handle_missing_values(strategy, fill_value, columns)`: the table
        `Handled` describes, with `auto` worked column by column; records
        the missing count before minus after. */
    method HandleMissingValues(strategy: Strategy, fillValue: Option<Cell>, columns: Option<seq<string>>)
      requires Ok()
      requires df.Some? && strategy != Unrecognized && columns.Some? ==> HasColumns(df.value, columns.value)
      requires df.Some? && strategy == Fill ==> fillValue.Some?
      modifies this
      ensures Ok() && originalShape == old(originalShape)
      ensures old(df).None? ==> df == None && report == old(report)
      ensures old(df).Some? ==> df == Some(Handled(old(df).value, strategy, fillValue, columns))
      ensures old(df).Some? ==> (df.Some? &&
        report == old(report)[MissingValuesHandled := CountMissing(old(df).value.rows) - CountMissing(df.value.rows)])
    {
      if df.None? {
        return;
      }
      var t := df.value;
      var missingBefore: int := CountMissing(t.rows);
      var chosen := strategy;
      var u := t;
      if chosen == Auto {
        u := AutoFill(t, Chosen(t, columns));
      } else {
        u := Handled(t, chosen, fillValue, columns);
      }
      var missingAfter: int := CountMissing(u.rows);
      df := Some(u);
      report := report[MissingValuesHandled := missingBefore - missingAfter];
    }

    /** `standardize_text(columns, lowercase, strip, remove_special)`: each
        listed column (every `object` column when `None`) goes through the
        enabled steps; records how many columns were listed. */
    method StandardizeText(columns: Option<seq<string>>, lowercase: bool, strip: bool, removeSpecial: bool,
                           numText: real -> string)
      requires Ok()
      requires df.Some? && columns.Some? && (lowercase || strip || removeSpecial) ==>
        HasColumns(df.value, columns.value)
      modifies this
      ensures Ok() && originalShape == old(originalShape)
      ensures old(df).None? ==> df == None && report == old(report)
      ensures old(df).Some? ==>
        report == old(report)[TextColumnsStandardized := ListedCount(old(df).value, columns)]
      ensures old(df).Some? && !(lowercase || strip || removeSpecial) ==> df == old(df)
      ensures old(df).Some? && (lowercase || strip || removeSpecial) ==>
        var t := old(df).value;
        df == Some(StandardizedColumns(t, TextPositions(t, columns), Flags(lowercase, strip, removeSpecial), numText))
    {
      if df.None? {
        return;
      }
      var t := df.value;
      if !(lowercase || strip || removeSpecial) {
        // No step is enabled: the loop reads no column, so any name goes.
        report := report[TextColumnsStandardized := ListedCount(t, columns)];
        return;
      }
      var ps := TextPositions(t, columns);
      var f := Flags(lowercase, strip, removeSpecial);
      for k := 0 to |ps|
        invariant df == Some(StandardizedColumns(t, ps[..k], f, numText))
        invariant report == old(report) && originalShape == old(originalShape)
      {
        var u := df.value;
        var v := StandardizeColumn(u, ps[k], f, numText);
        MapColumnsStep(t, ps, k, StandardizeOf(f, numText));
        df := Some(v);
      }
      assert ps[..|ps|] == ps;
      report := report[TextColumnsStandardized := ListedCount(t, columns)];
    }

    /** `rename_columns(rename_dict, snake_case)`: relabel by the dictionary,
        then (when asked) to snake_case; rows and counters stay. */
    method RenameColumns(renameDict: map<string, string>, snakeCase: bool)
      requires Ok()
      requires df.Some? ==> Distinct(NewNames(df.value.columns, renameDict, snakeCase))
      modifies this
      ensures Ok() && originalShape == old(originalShape) && report == old(report)
      ensures old(df).None? ==> df == None
      ensures old(df).Some? ==>
        var t := old(df).value;
        df == Some(t.(columns := NewNames(t.columns, renameDict, snakeCase)))
    {
      if df.None? {
        return;
      }
      var t := df.value;
      if |renameDict| > 0 {
        t := t.(columns := Renamed(t.columns, renameDict));
      } else {
        assert Renamed(t.columns, renameDict) == t.columns;
      }
      if snakeCase {
        t := t.(columns := SnakeNames(t.columns));
      }
      df := Some(t);
    }

    /** `remove_columns(columns)`: drop the listed columns that exist and
        record how many names that was (repeats included). */
    method RemoveColumns(columns: seq<string>)
      requires Ok()
      modifies this
      ensures Ok() && originalShape == old(originalShape)
      ensures old(df).None? ==> df == None && report == old(report)
      ensures old(df).Some? ==>
        var t := old(df).value;
        var existing := Existing(columns, t.columns);
        df == Some(DropColumns(t, LabelPositions(t, existing)))
        && report == old(report)[ColumnsRemoved := |existing|]
    {
      if df.None? {
        return;
      }
      var t := df.value;
      var existing := Existing(columns, t.columns);
      DropColumnsValid(t, LabelPositions(t, existing));
      df := Some(DropColumns(t, LabelPositions(t, existing)));
      report := report[ColumnsRemoved := |existing|];
    }

    /** `reset_index()`: rows relabelled `0..n-1`. */
    method ResetIndex()
      requires Ok()
      modifies this
      ensures Ok() && originalShape == old(originalShape) && report == old(report)
      ensures old(df).None? ==> df == None
      ensures old(df).Some? ==> df == Some(Frames.ResetIndex(old(df).value))
    {
      if df.None? {
        return;
      }
      df := Some(Frames.ResetIndex(df.value));
    }
  }

  /** One column of `standardize_text`: `astype(str)` and the enabled
      string operations, each applied to the whole column and assigned
      back in turn. */
  method StandardizeColumn(u: Table, p: nat, f: Flags, numText: real -> string) returns (v: Table)
    requires Shaped(u) && p < |u.columns|
    ensures v == SetColumn(u, p, StandardizedColumn(Column(u, p), f, numText))
  {
    v := u;
    if f.strip {
      v := SetColumn(v, p, TextStep(Column(v, p), StripOp, numText));
    }
    if f.lowercase {
      v := SetColumn(v, p, TextStep(Column(v, p), LowerOp, numText));
    }
    if f.removeSpecial {
      v := SetColumn(v, p, TextStep(Column(v, p), SpecialOp, numText));
    }
    StepsStandardize(u, p, f, numText, v);
  }

  lemma StepsStandardize(u: Table, p: nat, f: Flags, numText: real -> string, v: Table)
    requires Shaped(u) && p < |u.columns|
    requires var v1 := if f.strip then SetColumn(u, p, TextStep(Column(u, p), StripOp, numText)) else u;
      var v2 := if f.lowercase then SetColumn(v1, p, TextStep(Column(v1, p), LowerOp, numText)) else v1;
      v == if f.removeSpecial then SetColumn(v2, p, TextStep(Column(v2, p), SpecialOp, numText)) else v2
    ensures v == SetColumn(u, p, StandardizedColumn(Column(u, p), f, numText))
  {
    var col := Column(u, p);
    if !f.Any() {
      SetColumnSame(u, p);
      assert StandardizedColumn(col, f, numText) == col;
    } else {
      var c1 := if f.strip then TextStep(col, StripOp, numText) else col;
      var c2 := if f.lowercase then TextStep(c1, LowerOp, numText) else c1;
      var c3 := if f.removeSpecial then TextStep(c2, SpecialOp, numText) else c2;
      var v1 := if f.strip then SetColumn(u, p, c1) else u;
      var v2 := if f.lowercase then SetColumn(v1, p, c2) else v1;
      ColumnOfSet(u, p, c1);
      if f.strip && f.lowercase {
        ColumnOfSet(v1, p, c2);
        SetColumnTwice(u, p, c1, c2);
      }
      if f.removeSpecial && (f.strip || f.lowercase) {
        ColumnOfSet(v2, p, c3);
        SetColumnTwice(u, p, c2, c3);
      }
      assert c3 == StandardizedColumn(col, f, numText);
    }
  }
}
