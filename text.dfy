/** Character classes and string helpers shared by the models.
    Python's `str` methods and the fixed regular expressions of the source are
    modelled on the ASCII range: `\w`, `\s`, `isdigit`, `lower`, `upper` and
    `title` treat every non-ASCII character as an ordinary symbol. */
module Text {

  /** `str.isspace()` / regex `\s` on ASCII: space, \t \n \v \f \r and the
      separators \x1c-\x1f. */
  predicate IsSpace(c: char) {
    c == ' ' || ('\t' <= c <= '\r') || ('\U{1c}' <= c <= '\U{1f}')
  }

  predicate IsDigit(c: char) { '0' <= c <= '9' }
  predicate IsUpper(c: char) { 'A' <= c <= 'Z' }
  predicate IsLower(c: char) { 'a' <= c <= 'z' }
  predicate IsLetter(c: char) { IsUpper(c) || IsLower(c) }
  predicate IsAlnum(c: char) { IsLetter(c) || IsDigit(c) }

  /** Regex `\w`: letters, digits and the underscore. */
  predicate IsWordChar(c: char) { IsAlnum(c) || c == '_' }

  predicate IsUnderscore(c: char) { c == '_' }
  predicate NotUnderscore(c: char) { c != '_' }
  predicate LowerOrDigit(c: char) { IsLower(c) || IsDigit(c) }

  function ToLower(c: char): (r: char)
    ensures !IsUpper(r)
    ensures IsLetter(c) <==> IsLetter(r)
    ensures IsDigit(c) <==> IsDigit(r)
    ensures IsSpace(c) <==> IsSpace(r)
    ensures !IsUpper(c) ==> r == c
  {
    if IsUpper(c) then (c as int + 32) as char else c
  }

  function ToUpper(c: char): (r: char)
    ensures !IsLower(r)
    ensures IsLetter(c) <==> IsLetter(r)
    ensures !IsLower(c) ==> r == c
    ensures IsSpace(c) <==> IsSpace(r)
    ensures IsLetter(c) ==> ToLower(r) == ToLower(c)
  {
    if IsLower(c) then (c as int - 32) as char else c
  }

  /** `str.lower()` */
  function Lower(s: string): (r: string)
    ensures |r| == |s|
    ensures forall i :: 0 <= i < |s| ==> r[i] == ToLower(s[i])
  {
    seq(|s|, i requires 0 <= i < |s| => ToLower(s[i]))
  }

  /** `str.upper()` */
  function Upper(s: string): (r: string)
    ensures |r| == |s|
    ensures forall i :: 0 <= i < |s| ==> r[i] == ToUpper(s[i])
  {
    seq(|s|, i requires 0 <= i < |s| => ToUpper(s[i]))
  }

  /** `str.lstrip(chars)` for the characters satisfying `drop`. */
  function TrimStart(s: string, drop: char -> bool): (r: string)
    ensures |r| <= |s| && r == s[|s| - |r|..]
    ensures r != [] ==> !drop(r[0])
    ensures forall i :: 0 <= i < |s| - |r| ==> drop(s[i])
  {
    if s == [] || !drop(s[0]) then s else TrimStart(s[1..], drop)
  }

  /** `str.rstrip(chars)` for the characters satisfying `drop`. */
  function TrimEnd(s: string, drop: char -> bool): (r: string)
    ensures |r| <= |s| && r == s[..|r|]
    ensures r != [] ==> !drop(r[|r| - 1])
    ensures forall i :: |r| <= i < |s| ==> drop(s[i])
  {
    if s == [] || !drop(s[|s| - 1]) then s else TrimEnd(s[..|s| - 1], drop)
  }

  /** `str.strip(chars)`: the longest infix that neither starts nor ends with
      a character of `drop`. */
  function Trim(s: string, drop: char -> bool): (r: string)
    ensures r != [] ==> !drop(r[0]) && !drop(r[|r| - 1])
    ensures |r| <= |s|
  {
    TrimEnd(TrimStart(s, drop), drop)
  }

  /** Where the stripped text sits in `s`: right after what `TrimStart`
      drops. */
  lemma TrimSlice(s: string, drop: char -> bool)
    ensures var k := |s| - |TrimStart(s, drop)|;
      k + |Trim(s, drop)| <= |s| && Trim(s, drop) == s[k..k + |Trim(s, drop)|]
  {
  }

  /** `str.strip()` with no argument: surrounding whitespace. */
  function Strip(s: string): (r: string)
    ensures r != [] ==> !IsSpace(r[0]) && !IsSpace(r[|r| - 1])
    ensures |r| <= |s|
  {
    var r := Trim(s, IsSpace);
    assert r != [] ==> !IsSpace(r[0]) && !IsSpace(r[|r| - 1]);
    r
  }

  lemma {:induction false} TrimStartUpper(s: string)
    ensures TrimStart(Upper(s), IsSpace) == Upper(TrimStart(s, IsSpace))
    decreases |s|
  {
    var u := Upper(s);
    if s != [] {
      assert IsSpace(u[0]) <==> IsSpace(s[0]);
      if IsSpace(s[0]) {
        assert u[1..] == Upper(s[1..]);
        TrimStartUpper(s[1..]);
        assert TrimStart(u, IsSpace) == TrimStart(u[1..], IsSpace);
      }
    }
  }

  lemma {:induction false} TrimEndUpper(s: string)
    ensures TrimEnd(Upper(s), IsSpace) == Upper(TrimEnd(s, IsSpace))
    decreases |s|
  {
    var u := Upper(s);
    if s != [] {
      assert IsSpace(u[|s| - 1]) <==> IsSpace(s[|s| - 1]);
      if IsSpace(s[|s| - 1]) {
        assert u[..|s| - 1] == Upper(s[..|s| - 1]);
        TrimEndUpper(s[..|s| - 1]);
        assert TrimEnd(u, IsSpace) == TrimEnd(u[..|s| - 1], IsSpace);
      }
    }
  }

  /** Upper-casing commutes with stripping whitespace. */
  lemma StripUpper(s: string)
    ensures Strip(Upper(s)) == Upper(Strip(s))
  {
    TrimStartUpper(s);
    TrimEndUpper(TrimStart(s, IsSpace));
  }

  /** Lower-casing forgets an earlier upper-casing. */
  lemma LowerUpper(s: string)
    ensures Lower(Upper(s)) == Lower(s)
  {
  }

  /** The characters of `s` that satisfy `keep`, in order (a regex
      substitution of the complement class by the empty string). */
  function Filter(s: string, keep: char -> bool): (r: string)
    ensures |r| <= |s|
    ensures forall i :: 0 <= i < |r| ==> keep(r[i])
  {
    if s == [] then []
    else (if keep(s[0]) then [s[0]] else []) + Filter(s[1..], keep)
  }

  lemma {:induction false} FilterAppend(a: string, b: string, keep: char -> bool)
    ensures Filter(a + b, keep) == Filter(a, keep) + Filter(b, keep)
  {
    if a == [] {
      assert a + b == b;
    } else {
      assert (a + b)[0] == a[0] && (a + b)[1..] == a[1..] + b;
      FilterAppend(a[1..], b, keep);
      var h := if keep(a[0]) then [a[0]] else [];
      assert Filter(a + b, keep) == h + Filter(a[1..] + b, keep);
      assert Filter(a, keep) == h + Filter(a[1..], keep);
    }
  }

  lemma {:induction false} FilterNone(s: string, keep: char -> bool)
    requires forall i :: 0 <= i < |s| ==> !keep(s[i])
    ensures Filter(s, keep) == []
  {
    if s != [] { FilterNone(s[1..], keep); }
  }

  /** Filtering twice keeps what the stronger test keeps. */
  lemma {:induction false} FilterFilter(s: string, p: char -> bool, q: char -> bool)
    requires forall c :: q(c) ==> p(c)
    ensures Filter(Filter(s, p), q) == Filter(s, q)
  {
    if s != [] {
      FilterFilter(s[1..], p, q);
      var head := if p(s[0]) then [s[0]] else [];
      FilterAppend(head, Filter(s[1..], p), q);
      if p(s[0]) { assert Filter(head, q) == (if q(s[0]) then [s[0]] else []) + Filter([], q); }
    }
  }

  /** Filtering keeps a character class that all of `s` already has. */
  /** The letters and digits of a lower-cased string are the lower-cased
      letters and digits of the original. */
  lemma {:induction false} LowerFilterWords(x: string)
    ensures Filter(Lower(x), LowerOrDigit) == Lower(Filter(x, IsAlnum))
  {
    if x != [] {
      LowerFilterWords(x[1..]);
      assert Lower(x)[1..] == Lower(x[1..]);
      var h := if IsAlnum(x[0]) then [x[0]] else [];
      assert Filter(x, IsAlnum) == h + Filter(x[1..], IsAlnum);
      assert Lower(h + Filter(x[1..], IsAlnum)) == Lower(h) + Lower(Filter(x[1..], IsAlnum));
    }
  }

  lemma {:induction false} FilterKeepsClass(s: string, keep: char -> bool, p: char -> bool)
    requires forall i :: 0 <= i < |s| ==> p(s[i])
    ensures forall i :: 0 <= i < |Filter(s, keep)| ==> p(Filter(s, keep)[i])
  {
    if s != [] { FilterKeepsClass(s[1..], keep, p); }
  }

  /** The same, for a string that may not have the class. */
  lemma FilterKeepsClassIf(s: string, keep: char -> bool, p: char -> bool)
    ensures (forall i :: 0 <= i < |s| ==> p(s[i])) ==>
      forall i :: 0 <= i < |Filter(s, keep)| ==> p(Filter(s, keep)[i])
  {
    if forall i :: 0 <= i < |s| ==> p(s[i]) {
      FilterKeepsClass(s, keep, p);
    }
  }

  /** Lower-casing leaves a string without upper-case letters alone. */
  lemma LowerNone(s: string)
    requires forall i :: 0 <= i < |s| ==> !IsUpper(s[i])
    ensures Lower(s) == s
  {
  }

  lemma TrimStartKeepsFiltered(s: string, drop: char -> bool, keep: char -> bool)
    requires forall c :: drop(c) ==> !keep(c)
    ensures Filter(TrimStart(s, drop), keep) == Filter(s, keep)
  {
    var t := TrimStart(s, drop);
    var pre := s[..|s| - |t|];
    assert s == pre + t;
    FilterAppend(pre, t, keep);
    FilterNone(pre, keep);
  }

  lemma TrimEndKeepsFiltered(s: string, drop: char -> bool, keep: char -> bool)
    requires forall c :: drop(c) ==> !keep(c)
    ensures Filter(TrimEnd(s, drop), keep) == Filter(s, keep)
  {
    var r := TrimEnd(s, drop);
    var post := s[|r|..];
    assert s == r + post;
    FilterAppend(r, post, keep);
    FilterNone(post, keep);
  }

  /** Trimming characters that `keep` rejects loses nothing `keep` accepts. */
  lemma TrimKeepsFiltered(s: string, drop: char -> bool, keep: char -> bool)
    requires forall c :: drop(c) ==> !keep(c)
    ensures Filter(Trim(s, drop), keep) == Filter(s, keep)
  {
    TrimStartKeepsFiltered(s, drop, keep);
    TrimEndKeepsFiltered(TrimStart(s, drop), drop, keep);
  }

  /** Trimming keeps a character class that all of `s` already has. */
  lemma TrimKeepsClass(s: string, drop: char -> bool, p: char -> bool)
    requires forall i :: 0 <= i < |s| ==> p(s[i])
    ensures forall i :: 0 <= i < |Trim(s, drop)| ==> p(Trim(s, drop)[i])
  {
    var r := Trim(s, drop);
    TrimSlice(s, drop);
    var k := |s| - |TrimStart(s, drop)|;
    forall i | 0 <= i < |r| ensures p(r[i]) { assert r[i] == s[k + i]; }
  }

  predicate StartsWith(s: string, prefix: string) {
    |prefix| <= |s| && s[..|prefix|] == prefix
  }

  /** Python's `sub in s`. */
  predicate OccursAt(s: string, sub: string, i: nat) {
    i + |sub| <= |s| && s[i..i + |sub|] == sub
  }

  function FindFrom(s: string, sub: string, i: nat): bool
    requires i <= |s|
    decreases |s| - i
  {
    if OccursAt(s, sub, i) then true
    else if i == |s| then false
    else FindFrom(s, sub, i + 1)
  }

  /** Python's `sub in s`: a scan for the first position where `sub`
      occurs. */
  function Contains(s: string, sub: string): bool {
    FindFrom(s, sub, 0)
  }

  lemma {:induction false} FindFromIff(s: string, sub: string, i: nat)
    requires i <= |s|
    ensures FindFrom(s, sub, i) <==> exists k :: i <= k <= |s| && OccursAt(s, sub, k)
    decreases |s| - i
  {
    if !OccursAt(s, sub, i) && i < |s| {
      FindFromIff(s, sub, i + 1);
    }
  }

  /** The scan finds `sub` exactly when it occurs somewhere in `s`. */
  lemma ContainsIff(s: string, sub: string)
    ensures Contains(s, sub) <==> exists k :: 0 <= k <= |s| && OccursAt(s, sub, k)
  {
    FindFromIff(s, sub, 0);
  }

  /** A string without the first character of `sub` does not contain it. */
  lemma AbsentHeadNotContained(s: string, sub: string)
    requires sub != [] && sub[0] !in s
    ensures !Contains(s, sub)
  {
    forall k: nat | k + |sub| <= |s| ensures !OccursAt(s, sub, k) {
      assert s[k..k + |sub|][0] == s[k];
    }
    ContainsIff(s, sub);
  }

  lemma {:induction false} EmptyOccursEverywhere(s: string)
    ensures Contains(s, "")
  {
    assert OccursAt(s, "", 0);
    ContainsIff(s, "");
  }

  /** `str.title()`: a letter is upper-cased when the previous character is not
      a letter and lower-cased otherwise; other characters are kept. */
  function TitleFrom(s: string, afterLetter: bool): (r: string)
    ensures |r| == |s|
    decreases |s|
  {
    if s == [] then []
    else
      var c := if !IsLetter(s[0]) then s[0]
               else if afterLetter then ToLower(s[0]) else ToUpper(s[0]);
      [c] + TitleFrom(s[1..], IsLetter(s[0]))
  }

  function Title(s: string): (r: string)
    ensures |r| == |s|
  {
    TitleFrom(s, false)
  }

  lemma {:induction false} TitleFromAt(s: string, afterLetter: bool, i: nat)
    requires i < |s|
    ensures var prevLetter := if i == 0 then afterLetter else IsLetter(s[i - 1]);
            TitleFrom(s, afterLetter)[i] ==
              if !IsLetter(s[i]) then s[i]
              else if prevLetter then ToLower(s[i]) else ToUpper(s[i])
    decreases i
  {
    if i > 0 {
      TitleFromAt(s[1..], IsLetter(s[0]), i - 1);
    }
  }

  /** Every word of a title-cased string starts with an upper-case letter and
      continues in lower case; characters other than letters are unchanged. */
  lemma TitleShape(s: string, i: nat)
    requires i < |s|
    ensures !IsLetter(s[i]) ==> Title(s)[i] == s[i]
    ensures IsLetter(s[i]) && (i == 0 || !IsLetter(s[i - 1])) ==> IsUpper(Title(s)[i])
    ensures IsLetter(s[i]) && i > 0 && IsLetter(s[i - 1]) ==> IsLower(Title(s)[i])
  {
    TitleFromAt(s, false, i);
  }

  /** Python's `"sep".join(parts)`. */
  function Join(parts: seq<string>, sep: string): (r: string)
    ensures parts == [] ==> r == []
    ensures |parts| == 1 ==> r == parts[0]
  {
    if parts == [] then []
    else if |parts| == 1 then parts[0]
    else parts[0] + sep + Join(parts[1..], sep)
  }

  /** Joining two non-empty lists of parts puts exactly one separator
      between the two joined halves. */
  lemma {:induction false} JoinAppend(a: seq<string>, b: seq<string>, sep: string)
    requires a != [] && b != []
    ensures Join(a + b, sep) == Join(a, sep) + sep + Join(b, sep)
    decreases |a|
  {
    if |a| > 1 {
      JoinAppend(a[1..], b, sep);
      assert (a + b)[1..] == a[1..] + b;
    } else {
      assert (a + b)[1..] == b;
    }
  }

  /** Two or more parts: the last part follows the join of the others after
      one separator. */
  lemma JoinLast(parts: seq<string>, sep: string)
    requires |parts| >= 2
    ensures Join(parts, sep) == Join(parts[..|parts| - 1], sep) + sep + parts[|parts| - 1]
  {
    JoinAppend(parts[..|parts| - 1], [parts[|parts| - 1]], sep);
    assert parts[..|parts| - 1] + [parts[|parts| - 1]] == parts;
  }

  /** The total length of a list of strings. */
  function TotalLength(parts: seq<string>): nat {
    if parts == [] then 0 else |parts[0]| + TotalLength(parts[1..])
  }

  /** The joined text holds every part and one separator between each pair
      of neighbours, and nothing else. */
  lemma {:induction false} JoinLength(parts: seq<string>, sep: string)
    requires parts != []
    ensures |Join(parts, sep)| == TotalLength(parts) + (|parts| - 1) * |sep|
    decreases |parts|
  {
    if |parts| > 1 {
      JoinLength(parts[1..], sep);
    }
  }

  function DigitChar(d: nat): (c: char)
    requires d < 10
    ensures IsDigit(c)
  {
    "0123456789"[d]
  }

  function DigitValue(c: char): (d: nat)
    requires IsDigit(c)
    ensures d < 10 && DigitChar(d) == c
  {
    (c as int - '0' as int)
  }

  predicate AllDigits(s: string) {
    forall i :: 0 <= i < |s| ==> IsDigit(s[i])
  }

  /** Upper-casing neither adds nor removes digits. */
  lemma UpperAllDigits(s: string)
    ensures AllDigits(Upper(s)) <==> AllDigits(s)
  {
    forall i | 0 <= i < |s|
      ensures IsDigit(Upper(s)[i]) <==> IsDigit(s[i])
    {
      assert Upper(s)[i] == ToUpper(s[i]);
    }
  }

  /** `int(s)` for a string of ASCII digits. */
  function ParseDigits(s: string): nat
    requires AllDigits(s)
  {
    if s == [] then 0 else 10 * ParseDigits(s[..|s| - 1]) + DigitValue(s[|s| - 1])
  }

  /** `str(n)` for a natural number. */
  function NatToString(n: nat): (r: string)
    ensures r != [] && AllDigits(r)
    ensures ParseDigits(r) == n
  {
    if n < 10 then [DigitChar(n)]
    else
      var p := NatToString(n / 10);
      var r := p + [DigitChar(n % 10)];
      assert r[..|r| - 1] == p;
      r
  }

  /** `str(i)` for an integer. */
  function IntToString(i: int): (r: string)
    ensures r != []
    ensures i >= 0 ==> r == NatToString(i)
    ensures i < 0 ==> r[0] == '-' && r[1..] == NatToString(-i)
  {
    if i >= 0 then NatToString(i) else "-" + NatToString(-i)
  }

  /** `re.sub(r'\s+', ' ', s)`: every maximal run of whitespace becomes one
      space. */
  function CollapseSpaces(s: string): (r: string)
    ensures s == [] <==> r == []
    ensures s != [] && IsSpace(s[0]) ==> r[0] == ' '
    ensures s != [] && !IsSpace(s[0]) ==> r[0] == s[0]
    decreases |s|
  {
    if s == [] then []
    else if IsSpace(s[0]) then [' '] + CollapseSpaces(TrimStart(s, IsSpace))
    else [s[0]] + CollapseSpaces(s[1..])
  }

  lemma {:induction false} CollapseShape(s: string)
    ensures forall i :: 0 <= i < |CollapseSpaces(s)| ==>
      var c := CollapseSpaces(s)[i]; c == ' ' || !IsSpace(c)
    ensures forall i :: 0 <= i < |CollapseSpaces(s)| - 1 ==>
      !(CollapseSpaces(s)[i] == ' ' && CollapseSpaces(s)[i + 1] == ' ')
    decreases |s|
  {
    if s != [] {
      if IsSpace(s[0]) {
        var rest := TrimStart(s, IsSpace);
        CollapseShape(rest);
        assert CollapseSpaces(s) == [' '] + CollapseSpaces(rest);
      } else {
        CollapseShape(s[1..]);
        assert CollapseSpaces(s) == [s[0]] + CollapseSpaces(s[1..]);
      }
    }
  }

  /** Collapsing whitespace keeps every character of a class that excludes
      whitespace, in order. */
  lemma {:induction false} CollapseKeeps(s: string, p: char -> bool)
    requires forall c :: p(c) ==> !IsSpace(c)
    ensures Filter(CollapseSpaces(s), p) == Filter(s, p)
    decreases |s|
  {
    if s != [] {
      if IsSpace(s[0]) {
        var rest := TrimStart(s, IsSpace);
        CollapseKeeps(rest, p);
        TrimStartKeepsFiltered(s, IsSpace, p);
        FilterAppend([' '], CollapseSpaces(rest), p);
        assert Filter([' '], p) == [] + Filter([], p);
      } else {
        CollapseKeeps(s[1..], p);
        assert s == [s[0]] + s[1..];
        FilterAppend([s[0]], s[1..], p);
        FilterAppend([s[0]], CollapseSpaces(s[1..]), p);
      }
    }
  }

  /** Collapsing whitespace introduces only spaces. */
  lemma {:induction false} CollapseChars(s: string, p: char -> bool)
    requires forall i :: 0 <= i < |s| ==> p(s[i]) || IsSpace(s[i])
    ensures forall i :: 0 <= i < |CollapseSpaces(s)| ==>
              p(CollapseSpaces(s)[i]) || CollapseSpaces(s)[i] == ' '
    decreases |s|
  {
    if s != [] {
      if IsSpace(s[0]) {
        var rest := TrimStart(s, IsSpace);
        assert forall i :: 0 <= i < |rest| ==> rest[i] == s[|s| - |rest| + i];
        CollapseChars(rest, p);
        assert CollapseSpaces(s) == [' '] + CollapseSpaces(rest);
      } else {
        CollapseChars(s[1..], p);
        assert CollapseSpaces(s) == [s[0]] + CollapseSpaces(s[1..]);
      }
    }
  }

  /** A string that collapsing has nothing to do on. */
  lemma {:induction false} CollapseNone(s: string)
    requires forall i :: 0 <= i < |s| ==> !IsSpace(s[i])
    ensures CollapseSpaces(s) == s
    decreases |s|
  {
    if s != [] {
      CollapseNone(s[1..]);
      assert s == [s[0]] + s[1..];
    }
  }

  /** Dropping a prefix of dropped characters does not change the trim. */
  lemma {:induction false} TrimStartSkip(w: string, b: string, drop: char -> bool)
    requires forall i :: 0 <= i < |w| ==> drop(w[i])
    ensures TrimStart(w + b, drop) == TrimStart(b, drop)
    decreases |w|
  {
    if w != [] {
      assert (w + b)[0] == w[0] && (w + b)[1..] == w[1..] + b;
      TrimStartSkip(w[1..], b, drop);
    } else {
      assert w + b == b;
    }
  }

  /** Trimming the start of `a + b` stops inside `a` when `a` holds a kept
      character. */
  lemma {:induction false} TrimStartStops(a: string, b: string, drop: char -> bool)
    requires a != [] && !drop(a[|a| - 1])
    ensures TrimStart(a + b, drop) == TrimStart(a, drop) + b
    decreases |a|
  {
    if drop(a[0]) {
      assert (a + b)[1..] == a[1..] + b;
      TrimStartStops(a[1..], b, drop);
    }
  }

  /** A non-empty whitespace run at the front becomes one space, and the
      text after the run is collapsed on its own. */
  lemma CollapseRun(w: string, b: string)
    requires w != [] && forall i :: 0 <= i < |w| ==> IsSpace(w[i])
    ensures CollapseSpaces(w + b) == " " + CollapseSpaces(TrimStart(b, IsSpace))
  {
    TrimStartSkip(w, b, IsSpace);
  }

  /** Collapsing works piece by piece across a cut that does not fall inside
      a whitespace run, so no space moves and no non-space character is
      lost. */
  lemma {:induction false} CollapseAppend(a: string, b: string)
    requires a == [] || !IsSpace(a[|a| - 1])
    ensures CollapseSpaces(a + b) == CollapseSpaces(a) + CollapseSpaces(b)
    decreases |a|, 1
  {
    if a == [] {
      assert a + b == b;
    } else if IsSpace(a[0]) {
      CollapseAppendSpace(a, b);
    } else {
      CollapseAppendChar(a, b);
    }
  }

  /** `CollapseAppend` for an `a` that starts with whitespace: by induction
      on what follows the run. */
  lemma {:induction false} CollapseAppendSpace(a: string, b: string)
    requires a != [] && IsSpace(a[0]) && !IsSpace(a[|a| - 1])
    ensures CollapseSpaces(a + b) == CollapseSpaces(a) + CollapseSpaces(b)
    decreases |a|, 0
  {
    var rest := TrimStart(a, IsSpace);
    assert rest != [] && rest[|rest| - 1] == a[|a| - 1] && |rest| < |a| by {
      TrimStartKeepsLast(a);
    }
    CollapseAppend(rest, b);
    CollapseRunAppend(a, rest, b);
  }

  /** `CollapseAppend` for an `a` that starts with another character: by
      induction on `a[1..]`. */
  lemma {:induction false} CollapseAppendChar(a: string, b: string)
    requires a != [] && !IsSpace(a[0]) && !IsSpace(a[|a| - 1])
    ensures CollapseSpaces(a + b) == CollapseSpaces(a) + CollapseSpaces(b)
    decreases |a|, 0
  {
    CollapseAppend(a[1..], b);
    CollapseCharAppend(a, b);
  }

  /** The step of `CollapseAppend` at a leading non-space character. */
  lemma CollapseCharAppend(a: string, b: string)
    requires a != [] && !IsSpace(a[0])
    requires CollapseSpaces(a[1..] + b) == CollapseSpaces(a[1..]) + CollapseSpaces(b)
    ensures CollapseSpaces(a + b) == CollapseSpaces(a) + CollapseSpaces(b)
  {
    CollapseCharStep(a, b);
    CollapseCharHead(a);
    RunJoinChar(a[0], CollapseSpaces(a + b), CollapseSpaces(a[1..] + b), CollapseSpaces(a),
                CollapseSpaces(a[1..]), CollapseSpaces(b));
  }

  lemma CollapseCharStep(a: string, b: string)
    requires a != [] && !IsSpace(a[0])
    ensures CollapseSpaces(a + b) == [a[0]] + CollapseSpaces(a[1..] + b)
  {
    var ab := a + b;
    assert ab[0] == a[0] && ab[1..] == a[1..] + b;
    CollapseCharHead(ab);
  }

  /** Unfolding the collapse at a leading non-space character. */
  lemma CollapseCharHead(s: string)
    requires s != [] && !IsSpace(s[0])
    ensures CollapseSpaces(s) == [s[0]] + CollapseSpaces(s[1..])
  {
  }

  lemma RunJoinChar(c: char, ab: string, rb: string, a: string, r: string, b: string)
    requires rb == r + b && ab == [c] + rb && a == [c] + r
    ensures ab == a + b
  {
  }

  /** Trimming leading whitespace off a string that starts with one and ends
      with a non-space character keeps that last character. */
  lemma TrimStartKeepsLast(a: string)
    requires a != [] && IsSpace(a[0]) && !IsSpace(a[|a| - 1])
    ensures var rest := TrimStart(a, IsSpace);
      rest != [] && rest[|rest| - 1] == a[|a| - 1] && |rest| < |a|
  {
  }

  /** The step of `CollapseAppend` at a leading whitespace run `a`, whose
      remainder after the run is `rest`. */
  lemma CollapseRunAppend(a: string, rest: string, b: string)
    requires a != [] && IsSpace(a[0]) && !IsSpace(a[|a| - 1])
    requires rest == TrimStart(a, IsSpace)
    requires CollapseSpaces(rest + b) == CollapseSpaces(rest) + CollapseSpaces(b)
    ensures CollapseSpaces(a + b) == CollapseSpaces(a) + CollapseSpaces(b)
  {
    CollapseHeadAppend(a, rest, b);
    CollapseSpaceHead(a);
    RunJoin(CollapseSpaces(a + b), CollapseSpaces(rest + b), CollapseSpaces(a),
            CollapseSpaces(rest), CollapseSpaces(b));
  }

  /** The string algebra of `CollapseRunAppend`, kept apart from the
      recursive definitions. */
  lemma RunJoin(ab: string, rb: string, a: string, r: string, b: string)
    requires rb == r + b && ab == [' '] + rb && a == [' '] + r
    ensures ab == a + b
  {
  }

  lemma CollapseHeadAppend(a: string, rest: string, b: string)
    requires a != [] && IsSpace(a[0]) && !IsSpace(a[|a| - 1])
    requires rest == TrimStart(a, IsSpace)
    ensures CollapseSpaces(a + b) == [' '] + CollapseSpaces(rest + b)
  {
    var ab := a + b;
    assert ab[0] == a[0];
    TrimStartStops(a, b, IsSpace);
    CollapseSpaceHead(ab);
  }

  /** Unfolding the collapse at a leading whitespace character. */
  lemma CollapseSpaceHead(s: string)
    requires s != [] && IsSpace(s[0])
    ensures CollapseSpaces(s) == [' '] + CollapseSpaces(TrimStart(s, IsSpace))
  {
  }

  lemma {:induction false} CollapseLength(s: string)
    ensures |CollapseSpaces(s)| <= |s|
    decreases |s|
  {
    if s != [] {
      if IsSpace(s[0]) {
        CollapseLength(TrimStart(s, IsSpace));
      } else {
        CollapseLength(s[1..]);
      }
    }
  }

  /** Filtering keeps a string whose characters all pass. */
  lemma {:induction false} FilterAll(s: string, keep: char -> bool)
    requires forall i :: 0 <= i < |s| ==> keep(s[i])
    ensures Filter(s, keep) == s
  {
    if s != [] {
      FilterAll(s[1..], keep);
      assert s == [s[0]] + s[1..];
    }
  }

  lemma {:induction false} TrimStartPadded(pre: string, s: string, drop: char -> bool)
    requires forall i :: 0 <= i < |pre| ==> drop(pre[i])
    requires s != [] && !drop(s[0])
    ensures TrimStart(pre + s, drop) == s
  {
    if pre != [] {
      assert (pre + s)[1..] == pre[1..] + s;
      TrimStartPadded(pre[1..], s, drop);
    } else {
      assert pre + s == s;
    }
  }

  lemma {:induction false} TrimEndPadded(s: string, post: string, drop: char -> bool)
    requires forall i :: 0 <= i < |post| ==> drop(post[i])
    requires s != [] && !drop(s[|s| - 1])
    ensures TrimEnd(s + post, drop) == s
  {
    if post != [] {
      var p := post[..|post| - 1];
      assert (s + post)[..|s + post| - 1] == s + p;
      TrimEndPadded(s, p, drop);
    } else {
      assert s + post == s;
    }
  }

  /** `(pre + s + post).strip(chars)` is `s` when the padding is made of
      stripped characters and `s` neither starts nor ends with one. */
  lemma TrimPadded(pre: string, s: string, post: string, drop: char -> bool)
    requires forall i :: 0 <= i < |pre| ==> drop(pre[i])
    requires forall i :: 0 <= i < |post| ==> drop(post[i])
    requires s != [] && !drop(s[0]) && !drop(s[|s| - 1])
    ensures Trim(pre + s + post, drop) == s
  {
    assert pre + s + post == pre + (s + post);
    TrimStartPadded(pre, s + post, drop);
    TrimEndPadded(s, post, drop);
  }

  /** Trimming does nothing to a string whose ends are kept. */
  lemma TrimNone(s: string, drop: char -> bool)
    requires s != [] && !drop(s[0]) && !drop(s[|s| - 1])
    ensures Trim(s, drop) == s
  {
    TrimPadded([], s, [], drop);
    assert [] + s + [] == s;
  }

  /** Trimming a string made only of stripped characters leaves nothing. */
  lemma TrimAllDropped(s: string, drop: char -> bool)
    requires forall i :: 0 <= i < |s| ==> drop(s[i])
    ensures Trim(s, drop) == []
  {
  }
}
