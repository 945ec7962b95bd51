/** The curriculum-to-graph transformer of Capstone/capstone_knowledge_graph.py:
    week-number normalisation, concept slugs, the `WEEK_RE` marker, the
    line scanner of `extract_weeks_topics` (from the list of stripped,
    non-empty paragraph lines on) and the Cypher serialiser
    `generate_cypher`. The regular expressions are modelled directly as
    character-level functions on the ASCII range (`re.IGNORECASE`, `\b`, `\s`
    and `\d` included). */
module KnowledgeGraph {
  import opened Wrappers
  import opened Text

  function Min(a: int, b: int): int { if a < b then a else b }

  // ---------------------------------------------------------------------
  // normalize_week

  /** The keys of `WORD_TO_NUM`: `WeekWords[k]` stands for week `k + 1`. */
  const WeekWords: seq<string> :=
    ["ONE", "TWO", "THREE", "FOUR", "FIVE", "SIX", "SEVEN", "EIGHT", "NINE", "TEN"]

  /** `WORD_TO_NUM.get(token, -1)`. */
  function WordToNum(token: string): (n: int)
    ensures n == -1 <==> token !in WeekWords
    ensures n != -1 ==> 1 <= n <= 10 && WeekWords[n - 1] == token
  {
    if token == "ONE" then 1
    else if token == "TWO" then 2
    else if token == "THREE" then 3
    else if token == "FOUR" then 4
    else if token == "FIVE" then 5
    else if token == "SIX" then 6
    else if token == "SEVEN" then 7
    else if token == "EIGHT" then 8
    else if token == "NINE" then 9
    else if token == "TEN" then 10
    else -1
  }

  /** `normalize_week`: strip, upper-case, then read a numeral or a spelled-out
      number; anything else is -1. */
  function NormalizeWeek(token: string): (n: int)
    ensures n >= -1
    ensures n == -1 <==>
      (Strip(token) == [] || !AllDigits(Strip(token))) && Upper(Strip(token)) !in WeekWords
  {
    var t := Upper(Strip(token));
    UpperAllDigits(Strip(token));
    if t != [] && AllDigits(t) then ParseDigits(t) else WordToNum(t)
  }

  lemma UpperDigits(s: string)
    requires AllDigits(s)
    ensures Upper(s) == s
  {
  }

  /** A numeral, with any whitespace around it, reads as its value. */
  lemma NormalizeNumeral(n: nat, pre: string, post: string)
    requires forall i :: 0 <= i < |pre| ==> IsSpace(pre[i])
    requires forall i :: 0 <= i < |post| ==> IsSpace(post[i])
    ensures NormalizeWeek(pre + NatToString(n) + post) == n
  {
    var d := NatToString(n);
    TrimPadded(pre, d, post, IsSpace);
    UpperDigits(d);
  }

  lemma WordNumbers(k: nat)
    requires k < |WeekWords|
    ensures WordToNum(WeekWords[k]) == k + 1
  {
  }

  lemma SpelledIsLetters(k: nat, w: string)
    requires k < |WeekWords| && Upper(w) == WeekWords[k]
    ensures w != [] && !IsSpace(w[0]) && !IsSpace(w[|w| - 1])
    ensures !AllDigits(Upper(w))
  {
    assert Upper(w)[0] == ToUpper(w[0]);
    assert Upper(w)[|w| - 1] == ToUpper(w[|w| - 1]);
    assert WeekWords[k][0] != ' ';
  }

  /** A spelled-out week number in any letter case, with any whitespace
      around it, reads as its number. */
  lemma NormalizeWord(k: nat, w: string, pre: string, post: string)
    requires k < |WeekWords| && Upper(w) == WeekWords[k]
    requires forall i :: 0 <= i < |pre| ==> IsSpace(pre[i])
    requires forall i :: 0 <= i < |post| ==> IsSpace(post[i])
    ensures NormalizeWeek(pre + w + post) == k + 1
  {
    SpelledIsLetters(k, w);
    TrimPadded(pre, w, post, IsSpace);
    WordNumbers(k);
  }

  // ---------------------------------------------------------------------
  // slug

  /** The characters `[a-z0-9\s_]` that survive the first substitution. */
  predicate SlugKeep(c: char) { IsLower(c) || IsDigit(c) || IsSpace(c) || c == '_' }

  /** The alphabet of a slug. */
  predicate SlugChar(c: char) { IsLower(c) || IsDigit(c) || c == '_' }

  /** `re.sub(r"\s+", "_", s)`: every maximal run of whitespace becomes `_`. */
  function RunsToUnderscores(s: string): (r: string)
    ensures |r| == |CollapseSpaces(s)|
    ensures forall i :: 0 <= i < |r| ==>
      r[i] == (if CollapseSpaces(s)[i] == ' ' then '_' else CollapseSpaces(s)[i])
  {
    var c := CollapseSpaces(s);
    seq(|c|, i requires 0 <= i < |c| => if c[i] == ' ' then '_' else c[i])
  }

  /** The slug before the length cut: `[a-z0-9\s_]` kept from the lower-cased
      input, whitespace runs turned into `_`, `_` stripped at both ends. */
  function SlugBody(s: string): (r: string)
    ensures forall i :: 0 <= i < |r| ==> SlugChar(r[i])
    ensures r != [] ==> r[0] != '_' && r[|r| - 1] != '_'
  {
    var kept := Filter(Lower(s), SlugKeep);
    var joined := RunsToUnderscores(kept);
    SlugAlphabet(kept);
    TrimKeepsClass(joined, IsUnderscore, SlugChar);
    Trim(joined, IsUnderscore)
  }

  const Unknown: string := "unknown"

  lemma UnknownIsSlug()
    ensures forall i :: 0 <= i < |Unknown| ==> SlugChar(Unknown[i])
  {
  }

  /** `slug`: lower-case, drop everything but `[a-z0-9\s_]`, turn whitespace
      runs into `_`, strip `_` at both ends, keep at most 80 characters, and
      fall back to "unknown" when nothing is left. */
  function Slug(s: string): (r: string)
    ensures r != [] && |r| <= 80
    ensures forall i :: 0 <= i < |r| ==> SlugChar(r[i])
    ensures r[0] != '_'
  {
    Cut(SlugBody(s))
  }

  /** The length cut and the fallback: at most 80 characters of the body, or
      "unknown" when the body is empty. */
  function Cut(body: string): (r: string)
    requires forall i :: 0 <= i < |body| ==> SlugChar(body[i])
    requires body != [] ==> body[0] != '_'
    ensures r != [] && |r| <= 80
    ensures forall i :: 0 <= i < |r| ==> SlugChar(r[i])
    ensures r[0] != '_'
    ensures body != [] ==> r == body[..Min(80, |body|)]
    ensures body == [] ==> r == Unknown
  {
    if body == [] then
      UnknownIsSlug();
      Unknown
    else
      body[..Min(80, |body|)]
  }

  lemma SlugAlphabet(kept: string)
    requires forall i :: 0 <= i < |kept| ==> SlugKeep(kept[i])
    ensures forall i :: 0 <= i < |RunsToUnderscores(kept)| ==> SlugChar(RunsToUnderscores(kept)[i])
  {
    CollapseChars(kept, SlugChar);
  }

  lemma RunsFixed(s: string)
    requires forall i :: 0 <= i < |s| ==> SlugChar(s[i])
    ensures RunsToUnderscores(s) == s
  {
    CollapseNone(s);
  }

  lemma SlugBodyFixed(s: string)
    requires s != []
    requires forall i :: 0 <= i < |s| ==> SlugChar(s[i])
    requires s[0] != '_' && s[|s| - 1] != '_'
    ensures SlugBody(s) == s
  {
    LowerFixed(s);
    FilterAll(s, SlugKeep);
    RunsFixed(s);
    TrimNone(s, IsUnderscore);
  }

  /** A string that is already a short slug is its own slug. */
  lemma SlugFixed(s: string)
    requires s != [] && |s| <= 80
    requires forall i :: 0 <= i < |s| ==> SlugChar(s[i])
    requires s[0] != '_' && s[|s| - 1] != '_'
    ensures Slug(s) == s
  {
    SlugBodyFixed(s);
    assert Min(80, |s|) == |s|;
    assert s[..|s|] == s;
  }

  lemma LowerFixed(s: string)
    requires forall i :: 0 <= i < |s| ==> !IsUpper(s[i])
    ensures Lower(s) == s
  {
  }

  /** A string without letters or digits has the slug "unknown". */
  lemma SlugUnknown(s: string)
    requires forall i :: 0 <= i < |s| ==> !IsAlnum(s[i])
    ensures Slug(s) == "unknown"
  {
    var kept := Filter(Lower(s), SlugKeep);
    FilterKeepsClass(Lower(s), SlugKeep, c => !IsAlnum(c));
    CollapseChars(kept, IsUnderscore);
    TrimAllDropped(RunsToUnderscores(kept), IsUnderscore);
  }

  lemma SlugBodyKeepsWords(s: string)
    ensures Filter(SlugBody(s), LowerOrDigit) == Filter(Lower(s), LowerOrDigit)
  {
    var kept := Filter(Lower(s), SlugKeep);
    var joined := RunsToUnderscores(kept);
    FilterFilter(Lower(s), SlugKeep, LowerOrDigit);
    CollapseKeeps(kept, LowerOrDigit);
    UnderscoresKeep(kept);
    TrimKeepsFiltered(joined, IsUnderscore, LowerOrDigit);
  }

  lemma SlugBodyLength(s: string)
    ensures |SlugBody(s)| <= |s|
  {
    CollapseLength(Filter(Lower(s), SlugKeep));
  }

  /** For an input of at most 80 characters, the slug keeps every letter
      (lower-cased) and digit of the input, in order, and only those. */
  lemma SlugKeepsWords(s: string)
    requires |s| <= 80
    requires Filter(Lower(s), LowerOrDigit) != []
    ensures Filter(Slug(s), LowerOrDigit) == Filter(Lower(s), LowerOrDigit)
  {
    var body := SlugBody(s);
    SlugBodyKeepsWords(s);
    SlugBodyLength(s);
    assert body[..|body|] == body;
  }

  lemma {:induction false} UnderscoreFilter(c: string)
    ensures Filter(seq(|c|, i requires 0 <= i < |c| => if c[i] == ' ' then '_' else c[i]), LowerOrDigit)
            == Filter(c, LowerOrDigit)
  {
    var u := seq(|c|, i requires 0 <= i < |c| => if c[i] == ' ' then '_' else c[i]);
    if c != [] {
      UnderscoreFilter(c[1..]);
      var u1 := seq(|c[1..]|, i requires 0 <= i < |c[1..]| => if c[1..][i] == ' ' then '_' else c[1..][i]);
      assert u[1..] == u1;
    }
  }

  lemma UnderscoresKeep(kept: string)
    ensures Filter(RunsToUnderscores(kept), LowerOrDigit) == Filter(CollapseSpaces(kept), LowerOrDigit)
  {
    var c := CollapseSpaces(kept);
    UnderscoreFilter(c);
    assert RunsToUnderscores(kept) ==
      seq(|c|, i requires 0 <= i < |c| => if c[i] == ' ' then '_' else c[i]);
  }

  // ---------------------------------------------------------------------
  // WEEK_RE = \bWEEK\s*(ONE|TWO|...|TEN|\d+)\b, case-insensitive

  /** The regex `\b` at position `p`: a word character on exactly one side. */
  predicate Boundary(s: string, p: nat)
    requires p <= |s|
  {
    (p > 0 && IsWordChar(s[p - 1])) != (p < |s| && IsWordChar(s[p]))
  }

  /** `s[p..]` starts with the upper-case word `w`, compared ignoring case. */
  predicate WordAt(s: string, p: nat, w: string)
    requires p <= |s|
  {
    p + |w| <= |s| && Upper(s[p..p + |w|]) == w
  }

  /** The end of the run of characters satisfying `c` that starts at `q`. */
  function RunEnd(s: string, q: nat, c: char -> bool): (e: nat)
    requires q <= |s|
    ensures q <= e <= |s|
    ensures forall k :: q <= k < e ==> c(s[k])
    ensures e == |s| || !c(s[e])
    decreases |s| - q
  {
    if q == |s| || !c(s[q]) then q else RunEnd(s, q + 1, c)
  }

  /** The first of the spelled-out alternatives `WeekWords[k..]` that matches
      at `q` and is followed by `\b`; the end of its match. */
  function SpelledFrom(s: string, q: nat, k: nat): (r: Option<nat>)
    requires q <= |s| && k <= |WeekWords|
    ensures r.Some? ==> q < r.value <= |s| && Upper(s[q..r.value]) in WeekWords[k..]
    ensures r.Some? ==> Boundary(s, r.value)
    decreases |WeekWords| - k
  {
    if k == |WeekWords| then None
    else
      var w := WeekWords[k];
      if WordAt(s, q, w) && Boundary(s, q + |w|) then Some(q + |w|)
      else SpelledFrom(s, q, k + 1)
  }

  /** One match of `WEEK_RE` attempted at position `p`: the end of the match
      and the text of its group. `\s*` and `\d+` can only succeed with their
      longest runs, because a shorter whitespace run is followed by whitespace
      (no alternative starts with it) and a shorter digit run is followed by a
      digit (no `\b` there). */
  datatype Marker = Marker(start: nat, end: nat, token: string)

  function MarkerAt(s: string, p: nat): (r: Option<Marker>)
    requires p <= |s|
    ensures r.Some? ==> r.value.start == p && p + 4 < r.value.end <= |s|
    ensures r.Some? ==> r.value.token != []
    ensures r.Some? ==> AllDigits(r.value.token) || Upper(r.value.token) in WeekWords
    ensures r.Some? ==> WordAt(s, p, "WEEK")
    ensures r.Some? ==> Boundary(s, p) && Boundary(s, r.value.end)
  {
    if !Boundary(s, p) || !WordAt(s, p, "WEEK") then None
    else
      var q := RunEnd(s, p + 4, IsSpace);
      match SpelledFrom(s, q, 0)
      case Some(e) => Some(Marker(p, e, s[q..e]))
      case None =>
        var e := RunEnd(s, q, IsDigit);
        if e > q && Boundary(s, e) then Some(Marker(p, e, s[q..e])) else None
  }

  /** A spelled-out alternative `WeekWords[k]` that matches at `q` and ends
      at `\b` is found by the scan that starts at any earlier alternative. */
  lemma {:induction false} SpelledFound(s: string, q: nat, k0: nat, k: nat)
    requires q <= |s| && k0 <= k < |WeekWords|
    requires WordAt(s, q, WeekWords[k]) && Boundary(s, q + |WeekWords[k]|)
    ensures SpelledFrom(s, q, k0).Some?
    decreases k - k0
  {
    if k0 < k && SpelledFrom(s, q, k0 + 1).None? {
      SpelledFound(s, q, k0 + 1, k);
    }
  }

  /** Every occurrence of `WEEK_RE` at `p` is found by the match attempt
      there: `WEEK` after a `\b`, any run of whitespace, then one of the
      spelled-out numbers or a run of digits, ending at a `\b`. */
  lemma MarkerComplete(s: string, p: nat, q: nat, e: nat)
    requires p + 4 <= q <= e <= |s|
    requires Boundary(s, p) && WordAt(s, p, "WEEK")
    requires forall k :: p + 4 <= k < q ==> IsSpace(s[k])
    requires Upper(s[q..e]) in WeekWords || (e > q && AllDigits(s[q..e]))
    requires Boundary(s, e)
    ensures MarkerAt(s, p).Some?
  {
    var r := RunEnd(s, p + 4, IsSpace);
    assert e > q;
    assert !IsSpace(s[q]) by {
      assert Upper(s[q..e])[0] == ToUpper(s[q]);
    }
    assert q == r;
    if Upper(s[q..e]) in WeekWords {
      var k :| 0 <= k < |WeekWords| && WeekWords[k] == Upper(s[q..e]);
      SpelledFound(s, q, 0, k);
    } else if SpelledFrom(s, q, 0).None? {
      var d := RunEnd(s, q, IsDigit);
      assert forall k :: q <= k < e ==> IsDigit(s[k]) by {
        forall k | q <= k < e ensures IsDigit(s[k]) { assert s[q..e][k - q] == s[k]; }
      }
      assert d == e;
    }
  }

  /** The first position `q` in `p..n` where `f(q)` is present, or `n + 1`
      when there is none. */
  function FirstAt<T>(f: nat -> Option<T>, p: nat, n: nat): (q: nat)
    ensures p <= q <= n + 1 || (p > n && q == p)
    ensures forall k :: p <= k < q && k <= n ==> f(k).None?
    ensures q <= n ==> f(q).Some?
    decreases n + 1 - p
  {
    if p > n || f(p).Some? then p else FirstAt(f, p + 1, n)
  }

  /** The match attempts of `WEEK_RE` at each position of `s`. */
  function Attempts(s: string): nat -> Option<Marker> {
    (k: nat) => if k <= |s| then MarkerAt(s, k) else None
  }

  /** `WEEK_RE.search(s)`: the leftmost match, if any. */
  function Search(s: string): Option<Marker> {
    var q := FirstAt(Attempts(s), 0, |s|);
    if q <= |s| then MarkerAt(s, q) else None
  }

  /** The search finds nothing exactly when no position starts a match, and
      otherwise the match at the leftmost position that starts one. */
  lemma SearchLeftmost(s: string)
    ensures Search(s).None? <==> forall q :: 0 <= q <= |s| ==> MarkerAt(s, q).None?
    ensures Search(s).Some? ==>
              var m := Search(s).value;
              m.start <= |s| && MarkerAt(s, m.start) == Some(m) &&
              forall q :: 0 <= q < m.start ==> MarkerAt(s, q).None?
  {
    var q := FirstAt(Attempts(s), 0, |s|);
    forall k | 0 <= k < q && k <= |s| ensures MarkerAt(s, k).None? {
      assert Attempts(s)(k).None?;
    }
    if q <= |s| {
      assert Attempts(s)(q).Some?;
    }
  }

  /** `re.sub(WEEK_RE.pattern, "", s)` from position `p` on: every match,
      scanning left to right and resuming after each, is deleted. */
  function RemoveMarkersFrom(s: string, p: nat): (r: string)
    requires p <= |s|
    ensures |r| <= |s| - p
    decreases |s| - p
  {
    if p == |s| then []
    else match MarkerAt(s, p)
      case Some(m) => RemoveMarkersFrom(s, m.end)
      case None => [s[p]] + RemoveMarkersFrom(s, p + 1)
  }

  function RemoveMarkers(s: string): string {
    RemoveMarkersFrom(s, 0)
  }

  lemma {:induction false} NoMarkerFromKeeps(s: string, p: nat)
    requires p <= |s|
    requires forall q :: p <= q <= |s| ==> MarkerAt(s, q).None?
    ensures RemoveMarkersFrom(s, p) == s[p..]
    decreases |s| - p
  {
    if p < |s| {
      NoMarkerFromKeeps(s, p + 1);
      assert s[p..] == [s[p]] + s[p + 1..];
    }
  }

  /** A line without a WEEK marker is left as it is by the substitution. */
  lemma NoMarkerKeeps(s: string)
    requires Search(s).None?
    ensures RemoveMarkers(s) == s
  {
    SearchLeftmost(s);
    NoMarkerFromKeeps(s, 0);
  }

  // ---------------------------------------------------------------------
  // extract_weeks_topics, from the list of stripped non-empty lines on

  /** One entry of the result list: `{"week": week, "topic": topic}`. */
  datatype WeekTopic = WeekTopic(week: int, topic: string)

  /** The characters `" :-–—\t"` stripped around a topic. */
  predicate TopicPad(c: char) {
    c == ' ' || c == ':' || c == '-' || c == '\U{2013}' || c == '\U{2014}' || c == '\t'
  }

  /** The topic a WEEK line carries itself: the line with every marker
      removed, padding stripped at both ends. */
  function OwnTopic(line: string): string {
    Trim(RemoveMarkers(line), TopicPad)
  }

  /** Lines `j..k` were passed over by the look-ahead: none holds a WEEK
      marker and each is shorter than 3 characters. */
  ghost predicate PassedOver(lines: seq<string>, j: nat, k: nat)
    requires j <= k <= |lines|
    decreases k - j
  {
    j == k || (Search(lines[j]).None? && |lines[j]| < 3 && PassedOver(lines, j + 1, k))
  }

  /** The look-ahead over `lines[j..stop]`: the first line of at least 3
      characters, unless a line with a WEEK marker comes first. */
  function LookAhead(lines: seq<string>, j: nat, stop: nat): (t: string)
    requires j <= stop <= |lines|
    ensures t != [] ==> exists k :: j <= k < stop && PassedOver(lines, j, k) &&
                          Search(lines[k]).None? && |lines[k]| >= 3 && t == lines[k]
    ensures t == [] ==> forall k :: j <= k < stop && PassedOver(lines, j, k) ==>
                          Search(lines[k]).Some? || |lines[k]| < 3
    decreases stop - j
  {
    if j == stop then []
    else if Search(lines[j]).Some? then []
    else if |lines[j]| >= 3 then
      assert PassedOver(lines, j, j);
      lines[j]
    else LookAhead(lines, j + 1, stop)
  }

  /** The end of the look-ahead window after line `i`: at most 3 lines. */
  function Window(lines: seq<string>, i: nat): nat {
    Min(i + 4, |lines|)
  }

  /** The topic of the WEEK line `i`: its own, or else the looked-ahead one. */
  function LineTopic(lines: seq<string>, i: nat): string
    requires i < |lines|
  {
    var own := OwnTopic(lines[i]);
    if own != [] then own else LookAhead(lines, i + 1, Window(lines, i))
  }

  /** What the scan appends for line `i`, if anything: the week of the first
      marker, with the line's topic, when the week is positive and the topic
      non-empty. */
  function Entry(lines: seq<string>, i: nat): (r: Option<WeekTopic>)
    requires i < |lines|
    ensures r.Some? ==> r.value.week >= 1 && r.value.topic != []
  {
    match Search(lines[i])
    case None => None
    case Some(m) =>
      var week := NormalizeWeek(m.token);
      var topic := LineTopic(lines, i);
      if week > 0 && topic != [] then Some(WeekTopic(week, topic)) else None
  }

  /** The entry each line yields, in line order. */
  function Entries(lines: seq<string>): (r: seq<Option<WeekTopic>>)
    ensures |r| == |lines|
    ensures forall i :: 0 <= i < |lines| ==> r[i] == Entry(lines, i)
  {
    seq(|lines|, i requires 0 <= i < |lines| => Entry(lines, i))
  }

  lemma TakeSnoc<T>(s: seq<T>, i: nat)
    requires i < |s|
    ensures s[..i + 1] == s[..i] + [s[i]]
  {
  }

  /** The present values of `os`, in order. */
  function Somes(os: seq<Option<WeekTopic>>): (r: seq<WeekTopic>)
    ensures |r| <= |os|
  {
    if os == [] then []
    else Somes(os[..|os| - 1]) + (if os[|os| - 1].Some? then [os[|os| - 1].value] else [])
  }

  lemma SomesSnoc(os: seq<Option<WeekTopic>>, o: Option<WeekTopic>)
    ensures Somes(os + [o]) == Somes(os) + (if o.Some? then [o.value] else [])
  {
    assert (os + [o])[..|os|] == os;
  }

  /** The present values are exactly the values present somewhere. */
  lemma {:induction false} SomesMembers(os: seq<Option<WeekTopic>>)
    ensures forall x :: x in Somes(os) <==> exists k :: 0 <= k < |os| && os[k] == Some(x)
  {
    if os != [] {
      var init := os[..|os| - 1];
      SomesMembers(init);
      forall x ensures x in Somes(os) <==> exists k :: 0 <= k < |os| && os[k] == Some(x) {
        if x in Somes(init) {
          var k :| 0 <= k < |init| && init[k] == Some(x);
          assert os[k] == Some(x);
        } else if os[|os| - 1] == Some(x) {
          assert x in Somes(os);
        }
        if exists k :: 0 <= k < |os| && os[k] == Some(x) {
          var k :| 0 <= k < |os| && os[k] == Some(x);
          if k < |init| { assert init[k] == Some(x); }
        }
      }
    }
  }

  /** The `results` list: the entries of all lines, in line order. */
  function Results(lines: seq<string>): seq<WeekTopic> {
    Somes(Entries(lines))
  }

  /** The set of weeks of a list of entries. */
  function Weeks(rs: seq<WeekTopic>): (r: set<int>)
    ensures forall i :: 0 <= i < |rs| ==> rs[i].week in r
    ensures forall w :: w in r ==> exists i :: 0 <= i < |rs| && rs[i].week == w
  {
    if rs == [] then {} else Weeks(rs[..|rs| - 1]) + {rs[|rs| - 1].week}
  }

  predicate DistinctWeeks(rs: seq<WeekTopic>) {
    forall i, j :: 0 <= i < j < |rs| ==> rs[i].week != rs[j].week
  }

  predicate Ascending(rs: seq<WeekTopic>) {
    forall i, j :: 0 <= i < j < |rs| ==> rs[i].week < rs[j].week
  }

  /** The de-duplication loop: an entry is kept when no earlier entry had
      its week. */
  function KeepFirst(rs: seq<WeekTopic>): (r: seq<WeekTopic>)
    ensures forall e :: e in r ==> e in rs
    ensures Weeks(r) == Weeks(rs)
    ensures DistinctWeeks(r)
  {
    if rs == [] then []
    else
      var init := rs[..|rs| - 1];
      var last := rs[|rs| - 1];
      var kept := KeepFirst(init);
      if last.week in Weeks(init) then kept
      else
        KeepFirstStep(kept, last, init);
        kept + [last]
  }

  lemma KeepFirstStep(kept: seq<WeekTopic>, last: WeekTopic, init: seq<WeekTopic>)
    requires DistinctWeeks(kept) && Weeks(kept) == Weeks(init) && last.week !in Weeks(init)
    ensures DistinctWeeks(kept + [last])
    ensures Weeks(kept + [last]) == Weeks(init) + {last.week}
  {
    assert (kept + [last])[..|kept|] == kept;
  }

  lemma KeepFirstSnoc(rs: seq<WeekTopic>, x: WeekTopic)
    ensures Weeks(rs + [x]) == Weeks(rs) + {x.week}
    ensures KeepFirst(rs + [x]) == if x.week in Weeks(rs) then KeepFirst(rs) else KeepFirst(rs) + [x]
  {
    assert (rs + [x])[..|rs|] == rs;
  }

  /** For each week, the kept entry is the one of the earliest line with
      that week. */
  ghost predicate EarliestKept(os: seq<Option<WeekTopic>>, kept: seq<WeekTopic>) {
    forall e, k :: e in kept && 0 <= k < |os| && os[k].Some? && os[k].value.week == e.week ==>
      exists l :: 0 <= l <= k && os[l] == Some(e)
  }

  /** What the kept list gains from one more line. */
  lemma KeptSnoc(init: seq<Option<WeekTopic>>, o: Option<WeekTopic>)
    ensures forall e :: e in KeepFirst(Somes(init + [o])) ==>
              e in KeepFirst(Somes(init)) || (o.Some? && e == o.value && e.week !in Weeks(Somes(init)))
  {
    SomesSnoc(init, o);
    if o.Some? {
      KeepFirstSnoc(Somes(init), o.value);
    } else {
      assert Somes(init) + [] == Somes(init);
    }
  }

  lemma EarliestWitness(os: seq<Option<WeekTopic>>, kept: seq<WeekTopic>, e: WeekTopic, k: nat)
    returns (l: nat)
    requires EarliestKept(os, kept)
    requires e in kept && k < |os| && os[k].Some? && os[k].value.week == e.week
    ensures l <= k && os[l] == Some(e)
  {
    l :| 0 <= l <= k && os[l] == Some(e);
  }

  lemma SomesWitness(os: seq<Option<WeekTopic>>, e: WeekTopic) returns (l: nat)
    requires e in Somes(os)
    ensures l < |os| && os[l] == Some(e)
  {
    SomesMembers(os);
    l :| 0 <= l < |os| && os[l] == Some(e);
  }

  lemma SomesHas(os: seq<Option<WeekTopic>>, k: nat)
    requires k < |os| && os[k].Some?
    ensures os[k].value in Somes(os)
  {
    SomesMembers(os);
  }

  lemma EarliestStep(init: seq<Option<WeekTopic>>, o: Option<WeekTopic>, e: WeekTopic, k: nat)
    returns (l: nat)
    requires EarliestKept(init, KeepFirst(Somes(init)))
    requires e in KeepFirst(Somes(init)) ||
             (o.Some? && e == o.value && e.week !in Weeks(Somes(init)))
    requires k < |init + [o]| && (init + [o])[k].Some? && (init + [o])[k].value.week == e.week
    ensures l <= k && (init + [o])[l] == Some(e)
  {
    var os := init + [o];
    if e in KeepFirst(Somes(init)) {
      if k < |init| {
        assert init[k] == os[k];
        l := EarliestWitness(init, KeepFirst(Somes(init)), e, k);
      } else {
        l := SomesWitness(init, e);
      }
      assert init[l] == os[l];
    } else if k < |init| {
      assert init[k] == os[k];
      SomesHas(init, k);
      l := k;
    } else {
      l := k;
    }
  }

  lemma {:induction false} KeepFirstEarliest(os: seq<Option<WeekTopic>>)
    ensures EarliestKept(os, KeepFirst(Somes(os)))
  {
    if os != [] {
      var init := os[..|os| - 1];
      var o := os[|os| - 1];
      assert os == init + [o];
      KeepFirstEarliest(init);
      KeptSnoc(init, o);
      forall e, k | e in KeepFirst(Somes(os)) && 0 <= k < |os| && os[k].Some? && os[k].value.week == e.week
        ensures exists l :: 0 <= l <= k && os[l] == Some(e)
      {
        var l := EarliestStep(init, o, e, k);
      }
    }
  }

  /** `list.sort(key=week)`: a stable insertion. */
  function Insert(x: WeekTopic, ys: seq<WeekTopic>): (r: seq<WeekTopic>)
    ensures multiset(r) == multiset(ys) + multiset{x}
    ensures Ascending(ys) && x.week !in Weeks(ys) ==> Ascending(r)
  {
    if ys == [] || x.week <= ys[0].week then
      InsertFront(x, ys);
      [x] + ys
    else
      var rest := Insert(x, ys[1..]);
      InsertAscending(x, ys, rest);
      [ys[0]] + rest
  }

  lemma InsertFront(x: WeekTopic, ys: seq<WeekTopic>)
    requires ys == [] || x.week <= ys[0].week
    ensures multiset([x] + ys) == multiset(ys) + multiset{x}
    ensures Ascending(ys) && x.week !in Weeks(ys) ==> Ascending([x] + ys)
  {
    if Ascending(ys) && x.week !in Weeks(ys) {
      FrontAscending(x, ys);
    }
  }

  lemma FrontAscending(x: WeekTopic, ys: seq<WeekTopic>)
    requires ys == [] || x.week <= ys[0].week
    requires Ascending(ys)
    requires forall i :: 0 <= i < |ys| ==> ys[i].week != x.week
    ensures Ascending([x] + ys)
  {
    var r := [x] + ys;
    forall i, j | 0 <= i < j < |r|
      ensures r[i].week < r[j].week
    {
      assert r[j] == ys[j - 1];
      if i > 0 {
        assert r[i] == ys[i - 1];
      }
    }
  }

  lemma TailWeeks(x: WeekTopic, ys: seq<WeekTopic>)
    requires ys != [] && x.week !in Weeks(ys)
    ensures x.week !in Weeks(ys[1..])
  {
    forall i | 0 <= i < |ys[1..]| ensures ys[1..][i].week != x.week {
      assert ys[1..][i] == ys[i + 1];
    }
  }

  lemma InsertAbove(x: WeekTopic, ys: seq<WeekTopic>, rest: seq<WeekTopic>)
    requires ys != [] && x.week > ys[0].week && Ascending(ys)
    requires multiset(rest) == multiset(ys[1..]) + multiset{x}
    ensures forall e :: e in rest ==> ys[0].week < e.week
  {
    forall e | e in rest ensures ys[0].week < e.week {
      assert e in multiset(rest);
      if e != x {
        assert e in multiset(ys[1..]);
        var i :| 0 <= i < |ys[1..]| && ys[1..][i] == e;
        assert ys[i + 1] == e;
      }
    }
  }

  lemma ConsAscending(y: WeekTopic, rest: seq<WeekTopic>)
    requires Ascending(rest)
    requires forall e :: e in rest ==> y.week < e.week
    ensures Ascending([y] + rest)
  {
    forall i, j | 0 <= i < j < |[y] + rest|
      ensures ([y] + rest)[i].week < ([y] + rest)[j].week
    {
      if i == 0 { assert ([y] + rest)[j] in rest; }
    }
  }

  lemma InsertAscending(x: WeekTopic, ys: seq<WeekTopic>, rest: seq<WeekTopic>)
    requires ys != [] && x.week > ys[0].week
    requires multiset(rest) == multiset(ys[1..]) + multiset{x}
    requires Ascending(ys[1..]) && x.week !in Weeks(ys[1..]) ==> Ascending(rest)
    ensures multiset([ys[0]] + rest) == multiset(ys) + multiset{x}
    ensures Ascending(ys) && x.week !in Weeks(ys) ==> Ascending([ys[0]] + rest)
  {
    assert ys == [ys[0]] + ys[1..];
    if Ascending(ys) && x.week !in Weeks(ys) {
      TailWeeks(x, ys);
      InsertAbove(x, ys, rest);
      ConsAscending(ys[0], rest);
    }
  }

  /** The sorted list: the same entries, ascending by week when the weeks
      are distinct. */
  function SortByWeek(xs: seq<WeekTopic>): (r: seq<WeekTopic>)
    ensures multiset(r) == multiset(xs)
    ensures DistinctWeeks(xs) ==> Ascending(r)
  {
    if xs == [] then []
    else
      var rest := SortByWeek(xs[1..]);
      SortStep(xs, rest);
      assert xs == [xs[0]] + xs[1..];
      Insert(xs[0], rest)
  }

  lemma SortStep(xs: seq<WeekTopic>, rest: seq<WeekTopic>)
    requires xs != [] && multiset(rest) == multiset(xs[1..])
    ensures DistinctWeeks(xs) ==> DistinctWeeks(xs[1..]) && xs[0].week !in Weeks(rest)
  {
    forall i | 0 <= i < |rest| ensures DistinctWeeks(xs) ==> rest[i].week != xs[0].week {
      assert rest[i] in multiset(xs[1..]);
      var j :| 0 <= j < |xs[1..]| && xs[1..][j] == rest[i];
      assert xs[j + 1] == rest[i];
    }
  }

  /** What `extract_weeks_topics` returns for the paragraph lines. */
  function Extracted(lines: seq<string>): seq<WeekTopic> {
    SortByWeek(KeepFirst(Results(lines)))
  }

  /** The look-ahead loop of lines 41-48. */
  method LookAheadScan(lines: seq<string>, i: nat) returns (topic: string)
    requires i < |lines|
    ensures topic == LookAhead(lines, i + 1, Window(lines, i))
  {
    topic := [];
    var stop := Window(lines, i);
    var j := i + 1;
    while j < stop
      invariant i + 1 <= j <= stop
      invariant LookAhead(lines, j, stop) == LookAhead(lines, i + 1, stop)
    {
      var cand := lines[j];
      if Search(cand).Some? {
        break;
      }
      if |cand| >= 3 {
        topic := cand;
        break;
      }
      j := j + 1;
    }
  }

  /** The `while` loop of `extract_weeks_topics`: one entry per WEEK line
      with a positive week and a topic, in line order. */
  method CollectEntries(lines: seq<string>) returns (results: seq<WeekTopic>)
    ensures results == Results(lines)
  {
    results := [];
    var i := 0;
    while i < |lines|
      invariant i <= |lines|
      invariant results == Somes(Entries(lines)[..i])
    {
      TakeSnoc(Entries(lines), i);
      SomesSnoc(Entries(lines)[..i], Entry(lines, i));
      var m := Search(lines[i]);
      if m.None? {
        i := i + 1;
        continue;
      }
      var weekNum := NormalizeWeek(m.value.token);
      var topic := OwnTopic(lines[i]);
      if topic == [] {
        topic := LookAheadScan(lines, i);
      }
      if weekNum > 0 && topic != [] {
        results := results + [WeekTopic(weekNum, topic)];
      }
      i := i + 1;
    }
    assert Entries(lines)[..|lines|] == Entries(lines);
  }

  /** `extract_weeks_topics` from the paragraph lines on: collect the
      entries, keep the first entry of each week, sort by week. */
  method ExtractWeeksTopics(lines: seq<string>) returns (clean: seq<WeekTopic>)
    ensures clean == Extracted(lines)
    ensures Ascending(clean)
    ensures forall k :: 0 <= k < |clean| ==> clean[k].week >= 1 && clean[k].topic != []
  {
    var results := CollectEntries(lines);
    var seen: set<int> := {};
    clean := [];
    for k := 0 to |results|
      invariant seen == Weeks(results[..k])
      invariant clean == KeepFirst(results[..k])
    {
      var r := results[k];
      TakeSnoc(results, k);
      KeepFirstSnoc(results[..k], r);
      if r.week in seen {
        continue;
      }
      seen := seen + {r.week};
      clean := clean + [r];
    }
    assert results[..|results|] == results;
    clean := SortByWeek(clean);
    ExtractedFacts(lines);
  }

  /** The result is ascending by week, with weeks of at least 1 and
      non-empty topics. */
  lemma ExtractedFacts(lines: seq<string>)
    ensures Ascending(Extracted(lines))
    ensures forall k :: 0 <= k < |Extracted(lines)| ==>
              Extracted(lines)[k].week >= 1 && Extracted(lines)[k].topic != []
  {
    var kept := KeepFirst(Results(lines));
    SomesMembers(Entries(lines));
    forall k | 0 <= k < |Extracted(lines)|
      ensures Extracted(lines)[k].week >= 1 && Extracted(lines)[k].topic != []
    {
      var e := Extracted(lines)[k];
      assert e in multiset(kept);
      assert e in Results(lines);
      var l :| 0 <= l < |lines| && Entries(lines)[l] == Some(e);
      assert Entry(lines, l) == Some(e);
    }
  }

  lemma ExtractedKept(lines: seq<string>, e: WeekTopic)
    requires e in Extracted(lines)
    ensures e in KeepFirst(Results(lines))
  {
    assert e in multiset(Extracted(lines));
  }

  /** Each returned entry is the entry of the earliest line with its week. */
  lemma ExtractedEarliest(lines: seq<string>)
    ensures forall e, k ::
              (e in Extracted(lines) && 0 <= k < |lines| &&
               Entry(lines, k).Some? && Entry(lines, k).value.week == e.week) ==>
              exists l :: 0 <= l <= k && Entry(lines, l) == Some(e)
  {
    var os := Entries(lines);
    KeepFirstEarliest(os);
    forall e, k | e in Extracted(lines) && 0 <= k < |lines| &&
        Entry(lines, k).Some? && Entry(lines, k).value.week == e.week
      ensures exists l :: 0 <= l <= k && Entry(lines, l) == Some(e)
    {
      ExtractedKept(lines, e);
      var l := EarliestWitness(os, KeepFirst(Results(lines)), e, k);
      assert Entry(lines, l) == Some(e);
    }
  }

  /** Each returned entry is what some line yields. */
  lemma ExtractedFromLines(lines: seq<string>)
    ensures forall e :: e in Extracted(lines) ==> exists k :: 0 <= k < |lines| && Entry(lines, k) == Some(e)
  {
    forall e | e in Extracted(lines) ensures exists k :: 0 <= k < |lines| && Entry(lines, k) == Some(e) {
      ExtractedKept(lines, e);
      var k := SomesWitness(Entries(lines), e);
      assert Entry(lines, k) == Some(e);
    }
  }

  /** Every week some line yields is returned. */
  lemma ExtractedComplete(lines: seq<string>)
    ensures forall k :: 0 <= k < |lines| && Entry(lines, k).Some? ==>
              Entry(lines, k).value.week in Weeks(Extracted(lines))
  {
    var kept := KeepFirst(Results(lines));
    forall k | 0 <= k < |lines| && Entry(lines, k).Some?
      ensures Entry(lines, k).value.week in Weeks(Extracted(lines))
    {
      var x := Entry(lines, k).value;
      SomesHas(Entries(lines), k);
      var i :| 0 <= i < |Results(lines)| && Results(lines)[i] == x;
      assert x.week in Weeks(kept);
      var j :| 0 <= j < |kept| && kept[j].week == x.week;
      assert kept[j] in multiset(Extracted(lines));
      var j' :| 0 <= j' < |Extracted(lines)| && Extracted(lines)[j'] == kept[j];
    }
  }

  // ---------------------------------------------------------------------
  // generate_cypher

  /** `topic.replace("'", "\\'")`: every quote gets a backslash before it. */
  function Escape(t: string): (r: string)
    ensures t != [] ==> r != [] && r[0] == (if t[0] == '\'' then '\\' else t[0])
    ensures forall i :: 0 <= i < |r| && r[i] == '\'' ==> i > 0 && r[i - 1] == '\\'
  {
    if t == [] then []
    else
      var head := if t[0] == '\'' then "\\'" else [t[0]];
      var rest := Escape(t[1..]);
      EscapeStep(head, rest, t[0]);
      head + rest
  }

  lemma EscapeStep(head: string, rest: string, c: char)
    requires head == if c == '\'' then "\\'" else [c]
    requires forall i :: 0 <= i < |rest| && rest[i] == '\'' ==> i > 0 && rest[i - 1] == '\\'
    ensures forall i :: 0 <= i < |head + rest| && (head + rest)[i] == '\'' ==>
              i > 0 && (head + rest)[i - 1] == '\\'
  {
    forall i | 0 <= i < |head + rest| && (head + rest)[i] == '\''
      ensures i > 0 && (head + rest)[i - 1] == '\\'
    {
      if i >= |head| {
        var k := i - |head|;
        assert rest[k] == '\'';
        if k > 0 {
          assert (head + rest)[i - 1] == rest[k - 1];
        }
      }
    }
  }

  /** Reading an escaped topic back: `\'` stands for a quote. */
  function Unescape(r: string): string
    decreases |r|
  {
    if |r| >= 2 && r[0] == '\\' && r[1] == '\'' then "'" + Unescape(r[2..])
    else if r == [] then []
    else [r[0]] + Unescape(r[1..])
  }

  /** The escaping loses nothing: reading the escaped topic back gives the
      topic. */
  lemma {:induction false} EscapeRoundTrip(t: string)
    ensures Unescape(Escape(t)) == t
  {
    if t != [] {
      EscapeRoundTrip(t[1..]);
      var rest := Escape(t[1..]);
      if t[0] == '\'' {
        assert Escape(t) == "\\'" + rest;
        assert Escape(t)[2..] == rest;
      } else {
        assert Escape(t) == [t[0]] + rest;
        assert Escape(t)[1..] == rest;
        if t[0] == '\\' && rest != [] {
          assert rest[0] != '\'';
        }
      }
      assert t == [t[0]] + t[1..];
    }
  }

  /** A topic without quotes is emitted as it is. */
  lemma {:induction false} EscapeNoQuote(t: string)
    requires '\'' !in t
    ensures Escape(t) == t
  {
    if t != [] {
      EscapeNoQuote(t[1..]);
      assert t == [t[0]] + t[1..];
    }
  }

  lemma LowerAppend(a: string, b: string)
    ensures Lower(a + b) == Lower(a) + Lower(b)
  {
  }

  /** Escaping adds only characters the slug drops. */
  lemma {:induction false} EscapeKeptForSlug(t: string)
    ensures Filter(Lower(Escape(t)), SlugKeep) == Filter(Lower(t), SlugKeep)
  {
    if t != [] {
      EscapeKeptForSlug(t[1..]);
      var head := if t[0] == '\'' then "\\'" else [t[0]];
      assert Escape(t) == head + Escape(t[1..]);
      assert t == [t[0]] + t[1..];
      LowerAppend(head, Escape(t[1..]));
      LowerAppend([t[0]], t[1..]);
      FilterAppend(Lower(head), Lower(Escape(t[1..])), SlugKeep);
      FilterAppend(Lower([t[0]]), Lower(t[1..]), SlugKeep);
      if t[0] == '\'' {
        FilterNone(Lower(head), SlugKeep);
        FilterNone(Lower([t[0]]), SlugKeep);
      }
    }
  }

  /** The concept id does not depend on the escaping: the slug of the
      escaped topic is the slug of the topic. */
  lemma EscapeSlug(t: string)
    ensures Slug(Escape(t)) == Slug(t)
  {
    EscapeKeptForSlug(t);
  }

  /** `f"{resource_id}_w{week}"`. */
  function WeekId(resourceId: string, week: int): string {
    resourceId + "_w" + IntToString(week)
  }

  /** `f"{resource_id}_c_{slug(topic)}"` for the escaped topic. */
  function ConceptId(resourceId: string, topic: string): string {
    resourceId + "_c_" + Slug(topic)
  }

  lemma IntToStringInjective(a: int, b: int)
    requires IntToString(a) == IntToString(b)
    ensures a == b
  {
    if a < 0 && b < 0 {
      assert NatToString(-a) == NatToString(-b);
    }
  }

  /** Distinct weeks of a resource get distinct week nodes. */
  lemma WeekIdsDistinct(resourceId: string, a: int, b: int)
    requires a != b
    ensures WeekId(resourceId, a) != WeekId(resourceId, b)
  {
    var n := |resourceId| + 2;
    if WeekId(resourceId, a) == WeekId(resourceId, b) {
      assert WeekId(resourceId, a)[n..] == IntToString(a);
      assert WeekId(resourceId, b)[n..] == IntToString(b);
      IntToStringInjective(a, b);
    }
  }

  const ResourceConstraint: string :=
    "CREATE CONSTRAINT resource_id_unique IF NOT EXISTS FOR (r:Resource) REQUIRE r.resource_id IS UNIQUE;"
  const WeekConstraint: string :=
    "CREATE CONSTRAINT week_id_unique IF NOT EXISTS FOR (w:Week) REQUIRE w.week_id IS UNIQUE;"
  const ConceptConstraint: string :=
    "CREATE CONSTRAINT concept_id_unique IF NOT EXISTS FOR (c:Concept) REQUIRE c.concept_id IS UNIQUE;"
  const ConceptNameIndex: string :=
    "CREATE INDEX concept_name_idx IF NOT EXISTS FOR (c:Concept) ON (c.name);"

  // Fixed fragments of the statements; the values go between them.
  const ResourceMerge: string := "MERGE (r:Resource {resource_id: '"
  const ResourceSetTitle: string := "SET r.title = '"
  const SubjectField: string := "', r.subject='"
  const TermField: string := "', r.term='"
  const ClassField: string := "', r.class='"
  const ConceptSubjectField: string := "', c.subject='"
  const ConceptTermField: string := "', c.term='"
  const ConceptClassField: string := "', c.class='"
  const WeekMerge: string := "MERGE (w:Week {week_id:'"
  const WeekNumberSet: string := "'}) SET w.week_number="
  const ResourceMatch: string := "MATCH (r:Resource {resource_id:'"
  const HasWeekLink: string := "'}) MERGE (r)-[:HAS_WEEK]->(w);"
  const ConceptMerge: string := "MERGE (c:Concept {concept_id:'"
  const ConceptSetName: string := "SET c.name='"

  /** The constraints, the index and the resource node. */
  function Header(resourceId: string, title: string, subject: string, term: string,
                  classLevel: string): (r: seq<string>)
    ensures |r| == 8
  {
    [ ResourceConstraint, WeekConstraint, ConceptConstraint, ConceptNameIndex,
      "",
      ResourceMerge + resourceId + "'})",
      ResourceSetTitle + title + SubjectField + subject + TermField + term +
        ClassField + classLevel + "';",
      "" ]
  }

  /** The week node, its concept and the links between them, for one entry;
      only the topic is escaped. */
  function WeekBlock(resourceId: string, subject: string, term: string, classLevel: string,
                     wt: WeekTopic): (r: seq<string>)
    ensures |r| == 6
  {
    var topic := Escape(wt.topic);
    var weekId := WeekId(resourceId, wt.week);
    var conceptId := ConceptId(resourceId, topic);
    [ WeekMerge + weekId + WeekNumberSet + IntToString(wt.week) + ";",
      ResourceMatch + resourceId + HasWeekLink,
      ConceptMerge + conceptId + "'})",
      ConceptSetName + topic + ConceptSubjectField + subject + ConceptTermField + term +
        ConceptClassField + classLevel + "';",
      TeachesLink,
      "" ]
  }

  /** `f` applied to each element, in order. */
  function MapSeq<A, B>(f: A -> B, xs: seq<A>): (r: seq<B>)
    ensures |r| == |xs|
    ensures forall i :: 0 <= i < |xs| ==> r[i] == f(xs[i])
  {
    seq(|xs|, i requires 0 <= i < |xs| => f(xs[i]))
  }

  /** Blocks written one after the other. */
  function Flatten<T>(blocks: seq<seq<T>>): seq<T> {
    if blocks == [] then [] else Flatten(blocks[..|blocks| - 1]) + blocks[|blocks| - 1]
  }

  predicate SixEach<T>(blocks: seq<seq<T>>) {
    forall i :: 0 <= i < |blocks| ==> |blocks[i]| == 6
  }

  lemma {:induction false} FlattenLength<T>(blocks: seq<seq<T>>)
    requires SixEach(blocks)
    ensures |Flatten(blocks)| == 6 * |blocks|
  {
    if blocks != [] {
      FlattenLength(blocks[..|blocks| - 1]);
    }
  }

  lemma {:induction false} FlattenAt<T>(blocks: seq<seq<T>>, k: nat)
    requires SixEach(blocks) && k < |blocks|
    ensures |Flatten(blocks)| == 6 * |blocks|
    ensures Flatten(blocks)[6 * k .. 6 * k + 6] == blocks[k]
  {
    FlattenLength(blocks);
    var init := blocks[..|blocks| - 1];
    var last := blocks[|blocks| - 1];
    FlattenLength(init);
    if k < |init| {
      FlattenAt(init, k);
      SliceFront(Flatten(init), last, 6 * k, 6 * k + 6);
    } else {
      SliceBack(Flatten(init), last);
    }
  }

  lemma FlattenMapSnoc<A, T>(f: A -> seq<T>, xs: seq<A>, k: nat)
    requires k < |xs|
    ensures Flatten(MapSeq(f, xs[..k + 1])) == Flatten(MapSeq(f, xs[..k])) + f(xs[k])
  {
    var front := MapSeq(f, xs[..k]);
    var bs := MapSeq(f, xs[..k + 1]);
    assert bs == front + [f(xs[k])];
    assert bs[..k] == front;
  }

  /** One entry's block, as a function of the entry. */
  function BlockOf(resourceId: string, subject: string, term: string, classLevel: string):
    WeekTopic -> seq<string>
  {
    wt => WeekBlock(resourceId, subject, term, classLevel, wt)
  }

  lemma BlocksSix(resourceId: string, subject: string, term: string, classLevel: string,
                  wts: seq<WeekTopic>)
    ensures SixEach(MapSeq(BlockOf(resourceId, subject, term, classLevel), wts))
  {
  }

  /** All blocks, one after the other, in input order. */
  function WeekBlocks(resourceId: string, subject: string, term: string, classLevel: string,
                      wts: seq<WeekTopic>): (r: seq<string>)
    ensures |r| == 6 * |wts|
  {
    var bs := MapSeq(BlockOf(resourceId, subject, term, classLevel), wts);
    BlocksSix(resourceId, subject, term, classLevel, wts);
    FlattenLength(bs);
    Flatten(bs)
  }

  const TeachesLink: string := "MERGE (w)-[:TEACHES]->(c);"
  const PrereqComment: string := "// Prerequisites inferred from week order"
  const PrereqFirstTail: string := "'})-[:HAS_WEEK]->(w1:Week)-[:TEACHES]->(c1:Concept)"
  const PrereqSecondMatch: string := "MATCH (r)-[:HAS_WEEK]->(w2:Week)-[:TEACHES]->(c2:Concept)"
  const PrereqWhere: string := "WHERE w2.week_number = w1.week_number + 1"
  const PrereqMerge: string := "MERGE (c1)-[rel:PREREQUISITE_OF]->(c2)"
  const PrereqSet: string :=
    "SET rel.method='inferred', rel.evidence='Week ordering in scheme of work';"

  /** The prerequisite rule over consecutive week numbers. */
  function Footer(resourceId: string): (r: seq<string>)
    ensures |r| == 6
  {
    [ PrereqComment,
      ResourceMatch + resourceId + PrereqFirstTail,
      PrereqSecondMatch, PrereqWhere, PrereqMerge, PrereqSet ]
  }

  /** The statement lines `generate_cypher` joins. */
  function CypherLines(resourceId: string, title: string, subject: string, term: string,
                       classLevel: string, wts: seq<WeekTopic>): seq<string>
  {
    Header(resourceId, title, subject, term, classLevel) +
    WeekBlocks(resourceId, subject, term, classLevel, wts) +
    Footer(resourceId)
  }

  lemma SliceFront<T>(a: seq<T>, b: seq<T>, i: nat, j: nat)
    requires i <= j <= |a|
    ensures (a + b)[i..j] == a[i..j]
  {
  }

  lemma SliceBack<T>(a: seq<T>, b: seq<T>)
    ensures (a + b)[|a|..|a| + |b|] == b
  {
  }

  lemma SliceMiddle<T>(a: seq<T>, b: seq<T>, c: seq<T>, i: nat, j: nat)
    requires i <= j <= |b|
    ensures (a + b + c)[|a| + i .. |a| + j] == b[i..j]
  {
    assert (a + b + c)[|a| + i .. |a| + j] == (a + b)[|a| + i .. |a| + j];
  }

  lemma WeekBlocksSnoc(resourceId: string, subject: string, term: string, classLevel: string,
                       wts: seq<WeekTopic>, k: nat)
    requires k < |wts|
    ensures WeekBlocks(resourceId, subject, term, classLevel, wts[..k + 1])
            == WeekBlocks(resourceId, subject, term, classLevel, wts[..k]) +
               WeekBlock(resourceId, subject, term, classLevel, wts[k])
  {
    FlattenMapSnoc(BlockOf(resourceId, subject, term, classLevel), wts, k);
  }

  lemma WeekBlocksAt(resourceId: string, subject: string, term: string,
                     classLevel: string, wts: seq<WeekTopic>, k: nat)
    requires k < |wts|
    ensures WeekBlocks(resourceId, subject, term, classLevel, wts)[6 * k .. 6 * k + 6]
            == WeekBlock(resourceId, subject, term, classLevel, wts[k])
  {
    BlocksSix(resourceId, subject, term, classLevel, wts);
    FlattenAt(MapSeq(BlockOf(resourceId, subject, term, classLevel), wts), k);
  }

  lemma AppendAssoc<T>(a: seq<T>, b: seq<T>, c: seq<T>)
    ensures a + b + c == a + (b + c)
  {
  }

  lemma LayoutEnds<T>(h: seq<T>, bs: seq<seq<T>>, f: seq<T>)
    requires |h| == 8 && |f| == 6 && SixEach(bs)
    ensures |h + Flatten(bs) + f| == 14 + 6 * |bs|
    ensures (h + Flatten(bs) + f)[..8] == h
    ensures (h + Flatten(bs) + f)[8 + 6 * |bs|..] == f
  {
    FlattenLength(bs);
    var b := Flatten(bs);
    AppendAssoc(h, b, f);
    SliceFront(h, b + f, 0, 8);
    SliceBack(h + b, f);
  }

  lemma LayoutBlock<T>(h: seq<T>, bs: seq<seq<T>>, f: seq<T>, k: nat)
    requires |h| == 8 && SixEach(bs) && k < |bs|
    ensures 14 + 6 * k <= |h + Flatten(bs) + f|
    ensures (h + Flatten(bs) + f)[8 + 6 * k .. 14 + 6 * k] == bs[k]
  {
    FlattenAt(bs, k);
    SliceMiddle(h, Flatten(bs), f, 6 * k, 6 * k + 6);
  }

  /** The script has 8 header lines, a 6-line block per entry and 6
      prerequisite lines; it opens with the header and closes with the
      prerequisite rule. */
  lemma CypherEnds(resourceId: string, title: string, subject: string, term: string,
                   classLevel: string, wts: seq<WeekTopic>)
    ensures var lines := CypherLines(resourceId, title, subject, term, classLevel, wts);
      |lines| == 14 + 6 * |wts| &&
      lines[..8] == Header(resourceId, title, subject, term, classLevel) &&
      lines[8 + 6 * |wts|..] == Footer(resourceId)
  {
    BlocksSix(resourceId, subject, term, classLevel, wts);
    LayoutEnds(Header(resourceId, title, subject, term, classLevel),
               MapSeq(BlockOf(resourceId, subject, term, classLevel), wts), Footer(resourceId));
  }

  /** The block of the `k`-th entry sits at lines `8 + 6k` to `13 + 6k`:
      the entries appear in input order. */
  lemma CypherBlock(resourceId: string, title: string, subject: string, term: string,
                    classLevel: string, wts: seq<WeekTopic>, k: nat)
    requires k < |wts|
    ensures 14 + 6 * k <= |CypherLines(resourceId, title, subject, term, classLevel, wts)|
    ensures CypherLines(resourceId, title, subject, term, classLevel, wts)[8 + 6 * k .. 14 + 6 * k]
            == WeekBlock(resourceId, subject, term, classLevel, wts[k])
  {
    BlocksSix(resourceId, subject, term, classLevel, wts);
    LayoutBlock(Header(resourceId, title, subject, term, classLevel),
                MapSeq(BlockOf(resourceId, subject, term, classLevel), wts), Footer(resourceId), k);
  }

  /** `generate_cypher`: the header, a block per entry, the prerequisite
      rule, joined by newlines. */
  method GenerateCypher(resourceId: string, title: string, subject: string, term: string,
                        classLevel: string, weekTopics: seq<WeekTopic>) returns (text: string)
    ensures text == Join(CypherLines(resourceId, title, subject, term, classLevel, weekTopics), "\n")
  {
    var header := Header(resourceId, title, subject, term, classLevel);
    var cy := header;
    for k := 0 to |weekTopics|
      invariant cy == header + WeekBlocks(resourceId, subject, term, classLevel, weekTopics[..k])
    {
      WeekBlocksSnoc(resourceId, subject, term, classLevel, weekTopics, k);
      AppendAssoc(header, WeekBlocks(resourceId, subject, term, classLevel, weekTopics[..k]),
                  WeekBlock(resourceId, subject, term, classLevel, weekTopics[k]));
      cy := cy + WeekBlock(resourceId, subject, term, classLevel, weekTopics[k]);
    }
    assert weekTopics[..|weekTopics|] == weekTopics;
    cy := cy + Footer(resourceId);
    text := Join(cy, "\n");
  }
}
