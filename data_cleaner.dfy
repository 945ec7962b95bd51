/** The heuristic merge-deduplicator of the AI-tools catalogue
    (`AIToolsDataCleaner`): per-field standardisation, greedy grouping of
    similar tools, field-level merging of each group, keyword
    re-categorisation, enrichment and statistics. */
module DataCleaner {
  import opened Wrappers
  import opened Text
  import opened ToolRecords

  // ---------------------------------------------------------------------------
  // normalize_text

  predicate KeptByNormalize(c: char) { IsWordChar(c) || IsSpace(c) }
  predicate NormalizedChar(c: char) { c == ' ' || (IsWordChar(c) && !IsUpper(c)) }

  /** The steps of `normalize_text` after the emptiness test. */
  function NormalizeSteps(text: string): string {
    CollapseSpaces(Filter(Strip(Lower(text)), KeptByNormalize))
  }

  /** No word character is lost or reordered by the steps. */
  lemma NormalizeKeepsWords(text: string)
    ensures Filter(NormalizeSteps(text), IsWordChar) == Filter(Lower(text), IsWordChar)
  {
    var lowered := Lower(text);
    var stripped := Strip(lowered);
    var kept := Filter(stripped, KeptByNormalize);
    TrimKeepsFiltered(lowered, IsSpace, IsWordChar);
    FilterFilter(stripped, KeptByNormalize, IsWordChar);
    CollapseKeeps(kept, IsWordChar);
  }

  predicate NotUpper(c: char) { !IsUpper(c) }
  predicate LowerWordChar(c: char) { IsWordChar(c) && !IsUpper(c) }

  /** Only lower-case word characters and spaces remain. */
  lemma NormalizeChars(text: string)
    ensures forall i :: 0 <= i < |NormalizeSteps(text)| ==> NormalizedChar(NormalizeSteps(text)[i])
  {
    var lowered := Lower(text);
    var stripped := Trim(lowered, IsSpace);
    var kept := Filter(stripped, KeptByNormalize);
    assert forall i :: 0 <= i < |stripped| ==> NotUpper(stripped[i]) by {
      assert forall i :: 0 <= i < |lowered| ==> NotUpper(lowered[i]);
      TrimKeepsClass(lowered, IsSpace, NotUpper);
    }
    assert forall i :: 0 <= i < |kept| ==> LowerWordChar(kept[i]) || IsSpace(kept[i]) by {
      FilterKeepsClass(stripped, KeptByNormalize, NotUpper);
    }
    assert NormalizeSteps(text) == CollapseSpaces(kept);
    CollapseChars(kept, LowerWordChar);
  }

  /** No two spaces are adjacent. */
  lemma NormalizeSpacing(text: string)
    ensures forall i :: 0 <= i < |NormalizeSteps(text)| - 1 ==>
      !(NormalizeSteps(text)[i] == ' ' && NormalizeSteps(text)[i + 1] == ' ')
  {
    CollapseShape(Filter(Strip(Lower(text)), KeptByNormalize));
  }

  /** `normalize_text`: a falsy input gives `""`; otherwise lower-case,
      strip, drop every character that is neither a word character nor
      whitespace, then collapse whitespace. */
  function NormalizeText(text: string): (r: string)
    ensures text == [] ==> r == []
    ensures forall i :: 0 <= i < |r| ==> NormalizedChar(r[i])
    ensures forall i :: 0 <= i < |r| - 1 ==> !(r[i] == ' ' && r[i + 1] == ' ')
    ensures Filter(r, IsWordChar) == Filter(Lower(text), IsWordChar)
  {
    if text == [] then []
    else
      NormalizeKeepsWords(text);
      NormalizeChars(text);
      NormalizeSpacing(text);
      NormalizeSteps(text)
  }

  // ---------------------------------------------------------------------------
  // extract_domain (a simplified `urllib.parse.urlparse(url).netloc`)

  predicate IsSchemeChar(c: char) { IsAlnum(c) || c == '+' || c == '-' || c == '.' }

  function IndexOf(s: string, c: char): (r: Option<nat>)
    ensures r.Some? ==> r.value < |s| && s[r.value] == c && forall k :: 0 <= k < r.value ==> s[k] != c
    ensures r.None? ==> forall k :: 0 <= k < |s| ==> s[k] != c
  {
    if s == [] then None
    else if s[0] == c then Some(0)
    else match IndexOf(s[1..], c)
      case None => None
      case Some(i) => Some(i + 1)
  }

  /** What follows the scheme: `urlsplit` takes the text before the first
      `:` as the scheme when it is non-empty, starts with an ASCII letter and
      holds only letters, digits, `+`, `-` and `.`. */
  function AfterScheme(url: string): (rest: string)
    ensures |rest| <= |url|
  {
    match IndexOf(url, ':')
    case Some(i) =>
      if i > 0 && IsLetter(url[0]) && forall k :: 0 <= k < i ==> IsSchemeChar(url[k])
      then url[i + 1..] else url
    case None => url
  }

  predicate EndsNetloc(c: char) { c == '/' || c == '?' || c == '#' }

  /** The network location: after `//`, up to the first `/`, `?` or `#`;
      empty when the rest does not start with `//`. */
  function Netloc(url: string): (n: string)
    ensures forall i :: 0 <= i < |n| ==> !EndsNetloc(n[i])
  {
    var rest := AfterScheme(url);
    if StartsWith(rest, "//") then TakeUntil(rest[2..]) else []
  }

  function TakeUntil(s: string): (r: string)
    ensures |r| <= |s| && r == s[..|r|]
    ensures forall i :: 0 <= i < |r| ==> !EndsNetloc(r[i])
    ensures |r| < |s| ==> EndsNetloc(s[|r|])
  {
    if s == [] || EndsNetloc(s[0]) then [] else [s[0]] + TakeUntil(s[1..])
  }

  /** `extract_domain`: the lower-cased network location. */
  function ExtractDomain(url: string): (d: string)
    ensures forall i :: 0 <= i < |d| ==> !EndsNetloc(d[i]) && !IsUpper(d[i])
    ensures !StartsWith(AfterScheme(url), "//") ==> d == []
  {
    var n := Netloc(url);
    var d := Lower(n);
    assert forall i :: 0 <= i < |d| ==> !EndsNetloc(n[i]) && d[i] == ToLower(n[i]);
    d
  }

  // ---------------------------------------------------------------------------
  // are_similar_tools

  const ToolName := "Tool Name"
  const Website := "Website"

  function NormalizedName(t: Record): string {
    NormalizeText(Get(t, ToolName, ""))
  }

  /** The name clauses of `are_similar_tools`: equal normalized names, or
      one contained in the other. */
  predicate NamesRelated(n1: string, n2: string) {
    n1 == n2 || Contains(n2, n1) || Contains(n1, n2)
  }

  /** `are_similar_tools`. (`tool["Tool Name"]` raises when the key is
      absent; the callers only compare named tools.) */
  predicate AreSimilar(t1: Record, t2: Record) {
    var d1 := ExtractDomain(Get(t1, Website, ""));
    var d2 := ExtractDomain(Get(t2, Website, ""));
    NamesRelated(NormalizedName(t1), NormalizedName(t2)) || (d1 != [] && d2 != [] && d1 == d2)
  }

  lemma AreSimilarSymmetric(t1: Record, t2: Record)
    ensures AreSimilar(t1, t2) == AreSimilar(t2, t1)
  {
  }

  /** The empty string is contained in every name, so a tool whose name
      normalizes to nothing is similar to every tool. */
  lemma {:induction false} EmptyNameSimilarToAll(t1: Record, t2: Record)
    requires NormalizedName(t1) == []
    ensures AreSimilar(t1, t2) && AreSimilar(t2, t1)
  {
    EmptyOccursEverywhere(NormalizedName(t2));
  }

  /** A missing or unparsable website never makes two tools similar: the
      domain clause needs both domains non-empty and equal. */
  lemma DomainClause(t1: Record, t2: Record)
    ensures ExtractDomain(Get(t1, Website, "")) == [] ==>
      (AreSimilar(t1, t2) <==> NamesRelated(NormalizedName(t1), NormalizedName(t2)))
    ensures !NamesRelated(NormalizedName(t1), NormalizedName(t2)) ==>
      (AreSimilar(t1, t2) <==> ExtractDomain(Get(t1, Website, "")) != [] &&
                               ExtractDomain(Get(t1, Website, "")) == ExtractDomain(Get(t2, Website, "")))
  {
  }

  // ---------------------------------------------------------------------------
  // merge_tools

  const Description := "Description"
  const KeyFeatures := "Key Features"
  const Unknown := "Unknown"
  const SeeWebsite := "See website"

  /** A value that counts as data: truthy and not the `"Unknown"` placeholder. */
  predicate Known(v: string) { v != [] && v != Unknown }

  /** How many of the keys `ns` hold known values in `t`. */
  function CountKnown(t: Record, ns: seq<string>): (n: nat)
    ensures n <= |ns|
  {
    if ns == [] then 0 else (if Known(Get(t, ns[0], "")) then 1 else 0) + CountKnown(t, ns[1..])
  }

  /** `sum(1 for v in t.values() if v and v != "Unknown")` */
  function Completeness(t: Record): (n: nat)
    ensures n <= |t.names|
  {
    CountKnown(t, t.names)
  }

  /** `max(tools, key=completeness)`: the first record of maximal
      completeness. */
  function BaseIndex(tools: seq<Record>): (b: nat)
    requires tools != []
    ensures b < |tools|
  {
    if |tools| == 1 then 0
    else
      var b := BaseIndex(tools[..|tools| - 1]);
      if Completeness(tools[|tools| - 1]) > Completeness(tools[b]) then |tools| - 1 else b
  }

  /** The base has maximal completeness, and every record before it has
      strictly less. */
  lemma {:induction false} BaseIndexMax(tools: seq<Record>)
    requires tools != []
    ensures forall i :: 0 <= i < |tools| ==> Completeness(tools[i]) <= Completeness(tools[BaseIndex(tools)])
    ensures forall i :: 0 <= i < BaseIndex(tools) ==> Completeness(tools[i]) < Completeness(tools[BaseIndex(tools)])
  {
    if |tools| > 1 {
      var init := tools[..|tools| - 1];
      BaseIndexMax(init);
      assert forall i :: 0 <= i < |init| ==> init[i] == tools[i];
    }
  }

  /** Key Features that a merge only ever extends: known and not the
      `"See website"` placeholder. */
  predicate FeaturesSettled(t: Record) {
    KeyFeatures in t.fields && Known(t.fields[KeyFeatures]) && t.fields[KeyFeatures] != SeeWebsite
  }

  /** `r` keeps what `base` knows: every known field other than Description
      and Key Features keeps its value, and settled Key Features stay settled
      and are only appended to. */
  ghost predicate KeepsKnown(base: Record, r: Record) {
    && (forall g :: g in base.fields && g != Description && g != KeyFeatures && Known(base.fields[g])
         ==> g in r.fields && r.fields[g] == base.fields[g])
    && (FeaturesSettled(base) ==>
         FeaturesSettled(r) && StartsWith(r.fields[KeyFeatures], base.fields[KeyFeatures]))
  }

  lemma KeepsKnownTransitive(a: Record, b: Record, c: Record)
    requires KeepsKnown(a, b) && KeepsKnown(b, c)
    ensures KeepsKnown(a, c)
  {
    if FeaturesSettled(a) {
      var x, y, z := a.fields[KeyFeatures], b.fields[KeyFeatures], c.fields[KeyFeatures];
      assert z[..|y|] == y && y[..|x|] == x;
      assert z[..|x|] == y[..|x|];
    }
  }

  /** One `field, value` step of the merge loop into the base record. */
  function MergeField(best: Record, f: string, v: string): Record {
    var cur := Lookup(best, f);
    if cur.None? || !Known(cur.value) then Put(best, f, v)
    else if f == Description && |v| > |cur.value| then Put(best, f, v)
    else if f == KeyFeatures && v != SeeWebsite then
      if cur.value == SeeWebsite then Put(best, f, v) else Put(best, f, cur.value + ", " + v)
    else best
  }

  /** The fill rules of one merge step: a missing, empty or "Unknown" value
      is taken from the other record; a known Description is replaced only by
      a strictly longer one; other known values stay, except that Key
      Features are appended to; the key set only grows by the merged key. */
  lemma MergeFieldFacts(best: Record, f: string, v: string)
    ensures Keys(MergeField(best, f, v)) == Keys(best) + {f}
    ensures WellFormed(best) ==> WellFormed(MergeField(best, f, v))
    ensures KeepsKnown(best, MergeField(best, f, v))
    ensures Lookup(best, f).None? || !Known(Lookup(best, f).value) ==>
      Lookup(MergeField(best, f, v), f) == Some(v)
    ensures f == Description && Lookup(best, f).Some? && Known(Lookup(best, f).value) ==>
      var now := Lookup(MergeField(best, f, v), f);
      now == Lookup(best, f) || (now == Some(v) && |v| > |Lookup(best, f).value|)
    // a known Description is replaced exactly when the other one is longer
    ensures f == Description && Lookup(best, f).Some? && Known(Lookup(best, f).value) ==>
      (MergeField(best, f, v) == best <==> |v| <= |Lookup(best, f).value|) &&
      (|v| > |Lookup(best, f).value| ==> Lookup(MergeField(best, f, v), f) == Some(v))
    // known Key Features: "See website" is replaced, anything else is joined
    // with ", ", and an incoming "See website" changes nothing
    ensures f == KeyFeatures && Lookup(best, f).Some? && Known(Lookup(best, f).value) ==>
      var cur := Lookup(best, f).value;
      && (v == SeeWebsite ==> MergeField(best, f, v) == best)
      && (v != SeeWebsite && cur == SeeWebsite ==> Lookup(MergeField(best, f, v), f) == Some(v))
      && (v != SeeWebsite && cur != SeeWebsite ==> Lookup(MergeField(best, f, v), f) == Some(cur + ", " + v))
    // any other known field keeps its value
    ensures f != Description && f != KeyFeatures && Lookup(best, f).Some? && Known(Lookup(best, f).value) ==>
      MergeField(best, f, v) == best
  {
    var cur := Lookup(best, f);
    if cur.Some? && Known(cur.value) && f == KeyFeatures && v != SeeWebsite && cur.value != SeeWebsite {
      var joined := cur.value + ", " + v;
      assert joined[|cur.value|] == ',';
      assert ',' in joined && ',' !in Unknown && ',' !in SeeWebsite;
      assert Known(joined) && joined != SeeWebsite && StartsWith(joined, cur.value);
    }
  }

  /** `for field, value in tool.items()` from key `ns[0]` on. */
  function MergeFrom(acc: Record, tool: Record, ns: seq<string>): Record
    decreases |ns|
  {
    if ns == [] then acc else MergeFrom(MergeField(acc, ns[0], Get(tool, ns[0], "")), tool, ns[1..])
  }

  /** The inner loop of `merge_tools`: every field of `tool`, in dict order,
      merged into `acc`. */
  function MergeFields(acc: Record, tool: Record): Record {
    MergeFrom(acc, tool, tool.names)
  }

  lemma {:induction false} MergeFromFacts(acc: Record, tool: Record, ns: seq<string>)
    ensures Keys(MergeFrom(acc, tool, ns)) == Keys(acc) + set n | n in ns
    ensures WellFormed(acc) ==> WellFormed(MergeFrom(acc, tool, ns))
    ensures KeepsKnown(acc, MergeFrom(acc, tool, ns))
    decreases |ns|
  {
    if ns == [] {
      assert KeepsKnown(acc, acc);
    } else {
      var next := MergeField(acc, ns[0], Get(tool, ns[0], ""));
      MergeFieldFacts(acc, ns[0], Get(tool, ns[0], ""));
      MergeFromFacts(next, tool, ns[1..]);
      assert (set n | n in ns) == {ns[0]} + set n | n in ns[1..];
      KeepsKnownTransitive(acc, next, MergeFrom(next, tool, ns[1..]));
    }
  }

  /** The tool at `k` is skipped: it is the base itself, or equal as a dict
      to the record merged so far (`tool == best_tool`). */
  predicate Skipped(tools: seq<Record>, b: nat, k: nat, acc: Record)
    requires k < |tools|
  {
    k == b || SameDict(tools[k], acc)
  }

  /** One pass of the outer loop of `merge_tools`: tool `k` merged into
      `acc` unless it is skipped. */
  function MergeStep(tools: seq<Record>, b: nat, k: nat, acc: Record): Record
    requires k < |tools|
  {
    if Skipped(tools, b, k, acc) then acc else MergeFields(acc, tools[k])
  }

  /** The outer loop of `merge_tools` from tool `k` on, with `acc` the base
      record as merged so far. */
  function MergeLoop(tools: seq<Record>, b: nat, k: nat, acc: Record): Record
    requires k <= |tools|
    decreases |tools| - k
  {
    if k == |tools| then acc else MergeLoop(tools, b, k + 1, MergeStep(tools, b, k, acc))
  }

  /** Every key of a group of records. */
  function UnionKeys(tools: seq<Record>): set<string> {
    if tools == [] then {} else Keys(tools[0]) + UnionKeys(tools[1..])
  }

  lemma {:induction false} UnionKeysHas(tools: seq<Record>, i: nat)
    requires i < |tools|
    ensures Keys(tools[i]) <= UnionKeys(tools)
  {
    if i > 0 { UnionKeysHas(tools[1..], i - 1); }
  }

  lemma MergeStepKeys(tools: seq<Record>, b: nat, k: nat, acc: Record)
    requires k < |tools| && WellFormed(tools[k])
    requires k == b ==> Keys(tools[b]) <= Keys(acc)
    ensures Keys(MergeStep(tools, b, k, acc)) == Keys(acc) + Keys(tools[k])
  {
    if !Skipped(tools, b, k, acc) {
      MergeFromFacts(acc, tools[k], tools[k].names);
    }
  }

  lemma MergeStepKeeps(tools: seq<Record>, b: nat, k: nat, acc: Record)
    requires k < |tools|
    ensures KeepsKnown(acc, MergeStep(tools, b, k, acc))
    ensures WellFormed(acc) ==> WellFormed(MergeStep(tools, b, k, acc))
  {
    if !Skipped(tools, b, k, acc) {
      MergeFromFacts(acc, tools[k], tools[k].names);
    } else {
      assert KeepsKnown(acc, acc);
    }
  }

  lemma {:induction false} MergeLoopKeys(tools: seq<Record>, b: nat, k: nat, acc: Record)
    requires k <= |tools| && b < |tools|
    requires forall i :: 0 <= i < |tools| ==> WellFormed(tools[i])
    requires Keys(tools[b]) <= Keys(acc)
    ensures Keys(MergeLoop(tools, b, k, acc)) == Keys(acc) + UnionKeys(tools[k..])
    decreases |tools| - k
  {
    if k < |tools| {
      var next := MergeStep(tools, b, k, acc);
      assert Keys(next) == Keys(acc) + Keys(tools[k]) by {
        MergeStepKeys(tools, b, k, acc);
      }
      MergeLoopKeys(tools, b, k + 1, next);
      assert tools[k..][1..] == tools[k + 1..];
    }
  }

  lemma {:induction false} MergeLoopKeeps(tools: seq<Record>, b: nat, k: nat, acc: Record)
    requires k <= |tools|
    ensures KeepsKnown(acc, MergeLoop(tools, b, k, acc))
    ensures WellFormed(acc) ==> WellFormed(MergeLoop(tools, b, k, acc))
    decreases |tools| - k
  {
    if k == |tools| {
      assert KeepsKnown(acc, acc);
    } else {
      var next := MergeStep(tools, b, k, acc);
      var rest := MergeLoop(tools, b, k + 1, next);
      assert KeepsKnown(acc, next) && (WellFormed(acc) ==> WellFormed(next)) by {
        MergeStepKeeps(tools, b, k, acc);
      }
      assert KeepsKnown(next, rest) && (WellFormed(next) ==> WellFormed(rest)) by {
        MergeLoopKeeps(tools, b, k + 1, next);
      }
      KeepsKnownTransitive(acc, next, rest);
    }
  }

  /** What `merge_tools` returns for a group. */
  function MergedGroup(tools: seq<Record>): (r: Option<Record>)
    ensures r.None? <==> tools == []
  {
    if tools == [] then None
    else
      var b := BaseIndex(tools);
      Some(MergeLoop(tools, b, 0, tools[b]))
  }

  /** The merged record of a group has every key of the group and keeps
      every known field of the base (Description may grow longer, Key
      Features may be appended to). */
  lemma MergedGroupFacts(tools: seq<Record>)
    requires tools != []
    requires forall i :: 0 <= i < |tools| ==> WellFormed(tools[i])
    ensures WellFormed(MergedGroup(tools).value)
    ensures Keys(MergedGroup(tools).value) == UnionKeys(tools)
    ensures KeepsKnown(tools[BaseIndex(tools)], MergedGroup(tools).value)
  {
    var b := BaseIndex(tools);
    MergeLoopKeys(tools, b, 0, tools[b]);
    MergeLoopKeeps(tools, b, 0, tools[b]);
    UnionKeysHas(tools, b);
    assert tools[0..] == tools;
  }

  /** The inner loop as written: every field of `tool`, in dict order,
      merged into `best`. */
  method MergeInto(best: Record, tool: Record) returns (r: Record)
    ensures r == MergeFields(best, tool)
  {
    r := best;
    var i := 0;
    while i < |tool.names|
      invariant i <= |tool.names|
      invariant MergeFrom(r, tool, tool.names[i..]) == MergeFields(best, tool)
    {
      assert tool.names[i..][1..] == tool.names[i + 1..];
      r := MergeField(r, tool.names[i], Get(tool, tool.names[i], ""));
      i := i + 1;
    }
  }

  /** `merge_tools`: `None` for an empty group; otherwise the first record
      of maximal completeness, with the fields of the other records merged
      into it one by one. */
  method MergeTools(tools: seq<Record>) returns (merged: Option<Record>)
    ensures merged == MergedGroup(tools)
  {
    if tools == [] {
      return None;
    }
    var b := BaseIndex(tools);
    var best := tools[b];
    var k := 0;
    while k < |tools|
      invariant k <= |tools|
      invariant MergeLoop(tools, b, k, best) == MergeLoop(tools, b, 0, tools[b])
    {
      if k != b && tools[k].fields != best.fields {
        best := MergeInto(best, tools[k]);
      }
      k := k + 1;
    }
    merged := Some(best);
  }

  // ---------------------------------------------------------------------------
  // clean_data

  const Category := "Category"
  const PrimaryFunction := "Primary Function"
  const PricingModel := "Pricing Model"
  const LaunchYear := "Launch Year"
  const General := "General"

  /** The Website rule: `value.strip()` only when the raw value starts with
      `http`, `""` otherwise. */
  function CleanWebsite(value: string): (r: string)
    ensures r == [] <==> !StartsWith(value, "http")
    ensures r != [] ==> r == Strip(value) && r == TrimEnd(value, IsSpace)
    ensures r != [] ==> StartsWith(r, "http") && StartsWith(value, r)
  {
    if value != [] && StartsWith(value, "http") then
      StripHttp(value);
      Strip(value)
    else []
  }

  /** A value that starts with `http` has no leading whitespace, so
      stripping it removes trailing whitespace only, and `http` stays. */
  lemma StripHttp(value: string)
    requires StartsWith(value, "http")
    ensures Strip(value) == TrimEnd(value, IsSpace)
    ensures StartsWith(Strip(value), "http") && StartsWith(value, Strip(value))
  {
    assert value[..4] == "http";
    assert value[0] == 'h' && value[3] == 'p';
    assert TrimStart(value, IsSpace) == value;
    var r := TrimEnd(value, IsSpace);
    assert |r| >= 4 by {
      assert !IsSpace(value[3]);
    }
    assert r[..4] == value[..4];
  }

  /** The pricing classes, tested in order on the stripped, lower-cased
      value (`"unknown"` for an empty one). */
  function PricingClass(pricing: string): Option<string> {
    if Contains(pricing, "free") && Contains(pricing, "trial") then Some("Freemium")
    else if Contains(pricing, "free") then Some("Free")
    else if Contains(pricing, "subscription") || Contains(pricing, "monthly") then Some("Subscription")
    else if Contains(pricing, "pay") then Some("Pay-per-use")
    else None
  }

  /** The Pricing Model rule: the first matching class, or else the raw value
      title-cased, or `"Unknown"` when it is empty. */
  function CleanPricing(value: string): (r: string)
  {
    var pricing := if value != [] then Lower(Strip(value)) else "unknown";
    match PricingClass(pricing)
    case Some(c) => c
    case None => if value != [] then Title(value) else Unknown
  }

  /** Every pricing value lands in one of the four classes unless none of
      the keywords occurs in it; an empty value is `"Unknown"`. */
  lemma PricingOutcomes(value: string)
    ensures value == [] ==> CleanPricing(value) == Unknown
    ensures value != [] ==>
            CleanPricing(value) in {"Freemium", "Free", "Subscription", "Pay-per-use"} ||
            (CleanPricing(value) == Title(value) &&
             var p := Lower(Strip(value));
             !Contains(p, "free") && !Contains(p, "subscription") && !Contains(p, "monthly") && !Contains(p, "pay"))
    // the classes are tried in order and the first match wins
    ensures value != [] ==>
      var p := Lower(Strip(value));
      && (Contains(p, "free") && Contains(p, "trial") ==> CleanPricing(value) == "Freemium")
      && (Contains(p, "free") && !Contains(p, "trial") ==> CleanPricing(value) == "Free")
      && (!Contains(p, "free") && (Contains(p, "subscription") || Contains(p, "monthly")) ==>
            CleanPricing(value) == "Subscription")
      && (!Contains(p, "free") && !Contains(p, "subscription") && !Contains(p, "monthly") && Contains(p, "pay") ==>
            CleanPricing(value) == "Pay-per-use")
  {
    if value == [] {
      var p := "unknown";
      AbsentHeadNotContained(p, "free");
      AbsentHeadNotContained(p, "subscription");
      AbsentHeadNotContained(p, "monthly");
      AbsentHeadNotContained(p, "pay");
    }
  }

  /** The classification ignores case and surrounding whitespace: a value
      and its upper-cased form get the same class. */
  lemma PricingIgnoresCase(value: string)
    ensures PricingClass(Lower(Strip(Upper(value)))) == PricingClass(Lower(Strip(value)))
  {
    StripUpper(value);
    LowerUpper(Strip(value));
  }

  /** A `\b(20\d{2})\b` match at `i`. */
  predicate YearAt(s: string, i: nat) {
    && i + 4 <= |s|
    && s[i] == '2' && s[i + 1] == '0' && IsDigit(s[i + 2]) && IsDigit(s[i + 3])
    && (i == 0 || !IsWordChar(s[i - 1]))
    && (i + 4 == |s| || !IsWordChar(s[i + 4]))
  }

  /** `re.search` for the year pattern from `i` on. */
  function FindYear(s: string, i: nat): (r: Option<nat>)
    requires i <= |s|
    ensures r.Some? ==> YearAt(s, r.value)
    decreases |s| - i
  {
    if i + 4 > |s| then None
    else if YearAt(s, i) then Some(i)
    else FindYear(s, i + 1)
  }

  /** The search finds the leftmost match at or after `i`. */
  lemma {:induction false} FindYearLeftmost(s: string, i: nat)
    requires i <= |s|
    ensures var r := FindYear(s, i);
      && (r.Some? ==> i <= r.value && YearAt(s, r.value) && forall k :: i <= k < r.value ==> !YearAt(s, k))
      && (r.None? ==> forall k :: i <= k <= |s| ==> !YearAt(s, k))
    decreases |s| - i
  {
    if i + 4 <= |s| && !YearAt(s, i) {
      FindYearLeftmost(s, i + 1);
    }
  }

  /** The Launch Year rule: the first stand-alone `20dd` in the value, or
      `"Unknown"` when there is none. */
  function CleanYear(value: string): string {
    match FindYear(value, 0)
    case Some(k) => value[k..k + 4]
    case None => Unknown
  }

  /** The cleaned year is `"Unknown"` exactly when no stand-alone `20dd`
      occurs in the value; otherwise it is the leftmost such occurrence. */
  lemma CleanYearFacts(value: string)
    ensures CleanYear(value) == Unknown <==> forall k: nat :: k <= |value| ==> !YearAt(value, k)
    ensures CleanYear(value) != Unknown ==> exists k: nat ::
      && YearAt(value, k) && CleanYear(value) == value[k..k + 4]
      && forall j :: 0 <= j < k ==> !YearAt(value, j)
  {
    FindYearLeftmost(value, 0);
    match FindYear(value, 0)
    case Some(k) =>
      assert |CleanYear(value)| == 4;
    case None =>
  }

  /** One field of `clean_data` by its own rule. A Primary Function left
      empty is the exception: it takes the Category cleaned so far (see
      `CleanFrom`), so its entry here is only the default. */
  function CleanValue(f: string, v: string): string {
    if f == ToolName then (if v != [] then Title(Strip(v)) else [])
    else if f == Website then CleanWebsite(v)
    else if f == Description then (if v != [] then Strip(v) else [])
    else if f == Category then (if v != [] then Title(Strip(v)) else General)
    else if f == PrimaryFunction then (if v != [] then Title(Strip(v)) else General)
    else if f == PricingModel then CleanPricing(v)
    else if f == LaunchYear then CleanYear(v)
    else (if v != [] then Strip(v) else Unknown)
  }

  /** The field loop of `clean_data` over the keys `ns`, with `clean` the
      per-field rule; an empty Primary Function reads
      `cleaned_tool.get("Category", "General")`. */
  function CleanFrom(tool: Record, ns: seq<string>, acc: Record, clean: (string, string) -> string): Record
    decreases |ns|
  {
    if ns == [] then acc
    else
      var f, v := ns[0], Get(tool, ns[0], "");
      var c := if f == PrimaryFunction && v == [] then Get(acc, Category, General) else clean(f, v);
      CleanFrom(tool, ns[1..], Put(acc, f, c), clean)
  }

  /** The cleaned copy of one record. */
  function CleanRecord(tool: Record): Record {
    CleanFrom(tool, tool.names, Empty(), CleanValue)
  }

  /** The value `clean_data` gives to the `i`-th key of `tool` in the cleaned
      record `r`: a Primary Function left empty takes the cleaned Category
      when Category comes earlier in the dict, and `"General"` otherwise;
      every other field follows its own rule. */
  ghost predicate FieldCleaned(tool: Record, r: Record, i: nat, clean: (string, string) -> string)
    requires i < |tool.names|
  {
    var f := tool.names[i];
    var v := Get(tool, f, "");
    f in r.fields &&
    r.fields[f] == (if f == PrimaryFunction && v == [] then
                      (if Category in tool.names[..i] then Get(r, Category, General) else General)
                    else clean(f, v))
  }

  /** `r` is the cleaned copy of the first `m` fields of `tool`. */
  ghost predicate CleanedUpTo(tool: Record, r: Record, m: nat, clean: (string, string) -> string)
    requires m <= |tool.names|
  {
    && WellFormed(r)
    && r.names == tool.names[..m]
    && FieldsCleaned(tool, r, m, clean)
  }

  /** The first `m` keys of `tool` carry their cleaned values in `r`. */
  ghost predicate FieldsCleaned(tool: Record, r: Record, m: nat, clean: (string, string) -> string)
    requires m <= |tool.names|
  {
    forall i :: 0 <= i < m ==> FieldCleaned(tool, r, i, clean)
  }

  /** The next key of the record cleaned so far. */
  function CleanNext(tool: Record, m: nat, acc: Record, clean: (string, string) -> string): Record
    requires m < |tool.names|
  {
    var f, v := tool.names[m], Get(tool, tool.names[m], "");
    Put(acc, f, if f == PrimaryFunction && v == [] then Get(acc, Category, General) else clean(f, v))
  }

  lemma CleanNextFacts(tool: Record, m: nat, acc: Record, clean: (string, string) -> string)
    requires WellFormed(tool) && m < |tool.names|
    requires CleanedUpTo(tool, acc, m, clean)
    ensures CleanedUpTo(tool, CleanNext(tool, m, acc, clean), m + 1, clean)
  {
    var ns := tool.names;
    var next := CleanNext(tool, m, acc, clean);
    assert ns[m] !in acc.fields by {
      assert forall i :: 0 <= i < m ==> acc.names[i] != ns[m];
    }
    SliceSnoc(ns, m);
    CleanNextKeeps(tool, m, acc, clean);
    CleanNextField(tool, m, acc, clean);
    FieldsCleanedSnoc(tool, next, m, clean);
  }

  lemma SliceSnoc<T>(s: seq<T>, m: nat)
    requires m < |s|
    ensures s[..m + 1] == s[..m] + [s[m]]
  {
  }

  lemma FieldsCleanedSnoc(tool: Record, r: Record, m: nat, clean: (string, string) -> string)
    requires m < |tool.names|
    requires FieldsCleaned(tool, r, m, clean) && FieldCleaned(tool, r, m, clean)
    ensures FieldsCleaned(tool, r, m + 1, clean)
  {
  }

  lemma CleanNextKeeps(tool: Record, m: nat, acc: Record, clean: (string, string) -> string)
    requires WellFormed(tool) && m < |tool.names|
    requires WellFormed(acc) && acc.names == tool.names[..m]
    requires FieldsCleaned(tool, acc, m, clean)
    ensures FieldsCleaned(tool, CleanNext(tool, m, acc, clean), m, clean)
  {
    forall i | 0 <= i < m ensures FieldCleaned(tool, CleanNext(tool, m, acc, clean), i, clean) {
      CleanNextEarlier(tool, m, acc, clean, i);
    }
  }

  /** The new key leaves the fields cleaned before it as they were. */
  lemma CleanNextEarlier(tool: Record, m: nat, acc: Record, clean: (string, string) -> string, i: nat)
    requires WellFormed(tool) && i < m < |tool.names|
    requires WellFormed(acc) && acc.names == tool.names[..m]
    requires FieldCleaned(tool, acc, i, clean)
    ensures FieldCleaned(tool, CleanNext(tool, m, acc, clean), i, clean)
  {
    var ns := tool.names;
    assert ns[i] != ns[m];
    if ns[m] == Category {
      assert Category !in ns[..i] by {
        assert forall k :: 0 <= k < i ==> ns[k] != ns[m];
      }
    }
  }

  /** The new key gets its cleaned value. */
  lemma CleanNextField(tool: Record, m: nat, acc: Record, clean: (string, string) -> string)
    requires WellFormed(tool) && m < |tool.names|
    requires WellFormed(acc) && acc.names == tool.names[..m]
    ensures FieldCleaned(tool, CleanNext(tool, m, acc, clean), m, clean)
  {
    var ns := tool.names;
    var f := ns[m];
    if f == PrimaryFunction && Get(tool, f, "") == [] {
      assert Category in ns[..m] <==> Category in acc.fields;
    }
  }

  lemma {:induction false} CleanFromFacts(tool: Record, m: nat, acc: Record, clean: (string, string) -> string)
    requires WellFormed(tool) && m <= |tool.names|
    requires CleanedUpTo(tool, acc, m, clean)
    ensures CleanedUpTo(tool, CleanFrom(tool, tool.names[m..], acc, clean), |tool.names|, clean)
    decreases |tool.names| - m
  {
    var ns := tool.names;
    if m < |ns| {
      var next := CleanNext(tool, m, acc, clean);
      assert CleanedUpTo(tool, next, m + 1, clean) by {
        CleanNextFacts(tool, m, acc, clean);
      }
      assert CleanFrom(tool, ns[m..], acc, clean) == CleanFrom(tool, ns[m + 1..], next, clean) by {
        assert ns[m..][0] == ns[m] && ns[m..][1..] == ns[m + 1..];
      }
      CleanFromFacts(tool, m + 1, next, clean);
    } else {
      assert ns[m..] == [] && ns[..m] == ns;
    }
  }

  /** `clean_data` keeps every key of a record, in order, and cleans each
      value by its own rule (see `FieldCleaned`). */
  lemma CleanRecordFacts(tool: Record)
    requires WellFormed(tool)
    ensures WellFormed(CleanRecord(tool)) && CleanRecord(tool).names == tool.names
    ensures forall i :: 0 <= i < |tool.names| ==> FieldCleaned(tool, CleanRecord(tool), i, CleanValue)
  {
    assert tool.names[..0] == [] && tool.names[0..] == tool.names;
    CleanFromFacts(tool, 0, Empty(), CleanValue);
  }

  /** A cleaned record is kept when its Tool Name is truthy. */
  predicate KeepCleaned(t: Record) {
    Get(t, ToolName, "") != []
  }

  /** `f` applied to each record of `rs`, in order. */
  function MapEach(rs: seq<Record>, f: Record -> Record): (r: seq<Record>)
    ensures |r| == |rs|
    ensures forall i :: 0 <= i < |rs| ==> r[i] == f(rs[i])
  {
    seq(|rs|, i requires 0 <= i < |rs| => f(rs[i]))
  }

  /** The records of `rs` that satisfy `p`, in order. */
  function FilterBy(rs: seq<Record>, p: Record -> bool): (r: seq<Record>)
    ensures |r| <= |rs|
    ensures forall i :: 0 <= i < |r| ==> p(r[i]) && r[i] in rs
  {
    if rs == [] then []
    else
      var last := rs[|rs| - 1];
      FilterBy(rs[..|rs| - 1], p) + (if p(last) then [last] else [])
  }

  lemma SplitLast<T>(s: seq<T>)
    requires s != []
    ensures s == s[..|s| - 1] + [s[|s| - 1]]
  {
  }

  lemma MapEachSnoc(rs: seq<Record>, t: Record, f: Record -> Record)
    ensures MapEach(rs + [t], f) == MapEach(rs, f) + [f(t)]
  {
    var a, b := MapEach(rs + [t], f), MapEach(rs, f) + [f(t)];
    forall i | 0 <= i < |a| ensures a[i] == b[i] {
      if i < |rs| { assert (rs + [t])[i] == rs[i]; }
    }
  }

  /** `cs` holds the images under `f` of the first `|cs|` records. */
  ghost predicate MappedPrefix(rs: seq<Record>, cs: seq<Record>, f: Record -> Record) {
    |cs| <= |rs| && forall k :: 0 <= k < |cs| ==> cs[k] == f(rs[k])
  }

  lemma MappedPrefixSnoc(rs: seq<Record>, cs: seq<Record>, f: Record -> Record, c: Record)
    requires MappedPrefix(rs, cs, f) && |cs| < |rs| && c == f(rs[|cs|])
    ensures MappedPrefix(rs, cs + [c], f)
  {
  }

  lemma MappedPrefixAll(rs: seq<Record>, cs: seq<Record>, f: Record -> Record)
    requires MappedPrefix(rs, cs, f) && |cs| == |rs|
    ensures cs == MapEach(rs, f)
  {
  }

  /** `data` is `rs` with the first `i` records replaced by their images
      under `f`. */
  ghost predicate UpdatedPrefix(rs: seq<Record>, data: seq<Record>, i: nat, f: Record -> Record) {
    && i <= |rs| == |data|
    && (forall k :: 0 <= k < i ==> data[k] == f(rs[k]))
    && (forall k :: i <= k < |rs| ==> data[k] == rs[k])
  }

  lemma UpdatedStart(rs: seq<Record>, f: Record -> Record)
    ensures UpdatedPrefix(rs, rs, 0, f)
  {
  }

  lemma UpdatedStep(rs: seq<Record>, data: seq<Record>, i: nat, f: Record -> Record, c: Record)
    requires UpdatedPrefix(rs, data, i, f) && i < |rs| && c == f(rs[i])
    ensures UpdatedPrefix(rs, data[i := c], i + 1, f)
  {
  }

  lemma UpdatedAll(rs: seq<Record>, data: seq<Record>, f: Record -> Record)
    requires UpdatedPrefix(rs, data, |rs|, f)
    ensures data == MapEach(rs, f)
  {
  }

  lemma FilterBySnoc(rs: seq<Record>, c: Record, p: Record -> bool)
    ensures FilterBy(rs + [c], p) == FilterBy(rs, p) + (if p(c) then [c] else [])
  {
    assert (rs + [c])[..|rs|] == rs;
  }

  /** `q` tells in advance which images under `f` the filter `p` keeps. */
  ghost predicate Agree(rs: seq<Record>, f: Record -> Record, p: Record -> bool, q: Record -> bool) {
    forall i :: 0 <= i < |rs| ==> (p(f(rs[i])) <==> q(rs[i]))
  }

  /** Filtering the images by `p` is mapping the records that `q` keeps,
      when `q` tells in advance which images `p` keeps. */
  lemma {:induction false} FilterMap(rs: seq<Record>, f: Record -> Record, p: Record -> bool, q: Record -> bool)
    requires Agree(rs, f, p, q)
    ensures FilterBy(MapEach(rs, f), p) == MapEach(FilterBy(rs, q), f)
  {
    if rs != [] {
      var init, t := rs[..|rs| - 1], rs[|rs| - 1];
      var kept := if p(f(t)) then [f(t)] else [];
      assert FilterBy(rs, q) == FilterBy(init, q) + (if p(f(t)) then [t] else []);
      calc {
        FilterBy(MapEach(rs, f), p);
        { SplitLast(rs); MapEachSnoc(init, t, f); }
        FilterBy(MapEach(init, f) + [f(t)], p);
        { FilterBySnoc(MapEach(init, f), f(t), p); }
        FilterBy(MapEach(init, f), p) + kept;
        { FilterMap(init, f, p, q); }
        MapEach(FilterBy(init, q), f) + kept;
        { if p(f(t)) { MapEachSnoc(FilterBy(init, q), t, f); } }
        MapEach(FilterBy(rs, q), f);
      }
    }
  }

  /** The raw records whose cleaned copy is kept: those with a Tool Name
      that is not blank. */
  predicate HasRawName(t: Record) {
    Strip(Get(t, ToolName, "")) != []
  }

  /** What `clean_data` leaves in `tools_data`: every record cleaned, then
      those without a Tool Name dropped. */
  function CleanAll(tools: seq<Record>): (r: seq<Record>)
    ensures |r| <= |tools|
    ensures forall i :: 0 <= i < |r| ==> KeepCleaned(r[i])
  {
    FilterBy(MapEach(tools, CleanRecord), KeepCleaned)
  }

  /** A record survives `clean_data` exactly when its raw Tool Name is not
      blank; the survivors keep their relative order. */
  lemma CleanAllKeeps(tools: seq<Record>)
    requires forall i :: 0 <= i < |tools| ==> WellFormed(tools[i])
    ensures CleanAll(tools) == MapEach(FilterBy(tools, HasRawName), CleanRecord)
  {
    NamesSurvive(tools);
    FilterMap(tools, CleanRecord, KeepCleaned, HasRawName);
  }

  lemma NamesSurvive(tools: seq<Record>)
    requires forall i :: 0 <= i < |tools| ==> WellFormed(tools[i])
    ensures Agree(tools, CleanRecord, KeepCleaned, HasRawName)
  {
    forall i | 0 <= i < |tools| ensures KeepCleaned(CleanRecord(tools[i])) <==> HasRawName(tools[i]) {
      NameSurvives(tools[i]);
    }
  }

  /** Every record `clean_data` keeps is a well-formed dict. */
  lemma CleanAllWellFormed(tools: seq<Record>)
    requires forall i :: 0 <= i < |tools| ==> WellFormed(tools[i])
    ensures forall i :: 0 <= i < |CleanAll(tools)| ==> WellFormed(CleanAll(tools)[i])
  {
    var cs := MapEach(tools, CleanRecord);
    forall i | 0 <= i < |tools| ensures WellFormed(cs[i]) {
      CleanRecordFacts(tools[i]);
    }
  }

  /** The cleaned record has the keys of the raw one, each cleaned by its
      rule. */
  lemma CleanRecordValue(tool: Record, f: string)
    requires WellFormed(tool)
    ensures f in CleanRecord(tool).fields <==> f in tool.fields
    ensures f in tool.fields && f != PrimaryFunction ==>
      CleanRecord(tool).fields[f] == CleanValue(f, tool.fields[f])
  {
    var r := CleanRecord(tool);
    CleanRecordFacts(tool);
    if f in tool.fields {
      var i :| 0 <= i < |tool.names| && tool.names[i] == f;
      assert FieldCleaned(tool, r, i, CleanValue);
    } else {
      assert f !in r.names;
    }
  }

  /** The cleaned Tool Name is truthy exactly when the raw one is not blank. */
  lemma NameSurvives(tool: Record)
    requires WellFormed(tool)
    ensures KeepCleaned(CleanRecord(tool)) <==> Strip(Get(tool, ToolName, "")) != []
  {
    CleanRecordValue(tool, ToolName);
    if ToolName in tool.fields {
      var v := tool.fields[ToolName];
      assert |CleanValue(ToolName, v)| == |Strip(v)| by {
        if v != [] { assert |Title(Strip(v))| == |Strip(v)|; }
      }
    }
  }

  // ---------------------------------------------------------------------------
  // deduplicate_data

  /** Every record carries a Tool Name, as `are_similar_tools` demands. */
  predicate Named(tools: seq<Record>) {
    forall i :: 0 <= i < |tools| ==> ToolName in Keys(tools[i])
  }

  function Elems(g: seq<nat>): set<nat> {
    set k | k in g
  }

  /** The tools after the leader `i`, from `j` on, that no earlier group has
      taken and that `similar` relates to tool `i`, in index order. */
  function Followers(tools: seq<Record>, similar: (Record, Record) -> bool, i: nat, j: nat, taken: set<nat>): seq<nat>
    requires i < |tools| && j <= |tools|
    decreases |tools| - j
  {
    if j == |tools| then []
    else (if j !in taken && similar(tools[i], tools[j]) then [j] else []) + Followers(tools, similar, i, j + 1, taken)
  }

  /** The groups `deduplicate_data` forms from tool `i` on, with `taken` the
      indices already processed: each untaken tool leads a group of itself
      and its followers. */
  function Grouping(tools: seq<Record>, similar: (Record, Record) -> bool, i: nat, taken: set<nat>): seq<seq<nat>>
    requires i <= |tools|
    decreases |tools| - i
  {
    if i == |tools| then []
    else if i in taken then Grouping(tools, similar, i + 1, taken)
    else
      var g := [i] + Followers(tools, similar, i, i + 1, taken);
      [g] + Grouping(tools, similar, i + 1, taken + Elems(g))
  }

  function Flatten(groups: seq<seq<nat>>): seq<nat> {
    if groups == [] then [] else groups[0] + Flatten(groups[1..])
  }

  predicate Increasing(g: seq<nat>) {
    forall s, t :: 0 <= s < t < |g| ==> g[s] < g[t]
  }

  lemma ConsIncreasing(x: nat, r: seq<nat>)
    requires Increasing(r) && forall k :: k in r ==> x < k
    ensures Increasing([x] + r)
  {
    var f := [x] + r;
    forall s, t | 0 <= s < t < |f| ensures f[s] < f[t] {
      assert f[t] == r[t - 1] && f[t] in r;
      if s > 0 { assert f[s] == r[s - 1]; }
    }
  }

  lemma {:induction false} FollowersMembers(tools: seq<Record>, similar: (Record, Record) -> bool, i: nat, j: nat, taken: set<nat>)
    requires i < |tools| && j <= |tools|
    ensures forall k :: k in Followers(tools, similar, i, j, taken) <==>
      j <= k < |tools| && k !in taken && similar(tools[i], tools[k])
    decreases |tools| - j
  {
    if j < |tools| {
      var rest := Followers(tools, similar, i, j + 1, taken);
      FollowersMembers(tools, similar, i, j + 1, taken);
      if j !in taken && similar(tools[i], tools[j]) {
        assert Followers(tools, similar, i, j, taken) == [j] + rest;
      } else {
        assert Followers(tools, similar, i, j, taken) == rest;
      }
    }
  }

  lemma {:induction false} FollowersIncreasing(tools: seq<Record>, similar: (Record, Record) -> bool, i: nat, j: nat, taken: set<nat>)
    requires i < |tools| && j <= |tools|
    ensures Increasing(Followers(tools, similar, i, j, taken))
    decreases |tools| - j
  {
    if j < |tools| {
      var rest := Followers(tools, similar, i, j + 1, taken);
      FollowersIncreasing(tools, similar, i, j + 1, taken);
      if j !in taken && similar(tools[i], tools[j]) {
        FollowersMembers(tools, similar, i, j + 1, taken);
        assert Followers(tools, similar, i, j, taken) == [j] + rest;
        ConsIncreasing(j, rest);
      } else {
        assert Followers(tools, similar, i, j, taken) == rest;
      }
    }
  }

  predicate Distinct(s: seq<nat>) {
    forall a, b :: 0 <= a < b < |s| ==> s[a] != s[b]
  }

  lemma FlattenCons(g: seq<nat>, rest: seq<seq<nat>>)
    ensures Flatten([g] + rest) == g + Flatten(rest)
  {
    assert ([g] + rest)[0] == g && ([g] + rest)[1..] == rest;
  }

  lemma DistinctAppend(a: seq<nat>, b: seq<nat>)
    requires Distinct(a) && Distinct(b)
    requires forall k :: k in a ==> k !in b
    ensures Distinct(a + b)
  {
    var c := a + b;
    forall x, y | 0 <= x < y < |c| ensures c[x] != c[y] {
      if x < |a| && y >= |a| {
        assert c[x] in a && c[y] == b[y - |a|] && c[y] in b;
      } else if x >= |a| {
        assert c[x] == b[x - |a|] && c[y] == b[y - |a|];
      }
    }
  }

  /** The groups from `i` on hold exactly the untaken indices from `i` on. */
  lemma {:induction false} GroupingMembers(tools: seq<Record>, similar: (Record, Record) -> bool, i: nat, taken: set<nat>)
    requires i <= |tools|
    ensures forall k :: k in Flatten(Grouping(tools, similar, i, taken)) <==> i <= k < |tools| && k !in taken
    decreases |tools| - i
  {
    if i < |tools| {
      if i in taken {
        GroupingMembers(tools, similar, i + 1, taken);
      } else {
        var g := [i] + Followers(tools, similar, i, i + 1, taken);
        var rest := Grouping(tools, similar, i + 1, taken + Elems(g));
        GroupingAt(tools, similar, i, taken);
        FlattenCons(g, rest);
        FollowersMembers(tools, similar, i, i + 1, taken);
        GroupingMembers(tools, similar, i + 1, taken + Elems(g));
      }
    }
  }

  /** No index lands in two groups, nor twice in one. */
  lemma {:induction false} GroupingDistinct(tools: seq<Record>, similar: (Record, Record) -> bool, i: nat, taken: set<nat>)
    requires i <= |tools|
    ensures Distinct(Flatten(Grouping(tools, similar, i, taken)))
    decreases |tools| - i
  {
    if i < |tools| {
      if i in taken {
        GroupingDistinct(tools, similar, i + 1, taken);
      } else {
        var f := Followers(tools, similar, i, i + 1, taken);
        var g := [i] + f;
        var rest := Grouping(tools, similar, i + 1, taken + Elems(g));
        GroupingAt(tools, similar, i, taken);
        FlattenCons(g, rest);
        assert Distinct(g) by {
          FollowersMembers(tools, similar, i, i + 1, taken);
          FollowersIncreasing(tools, similar, i, i + 1, taken);
          ConsIncreasing(i, f);
        }
        assert forall k :: k in g ==> k !in Flatten(rest) by {
          GroupingMembers(tools, similar, i + 1, taken + Elems(g));
        }
        GroupingDistinct(tools, similar, i + 1, taken + Elems(g));
        DistinctAppend(g, Flatten(rest));
      }
    }
  }

  lemma {:induction false} InFlatten(groups: seq<seq<nat>>, y: nat, k: nat)
    requires y < |groups| && k in groups[y]
    ensures k in Flatten(groups)
  {
    FlattenCons(groups[0], groups[1..]);
    assert groups == [groups[0]] + groups[1..];
    if y > 0 {
      InFlatten(groups[1..], y - 1, k);
    }
  }

  /** Each group is led by its smallest index, which no earlier group took;
      leaders come in increasing order, so there are at most as many groups
      as tools. */
  lemma {:induction false} GroupingLeaders(tools: seq<Record>, similar: (Record, Record) -> bool, i: nat, taken: set<nat>)
    requires i <= |tools|
    ensures var groups := Grouping(tools, similar, i, taken);
      && |groups| <= |tools| - i
      && (forall x :: 0 <= x < |groups| ==> groups[x] != [] && i <= groups[x][0] < |tools| && groups[x][0] !in taken)
      && (forall x, y :: 0 <= x < y < |groups| ==> groups[x][0] < groups[y][0])
    decreases |tools| - i
  {
    if i < |tools| {
      if i in taken {
        GroupingLeaders(tools, similar, i + 1, taken);
      } else {
        var g := [i] + Followers(tools, similar, i, i + 1, taken);
        var rest := Grouping(tools, similar, i + 1, taken + Elems(g));
        var groups := [g] + rest;
        GroupingAt(tools, similar, i, taken);
        GroupingLeaders(tools, similar, i + 1, taken + Elems(g));
        assert forall x :: 0 < x < |groups| ==> groups[x] == rest[x - 1];
      }
    }
  }

  predicate InRange(groups: seq<seq<nat>>, n: nat) {
    forall x, t :: 0 <= x < |groups| && 0 <= t < |groups[x]| ==> groups[x][t] < n
  }

  lemma GroupingInRange(tools: seq<Record>, similar: (Record, Record) -> bool, i: nat, taken: set<nat>)
    requires i <= |tools|
    ensures InRange(Grouping(tools, similar, i, taken), |tools|)
  {
    var groups := Grouping(tools, similar, i, taken);
    GroupingMembers(tools, similar, i, taken);
    forall x, t | 0 <= x < |groups| && 0 <= t < |groups[x]| ensures groups[x][t] < |tools| {
      InFlatten(groups, x, groups[x][t]);
    }
  }

  /** Within each group the indices increase and every member is similar
      to the leader. */
  ghost predicate MembersSimilar(tools: seq<Record>, similar: (Record, Record) -> bool, groups: seq<seq<nat>>) {
    && InRange(groups, |tools|)
    && forall x :: 0 <= x < |groups| ==>
         && Increasing(groups[x])
         && forall t :: 0 < t < |groups[x]| ==> similar(tools[groups[x][0]], tools[groups[x][t]])
  }

  /** An index in a later group, after the leader of an earlier group, is
      not similar to that leader. */
  ghost predicate Greedy(tools: seq<Record>, similar: (Record, Record) -> bool, groups: seq<seq<nat>>) {
    && InRange(groups, |tools|)
    && forall x, y, t :: 0 <= x < y < |groups| && groups[x] != [] && 0 <= t < |groups[y]| && groups[x][0] < groups[y][t] ==>
         !similar(tools[groups[x][0]], tools[groups[y][t]])
  }

  /** `similar_tools` compares each candidate with `tool1`, the leader. */
  lemma {:induction false} GroupingSimilar(tools: seq<Record>, similar: (Record, Record) -> bool, i: nat, taken: set<nat>)
    requires i <= |tools|
    ensures MembersSimilar(tools, similar, Grouping(tools, similar, i, taken))
    decreases |tools| - i
  {
    if i < |tools| {
      if i in taken {
        GroupingPast(tools, similar, i, taken);
        GroupingSimilar(tools, similar, i + 1, taken);
      } else {
        var f := Followers(tools, similar, i, i + 1, taken);
        var g := [i] + f;
        GroupingAt(tools, similar, i, taken);
        LeaderGroup(tools, similar, i, taken);
        GroupingSimilar(tools, similar, i + 1, taken + Elems(g));
        MembersSimilarCons(tools, similar, g, Grouping(tools, similar, i + 1, taken + Elems(g)));
      }
    }
  }

  /** Group `i` is increasing, within range, and similar to its leader. */
  lemma LeaderGroup(tools: seq<Record>, similar: (Record, Record) -> bool, i: nat, taken: set<nat>)
    requires i < |tools|
    ensures var g := [i] + Followers(tools, similar, i, i + 1, taken);
      && (forall t :: 0 <= t < |g| ==> g[t] < |tools|)
      && Increasing(g)
      && forall t :: 0 < t < |g| ==> similar(tools[i], tools[g[t]])
  {
    var f := Followers(tools, similar, i, i + 1, taken);
    var g := [i] + f;
    FollowersMembers(tools, similar, i, i + 1, taken);
    FollowersIncreasing(tools, similar, i, i + 1, taken);
    ConsIncreasing(i, f);
    assert forall t :: 0 < t < |g| ==> g[t] == f[t - 1] && g[t] in f;
  }

  lemma MembersSimilarCons(tools: seq<Record>, similar: (Record, Record) -> bool, g: seq<nat>, rest: seq<seq<nat>>)
    requires g != [] && forall t :: 0 <= t < |g| ==> g[t] < |tools|
    requires Increasing(g) && forall t :: 0 < t < |g| ==> similar(tools[g[0]], tools[g[t]])
    requires MembersSimilar(tools, similar, rest)
    ensures MembersSimilar(tools, similar, [g] + rest)
  {
    var groups := [g] + rest;
    forall x | 0 < x < |groups| ensures groups[x] == rest[x - 1] { }
  }

  /** The grouping is greedy: each leader takes every similar index not yet
      taken. */
  lemma {:induction false} GroupingGreedy(tools: seq<Record>, similar: (Record, Record) -> bool, i: nat, taken: set<nat>)
    requires i <= |tools|
    ensures Greedy(tools, similar, Grouping(tools, similar, i, taken))
    decreases |tools| - i
  {
    if i < |tools| {
      if i in taken {
        GroupingPast(tools, similar, i, taken);
        GroupingGreedy(tools, similar, i + 1, taken);
      } else {
        var g := [i] + Followers(tools, similar, i, i + 1, taken);
        var taken' := taken + Elems(g);
        GroupingAt(tools, similar, i, taken);
        LeaderGroup(tools, similar, i, taken);
        LeaderNotSimilar(tools, similar, i, taken);
        GroupingGreedy(tools, similar, i + 1, taken');
        GreedyCons(tools, similar, g, Grouping(tools, similar, i + 1, taken'));
      }
    }
  }

  lemma GreedyCons(tools: seq<Record>, similar: (Record, Record) -> bool, g: seq<nat>, rest: seq<seq<nat>>)
    requires g != [] && forall t :: 0 <= t < |g| ==> g[t] < |tools|
    requires Greedy(tools, similar, rest)
    requires forall y, t :: 0 <= y < |rest| && 0 <= t < |rest[y]| ==> !similar(tools[g[0]], tools[rest[y][t]])
    ensures Greedy(tools, similar, [g] + rest)
  {
    var groups := [g] + rest;
    forall x, t | 0 <= x < |groups| && 0 <= t < |groups[x]| ensures groups[x][t] < |tools| {
      if x > 0 { assert groups[x] == rest[x - 1]; }
    }
    forall x, y, t | 0 <= x < y < |groups| && groups[x] != [] && 0 <= t < |groups[y]| && groups[x][0] < groups[y][t]
      ensures !similar(tools[groups[x][0]], tools[groups[y][t]])
    {
      assert groups[y] == rest[y - 1];
      if x > 0 {
        assert groups[x] == rest[x - 1];
      }
    }
  }

  /** No index that a later group holds is similar to leader `i`: leader
      `i` took every similar index still untaken. */
  lemma LeaderNotSimilar(tools: seq<Record>, similar: (Record, Record) -> bool, i: nat, taken: set<nat>)
    requires i < |tools| && i !in taken
    ensures var rest := Grouping(tools, similar, i + 1, taken + Elems([i] + Followers(tools, similar, i, i + 1, taken)));
      && InRange(rest, |tools|)
      && forall y, t :: 0 <= y < |rest| && 0 <= t < |rest[y]| ==> !similar(tools[i], tools[rest[y][t]])
  {
    var f := Followers(tools, similar, i, i + 1, taken);
    var taken' := taken + Elems([i] + f);
    var rest := Grouping(tools, similar, i + 1, taken');
    GroupingInRange(tools, similar, i + 1, taken');
    GroupingMembers(tools, similar, i + 1, taken');
    FollowersMembers(tools, similar, i, i + 1, taken);
    forall y, t | 0 <= y < |rest| && 0 <= t < |rest[y]| ensures !similar(tools[i], tools[rest[y][t]]) {
      var k := rest[y][t];
      InFlatten(rest, y, k);
      assert k !in f;
    }
  }

  /** The records at the indices of a group, in group order. */
  function Pick(tools: seq<Record>, g: seq<nat>): (r: seq<Record>)
    requires forall t :: 0 <= t < |g| ==> g[t] < |tools|
    ensures |r| == |g|
    ensures forall t :: 0 <= t < |g| ==> r[t] == tools[g[t]]
  {
    seq(|g|, t requires 0 <= t < |g| => tools[g[t]])
  }

  /** `if merged_tool:` -- a merge result is kept when it is a non-empty
      dict. */
  predicate Truthy(m: Option<Record>) {
    m.Some? && m.value.fields != map[]
  }

  /** The records of each group of indices. */
  function PickAll(tools: seq<Record>, groups: seq<seq<nat>>): (r: seq<seq<Record>>)
    requires InRange(groups, |tools|)
    ensures |r| == |groups|
    ensures forall x :: 0 <= x < |groups| ==> r[x] == Pick(tools, groups[x])
  {
    seq(|groups|, x requires 0 <= x < |groups| && InRange(groups, |tools|) => Pick(tools, groups[x]))
  }

  /** The merge loop of `deduplicate_data`: each group merged by `merge`,
      kept when the result is truthy. */
  function MergeAll(groups: seq<seq<Record>>, merge: seq<Record> -> Option<Record>): (r: seq<Record>)
    ensures |r| <= |groups|
  {
    if groups == [] then []
    else
      var m := merge(groups[0]);
      (if Truthy(m) then [m.value] else []) + MergeAll(groups[1..], merge)
  }

  /** When every group's merge is truthy, the output has one record per
      group, in group order. */
  lemma {:induction false} MergeAllFacts(groups: seq<seq<Record>>, merge: seq<Record> -> Option<Record>)
    requires forall x :: 0 <= x < |groups| ==> Truthy(merge(groups[x]))
    ensures |MergeAll(groups, merge)| == |groups|
    ensures forall x :: 0 <= x < |groups| ==> Some(MergeAll(groups, merge)[x]) == merge(groups[x])
  {
    if groups != [] {
      var rest := MergeAll(groups[1..], merge);
      var m := merge(groups[0]);
      assert Truthy(m);
      MergeAllFacts(groups[1..], merge);
      var r := MergeAll(groups, merge);
      assert r == [m.value] + rest;
      forall x | 0 < x < |groups|
        ensures Some(r[x]) == merge(groups[x])
      {
        assert r[x] == rest[x - 1] && groups[x] == groups[1..][x - 1];
      }
    }
  }

  /** The groups `deduplicate_data` forms over the whole list. */
  function SimilarGroups(tools: seq<Record>): (groups: seq<seq<nat>>)
    ensures InRange(groups, |tools|)
  {
    GroupingInRange(tools, AreSimilar, 0, {});
    Grouping(tools, AreSimilar, 0, {})
  }

  /** What `deduplicate_data` leaves in `tools_data`. */
  function Dedup(tools: seq<Record>): (r: seq<Record>)
    ensures |r| <= |SimilarGroups(tools)|
  {
    MergeAll(PickAll(tools, SimilarGroups(tools)), MergedGroup)
  }

  /** The groups partition the indices: every index lies in exactly one
      group, members follow their leader in index order and are similar to
      it, a later group holds nothing similar to an earlier leader after
      that leader, and leaders come in index order. */
  lemma SimilarGroupsPartition(tools: seq<Record>)
    ensures Partition(tools, AreSimilar, SimilarGroups(tools))
  {
    GroupingPartition(tools, AreSimilar);
  }

  ghost predicate Partition(tools: seq<Record>, similar: (Record, Record) -> bool, groups: seq<seq<nat>>) {
    && (forall k: nat :: k in Flatten(groups) <==> k < |tools|)
    && Distinct(Flatten(groups))
    && MembersSimilar(tools, similar, groups)
    && Greedy(tools, similar, groups)
    && |groups| <= |tools|
    && (forall x :: 0 <= x < |groups| ==> groups[x] != [])
    && (forall x, y :: 0 <= x < y < |groups| ==> groups[x] != [] && groups[y] != [] && groups[x][0] < groups[y][0])
  }

  lemma GroupingPartition(tools: seq<Record>, similar: (Record, Record) -> bool)
    ensures Partition(tools, similar, Grouping(tools, similar, 0, {}))
  {
    var groups := Grouping(tools, similar, 0, {});
    assert forall k: nat :: k in Flatten(groups) <==> k < |tools| by {
      GroupingMembers(tools, similar, 0, {});
    }
    assert Distinct(Flatten(groups)) by {
      GroupingDistinct(tools, similar, 0, {});
    }
    assert MembersSimilar(tools, similar, groups) by {
      GroupingSimilar(tools, similar, 0, {});
    }
    assert Greedy(tools, similar, groups) by {
      GroupingGreedy(tools, similar, 0, {});
    }
    GroupingLeaders(tools, similar, 0, {});
  }

  /** The merge of a non-empty group of named records is a named,
      well-formed, non-empty dict. */
  lemma MergedPickNamed(tools: seq<Record>, g: seq<nat>)
    requires g != [] && forall t :: 0 <= t < |g| ==> g[t] < |tools|
    requires Named(tools) && forall i :: 0 <= i < |tools| ==> WellFormed(tools[i])
    ensures MergedGroup(Pick(tools, g)).Some?
    ensures WellFormed(MergedGroup(Pick(tools, g)).value)
    ensures ToolName in Keys(MergedGroup(Pick(tools, g)).value)
  {
    var p := Pick(tools, g);
    MergedGroupFacts(p);
    UnionKeysHas(p, 0);
  }

  /** `deduplicate_data` outputs one record per group, the group's merge, so
      never more records than it was given; each output is a named,
      well-formed dict. */
  lemma DedupFacts(tools: seq<Record>)
    requires Named(tools) && forall i :: 0 <= i < |tools| ==> WellFormed(tools[i])
    ensures |Dedup(tools)| == |SimilarGroups(tools)| <= |tools|
    ensures forall x :: 0 <= x < |Dedup(tools)| ==>
      Some(Dedup(tools)[x]) == MergedGroup(Pick(tools, SimilarGroups(tools)[x]))
    ensures Named(Dedup(tools))
    ensures forall x :: 0 <= x < |Dedup(tools)| ==> WellFormed(Dedup(tools)[x])
  {
    var groups := SimilarGroups(tools);
    GroupingLeaders(tools, AreSimilar, 0, {});
    PickedMergesNamed(tools);
    MergeAllNamed(PickAll(tools, groups), MergedGroup);
  }

  /** Every group merges to a truthy, named, well-formed dict. */
  ghost predicate MergesNamed(groups: seq<seq<Record>>, merge: seq<Record> -> Option<Record>) {
    forall x :: 0 <= x < |groups| ==>
      && Truthy(merge(groups[x]))
      && WellFormed(merge(groups[x]).value)
      && ToolName in Keys(merge(groups[x]).value)
  }

  lemma PickedMergesNamed(tools: seq<Record>)
    requires Named(tools) && forall i :: 0 <= i < |tools| ==> WellFormed(tools[i])
    ensures MergesNamed(PickAll(tools, SimilarGroups(tools)), MergedGroup)
  {
    var groups := SimilarGroups(tools);
    var picked := PickAll(tools, groups);
    assert forall x :: 0 <= x < |groups| ==> groups[x] != [] by {
      GroupingLeaders(tools, AreSimilar, 0, {});
    }
    forall x | 0 <= x < |groups|
      ensures Truthy(MergedGroup(picked[x]))
      ensures WellFormed(MergedGroup(picked[x]).value)
      ensures ToolName in Keys(MergedGroup(picked[x]).value)
    {
      MergedPickNamed(tools, groups[x]);
    }
  }

  lemma MergeAllNamed(groups: seq<seq<Record>>, merge: seq<Record> -> Option<Record>)
    requires MergesNamed(groups, merge)
    ensures |MergeAll(groups, merge)| == |groups|
    ensures forall x :: 0 <= x < |groups| ==> Some(MergeAll(groups, merge)[x]) == merge(groups[x])
    ensures Named(MergeAll(groups, merge))
    ensures forall x :: 0 <= x < |groups| ==> WellFormed(MergeAll(groups, merge)[x])
  {
    MergeAllFacts(groups, merge);
  }

  /** `[[i], [i + 1], ..., [n - 1]]` */
  function Singletons(i: nat, n: nat): (groups: seq<seq<nat>>)
    ensures |groups| == if i <= n then n - i else 0
    ensures forall x :: 0 <= x < |groups| ==> groups[x] == [i + x]
    decreases n - i
  {
    if i >= n then [] else [[i]] + Singletons(i + 1, n)
  }

  lemma {:induction false} NoFollowers(tools: seq<Record>, similar: (Record, Record) -> bool, i: nat, j: nat, taken: set<nat>)
    requires i < |tools| && j <= |tools|
    requires forall k :: j <= k < |tools| ==> !similar(tools[i], tools[k])
    ensures Followers(tools, similar, i, j, taken) == []
    decreases |tools| - j
  {
    if j < |tools| {
      NoFollowers(tools, similar, i, j + 1, taken);
    }
  }

  /** With no two tools similar, every tool forms a group of its own. */
  lemma {:induction false} GroupingSingletons(tools: seq<Record>, similar: (Record, Record) -> bool, i: nat, taken: set<nat>)
    requires i <= |tools|
    requires forall a, b :: i <= a < b < |tools| ==> !similar(tools[a], tools[b])
    requires forall k :: k in taken ==> k < i
    ensures Grouping(tools, similar, i, taken) == Singletons(i, |tools|)
    decreases |tools| - i
  {
    if i < |tools| {
      NoFollowers(tools, similar, i, i + 1, taken);
      var g := [i] + Followers(tools, similar, i, i + 1, taken);
      assert g == [i];
      GroupingSingletons(tools, similar, i + 1, taken + Elems(g));
      assert Grouping(tools, similar, i, taken) == [[i]] + Singletons(i + 1, |tools|);
    }
  }

  /** A group of one record merges to that record unchanged. */
  lemma MergeSingle(t: Record)
    ensures MergedGroup([t]) == Some(t)
  {
    assert BaseIndex([t]) == 0;
    assert MergeStep([t], 0, 0, t) == t;
    assert MergeLoop([t], 0, 1, t) == t;
    assert MergeLoop([t], 0, 0, t) == MergeLoop([t], 0, 1, t);
  }

  /** Each record in a group of its own. */
  function Singles(ts: seq<Record>): (r: seq<seq<Record>>)
    ensures |r| == |ts|
    ensures forall x :: 0 <= x < |ts| ==> r[x] == [ts[x]]
  {
    if ts == [] then [] else [[ts[0]]] + Singles(ts[1..])
  }

  lemma {:induction false} MergeSingles(ts: seq<Record>)
    requires Named(ts)
    ensures MergeAll(Singles(ts), MergedGroup) == ts
  {
    if ts != [] {
      MergeSingle(ts[0]);
      assert ToolName in ts[0].fields;
      MergeSingles(ts[1..]);
      assert Singles(ts)[1..] == Singles(ts[1..]);
      assert ts == [ts[0]] + ts[1..];
    }
  }

  lemma PickSingletons(tools: seq<Record>)
    ensures InRange(Singletons(0, |tools|), |tools|)
    ensures PickAll(tools, Singletons(0, |tools|)) == Singles(tools)
  {
    SingletonsInRange(|tools|);
    var p := PickAll(tools, Singletons(0, |tools|));
    PickEachSingleton(tools);
    assert forall x :: 0 <= x < |tools| ==> p[x] == Singles(tools)[x];
  }

  lemma SingletonsInRange(n: nat)
    ensures InRange(Singletons(0, n), n)
  {
    var groups := Singletons(0, n);
    forall x, t | 0 <= x < |groups| && 0 <= t < |groups[x]| ensures groups[x][t] < n {
      assert groups[x] == [x];
    }
  }

  lemma PickEachSingleton(tools: seq<Record>)
    requires InRange(Singletons(0, |tools|), |tools|)
    ensures forall x :: 0 <= x < |tools| ==> PickAll(tools, Singletons(0, |tools|))[x] == [tools[x]]
  {
    var groups := Singletons(0, |tools|);
    forall x | 0 <= x < |tools| ensures PickAll(tools, groups)[x] == [tools[x]] {
      assert groups[x] == [x];
      PickOne(tools, x);
    }
  }

  lemma PickOne(tools: seq<Record>, x: nat)
    requires x < |tools|
    ensures Pick(tools, [x]) == [tools[x]]
  {
  }

  /** When no two tools are similar, `deduplicate_data` returns the list as
      it was. */
  lemma DissimilarToolsKept(tools: seq<Record>)
    requires Named(tools)
    requires forall a, b :: 0 <= a < b < |tools| ==> !AreSimilar(tools[a], tools[b])
    ensures Dedup(tools) == tools
  {
    assert SimilarGroups(tools) == Singletons(0, |tools|) by {
      GroupingSingletons(tools, AreSimilar, 0, {});
    }
    assert PickAll(tools, Singletons(0, |tools|)) == Singles(tools) by {
      PickSingletons(tools);
    }
    MergeSingles(tools);
  }

  // ---------------------------------------------------------------------------
  // categorize_uncategorized_tools

  /** The category table with its keywords, in declaration order. */
  const Categories: seq<(string, seq<string>)> := [
    ("Image Generation", ["image", "art", "design", "visual", "photo", "drawing", "midjourney", "dall-e", "stable diffusion", "canva"]),
    ("Text Generation", ["text", "writing", "content", "copy", "article", "blog", "chatgpt", "claude", "jasper", "writer"]),
    ("Code Assistant", ["code", "programming", "developer", "github", "copilot", "coding", "python", "javascript"]),
    ("Video Generation", ["video", "animation", "movie", "film", "motion", "youtube", "tiktok"]),
    ("Audio Generation", ["audio", "music", "sound", "voice", "speech", "podcast", "spotify"]),
    ("Productivity", ["productivity", "automation", "workflow", "task", "management", "notion", "trello"]),
    ("Marketing", ["marketing", "seo", "advertising", "social media", "email", "campaign"]),
    ("Data Analysis", ["data", "analytics", "analysis", "insights", "dashboard", "tableau", "power bi"]),
    ("Research", ["research", "academic", "paper", "study", "scholar", "science"]),
    ("Translation", ["translation", "language", "translate", "multilingual", "google translate"]),
    ("Customer Service", ["customer", "support", "chatbot", "help desk", "zendesk"]),
    ("Education", ["education", "learning", "teaching", "course", "tutorial", "coursera"]),
    ("Health", ["health", "medical", "healthcare", "fitness", "wellness", "hospital"]),
    ("Finance", ["finance", "financial", "trading", "investment", "budget", "quickbooks"])
  ]

  /** `any(keyword in text for keyword in keywords)` */
  predicate AnyKeyword(text: string, keywords: seq<string>) {
    exists k :: k in keywords && Contains(text, k)
  }

  /** The tools the categorizer looks at: Category or Primary Function is
      exactly `"General"`. */
  predicate MarkedGeneral(t: Record) {
    Lookup(t, Category) == Some(General) || Lookup(t, PrimaryFunction) == Some(General)
  }

  /** The lower-cased name and description the keywords are searched in. */
  function SearchText(t: Record): string {
    Lower(Get(t, ToolName, "") + " " + Get(t, Description, ""))
  }

  /** The position in `Categories`, from `c` on, of the first category
      with a keyword in `text`. */
  function CategoryFrom(text: string, c: nat): (r: Option<nat>)
    requires c <= |Categories|
    ensures r.Some? ==> c <= r.value < |Categories| && AnyKeyword(text, Categories[r.value].1)
    ensures forall d :: c <= d < |Categories| && (r.None? || d < r.value) ==> !AnyKeyword(text, Categories[d].1)
    decreases |Categories| - c
  {
    if c == |Categories| then None
    else if AnyKeyword(text, Categories[c].1) then Some(c)
    else CategoryFrom(text, c + 1)
  }

  /** The category the categorizer gives `t`, if it recategorizes it. */
  function NewCategory(t: Record): Option<string> {
    if !MarkedGeneral(t) then None
    else
      var c := CategoryFrom(SearchText(t), 0);
      if c.None? then None else Some(Categories[c.value].0)
  }

  /** One tool after `categorize_uncategorized_tools`: both fields set to
      the new category, or the tool as it was. */
  function Recategorize(t: Record): Record {
    match NewCategory(t)
    case None => t
    case Some(cat) => Put(Put(t, Category, cat), PrimaryFunction, cat)
  }

  lemma CategoryNamesNotGeneral()
    ensures forall c :: 0 <= c < |Categories| ==> Categories[c].0 != General
  {
    forall c | 0 <= c < |Categories| ensures Categories[c].0 != General {
      assert Categories[c].0[0] != 'G';
    }
  }

  /** Only a tool marked `"General"` is changed, and then exactly when one
      of its keywords occurs: both Category and Primary Function become the
      first matching category in table order, and no other field changes. */
  lemma RecategorizeFacts(t: Record)
    ensures !MarkedGeneral(t) ==> Recategorize(t) == t
    ensures NewCategory(t).None? ==> Recategorize(t) == t
    ensures NewCategory(t).Some? <==>
      MarkedGeneral(t) && exists c :: 0 <= c < |Categories| && AnyKeyword(SearchText(t), Categories[c].1)
    ensures NewCategory(t).Some? ==>
      exists c :: 0 <= c < |Categories|
        && NewCategory(t).value == Categories[c].0
        && AnyKeyword(SearchText(t), Categories[c].1)
        && forall d :: 0 <= d < c ==> !AnyKeyword(SearchText(t), Categories[d].1)
    ensures NewCategory(t).Some? ==>
      && Lookup(Recategorize(t), Category) == NewCategory(t)
      && Lookup(Recategorize(t), PrimaryFunction) == NewCategory(t)
    ensures forall k :: k != Category && k != PrimaryFunction ==> Lookup(Recategorize(t), k) == Lookup(t, k)
  {
    var text := SearchText(t);
    var m := CategoryFrom(text, 0);
    if MarkedGeneral(t) && m.Some? {
      var c := m.value;
      assert NewCategory(t) == Some(Categories[c].0);
      assert forall d :: 0 <= d < c ==> !AnyKeyword(text, Categories[d].1);
    }
  }

  /** A recategorized tool no longer reads `"General"` in either field, and
      its name and description are untouched, so a second pass changes
      nothing. */
  lemma RecategorizeIdempotent(t: Record)
    ensures Recategorize(Recategorize(t)) == Recategorize(t)
  {
    var r := Recategorize(t);
    RecategorizeFacts(t);
    if NewCategory(t).Some? {
      CategoryNamesNotGeneral();
      assert !MarkedGeneral(r);
      RecategorizeFacts(r);
    }
  }

  /** Every tool after `categorize_uncategorized_tools`. */
  function CategorizeAll(tools: seq<Record>): (r: seq<Record>)
    ensures |r| == |tools|
    ensures forall i :: 0 <= i < |tools| ==> r[i] == Recategorize(tools[i])
  {
    MapEach(tools, Recategorize)
  }

  /** `categorized_count`: the tools the pass recategorizes. */
  function CountRecategorized(tools: seq<Record>): (n: nat)
    ensures n <= |tools|
  {
    if tools == [] then 0
    else CountRecategorized(tools[..|tools| - 1]) + (if NewCategory(tools[|tools| - 1]).Some? then 1 else 0)
  }

  lemma CountStep(tools: seq<Record>, i: nat)
    requires i < |tools|
    ensures CountRecategorized(tools[..i + 1]) ==
      CountRecategorized(tools[..i]) + (if NewCategory(tools[i]).Some? then 1 else 0)
  {
    assert tools[..i + 1][..i] == tools[..i];
  }

  /** How many positions of two equally long lists differ. */
  function CountChanged(a: seq<Record>, b: seq<Record>): (n: nat)
    requires |a| == |b|
  {
    if a == [] then 0
    else CountChanged(a[..|a| - 1], b[..|b| - 1]) + (if a[|a| - 1] != b[|b| - 1] then 1 else 0)
  }

  /** A recategorized tool always differs from what it was, so the counter
      is the number of tools the pass changed, at most one per tool. */
  lemma {:induction false} CountIsChanged(tools: seq<Record>)
    ensures CountRecategorized(tools) == CountChanged(tools, CategorizeAll(tools)) <= |tools|
  {
    if tools != [] {
      var n := |tools| - 1;
      var t := tools[n];
      assert CategorizeAll(tools)[..n] == CategorizeAll(tools[..n]);
      CountIsChanged(tools[..n]);
      RecategorizeFacts(t);
      if NewCategory(t).Some? {
        CategoryNamesNotGeneral();
        assert Recategorize(t) != t by {
          if Lookup(t, Category) == Some(General) {
            assert Lookup(Recategorize(t), Category) != Lookup(t, Category);
          } else {
            assert Lookup(Recategorize(t), PrimaryFunction) != Lookup(t, PrimaryFunction);
          }
        }
      }
    }
  }

  // ---------------------------------------------------------------------------
  // enhance_data

  const TargetUsers := "Target Users"

  /** Default Key Features by category, in declaration order; a key matches
      when it occurs in the lower-cased Category. */
  const FeaturesMap: seq<(string, string)> := [
    ("image generation", "AI-powered image creation, Style transfer, High-resolution output"),
    ("text generation", "Natural language processing, Content creation, Multiple languages"),
    ("code assistant", "Code completion, Syntax highlighting, Multiple programming languages"),
    ("video generation", "AI video creation, Template library, Export options"),
    ("audio generation", "Music generation, Voice synthesis, Audio editing"),
    ("productivity", "Task automation, Workflow optimization, Integration capabilities"),
    ("marketing", "Campaign optimization, Analytics, A/B testing"),
    ("data analysis", "Data visualization, Predictive analytics, Reporting")
  ]

  /** The position in `FeaturesMap`, from `c` on, of the first key
      occurring in `category`. */
  function FeaturesFrom(category: string, c: nat): (r: Option<nat>)
    requires c <= |FeaturesMap|
    ensures r.Some? ==> c <= r.value < |FeaturesMap| && Contains(category, FeaturesMap[r.value].0)
    ensures forall d :: c <= d < |FeaturesMap| && (r.None? || d < r.value) ==> !Contains(category, FeaturesMap[d].0)
    decreases |FeaturesMap| - c
  {
    if c == |FeaturesMap| then None
    else if Contains(category, FeaturesMap[c].0) then Some(c)
    else FeaturesFrom(category, c + 1)
  }

  /** The lower-cased Category the enrichment rules read. */
  function CategoryText(t: Record): string {
    Lower(Get(t, Category, ""))
  }

  /** Key Features still to be filled in: missing, empty or the
      `"See website"` placeholder. */
  predicate NeedsFeatures(t: Record) {
    Lookup(t, KeyFeatures) == Some(SeeWebsite) || Get(t, KeyFeatures, "") == []
  }

  /** The Key Features rule: a placeholder takes the features of the first
      matching category, if any. */
  function EnhanceFeatures(t: Record): Record {
    if !NeedsFeatures(t) then t
    else
      var c := FeaturesFrom(CategoryText(t), 0);
      if c.None? then t else Put(t, KeyFeatures, FeaturesMap[c.value].1)
  }

  /** The Target Users chosen for a lower-cased category, tested in order. */
  function UsersFor(category: string): Option<string> {
    if Contains(category, "code") || Contains(category, "developer") then Some("Developers")
    else if Contains(category, "business") || Contains(category, "marketing") then Some("Business Professionals")
    else if Contains(category, "education") then Some("Educators and Students")
    else if Contains(category, "health") then Some("Healthcare Professionals")
    else if Contains(category, "finance") then Some("Financial Professionals")
    else None
  }

  /** The Target Users rule: a `"General"` audience is narrowed by
      category. */
  function EnhanceUsers(t: Record): Record {
    if Lookup(t, TargetUsers) != Some(General) then t
    else
      var u := UsersFor(CategoryText(t));
      if u.None? then t else Put(t, TargetUsers, u.value)
  }

  /** One tool after `enhance_data`. */
  function Enhance(t: Record): Record {
    EnhanceUsers(EnhanceFeatures(t))
  }

  /** Enrichment touches only Key Features and Target Users; Key Features
      change only when they were a placeholder and then become the
      features of the first category key found in the Category; Target
      Users change only from `"General"`. */
  lemma EnhanceFacts(t: Record)
    ensures forall k :: k != KeyFeatures && k != TargetUsers ==> Lookup(Enhance(t), k) == Lookup(t, k)
    ensures Lookup(Enhance(t), KeyFeatures) != Lookup(t, KeyFeatures) ==>
      && NeedsFeatures(t)
      && exists c :: 0 <= c < |FeaturesMap|
           && Lookup(Enhance(t), KeyFeatures) == Some(FeaturesMap[c].1)
           && Contains(CategoryText(t), FeaturesMap[c].0)
           && forall d :: 0 <= d < c ==> !Contains(CategoryText(t), FeaturesMap[d].0)
    ensures Lookup(Enhance(t), TargetUsers) != Lookup(t, TargetUsers) ==>
      Lookup(t, TargetUsers) == Some(General) && Lookup(Enhance(t), TargetUsers) == UsersFor(CategoryText(t))
  {
    var f := EnhanceFeatures(t);
    var c := FeaturesFrom(CategoryText(t), 0);
    if NeedsFeatures(t) && c.Some? {
      assert Lookup(f, KeyFeatures) == Some(FeaturesMap[c.value].1);
    }
    assert CategoryText(f) == CategoryText(t);
  }

  lemma FeaturesSet(c: nat)
    requires c < |FeaturesMap|
    ensures FeaturesMap[c].1 != [] && FeaturesMap[c].1 != SeeWebsite
  {
  }

  lemma UsersNotGeneral(category: string)
    ensures UsersFor(category) != Some(General)
  {
  }

  /** A second pass of `enhance_data` changes nothing. */
  lemma EnhanceIdempotent(t: Record)
    ensures Enhance(Enhance(t)) == Enhance(t)
  {
    var f := EnhanceFeatures(t);
    var c := FeaturesFrom(CategoryText(t), 0);
    assert CategoryText(f) == CategoryText(t);
    assert EnhanceFeatures(f) == f by {
      if NeedsFeatures(t) && c.Some? {
        FeaturesSet(c.value);
        assert !NeedsFeatures(f);
      }
    }
    var e := EnhanceUsers(f);
    assert CategoryText(e) == CategoryText(f);
    assert !NeedsFeatures(e) <==> !NeedsFeatures(f);
    assert EnhanceFeatures(e) == e by {
      if NeedsFeatures(f) {
        assert FeaturesFrom(CategoryText(e), 0) == FeaturesFrom(CategoryText(f), 0);
      }
    }
    UsersNotGeneral(CategoryText(f));
  }

  /** Every tool after `enhance_data`. */
  function EnhanceAll(tools: seq<Record>): (r: seq<Record>)
    ensures |r| == |tools|
    ensures forall i :: 0 <= i < |tools| ==> r[i] == Enhance(tools[i])
  {
    MapEach(tools, Enhance)
  }

  // ---------------------------------------------------------------------------
  // generate_statistics

  /** The returned statistics: `total_tools` and the four tallies. */
  datatype Stats = Stats(
    totalTools: nat,
    categories: map<string, nat>,
    pricingModels: map<string, nat>,
    targetUsers: map<string, nat>,
    launchYears: map<string, nat>)

  /** A `defaultdict(int)` after `d[v] += 1` for each `v` of `vs` in turn. */
  function Tally(vs: seq<string>): map<string, nat> {
    if vs == [] then map[] else Count(Tally(vs[..|vs| - 1]), vs[|vs| - 1])
  }

  /** `d[v] += 1` on a `defaultdict(int)`. */
  function Count(m: map<string, nat>, v: string): map<string, nat> {
    m[v := (if v in m then m[v] else 0) + 1]
  }

  /** The tally has a key for each value that occurs, and counts its
      occurrences. */
  lemma {:induction false} TallyCounts(vs: seq<string>)
    ensures forall v :: v in Tally(vs) <==> v in vs
    ensures forall v :: v in Tally(vs) ==> Tally(vs)[v] == multiset(vs)[v]
  {
    if vs != [] {
      var init := vs[..|vs| - 1];
      TallyCounts(init);
      assert vs == init + [vs[|vs| - 1]];
      assert multiset(vs) == multiset(init) + multiset{vs[|vs| - 1]};
    }
  }

  /** `tool.get(key, "Unknown")` for every tool, in order. */
  function Column(tools: seq<Record>, key: string): (r: seq<string>)
    ensures |r| == |tools|
    ensures forall i :: 0 <= i < |tools| ==> r[i] == Get(tools[i], key, Unknown)
  {
    seq(|tools|, i requires 0 <= i < |tools| => Get(tools[i], key, Unknown))
  }

  /** The Launch Years that are not `"Unknown"`, in order. */
  function KnownYears(tools: seq<Record>): seq<string> {
    if tools == [] then []
    else
      var y := Get(tools[|tools| - 1], LaunchYear, Unknown);
      KnownYears(tools[..|tools| - 1]) + (if y != Unknown then [y] else [])
  }

  /** What `generate_statistics` returns for `tools`. */
  function StatsOf(tools: seq<Record>): Stats {
    Stats(|tools|, Tally(Column(tools, Category)), Tally(Column(tools, PricingModel)),
          Tally(Column(tools, TargetUsers)), Tally(KnownYears(tools)))
  }

  /** The known years are the Launch Year column without `"Unknown"`. */
  lemma {:induction false} KnownYearsCount(tools: seq<Record>)
    ensures multiset(KnownYears(tools))[Unknown] == 0
    ensures forall v :: v != Unknown ==> multiset(KnownYears(tools))[v] == multiset(Column(tools, LaunchYear))[v]
  {
    if tools != [] {
      var init := tools[..|tools| - 1];
      var y := Get(tools[|tools| - 1], LaunchYear, Unknown);
      KnownYearsCount(init);
      ColumnSnoc(tools, LaunchYear);
      assert multiset(Column(tools, LaunchYear)) == multiset(Column(init, LaunchYear)) + multiset{y};
      if y != Unknown {
        assert KnownYears(tools) == KnownYears(init) + [y];
        assert multiset(KnownYears(tools)) == multiset(KnownYears(init)) + multiset{y};
      } else {
        assert KnownYears(tools) == KnownYears(init) + [];
      }
    }
  }

  /** The column of all but the last tool, then the last tool's value. */
  lemma ColumnSnoc(tools: seq<Record>, key: string)
    requires tools != []
    ensures Column(tools, key) == Column(tools[..|tools| - 1], key) + [Get(tools[|tools| - 1], key, Unknown)]
  {
    var a, b := Column(tools, key), Column(tools[..|tools| - 1], key) + [Get(tools[|tools| - 1], key, Unknown)];
    forall i | 0 <= i < |a| ensures a[i] == b[i] { }
  }

  /** Each tally counts, for every value, the tools that carry it (absent
      fields count as `"Unknown"`), and the year tally never counts
      `"Unknown"`. */
  lemma StatsFacts(tools: seq<Record>)
    ensures StatsOf(tools).totalTools == |tools|
    ensures forall v :: v in StatsOf(tools).categories <==> v in Column(tools, Category)
    ensures forall v :: v in StatsOf(tools).categories ==>
      StatsOf(tools).categories[v] == multiset(Column(tools, Category))[v]
    ensures forall v :: v in StatsOf(tools).pricingModels ==>
      StatsOf(tools).pricingModels[v] == multiset(Column(tools, PricingModel))[v]
    ensures forall v :: v in StatsOf(tools).targetUsers ==>
      StatsOf(tools).targetUsers[v] == multiset(Column(tools, TargetUsers))[v]
    ensures Unknown !in StatsOf(tools).launchYears
    ensures forall v :: v in StatsOf(tools).launchYears ==>
      StatsOf(tools).launchYears[v] == multiset(Column(tools, LaunchYear))[v]
  {
    TallyCounts(Column(tools, Category));
    TallyCounts(Column(tools, PricingModel));
    TallyCounts(Column(tools, TargetUsers));
    TallyCounts(KnownYears(tools));
    KnownYearsCount(tools);
  }

  /** One more tool extends a column's tally by that tool's value. */
  lemma ColumnStep(tools: seq<Record>, i: nat, key: string)
    requires i < |tools|
    ensures Tally(Column(tools[..i + 1], key)) == Count(Tally(Column(tools[..i], key)), Get(tools[i], key, Unknown))
  {
    var col := Column(tools[..i + 1], key);
    assert col[..i] == Column(tools[..i], key);
  }

  /** One more tool extends the year tally when its year is known. */
  lemma YearsStep(tools: seq<Record>, i: nat)
    requires i < |tools|
    ensures var y := Get(tools[i], LaunchYear, Unknown);
      Tally(KnownYears(tools[..i + 1])) ==
        if y != Unknown then Count(Tally(KnownYears(tools[..i])), y) else Tally(KnownYears(tools[..i]))
  {
    var pre := tools[..i + 1];
    assert pre[..i] == tools[..i];
    var y := Get(tools[i], LaunchYear, Unknown);
    var ky := KnownYears(pre);
    if y != Unknown {
      assert ky == KnownYears(tools[..i]) + [y];
      assert ky[..|ky| - 1] == KnownYears(tools[..i]) && ky[|ky| - 1] == y;
      assert Tally(ky) == Count(Tally(ky[..|ky| - 1]), ky[|ky| - 1]);
    } else {
      assert ky == KnownYears(tools[..i]) + [];
      assert ky == KnownYears(tools[..i]);
    }
  }

  // ---------------------------------------------------------------------------
  // load_data_from_files (the row filter)

  /** The rows a CSV file contributes: those with a truthy Tool Name. */
  function RowsWithName(rows: seq<Record>): (r: seq<Record>)
    ensures |r| <= |rows|
    ensures Named(r)
    ensures forall i :: 0 <= i < |r| ==> r[i] in rows && Get(r[i], ToolName, "") != []
  {
    if rows == [] then []
    else
      var last := rows[|rows| - 1];
      RowsWithName(rows[..|rows| - 1]) + (if Get(last, ToolName, "") != [] then [last] else [])
  }

  // ---------------------------------------------------------------------------
  // The cleaner object

  /** The field loop of `clean_data` for one record. */
  method CleanTool(tool: Record) returns (cleaned: Record)
    ensures cleaned == CleanRecord(tool)
  {
    cleaned := Empty();
    var j := 0;
    while j < |tool.names|
      invariant j <= |tool.names|
      invariant CleanFrom(tool, tool.names[j..], cleaned, CleanValue) == CleanRecord(tool)
    {
      assert tool.names[j..][1..] == tool.names[j + 1..];
      var f := tool.names[j];
      var v := Get(tool, f, "");
      if f == PrimaryFunction && v == [] {
        cleaned := Put(cleaned, f, Get(cleaned, Category, General));
      } else {
        cleaned := Put(cleaned, f, CleanValue(f, v));
      }
      j := j + 1;
    }
  }

  /** The body of the categorizer's loop for one tool: the category search
      in table order, stopping at the first keyword hit. */
  method RecategorizeTool(tool: Record) returns (r: Record, changed: bool)
    ensures r == Recategorize(tool)
    ensures changed <==> NewCategory(tool).Some?
  {
    r, changed := tool, false;
    if Lookup(tool, Category) == Some(General) || Lookup(tool, PrimaryFunction) == Some(General) {
      var text := Lower(Get(tool, ToolName, "") + " " + Get(tool, Description, ""));
      var c := 0;
      while c < |Categories|
        invariant c <= |Categories|
        invariant CategoryFrom(text, 0) == CategoryFrom(text, c)
      {
        if AnyKeyword(text, Categories[c].1) {
          r := Put(Put(tool, Category, Categories[c].0), PrimaryFunction, Categories[c].0);
          changed := true;
          return;
        }
        c := c + 1;
      }
    }
  }

  /** The Key Features step of `enhance_data` for one tool. */
  method FillFeatures(tool: Record) returns (r: Record)
    ensures r == EnhanceFeatures(tool)
  {
    r := tool;
    if Lookup(tool, KeyFeatures) == Some(SeeWebsite) || Get(tool, KeyFeatures, "") == [] {
      var category := Lower(Get(tool, Category, ""));
      var c := 0;
      while c < |FeaturesMap|
        invariant c <= |FeaturesMap|
        invariant FeaturesFrom(category, 0) == FeaturesFrom(category, c)
      {
        if Contains(category, FeaturesMap[c].0) {
          r := Put(tool, KeyFeatures, FeaturesMap[c].1);
          return;
        }
        c := c + 1;
      }
    }
  }

  /** The Target Users step of `enhance_data` for one tool. */
  method NarrowUsers(tool: Record) returns (r: Record)
    ensures r == EnhanceUsers(tool)
  {
    r := tool;
    if Lookup(tool, TargetUsers) == Some(General) {
      var category := Lower(Get(tool, Category, ""));
      if Contains(category, "code") || Contains(category, "developer") {
        r := Put(tool, TargetUsers, "Developers");
      } else if Contains(category, "business") || Contains(category, "marketing") {
        r := Put(tool, TargetUsers, "Business Professionals");
      } else if Contains(category, "education") {
        r := Put(tool, TargetUsers, "Educators and Students");
      } else if Contains(category, "health") {
        r := Put(tool, TargetUsers, "Healthcare Professionals");
      } else if Contains(category, "finance") {
        r := Put(tool, TargetUsers, "Financial Professionals");
      }
    }
  }

  /** The inner loop of `deduplicate_data`: tool `i` and every later
      untaken tool similar to it, each marked processed. */
  method CollectGroup(tools: seq<Record>, similar: (Record, Record) -> bool, i: nat, processed: set<nat>)
    returns (similarTools: seq<Record>, taken: set<nat>, ghost idx: seq<nat>)
    requires i < |tools| && i !in processed
    ensures idx == [i] + Followers(tools, similar, i, i + 1, processed)
    ensures taken == processed + Elems(idx)
    ensures forall t :: 0 <= t < |idx| ==> idx[t] < |tools|
    ensures similarTools == Pick(tools, idx)
  {
    similarTools, taken, idx := [tools[i]], processed + {i}, [i];
    var j := i + 1;
    CollectStart(tools, similar, i, processed);
    while j < |tools|
      invariant i + 1 <= j <= |tools|
      invariant Collecting(tools, similar, i, j, processed, idx, taken, similarTools)
    {
      var joins := j !in taken && similar(tools[i], tools[j]);
      CollectStep(tools, similar, i, j, processed, idx, taken, similarTools, joins);
      if joins {
        similarTools := similarTools + [tools[j]];
        idx := idx + [j];
        taken := taken + {j};
      }
      j := j + 1;
    }
    assert Followers(tools, similar, i, j, processed) == [];
  }

  /** The state of the inner loop before candidate `j`: `idx` holds the
      group found so far, `taken` the processed indices and `similarTools`
      the records of the group. */
  ghost predicate Collecting(tools: seq<Record>, similar: (Record, Record) -> bool, i: nat, j: nat, processed: set<nat>,
                             idx: seq<nat>, taken: set<nat>, similarTools: seq<Record>)
    requires i < j <= |tools|
  {
    && idx + Followers(tools, similar, i, j, processed) == [i] + Followers(tools, similar, i, i + 1, processed)
    && taken == processed + Elems(idx)
    && (forall t :: 0 <= t < |idx| ==> idx[t] < j)
    && similarTools == Pick(tools, idx)
  }

  lemma CollectStart(tools: seq<Record>, similar: (Record, Record) -> bool, i: nat, processed: set<nat>)
    requires i < |tools| && i !in processed
    ensures Collecting(tools, similar, i, i + 1, processed, [i], processed + {i}, [tools[i]])
  {
    assert Elems([i]) == {i};
  }

  lemma CollectStep(tools: seq<Record>, similar: (Record, Record) -> bool, i: nat, j: nat, processed: set<nat>,
                    idx: seq<nat>, taken: set<nat>, similarTools: seq<Record>, joins: bool)
    requires i < j < |tools|
    requires Collecting(tools, similar, i, j, processed, idx, taken, similarTools)
    requires joins == (j !in taken && similar(tools[i], tools[j]))
    ensures joins ==> Collecting(tools, similar, i, j + 1, processed, idx + [j], taken + {j}, similarTools + [tools[j]])
    ensures !joins ==> Collecting(tools, similar, i, j + 1, processed, idx, taken, similarTools)
  {
    assert j in taken <==> j in processed by {
      assert j !in idx;
    }
    FollowersStep(tools, similar, i, j, processed, idx, joins);
    if joins {
      ElemsSnoc(idx, j);
      PickSnoc(tools, idx, j);
    }
  }

  lemma ElemsSnoc(g: seq<nat>, j: nat)
    ensures Elems(g + [j]) == Elems(g) + {j}
  {
  }

  lemma PickSnoc(tools: seq<Record>, g: seq<nat>, j: nat)
    requires forall t :: 0 <= t < |g| ==> g[t] < |tools|
    requires j < |tools|
    ensures Pick(tools, g + [j]) == Pick(tools, g) + [tools[j]]
  {
    var a, b := Pick(tools, g + [j]), Pick(tools, g) + [tools[j]];
    forall t | 0 <= t < |a| ensures a[t] == b[t] {
      if t < |g| { assert (g + [j])[t] == g[t]; }
    }
  }

  /** One candidate of the inner loop: `j` joins the group exactly when it
      is untaken and similar to the leader. */
  lemma FollowersStep(tools: seq<Record>, similar: (Record, Record) -> bool, i: nat, j: nat, taken: set<nat>, idx: seq<nat>, joins: bool)
    requires i < j < |tools|
    requires joins == (j !in taken && similar(tools[i], tools[j]))
    ensures idx + Followers(tools, similar, i, j, taken) ==
      (if joins then idx + [j] else idx) + Followers(tools, similar, i, j + 1, taken)
  {
    var rest := Followers(tools, similar, i, j + 1, taken);
    if joins {
      assert idx + ([j] + rest) == (idx + [j]) + rest;
    }
  }

  /** The outer loop of `deduplicate_data`: the groups of records, with
      the indices they came from. */
  method GroupTools(tools: seq<Record>, similar: (Record, Record) -> bool)
    returns (toolGroups: seq<seq<Record>>, ghost groups: seq<seq<nat>>)
    ensures groups == Grouping(tools, similar, 0, {})
    ensures InRange(groups, |tools|) && toolGroups == PickAll(tools, groups)
  {
    toolGroups, groups := [], [];
    var processed: set<nat> := {};
    var i := 0;
    while i < |tools|
      invariant i <= |tools|
      invariant GroupedSoFar(tools, similar, i, processed, groups, toolGroups)
    {
      if i !in processed {
        ghost var before := processed;
        var similarTools;
        ghost var idx;
        similarTools, processed, idx := CollectGroup(tools, similar, i, processed);
        GroupStep(tools, similar, i, before, groups, toolGroups, idx, similarTools);
        toolGroups := toolGroups + [similarTools];
        groups := groups + [idx];
      } else {
        GroupSkip(tools, similar, i, processed, groups, toolGroups);
      }
      i := i + 1;
    }
    assert Grouping(tools, similar, i, processed) == [];
  }

  /** The state of the outer loop before tool `i`: `groups` are the groups
      formed so far, and `toolGroups` their records. */
  ghost predicate GroupedSoFar(tools: seq<Record>, similar: (Record, Record) -> bool, i: nat, processed: set<nat>,
                               groups: seq<seq<nat>>, toolGroups: seq<seq<Record>>)
    requires i <= |tools|
  {
    && groups + Grouping(tools, similar, i, processed) == Grouping(tools, similar, 0, {})
    && Picked(tools, groups, toolGroups)
  }

  /** `toolGroups` holds the records of `groups`. */
  ghost predicate Picked(tools: seq<Record>, groups: seq<seq<nat>>, toolGroups: seq<seq<Record>>) {
    && |toolGroups| == |groups|
    && InRange(groups, |tools|)
    && forall x :: 0 <= x < |groups| ==> toolGroups[x] == Pick(tools, groups[x])
  }

  lemma PickedSnoc(tools: seq<Record>, groups: seq<seq<nat>>, toolGroups: seq<seq<Record>>, idx: seq<nat>, similarTools: seq<Record>)
    requires Picked(tools, groups, toolGroups)
    requires forall t :: 0 <= t < |idx| ==> idx[t] < |tools|
    requires similarTools == Pick(tools, idx)
    ensures Picked(tools, groups + [idx], toolGroups + [similarTools])
  {
    var gs, ts := groups + [idx], toolGroups + [similarTools];
    forall x, t | 0 <= x < |gs| && 0 <= t < |gs[x]| ensures gs[x][t] < |tools| {
      if x < |groups| { assert gs[x] == groups[x]; }
    }
    forall x | 0 <= x < |gs| ensures ts[x] == Pick(tools, gs[x]) {
      if x < |groups| { assert gs[x] == groups[x] && ts[x] == toolGroups[x]; }
    }
  }

  lemma GroupStep(tools: seq<Record>, similar: (Record, Record) -> bool, i: nat, processed: set<nat>,
                  groups: seq<seq<nat>>, toolGroups: seq<seq<Record>>, idx: seq<nat>, similarTools: seq<Record>)
    requires i < |tools| && i !in processed
    requires GroupedSoFar(tools, similar, i, processed, groups, toolGroups)
    requires idx == [i] + Followers(tools, similar, i, i + 1, processed)
    requires forall t :: 0 <= t < |idx| ==> idx[t] < |tools|
    requires similarTools == Pick(tools, idx)
    ensures GroupedSoFar(tools, similar, i + 1, processed + Elems(idx), groups + [idx], toolGroups + [similarTools])
  {
    GroupingAt(tools, similar, i, processed);
    AppendAssoc(groups, [idx], Grouping(tools, similar, i + 1, processed + Elems(idx)));
    PickedSnoc(tools, groups, toolGroups, idx, similarTools);
  }

  /** The grouping from an untaken tool `i` opens with `i`'s group. */
  lemma GroupingAt(tools: seq<Record>, similar: (Record, Record) -> bool, i: nat, taken: set<nat>)
    requires i < |tools| && i !in taken
    ensures var g := [i] + Followers(tools, similar, i, i + 1, taken);
      Grouping(tools, similar, i, taken) == [g] + Grouping(tools, similar, i + 1, taken + Elems(g))
  {
  }

  /** A taken tool leads no group. */
  lemma GroupingPast(tools: seq<Record>, similar: (Record, Record) -> bool, i: nat, taken: set<nat>)
    requires i < |tools| && i in taken
    ensures Grouping(tools, similar, i, taken) == Grouping(tools, similar, i + 1, taken)
  {
  }

  lemma AppendAssoc<T>(a: seq<T>, b: seq<T>, c: seq<T>)
    ensures a + b + c == a + (b + c)
  {
  }

  lemma GroupSkip(tools: seq<Record>, similar: (Record, Record) -> bool, i: nat, processed: set<nat>,
                  groups: seq<seq<nat>>, toolGroups: seq<seq<Record>>)
    requires i < |tools| && i in processed
    requires GroupedSoFar(tools, similar, i, processed, groups, toolGroups)
    ensures GroupedSoFar(tools, similar, i + 1, processed, groups, toolGroups)
  {
  }

  /** One group of the merge loop. */
  lemma MergeAllStep(groups: seq<seq<Record>>, merge: seq<Record> -> Option<Record>, x: nat)
    requires x < |groups|
    ensures var m := merge(groups[x]);
      MergeAll(groups[x..], merge) == (if Truthy(m) then [m.value] else []) + MergeAll(groups[x + 1..], merge)
  {
    assert groups[x..][0] == groups[x];
    assert groups[x..][1..] == groups[x + 1..];
  }

  /** The merge loop of `deduplicate_data`. */
  method MergeEach(toolGroups: seq<seq<Record>>) returns (merged: seq<Record>)
    ensures merged == MergeAll(toolGroups, MergedGroup)
  {
    merged := [];
    var x := 0;
    assert toolGroups[0..] == toolGroups;
    while x < |toolGroups|
      invariant x <= |toolGroups|
      invariant merged + MergeAll(toolGroups[x..], MergedGroup) == MergeAll(toolGroups, MergedGroup)
    {
      MergeAllStep(toolGroups, MergedGroup, x);
      var m := MergeTools(toolGroups[x]);
      if m.Some? && m.value.fields != map[] {
        merged := merged + [m.value];
      }
      x := x + 1;
    }
  }

  /** `AIToolsDataCleaner`: the list of tool records the passes rewrite. */
  class AIToolsDataCleaner {
    var toolsData: seq<Record>

    constructor()
      ensures toolsData == []
    {
      toolsData := [];
    }

    /** The filter of `load_data_from_files` for the rows of one file:
        rows without a Tool Name are skipped, the rest appended. */
    method LoadRows(rows: seq<Record>) returns (loaded: nat)
      modifies this
      ensures toolsData == old(toolsData) + RowsWithName(rows)
      ensures loaded == |RowsWithName(rows)|
    {
      loaded := 0;
      var i := 0;
      while i < |rows|
        invariant i <= |rows|
        invariant toolsData == old(toolsData) + RowsWithName(rows[..i])
        invariant loaded == |RowsWithName(rows[..i])|
      {
        assert rows[..i + 1][..i] == rows[..i];
        if Get(rows[i], ToolName, "") != [] {
          toolsData := toolsData + [rows[i]];
          loaded := loaded + 1;
        }
        i := i + 1;
      }
      assert rows[..|rows|] == rows;
    }

    /** `clean_data`: every record cleaned field by field; those left
        without a Tool Name are dropped. */
    method CleanData()
      modifies this
      ensures toolsData == CleanAll(old(toolsData))
    {
      var tools := toolsData;
      var cleanedTools: seq<Record> := [];
      ghost var cs: seq<Record> := [];
      var i := 0;
      while i < |tools|
        invariant i <= |tools| && |cs| == i
        invariant MappedPrefix(tools, cs, CleanRecord)
        invariant cleanedTools == FilterBy(cs, KeepCleaned)
      {
        var cleaned := CleanTool(tools[i]);
        FilterBySnoc(cs, cleaned, KeepCleaned);
        MappedPrefixSnoc(tools, cs, CleanRecord, cleaned);
        cs := cs + [cleaned];
        if KeepCleaned(cleaned) {
          cleanedTools := cleanedTools + [cleaned];
        }
        i := i + 1;
      }
      MappedPrefixAll(tools, cs, CleanRecord);
      toolsData := cleanedTools;
    }

    /** `deduplicate_data`: greedy grouping of similar tools, then one
        merged record per group. */
    method DeduplicateData()
      requires Named(toolsData)
      modifies this
      ensures toolsData == Dedup(old(toolsData))
    {
      var tools := toolsData;
      var toolGroups;
      ghost var groups;
      toolGroups, groups := GroupTools(tools, AreSimilar);
      var mergedTools := MergeEach(toolGroups);
      toolsData := mergedTools;
    }

    /** `categorize_uncategorized_tools`: recategorizes the tools marked
        `"General"` and returns how many it changed. */
    method CategorizeUncategorizedTools() returns (categorizedCount: nat)
      modifies this
      ensures toolsData == CategorizeAll(old(toolsData))
      ensures categorizedCount == CountRecategorized(old(toolsData))
    {
      var tools := toolsData;
      categorizedCount := 0;
      var i := 0;
      UpdatedStart(tools, Recategorize);
      while i < |tools|
        invariant i <= |tools|
        invariant UpdatedPrefix(tools, toolsData, i, Recategorize)
        invariant categorizedCount == CountRecategorized(tools[..i])
      {
        var tool, changed := RecategorizeTool(tools[i]);
        CountStep(tools, i);
        if changed {
          categorizedCount := categorizedCount + 1;
        }
        UpdatedStep(tools, toolsData, i, Recategorize, tool);
        toolsData := toolsData[i := tool];
        i := i + 1;
      }
      UpdatedAll(tools, toolsData, Recategorize);
      assert tools[..|tools|] == tools;
    }

    /** `enhance_data`: fills placeholder Key Features and narrows
        `"General"` Target Users by category. */
    method EnhanceData()
      modifies this
      ensures toolsData == EnhanceAll(old(toolsData))
    {
      var tools := toolsData;
      var i := 0;
      UpdatedStart(tools, Enhance);
      while i < |tools|
        invariant i <= |tools|
        invariant UpdatedPrefix(tools, toolsData, i, Enhance)
      {
        var tool := FillFeatures(tools[i]);
        tool := NarrowUsers(tool);
        UpdatedStep(tools, toolsData, i, Enhance, tool);
        toolsData := toolsData[i := tool];
        i := i + 1;
      }
      UpdatedAll(tools, toolsData, Enhance);
    }

    /** `generate_statistics`: the tallies over the current records. */
    method GenerateStatistics() returns (stats: Stats)
      ensures stats == StatsOf(toolsData)
    {
      var tools := toolsData;
      var categories: map<string, nat> := map[];
      var pricing: map<string, nat> := map[];
      var users: map<string, nat> := map[];
      var years: map<string, nat> := map[];
      var i := 0;
      while i < |tools|
        invariant i <= |tools|
        invariant categories == Tally(Column(tools[..i], Category))
        invariant pricing == Tally(Column(tools[..i], PricingModel))
        invariant users == Tally(Column(tools[..i], TargetUsers))
        invariant years == Tally(KnownYears(tools[..i]))
      {
        ColumnStep(tools, i, Category);
        ColumnStep(tools, i, PricingModel);
        ColumnStep(tools, i, TargetUsers);
        YearsStep(tools, i);
        var tool := tools[i];
        categories := Count(categories, Get(tool, Category, Unknown));
        pricing := Count(pricing, Get(tool, PricingModel, Unknown));
        users := Count(users, Get(tool, TargetUsers, Unknown));
        var year := Get(tool, LaunchYear, Unknown);
        if year != Unknown {
          years := Count(years, year);
        }
        i := i + 1;
      }
      assert tools[..|tools|] == tools;
      stats := Stats(|tools|, categories, pricing, users, years);
    }
  }
}
