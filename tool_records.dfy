/** A Python `dict` from field name to text, as read by `csv.DictReader` and
    updated by the cleaner. The dict remembers insertion order, which the
    cleaner depends on, so a record is its key order together with its
    key-to-value map; assigning to an existing key keeps its place and
    assigning to a new key appends it. Two dicts are `==` in Python exactly
    when their maps are equal, whatever their key order. */
module ToolRecords {
  import opened Wrappers

  datatype Record = Record(names: seq<string>, fields: map<string, string>)

  /** The key order lists each key of the map exactly once. */
  predicate WellFormed(t: Record) {
    && (forall i, j :: 0 <= i < j < |t.names| ==> t.names[i] != t.names[j])
    && (forall k :: k in t.fields ==> k in t.names)
    && (forall i :: 0 <= i < |t.names| ==> t.names[i] in t.fields)
  }

  function Keys(t: Record): set<string> {
    t.fields.Keys
  }

  /** `d[k]` when present, `None` otherwise. */
  function Lookup(t: Record, k: string): (r: Option<string>)
    ensures r.Some? <==> k in Keys(t)
  {
    if k in t.fields then Some(t.fields[k]) else None
  }

  /** `d.get(k, default)` */
  function Get(t: Record, k: string, default: string): (r: string)
    ensures k in Keys(t) ==> Some(r) == Lookup(t, k)
    ensures k !in Keys(t) ==> r == default
  {
    Lookup(t, k).GetOr(default)
  }

  /** The empty dict `{}`. */
  function Empty(): (t: Record)
    ensures WellFormed(t) && Keys(t) == {}
  {
    Record([], map[])
  }

  /** `d[k] = v`: the key maps to the new value, every other key keeps its
      value, an existing key keeps its place and a new key goes last. */
  function Put(t: Record, k: string, v: string): (r: Record)
    ensures Lookup(r, k) == Some(v)
    ensures forall k' :: k' != k ==> Lookup(r, k') == Lookup(t, k')
    ensures Keys(r) == Keys(t) + {k}
    ensures WellFormed(t) ==> WellFormed(r)
    ensures WellFormed(t) && k in Keys(t) ==> r.names == t.names
    ensures WellFormed(t) && k !in Keys(t) ==> r.names == t.names + [k]
  {
    if k in t.names then Record(t.names, t.fields[k := v])
    else Record(t.names + [k], t.fields[k := v])
  }

  /** Python's `d1 == d2`. */
  predicate SameDict(t1: Record, t2: Record) {
    t1.fields == t2.fields
  }
}
