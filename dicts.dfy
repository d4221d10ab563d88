/** Python's built-in `dict` with string keys: a map that remembers the order in which keys were first inserted. */
module Dicts {
  import opened Wrappers

  /** `order` lists the keys in first-insertion order, `entries` holds the values. */
  datatype Dict<V> = Dict(order: seq<string>, entries: map<string, V>)

  /** The keys in `order` are distinct and are exactly the keys of `entries`. */
  ghost predicate Valid<V>(d: Dict<V>) {
    && (forall i, j :: 0 <= i < j < |d.order| ==> d.order[i] != d.order[j])
    && (forall k :: k in d.entries <==> k in d.order)
  }

  /** `dict()` */
  function Empty<V>(): (r: Dict<V>)
    ensures Valid(r) && r.entries == map[]
  {
    Dict([], map[])
  }

  /** `d[k] = v`: overwrites the value of an existing key in place, appends a new key at the end. */
  function Insert<V>(d: Dict<V>, k: string, v: V): (r: Dict<V>)
    ensures Valid(d) ==> Valid(r)
    ensures k in r.entries && r.entries[k] == v
    ensures forall k' :: k' != k ==> (k' in r.entries <==> k' in d.entries)
    ensures forall k' :: k' != k && k' in d.entries ==> r.entries[k'] == d.entries[k']
    ensures |d.order| <= |r.order| && r.order[..|d.order|] == d.order
    ensures Valid(d) ==> (r.order == d.order <==> k in d.order)
  {
    if k in d.entries then Dict(d.order, d.entries[k := v]) else Dict(d.order + [k], d.entries[k := v])
  }

  /** `d.get(k)` */
  function Get<V>(d: Dict<V>, k: string): (r: Option<V>)
    ensures r.Some? <==> k in d.entries
    ensures r.Some? ==> r.value == d.entries[k]
  {
    if k in d.entries then Some(d.entries[k]) else None
  }

  /** `d.get(k, default)` */
  function GetOr<V>(d: Dict<V>, k: string, default: V): (r: V)
    ensures k in d.entries ==> r == d.entries[k]
    ensures k !in d.entries ==> r == default
  {
    if k in d.entries then d.entries[k] else default
  }

  /** `list(d.keys())`: every key once, in insertion order. */
  function Keys<V>(d: Dict<V>): (r: seq<string>)
    requires Valid(d)
    ensures forall i, j :: 0 <= i < j < |r| ==> r[i] != r[j]
    ensures forall k :: k in r <==> k in d.entries
  {
    d.order
  }

  /** `bool(d)`: a dict is truthy exactly when it has an entry, that is, for a valid dict, when
      its key order is non-empty. */
  predicate IsTruthy<V>(d: Dict<V>): (r: bool)
    ensures Valid(d) && d.order != [] ==> d.order[0] in d.entries
    ensures Valid(d) ==> (r <==> d.order != [])
  {
    |d.entries| > 0
  }
}
