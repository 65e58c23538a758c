/**
 * A JavaScript `Map` keyed by strings: its entries together with the order
 * in which their keys were first set, which is the order `for (const [k, v]
 * of m)` visits them. Setting an existing key keeps its place; deleting a
 * key removes it from the order.
 */
module JsMap {
  import opened Wrappers

  datatype OrderedMap<V> = OrderedMap(keys: seq<string>, entries: map<string, V>)

  predicate Distinct(s: seq<string>) {
    forall i, j :: 0 <= i < j < |s| ==> s[i] != s[j]
  }

  /** The visiting order lists every key of the map exactly once. */
  ghost predicate Valid<V>(m: OrderedMap<V>) {
    Distinct(m.keys) && forall k :: k in m.entries <==> k in m.keys
  }

  /** `new Map()`. */
  function Empty<V>(): (m: OrderedMap<V>)
    ensures Valid(m) && m.keys == [] && m.entries == map[]
  {
    OrderedMap([], map[])
  }

  /** `m.get(k)`. */
  function Get<V>(m: OrderedMap<V>, k: string): (r: Option<V>)
    ensures r.Some? <==> k in m.entries
    ensures r.Some? ==> r.value == m.entries[k]
  {
    if k in m.entries then Some(m.entries[k]) else None
  }

  /** `m.set(k, v)`: a new key goes to the end of the order, an existing one stays put. */
  function Set<V>(m: OrderedMap<V>, k: string, v: V): (r: OrderedMap<V>)
    requires Valid(m)
    ensures Valid(r)
    ensures r.entries == m.entries[k := v]
    ensures k in m.entries ==> r.keys == m.keys
    ensures k !in m.entries ==> r.keys == m.keys + [k]
  {
    if k in m.entries then OrderedMap(m.keys, m.entries[k := v])
    else OrderedMap(m.keys + [k], m.entries[k := v])
  }

  /** The order with one key taken out. */
  function Without(s: seq<string>, k: string): (r: seq<string>)
    ensures forall x :: x in r <==> x in s && x != k
    ensures Distinct(s) ==> Distinct(r)
    ensures k !in s ==> r == s
  {
    if s == [] then []
    else if s[0] == k then Without(s[1..], k)
    else
      var rest := Without(s[1..], k);
      assert Distinct(s) ==> Distinct([s[0]] + rest) by {
        if Distinct(s) {
          var t := [s[0]] + rest;
          forall i | 0 <= i < |s| - 1 ensures s[1..][i] != s[0] {
            assert s[1..][i] == s[i + 1];
          }
          assert s[0] !in rest;
          forall i, j | 0 <= i < j < |t| ensures t[i] != t[j] {
            assert t[j] == rest[j - 1];
            if i > 0 {
              assert t[i] == rest[i - 1];
            }
          }
        }
      }
      [s[0]] + rest
  }

  /** `m.delete(k)`. */
  function Delete<V>(m: OrderedMap<V>, k: string): (r: OrderedMap<V>)
    requires Valid(m)
    ensures Valid(r)
    ensures r.entries == m.entries - {k}
    ensures r.keys == Without(m.keys, k)
  {
    OrderedMap(Without(m.keys, k), m.entries - {k})
  }
}
