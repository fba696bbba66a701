/**
 * The aggregation store: group name ("" is the default group) to the key/value pairs
 * added to that group, in insertion order, and `add`, which appends one pair to one group.
 */
module Store {

  /** An immutable key/value pair; keys need not be unique. */
  datatype KeyValuePair = KeyValuePair(key: string, value: string)

  type Buckets = map<string, seq<KeyValuePair>>

  /** The pairs of group `g`, the empty list when the group has none yet. */
  function Bucket(m: Buckets, g: string): seq<KeyValuePair> {
    if g in m then m[g] else []
  }

  /** The buckets after `add(map, groupBy, keyValue)`. */
  function AddPair(m: Buckets, g: string, kv: KeyValuePair): (r: Buckets)
    ensures r.Keys == m.Keys + {g}
    ensures r[g] == Bucket(m, g) + [kv]
    ensures forall h :: h in m && h != g ==> h in r && r[h] == m[h]
  {
    m[g := Bucket(m, g) + [kv]]
  }

  /** Every bucket of `m` is still present in `m'` and is a prefix of its new contents. */
  ghost predicate Extends(m: Buckets, m': Buckets) {
    forall g :: g in m ==> g in m' && m[g] <= m'[g]
  }

  ghost function PickGroup(m: Buckets): (g: string)
    requires m != map[]
    ensures g in m
  {
    var g :| g in m; g
  }

  /** The number of pairs held in all buckets together. */
  ghost function Total(m: Buckets): nat
    decreases |m|
  {
    if m == map[] then 0
    else
      var g := PickGroup(m);
      assert |(m - {g}).Keys| < |m.Keys| by { assert (m - {g}).Keys == m.Keys - {g}; }
      |m[g]| + Total(m - {g})
  }

  /** The total may be computed by removing any bucket first. */
  lemma {:induction false} TotalRemove(m: Buckets, g: string)
    requires g in m
    ensures Total(m) == |m[g]| + Total(m - {g})
    decreases |m|
  {
    var k := PickGroup(m);
    if k != g {
      assert (m - {k}).Keys == m.Keys - {k};
      assert (m - {g}).Keys == m.Keys - {g};
      TotalRemove(m - {k}, g);
      TotalRemove(m - {g}, k);
      assert m - {k} - {g} == m - {g} - {k};
    }
  }

  /** `add` puts exactly one more pair into the store. */
  lemma AddPairTotal(m: Buckets, g: string, kv: KeyValuePair)
    ensures Total(AddPair(m, g, kv)) == Total(m) + 1
  {
    var r := AddPair(m, g, kv);
    TotalRemove(r, g);
    assert r - {g} == m - {g};
    if g in m {
      TotalRemove(m, g);
    } else {
      assert m - {g} == m;
    }
  }

  /** `add` only appends: every bucket of the store before it is a prefix of the one after. */
  lemma AddPairExtends(m: Buckets, g: string, kv: KeyValuePair)
    ensures Extends(m, AddPair(m, g, kv))
  {
  }

  /** The map `main` shares between all entries, mutated in place by `add`. */
  class AggregationStore {
    var buckets: Buckets

    constructor ()
      ensures buckets == map[]
    {
      buckets := map[];
    }

    /** `add`: creates the group's list when it is missing, then appends the pair to it. */
    method Add(groupBy: string, keyValue: KeyValuePair)
      modifies this
      ensures buckets == AddPair(old(buckets), groupBy, keyValue)
    {
      var list: seq<KeyValuePair>;
      if groupBy !in buckets {
        list := [];
        buckets := buckets[groupBy := list];
      } else {
        list := buckets[groupBy];
      }
      buckets := buckets[groupBy := list + [keyValue]];
    }
  }

}
