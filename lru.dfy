/** The least-recently-used map that `ProxyCache` keeps in memory (the `lru`
    crate's `LruCache`): `get` refreshes a key, `put` refreshes or inserts and,
    when the map is full, evicts the least recently used key. */
module Lru {
  import opened Wrappers

  /** Keys from least (`order[0]`) to most recently used, and their values. */
  datatype LruState<K(==, !new), V> = LruState(order: seq<K>, entries: map<K, V>)

  predicate NoDups<K(==, !new)>(s: seq<K>) {
    forall i, j :: 0 <= i < j < |s| ==> s[i] != s[j]
  }

  /** The order lists each stored key once and holds no more than `cap` keys. */
  ghost predicate ValidState<K(!new), V>(st: LruState<K, V>, cap: nat) {
    && 0 < cap
    && |st.order| <= cap
    && NoDups(st.order)
    && (forall k :: k in st.entries <==> k in st.order)
  }

  /** Takes `k` out of the order; the other keys keep their relative order. */
  function Remove<K(==, !new)>(s: seq<K>, k: K): (r: seq<K>)
    ensures forall x :: x in r <==> x in s && x != k
    ensures NoDups(s) ==> NoDups(r)
    ensures NoDups(s) && k in s ==> |r| == |s| - 1
    ensures k !in s ==> r == s
  {
    if |s| == 0 then []
    else if s[0] == k then Remove(s[1..], k)
    else
      var rest := Remove(s[1..], k);
      assert NoDups(s) ==> s[0] !in s[1..];
      [s[0]] + rest
  }

  /** Removing a listed key closes the gap it leaves: the keys before it and
      the keys after it, in their order. */
  lemma {:induction false} RemoveSplices<K(!new)>(s: seq<K>, k: K)
    ensures NoDups(s) ==> forall i :: 0 <= i < |s| && s[i] == k ==> Remove(s, k) == s[..i] + s[i + 1..]
  {
    if NoDups(s) && |s| > 0 {
      if s[0] == k {
        assert k !in s[1..];
      } else {
        assert NoDups(s[1..]);
        RemoveSplices(s[1..], k);
        forall i | 0 <= i < |s| && s[i] == k
          ensures Remove(s, k) == s[..i] + s[i + 1..]
        {
          assert s[1..][i - 1] == k;
          assert s[..i] == [s[0]] + s[1..][..i - 1];
          assert s[i + 1..] == s[1..][i..];
        }
      }
    }
  }

  /** Moves a key to the most recently used end; the other keys keep their
      relative order. */
  function Touch<K(==, !new)>(order: seq<K>, k: K): (r: seq<K>)
    ensures NoDups(order) ==> NoDups(r)
    ensures forall x :: x in r <==> x in order || x == k
    ensures NoDups(order) && k in order ==> |r| == |order|
    ensures |r| > 0 && r[|r| - 1] == k
    ensures NoDups(order) ==> forall i :: 0 <= i < |order| && order[i] == k ==> r == order[..i] + order[i + 1..] + [k]
    ensures k !in order ==> r == order + [k]
  {
    RemoveSplices(order, k);
    Remove(order, k) + [k]
  }

  /** `LruCache::get`: the stored value, if any; a hit makes the key the most
      recently used and changes no value. */
  function LruGet<K(==, !new), V>(st: LruState<K, V>, k: K): (r: (Option<V>, LruState<K, V>))
    ensures r.0.Some? <==> k in st.entries
    ensures r.0.Some? ==> r.0.value == st.entries[k]
    ensures r.1.entries == st.entries
    ensures r.0.Some? ==> |r.1.order| > 0 && r.1.order[|r.1.order| - 1] == k
    ensures r.0.None? ==> r.1 == st
    ensures r.0.Some? && NoDups(st.order) ==> forall i :: 0 <= i < |st.order| && st.order[i] == k ==>
      r.1.order == st.order[..i] + st.order[i + 1..] + [k]
  {
    if k in st.entries then (Some(st.entries[k]), LruState(Touch(st.order, k), st.entries))
    else (None, st)
  }

  /** Whether `put(k, _)` on this state evicts a key, and which. */
  predicate Evicts<K(==, !new), V>(st: LruState<K, V>, cap: nat, k: K) {
    k !in st.entries && |st.order| >= cap && |st.order| > 0
  }

  /** `LruCache::put`: a stored key takes the new value and becomes the most
      recently used; a new key is inserted as the most recently used, after
      evicting the least recently used key when the map is full. */
  function LruPut<K(==, !new), V>(st: LruState<K, V>, cap: nat, k: K, v: V): (r: LruState<K, V>)
    ensures k in r.entries && r.entries[k] == v
    ensures |r.order| > 0 && r.order[|r.order| - 1] == k
    ensures ValidState(st, cap) ==> ValidState(r, cap)
    ensures ValidState(st, cap) ==> forall x :: x in r.entries <==>
      x == k || (x in st.entries && !(Evicts(st, cap, k) && x == st.order[0]))
    ensures forall x :: x in r.entries && x != k ==> x in st.entries && r.entries[x] == st.entries[x]
    ensures NoDups(st.order) && k in st.entries ==> forall i :: 0 <= i < |st.order| && st.order[i] == k ==>
      r.order == st.order[..i] + st.order[i + 1..] + [k]
    ensures Evicts(st, cap, k) ==> r.order == st.order[1..] + [k]
    ensures k !in st.entries && !Evicts(st, cap, k) ==> r.order == st.order + [k]
  {
    if k in st.entries then
      LruState(Touch(st.order, k), st.entries[k := v])
    else if |st.order| >= cap && |st.order| > 0 then
      assert NoDups(st.order) ==> st.order[0] !in st.order[1..];
      LruState(st.order[1..] + [k], (st.entries - {st.order[0]})[k := v])
    else
      LruState(st.order + [k], st.entries[k := v])
  }

  lemma {:induction false} DistinctCard<K(!new)>(s: seq<K>)
    requires NoDups(s)
    ensures |set x | x in s| == |s|
  {
    if |s| > 0 {
      var tail := s[1..];
      assert NoDups(tail);
      DistinctCard(tail);
      assert s[0] !in tail;
      assert (set x | x in s) == (set x | x in tail) + {s[0]};
    }
  }

  /** The map never holds more than its capacity. */
  lemma CapacityBound<K(!new), V>(st: LruState<K, V>, cap: nat)
    requires ValidState(st, cap)
    ensures |st.entries| == |st.order| <= cap
  {
    DistinctCard(st.order);
    assert st.entries.Keys == set x | x in st.order;
  }

  /** A key just put is found with its value by the next get. */
  lemma PutThenGet<K(!new), V>(st: LruState<K, V>, cap: nat, k: K, v: V)
    ensures LruGet(LruPut(st, cap, k, v), k).0 == Some(v)
  {
  }

  /** Only a put of a new key into a full map loses a key, and the key it
      loses is the least recently used one. */
  lemma PutEvictsLeastRecent<K(!new), V>(st: LruState<K, V>, cap: nat, k: K, v: V)
    requires ValidState(st, cap) && k !in st.entries && |st.order| == cap
    ensures var r := LruPut(st, cap, k, v);
      && st.order[0] !in r.entries
      && |r.entries| == |st.entries|
      && (forall x :: x in st.entries && x != st.order[0] ==> x in r.entries)
      && r.order == st.order[1..] + [k]
  {
    var r := LruPut(st, cap, k, v);
    CapacityBound(st, cap);
    CapacityBound(r, cap);
  }

  /** The `LruCache` object, updated in place. */
  class LruCache<K(==, !new), V> {
    const capacity: nat
    var order: seq<K>
    var entries: map<K, V>

    function State(): LruState<K, V>
      reads this
    {
      LruState(order, entries)
    }

    ghost predicate Valid()
      reads this
    {
      ValidState(State(), capacity)
    }

    /** `LruCache::new(cap)`: an empty map; `NonZeroUsize` rules out capacity 0. */
    constructor(capacity: nat)
      requires capacity > 0
      ensures Valid() && this.capacity == capacity && State() == LruState([], map[])
    {
      this.capacity := capacity;
      order := [];
      entries := map[];
    }

    method Get(k: K) returns (r: Option<V>)
      requires Valid()
      modifies this
      ensures Valid()
      ensures (r, State()) == LruGet(old(State()), k)
    {
      if k in entries {
        r := Some(entries[k]);
        order := Remove(order, k) + [k];
      } else {
        r := None;
      }
    }

    method Put(k: K, v: V)
      requires Valid()
      modifies this
      ensures Valid()
      ensures State() == LruPut(old(State()), capacity, k, v)
    {
      if k in entries {
        order := Remove(order, k) + [k];
      } else if |order| >= capacity {
        entries := entries - {order[0]};
        order := order[1..] + [k];
      } else {
        order := order + [k];
      }
      entries := entries[k := v];
    }
  }
}
