/** A JavaScript `Map` as this code base uses it: an insertion-ordered list of
    (key, value) entries with distinct keys. `Set` on a present key replaces
    the value in place and keeps the key's position; on a new key it appends. */
module JsMap {
  import opened Wrappers

  type OMap<K, V> = seq<(K, V)>

  /** The keys in insertion order, as `Array.from(m.keys())` gives them. */
  function Keys<K, V>(m: OMap<K, V>): (ks: seq<K>)
    ensures |ks| == |m|
    ensures forall i :: 0 <= i < |m| ==> ks[i] == m[i].0
  {
    if m == [] then [] else [m[0].0] + Keys(m[1..])
  }

  /** No key occurs twice. */
  predicate DistinctKeys<K(==), V>(m: OMap<K, V>) {
    forall i, j :: 0 <= i < j < |m| ==> m[i].0 != m[j].0
  }

  /** The position of the first entry with key `k`. */
  function IndexOf<K(==), V>(m: OMap<K, V>, k: K): (r: Option<nat>)
    ensures r.Some? ==> r.value < |m| && m[r.value].0 == k
    ensures r.Some? ==> forall j :: 0 <= j < r.value ==> m[j].0 != k
    ensures r.None? <==> forall j :: 0 <= j < |m| ==> m[j].0 != k
  {
    if m == [] then None
    else if m[0].0 == k then Some(0)
    else
      var r := IndexOf(m[1..], k);
      if r.None? then None else Some(r.value + 1)
  }

  /** `m.has(k)`. */
  predicate Has<K(==), V>(m: OMap<K, V>, k: K) {
    IndexOf(m, k).Some?
  }

  /** `m.get(k)`: the value filed under `k`, None for `undefined`. */
  function Get<K(==), V>(m: OMap<K, V>, k: K): (r: Option<V>)
    ensures r.Some? <==> Has(m, k)
    ensures r.Some? ==> exists i :: 0 <= i < |m| && m[i] == (k, r.value)
  {
    match IndexOf(m, k)
    case Some(i) => assert m[i] == (k, m[i].1); Some(m[i].1)
    case None => None
  }

  /** `m.set(k, v)`. */
  function Set<K(==), V>(m: OMap<K, V>, k: K, v: V): OMap<K, V> {
    match IndexOf(m, k)
    case Some(i) => m[i := (k, v)]
    case None => m + [(k, v)]
  }

  /** The value at the last position, whose key `Array.from(m.keys()).pop()` names. */
  function LastKey<K, V>(m: OMap<K, V>): (r: Option<K>)
    ensures r.Some? <==> |m| > 0
    ensures r.Some? ==> r.value == Keys(m)[|m| - 1]
  {
    if m == [] then None else Some(m[|m| - 1].0)
  }

  /** After `set`, reading the key gives the new value. */
  lemma GetSetSame<K, V>(m: OMap<K, V>, k: K, v: V)
    ensures Get(Set(m, k, v), k) == Some(v)
  {
    var m' := Set(m, k, v);
    match IndexOf(m, k)
    case Some(i) =>
      assert m'[i] == (k, v);
      assert forall j :: 0 <= j < i ==> m'[j].0 != k;
      assert IndexOf(m', k) == Some(i);
    case None =>
      assert m'[|m|] == (k, v);
      assert IndexOf(m', k) == Some(|m|);
  }

  /** After `set`, every other key reads as before. */
  lemma GetSetOther<K, V>(m: OMap<K, V>, k: K, v: V, k': K)
    requires k' != k
    ensures Get(Set(m, k, v), k') == Get(m, k')
  {
    var m' := Set(m, k, v);
    assert forall j :: 0 <= j < |m| ==> m'[j].0 == m[j].0;
    assert forall j :: 0 <= j < |m| && m[j].0 == k' ==> m'[j] == m[j];
    match IndexOf(m, k')
    case Some(i) =>
      assert IndexOf(m', k') == Some(i);
    case None =>
      assert IndexOf(m', k') == None;
  }

  /** `set` on a present key keeps every key in its place; on a new key it
      appends that key at the end. */
  lemma SetKeys<K, V>(m: OMap<K, V>, k: K, v: V)
    ensures Has(m, k) ==> Keys(Set(m, k, v)) == Keys(m)
    ensures !Has(m, k) ==> Keys(Set(m, k, v)) == Keys(m) + [k]
  {
  }

  /** `set` on a new key appends it. */
  lemma SetNew<K, V>(m: OMap<K, V>, k: K, v: V)
    requires forall j :: 0 <= j < |m| ==> m[j].0 != k
    ensures Set(m, k, v) == m + [(k, v)]
  {
  }

  /** `set` on a present key leaves the number of entries alone; on a new key
      it adds one. */
  lemma SetSize<K, V>(m: OMap<K, V>, k: K, v: V)
    ensures |Set(m, k, v)| == if Has(m, k) then |m| else |m| + 1
  {
  }

  /** `set` never introduces a duplicate key. */
  lemma SetDistinct<K, V>(m: OMap<K, V>, k: K, v: V)
    requires DistinctKeys(m)
    ensures DistinctKeys(Set(m, k, v))
  {
  }

  /** With distinct keys, an entry's key finds exactly that entry. */
  lemma IndexOfDistinct<K, V>(m: OMap<K, V>, i: nat)
    requires DistinctKeys(m) && i < |m|
    ensures IndexOf(m, m[i].0) == Some(i)
  {
  }

  /** A property every entry has, and the new entry has, holds of every entry after `set`. */
  lemma SetKeepsAll<K, V>(m: OMap<K, V>, k: K, v: V, P: (K, V) -> bool)
    requires forall j :: 0 <= j < |m| ==> P(m[j].0, m[j].1)
    requires P(k, v)
    ensures forall j :: 0 <= j < |Set(m, k, v)| ==> P(Set(m, k, v)[j].0, Set(m, k, v)[j].1)
  {
  }

  /** Two maps with the same key at every position find every key at the same position. */
  lemma IndexOfSameKeys<K, V>(m: OMap<K, V>, m': OMap<K, V>, k: K)
    requires |m| == |m'| && forall j :: 0 <= j < |m| ==> m'[j].0 == m[j].0
    ensures IndexOf(m', k) == IndexOf(m, k)
  {
    var r, r' := IndexOf(m, k), IndexOf(m', k);
    if r.Some? && r'.Some? {
      assert !(r.value < r'.value) && !(r'.value < r.value);
    }
  }

  /** Replacing the value at one position keeps every key in its place, and
      every other key reads as before. */
  lemma ReplaceValue<K, V>(m: OMap<K, V>, i: nat, v: V)
    requires i < |m|
    ensures Keys(m[i := (m[i].0, v)]) == Keys(m)
    ensures forall k :: k != m[i].0 ==> Get(m[i := (m[i].0, v)], k) == Get(m, k)
  {
    var m' := m[i := (m[i].0, v)];
    assert forall j :: 0 <= j < |m| ==> m'[j].0 == m[j].0;
    forall k | k != m[i].0
      ensures Get(m', k) == Get(m, k)
    {
      IndexOfSameKeys(m, m', k);
    }
  }

  /** A key in the middle of a map with distinct keys is not among those before it. */
  lemma DistinctMiddle<K, V>(a: OMap<K, V>, e: (K, V), b: OMap<K, V>)
    requires DistinctKeys(a + ([e] + b))
    ensures forall j :: 0 <= j < |a| ==> a[j].0 != e.0
    ensures a + [e] + b == a + ([e] + b)
  {
    var all := a + ([e] + b);
    assert all[|a|] == e;
    forall j | 0 <= j < |a| ensures a[j].0 != e.0 {
      assert all[j] == a[j];
    }
  }

  // ---------------------------------------------------------------------------
  // A run of `set` calls
  // ---------------------------------------------------------------------------

  /** Each pair with its key mapped through `f`. */
  function MapKeys<A, B, V>(f: A -> B, pairs: seq<(A, V)>): (r: seq<(B, V)>)
    ensures |r| == |pairs|
  {
    if pairs == [] then [] else [(f(pairs[0].0), pairs[0].1)] + MapKeys(f, pairs[1..])
  }

  lemma {:induction false} MapKeysAt<A, B, V>(f: A -> B, pairs: seq<(A, V)>, i: nat)
    requires i < |pairs|
    ensures MapKeys(f, pairs)[i] == (f(pairs[i].0), pairs[i].1)
  {
    if i > 0 {
      MapKeysAt(f, pairs[1..], i - 1);
    }
  }

  /** One entry per item, keyed by `key`, in item order. */
  function Entries<A, K, V>(key: A -> K, value: A -> V, xs: seq<A>): (r: seq<(K, V)>)
    ensures |r| == |xs|
  {
    if xs == [] then [] else [(key(xs[0]), value(xs[0]))] + Entries(key, value, xs[1..])
  }

  lemma {:induction false} EntriesAt<A, K, V>(key: A -> K, value: A -> V, xs: seq<A>, i: nat)
    requires i < |xs|
    ensures Entries(key, value, xs)[i] == (key(xs[i]), value(xs[i]))
  {
    if i > 0 {
      EntriesAt(key, value, xs[1..], i - 1);
    }
  }

  /** Items with distinct keys give entries with distinct keys. */
  lemma EntriesDistinct<A, K, V>(key: A -> K, value: A -> V, xs: seq<A>)
    requires forall i, j :: 0 <= i < j < |xs| ==> key(xs[i]) != key(xs[j])
    ensures DistinctKeys(Entries(key, value, xs))
  {
    var es := Entries(key, value, xs);
    forall i, j | 0 <= i < j < |es| ensures es[i].0 != es[j].0 {
      EntriesAt(key, value, xs, i);
      EntriesAt(key, value, xs, j);
    }
  }

  /** `m.set(k, v)` for each pair in order. */
  function SetAll<K(==), V>(m: OMap<K, V>, entries: seq<(K, V)>): OMap<K, V>
    decreases |entries|
  {
    if entries == [] then m else SetAll(Set(m, entries[0].0, entries[0].1), entries[1..])
  }

  /** The value of the last pair with key `k`. */
  function LastValue<K(==), V(==)>(entries: seq<(K, V)>, k: K): (r: Option<V>)
    ensures r.None? <==> forall i :: 0 <= i < |entries| ==> entries[i].0 != k
    ensures r.Some? ==> exists i :: 0 <= i < |entries| && entries[i] == (k, r.value)
  {
    if entries == [] then None
    else
      match LastValue(entries[1..], k)
      case Some(v) =>
        var i :| 0 <= i < |entries[1..]| && entries[1..][i] == (k, v);
        assert entries[i + 1] == entries[1..][i];
        Some(v)
      case None =>
        assert forall i :: 1 <= i < |entries| ==> entries[i] == entries[1..][i - 1];
        if entries[0].0 == k then Some(entries[0].1) else None
  }

  /** A pair whose key no later pair repeats gives the last value of its key. */
  lemma {:induction false} LastValueSkipsOthers<K, V>(entries: seq<(K, V)>, i: nat)
    requires i < |entries|
    requires forall j :: i < j < |entries| ==> entries[j].0 != entries[i].0
    ensures LastValue(entries, entries[i].0) == Some(entries[i].1)
    decreases |entries|
  {
    if i > 0 {
      assert entries[1..][i - 1] == entries[i];
      LastValueSkipsOthers(entries[1..], i - 1);
    } else {
      assert forall j :: 0 <= j < |entries[1..]| ==> entries[1..][j] == entries[j + 1];
    }
  }

  /** After a run of `set` calls, a key reads the last value set for it, or
      its old value when none was. */
  lemma {:induction false} SetAllGet<K, V>(m: OMap<K, V>, entries: seq<(K, V)>, k: K)
    ensures Get(SetAll(m, entries), k) ==
      if LastValue(entries, k).Some? then LastValue(entries, k) else Get(m, k)
    decreases |entries|
  {
    if entries != [] {
      SetAllGet(Set(m, entries[0].0, entries[0].1), entries[1..], k);
      if entries[0].0 == k {
        GetSetSame(m, k, entries[0].1);
      } else {
        GetSetOther(m, entries[0].0, entries[0].1, k);
      }
    }
  }

  /** A run of `set` calls keeps keys distinct. */
  lemma {:induction false} SetAllDistinct<K, V>(m: OMap<K, V>, entries: seq<(K, V)>)
    requires DistinctKeys(m)
    ensures DistinctKeys(SetAll(m, entries))
    decreases |entries|
  {
    if entries != [] {
      SetDistinct(m, entries[0].0, entries[0].1);
      SetAllDistinct(Set(m, entries[0].0, entries[0].1), entries[1..]);
    }
  }

  /** Setting keys that are new and distinct appends them in order. */
  lemma {:induction false} SetAllFresh<K, V>(m: OMap<K, V>, entries: seq<(K, V)>)
    requires DistinctKeys(m + entries)
    ensures SetAll(m, entries) == m + entries
    decreases |entries|
  {
    if entries == [] {
      assert m + entries == m;
    } else {
      var e, rest := entries[0], entries[1..];
      assert entries == [e] + rest;
      DistinctMiddle(m, e, rest);
      SetNew(m, e.0, e.1);
      SetAllFresh(m + [e], rest);
    }
  }

  /** After a run of `set` calls on an empty map, the keys present are the
      keys that were set. */
  lemma SetAllHas<K, V>(entries: seq<(K, V)>, k: K)
    ensures Has(SetAll([], entries), k) <==> exists i :: 0 <= i < |entries| && entries[i].0 == k
  {
    SetAllGet([], entries, k);
  }
}
