/** JavaScript `Map`s with string keys, as the relationship caches use them: a map
    remembers the order in which its keys were first inserted, `set` on a present
    key replaces the value in place, and `values()` lists values in key order. */
module JsMaps {
  import opened Documents

  /** The entries of a map, in insertion order. */
  type JsMap<V> = seq<(string, V)>

  /** The keys of a map. */
  function KeySet<V>(m: JsMap<V>): set<string>
    decreases |m|
  {
    if |m| == 0 then {} else {m[0].0} + KeySet(m[1..])
  }

  /** No key occurs twice; every map built by `Set` has this shape. */
  ghost predicate DistinctKeys<V>(m: JsMap<V>)
    decreases |m|
  {
    |m| == 0 || (m[0].0 !in KeySet(m[1..]) && DistinctKeys(m[1..]))
  }

  /** `map.get(k)`. */
  function Get<V>(m: JsMap<V>, k: string): (r: Option<V>)
    ensures r.None? <==> k !in KeySet(m)
    decreases |m|
  {
    if |m| == 0 then None
    else if m[0].0 == k then Some(m[0].1)
    else Get(m[1..], k)
  }

  /** `map.set(k, v)`: a present key keeps its place and takes the new value; a new key goes last. */
  function Set<V>(m: JsMap<V>, k: string, v: V): (r: JsMap<V>)
    ensures Get(r, k) == Some(v)
    ensures forall j :: j != k ==> Get(r, j) == Get(m, j)
    ensures KeySet(r) == KeySet(m) + {k}
    ensures DistinctKeys(m) ==> DistinctKeys(r)
    ensures k in KeySet(m) ==> |r| == |m|
    ensures k !in KeySet(m) ==> r == m + [(k, v)]
    decreases |m|
  {
    if |m| == 0 then
      assert [(k, v)][1..] == [];
      [(k, v)]
    else if m[0].0 == k then
      var r := [(k, v)] + m[1..];
      assert r[1..] == m[1..];
      r
    else
      var rest := Set(m[1..], k, v);
      var r := [m[0]] + rest;
      assert r[1..] == rest;
      assert k !in KeySet(m) ==> r == m + [(k, v)] by {
        if k !in KeySet(m) {
          assert rest == m[1..] + [(k, v)];
          assert m == [m[0]] + m[1..];
        }
      }
      r
  }

  /** `map.delete(k)`: the entry with key `k` goes; every other entry stays, in order. */
  function Delete<V>(m: JsMap<V>, k: string): (r: JsMap<V>)
    ensures Get(r, k).None?
    ensures forall j :: j != k ==> Get(r, j) == Get(m, j)
    ensures KeySet(r) == KeySet(m) - {k}
    ensures DistinctKeys(m) ==> DistinctKeys(r)
    ensures k !in KeySet(m) ==> r == m
    decreases |m|
  {
    if |m| == 0 then []
    else if m[0].0 == k then Delete(m[1..], k)
    else
      var r := [m[0]] + Delete(m[1..], k);
      assert r[1..] == Delete(m[1..], k);
      assert k !in KeySet(m) ==> r == m by {
        if k !in KeySet(m) { assert m == [m[0]] + m[1..]; }
      }
      r
  }

  /** `[...map.values()]`. */
  function Values<V>(m: JsMap<V>): (vs: seq<V>)
    ensures |vs| == |m| && forall i :: 0 <= i < |m| ==> vs[i] == m[i].1
    decreases |m|
  {
    if |m| == 0 then [] else [m[0].1] + Values(m[1..])
  }

  /** The map that `vs.forEach(v => map.set(key(v), v))` fills, starting empty. */
  function Collect<V>(vs: seq<V>, key: V -> string): (m: JsMap<V>)
    ensures DistinctKeys(m)
    decreases |vs|
  {
    if vs == [] then []
    else Set(Collect(vs[..|vs| - 1], key), key(vs[|vs| - 1]), vs[|vs| - 1])
  }

  /** Collecting one more value is one more `set`. */
  lemma CollectSnoc<V>(vs: seq<V>, key: V -> string, i: nat)
    requires i < |vs|
    ensures Collect(vs[..i + 1], key) == Set(Collect(vs[..i], key), key(vs[i]), vs[i])
  {
    assert vs[..i + 1][..i] == vs[..i];
  }

  /** The position of the last of `vs` whose key is `k`, or -1 when there is none. */
  function LastIndexWithKey<V>(vs: seq<V>, key: V -> string, k: string): (r: int)
    ensures -1 <= r < |vs|
    ensures r == -1 <==> forall i :: 0 <= i < |vs| ==> key(vs[i]) != k
    ensures 0 <= r ==> key(vs[r]) == k && forall j :: r < j < |vs| ==> key(vs[j]) != k
    decreases |vs|
  {
    if vs == [] then -1
    else if key(vs[|vs| - 1]) == k then |vs| - 1
    else
      var r := LastIndexWithKey(vs[..|vs| - 1], key, k);
      assert forall i :: 0 <= i < |vs| - 1 ==> vs[..|vs| - 1][i] == vs[i];
      r
  }

  /** Looking up a key in a collected map gives the last value with that key. */
  lemma {:induction false} CollectGet<V>(vs: seq<V>, key: V -> string, k: string)
    ensures var r := LastIndexWithKey(vs, key, k);
            Get(Collect(vs, key), k) == if r < 0 then None else Some(vs[r])
    decreases |vs|
  {
    if vs != [] {
      var init := vs[..|vs| - 1];
      CollectGet(init, key, k);
      var r := LastIndexWithKey(init, key, k);
      assert 0 <= r ==> init[r] == vs[r];
    }
  }

  /** The keys of a collected map are the keys of its values. */
  lemma CollectKeys<V>(vs: seq<V>, key: V -> string)
    ensures forall k :: k in KeySet(Collect(vs, key)) <==> exists i :: 0 <= i < |vs| && key(vs[i]) == k
  {
    forall k
      ensures k in KeySet(Collect(vs, key)) <==> exists i :: 0 <= i < |vs| && key(vs[i]) == k
    {
      CollectGet(vs, key, k);
    }
  }

  /** When no two values share a key, the collected map lists every value once, in order. */
  lemma {:induction false} CollectDistinctValues<V>(vs: seq<V>, key: V -> string)
    requires forall i, j :: 0 <= i < j < |vs| ==> key(vs[i]) != key(vs[j])
    ensures Values(Collect(vs, key)) == vs
    decreases |vs|
  {
    if vs != [] {
      var init, last := vs[..|vs| - 1], vs[|vs| - 1];
      assert vs == init + [last];
      CollectDistinctValues(init, key);
      var m := Collect(init, key);
      CollectGet(init, key, key(last));
      assert LastIndexWithKey(init, key, key(last)) == -1 by {
        assert forall i :: 0 <= i < |init| ==> key(init[i]) == key(vs[i]);
      }
      assert Collect(vs, key) == m + [(key(last), last)];
      assert Values(m + [(key(last), last)]) == Values(m) + [last];
    }
  }

  /** Setting a present key replaces its entry where it stands. */
  lemma {:induction false} SetPresent<V>(m: JsMap<V>, k: string, v: V, i: nat)
    requires DistinctKeys(m) && i < |m| && m[i].0 == k
    ensures Set(m, k, v) == m[i := (k, v)]
    decreases |m|
  {
    if m[0].0 != k {
      var tail := m[1..];
      assert DistinctKeys(tail) && tail[i - 1] == m[i];
      SetPresent(tail, k, v, i - 1);
      assert Set(m, k, v) == [m[0]] + Set(tail, k, v);
      assert m[i := (k, v)] == [m[0]] + tail[i - 1 := (k, v)];
    } else if 0 < i {
      KeyInKeySet(m[1..], i - 1);
      assert false;
    } else {
      assert Set(m, k, v) == [(k, v)] + m[1..];
      assert m[0 := (k, v)] == [(k, v)] + m[1..];
    }
  }

  /** Setting a present key replaces its value where it stands among the values. */
  lemma SetPresentValues<V>(m: JsMap<V>, k: string, v: V, i: nat)
    requires DistinctKeys(m) && i < |m| && m[i].0 == k
    ensures Values(Set(m, k, v)) == Values(m)[i := v]
  {
    SetPresent(m, k, v, i);
    var r := m[i := (k, v)];
    assert forall j :: 0 <= j < |r| ==> Values(r)[j] == Values(m)[i := v][j];
  }

  /** The key of every entry is a key of the map. */
  lemma {:induction false} KeyInKeySet<V>(m: JsMap<V>, i: nat)
    requires i < |m|
    ensures m[i].0 in KeySet(m)
    decreases |m|
  {
    if 0 < i { KeyInKeySet(m[1..], i - 1); }
  }

  /** Every entry of a collected map sits under its own value's key. */
  lemma {:induction false} CollectKeyed<V>(vs: seq<V>, key: V -> string)
    ensures forall i :: 0 <= i < |Collect(vs, key)| ==> Collect(vs, key)[i].0 == key(Collect(vs, key)[i].1)
    decreases |vs|
  {
    if vs != [] {
      var init, last := vs[..|vs| - 1], vs[|vs| - 1];
      CollectKeyed(init, key);
      SetKeepsEntries(Collect(init, key), key(last), last);
    }
  }

  /** Every entry after `Set` is the new one or was already there. */
  lemma {:induction false} SetKeepsEntries<V>(m: JsMap<V>, k: string, v: V)
    ensures forall i :: 0 <= i < |Set(m, k, v)| ==> Set(m, k, v)[i] == (k, v) || Set(m, k, v)[i] in m
    decreases |m|
  {
    if |m| > 0 && m[0].0 != k {
      SetKeepsEntries(m[1..], k, v);
      assert Set(m, k, v) == [m[0]] + Set(m[1..], k, v);
    }
  }
}
