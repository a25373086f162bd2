/**
 * The birthday and mark stores: a map from a date key to either one bare
 * value or a list of values, as the JSON files hold them. Loading reads a
 * bare value as a one-element list; deleting can leave a bare value behind
 * again. `Values` is the list a key stands for, whatever its shape, and
 * every operation is stated against that view.
 */
module Entries {

  datatype Entry<V> = Single(value: V) | Many(values: seq<V>)

  /** The list an entry stands for: a bare value is a one-element list. */
  function Values<V>(e: Entry<V>): (vs: seq<V>)
    ensures e.Single? ==> vs == [e.value]
    ensures e.Many? ==> vs == e.values
  {
    match e
    case Single(v) => [v]
    case Many(vs) => vs
  }

  /** How a list is written back: a one-element list as its bare value. */
  function Compact<V>(vs: seq<V>): (e: Entry<V>)
    ensures Values(e) == vs
    ensures e.Single? <==> |vs| == 1
  {
    if |vs| == 1 then Single(vs[0]) else Many(vs)
  }

  /** The store as key to list, the view every reader takes. */
  function View<K, V>(m: map<K, Entry<V>>): (v: map<K, seq<V>>)
    ensures v.Keys == m.Keys
    ensures forall k :: k in m ==> v[k] == Values(m[k])
  {
    map k | k in m :: Values(m[k])
  }

  /** The values stored under `k`, none when the key is absent. */
  function ValuesAt<K, V>(m: map<K, Entry<V>>, k: K): seq<V> {
    if k in m then Values(m[k]) else []
  }

  /** The store as loading leaves it: every value a list. */
  function Normalize<K, V>(m: map<K, Entry<V>>): (n: map<K, Entry<V>>)
    ensures n.Keys == m.Keys
    ensures forall k :: k in n ==> n[k].Many?
  {
    map k | k in m :: Many(Values(m[k]))
  }

  /** The loop of `load_data` over one file's items: each value is read as a list. */
  method LoadStore<K, V>(m: map<K, Entry<V>>) returns (n: map<K, Entry<V>>)
    ensures n == Normalize(m)
  {
    n := map[];
    var rest := m.Keys;
    while rest != {}
      invariant rest <= m.Keys
      invariant n.Keys == m.Keys - rest
      invariant forall k :: k in n ==> n[k] == Many(Values(m[k]))
      decreases rest
    {
      var k :| k in rest;
      n := n[k := Many(Values(m[k]))];
      rest := rest - {k};
    }
  }

  /** Loading changes the shape of the values and nothing they stand for. */
  lemma NormalizeKeepsView<K, V>(m: map<K, Entry<V>>)
    ensures View(Normalize(m)) == View(m)
    ensures Normalize(Normalize(m)) == Normalize(m)
  {
  }

  /** Write then read: a written-back list reads back as that list. */
  lemma CompactRoundTrip<K, V>(m: map<K, Entry<V>>, k: K, vs: seq<V>)
    ensures View(m[k := Compact(vs)]) == View(m)[k := vs]
  {
  }

  /** Adds `v` after the values already stored under `k`. */
  function Add<K, V>(m: map<K, Entry<V>>, k: K, v: V): (r: map<K, Entry<V>>)
    ensures r.Keys == m.Keys + {k}
    ensures View(r) == View(m)[k := ValuesAt(m, k) + [v]]
  {
    if k in m then
      match m[k]
      case Many(vs) => m[k := Many(vs + [v])]
      case Single(x) =>
        assert [x] + [v] == [x, v];
        m[k := Many([x, v])]
    else
      assert ValuesAt(m, k) + [v] == [v];
      m[k := Many([v])]
  }

  /**
   * Deletes by date: the first value under `k` goes; a key with a single
   * value (or an empty list) goes altogether, and a key left with one value
   * is written back as that bare value.
   */
  function DeleteFirst<K, V>(m: map<K, Entry<V>>, k: K): (r: map<K, Entry<V>>)
    ensures k !in m ==> r == m
    ensures k in m && |Values(m[k])| > 1 ==> View(r) == View(m)[k := Values(m[k])[1..]]
    ensures k in m && |Values(m[k])| <= 1 ==> View(r) == View(m) - {k}
  {
    if k !in m then m
    else if m[k].Many? && |m[k].values| > 1 then m[k := Compact(m[k].values[1..])]
    else m - {k}
  }

  /** Python's `list.remove`: drops the first element equal to `v`. */
  function RemoveFirst<V(==)>(vs: seq<V>, v: V): (r: seq<V>)
    requires v in vs
    ensures |r| == |vs| - 1
  {
    if vs[0] == v then vs[1..] else [vs[0]] + RemoveFirst(vs[1..], v)
  }

  /** `RemoveFirst` takes away one copy of `v` and keeps every other element. */
  lemma {:induction false} RemoveFirstMultiset<V>(vs: seq<V>, v: V)
    requires v in vs
    ensures multiset(RemoveFirst(vs, v)) == multiset(vs) - multiset{v}
  {
    if vs[0] != v {
      RemoveFirstMultiset(vs[1..], v);
      assert vs == [vs[0]] + vs[1..];
    } else {
      assert vs == [v] + vs[1..];
    }
  }

  /** `RemoveFirst` keeps the order: the values before the first `v`, then those after it. */
  lemma {:induction false} RemoveFirstSplits<V>(vs: seq<V>, v: V, i: nat)
    requires i < |vs| && vs[i] == v && v !in vs[..i]
    ensures RemoveFirst(vs, v) == vs[..i] + vs[i + 1..]
  {
    if i > 0 {
      assert vs[0] in vs[..i];
      assert v !in vs[1..][..i - 1] by { assert vs[1..][..i - 1] == vs[..i][1..]; }
      RemoveFirstSplits(vs[1..], v, i - 1);
      assert vs[..i] == [vs[0]] + vs[1..][..i - 1];
    }
  }

  /**
   * Deletes one given value under `k`: the first equal value goes; a key
   * left empty goes, and a key left with one value is written back bare.
   * A value that is not stored changes nothing.
   */
  function DeleteValue<K, V(==)>(m: map<K, Entry<V>>, k: K, v: V): (r: map<K, Entry<V>>)
    ensures k !in m || v !in Values(m[k]) ==> r == m
    ensures k in m && v in Values(m[k]) ==>
      var rest := RemoveFirst(Values(m[k]), v);
      View(r) == if rest == [] then View(m) - {k} else View(m)[k := rest]
  {
    if k !in m then m
    else match m[k]
      case Many(vs) =>
        if v in vs then
          var rest := RemoveFirst(vs, v);
          if |rest| == 0 then m - {k} else m[k := Compact(rest)]
        else m
      case Single(x) =>
        if x == v then m - {k} else m
  }

  /** Deleting a value just added restores the stored list. */
  lemma {:induction false} DeleteAfterAdd<K, V>(m: map<K, Entry<V>>, k: K, v: V)
    requires v !in ValuesAt(m, k)
    ensures ValuesAt(m, k) == [] ==> View(DeleteValue(Add(m, k, v), k, v)) == View(m) - {k}
    ensures ValuesAt(m, k) != [] ==> View(DeleteValue(Add(m, k, v), k, v)) == View(m)
  {
    var vs := ValuesAt(m, k);
    var added := Add(m, k, v);
    assert Values(added[k]) == vs + [v];
    RemoveAppended(vs, v);
    if vs == [] {
      assert View(DeleteValue(added, k, v)) == View(added) - {k};
    } else {
      assert View(DeleteValue(added, k, v)) == View(added)[k := vs];
    }
  }

  /**
   * With the value already stored, adding it and deleting it removes the
   * older copy: the list ends with the value instead of holding it where it was.
   */
  lemma DeleteAfterAddStored<K, V>(m: map<K, Entry<V>>, k: K, v: V)
    requires v in ValuesAt(m, k)
    ensures View(DeleteValue(Add(m, k, v), k, v)) == View(m)[k := RemoveFirst(ValuesAt(m, k), v) + [v]]
  {
    var vs := ValuesAt(m, k);
    var added := Add(m, k, v);
    assert Values(added[k]) == vs + [v];
    RemoveFirstAppend(vs, v, v);
    assert View(DeleteValue(added, k, v)) == View(added)[k := RemoveFirst(vs, v) + [v]];
  }

  /** Removing from a list with a value appended removes from the list and keeps the appended value. */
  lemma {:induction false} RemoveFirstAppend<V>(vs: seq<V>, v: V, w: V)
    requires v in vs
    ensures RemoveFirst(vs + [w], v) == RemoveFirst(vs, v) + [w]
  {
    assert (vs + [w])[0] == vs[0];
    if vs[0] == v {
      assert (vs + [w])[1..] == vs[1..] + [w];
    } else {
      assert (vs + [w])[1..] == vs[1..] + [w];
      RemoveFirstAppend(vs[1..], v, w);
    }
  }

  /** Removing a value appended to a list that lacks it gives the list back. */
  lemma RemoveAppended<V>(vs: seq<V>, v: V)
    requires v !in vs
    ensures RemoveFirst(vs + [v], v) == vs
  {
    RemoveFirstSplits(vs + [v], v, |vs|);
    assert (vs + [v])[..|vs|] == vs;
    assert (vs + [v])[|vs| + 1..] == [];
  }
}
