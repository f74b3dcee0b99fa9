/** The plugin's side table of metadata: for each target object, a map from
    string keys to values. */
module HGMetadata {
  import opened Base

  type Table<T, V> = map<T, map<string, V>>

  /** The value stored for `(t, k)`, read as a table of pairs. */
  function Lookup<T, V>(m: Table<T, V>, t: T, k: string): Option<V>
  {
    if t in m && k in m[t] then Some(m[t][k]) else None
  }

  /** The invariant `put` and `remove` keep: no target maps to an empty inner map. */
  predicate NoEmptyInner<T, V>(m: Table<T, V>)
  {
    forall t :: t in m ==> m[t] != map[]
  }

  /** Stores `v` under `(t, k)`, creating the target's inner map if it has none. */
  function Put<T(!new), V>(m: Table<T, V>, t: T, k: string, v: V): (r: Table<T, V>)
    ensures Lookup(r, t, k) == Some(v)
    ensures forall t': T, k': string :: t' != t || k' != k ==> Lookup(r, t', k') == Lookup(m, t', k')
    ensures r.Keys == m.Keys + {t}
    ensures NoEmptyInner(m) ==> NoEmptyInner(r)
  {
    if t in m then m[t := m[t][k := v]] else m[t := map[k := v]]
  }

  /** Deletes the entry `(t, k)`; a target whose inner map becomes empty is
      dropped, and a target with no inner map is left alone. */
  function Remove<T(!new), V>(m: Table<T, V>, t: T, k: string): (r: Table<T, V>)
    ensures Lookup(r, t, k) == None
    ensures forall t': T, k': string :: t' != t || k' != k ==> Lookup(r, t', k') == Lookup(m, t', k')
    ensures t !in m ==> r == m
    ensures t in r <==> t in m && m[t].Keys - {k} != {}
    ensures forall t': T :: t' != t ==> (t' in r <==> t' in m)
    ensures NoEmptyInner(m) ==> NoEmptyInner(r)
  {
    if t in m then
      var inner := m[t] - {k};
      if |inner| == 0 then m - {t} else m[t := inner]
    else
      m
  }

  /** The documented `getIfPresent`: the value stored under `(t, k)` when
      there is one and `expected` accepts it, otherwise nothing. `expected`
      stands for `Class.isInstance`. */
  function GetIfPresent<T, V>(m: Table<T, V>, t: T, k: string, expected: V -> bool): (r: Option<V>)
    ensures r.Some? ==> Lookup(m, t, k) == r && expected(r.value)
    ensures r.None? ==> Lookup(m, t, k).None? || !expected(Lookup(m, t, k).value)
  {
    if t in m && k in m[t] && expected(m[t][k]) then Some(m[t][k]) else None
  }

  /** `getIfPresent` as the code is written: after the same checks it hands
      back the target's whole inner map instead of the value. */
  function GetIfPresentAsWritten<T, V>(m: Table<T, V>, t: T, k: string, expected: V -> bool): (r: Option<map<string, V>>)
    ensures r.Some? <==> GetIfPresent(m, t, k, expected).Some?
    ensures r.Some? ==> t in m && r.value == m[t]
  {
    if t in m && k in m[t] && expected(m[t][k]) then Some(m[t]) else None
  }

  /** Reading back what was just stored yields it, if it has the expected type. */
  lemma GetAfterPut<T(!new), V>(m: Table<T, V>, t: T, k: string, v: V, expected: V -> bool)
    ensures GetIfPresent(Put(m, t, k, v), t, k, expected) == (if expected(v) then Some(v) else None)
  {
  }

  /** Storing under one key leaves every other key's reading unchanged. */
  lemma GetOtherAfterPut<T(!new), V>(m: Table<T, V>, t: T, k: string, v: V, t': T, k': string, expected: V -> bool)
    requires t' != t || k' != k
    ensures GetIfPresent(Put(m, t, k, v), t', k', expected) == GetIfPresent(m, t', k', expected)
  {
    assert Lookup(Put(m, t, k, v), t', k') == Lookup(m, t', k');
  }

  /** After removal nothing is found under the removed key. */
  lemma GetAfterRemove<T(!new), V>(m: Table<T, V>, t: T, k: string, expected: V -> bool)
    ensures GetIfPresent(Remove(m, t, k), t, k, expected) == None
  {
    assert Lookup(Remove(m, t, k), t, k) == None;
  }

  /** Putting and then removing the same entry restores a table in which the
      target held nothing before. */
  lemma RemoveUndoesPut<T(!new), V>(m: Table<T, V>, t: T, k: string, v: V)
    requires t !in m
    ensures Remove(Put(m, t, k, v), t, k) == m
  {
    var p := Put(m, t, k, v);
    assert p[t] == map[k := v];
    assert p[t] - {k} == map[];
  }

  /** The as-written reading differs from the documented one: for a target
      holding two entries, the documented reading is the value and the
      as-written reading is the two-entry map. */
  lemma AsWrittenReturnsInnerMap()
    ensures GetIfPresent(map[0 := map["worldguard.cause" := 7, "other" := 8]], 0, "worldguard.cause", (v: int) => true) == Some(7)
    ensures GetIfPresentAsWritten(map[0 := map["worldguard.cause" := 7, "other" := 8]], 0, "worldguard.cause", (v: int) => true)
         == Some(map["worldguard.cause" := 7, "other" := 8])
  {
  }
}
