/** The known-peripherals store: an array of peripheral records kept under the single
    AsyncStorage key 'knownPeripherals'. The stored value is modelled as the sequence of
    records itself (JSON serialisation taken as the identity), or None when the key is absent. */
module StorageDevices {
  import opened ByteCodec
  import opened PeripheralMap

  const StorageKey: string := "knownPeripherals"

  /** The map `loadKnownPeripherals` builds from a stored array: `map.set(p.id, p)` for each
      record in stored order. */
  function FromList(ps: seq<Peripheral>): (m: Entries)
    ensures DistinctKeys(m) && WellKeyed(m)
    ensures |m| <= |ps|
  {
    if ps == [] then []
    else
      var last := ps[|ps| - 1];
      Set(FromList(ps[..|ps| - 1]), last.id, last)
  }

  /** The last record of `ps` with the given id, if any. */
  function LastWithId(ps: seq<Peripheral>, id: string): (r: Option<Peripheral>)
    ensures r.Some? ==> r.value in ps && r.value.id == id
    ensures r.None? ==> forall i :: 0 <= i < |ps| ==> ps[i].id != id
  {
    if ps == [] then None
    else if ps[|ps| - 1].id == id then Some(ps[|ps| - 1])
    else LastWithId(ps[..|ps| - 1], id)
  }

  /** `peripheralsArray.filter(p => p.id !== id)`. */
  function WithoutId(ps: seq<Peripheral>, id: string): (r: seq<Peripheral>)
    ensures forall p :: p in r <==> p in ps && p.id != id
    ensures |r| <= |ps|
  {
    if ps == [] then []
    else if ps[0].id == id then WithoutId(ps[1..], id)
    else [ps[0]] + WithoutId(ps[1..], id)
  }

  /** A later record with the same id overrides an earlier one. */
  lemma {:induction false} LoadLastDuplicateWins(ps: seq<Peripheral>, id: string)
    ensures Get(FromList(ps), id) == LastWithId(ps, id)
  {
    if ps != [] {
      LoadLastDuplicateWins(ps[..|ps| - 1], id);
    }
  }

  /** Saving a map and loading it back gives the same map, in the same order, provided it is
      stored under its peripherals' own ids (as every `set` in the app does). */
  lemma {:induction false} LoadAfterSave(m: Entries)
    requires DistinctKeys(m) && WellKeyed(m)
    ensures FromList(Values(m)) == m
  {
    if m != [] {
      var init := m[..|m| - 1];
      var last := m[|m| - 1];
      DistinctKeysPrefix(m);
      assert Values(m)[..|m| - 1] == Values(init);
      LoadAfterSave(init);
      SetNewKeyAppends(init, last.key, last.value);
      assert init + [Entry(last.key, last.value)] == m;
    }
  }

  /** Dropping the last entry keeps the keys distinct, and the last key is not among the rest. */
  lemma {:induction false} DistinctKeysPrefix(m: Entries)
    requires m != [] && DistinctKeys(m)
    ensures DistinctKeys(m[..|m| - 1]) && m[|m| - 1].key !in Keys(m[..|m| - 1])
  {
    var init, last := m[..|m| - 1], m[|m| - 1];
    assert m == init + [last];
    DistinctAppend(init, [last]);
    assert Keys([last]) == {last.key} by {
      assert [last][1..] == [];
    }
  }

  /** Deleting an id that is not stored leaves the array as it was. */
  lemma {:induction false} DeleteAbsentIsIdentity(ps: seq<Peripheral>, id: string)
    requires forall i :: 0 <= i < |ps| ==> ps[i].id != id
    ensures WithoutId(ps, id) == ps
  {
    if ps != [] {
      DeleteAbsentIsIdentity(ps[1..], id);
    }
  }

  /** Deleting keeps the other records in their relative order: filtering distributes over
      concatenation. */
  lemma {:induction false} DeleteKeepsOrder(a: seq<Peripheral>, b: seq<Peripheral>, id: string)
    ensures WithoutId(a + b, id) == WithoutId(a, id) + WithoutId(b, id)
  {
    if a != [] {
      var p, rest := a[0], a[1..];
      assert (a + b)[1..] == rest + b && (a + b)[0] == p;
      DeleteKeepsOrder(rest, b, id);
      if p.id != id {
        var x, y := WithoutId(rest, id), WithoutId(b, id);
        assert [p] + (x + y) == ([p] + x) + y;
      }
    } else {
      assert a + b == b;
    }
  }

  class KnownPeripheralStore {
    /** The value under `StorageKey`; None while the key has never been written. */
    var stored: Option<seq<Peripheral>>

    constructor (initial: Option<seq<Peripheral>>)
      ensures stored == initial
    {
      stored := initial;
    }

    /** `saveKnownPeripherals`: the map's values, in insertion order, replace the stored
        array. A failing `setItem` is logged and swallowed, leaving the old value. */
    method Save(m: Entries, ok: bool)
      modifies this
      ensures stored == if ok then Some(Values(m)) else old(stored)
    {
      if ok {
        stored := Some(Values(m));
      }
    }

    /** `loadKnownPeripherals`: folds the stored array into a fresh map, record by record.
        A missing key and a failing `getItem` both give the empty map. */
    method Load(ok: bool) returns (m: Entries)
      ensures DistinctKeys(m) && WellKeyed(m)
      ensures !ok || stored.None? ==> m == []
      ensures ok && stored.Some? ==> m == FromList(stored.value)
      ensures ok && stored.Some? ==> forall id :: Get(m, id) == LastWithId(stored.value, id)
    {
      m := [];
      if !ok || stored.None? {
        return;
      }
      var ps := stored.value;
      var i := 0;
      while i < |ps|
        invariant 0 <= i <= |ps|
        invariant m == FromList(ps[..i])
      {
        assert ps[..i + 1][..i] == ps[..i];
        m := Set(m, ps[i].id, ps[i]);
        i := i + 1;
      }
      assert ps[..i] == ps;
      forall id ensures Get(m, id) == LastWithId(ps, id) {
        LoadLastDuplicateWins(ps, id);
      }
    }

    /** `deletePeripheral`: the stored array filtered to the other ids; nothing is written
        when the key is absent, and a storage failure is swallowed. */
    method Delete(id: string, ok: bool)
      modifies this
      ensures stored == if ok && old(stored).Some? then Some(WithoutId(old(stored).value, id)) else old(stored)
    {
      if ok && stored.Some? {
        stored := Some(WithoutId(stored.value, id));
      }
    }
  }
}
