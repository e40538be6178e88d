/** The peripheral records the app keeps, and the JavaScript `Map` that holds them. A `Map`
    remembers insertion order (it decides the order of `Array.from(map.values())` when the
    map is saved, and of `Array.from(map)` when it is filtered), so it is modelled as a
    sequence of entries with distinct keys: `set` on a present key replaces that entry in
    place, `set` on a new key appends. */
module PeripheralMap {
  import opened ByteCodec

  /** A discovered BLE device, reduced to what the app reads or writes: the transport address,
      the advertised name (None when the advertisement has none), and the two flags that the
      app spreads into the record (`{...peripheral, connected: false}`). */
  datatype Peripheral = Peripheral(id: string, name: Option<string>, connected: bool, connecting: bool)

  datatype Entry = Entry(key: string, value: Peripheral)

  /** A `Map<Peripheral['id'], Peripheral>`, in insertion order. */
  type Entries = seq<Entry>

  /** No key occurs twice, which every `Map` guarantees. */
  ghost predicate DistinctKeys(m: Entries)
  {
    m == [] || (m[0].key !in Keys(m[1..]) && DistinctKeys(m[1..]))
  }

  /** Every entry is stored under its own peripheral's id, as every `set` in the app does it. */
  ghost predicate WellKeyed(m: Entries)
  {
    forall i :: 0 <= i < |m| ==> m[i].key == m[i].value.id
  }

  function Keys(m: Entries): (ks: set<string>)
    ensures forall i :: 0 <= i < |m| ==> m[i].key in ks
  {
    if m == [] then {} else {m[0].key} + Keys(m[1..])
  }

  /** `map.get(k)`. */
  function Get(m: Entries, k: string): (r: Option<Peripheral>)
    ensures r.Some? <==> k in Keys(m)
  {
    if m == [] then None
    else if m[0].key == k then Some(m[0].value)
    else Get(m[1..], k)
  }

  /** In a well-keyed map, the entry found under an id holds the peripheral with that id. */
  lemma {:induction false} GetOwnId(m: Entries, id: string)
    requires WellKeyed(m) && Get(m, id).Some?
    ensures Get(m, id).value.id == id
  {
    if m[0].key != id {
      GetOwnId(m[1..], id);
    }
  }

  /** `map.has(k)`. */
  predicate Has(m: Entries, k: string)
  {
    Get(m, k).Some?
  }

  /** `map.set(k, v)`: replaces the value of a present key where it stands, appends a new key. */
  function Set(m: Entries, k: string, v: Peripheral): (r: Entries)
    ensures Keys(r) == Keys(m) + {k}
    ensures Get(r, k) == Some(v)
    ensures forall j :: j != k ==> Get(r, j) == Get(m, j)
    ensures |r| == if k in Keys(m) then |m| else |m| + 1
    ensures DistinctKeys(m) ==> DistinctKeys(r)
    ensures WellKeyed(m) && v.id == k ==> WellKeyed(r)
  {
    if m == [] then [Entry(k, v)]
    else if m[0].key == k then [Entry(k, v)] + m[1..]
    else
      var r := [m[0]] + Set(m[1..], k, v);
      assert r[1..] == Set(m[1..], k, v);
      r
  }

  /** `Array.from(map.values())`. */
  function Values(m: Entries): (vs: seq<Peripheral>)
    ensures |vs| == |m|
    ensures forall i :: 0 <= i < |m| ==> vs[i] == m[i].value
  {
    seq(|m|, i requires 0 <= i < |m| => m[i].value)
  }

  /** `new Map(Array.from(map).filter(([k, p]) => !known.has(p.id)))`: the entries whose
      peripheral id is not among `known`, in their original order. */
  function WithoutIds(m: Entries, known: set<string>): (r: Entries)
    ensures forall e :: e in r <==> e in m && e.value.id !in known
    ensures |r| <= |m|
    ensures Keys(r) <= Keys(m)
    ensures DistinctKeys(m) ==> DistinctKeys(r)
    ensures WellKeyed(m) ==> WellKeyed(r)
  {
    if m == [] then []
    else
      var rest := WithoutIds(m[1..], known);
      if m[0].value.id in known then rest
      else
        var r := [m[0]] + rest;
        assert r[1..] == rest;
        r
  }

  /** The filter looks at the first entry and then filters the rest. */
  lemma WithoutIdsCons(e: Entry, m: Entries, known: set<string>)
    ensures WithoutIds([e] + m, known) == if e.value.id in known then WithoutIds(m, known) else [e] + WithoutIds(m, known)
  {
    assert ([e] + m)[0] == e && ([e] + m)[1..] == m;
  }

  lemma ConsAppend(e: Entry, x: Entries, y: Entries)
    ensures [e] + (x + y) == ([e] + x) + y
  {
  }

  /** The filter keeps the surviving entries in their relative order: it distributes over
      concatenation. */
  lemma {:induction false} WithoutIdsAppend(a: Entries, b: Entries, known: set<string>)
    ensures WithoutIds(a + b, known) == WithoutIds(a, known) + WithoutIds(b, known)
  {
    if a == [] {
      assert a + b == b;
    } else {
      var e, rest := a[0], a[1..];
      assert a == [e] + rest && a + b == [e] + (rest + b);
      WithoutIdsAppend(rest, b, known);
      WithoutIdsCons(e, rest, known);
      WithoutIdsCons(e, rest + b, known);
      if e.value.id !in known {
        ConsAppend(e, WithoutIds(rest, known), WithoutIds(b, known));
      }
    }
  }

  /** An entry whose id is not known survives the filter alone, any other is dropped. */
  lemma WithoutIdsSingle(e: Entry, known: set<string>)
    ensures WithoutIds([e], known) == if e.value.id in known then [] else [e]
  {
    assert [e][1..] == [];
  }

  /** A `Map` object, as opposed to its contents: two holders of the same object both see a
      `set` made through either of them. */
  class PeripheralTable {
    var entries: Entries

    constructor (entries: Entries)
      ensures this.entries == entries
    {
      this.entries := entries;
    }
  }

  /** A second `set` of the same key overrides the first and leaves the entry where the first
      put it. */
  lemma {:induction false} SetTwice(m: Entries, k: string, v: Peripheral, w: Peripheral)
    ensures Set(Set(m, k, v), k, w) == Set(m, k, w)
  {
    if m != [] && m[0].key != k {
      SetTwice(m[1..], k, v, w);
      assert Set(m, k, v)[1..] == Set(m[1..], k, v);
    }
  }

  /** Setting a key that is not yet present appends exactly one entry at the end. */
  lemma {:induction false} SetNewKeyAppends(m: Entries, k: string, v: Peripheral)
    requires k !in Keys(m)
    ensures Set(m, k, v) == m + [Entry(k, v)]
  {
    if m != [] {
      SetNewKeyAppends(m[1..], k, v);
      assert [m[0]] + (m[1..] + [Entry(k, v)]) == m + [Entry(k, v)];
    }
  }

  /** Setting a key that is present leaves the order of the keys and every other entry as it was. */
  lemma {:induction false} SetPresentKeyInPlace(m: Entries, k: string, v: Peripheral, i: nat)
    requires i < |m| && m[i].key == k && DistinctKeys(m)
    ensures Set(m, k, v) == m[i := Entry(k, v)]
  {
    if i > 0 {
      assert m[0].key != k;
      assert DistinctKeys(m[1..]);
      SetPresentKeyInPlace(m[1..], k, v, i - 1);
      assert [m[0]] + m[1..][i - 1 := Entry(k, v)] == m[i := Entry(k, v)];
    } else {
      assert [Entry(k, v)] + m[1..] == m[0 := Entry(k, v)];
    }
  }

  lemma {:induction false} KeysAppend(a: Entries, b: Entries)
    ensures Keys(a + b) == Keys(a) + Keys(b)
  {
    if a != [] {
      KeysAppend(a[1..], b);
      assert (a + b)[1..] == a[1..] + b && (a + b)[0] == a[0];
    } else {
      assert a + b == b;
    }
  }

  lemma {:induction false} DistinctAppend(a: Entries, b: Entries)
    ensures DistinctKeys(a + b) <==> DistinctKeys(a) && DistinctKeys(b) && Keys(a) !! Keys(b)
  {
    if a != [] {
      DistinctAppend(a[1..], b);
      KeysAppend(a[1..], b);
      assert (a + b)[1..] == a[1..] + b && (a + b)[0] == a[0];
    } else {
      assert a + b == b;
    }
  }

  /** `s.includes(sub)`. */
  predicate Contains(s: string, sub: string)
  {
    (|sub| <= |s| && s[..|sub|] == sub) || (s != [] && Contains(s[1..], sub))
  }

  /** A name that contains `a + b` contains `a`: "COR2" in a name implies "COR" in it. */
  lemma {:induction false} ContainsPrefix(s: string, a: string, b: string)
    requires Contains(s, a + b)
    ensures Contains(s, a)
  {
    if |a + b| <= |s| && s[..|a + b|] == a + b {
      assert s[..|a|] == (a + b)[..|a|] == a;
    } else {
      ContainsPrefix(s[1..], a, b);
    }
  }
}
