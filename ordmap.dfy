/** A JavaScript `Map` keyed by strings, as the scripts use it: `set` on a
    new key appends an entry, `set` on a present key replaces the value in
    place, and iteration (`keys()`, `values()`, `entries()`) follows the
    order in which keys first arrived. */
module OrderedMaps {
  import opened Types

  datatype Slot<V> = Slot(key: string, value: V)

  function Keys<V>(m: seq<Slot<V>>): (ks: seq<string>)
    ensures |ks| == |m| && forall i | 0 <= i < |m| :: ks[i] == m[i].key
  {
    if m == [] then [] else [m[0].key] + Keys(m[1..])
  }

  function Values<V>(m: seq<Slot<V>>): (vs: seq<V>)
    ensures |vs| == |m| && forall i | 0 <= i < |m| :: vs[i] == m[i].value
  {
    if m == [] then [] else [m[0].value] + Values(m[1..])
  }

  predicate DistinctKeys<V>(m: seq<Slot<V>>)
  {
    forall i, j | 0 <= i < j < |m| :: m[i].key != m[j].key
  }

  /** `m.get(k)`, with `None` for `undefined`. */
  function Get<V>(m: seq<Slot<V>>, k: string): (r: Option<V>)
    ensures r.None? <==> k !in Keys(m)
    ensures r.Some? ==> Slot(k, r.value) in m
  {
    if m == [] then None
    else if m[0].key == k then Some(m[0].value)
    else
      assert Keys(m) == [m[0].key] + Keys(m[1..]);
      Get(m[1..], k)
  }

  /** `m.set(k, v)` */
  function Put<V>(m: seq<Slot<V>>, k: string, v: V): seq<Slot<V>>
  {
    if m == [] then [Slot(k, v)]
    else if m[0].key == k then [Slot(k, v)] + m[1..]
    else [m[0]] + Put(m[1..], k, v)
  }

  /** After `set(k, v)`, `k` reads `v` and every other key reads as before. */
  lemma {:induction false} PutGet<V>(m: seq<Slot<V>>, k: string, v: V, k2: string)
    ensures Get(Put(m, k, v), k2) == if k2 == k then Some(v) else Get(m, k2)
  {
    if m != [] && m[0].key != k {
      PutGet(m[1..], k, v, k2);
    }
  }

  /** A present key keeps its place and a new key goes last. */
  lemma {:induction false} PutKeys<V>(m: seq<Slot<V>>, k: string, v: V)
    ensures Keys(Put(m, k, v)) == if k in Keys(m) then Keys(m) else Keys(m) + [k]
  {
    if m != [] {
      var r := Put(m, k, v);
      assert Keys(m) == [m[0].key] + Keys(m[1..]);
      assert Keys(r) == [r[0].key] + Keys(r[1..]);
      if m[0].key != k {
        PutKeys(m[1..], k, v);
      }
    }
  }

  /** After `set(k, v)` every slot is an old one or the new pair. */
  lemma {:induction false} PutSlots<V>(m: seq<Slot<V>>, k: string, v: V)
    ensures forall x | x in Put(m, k, v) :: x in m || x == Slot(k, v)
  {
    if m != [] && m[0].key != k {
      PutSlots(m[1..], k, v);
      assert forall x | x in m[1..] :: x in m;
    }
  }

  /** A map built by `set` never holds a key twice. */
  lemma {:induction false} PutDistinct<V>(m: seq<Slot<V>>, k: string, v: V)
    requires DistinctKeys(m)
    ensures DistinctKeys(Put(m, k, v))
  {
    var r := Put(m, k, v);
    PutKeys(m, k, v);
    forall i, j | 0 <= i < j < |r|
      ensures r[i].key != r[j].key
    {
      assert Keys(r)[i] == r[i].key && Keys(r)[j] == r[j].key;
      if k in Keys(m) {
        assert Keys(m)[i] == m[i].key && Keys(m)[j] == m[j].key;
      } else {
        assert Keys(r) == Keys(m) + [k];
        if j < |m| {
          assert Keys(m)[i] == m[i].key && Keys(m)[j] == m[j].key;
        } else {
          assert Keys(m)[i] == m[i].key;
        }
      }
    }
  }

  /** In a map without repeated keys, the value of a slot is what its key reads. */
  lemma GetSlot<V>(m: seq<Slot<V>>, i: nat)
    requires DistinctKeys(m) && i < |m|
    ensures Get(m, m[i].key) == Some(m[i].value)
  {
    if i > 0 {
      assert DistinctKeys(m[1..]) by {
        forall a, b | 0 <= a < b < |m[1..]| ensures m[1..][a].key != m[1..][b].key {
          assert m[1..][a] == m[a + 1] && m[1..][b] == m[b + 1];
        }
      }
      GetSlot(m[1..], i - 1);
    }
  }

  /** Looking up in a map with one more slot at the end: the earlier slots win. */
  lemma {:induction false} GetSnoc<V>(m: seq<Slot<V>>, x: Slot<V>, k: string)
    ensures Get(m + [x], k) == if Get(m, k).Some? then Get(m, k) else if x.key == k then Some(x.value) else None
  {
    if m == [] {
      assert m + [x] == [x];
    } else {
      assert (m + [x])[1..] == m[1..] + [x];
      GetSnoc(m[1..], x, k);
    }
  }

  /** The same, read from the end. */
  lemma GetInit<V>(m: seq<Slot<V>>, k: string)
    requires m != []
    ensures var init, x := m[..|m| - 1], m[|m| - 1];
      Get(m, k) == if Get(init, k).Some? then Get(init, k) else if x.key == k then Some(x.value) else None
  {
    var init, x := m[..|m| - 1], m[|m| - 1];
    assert init + [x] == m;
    GetSnoc(init, x, k);
  }

  /** `m.delete(k)` for every key `k` of `ks`: the slots with those keys go
      and the others keep their order. */
  function RemoveKeys<V>(m: seq<Slot<V>>, ks: set<string>): (r: seq<Slot<V>>)
    ensures |r| <= |m|
  {
    if m == [] then [] else (if m[0].key in ks then [] else [m[0]]) + RemoveKeys(m[1..], ks)
  }

  /** After the deletions a removed key reads nothing and every other key
      reads as before. */
  lemma {:induction false} GetRemoveKeys<V>(m: seq<Slot<V>>, ks: set<string>, k: string)
    ensures Get(RemoveKeys(m, ks), k) == if k in ks then None else Get(m, k)
  {
    if m != [] {
      var rest := RemoveKeys(m[1..], ks);
      GetRemoveKeys(m[1..], ks, k);
      if m[0].key in ks {
        assert RemoveKeys(m, ks) == rest;
      } else {
        var r := [m[0]] + rest;
        assert RemoveKeys(m, ks) == r;
        assert r[0] == m[0] && r[1..] == rest;
      }
    }
  }

  /** Deleting one set of keys and then another deletes their union, so the
      order of the deletions does not matter. */
  lemma {:induction false} RemoveKeysTwice<V>(m: seq<Slot<V>>, a: set<string>, b: set<string>)
    ensures RemoveKeys(RemoveKeys(m, a), b) == RemoveKeys(m, a + b)
  {
    if m != [] {
      RemoveKeysTwice(m[1..], a, b);
      var rest := RemoveKeys(m[1..], a);
      if m[0].key in a {
        assert RemoveKeys(m, a) == rest;
        assert RemoveKeys(m, a + b) == RemoveKeys(m[1..], a + b);
      } else {
        var r := [m[0]] + rest;
        assert RemoveKeys(m, a) == r;
        assert r[0] == m[0] && r[1..] == rest;
      }
    }
  }

  /** Deleting no key changes nothing. */
  lemma {:induction false} RemoveNoKeys<V>(m: seq<Slot<V>>)
    ensures RemoveKeys(m, {}) == m
  {
    if m != [] {
      RemoveNoKeys(m[1..]);
    }
  }

  /** `m.set(k, v)` for every entry of `es` in turn. */
  function PutAll<V>(m: seq<Slot<V>>, es: seq<Slot<V>>): seq<Slot<V>>
  {
    if es == [] then m else Put(PutAll(m, es[..|es| - 1]), es[|es| - 1].key, es[|es| - 1].value)
  }

  /** With the entries' keys distinct, an entry's key reads its value and
      every other key reads as before. */
  lemma {:induction false} PutAllGet<V>(m: seq<Slot<V>>, es: seq<Slot<V>>, k: string)
    requires DistinctKeys(es)
    ensures Get(PutAll(m, es), k) == if Get(es, k).Some? then Get(es, k) else Get(m, k)
  {
    if es != [] {
      var init := es[..|es| - 1];
      var x := es[|es| - 1];
      assert DistinctKeys(init) by {
        forall i, j | 0 <= i < j < |init| ensures init[i].key != init[j].key {
          assert init[i] == es[i] && init[j] == es[j];
        }
      }
      assert x.key !in Keys(init) by {
        forall i | 0 <= i < |init| ensures Keys(init)[i] != x.key {
          assert init[i] == es[i];
        }
      }
      PutAllGet(m, init, k);
      PutGet(PutAll(m, init), x.key, x.value, k);
      GetInit(es, k);
    }
  }
}
