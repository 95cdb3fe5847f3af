/**
 * The parts of Ruby's `Hash` that the option assembly relies on.  A Ruby hash
 * remembers the order in which its keys were first inserted; it is modelled
 * as the sequence of its entries in that order.
 *
 * `Lookup` returns the value of the FIRST entry with the key; the lemmas about
 * lookups therefore hold for any entry sequence, and "no key twice" is a
 * separate property (`UniqueKeys`) that the operations are shown to keep.
 */
module RubyHash {
  import opened RubyArray

  datatype Option<T> = None | Some(value: T)

  /** `h.keys`, in insertion order. */
  function KeysOf<K(==), V>(h: seq<(K, V)>): (ks: seq<K>)
    ensures |ks| == |h|
    ensures forall i :: 0 <= i < |h| ==> ks[i] == h[i].0
  {
    if h == [] then [] else [h[0].0] + KeysOf(h[1..])
  }

  /** A well-formed Ruby hash: no key occurs twice. */
  ghost predicate UniqueKeys<K, V>(h: seq<(K, V)>) {
    Distinct(KeysOf(h))
  }

  /** `h[k]`, with `None` for a missing key. */
  function Lookup<K(==), V>(h: seq<(K, V)>, k: K): (r: Option<V>)
    ensures r.Some? <==> k in KeysOf(h)
  {
    if h == [] then None
    else if h[0].0 == k then Some(h[0].1)
    else Lookup(h[1..], k)
  }

  lemma KeysOfAppend<K, V>(a: seq<(K, V)>, b: seq<(K, V)>)
    ensures KeysOf(a + b) == KeysOf(a) + KeysOf(b)
  {
  }

  /** A lookup in `a + b` finds `a`'s entry when `a` has the key, and `b`'s otherwise. */
  lemma {:induction false} LookupAppend<K, V>(a: seq<(K, V)>, b: seq<(K, V)>, k: K)
    ensures Lookup(a + b, k) == if k in KeysOf(a) then Lookup(a, k) else Lookup(b, k)
  {
    if a != [] {
      assert (a + b)[1..] == a[1..] + b;
      LookupAppend(a[1..], b, k);
    } else {
      assert a + b == b;
    }
  }

  /** In a hash without repeated keys, looking up the key of entry `i` gives entry `i`'s value. */
  lemma {:induction false} LookupEntry<K, V>(h: seq<(K, V)>, i: nat)
    requires UniqueKeys(h)
    requires i < |h|
    ensures Lookup(h, h[i].0) == Some(h[i].1)
  {
    if i > 0 {
      assert h[0].0 == KeysOf(h)[0] != KeysOf(h)[i] == h[i].0;
      assert forall p :: 0 <= p < |h| - 1 ==> KeysOf(h[1..])[p] == KeysOf(h)[p + 1];
      LookupEntry(h[1..], i - 1);
    }
  }

  /** The entries of `r` whose key is not among `ks`, in `r`'s order. */
  function RightOnly<K(==), V>(r: seq<(K, V)>, ks: seq<K>): seq<(K, V)>
  {
    if r == [] then []
    else (if r[0].0 in ks then [] else [r[0]]) + RightOnly(r[1..], ks)
  }

  /** `RightOnly` keeps exactly the keys of `r` outside `ks`, with `r`'s values. */
  lemma {:induction false} RightOnlyLookup<K, V>(r: seq<(K, V)>, ks: seq<K>, k: K)
    ensures Lookup(RightOnly(r, ks), k) == if k in ks then None else Lookup(r, k)
  {
    if r != [] {
      RightOnlyLookup(r[1..], ks, k);
      LookupAppend(if r[0].0 in ks then [] else [r[0]], RightOnly(r[1..], ks), k);
    }
  }

  /** The keys `RightOnly` keeps are distinct when `r`'s are, and none of them is in `ks`. */
  lemma {:induction false} RightOnlyKeys<K, V>(r: seq<(K, V)>, ks: seq<K>)
    ensures forall k :: k in KeysOf(RightOnly(r, ks)) <==> k in KeysOf(r) && k !in ks
    ensures UniqueKeys(r) ==> UniqueKeys(RightOnly(r, ks))
    ensures |RightOnly(r, ks)| <= |r|
  {
    forall k ensures k in KeysOf(RightOnly(r, ks)) <==> k in KeysOf(r) && k !in ks {
      RightOnlyLookup(r, ks, k);
    }
    RightOnlyUnique(r, ks);
  }

  lemma {:induction false} RightOnlyUnique<K, V>(r: seq<(K, V)>, ks: seq<K>)
    ensures UniqueKeys(r) ==> UniqueKeys(RightOnly(r, ks))
    ensures |RightOnly(r, ks)| <= |r|
  {
    if r != [] {
      RightOnlyUnique(r[1..], ks);
      var head: seq<(K, V)> := if r[0].0 in ks then [] else [r[0]];
      var tail := RightOnly(r[1..], ks);
      assert RightOnly(r, ks) == head + tail;
      if UniqueKeys(r) {
        assert UniqueKeys(r[1..]) by {
          assert forall p :: 0 <= p < |r| - 1 ==> KeysOf(r[1..])[p] == KeysOf(r)[p + 1];
        }
        assert r[0].0 !in KeysOf(r[1..]) by {
          forall p | 0 <= p < |r| - 1 ensures KeysOf(r[1..])[p] != r[0].0 {
            assert KeysOf(r[1..])[p] == KeysOf(r)[p + 1];
            assert KeysOf(r)[0] != KeysOf(r)[p + 1];
          }
        }
        assert r[0].0 !in KeysOf(tail) by {
          RightOnlyLookup(r[1..], ks, r[0].0);
        }
        KeysOfAppend(head, tail);
        DistinctAppend(KeysOf(head), KeysOf(tail));
      }
    }
  }

  lemma {:induction false} RightOnlyAppend<K, V>(a: seq<(K, V)>, b: seq<(K, V)>, ks: seq<K>)
    ensures RightOnly(a + b, ks) == RightOnly(a, ks) + RightOnly(b, ks)
  {
    if a == [] {
      assert a + b == b;
    } else {
      assert (a + b)[1..] == a[1..] + b;
      RightOnlyAppend(a[1..], b, ks);
    }
  }

  /** Of two leading entries and a tail, `RightOnly` drops the second entry alone. */
  lemma RightOnlyDropSecond<K, V>(a: (K, V), b: (K, V), tail: seq<(K, V)>, ks: seq<K>)
    requires a.0 !in ks && b.0 in ks
    requires forall k :: k in KeysOf(tail) ==> k !in ks
    ensures RightOnly([a, b] + tail, ks) == [a] + tail
  {
    RightOnlyAppend([a, b], tail, ks);
    RightOnlyAll(tail, ks);
    assert [a, b][1..][1..] == [];
  }

  /** Every entry of `RightOnly(r, ks)` is an entry of `r`. */
  lemma {:induction false} RightOnlyEntries<K, V>(r: seq<(K, V)>, ks: seq<K>)
    ensures forall e :: e in RightOnly(r, ks) ==> e in r
  {
    if r != [] {
      RightOnlyEntries(r[1..], ks);
    }
  }

  /** The entries of `l`, each with `r`'s value when `r` has its key. */
  function Overwritten<K(==), V>(l: seq<(K, V)>, r: seq<(K, V)>): (o: seq<(K, V)>)
    ensures KeysOf(o) == KeysOf(l)
  {
    if l == [] then []
    else
      var v := match Lookup(r, l[0].0) case Some(rv) => rv case None => l[0].1;
      [(l[0].0, v)] + Overwritten(l[1..], r)
  }

  /**
   * `l.merge(r)` (and `l.merge!(r)`) without a block: a key already in `l`
   * keeps its position and takes `r`'s value, the other keys of `r` follow in
   * `r`'s order.
   */
  function Merge<K(==), V>(l: seq<(K, V)>, r: seq<(K, V)>): (m: seq<(K, V)>)
    ensures |l| <= |m| <= |l| + |r|
  {
    RightOnlyUnique(r, KeysOf(l));
    Overwritten(l, r) + RightOnly(r, KeysOf(l))
  }

  lemma {:induction false} OverwrittenLookup<K, V>(l: seq<(K, V)>, r: seq<(K, V)>, k: K)
    ensures Lookup(Overwritten(l, r), k) ==
      if k !in KeysOf(l) then None else if k in KeysOf(r) then Lookup(r, k) else Lookup(l, k)
  {
    if l != [] {
      OverwrittenLookup(l[1..], r, k);
    }
  }

  /** After `l.merge(r)`, the keys of `r` have `r`'s values and every other key keeps `l`'s. */
  lemma MergeLookup<K, V>(l: seq<(K, V)>, r: seq<(K, V)>, k: K)
    ensures Lookup(Merge(l, r), k) == if k in KeysOf(r) then Lookup(r, k) else Lookup(l, k)
  {
    LookupAppend(Overwritten(l, r), RightOnly(r, KeysOf(l)), k);
    OverwrittenLookup(l, r, k);
    RightOnlyLookup(r, KeysOf(l), k);
  }

  /** `l.merge(r)` lists `l`'s keys first and then the keys only `r` has; no key occurs twice. */
  lemma MergeKeys<K, V>(l: seq<(K, V)>, r: seq<(K, V)>)
    ensures KeysOf(Merge(l, r)) == KeysOf(l) + KeysOf(RightOnly(r, KeysOf(l)))
    ensures forall k :: k in KeysOf(Merge(l, r)) <==> k in KeysOf(l) || k in KeysOf(r)
    ensures UniqueKeys(l) && UniqueKeys(r) ==> UniqueKeys(Merge(l, r))
  {
    var extra := RightOnly(r, KeysOf(l));
    KeysOfAppend(Overwritten(l, r), extra);
    RightOnlyKeys(r, KeysOf(l));
    if UniqueKeys(l) && UniqueKeys(r) {
      DistinctAppend(KeysOf(l), KeysOf(extra));
    }
  }

  /** When the two hashes share no key, `l.merge(r)` is `r`'s entries appended to `l`'s. */
  lemma MergeDisjoint<K, V>(l: seq<(K, V)>, r: seq<(K, V)>)
    requires forall k :: k in KeysOf(l) ==> k !in KeysOf(r)
    ensures Merge(l, r) == l + r
  {
    OverwrittenUntouched(l, r);
    RightOnlyAll(r, KeysOf(l));
  }

  lemma {:induction false} OverwrittenUntouched<K, V>(l: seq<(K, V)>, r: seq<(K, V)>)
    requires forall k :: k in KeysOf(l) ==> k !in KeysOf(r)
    ensures Overwritten(l, r) == l
  {
    if l != [] {
      assert KeysOf(l) == [l[0].0] + KeysOf(l[1..]);
      assert Lookup(r, l[0].0) == None;
      OverwrittenUntouched(l[1..], r);
      assert l == [l[0]] + l[1..];
    }
  }

  lemma {:induction false} RightOnlyAll<K, V>(r: seq<(K, V)>, ks: seq<K>)
    requires forall k :: k in KeysOf(r) ==> k !in ks
    ensures RightOnly(r, ks) == r
  {
    if r != [] {
      assert KeysOf(r) == [r[0].0] + KeysOf(r[1..]);
      RightOnlyAll(r[1..], ks);
      assert r == [r[0]] + r[1..];
    }
  }
}
