/**
 * Option values and `SassTemplate#safe_merge`, the recursive merge the
 * adapter uses to fold the configured options into the ones it derives from
 * the input.
 *
 * A value is a hash (entries in insertion order), an array, or an atom.  The
 * merge dispatches on the kinds of its two arguments: two hashes merge key by
 * key, recursing on the keys they share; two arrays concatenate and drop
 * repeated elements; anything else takes the right-hand value.
 */
module OptionValues {
  import opened RubyArray
  import opened RubyHash

  /**
   * A hash key: a Ruby symbol.  The option names the adapter sets have a
   * constructor each; `Name(s)` stands for any other symbol, `s` being its
   * name.  By convention `s` is never one of the option names above; nothing
   * in the model relies on it.
   */
  datatype Key =
    | Filename | LineComments | Syntax | LoadPaths | Importer | Sprockets | Style
    | SourceMapFile | SourceMapEmbed | SourceMapContents | OmitSourceMapUrl
    | Name(name: string)

  /**
   * The atoms an options hash holds.  `Obj(id)` is a Ruby object the adapter
   * only passes along (a class, a context); two objects are the same object
   * exactly when their `id`s are equal.
   */
  datatype Scalar = Nil | Bool(b: bool) | Int(i: int) | Str(s: string) | Sym(name: string) | Obj(id: string)

  datatype Val = Hash(entries: seq<(Key, Val)>) | Arr(items: seq<Val>) | Atom(scalar: Scalar)

  /** Ruby's truthiness: every value except `nil` and `false`. */
  predicate Truthy(v: Val) {
    v != Atom(Nil) && v != Atom(Bool(false))
  }

  /** Every hash in the tree, at every depth, has no repeated key (as a Ruby hash never has). */
  ghost predicate WellFormed(v: Val) {
    match v
    case Hash(es) => UniqueKeys(es) && forall i :: 0 <= i < |es| ==> WellFormed(es[i].1)
    case Arr(xs) => forall i :: 0 <= i < |xs| ==> WellFormed(xs[i])
    case Atom(_) => true
  }

  /** `safe_merge(_key, left, right)`. */
  function SafeMerge(left: Val, right: Val): (r: Val)
    ensures left.Hash? && right.Hash? ==> r.Hash?
    ensures left.Arr? && right.Arr? ==> r.Arr?
    ensures !(left.Hash? && right.Hash?) && !(left.Arr? && right.Arr?) ==> r == right
    decreases left, 2
  {
    if left.Hash? && right.Hash? then Hash(SafeMergeEntries(left.entries, right.entries))
    else if left.Arr? && right.Arr? then Arr(Uniq(left.items + right.items))
    else right
  }

  /**
   * `l.merge(r) { |k, a, b| safe_merge(k, a, b) }`: `l`'s keys in their order
   * (merged with `r`'s value where `r` has the key), then the keys only `r` has.
   */
  function SafeMergeEntries(l: seq<(Key, Val)>, r: seq<(Key, Val)>): (merged: seq<(Key, Val)>)
    ensures |l| <= |merged| <= |l| + |r|
    decreases Hash(l), 1
  {
    RightOnlyUnique(r, KeysOf(l));
    MergedFrom(l, r, 0) + RightOnly(r, KeysOf(l))
  }

  /** The entries `l[i..]`, each merged with `r`'s value for its key when there is one. */
  function MergedFrom(l: seq<(Key, Val)>, r: seq<(Key, Val)>, i: nat): (o: seq<(Key, Val)>)
    requires i <= |l|
    ensures |o| == |l| - i
    ensures forall j :: 0 <= j < |o| ==> o[j].0 == l[i + j].0
    decreases Hash(l), 0, |l| - i
  {
    if i == |l| then []
    else
      var v := match Lookup(r, l[i].0) case Some(rv) => SafeMerge(l[i].1, rv) case None => l[i].1;
      [(l[i].0, v)] + MergedFrom(l, r, i + 1)
  }

  lemma {:induction false} MergedFromLookup(l: seq<(Key, Val)>, r: seq<(Key, Val)>, i: nat, k: Key)
    requires i <= |l|
    ensures Lookup(MergedFrom(l, r, i), k) ==
      match Lookup(l[i..], k)
      case None => None
      case Some(lv) => Some(match Lookup(r, k) case Some(rv) => SafeMerge(lv, rv) case None => lv)
    decreases |l| - i
  {
    if i < |l| {
      MergedFromLookup(l, r, i + 1, k);
      assert l[i..][1..] == l[i + 1..];
    }
  }

  /**
   * Merging two hashes: a key only `l` has keeps `l`'s value, a key only `r`
   * has keeps `r`'s value, and a key both have maps to the merge of the two.
   */
  lemma SafeMergeEntriesLookup(l: seq<(Key, Val)>, r: seq<(Key, Val)>, k: Key)
    ensures k in KeysOf(l) && k !in KeysOf(r) ==> Lookup(SafeMergeEntries(l, r), k) == Lookup(l, k)
    ensures k !in KeysOf(l) ==> Lookup(SafeMergeEntries(l, r), k) == Lookup(r, k)
    ensures k in KeysOf(l) && k in KeysOf(r) ==>
      Lookup(SafeMergeEntries(l, r), k) == Some(SafeMerge(Lookup(l, k).value, Lookup(r, k).value))
  {
    MergedFromLookup(l, r, 0, k);
    assert l[0..] == l;
    LookupAppend(MergedFrom(l, r, 0), RightOnly(r, KeysOf(l)), k);
    assert KeysOf(MergedFrom(l, r, 0)) == KeysOf(l);
    RightOnlyLookup(r, KeysOf(l), k);
  }

  /**
   * Merging two hashes lists `l`'s keys in their order and then the keys only
   * `r` has, in `r`'s order; the result has every key of either side, and no
   * key twice when neither side has one twice.
   */
  lemma SafeMergeEntriesKeys(l: seq<(Key, Val)>, r: seq<(Key, Val)>)
    ensures KeysOf(SafeMergeEntries(l, r)) == KeysOf(l) + KeysOf(RightOnly(r, KeysOf(l)))
    ensures forall k :: k in KeysOf(SafeMergeEntries(l, r)) <==> k in KeysOf(l) || k in KeysOf(r)
    ensures UniqueKeys(l) && UniqueKeys(r) ==> UniqueKeys(SafeMergeEntries(l, r))
  {
    var extra := RightOnly(r, KeysOf(l));
    assert KeysOf(MergedFrom(l, r, 0)) == KeysOf(l);
    KeysOfAppend(MergedFrom(l, r, 0), extra);
    RightOnlyKeys(r, KeysOf(l));
    if UniqueKeys(l) && UniqueKeys(r) {
      DistinctAppend(KeysOf(l), KeysOf(extra));
    }
  }

  /** `SafeMergeEntriesKeys`, for a left-hand side with known keys and known right-only entries. */
  lemma SafeMergeEntriesKeysOf(l: seq<(Key, Val)>, r: seq<(Key, Val)>, lk: seq<Key>, extra: seq<(Key, Val)>)
    requires KeysOf(l) == lk && RightOnly(r, lk) == extra
    ensures KeysOf(SafeMergeEntries(l, r)) == lk + KeysOf(extra)
  {
    SafeMergeEntriesKeys(l, r);
  }

  /**
   * Merging two arrays gives `left + right` without repeated elements: every
   * element of either side occurs exactly once, and elements keep the order
   * of their first occurrence (the left-to-right scan of `left + right`).
   */
  lemma SafeMergeArrays(a: seq<Val>, b: seq<Val>)
    ensures SafeMerge(Arr(a), Arr(b)).Arr?
    ensures Distinct(SafeMerge(Arr(a), Arr(b)).items)
    ensures forall x :: x in SafeMerge(Arr(a), Arr(b)).items <==> x in a || x in b
    ensures SafeMerge(Arr(a), Arr(b)).items == KeepFirst(a + b, {})
    ensures SafeMerge(Arr(a), Arr(b)).items == Uniq(a) + KeepFirst(b, Elems(a))
  {
    UniqIsScan(a + b);
    UniqAppend(a, b);
  }

  /** Merging an array into the result of merging it again changes nothing. */
  lemma SafeMergeArraysRepeat(a: seq<Val>, b: seq<Val>)
    ensures SafeMerge(SafeMerge(Arr(a), Arr(b)), Arr(b)) == SafeMerge(Arr(a), Arr(b))
  {
    var once := Uniq(a + b);
    assert SafeMerge(Arr(a), Arr(b)) == Arr(once);
    assert SafeMerge(Arr(once), Arr(b)) == Arr(Uniq(once + b));
    assert Uniq(once + b) == Uniq((a + b) + b) by {
      UniqOfUniqPrefix(a + b, b);
    }
    assert Uniq((a + b) + b) == once by {
      UniqAppendSeen(a + b, b);
    }
  }

  /** Merging two well-formed values gives a well-formed value. */
  lemma {:induction false} SafeMergeWellFormed(left: Val, right: Val)
    requires WellFormed(left) && WellFormed(right)
    ensures WellFormed(SafeMerge(left, right))
    decreases left, 2
  {
    if left.Hash? && right.Hash? {
      SafeMergeEntriesWellFormed(left.entries, right.entries);
    } else if left.Arr? && right.Arr? {
      UniqWellFormed(left.items + right.items);
    }
  }

  /** Merging two well-formed hashes gives a well-formed hash. */
  lemma {:induction false} SafeMergeEntriesWellFormed(l: seq<(Key, Val)>, r: seq<(Key, Val)>)
    requires WellFormed(Hash(l)) && WellFormed(Hash(r))
    ensures WellFormed(Hash(SafeMergeEntries(l, r)))
    decreases Hash(l), 1
  {
    var merged := MergedFrom(l, r, 0);
    var extra := RightOnly(r, KeysOf(l));
    var res := merged + extra;
    assert UniqueKeys(res) by {
      SafeMergeEntriesKeys(l, r);
    }
    assert forall j :: 0 <= j < |merged| ==> WellFormed(merged[j].1) by {
      MergedFromWellFormed(l, r, 0);
    }
    assert forall j :: 0 <= j < |extra| ==> WellFormed(extra[j].1) by {
      RightOnlyWellFormed(r, KeysOf(l));
    }
    assert forall j :: 0 <= j < |res| ==> WellFormed(res[j].1) by {
      forall j | 0 <= j < |res| ensures WellFormed(res[j].1) {
        if j >= |merged| {
          assert res[j] == extra[j - |merged|];
        }
      }
    }
  }

  /** The entries `RightOnly` keeps from a hash with well-formed values have well-formed values. */
  lemma RightOnlyWellFormed(r: seq<(Key, Val)>, ks: seq<Key>)
    requires forall j :: 0 <= j < |r| ==> WellFormed(r[j].1)
    ensures forall j :: 0 <= j < |RightOnly(r, ks)| ==> WellFormed(RightOnly(r, ks)[j].1)
  {
    var extra := RightOnly(r, ks);
    RightOnlyEntries(r, ks);
    forall j | 0 <= j < |extra| ensures WellFormed(extra[j].1) {
      assert extra[j] in r;
      var k :| 0 <= k < |r| && r[k] == extra[j];
    }
  }

  /** De-duplicating well-formed values gives well-formed values. */
  lemma UniqWellFormed(xs: seq<Val>)
    requires forall j :: 0 <= j < |xs| ==> WellFormed(xs[j])
    ensures WellFormed(Arr(Uniq(xs)))
  {
    var u := Uniq(xs);
    forall j | 0 <= j < |u| ensures WellFormed(u[j]) {
      assert u[j] in xs;
      var k :| 0 <= k < |xs| && xs[k] == u[j];
    }
  }

  lemma {:induction false} MergedFromWellFormed(l: seq<(Key, Val)>, r: seq<(Key, Val)>, i: nat)
    requires i <= |l|
    requires forall j :: 0 <= j < |l| ==> WellFormed(l[j].1)
    requires forall j :: 0 <= j < |r| ==> WellFormed(r[j].1)
    ensures forall j :: 0 <= j < |MergedFrom(l, r, i)| ==> WellFormed(MergedFrom(l, r, i)[j].1)
    decreases Hash(l), 0, |l| - i
  {
    if i < |l| {
      MergedFromWellFormed(l, r, i + 1);
      match Lookup(r, l[i].0)
      case Some(rv) =>
        LookupFound(r, l[i].0);
        SafeMergeWellFormed(l[i].1, rv);
      case None =>
    }
  }

  /** A value found by `Lookup` is the value of some entry. */
  lemma {:induction false} LookupFound(h: seq<(Key, Val)>, k: Key)
    requires Lookup(h, k).Some?
    ensures (k, Lookup(h, k).value) in h
  {
    if h[0].0 != k {
      LookupFound(h[1..], k);
    }
  }
}
