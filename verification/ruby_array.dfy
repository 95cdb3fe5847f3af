/**
 * Ruby's `Array#uniq`, the de-duplication `safe_merge` applies to two arrays
 * and the behaviour of an insertion-ordered `Set` that `<<` appends to.
 *
 * `Uniq` is defined element by element from the back ("append the last
 * element unless it is already there"); `KeepFirst` is the independent
 * left-to-right scan with a set of elements already seen, which is how the
 * first occurrence of every element wins.  `UniqIsScan` proves the two agree.
 */
module RubyArray {

  /** No element occurs twice. */
  ghost predicate Distinct<T>(s: seq<T>) {
    forall i, j :: 0 <= i < j < |s| ==> s[i] != s[j]
  }

  /** Two sequences without repetitions and without common elements concatenate to one. */
  lemma DistinctAppend<T>(a: seq<T>, b: seq<T>)
    requires Distinct(a) && Distinct(b)
    requires forall x :: x in a ==> x !in b
    ensures Distinct(a + b)
  {
    forall i, j | 0 <= i < j < |a + b| ensures (a + b)[i] != (a + b)[j] {
      if i < |a| && |a| <= j {
        assert (a + b)[i] in a && (a + b)[j] in b;
      }
    }
  }

  /** The elements of `s`, as a set. */
  ghost function Elems<T>(s: seq<T>): set<T> {
    set x | x in s
  }

  /** `s.uniq`: the elements of `s` without repetitions, first occurrences kept. */
  function Uniq<T(==,!new)>(s: seq<T>): (r: seq<T>)
    ensures Distinct(r)
    ensures forall x :: x in r <==> x in s
    ensures |r| <= |s|
  {
    if s == [] then []
    else
      var init, last := s[..|s| - 1], s[|s| - 1];
      assert s == init + [last];
      var u := Uniq(init);
      if last in u then u else u + [last]
  }

  /** Scan `s` from the left, keeping an element only if it is not in `seen` nor kept before. */
  ghost function KeepFirst<T(!new)>(s: seq<T>, seen: set<T>): (r: seq<T>)
    ensures Distinct(r)
    ensures forall x :: x in r <==> x in s && x !in seen
    decreases |s|
  {
    if s == [] then []
    else if s[0] in seen then KeepFirst(s[1..], seen)
    else [s[0]] + KeepFirst(s[1..], seen + {s[0]})
  }

  /** De-duplicating `a + b` keeps `a.uniq` in front and adds the new elements of `b` in scan order. */
  lemma {:induction false} UniqAppend<T(!new)>(a: seq<T>, b: seq<T>)
    ensures Uniq(a + b) == Uniq(a) + KeepFirst(b, Elems(a))
    decreases |b|
  {
    if b == [] {
      assert a + b == a;
    } else {
      var x, rest := b[0], b[1..];
      assert a + b == (a + [x]) + rest;
      UniqAppend(a + [x], rest);
      UniqSnoc(a, x);
      if x in a {
        assert KeepFirst(b, Elems(a)) == KeepFirst(rest, Elems(a));
      } else {
        assert KeepFirst(b, Elems(a)) == [x] + KeepFirst(rest, Elems(a) + {x});
        assert (Uniq(a) + [x]) + KeepFirst(rest, Elems(a) + {x}) == Uniq(a) + ([x] + KeepFirst(rest, Elems(a) + {x}));
      }
    }
  }

  /** One more element: `uniq` appends it unless it was there; the elements grow by it. */
  lemma UniqSnoc<T(!new)>(a: seq<T>, x: T)
    ensures Uniq(a + [x]) == if x in a then Uniq(a) else Uniq(a) + [x]
    ensures Elems(a + [x]) == if x in a then Elems(a) else Elems(a) + {x}
  {
    assert (a + [x])[..|a + [x]| - 1] == a;
  }

  /** `Uniq` is the first-occurrence scan started with nothing seen. */
  lemma UniqIsScan<T(!new)>(s: seq<T>)
    ensures Uniq(s) == KeepFirst(s, {})
  {
    UniqAppend([], s);
    assert [] + s == s;
    assert Elems<T>([]) == {};
  }

  /** A scan over distinct elements none of which was seen keeps them all. */
  lemma {:induction false} KeepFirstUnseen<T(!new)>(s: seq<T>, seen: set<T>)
    requires Distinct(s)
    requires forall x :: x in s ==> x !in seen
    ensures KeepFirst(s, seen) == s
    decreases |s|
  {
    if s != [] {
      assert forall x :: x in s[1..] ==> x in s && x != s[0];
      KeepFirstUnseen(s[1..], seen + {s[0]});
      assert s == [s[0]] + s[1..];
    }
  }

  /** `uniq` leaves an array without repetitions unchanged. */
  lemma UniqOfDistinct<T(!new)>(s: seq<T>)
    requires Distinct(s)
    ensures Uniq(s) == s
  {
    UniqIsScan(s);
    KeepFirstUnseen(s, {});
  }

  /** `uniq` is idempotent. */
  lemma UniqIdempotent<T(!new)>(s: seq<T>)
    ensures Uniq(Uniq(s)) == Uniq(s)
  {
    UniqOfDistinct(Uniq(s));
  }

  /** Appending distinct elements that are all new adds exactly those elements, in order. */
  lemma UniqAppendFresh<T(!new)>(a: seq<T>, b: seq<T>)
    requires Distinct(b)
    requires forall x :: x in b ==> x !in a
    ensures Uniq(a + b) == Uniq(a) + b
  {
    UniqAppend(a, b);
    KeepFirstUnseen(b, Elems(a));
  }

  /** De-duplicating the front first does not change the outcome. */
  lemma UniqOfUniqPrefix<T(!new)>(a: seq<T>, b: seq<T>)
    ensures Uniq(Uniq(a) + b) == Uniq(a + b)
  {
    UniqAppend(Uniq(a), b);
    UniqAppend(a, b);
    UniqIdempotent(a);
    assert Elems(Uniq(a)) == Elems(a);
  }

  /** Appending only elements already present changes nothing. */
  lemma UniqAppendSeen<T(!new)>(a: seq<T>, b: seq<T>)
    requires forall x :: x in b ==> x in a
    ensures Uniq(a + b) == Uniq(a)
  {
    UniqAppend(a, b);
    KeepFirstAllSeen(b, Elems(a));
    assert Uniq(a) + [] == Uniq(a);
  }

  /** A scan over elements that were all seen keeps nothing. */
  lemma {:induction false} KeepFirstAllSeen<T(!new)>(s: seq<T>, seen: set<T>)
    requires forall x :: x in s ==> x in seen
    ensures KeepFirst(s, seen) == []
    decreases |s|
  {
    if s != [] {
      assert s[0] in s;
      assert forall x :: x in s[1..] ==> x in s;
      KeepFirstAllSeen(s[1..], seen);
    }
  }
}
