/** Filtering and de-duplicating extension of sequences, as the merge of
    cargo options uses them on its `Vec<String>` fields: `filter` +
    `contains` + `extend`, and `retain`. */
module Sequences {

  /** The elements of `s` that do not occur in `excl`, in their order in `s`.
      Every occurrence is judged on its own: an element of `s` repeated and
      absent from `excl` is kept as many times as it occurs. */
  function Without<T(==,!new)>(s: seq<T>, excl: seq<T>): (r: seq<T>)
    ensures |r| <= |s|
    ensures forall x {:trigger x in r} :: x in r <==> x in s && x !in excl
  {
    if s == [] then []
    else
      var init, last := s[..|s| - 1], s[|s| - 1];
      assert s == init + [last];
      Without(init, excl) + (if last in excl then [] else [last])
  }

  /** The elements of `s` that do occur in `excl`, in their order in `s`:
      what a filter by `Without` drops. */
  function Within<T(==,!new)>(s: seq<T>, excl: seq<T>): (r: seq<T>)
    ensures |r| <= |s|
    ensures forall x {:trigger x in r} :: x in r <==> x in s && x in excl
  {
    if s == [] then []
    else
      var init, last := s[..|s| - 1], s[|s| - 1];
      assert s == init + [last];
      Within(init, excl) + (if last in excl then [last] else [])
  }

  /** `mine` extended with the elements of `theirs` that were not in `mine`
      before the extension. */
  function Extended<T(==,!new)>(mine: seq<T>, theirs: seq<T>): (r: seq<T>)
    ensures |mine| <= |r| && r[..|mine|] == mine
    ensures forall x {:trigger x in r} :: x in theirs ==> x in r
    ensures forall x {:trigger x in r} :: x in r ==> x in mine || x in theirs
  {
    var r := mine + Without(theirs, mine);
    assert r[..|mine|] == mine;
    r
  }

  /** `r` is `s` with some elements deleted and the rest in their order. */
  ghost predicate IsSubsequence<T>(r: seq<T>, s: seq<T>)
    decreases |s|
  {
    if r == [] then true
    else if s == [] then false
    else if r[|r| - 1] == s[|s| - 1] then IsSubsequence(r[..|r| - 1], s[..|s| - 1])
    else IsSubsequence(r, s[..|s| - 1])
  }

  /** Filtering keeps every occurrence of an element that is not excluded,
      duplicates included, and none of one that is. */
  lemma {:induction false} WithoutCount<T(!new)>(s: seq<T>, excl: seq<T>, x: T)
    ensures multiset(Without(s, excl))[x] == if x in excl then 0 else multiset(s)[x]
    decreases |s|
  {
    if s != [] {
      var init, last := s[..|s| - 1], s[|s| - 1];
      assert s == init + [last];
      WithoutCount(init, excl, x);
    }
  }

  /** The dropped elements are every occurrence of the excluded ones. */
  lemma {:induction false} WithinCount<T(!new)>(s: seq<T>, excl: seq<T>, x: T)
    ensures multiset(Within(s, excl))[x] == if x in excl then multiset(s)[x] else 0
    decreases |s|
  {
    if s != [] {
      var init, last := s[..|s| - 1], s[|s| - 1];
      assert s == init + [last];
      WithinCount(init, excl, x);
    }
  }

  /** The kept elements and the dropped ones together are exactly `s`. */
  lemma PartitionedByExclusion<T(!new)>(s: seq<T>, excl: seq<T>)
    ensures multiset(Without(s, excl)) + multiset(Within(s, excl)) == multiset(s)
  {
    forall x
      ensures (multiset(Without(s, excl)) + multiset(Within(s, excl)))[x] == multiset(s)[x]
    {
      WithoutCount(s, excl, x);
      WithinCount(s, excl, x);
    }
  }

  /** The extension keeps every occurrence already in `mine` and adds every
      occurrence in `theirs` of an element new to `mine`, duplicates included. */
  lemma ExtendedCount<T(!new)>(mine: seq<T>, theirs: seq<T>, x: T)
    ensures multiset(Extended(mine, theirs))[x]
         == multiset(mine)[x] + (if x in mine then 0 else multiset(theirs)[x])
  {
    WithoutCount(theirs, mine, x);
  }

  /** Filtering keeps the order of what survives. */
  lemma {:induction false} WithoutIsSubsequence<T(!new)>(s: seq<T>, excl: seq<T>)
    ensures IsSubsequence(Without(s, excl), s)
    decreases |s|
  {
    if s != [] {
      var init, last := s[..|s| - 1], s[|s| - 1];
      WithoutIsSubsequence(init, excl);
      if last in excl {
        SubsequenceOfPrefix(Without(init, excl), init, last);
        assert init + [last] == s;
        assert Without(s, excl) == Without(init, excl) + [] == Without(init, excl);
      } else {
        var r := Without(s, excl);
        assert r[..|r| - 1] == Without(init, excl);
      }
    }
  }

  /** The dropped elements stay in their original order too. */
  lemma {:induction false} WithinIsSubsequence<T(!new)>(s: seq<T>, excl: seq<T>)
    ensures IsSubsequence(Within(s, excl), s)
    decreases |s|
  {
    if s != [] {
      var init, last := s[..|s| - 1], s[|s| - 1];
      WithinIsSubsequence(init, excl);
      if last !in excl {
        SubsequenceOfPrefix(Within(init, excl), init, last);
        assert init + [last] == s;
        assert Within(s, excl) == Within(init, excl) + [] == Within(init, excl);
      } else {
        var r := Within(s, excl);
        assert r[..|r| - 1] == Within(init, excl);
      }
    }
  }

  /** A subsequence of `s` is a subsequence of `s` with one more element at the end. */
  lemma {:induction false} SubsequenceOfPrefix<T(!new)>(r: seq<T>, s: seq<T>, x: T)
    requires IsSubsequence(r, s)
    ensures IsSubsequence(r, s + [x])
    decreases |s|, 1
  {
    assert (s + [x])[..|s|] == s;
    if r != [] && r[|r| - 1] == x {
      SubsequenceOfDropLast(r, s);
    }
  }

  /** Dropping the last element of a subsequence leaves a subsequence. */
  lemma {:induction false} SubsequenceOfDropLast<T(!new)>(r: seq<T>, s: seq<T>)
    requires r != [] && IsSubsequence(r, s)
    ensures IsSubsequence(r[..|r| - 1], s)
    decreases |s|, 0
  {
    var s' := s[..|s| - 1];
    if r[|r| - 1] != s[|s| - 1] {
      SubsequenceOfDropLast(r, s');
    }
    SubsequenceOfPrefix(r[..|r| - 1], s', s[|s| - 1]);
    assert s' + [s[|s| - 1]] == s;
  }

  /** Filtering distributes over concatenation. */
  lemma {:induction false} WithoutAppend<T(!new)>(a: seq<T>, b: seq<T>, excl: seq<T>)
    ensures Without(a + b, excl) == Without(a, excl) + Without(b, excl)
    decreases |b|
  {
    if b != [] {
      var init, last := b[..|b| - 1], b[|b| - 1];
      assert (a + b)[..|a + b| - 1] == a + init;
      WithoutAppend(a, init, excl);
    } else {
      assert a + b == a;
    }
  }

  /** Filtering against no excluded element keeps everything. */
  lemma {:induction false} WithoutDisjoint<T(!new)>(s: seq<T>, excl: seq<T>)
    requires forall x :: x in s ==> x !in excl
    ensures Without(s, excl) == s
    decreases |s|
  {
    if s != [] {
      var init, last := s[..|s| - 1], s[|s| - 1];
      WithoutDisjoint(init, excl);
      assert s == init + [last];
    }
  }

  /** Filtering against a list that holds every element keeps nothing. */
  lemma {:induction false} WithoutCovered<T(!new)>(s: seq<T>, excl: seq<T>)
    requires forall x :: x in s ==> x in excl
    ensures Without(s, excl) == []
    decreases |s|
  {
    if s != [] {
      WithoutCovered(s[..|s| - 1], excl);
    }
  }

  /** Only membership in the exclusion list matters, not its order or repeats. */
  lemma {:induction false} WithoutSameMembers<T(!new)>(s: seq<T>, e1: seq<T>, e2: seq<T>)
    requires forall x :: x in e1 <==> x in e2
    ensures Without(s, e1) == Without(s, e2)
    decreases |s|
  {
    if s != [] {
      WithoutSameMembers(s[..|s| - 1], e1, e2);
    }
  }

  /** Filtering twice is filtering once against both exclusion lists. */
  lemma {:induction false} WithoutTwice<T(!new)>(s: seq<T>, a: seq<T>, b: seq<T>)
    ensures Without(Without(s, a), b) == Without(s, a + b)
    decreases |s|
  {
    if s != [] {
      var init, last := s[..|s| - 1], s[|s| - 1];
      WithoutTwice(init, a, b);
      WithoutAppend(Without(init, a), if last in a then [] else [last], b);
    }
  }

  /** Extending by everything already present changes nothing. */
  lemma {:induction false} ExtendedBySelf<T(!new)>(s: seq<T>)
    ensures Extended(s, s) == s
  {
    WithoutCovered(s, s);
  }

  /** Extending is associative, so folding several layers in pairs gives the
      same result however the pairs are grouped. */
  lemma {:induction false} ExtendedAssociative<T(!new)>(a: seq<T>, b: seq<T>, c: seq<T>)
    ensures Extended(Extended(a, b), c) == Extended(a, Extended(b, c))
  {
    var ab, cb := Without(b, a), Without(c, b);
    calc {
      Extended(Extended(a, b), c);
      (a + ab) + Without(c, a + ab);
      { WithoutSameMembers(c, a + ab, b + a); }
      (a + ab) + Without(c, b + a);
      { WithoutTwice(c, b, a); }
      (a + ab) + Without(cb, a);
      a + (ab + Without(cb, a));
      { WithoutAppend(b, cb, a); }
      a + Without(b + cb, a);
      Extended(a, Extended(b, c));
    }
  }
}
