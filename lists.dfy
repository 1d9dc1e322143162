/**
  Ruby's `Array#uniq!`, which both the definition watcher (for pending
  reactions) and the advice registry (for advice lists) apply after appending.
  It keeps the first occurrence of every element, in order.
*/
module Lists {

  ghost predicate NoDuplicates<T>(s: seq<T>) {
    forall i, j :: 0 <= i < j < |s| ==> s[i] != s[j]
  }

  /** The list with every repeated element dropped after its first occurrence. */
  function Uniq<T(==)>(s: seq<T>): (r: seq<T>)
    ensures NoDuplicates(r)
    ensures forall i :: 0 <= i < |r| ==> r[i] in s
    ensures forall i :: 0 <= i < |s| ==> s[i] in r
    ensures |r| <= |s|
    decreases |s|
  {
    if |s| == 0 then []
    else
      var init := Uniq(s[..|s| - 1]);
      if s[|s| - 1] in init then init else init + [s[|s| - 1]]
  }

  /** A list that already has no duplicates is left exactly as it is. */
  lemma {:induction false} UniqOfDistinct<T>(s: seq<T>)
    requires NoDuplicates(s)
    ensures Uniq(s) == s
    decreases |s|
  {
    if |s| > 0 {
      var init := s[..|s| - 1];
      assert NoDuplicates(init);
      UniqOfDistinct(init);
      assert init + [s[|s| - 1]] == s;
    }
  }

  /**
    Appending to a duplicate-free list and then applying `uniq!` keeps the
    list in place and adds the new element at the end, or not at all when
    it is already there.
  */
  lemma UniqAppend<T>(s: seq<T>, x: T)
    requires NoDuplicates(s)
    ensures Uniq(s + [x]) == if x in s then s else s + [x]
  {
    assert (s + [x])[..|s + [x]| - 1] == s;
    UniqOfDistinct(s);
  }

  /** Appending several elements to a duplicate-free list keeps it as a prefix. */
  lemma {:induction false} UniqExtends<T>(s: seq<T>, xs: seq<T>)
    requires NoDuplicates(s)
    ensures |Uniq(s + xs)| >= |s| && Uniq(s + xs)[..|s|] == s
    decreases |xs|
  {
    if xs == [] {
      assert s + xs == s;
      UniqOfDistinct(s);
    } else {
      var init := xs[..|xs| - 1];
      assert (s + xs)[..|s + xs| - 1] == s + init;
      UniqExtends(s, init);
    }
  }

  /** `uniq!` is idempotent: a second pass changes nothing. */
  lemma UniqIdempotent<T>(s: seq<T>)
    ensures Uniq(Uniq(s)) == Uniq(s)
  {
    UniqOfDistinct(Uniq(s));
  }

  /**
    Appending the same elements a second time changes nothing: registering
    identical advice twice leaves the list as after the first registration.
  */
  lemma UniqAbsorbs<T>(s: seq<T>, xs: seq<T>)
    ensures Uniq(Uniq(s + xs) + xs) == Uniq(s + xs)
  {
    var u := Uniq(s + xs);
    forall y | y in xs ensures y in u {
      assert y in s + xs;
    }
    UniqAbsorbsAll(u, xs);
  }

  /** Appending elements that are all in a duplicate-free list changes nothing. */
  lemma {:induction false} UniqAbsorbsAll<T>(u: seq<T>, ys: seq<T>)
    requires NoDuplicates(u)
    requires forall y :: y in ys ==> y in u
    ensures Uniq(u + ys) == u
    decreases |ys|
  {
    if ys == [] {
      assert u + ys == u;
      UniqOfDistinct(u);
    } else {
      var init := ys[..|ys| - 1];
      assert (u + ys)[..|u + ys| - 1] == u + init;
      assert forall y :: y in init ==> y in ys;
      UniqAbsorbsAll(u, init);
      assert ys[|ys| - 1] in ys;
    }
  }
}
