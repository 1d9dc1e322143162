/**
  Method names, and the name under which the advice registry keeps the
  unadvised original reachable: `foo` becomes `foo_without_callbacks`, and a
  trailing `!`, `?` or `=` stays at the very end (`bar!` becomes
  `bar_without_callbacks!`), so that the alias is still a bang, predicate or
  assignment method.
*/
module MethodNames {
  import opened Wrappers

  type Name = string

  const Marker: Name := "_without_callbacks"

  predicate IsSuffixMark(c: char) {
    c == '!' || c == '?' || c == '='
  }

  predicate EndsWithMark(m: Name) {
    |m| > 0 && IsSuffixMark(m[|m| - 1])
  }

  predicate EndsWithMarker(a: Name) {
    |a| >= |Marker| && a[|a| - |Marker|..] == Marker
  }

  /** The alias that bypasses advice. */
  function WithoutCallbacks(m: Name): (a: Name)
    ensures |a| == |m| + |Marker|
  {
    if EndsWithMark(m) then m[..|m| - 1] + Marker + [m[|m| - 1]]
    else m + Marker
  }

  /** The advised name an alias stands for, or None when the name is no alias. */
  function AliasedName(a: Name): (r: Option<Name>)
  {
    if EndsWithMarker(a) && !EndsWithMark(a[..|a| - |Marker|]) then
      Some(a[..|a| - |Marker|])
    else if EndsWithMark(a) && EndsWithMarker(a[..|a| - 1]) then
      Some(a[..|a| - 1 - |Marker|] + [a[|a| - 1]])
    else
      None
  }

  /** Every name's alias leads back to the name. */
  lemma AliasRoundTrip(m: Name)
    ensures AliasedName(WithoutCallbacks(m)) == Some(m)
  {
    var a := WithoutCallbacks(m);
    if EndsWithMark(m) {
      var stem := m[..|m| - 1];
      assert a[..|a| - 1] == stem + Marker;
      assert (stem + Marker)[|stem + Marker| - |Marker|..] == Marker;
      assert !EndsWithMarker(a) by {
        assert a[|a| - 1] == m[|m| - 1];
        assert Marker[|Marker| - 1] == 's';
      }
      assert a[..|a| - 1 - |Marker|] == stem;
      assert stem + [m[|m| - 1]] == m;
    } else {
      assert a[|a| - |Marker|..] == Marker;
      assert a[..|a| - |Marker|] == m;
    }
  }

  /** A name recognised as an alias is exactly the alias of what it stands for. */
  lemma AliasSound(a: Name, m: Name)
    requires AliasedName(a) == Some(m)
    ensures WithoutCallbacks(m) == a
  {
    if EndsWithMarker(a) && !EndsWithMark(a[..|a| - |Marker|]) {
      assert m == a[..|a| - |Marker|];
      assert m + Marker == a;
    } else {
      var c := a[|a| - 1];
      var stem := a[..|a| - 1 - |Marker|];
      assert m == stem + [c];
      assert EndsWithMark(m);
      assert m[..|m| - 1] == stem;
      assert a[..|a| - 1] == stem + Marker;
      assert stem + Marker + [c] == a;
    }
  }

  /** Distinct methods get distinct aliases. */
  lemma AliasInjective(m1: Name, m2: Name)
    requires WithoutCallbacks(m1) == WithoutCallbacks(m2)
    ensures m1 == m2
  {
    AliasRoundTrip(m1);
    AliasRoundTrip(m2);
  }

  /**
    The alias keeps the name's trailing `!`, `?` or `=` as its last character
    and otherwise ends in `_without_callbacks`; it never equals the name.
  */
  lemma AliasShape(m: Name)
    ensures var a := WithoutCallbacks(m);
      && a != m
      && (EndsWithMark(m) ==> a[|a| - 1] == m[|m| - 1] && a[..|a| - 1] == m[..|m| - 1] + Marker)
      && (!EndsWithMark(m) ==> EndsWithMarker(a) && a[..|m|] == m)
  {
    var a := WithoutCallbacks(m);
    if EndsWithMark(m) {
      assert a[..|a| - 1] == m[..|m| - 1] + Marker;
    } else {
      assert a[|a| - |Marker|..] == Marker;
      assert a[..|m|] == m;
    }
  }
}
