/** Filter, map and first-match over sequences, as JavaScript's array methods of those names. */
module Sequences {
  import opened Outcomes

  function Filter<T>(s: seq<T>, keep: T -> bool): seq<T> {
    if s == [] then [] else (if keep(s[0]) then [s[0]] else []) + Filter(s[1..], keep)
  }

  function Map<T, U>(s: seq<T>, f: T -> U): (r: seq<U>)
    ensures |r| == |s| && forall i :: 0 <= i < |s| ==> r[i] == f(s[i])
  {
    if s == [] then [] else [f(s[0])] + Map(s[1..], f)
  }

  function Find<T>(s: seq<T>, wanted: T -> bool): (r: Option<T>)
    ensures r.None? <==> forall x :: x in s ==> !wanted(x)
    ensures r.Some? ==> r.value in s && wanted(r.value)
  {
    if s == [] then None
    else if wanted(s[0]) then Some(s[0])
    else Find(s[1..], wanted)
  }

  lemma FilterMembers<T>(s: seq<T>, keep: T -> bool)
    ensures forall x :: x in Filter(s, keep) <==> x in s && keep(x)
  {}

  lemma {:induction false} FilterAgree<T>(s: seq<T>, keep: T -> bool, also: T -> bool)
    requires forall x :: x in s ==> keep(x) == also(x)
    ensures Filter(s, keep) == Filter(s, also)
  {
    if s != [] {
      FilterAgree(s[1..], keep, also);
    }
  }

  lemma FilterNone<T>(s: seq<T>, keep: T -> bool)
    requires forall x :: x in s ==> !keep(x)
    ensures Filter(s, keep) == []
  {}

  lemma {:induction false} FilterConcat<T>(s: seq<T>, t: seq<T>, keep: T -> bool)
    ensures Filter(s + t, keep) == Filter(s, keep) + Filter(t, keep)
  {
    if s == [] {
      assert s + t == t;
    } else {
      FilterConcat(s[1..], t, keep);
      assert (s + t)[1..] == s[1..] + t;
      var head := if keep(s[0]) then [s[0]] else [];
      assert head + (Filter(s[1..], keep) + Filter(t, keep)) == (head + Filter(s[1..], keep)) + Filter(t, keep);
    }
  }

  lemma FilterSnoc<T>(s: seq<T>, i: nat, keep: T -> bool)
    requires i < |s|
    ensures Filter(s[..i + 1], keep) == Filter(s[..i], keep) + (if keep(s[i]) then [s[i]] else [])
  {
    FilterConcat(s[..i], [s[i]], keep);
    assert s[..i + 1] == s[..i] + [s[i]];
    assert [s[i]][1..] == [];
  }

  /** Filtering after mapping is mapping after filtering, when the tests agree. */
  lemma FilterOfMap<T, U>(s: seq<T>, f: T -> U, keep: U -> bool, keepBefore: T -> bool)
    requires forall x :: x in s ==> keep(f(x)) == keepBefore(x)
    ensures Filter(Map(s, f), keep) == Map(Filter(s, keepBefore), f)
  {
    if s != [] {
      assert Map(s, f) == [f(s[0])] + Map(s[1..], f);
      FilterOfMap(s[1..], f, keep, keepBefore);
    }
  }

  lemma {:induction false} MapConcat<T, U>(s: seq<T>, t: seq<T>, f: T -> U)
    ensures Map(s + t, f) == Map(s, f) + Map(t, f)
  {}

  lemma MapOfMap<T, U, V>(s: seq<T>, f: T -> U, g: U -> V, h: T -> V)
    requires forall x :: x in s ==> g(f(x)) == h(x)
    ensures Map(Map(s, f), g) == Map(s, h)
  {}

  predicate IsFirst<T>(s: seq<T>, k: int, wanted: T -> bool) {
    && 0 <= k < |s|
    && wanted(s[k])
    && forall j :: 0 <= j < k ==> !wanted(s[j])
  }

  /** Finding among the filtered elements is finding with both tests. */
  lemma {:induction false} FindInFiltered<T>(s: seq<T>, keep: T -> bool, wanted: T -> bool, both: T -> bool)
    requires forall x :: x in s ==> both(x) == (keep(x) && wanted(x))
    ensures Find(Filter(s, keep), wanted) == Find(s, both)
  {
    if s != [] {
      FindInFiltered(s[1..], keep, wanted, both);
      if keep(s[0]) {
        assert ([s[0]] + Filter(s[1..], keep))[1..] == Filter(s[1..], keep);
      } else {
        assert [] + Filter(s[1..], keep) == Filter(s[1..], keep);
      }
    }
  }

  lemma {:induction false} FindIsFirst<T>(s: seq<T>, wanted: T -> bool) returns (k: nat)
    requires Find(s, wanted).Some?
    ensures IsFirst(s, k, wanted) && Find(s, wanted).value == s[k]
  {
    if wanted(s[0]) {
      k := 0;
    } else {
      k := FindIsFirst(s[1..], wanted);
      k := k + 1;
    }
  }
}
