/** Small facts about sequences that the solver does not look for on its own. */
module Sequences {
  import opened Wrappers

  ghost predicate NoRepeats<T>(s: seq<T>) {
    forall i, j :: 0 <= i < j < |s| ==> s[i] != s[j]
  }

  lemma TakeNext<T>(s: seq<T>, k: nat)
    requires k < |s|
    ensures s[..k + 1] == s[..k] + [s[k]]
  {
  }

  lemma TakeAll<T>(s: seq<T>)
    ensures s[..|s|] == s
  {
  }

  lemma HeadAndTail<T>(a: seq<T>, b: seq<T>)
    requires a != []
    ensures (a + b)[0] == a[0] && (a + b)[1..] == a[1..] + b
  {
  }

  lemma Associative<T>(a: seq<T>, b: seq<T>, c: seq<T>)
    ensures a + (b + c) == a + b + c
  {
  }

  /** More positions than values: some value repeats. */
  lemma {:induction false} Pigeonhole<T>(s: seq<T>, values: set<T>) returns (i: nat, j: nat)
    requires |s| > |values| && forall x <- s :: x in values
    ensures i < j < |s| && s[i] == s[j]
    decreases |s|
  {
    var rest, last := s[..|s| - 1], s[|s| - 1];
    if k :| 0 <= k < |rest| && rest[k] == last {
      return k, |rest|;
    }
    i, j := Pigeonhole(rest, values - {last});
  }

  /** Sequences without repetition and with the same elements are permutations of each other. */
  lemma {:induction false} SameElementsPermute<T>(a: seq<T>, b: seq<T>)
    requires NoRepeats(a) && NoRepeats(b)
    requires forall x :: x in a <==> x in b
    ensures multiset(a) == multiset(b) && |a| == |b|
  {
    forall x ensures multiset(a)[x] == multiset(b)[x] {
      AtMostOnce(a, x);
      AtMostOnce(b, x);
    }
    assert |multiset(a)| == |a| && |multiset(b)| == |b|;
  }

  lemma {:induction false} AtMostOnce<T>(s: seq<T>, x: T)
    requires NoRepeats(s)
    ensures multiset(s)[x] == if x in s then 1 else 0
  {
    if s != [] {
      var init, last := s[..|s| - 1], s[|s| - 1];
      AtMostOnce(init, x);
      assert s == init + [last];
    }
  }

  /** A value at two positions is counted twice. */
  lemma TwiceCounted<T>(s: seq<T>, i: nat, j: nat)
    requires i < j < |s| && s[i] == s[j]
    ensures multiset(s)[s[i]] >= 2
  {
    var x, a, b := s[i], s[..j], s[j..];
    assert s == a + b && a[i] == x && b[0] == x;
    assert x in a && x in b;
    assert x in multiset(a) && x in multiset(b);
    assert multiset(s)[x] == multiset(a)[x] + multiset(b)[x];
  }

  lemma PermutationSameElements<T>(a: seq<T>, b: seq<T>)
    requires multiset(a) == multiset(b)
    ensures |a| == |b| && forall x :: x in a <==> x in b
  {
    assert |multiset(a)| == |a| && |multiset(b)| == |b|;
    forall x ensures x in a <==> x in b {
      assert x in multiset(a) <==> x in multiset(b);
    }
  }

  lemma NoRepeatsSnoc<T>(s: seq<T>, x: T)
    requires NoRepeats(s) && x !in s
    ensures NoRepeats(s + [x])
  {
  }

  lemma {:induction false} NoRepeatsCard<T>(s: seq<T>)
    requires NoRepeats(s)
    ensures |(set x <- s)| == |s|
  {
    if s != [] {
      var init, last := s[..|s| - 1], s[|s| - 1];
      NoRepeatsCard(init);
      assert (set x <- s) == (set x <- init) + {last} by {
        assert s == init + [last];
      }
      assert last !in init;
    }
  }

  lemma AtMostOneValue<T>(s: seq<T>)
    requires NoRepeats(s) && forall x <- s, y <- s :: x == y
    ensures |s| <= 1
  {
    NoRepeatsCard(s);
    if s != [] {
      forall x <- s ensures x == s[0] {
        assert s[0] in s;
      }
      assert s[0] in s && (set x <- s) == {s[0]};
    }
  }

  // ----- mapping each element to a sequence

  function FlatMap<A, B>(f: A -> seq<B>, s: seq<A>): seq<B> {
    if s == [] then [] else f(s[0]) + FlatMap(f, s[1..])
  }

  lemma FlatMapOne<A, B>(f: A -> seq<B>, x: A)
    ensures FlatMap(f, [x]) == f(x)
  {
    assert FlatMap(f, [x][1..]) == [];
  }

  lemma {:induction false} FlatMapAppend<A, B>(f: A -> seq<B>, a: seq<A>, b: seq<A>)
    ensures FlatMap(f, a + b) == FlatMap(f, a) + FlatMap(f, b)
  {
    if a == [] {
      assert a + b == b;
    } else {
      FlatMapAppend(f, a[1..], b);
      assert (a + b)[0] == a[0] && (a + b)[1..] == a[1..] + b;
    }
  }

  lemma {:induction false} FlatMapTwice<A, B, C>(g: A -> seq<B>, f: B -> seq<C>, h: A -> seq<C>, s: seq<A>)
    requires forall x <- s :: FlatMap(f, g(x)) == h(x)
    ensures FlatMap(f, FlatMap(g, s)) == FlatMap(h, s)
  {
    if s != [] {
      FlatMapTwice(g, f, h, s[1..]);
      FlatMapAppend(f, g(s[0]), FlatMap(g, s[1..]));
    }
  }

  lemma {:induction false} FlatMapKeeps<A>(f: A -> seq<A>, s: seq<A>)
    requires forall x <- s :: f(x) == [x]
    ensures FlatMap(f, s) == s
  {
    if s != [] {
      FlatMapKeeps(f, s[1..]);
      assert s == [s[0]] + s[1..];
    }
  }

  /** What holds of everything each element maps to holds of the result. */
  lemma {:induction false} FlatMapAll<A, B(!new)>(f: A -> seq<B>, s: seq<A>, p: B -> bool)
    requires forall x <- s :: forall y <- f(x) :: p(y)
    ensures forall y <- FlatMap(f, s) :: p(y)
  {
    if s != [] {
      FlatMapAll(f, s[1..], p);
    }
  }

  // ----- first occurrences

  /** The elements in order of their first occurrence. */
  function Distinct<T(==)>(s: seq<T>): seq<T> {
    if s == [] then []
    else
      var r, last := Distinct(s[..|s| - 1]), s[|s| - 1];
      if last in r then r else r + [last]
  }

  lemma {:induction false} DistinctKeepsElements<T>(s: seq<T>)
    ensures NoRepeats(Distinct(s)) && forall x :: x in Distinct(s) <==> x in s
  {
    if s != [] {
      var init := s[..|s| - 1];
      DistinctKeepsElements(init);
      assert s == init + [s[|s| - 1]];
    }
  }

  method AppendNew<T(==)>(s: seq<T>, more: seq<T>) returns (r: seq<T>)
    requires Distinct(s) == s
    ensures r == Distinct(s + more)
  {
    r := s;
    assert s + more[..0] == s;
    for i := 0 to |more|
      invariant r == Distinct(s + more[..i])
    {
      assert (s + more[..i + 1])[..|s| + i] == s + more[..i];
      if more[i] !in r {
        r := r + [more[i]];
      }
    }
    assert more[..|more|] == more;
  }

  // ----- searching

  function FirstSuch<T>(s: seq<T>, p: T -> bool): Option<T> {
    if s == [] then None else if p(s[0]) then Some(s[0]) else FirstSuch(s[1..], p)
  }

  lemma {:induction false} FirstSuchExactly<T>(s: seq<T>, p: T -> bool)
    ensures FirstSuch(s, p).None? <==> forall x <- s :: !p(x)
    ensures FirstSuch(s, p).Some? ==> exists i ::
                0 <= i < |s| && s[i] == FirstSuch(s, p).value && p(s[i]) && forall j :: 0 <= j < i ==> !p(s[j])
  {
    if s != [] && !p(s[0]) {
      FirstSuchExactly(s[1..], p);
      assert s == [s[0]] + s[1..];
      if FirstSuch(s, p).Some? {
        var i :| 0 <= i < |s| - 1 && s[1..][i] == FirstSuch(s, p).value && p(s[1..][i])
                 && forall j :: 0 <= j < i ==> !p(s[1..][j]);
        assert s[i + 1] == FirstSuch(s, p).value && forall j :: 0 < j < i + 1 ==> s[j] == s[1..][j - 1];
      }
    }
  }

  ghost function LastSuch<T>(s: seq<T>, p: T -> bool): Option<T> {
    if s == [] then None else if p(s[|s| - 1]) then Some(s[|s| - 1]) else LastSuch(s[..|s| - 1], p)
  }

  lemma {:induction false} LastSuchExactly<T>(s: seq<T>, p: T -> bool)
    ensures LastSuch(s, p).None? <==> forall x <- s :: !p(x)
    ensures LastSuch(s, p).Some? ==> exists i ::
                0 <= i < |s| && s[i] == LastSuch(s, p).value && p(s[i]) && forall j :: i < j < |s| ==> !p(s[j])
  {
    if s != [] {
      LastSuchExactly(s[..|s| - 1], p);
      assert s == s[..|s| - 1] + [s[|s| - 1]];
    }
  }

  // ----- sizes of sets

  lemma SmallerSubset<T>(a: set<T>, b: set<T>)
    requires a <= b
    ensures |b - a| == |b| - |a| && (|a| == |b| <==> a == b) && (|a| < |b| <==> b - a != {})
  {
    assert b == a + (b - a);
    assert a == b <==> b - a == {};
  }
}
