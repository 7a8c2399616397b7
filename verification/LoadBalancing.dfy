/** How a route spreads requests over its upstreams. */
module LoadBalancing {

  const WORD: nat := 0x1_0000_0000_0000_0000  // the cursor is a 64-bit counter that wraps around

  function NextCursor(cursor: nat): (next: nat)
    ensures next < WORD
  {
    (cursor + 1) % WORD
  }

  function CursorAfter(cursor: nat, k: nat): (after: nat)
    requires cursor < WORD
    ensures after < WORD
  {
    if k == 0 then cursor else NextCursor(CursorAfter(cursor, k - 1))
  }

  /** How many of `k` consecutive round-robin selections pick upstream `u` of `n`. */
  function Picks(cursor: nat, n: nat, k: nat, u: nat): nat
    requires cursor < WORD && n > 0
  {
    if k == 0 then 0
    else Picks(cursor, n, k - 1, u) + if CursorAfter(cursor, k - 1) % n == u then 1 else 0
  }

  lemma {:induction false} MulAtLeast(a: nat, n: nat)
    ensures a * n >= 0 && (a > 0 ==> a * n >= n)
  {
    if a > 0 {
      MulAtLeast(a - 1, n);
      assert a * n == (a - 1) * n + n;
    }
  }

  lemma MultipleOfNonzero(a: int, n: nat)
    ensures a == 0 || a * n >= n || a * n <= 0 - n
  {
    if a > 0 {
      MulAtLeast(a, n);
    } else {
      MulAtLeast(-a, n);
      assert (-a) * n == -(a * n);
    }
  }

  lemma DivModUnique(x: nat, n: nat, q: nat, r: nat)
    requires n > 0 && r < n && x == q * n + r
    ensures x / n == q && x % n == r
  {
    var d, m := x / n, x % n;
    assert x == d * n + m;
    assert (d - q) * n == r - m;
    MultipleOfNonzero(d - q, n);
  }

  /** How many numbers below `m` leave remainder `u`. */
  function Below(m: nat, n: nat, u: nat): nat
    requires u < n
  {
    (m + n - 1 - u) / n
  }

  lemma BelowNext(m: nat, n: nat, u: nat)
    requires u < n
    ensures Below(m + 1, n, u) == Below(m, n, u) + if m % n == u then 1 else 0
  {
    var q, r := m / n, m % n;
    assert m == q * n + r;
    if r < u {
      DivModUnique(m + n - 1 - u, n, q, r + n - 1 - u);
      DivModUnique(m + n - u, n, q, r + n - u);
    } else if r == u {
      DivModUnique(m + n - 1 - u, n, q, n - 1);
      assert m + n - u == (q + 1) * n + 0;
      DivModUnique(m + n - u, n, q + 1, 0);
    } else {
      assert m + n - 1 - u == (q + 1) * n + (r - u - 1);
      DivModUnique(m + n - 1 - u, n, q + 1, r - u - 1);
      DivModUnique(m + n - u, n, q + 1, r - u);
    }
  }

  lemma {:induction false} CursorWithoutWrap(cursor: nat, k: nat)
    requires cursor + k < WORD
    ensures CursorAfter(cursor, k) == cursor + k
  {
    if k > 0 {
      CursorWithoutWrap(cursor, k - 1);
    }
  }

  lemma {:induction false} PicksAreDifference(cursor: nat, n: nat, k: nat, u: nat)
    requires u < n && cursor < WORD && cursor + k <= WORD
    ensures Picks(cursor, n, k, u) == Below(cursor + k, n, u) - Below(cursor, n, u)
  {
    if k > 0 {
      PicksAreDifference(cursor, n, k - 1, u);
      CursorWithoutWrap(cursor, k - 1);
      BelowNext(cursor + k - 1, n, u);
    }
  }

  lemma CeilingExactly(k: nat, n: nat)
    requires n > 0
    ensures (k + n - 1) / n == k / n + if k % n == 0 then 0 else 1
  {
    var s, t := k / n, k % n;
    if t == 0 {
      DivModUnique(k + n - 1, n, s, n - 1);
    } else {
      assert k + n - 1 == (s + 1) * n + (t - 1);
      DivModUnique(k + n - 1, n, s + 1, t - 1);
    }
  }

  lemma DivMod(x: nat, n: nat) returns (q: nat, r: nat)
    requires n > 0
    ensures q == x / n && r == x % n && r < n && x == q * n + r
  {
    q, r := x / n, x % n;
  }

  lemma FloorOfSum(a: nat, k: nat, n: nat)
    requires n > 0
    ensures (a + k) / n == a / n + k / n + if a % n + k % n < n then 0 else 1
  {
    var q, r := DivMod(a, n);
    var s, t := DivMod(k, n);
    var carry := if r + t < n then 0 else 1;
    assert (q + s + carry) * n == q * n + s * n + carry * n;
    DivModUnique(a + k, n, q + s + carry, r + t - carry * n);
  }

  lemma FloorDifference(a: nat, k: nat, n: nat)
    requires n > 0
    ensures k / n <= (a + k) / n - a / n <= (k + n - 1) / n
  {
    FloorOfSum(a, k, n);
    CeilingExactly(k, n);
    var _, _ := DivMod(a, n);
  }

  /** Any `k` consecutive selections give each upstream floor(k/n) or ceil(k/n), while the cursor does not wrap. */
  lemma RoundRobinIsFair(cursor: nat, n: nat, k: nat, u: nat)
    requires u < n && cursor < WORD && cursor + k <= WORD
    ensures k / n <= Picks(cursor, n, k, u) <= (k + n - 1) / n
  {
    PicksAreDifference(cursor, n, k, u);
    FloorDifference(cursor + n - 1 - u, k, n);
  }

  ghost predicate AlwaysFair(n: nat)
    requires n > 0
  {
    forall cursor: nat, k: nat, u: nat :: cursor < WORD && u < n ==> k / n <= Picks(cursor, n, k, u) <= (k + n - 1) / n
  }

  lemma NextCursorRemainder(c: nat, n: nat)
    requires n > 0 && WORD % n == 0 && c < WORD
    ensures NextCursor(c) % n == (c + 1) % n
  {
    if c + 1 == WORD {
      DivModUnique(WORD, WORD, 1, 0);
      DivModUnique(0, n, 0, 0);
    } else {
      DivModUnique(c + 1, WORD, 0, c + 1);
    }
  }

  lemma {:induction false} CursorRemainder(cursor: nat, n: nat, k: nat)
    requires n > 0 && WORD % n == 0 && cursor < WORD
    ensures CursorAfter(cursor, k) % n == (cursor + k) % n
  {
    if k > 0 {
      CursorRemainder(cursor, n, k - 1);
      NextCursorRemainder(CursorAfter(cursor, k - 1), n);
      ModNext(CursorAfter(cursor, k - 1), cursor + k - 1, n);
    }
  }

  lemma {:induction false} PicksAcrossWrap(cursor: nat, n: nat, k: nat, u: nat)
    requires n > 0 && WORD % n == 0 && cursor < WORD && u < n
    ensures Picks(cursor, n, k, u) == Below(cursor + k, n, u) - Below(cursor, n, u)
  {
    if k > 0 {
      PicksAcrossWrap(cursor, n, k - 1, u);
      CursorRemainder(cursor, n, k - 1);
      BelowNext(cursor + k - 1, n, u);
    }
  }

  lemma ModNext(a: nat, b: nat, n: nat)
    requires n > 0 && a % n == b % n
    ensures (a + 1) % n == (b + 1) % n
  {
    var r := a % n;
    if r + 1 < n {
      DivModUnique(a + 1, n, a / n, r + 1);
      DivModUnique(b + 1, n, b / n, r + 1);
    } else {
      assert a + 1 == (a / n + 1) * n && b + 1 == (b / n + 1) * n;
      DivModUnique(a + 1, n, a / n + 1, 0);
      DivModUnique(b + 1, n, b / n + 1, 0);
    }
  }

  /** Round-robin is fair across the wrap too, exactly when the number of upstreams divides the cursor's range. */
  lemma FairAcrossWrapExactly(n: nat)
    requires 0 < n < WORD
    ensures AlwaysFair(n) <==> WORD % n == 0
  {
    if WORD % n == 0 {
      forall cursor: nat, k: nat, u: nat | cursor < WORD && u < n
        ensures k / n <= Picks(cursor, n, k, u) <= (k + n - 1) / n
      {
        PicksAcrossWrap(cursor, n, k, u);
        FloorDifference(cursor + n - 1 - u, k, n);
      }
    } else {
      UnfairAtWrap(n);
    }
  }

  lemma {:induction false} CursorAfterWrap(k: nat)
    requires 0 < k < WORD
    ensures CursorAfter(WORD - 1, k) == k - 1
  {
    if k == 1 {
      assert CursorAfter(WORD - 1, 0) == WORD - 1;
    } else {
      CursorAfterWrap(k - 1);
    }
  }

  /** The last selection before the wrap is repeated too soon after it. */
  lemma UnfairAtWrap(n: nat)
    requires 0 < n < WORD && WORD % n != 0
    ensures
      var r := WORD % n;
      Picks(WORD - 1, n, r + 1, r - 1) >= 2 && (r + 1 + n - 1) / n == 1
  {
    var q, r := DivMod(WORD, n);
    DivModUnique(WORD - 1, n, q, r - 1);
    assert Picks(WORD - 1, n, 0, r - 1) == 0 && CursorAfter(WORD - 1, 0) == WORD - 1;
    assert Picks(WORD - 1, n, 1, r - 1) == 1;
    PicksGrow(WORD - 1, n, 1, r, r - 1);
    CursorAfterWrap(r);
    DivModUnique(r - 1, n, 0, r - 1);
    DivModUnique(r + n, n, 1, r);
  }

  lemma {:induction false} PicksGrow(cursor: nat, n: nat, j: nat, k: nat, u: nat)
    requires cursor < WORD && n > 0 && j <= k
    ensures Picks(cursor, n, j, u) <= Picks(cursor, n, k, u)
  {
    if j < k {
      PicksGrow(cursor, n, j, k - 1, u);
    }
  }

  // ----- least connections

  ghost predicate IsFirstMin(loads: seq<nat>, m: nat) {
    && m < |loads|
    && (forall i :: 0 <= i < |loads| ==> loads[m] <= loads[i])
    && (forall i :: 0 <= i < m ==> loads[m] < loads[i])
  }

  /** Loads differ by at most one. */
  ghost predicate Level(loads: seq<nat>) {
    forall i, j :: 0 <= i < |loads| && 0 <= j < |loads| ==> loads[i] <= loads[j] + 1
  }

  ghost function FirstMin(loads: seq<nat>): (m: nat)
    requires loads != []
    ensures IsFirstMin(loads, m)
  {
    if |loads| == 1 then 0
    else
      var m := FirstMin(loads[..|loads| - 1]);
      if loads[|loads| - 1] < loads[m] then |loads| - 1 else m
  }

  /** One selection picks the first minimum. */
  ghost function Select(loads: seq<nat>): (after: seq<nat>)
    requires loads != []
    ensures |after| == |loads|
  {
    var m := FirstMin(loads);
    loads[m := loads[m] + 1]
  }

  /** Loads after `k` selections without completions. */
  ghost function AfterSelections(loads: seq<nat>, k: nat): (after: seq<nat>)
    requires loads != []
    ensures |after| == |loads|
  {
    if k == 0 then loads else Select(AfterSelections(loads, k - 1))
  }

  /** Once level, the loads stay level under selections without completions. */
  lemma {:induction false} SelectionsStayLevel(loads: seq<nat>, k: nat)
    requires loads != [] && Level(loads)
    ensures Level(AfterSelections(loads, k))
  {
    if k > 0 {
      SelectionsStayLevel(loads, k - 1);
    }
  }

  ghost function Gap(loads: seq<nat>, top: nat): nat
    requires forall i :: 0 <= i < |loads| ==> loads[i] <= top
  {
    if loads == [] then 0 else Gap(loads[..|loads| - 1], top) + (top - loads[|loads| - 1])
  }

  lemma {:induction false} GapAfterUpdate(loads: seq<nat>, top: nat, m: nat)
    requires m < |loads| && loads[m] < top && forall i :: 0 <= i < |loads| ==> loads[i] <= top
    ensures Gap(loads[m := loads[m] + 1], top) == Gap(loads, top) - 1
  {
    var last := |loads| - 1;
    if m == last {
      assert loads[m := loads[m] + 1][..last] == loads[..last];
    } else {
      GapAfterUpdate(loads[..last], top, m);
      assert loads[m := loads[m] + 1][..last] == loads[..last][m := loads[m] + 1];
    }
  }

  lemma {:induction false} NoGapMeansLevel(loads: seq<nat>, top: nat)
    requires forall i :: 0 <= i < |loads| ==> loads[i] <= top
    requires Gap(loads, top) == 0
    ensures forall i :: 0 <= i < |loads| ==> loads[i] == top
  {
    if loads != [] {
      NoGapMeansLevel(loads[..|loads| - 1], top);
    }
  }

  /** Whatever the loads are, enough selections without completions level them. */
  lemma {:induction false} SelectionsLevel(loads: seq<nat>, top: nat) returns (k: nat)
    requires loads != [] && forall i :: 0 <= i < |loads| ==> loads[i] <= top
    ensures k <= Gap(loads, top) && Level(AfterSelections(loads, k))
    decreases Gap(loads, top)
  {
    var m := FirstMin(loads);
    if loads[m] == top {
      k := 0;
    } else {
      GapAfterUpdate(loads, top, m);
      var rest := SelectionsLevel(Select(loads), top);
      k := rest + 1;
      FirstSelectionFirst(loads, rest);
    }
  }

  lemma {:induction false} FirstSelectionFirst(loads: seq<nat>, k: nat)
    requires loads != []
    ensures AfterSelections(loads, k + 1) == AfterSelections(Select(loads), k)
  {
    if k > 0 {
      FirstSelectionFirst(loads, k - 1);
    }
  }
}
