/** Longest-first packing, seen on weights alone.

An assignment gives each unit, by position, the lane it goes to. `IsGreedy` says that every unit went
to a lane that was lightest at the time, whichever of several lightest lanes that was. The result is
Graham's bound: with the units in descending weight, no lane of a greedy assignment to n lanes exceeds
(4n-1)/3n times the heaviest lane of any assignment to n lanes. */
module Makespan {

  function Sum(ws: seq<nat>): nat {
    if ws == [] then 0 else Sum(ws[..|ws| - 1]) + ws[|ws| - 1]
  }

  ghost predicate IsAssignment(a: seq<nat>, units: nat, n: nat) {
    |a| == units && forall i | 0 <= i < |a| :: a[i] < n
  }

  /** The weight lane k carries. */
  function Load(ws: seq<nat>, a: seq<nat>, k: nat): nat
    requires |ws| == |a|
  {
    if ws == [] then 0
    else Load(ws[..|ws| - 1], a[..|a| - 1], k) + if a[|a| - 1] == k then ws[|ws| - 1] else 0
  }

  /** How many units lane k holds. */
  function Count(a: seq<nat>, k: nat): nat {
    if a == [] then 0 else Count(a[..|a| - 1], k) + if a[|a| - 1] == k then 1 else 0
  }

  ghost predicate Fits(ws: seq<nat>, a: seq<nat>, n: nat, cap: nat)
    requires |ws| == |a|
  {
    forall k: nat | k < n :: Load(ws, a, k) <= cap
  }

  ghost predicate Lightest(ws: seq<nat>, a: seq<nat>, n: nat, k: nat)
    requires |ws| == |a|
  {
    k < n && forall j: nat | j < n :: Load(ws, a, k) <= Load(ws, a, j)
  }

  ghost predicate IsGreedy(ws: seq<nat>, a: seq<nat>, n: nat) {
    |ws| == |a| && forall i | 0 <= i < |a| :: Lightest(ws[..i], a[..i], n, a[i])
  }

  ghost predicate Descending(ws: seq<nat>) {
    forall i, j | 0 <= i < j < |ws| :: ws[i] >= ws[j]
  }

  // ---- prefixes ----

  lemma GreedyPrefix(ws: seq<nat>, a: seq<nat>, n: nat)
    requires IsGreedy(ws, a, n) && |ws| > 0
    ensures IsGreedy(ws[..|ws| - 1], a[..|a| - 1], n)
    ensures Lightest(ws[..|ws| - 1], a[..|a| - 1], n, a[|a| - 1])
  {
    var m := |ws| - 1;
    forall i | 0 <= i < m ensures Lightest(ws[..m][..i], a[..m][..i], n, a[..m][i]) {
      assert ws[..m][..i] == ws[..i] && a[..m][..i] == a[..i];
    }
  }

  lemma FitsPrefix(ws: seq<nat>, b: seq<nat>, n: nat, cap: nat)
    requires |ws| == |b| > 0 && Fits(ws, b, n, cap)
    ensures Fits(ws[..|ws| - 1], b[..|b| - 1], n, cap)
  {
    var m := |ws| - 1;
    var ws', b' := ws[..m], b[..m];
    forall k: nat | k < n ensures Load(ws', b', k) <= cap {
      assert Load(ws, b, k) <= cap;
    }
  }

  // ---- totals over lanes ----

  function LoadBelow(ws: seq<nat>, a: seq<nat>, n: nat): nat
    requires |ws| == |a|
  {
    if n == 0 then 0 else LoadBelow(ws, a, n - 1) + Load(ws, a, n - 1)
  }

  lemma {:induction false} LoadBelowStep(ws: seq<nat>, a: seq<nat>, n: nat)
    requires |ws| == |a| > 0
    ensures LoadBelow(ws, a, n)
         == LoadBelow(ws[..|ws| - 1], a[..|a| - 1], n) + if a[|a| - 1] < n then ws[|ws| - 1] else 0
  {
    if n > 0 { LoadBelowStep(ws, a, n - 1); }
  }

  /** Conservation: the lanes together carry every unit's weight exactly once. */
  lemma {:induction false} LoadsSum(ws: seq<nat>, a: seq<nat>, n: nat)
    requires IsAssignment(a, |ws|, n)
    ensures LoadBelow(ws, a, n) == Sum(ws)
  {
    if ws == [] {
      EmptyLoads(n);
    } else {
      LoadBelowStep(ws, a, n);
      LoadsSum(ws[..|ws| - 1], a[..|a| - 1], n);
    }
  }

  lemma {:induction false} EmptyLoads(n: nat)
    ensures LoadBelow([], [], n) == 0
  {
    if n > 0 { EmptyLoads(n - 1); }
  }

  lemma {:induction false} LoadsAtMost(ws: seq<nat>, a: seq<nat>, n: nat, cap: nat)
    requires |ws| == |a| && Fits(ws, a, n, cap)
    ensures LoadBelow(ws, a, n) <= n * cap
  {
    if n > 0 {
      LoadsAtMost(ws, a, n - 1, cap);
      assert n * cap == (n - 1) * cap + cap;
    }
  }

  lemma {:induction false} LoadsAtLeast(ws: seq<nat>, a: seq<nat>, n: nat, floor: nat)
    requires |ws| == |a| && forall k: nat | k < n :: floor <= Load(ws, a, k)
    ensures n * floor <= LoadBelow(ws, a, n)
  {
    if n > 0 {
      LoadsAtLeast(ws, a, n - 1, floor);
      assert n * floor == (n - 1) * floor + floor;
    }
  }

  // ---- lanes with one unit, lanes with two ----

  /** One weight above a third of cap per unit, so three units overflow a lane of cap. */
  lemma {:induction false} CountBoundsLoad(ws: seq<nat>, a: seq<nat>, k: nat, cap: nat)
    requires |ws| == |a| && forall i | 0 <= i < |ws| :: cap < 3 * ws[i]
    ensures Count(a, k) * (cap + 1) <= 3 * Load(ws, a, k)
  {
    if ws != [] {
      var c := Count(a[..|a| - 1], k);
      CountBoundsLoad(ws[..|ws| - 1], a[..|a| - 1], k, cap);
      assert (c + 1) * (cap + 1) == c * (cap + 1) + (cap + 1);
    }
  }

  lemma AtMostTwo(ws: seq<nat>, a: seq<nat>, k: nat, cap: nat)
    requires |ws| == |a| && forall i | 0 <= i < |ws| :: cap < 3 * ws[i]
    requires Load(ws, a, k) <= cap
    ensures Count(a, k) <= 2
  {
    CountBoundsLoad(ws, a, k, cap);
    MulMono(cap + 1, 3, if Count(a, k) >= 3 then Count(a, k) else 3);
  }

  lemma {:induction false} CountPositive(a: seq<nat>, i: nat)
    requires i < |a|
    ensures Count(a, a[i]) >= 1
  {
    if i < |a| - 1 { CountPositive(a[..|a| - 1], i); }
  }

  lemma {:induction false} LoadOfOne(ws: seq<nat>, a: seq<nat>, i: nat)
    requires |ws| == |a| && i < |a|
    ensures ws[i] <= Load(ws, a, a[i])
  {
    if i < |a| - 1 { LoadOfOne(ws[..|ws| - 1], a[..|a| - 1], i); }
  }

  /** A lane that holds nothing weighs nothing; one that holds a single unit weighs what it does. */
  lemma {:induction false} SoleUnit(ws: seq<nat>, a: seq<nat>, k: nat) returns (i: nat)
    requires |ws| == |a| && Count(a, k) <= 1
    ensures Count(a, k) == 0 ==> Load(ws, a, k) == 0
    ensures Count(a, k) == 1 ==> i < |a| && a[i] == k && Load(ws, a, k) == ws[i]
  {
    i := 0;
    if ws != [] {
      var j := SoleUnit(ws[..|ws| - 1], a[..|a| - 1], k);
      i := if a[|a| - 1] == k then |a| - 1 else j;
    }
  }

  /** A unit sharing its lane has a companion, and the lane carries both. */
  lemma {:induction false} Companion(ws: seq<nat>, a: seq<nat>, i: nat) returns (j: nat)
    requires |ws| == |a| && i < |a| && Count(a, a[i]) >= 2
    ensures j < |a| && j != i && a[j] == a[i] && ws[i] + ws[j] <= Load(ws, a, a[i])
  {
    var m := |a| - 1;
    if i == m {
      j := AnyUnit(ws[..m], a[..m], a[i]);
    } else if a[m] == a[i] {
      j := m;
      LoadOfOne(ws[..m], a[..m], i);
    } else {
      j := Companion(ws[..m], a[..m], i);
    }
  }

  lemma {:induction false} AnyUnit(ws: seq<nat>, a: seq<nat>, k: nat) returns (j: nat)
    requires |ws| == |a| && Count(a, k) >= 1
    ensures j < |a| && a[j] == k && ws[j] <= Load(ws, a, k)
  {
    var m := |a| - 1;
    if a[m] == k { j := m; } else { j := AnyUnit(ws[..m], a[..m], k); }
  }

  // ---- counting ----

  function CountBelow(a: seq<nat>, n: nat): nat {
    if n == 0 then 0 else CountBelow(a, n - 1) + Count(a, n - 1)
  }

  lemma {:induction false} CountBelowStep(a: seq<nat>, n: nat)
    requires a != []
    ensures CountBelow(a, n) == CountBelow(a[..|a| - 1], n) + if a[|a| - 1] < n then 1 else 0
  {
    if n > 0 { CountBelowStep(a, n - 1); }
  }

  lemma {:induction false} CountsSum(a: seq<nat>, n: nat)
    requires IsAssignment(a, |a|, n)
    ensures CountBelow(a, n) == |a|
  {
    if a == [] {
      EmptyCounts(n);
    } else {
      CountBelowStep(a, n);
      CountsSum(a[..|a| - 1], n);
    }
  }

  lemma {:induction false} EmptyCounts(n: nat)
    ensures CountBelow([], n) == 0
  {
    if n > 0 { EmptyCounts(n - 1); }
  }

  ghost function Singles(a: seq<nat>, n: nat): set<nat> {
    set k: nat | k < n && Count(a, k) == 1
  }

  lemma {:induction false} CountByKind(a: seq<nat>, n: nat)
    requires forall k: nat | k < n :: Count(a, k) <= 2
    ensures CountBelow(a, n) + |Singles(a, n)| <= 2 * n
    ensures (forall k: nat | k < n :: Count(a, k) >= 1) ==> CountBelow(a, n) + |Singles(a, n)| == 2 * n
  {
    if n > 0 {
      CountByKind(a, n - 1);
      if Count(a, n - 1) == 1 {
        assert Singles(a, n) == Singles(a, n - 1) + {n - 1};
      } else {
        assert Singles(a, n) == Singles(a, n - 1);
      }
    } else {
      assert Singles(a, n) == {};
    }
  }

  lemma {:induction false} InjectionGrows(s: set<nat>, t: set<nat>, f: map<nat, nat>)
    requires s <= f.Keys
    requires forall x | x in s :: f[x] in t
    requires forall x, y | x in s && y in s && x != y :: f[x] != f[y]
    ensures |s| <= |t|
  {
    if s != {} {
      var x :| x in s;
      InjectionGrows(s - {x}, t - {f[x]}, f);
    }
  }

  // ---- the bound ----

  /** When every unit weighs more than a third of what some assignment needs, greedy needs no more
      than that assignment does. Were the next unit to overflow, each unit alone in its greedy lane
      would be alone in the other assignment too, which then has no room for them all. */
  lemma GreedyStepFits(ws: seq<nat>, a: seq<nat>, n: nat, b: seq<nat>, cap: nat)
    requires n > 0 && |ws| > 0 && IsGreedy(ws, a, n) && Descending(ws)
    requires IsAssignment(b, |ws|, n) && Fits(ws, b, n, cap)
    requires forall i | 0 <= i < |ws| :: cap < 3 * ws[i]
    requires Fits(ws[..|ws| - 1], a[..|a| - 1], n, cap)
    ensures Load(ws, a, a[|a| - 1]) <= cap
  {
    var m := |ws| - 1;
    var ws', a', k := ws[..m], a[..m], a[m];
    GreedyPrefix(ws, a, n);
    LoadOfOne(ws, b, m);
    if Load(ws', a', k) + ws[m] > cap {
      forall j: nat | j < n ensures 1 <= Count(a', j) <= 2 {
        AtMostTwo(ws', a', j, cap);
        if Count(a', j) == 0 { var _ := SoleUnit(ws', a', j); }
      }
      forall j: nat | j < n ensures Count(b, j) <= 2 { AtMostTwo(ws, b, j, cap); }
      SinglesStaySingle(ws, a, n, b, cap);
      CountByKind(a', n);
      CountByKind(b, n);
      CountsSum(a', n);
      CountsSum(b, n);
      assert false;
    }
  }

  lemma SinglesStaySingle(ws: seq<nat>, a: seq<nat>, n: nat, b: seq<nat>, cap: nat)
    requires n > 0 && |ws| == |a| > 0 && Descending(ws)
    requires Lightest(ws[..|ws| - 1], a[..|a| - 1], n, a[|a| - 1])
    requires IsAssignment(b, |ws|, n) && Fits(ws, b, n, cap)
    requires Load(ws[..|ws| - 1], a[..|a| - 1], a[|a| - 1]) + ws[|ws| - 1] > cap
    ensures |Singles(a[..|a| - 1], n)| <= |Singles(b, n)|
  {
    var m := |ws| - 1;
    var ws', a' := ws[..m], a[..m];
    var s := Singles(a', n);
    var sole: map<nat, nat> := map[];
    var f: map<nat, nat> := map[];
    var todo := s;
    while todo != {}
      invariant todo <= s && s - todo <= f.Keys && f.Keys == sole.Keys
      invariant forall k | k in f :: sole[k] < m && a'[sole[k]] == k && f[k] == b[sole[k]] && Count(b, f[k]) == 1
    {
      var k :| k in todo;
      var i := SoleUnit(ws', a', k);
      CountPositive(b, i);
      if Count(b, b[i]) >= 2 {
        var j := Companion(ws, b, i);
        assert false;
      }
      sole, f := sole[k := i], f[k := b[i]];
      todo := todo - {k};
    }
    forall x, y | x in s && y in s && x != y ensures f[x] != f[y] {
      if f[x] == f[y] {
        TwoMakeTwo(b, sole[x], sole[y]);
      }
    }
    InjectionGrows(s, Singles(b, n), f);
  }

  lemma {:induction false} TwoMakeTwo(a: seq<nat>, i: nat, j: nat)
    requires i < |a| && j < |a| && i != j && a[i] == a[j]
    ensures Count(a, a[i]) >= 2
  {
    var m := |a| - 1;
    if i == m {
      CountPositive(a[..m], j);
    } else if j == m {
      CountPositive(a[..m], i);
    } else {
      TwoMakeTwo(a[..m], i, j);
    }
  }

  lemma {:induction false} GreedyFitsLarge(ws: seq<nat>, a: seq<nat>, n: nat, b: seq<nat>, cap: nat)
    requires n > 0 && IsGreedy(ws, a, n) && Descending(ws)
    requires IsAssignment(b, |ws|, n) && Fits(ws, b, n, cap)
    requires forall i | 0 <= i < |ws| :: cap < 3 * ws[i]
    ensures Fits(ws, a, n, cap)
  {
    if ws != [] {
      GreedyPrefix(ws, a, n);
      FitsPrefix(ws, b, n, cap);
      GreedyFitsLarge(ws[..|ws| - 1], a[..|a| - 1], n, b[..|b| - 1], cap);
      GreedyStepFits(ws, a, n, b, cap);
    }
  }

  /** A light last unit: the lane it lands on was at most the average of the rest. */
  lemma LightStep(ws: seq<nat>, a: seq<nat>, n: nat, b: seq<nat>, cap: nat)
    requires n > 0 && |ws| > 0 && IsGreedy(ws, a, n)
    requires IsAssignment(b, |ws|, n) && Fits(ws, b, n, cap)
    requires 3 * ws[|ws| - 1] <= cap
    ensures 3 * n * Load(ws, a, a[|a| - 1]) <= (4 * n - 1) * cap
  {
    var w, low := ws[|ws| - 1], Load(ws[..|ws| - 1], a[..|ws| - 1], a[|a| - 1]);
    LightRoom(ws, a, n, b, cap);
    LoadLast(ws, a, a[|a| - 1]);
    LightArithmetic(n, low, w, Load(ws, a, a[|a| - 1]), cap);
  }

  lemma LightRoom(ws: seq<nat>, a: seq<nat>, n: nat, b: seq<nat>, cap: nat)
    requires n > 0 && |ws| > 0 && IsGreedy(ws, a, n)
    requires IsAssignment(b, |ws|, n) && Fits(ws, b, n, cap)
    ensures n * Load(ws[..|ws| - 1], a[..|ws| - 1], a[|a| - 1]) + ws[|ws| - 1] <= n * cap
  {
    LightestAtMostRest(ws, a, n);
    LoadsSum(ws, b, n);
    LoadsAtMost(ws, b, n, cap);
  }

  /** n times the lane the last unit lands on, as it was, is at most the weight of the units before. */
  lemma LightestAtMostRest(ws: seq<nat>, a: seq<nat>, n: nat)
    requires n > 0 && |ws| > 0 && IsGreedy(ws, a, n)
    ensures n * Load(ws[..|ws| - 1], a[..|ws| - 1], a[|a| - 1]) + ws[|ws| - 1] <= Sum(ws)
  {
    var m := |ws| - 1;
    GreedyPrefix(ws, a, n);
    LoadsAtLeast(ws[..m], a[..m], n, Load(ws[..m], a[..m], a[m]));
    LoadsSum(ws[..m], a[..m], n);
  }

  lemma LightArithmetic(n: nat, low: nat, w: nat, load: nat, cap: nat)
    requires n > 0 && n * low + w <= n * cap && 3 * w <= cap && load == low + w
    ensures 3 * n * load <= (4 * n - 1) * cap
  {
    var x, y, z := n * low, n * w, n * cap;
    assert (n - 1) * (3 * w) == 3 * y - 3 * w;
    MulMono(n - 1, 3 * w, cap);
    assert (n - 1) * cap == z - cap;
    assert n * (low + w) == x + y;
    assert 3 * n * (low + w) == 3 * (x + y);
    assert (4 * n - 1) * cap == 4 * z - cap;
  }

  lemma MulMono(c: nat, x: nat, y: nat)
    requires x <= y
    ensures c * x <= c * y
  {
  }

  lemma HeavyArithmetic(n: nat, load: nat, cap: nat)
    requires n > 0 && load <= cap
    ensures 3 * n * load <= (4 * n - 1) * cap
  {
    MulMono(3 * n, load, cap);
    MulMono(cap, 3 * n, 4 * n - 1);
  }

  /** Graham's bound for longest-first packing: 3n times any greedy lane is at most (4n-1) times the
      heaviest lane of any assignment of the same units. */
  lemma {:induction false} GreedyBound(ws: seq<nat>, a: seq<nat>, n: nat, b: seq<nat>, cap: nat)
    requires n > 0 && IsGreedy(ws, a, n) && Descending(ws)
    requires IsAssignment(b, |ws|, n) && Fits(ws, b, n, cap)
    ensures forall k: nat | k < n :: 3 * n * Load(ws, a, k) <= (4 * n - 1) * cap
  {
    if ws != [] {
      var m := |ws| - 1;
      GreedyPrefix(ws, a, n);
      FitsPrefix(ws, b, n, cap);
      GreedyBound(ws[..m], a[..m], n, b[..m], cap);
      if 3 * ws[m] <= cap {
        LightStep(ws, a, n, b, cap);
      } else {
        GreedyFitsLarge(ws, a, n, b, cap);
        forall k: nat | k < n ensures 3 * n * Load(ws, a, k) <= (4 * n - 1) * cap {
          HeavyArithmetic(n, Load(ws, a, k), cap);
        }
      }
    } else {
      assert forall k: nat | k < n :: Load(ws, a, k) == 0;
    }
  }

  lemma LoadAppend(ws: seq<nat>, a: seq<nat>, w: nat, into: nat, k: nat)
    requires |ws| == |a|
    ensures Load(ws + [w], a + [into], k) == Load(ws, a, k) + if into == k then w else 0
  {
    assert (ws + [w])[..|ws|] == ws && (a + [into])[..|a|] == a;
  }

  lemma GreedyAppend(ws: seq<nat>, a: seq<nat>, n: nat, w: nat, into: nat)
    requires IsGreedy(ws, a, n) && Lightest(ws, a, n, into)
    ensures IsGreedy(ws + [w], a + [into], n)
  {
    var ws', a' := ws + [w], a + [into];
    forall i | 0 <= i < |a'| ensures Lightest(ws'[..i], a'[..i], n, a'[i]) {
      assert ws'[..i] == if i < |ws| then ws[..i] else ws;
      assert a'[..i] == if i < |a| then a[..i] else a;
    }
  }

  /** The bound is met: weights 3, 3, 2, 2, 2 on two lanes, where greedy needs 7 and the best is 6. */
  lemma GreedyBoundTight()
    ensures exists ws, a, b :: MeetsBound(ws, a, b, 2, 6, 0)
  {
    var ws: seq<nat>, a: seq<nat>, b: seq<nat> := [], [], [];
    ws, a, b := TightStep(ws, a, b, 3, 0, 0);
    ws, a, b := TightStep(ws, a, b, 3, 1, 0);
    ws, a, b := TightStep(ws, a, b, 2, 0, 1);
    ws, a, b := TightStep(ws, a, b, 2, 1, 1);
    ws, a, b := TightStep(ws, a, b, 2, 0, 1);
    assert Load(ws, a, 0) == 7;
    assert MeetsBound(ws, a, b, 2, 6, 0);
  }

  /** Greedy's k-th lane is as heavy as the bound lets it be, beside an assignment that fits within opt. */
  ghost predicate MeetsBound(ws: seq<nat>, a: seq<nat>, b: seq<nat>, n: nat, opt: nat, k: nat) {
    && IsGreedy(ws, a, n) && Descending(ws) && IsAssignment(b, |ws|, n) && Fits(ws, b, n, opt)
    && 3 * n * Load(ws, a, k) == (4 * n - 1) * opt
  }

  lemma TightStep(ws: seq<nat>, a: seq<nat>, b: seq<nat>, w: nat, into: nat, other: nat)
    returns (ws': seq<nat>, a': seq<nat>, b': seq<nat>)
    requires |ws| == |a| == |b| && into < 2 && other < 2 && IsGreedy(ws, a, 2) && IsAssignment(b, |ws|, 2)
    requires Descending(ws) && forall x | x in ws :: x >= w
    requires Load(ws, a, into) <= Load(ws, a, 1 - into)
    ensures ws' == ws + [w] && a' == a + [into] && b' == b + [other]
    ensures IsGreedy(ws', a', 2) && IsAssignment(b', |ws'|, 2) && Descending(ws')
    ensures forall k :: Load(ws', a', k) == Load(ws, a, k) + if into == k then w else 0
    ensures forall k :: Load(ws', b', k) == Load(ws, b, k) + if other == k then w else 0
  {
    ws', a', b' := ws + [w], a + [into], b + [other];
    GreedyAppend(ws, a, 2, w, into);
    forall k ensures Load(ws', a', k) == Load(ws, a, k) + if into == k then w else 0 { LoadAppend(ws, a, w, into, k); }
    forall k ensures Load(ws', b', k) == Load(ws, b, k) + if other == k then w else 0 {
      LoadAppend(ws, b, w, other, k);
    }
    forall i, j | 0 <= i < j < |ws'| ensures ws'[i] >= ws'[j] {
      if j == |ws| { assert ws[i] in ws; }
    }
  }

  // ---- the same units, listed or grouped otherwise ----

  lemma {:induction false} LoadRemove(ws: seq<nat>, a: seq<nat>, i: nat, k: nat)
    requires |ws| == |a| && i < |ws|
    ensures Load(ws, a, k)
         == Load(ws[..i] + ws[i + 1..], a[..i] + a[i + 1..], k) + if a[i] == k then ws[i] else 0
  {
    var m := |ws| - 1;
    if i == m {
      assert ws[..i] + ws[i + 1..] == ws[..m] && a[..i] + a[i + 1..] == a[..m];
    } else {
      LoadRemove(ws[..m], a[..m], i, k);
      Shortened(ws, i);
      Shortened(a, i);
      LoadLast(ws[..i] + ws[i + 1..], a[..i] + a[i + 1..], k);
      LoadLast(ws, a, k);
    }
  }

  lemma Shortened(s: seq<nat>, i: nat)
    requires i < |s| - 1
    ensures var t, m := s[..i] + s[i + 1..], |s| - 1;
      t[..|t| - 1] == s[..m][..i] + s[..m][i + 1..] && t[|t| - 1] == s[m]
  {
  }

  lemma LoadLast(ws: seq<nat>, a: seq<nat>, k: nat)
    requires |ws| == |a| && ws != []
    ensures Load(ws, a, k) == Load(ws[..|ws| - 1], a[..|a| - 1], k) + if a[|a| - 1] == k then ws[|ws| - 1] else 0
  {
  }

  lemma WithoutOne(ws: seq<nat>, ws': seq<nat>, i: nat)
    requires multiset(ws) == multiset(ws') && ws' != [] && i < |ws| && ws[i] == ws'[|ws'| - 1]
    ensures multiset(ws[..i] + ws[i + 1..]) == multiset(ws'[..|ws'| - 1])
  {
    var x := ws[i];
    assert ws == ws[..i] + [x] + ws[i + 1..];
    assert ws' == ws'[..|ws'| - 1] + [x];
    assert multiset(ws[..i] + ws[i + 1..]) == multiset(ws) - multiset{x};
    assert multiset(ws'[..|ws'| - 1]) == multiset(ws') - multiset{x};
  }

  /** Listing the units in another order loses no assignment. */
  lemma {:induction false} Reassign(ws: seq<nat>, b: seq<nat>, ws': seq<nat>, n: nat) returns (b': seq<nat>)
    requires IsAssignment(b, |ws|, n) && multiset(ws) == multiset(ws')
    ensures IsAssignment(b', |ws'|, n) && forall k :: Load(ws', b', k) == Load(ws, b, k)
    decreases |ws'|
  {
    assert |ws| == |multiset(ws)| == |multiset(ws')| == |ws'|;
    if ws' == [] {
      b' := [];
    } else {
      var m := |ws'| - 1;
      assert ws'[m] in multiset(ws');
      var i :| 0 <= i < |ws| && ws[i] == ws'[m];
      WithoutOne(ws, ws', i);
      var ws1, b1 := ws[..i] + ws[i + 1..], b[..i] + b[i + 1..];
      assert IsAssignment(b1, |ws1|, n);
      var rest := Reassign(ws1, b1, ws'[..m], n);
      b' := rest + [b[i]];
      assert ws' == ws'[..m] + [ws'[m]];
      forall k ensures Load(ws', b', k) == Load(ws, b, k) {
        LoadRemove(ws, b, i, k);
        LoadAppend(ws'[..m], rest, ws'[m], b[i], k);
      }
    }
  }

  lemma {:induction false} LoadUpdate(ws: seq<nat>, a: seq<nat>, i: nat, w: nat, k: nat)
    requires |ws| == |a| && i < |ws| && w <= ws[i]
    ensures Load(ws, a, k) == Load(ws[i := ws[i] - w], a, k) + if a[i] == k then w else 0
  {
    var m := |ws| - 1;
    if i == m {
      assert ws[i := ws[i] - w][..m] == ws[..m];
    } else {
      LoadUpdate(ws[..m], a[..m], i, w, k);
      assert ws[i := ws[i] - w][..m] == ws[..m][i := ws[i] - w];
    }
  }

  lemma {:induction false} NoLoad(ws: seq<nat>, a: seq<nat>, k: nat)
    requires |ws| == |a| && forall i | 0 <= i < |ws| :: ws[i] == 0
    ensures Load(ws, a, k) == 0
  {
    if ws != [] { NoLoad(ws[..|ws| - 1], a[..|a| - 1], k); }
  }

  /** Units that gather tasks by tag: assigning the units is assigning the tasks. */
  lemma {:induction false} Regroup(ws: seq<nat>, tag: seq<nat>, us: seq<nat>, b: seq<nat>, c: seq<nat>, k: nat)
    requires |us| == |b| && |ws| == |c| && IsAssignment(tag, |ws|, |us|)
    requires forall u: nat | u < |us| :: us[u] == Load(ws, tag, u)
    requires forall i | 0 <= i < |ws| :: c[i] == b[tag[i]]
    ensures Load(us, b, k) == Load(ws, c, k)
  {
    if ws == [] {
      NoLoad(us, b, k);
    } else {
      var m := |ws| - 1;
      var t := tag[m];
      LoadUpdate(us, b, t, ws[m], k);
      Regroup(ws[..m], tag[..m], us[t := us[t] - ws[m]], b, c[..m], k);
    }
  }
}
