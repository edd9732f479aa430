/** Splitting a job into lanes, and checking a split (internal/fanout/fanout.go, pack in group.go). */
module FanoutSplit {
  import opened Outcomes
  import opened Makespan
  import opened Strings
  import opened FanoutPaths
  import opened FanoutGroup

  datatype Error =
    | Unscoped(task: string)
    | NoLanes(requested: int)
    | Overlap(i: nat, j: nat, a: string, b: string)

  // ---- normalize ----

  predicate Usable(p: string) {
    p != "" && p != "."
  }

  /** The usable paths among paths, cleaned. clean stands for filepath.Clean after strings.TrimSpace. */
  function Cleaned(paths: seq<string>, clean: string -> string): seq<string> {
    if paths == [] then []
    else
      var before, p := Cleaned(paths[..|paths| - 1], clean), clean(paths[|paths| - 1]);
      if Usable(p) then before + [p] else before
  }

  function Normal(t: Task, clean: string -> string): Task {
    Task(t.name, Sort(Cleaned(t.paths, clean)), if t.weight < 1 then 1 else t.weight)
  }

  predicate Scoped(t: Task, clean: string -> string) {
    exists p | p in t.paths :: Usable(clean(p))
  }

  lemma {:induction false} CleanedScoped(paths: seq<string>, clean: string -> string)
    ensures Cleaned(paths, clean) == [] <==> forall p | p in paths :: !Usable(clean(p))
  {
    if paths != [] {
      CleanedScoped(paths[..|paths| - 1], clean);
      assert paths == paths[..|paths| - 1] + [paths[|paths| - 1]];
    }
  }

  ghost predicate FirstUnscoped(tasks: seq<Task>, clean: string -> string, i: nat) {
    i < |tasks| && !Scoped(tasks[i], clean) && forall j | 0 <= j < i :: Scoped(tasks[j], clean)
  }

  method CleanPaths(paths: seq<string>, clean: string -> string) returns (out: seq<string>)
    ensures out == Cleaned(paths, clean)
  {
    out := [];
    for j := 0 to |paths|
      invariant out == Cleaned(paths[..j], clean)
    {
      assert paths[..j + 1][..j] == paths[..j];
      var p := clean(paths[j]);
      if Usable(p) {
        out := out + [p];
      }
    }
    assert paths[..|paths|] == paths;
  }

  /** Every task cleaned, or the first one that names no path. */
  method Normalize(tasks: seq<Task>, clean: string -> string) returns (r: Result<seq<Task>, Error>)
    ensures r.Ok? ==> (forall t | t in tasks :: Scoped(t, clean)) && Weighted(r.value)
    ensures r.Ok? ==> |r.value| == |tasks| && forall i | 0 <= i < |tasks| :: r.value[i] == Normal(tasks[i], clean)
    ensures r.Err? ==> exists i: nat :: FirstUnscoped(tasks, clean, i) && r.error == Unscoped(tasks[i].name)
  {
    var out: seq<Task> := [];
    for i := 0 to |tasks|
      invariant |out| == i && forall j | 0 <= j < i :: out[j] == Normal(tasks[j], clean) && Scoped(tasks[j], clean)
    {
      var t := NormalizeOne(tasks[i], clean);
      if t.None? {
        assert FirstUnscoped(tasks, clean, i);
        return Err(Unscoped(tasks[i].name));
      }
      out := out + [t.value];
    }
    r := Ok(out);
  }

  method NormalizeOne(t: Task, clean: string -> string) returns (r: Option<Task>)
    ensures r == if Scoped(t, clean) then Some(Normal(t, clean)) else None
  {
    var paths := CleanPaths(t.paths, clean);
    CleanedScoped(t.paths, clean);
    if |paths| == 0 {
      return None;
    }
    r := Some(Task(t.name, Sort(paths), if t.weight < 1 then 1 else t.weight));
  }

  // ---- the order of packing: a stable sort by descending weight ----

  function Place(u: Lane, s: seq<Lane>): (r: seq<Lane>)
    ensures multiset(r) == multiset(s) + multiset{u}
  {
    if s == [] || u.weight >= s[0].weight then [u] + s
    else
      assert s == [s[0]] + s[1..];
      [s[0]] + Place(u, s[1..])
  }

  function HeaviestFirst(units: seq<Lane>): (r: seq<Lane>)
    ensures multiset(r) == multiset(units) && |r| == |units|
  {
    if units == [] then []
    else
      assert units == [units[0]] + units[1..];
      var r := Place(units[0], HeaviestFirst(units[1..]));
      assert |r| == |multiset(r)| == |multiset(units)| == |units|;
      r
  }

  function Weights(units: seq<Lane>): seq<nat> {
    seq(|units|, i requires 0 <= i < |units| => units[i].weight)
  }

  ghost predicate HeavierFirst(units: seq<Lane>) {
    forall i, j | 0 <= i < j < |units| :: units[i].weight >= units[j].weight
  }

  lemma {:induction false} PlaceHeavier(u: Lane, s: seq<Lane>)
    requires HeavierFirst(s)
    ensures HeavierFirst(Place(u, s))
  {
    if s != [] && u.weight < s[0].weight {
      PlaceHeavier(u, s[1..]);
      var r := Place(u, s[1..]);
      forall i | 0 <= i < |r| ensures s[0].weight >= r[i].weight {
        assert r[i] in multiset(r);
        assert r[i] == u || r[i] in s[1..];
      }
    }
  }

  lemma {:induction false} HeaviestFirstSorts(units: seq<Lane>)
    ensures HeavierFirst(HeaviestFirst(units))
  {
    if units != [] {
      HeaviestFirstSorts(units[1..]);
      PlaceHeavier(units[0], HeaviestFirst(units[1..]));
    }
  }

  function OfWeight(units: seq<Lane>, w: nat): seq<Lane> {
    if units == [] then []
    else if units[0].weight == w then [units[0]] + OfWeight(units[1..], w)
    else OfWeight(units[1..], w)
  }

  lemma {:induction false} PlaceStable(u: Lane, s: seq<Lane>, w: nat)
    ensures OfWeight(Place(u, s), w) == OfWeight([u] + s, w)
  {
    assert ([u] + s)[1..] == s;
    if s != [] && u.weight < s[0].weight {
      PlaceStable(u, s[1..], w);
      assert ([u] + s[1..])[1..] == s[1..];
    }
  }

  /** Units of one weight keep the order they came in, as sort.SliceStable promises. */
  lemma {:induction false} HeaviestFirstStable(units: seq<Lane>, w: nat)
    ensures OfWeight(HeaviestFirst(units), w) == OfWeight(units, w)
  {
    if units != [] {
      var rest := HeaviestFirst(units[1..]);
      HeaviestFirstStable(units[1..], w);
      PlaceStable(units[0], rest, w);
      assert ([units[0]] + rest)[1..] == rest;
    }
  }

  /** Any two units, whichever comes first, name no overlapping paths. */
  ghost predicate Apart(a: Lane, b: Lane) {
    forall p, q | p in a.paths && q in b.paths :: !Overlaps(p, q)
  }

  ghost predicate Disjoint(lanes: seq<Lane>) {
    forall i, j | 0 <= i < j < |lanes| :: Apart(lanes[i], lanes[j])
  }

  lemma ApartSymmetric(a: Lane, b: Lane)
    requires Apart(a, b)
    ensures Apart(b, a)
  {
    forall p, q | p in b.paths && q in a.paths ensures !Overlaps(p, q) {
      assert !Overlaps(q, p);
    }
  }

  lemma {:induction false} PlaceDisjoint(u: Lane, s: seq<Lane>)
    requires Disjoint(s) && forall x | x in s :: Apart(u, x)
    ensures Disjoint(Place(u, s))
  {
    if s != [] && u.weight < s[0].weight {
      PlaceDisjoint(u, s[1..]);
      var r := Place(u, s[1..]);
      forall i | 0 <= i < |r| ensures Apart(s[0], r[i]) {
        assert r[i] in multiset(r);
        FirstApart(u, s, r[i]);
      }
    }
  }

  lemma FirstApart(u: Lane, s: seq<Lane>, x: Lane)
    requires s != [] && Disjoint(s) && Apart(u, s[0]) && (x == u || x in s[1..])
    ensures Apart(s[0], x)
  {
    ApartSymmetric(u, s[0]);
    if x in s[1..] {
      var k :| 0 <= k < |s[1..]| && s[1..][k] == x;
      assert Apart(s[0], s[k + 1]);
    }
  }

  lemma {:induction false} HeaviestFirstDisjoint(units: seq<Lane>)
    requires Disjoint(units)
    ensures Disjoint(HeaviestFirst(units))
  {
    if units != [] {
      HeaviestFirstDisjoint(units[1..]);
      SameElements(units[1..], HeaviestFirst(units[1..]));
      PlaceDisjoint(units[0], HeaviestFirst(units[1..]));
    }
  }

  // ---- pack ----

  /** What lane k collects when unit i goes to lane a[i]. */
  function Merged(units: seq<Lane>, a: seq<nat>, k: nat): Lane
    requires |units| == |a|
  {
    if units == [] then Lane([], [], 0)
    else
      var m := |units| - 1;
      var before := Merged(units[..m], a[..m], k);
      if a[m] == k then Absorb(before, units[m]) else before
  }

  function Absorb(lane: Lane, u: Lane): Lane {
    Lane(lane.tasks + u.tasks, lane.paths + u.paths, lane.weight + u.weight)
  }

  lemma MergedAppend(units: seq<Lane>, a: seq<nat>, u: Lane, into: nat, k: nat)
    requires |units| == |a|
    ensures Merged(units + [u], a + [into], k)
         == if into == k then Absorb(Merged(units, a, k), u) else Merged(units, a, k)
  {
    assert (units + [u])[..|units|] == units && (a + [into])[..|a|] == a;
  }

  lemma {:induction false} MergedWeight(units: seq<Lane>, a: seq<nat>, k: nat)
    requires |units| == |a|
    ensures Merged(units, a, k).weight == Load(Weights(units), a, k)
  {
    if units != [] {
      var m := |units| - 1;
      MergedWeight(units[..m], a[..m], k);
      assert Weights(units)[..m] == Weights(units[..m]);
    }
  }

  lemma {:induction false} MergedPaths(units: seq<Lane>, a: seq<nat>, k: nat, p: string)
    requires |units| == |a|
    ensures p in Merged(units, a, k).paths <==> exists i :: 0 <= i < |units| && a[i] == k && p in units[i].paths
  {
    if units != [] {
      var m := |units| - 1;
      MergedPaths(units[..m], a[..m], k, p);
    }
  }

  lemma {:induction false} MergedTasks(units: seq<Lane>, a: seq<nat>, k: nat, t: Task)
    requires |units| == |a|
    ensures t in Merged(units, a, k).tasks <==> exists i :: 0 <= i < |units| && a[i] == k && t in units[i].tasks
  {
    if units != [] {
      var m := |units| - 1;
      MergedTasks(units[..m], a[..m], k, t);
    }
  }

  /** lane is what it should be, its paths listed in any order. */
  ghost predicate SameLane(lane: Lane, want: Lane) {
    lane.tasks == want.tasks && lane.weight == want.weight && multiset(lane.paths) == multiset(want.paths)
  }

  /** lanes hold the units, heaviest first, each sent to a lane that was lightest then. */
  ghost predicate IsPacking(units: seq<Lane>, n: nat, lanes: seq<Lane>, a: seq<nat>) {
    var order := HeaviestFirst(units);
    && |lanes| <= n
    && |a| == |order|
    && (forall i | 0 <= i < |a| :: a[i] < |lanes|)
    && IsGreedy(Weights(order), a, n)
    && (forall k: nat | k < |lanes| :: SameLane(lanes[k], Merged(order, a, k)))
  }

  /** The first of the lightest lanes. */
  method LightestLane(lanes: seq<Lane>) returns (into: nat)
    requires lanes != []
    ensures into < |lanes| && forall i | 0 <= i < |lanes| :: lanes[into].weight <= lanes[i].weight
    ensures forall i | 0 <= i < into :: lanes[into].weight < lanes[i].weight
  {
    into := 0;
    for i := 0 to |lanes|
      invariant into < |lanes| && forall k | 0 <= k < i :: lanes[into].weight <= lanes[k].weight
      invariant forall k | 0 <= k < into :: lanes[into].weight < lanes[k].weight
      invariant into <= i
    {
      if lanes[i].weight < lanes[into].weight {
        into := i;
      }
    }
  }

  /** One unit per lane, when there is a lane for each. */
  lemma {:induction false} OneEach(order: seq<Lane>, a: seq<nat>, n: nat)
    requires |a| == |order| <= n && forall i | 0 <= i < |a| :: a[i] == i
    ensures IsGreedy(Weights(order), a, n)
    ensures forall k: nat | k < |order| :: Merged(order, a, k) == order[k]
    ensures forall k: nat | k >= |order| :: Merged(order, a, k) == Lane([], [], 0)
  {
    if order != [] {
      var m := |order| - 1;
      OneEach(order[..m], a[..m], n);
      assert order == order[..m] + [order[m]] && a == a[..m] + [m];
      assert Weights(order) == Weights(order[..m]) + [order[m].weight];
      MergedWeight(order[..m], a[..m], m);
      GreedyAppend(Weights(order[..m]), a[..m], n, order[m].weight, m);
      forall k: nat ensures Merged(order, a, k) == if k == m then order[m] else Merged(order[..m], a[..m], k) {
        MergedAppend(order[..m], a[..m], order[m], m, k);
      }
    }
  }

  /** The lanes built so far: order[..i] merged by a. */
  ghost predicate Packed(order: seq<Lane>, a: seq<nat>, lanes: seq<Lane>) {
    |a| == |order| && forall k: nat | k < |lanes| :: lanes[k] == Merged(order, a, k)
  }

  lemma PackOne(order: seq<Lane>, a: seq<nat>, lanes: seq<Lane>, u: Lane, into: nat)
    requires Packed(order, a, lanes) && IsGreedy(Weights(order), a, |lanes|)
    requires into < |lanes| && forall i | 0 <= i < |lanes| :: lanes[into].weight <= lanes[i].weight
    ensures Packed(order + [u], a + [into], lanes[into := Absorb(lanes[into], u)])
    ensures IsGreedy(Weights(order + [u]), a + [into], |lanes|)
  {
    forall k: nat | k < |lanes| ensures Load(Weights(order), a, k) == lanes[k].weight { MergedWeight(order, a, k); }
    assert Weights(order + [u]) == Weights(order) + [u.weight];
    GreedyAppend(Weights(order), a, |lanes|, u.weight, into);
    forall k: nat | k < |lanes| { MergedAppend(order, a, u, into, k); }
  }

  method Pack(units: seq<Lane>, n: nat) returns (lanes: seq<Lane>, ghost a: seq<nat>)
    requires n >= 1
    ensures IsPacking(units, n, lanes, a)
    ensures |lanes| == if |units| <= n then |units| else n
  {
    var order := HeaviestFirst(units);
    if |order| <= n {
      a := seq(|order|, i => i);
      OneEach(order, a, n);
      return order, a;
    }
    lanes := seq(n, _ => Lane([], [], 0));
    a := [];
    for i := 0 to |order|
      invariant |lanes| == n && Packed(order[..i], a, lanes) && IsGreedy(Weights(order[..i]), a, n)
      invariant forall j | 0 <= j < |a| :: a[j] < n
    {
      var into := LightestLane(lanes);
      PackOne(order[..i], a, lanes, order[i], into);
      assert order[..i + 1] == order[..i] + [order[i]];
      lanes := lanes[into := Absorb(lanes[into], order[i])];
      a := a + [into];
    }
    assert order[..|order|] == order;
    ghost var merged := lanes;
    for i := 0 to n
      invariant |lanes| == n
      invariant forall k | 0 <= k < n :: SameLane(lanes[k], merged[k])
    {
      lanes := lanes[i := lanes[i].(paths := Sort(lanes[i].paths))];
    }
  }

  // ---- Check ----

  /** The first overlapping pair of lanes, if any two overlap. */
  method Check(lanes: seq<Lane>) returns (r: Result<(), Error>)
    ensures r.Ok? <==> Disjoint(lanes)
    ensures r.Err? ==> r.error.Overlap? && r.error.i < r.error.j < |lanes| && Overlaps(r.error.a, r.error.b)
    ensures r.Err? ==> r.error.a in lanes[r.error.i].paths && r.error.b in lanes[r.error.j].paths
    ensures r.Err? ==> Earlier(lanes, r.error.i, r.error.j)
  {
    for i := 0 to |lanes|
      invariant Earlier(lanes, i, i + 1)
    {
      for j := i + 1 to |lanes|
        invariant Earlier(lanes, i, j)
      {
        var x, y := lanes[i].paths, lanes[j].paths;
        for k := 0 to |x|
          invariant forall p, q | p in x[..k] && q in y :: !Overlaps(p, q)
        {
          for l := 0 to |y|
            invariant forall q | q in y[..l] :: !Overlaps(x[k], q)
          {
            if Overlaps(x[k], y[l]) {
              assert !Apart(lanes[i], lanes[j]);
              return Err(Overlap(i, j, x[k], y[l]));
            }
          }
          assert y[..|y|] == y && x[..k + 1] == x[..k] + [x[k]];
        }
        assert x[..|x|] == x;
        assert Apart(lanes[i], lanes[j]);
      }
    }
    r := Ok(());
  }

  /** All pairs of lanes that come before lanes i and j in the scan are apart. */
  ghost predicate Earlier(lanes: seq<Lane>, i: nat, j: nat) {
    forall a, b | 0 <= a < b < |lanes| && (a < i || (a == i && b < j)) :: Apart(lanes[a], lanes[b])
  }

  // ---- Split ----

  /** Every task of every lane, with its multiplicity. */
  function Held(lanes: seq<Lane>): multiset<Task> {
    if lanes == [] then multiset{} else Held(lanes[..|lanes| - 1]) + multiset(lanes[|lanes| - 1].tasks)
  }

  function LaneWeight(lanes: seq<Lane>): nat {
    if lanes == [] then 0 else LaneWeight(lanes[..|lanes| - 1]) + lanes[|lanes| - 1].weight
  }

  /** Each path of each task of each lane lies in that lane's scope. */
  ghost predicate Covered(lanes: seq<Lane>) {
    forall l, t, p | l in lanes && t in l.tasks && p in t.paths :: Named(l.paths, p)
  }

  function TaskWeights(tasks: seq<Task>): seq<nat>
    requires forall t | t in tasks :: t.weight >= 0
  {
    seq(|tasks|, i requires 0 <= i < |tasks| => assert tasks[i] in tasks; tasks[i].weight)
  }

  /** c sends each task to one of n lanes and never parts two tasks whose paths overlap. */
  ghost predicate ValidSplit(tasks: seq<Task>, c: seq<nat>, n: nat) {
    && IsAssignment(c, |tasks|, n)
    && forall i, j | 0 <= i < j < |tasks| && SharePath(tasks[i], tasks[j]) :: c[i] == c[j]
  }

  /** No lane exceeds (4n-1)/3n times the heaviest lane of any valid split into n lanes. */
  ghost predicate NearOptimal(tasks: seq<Task>, lanes: seq<Lane>, n: nat)
    requires Weighted(tasks)
  {
    forall c: seq<nat>, cap: nat, k: nat ::
      ValidSplit(tasks, c, n) && Fits(TaskWeights(tasks), c, n, cap) && k < |lanes| ==>
        3 * n * lanes[k].weight <= (4 * n - 1) * cap
  }

  // ---- what a packing of a grouping has ----

  lemma {:induction false} HeldUpdate(lanes: seq<Lane>, i: nat, u: Lane)
    requires i < |lanes|
    ensures Held(lanes[i := Absorb(lanes[i], u)]) == Held(lanes) + multiset(u.tasks)
    ensures LaneWeight(lanes[i := Absorb(lanes[i], u)]) == LaneWeight(lanes) + u.weight
  {
    var m := |lanes| - 1;
    var after := lanes[i := Absorb(lanes[i], u)];
    if i == m {
      assert after[..m] == lanes[..m];
    } else {
      HeldUpdate(lanes[..m], i, u);
      assert after[..m] == lanes[..m][i := Absorb(lanes[i], u)];
    }
  }

  lemma {:induction false} HeldEmpty(lanes: seq<Lane>)
    requires forall k | 0 <= k < |lanes| :: lanes[k] == Lane([], [], 0)
    ensures Held(lanes) == multiset{} && LaneWeight(lanes) == 0
  {
    if lanes != [] { HeldEmpty(lanes[..|lanes| - 1]); }
  }

  lemma {:induction false} HeldSame(lanes: seq<Lane>, want: seq<Lane>)
    requires |lanes| == |want|
    requires forall k | 0 <= k < |lanes| :: lanes[k].tasks == want[k].tasks && lanes[k].weight == want[k].weight
    ensures Held(lanes) == Held(want) && LaneWeight(lanes) == LaneWeight(want)
  {
    if lanes != [] { HeldSame(lanes[..|lanes| - 1], want[..|want| - 1]); }
  }

  function MergedLanes(units: seq<Lane>, a: seq<nat>, n: nat): seq<Lane>
    requires |units| == |a|
  {
    seq(n, k requires 0 <= k < n => Merged(units, a, k))
  }

  /** Sending units to lanes neither drops nor repeats a task, and keeps the weight. */
  lemma {:induction false} MergedHeld(units: seq<Lane>, a: seq<nat>, n: nat)
    requires |units| == |a| && forall i | 0 <= i < |a| :: a[i] < n
    ensures Held(MergedLanes(units, a, n)) == Held(units)
    ensures LaneWeight(MergedLanes(units, a, n)) == LaneWeight(units)
  {
    if units == [] {
      HeldEmpty(MergedLanes(units, a, n));
    } else {
      var m := |units| - 1;
      var before := MergedLanes(units[..m], a[..m], n);
      MergedHeld(units[..m], a[..m], n);
      assert units == units[..m] + [units[m]] && a == a[..m] + [a[m]];
      forall k: nat | k < n { MergedAppend(units[..m], a[..m], units[m], a[m], k); }
      assert MergedLanes(units, a, n) == before[a[m] := Absorb(before[a[m]], units[m])];
      HeldUpdate(before, a[m], units[m]);
    }
  }

  lemma {:induction false} HeldFront(u: Lane, s: seq<Lane>)
    ensures Held([u] + s) == multiset(u.tasks) + Held(s) && LaneWeight([u] + s) == u.weight + LaneWeight(s)
  {
    if s == [] {
      assert [u] + s == [u] && [u][..0] == [];
    } else {
      var all, before := [u] + s, s[..|s| - 1];
      HeldFront(u, before);
      assert all[..|all| - 1] == [u] + before;
      HeldLast(all);
      HeldLast(s);
    }
  }

  lemma HeldLast(s: seq<Lane>)
    requires s != []
    ensures Held(s) == Held(s[..|s| - 1]) + multiset(s[|s| - 1].tasks)
    ensures LaneWeight(s) == LaneWeight(s[..|s| - 1]) + s[|s| - 1].weight
  {
  }

  lemma {:induction false} PlaceHeld(u: Lane, s: seq<Lane>)
    ensures Held(Place(u, s)) == multiset(u.tasks) + Held(s) && LaneWeight(Place(u, s)) == u.weight + LaneWeight(s)
  {
    if s == [] || u.weight >= s[0].weight {
      HeldFront(u, s);
    } else {
      PlaceHeld(u, s[1..]);
      HeldSplit(s);
      HeldFront(s[0], Place(u, s[1..]));
    }
  }

  lemma HeldSplit(s: seq<Lane>)
    requires s != []
    ensures Held(s) == multiset(s[0].tasks) + Held(s[1..]) && LaneWeight(s) == s[0].weight + LaneWeight(s[1..])
  {
    HeldFront(s[0], s[1..]);
    assert s == [s[0]] + s[1..];
  }

  lemma WeightsFront(u: Lane, s: seq<Lane>)
    ensures multiset(Weights([u] + s)) == multiset{u.weight} + multiset(Weights(s))
  {
    assert Weights([u] + s) == [u.weight] + Weights(s);
  }

  lemma {:induction false} PlaceWeights(u: Lane, s: seq<Lane>)
    ensures multiset(Weights(Place(u, s))) == multiset{u.weight} + multiset(Weights(s))
  {
    if s == [] || u.weight >= s[0].weight {
      WeightsFront(u, s);
    } else {
      PlaceWeights(u, s[1..]);
      assert s == [s[0]] + s[1..];
      WeightsFront(s[0], s[1..]);
      WeightsFront(s[0], Place(u, s[1..]));
    }
  }

  lemma {:induction false} HeaviestFirstHeld(units: seq<Lane>)
    ensures Held(HeaviestFirst(units)) == Held(units) && LaneWeight(HeaviestFirst(units)) == LaneWeight(units)
  {
    if units != [] {
      HeaviestFirstHeld(units[1..]);
      PlaceHeld(units[0], HeaviestFirst(units[1..]));
      HeldSplit(units);
    }
  }

  lemma {:induction false} HeaviestFirstWeights(units: seq<Lane>)
    ensures multiset(Weights(HeaviestFirst(units))) == multiset(Weights(units))
  {
    if units != [] {
      HeaviestFirstWeights(units[1..]);
      PlaceWeights(units[0], HeaviestFirst(units[1..]));
      WeightsFront(units[0], units[1..]);
      assert units == [units[0]] + units[1..];
    }
  }

  /** Each task as a lane of its own. */
  function TaskLanes(tasks: seq<Task>): seq<Lane>
    requires forall t | t in tasks :: t.weight >= 0
  {
    seq(|tasks|, i requires 0 <= i < |tasks| => assert tasks[i] in tasks; Lane([tasks[i]], [], tasks[i].weight))
  }

  lemma {:induction false} TaskLanesHeld(tasks: seq<Task>)
    requires Weighted(tasks)
    ensures Held(TaskLanes(tasks)) == multiset(tasks) && LaneWeight(TaskLanes(tasks)) == TotalWeight(tasks)
  {
    if tasks != [] {
      var m := |tasks| - 1;
      TaskLanesHeld(tasks[..m]);
      TaskLanesLast(tasks);
      HeldLast(TaskLanes(tasks));
      assert tasks == tasks[..m] + [tasks[m]];
    }
  }

  lemma TaskLanesLast(tasks: seq<Task>)
    requires Weighted(tasks) && tasks != []
    ensures var m, lanes := |tasks| - 1, TaskLanes(tasks);
      |lanes| == |tasks| && lanes[..m] == TaskLanes(tasks[..m]) && lanes[m] == Lane([tasks[m]], [], tasks[m].weight)
  {
  }

  lemma {:induction false} MergedMembers(tasks: seq<Task>, tag: seq<nat>, u: nat)
    requires Weighted(tasks) && |tag| == |tasks|
    ensures Merged(TaskLanes(tasks), tag, u).tasks == Members(tasks, tag, u)
    ensures Merged(TaskLanes(tasks), tag, u).weight == TotalWeight(Members(tasks, tag, u))
  {
    if tasks != [] {
      var m := |tasks| - 1;
      MergedMembers(tasks[..m], tag[..m], u);
      assert TaskLanes(tasks)[..m] == TaskLanes(tasks[..m]);
      TotalAppend(Members(tasks[..m], tag[..m], u), tasks[m]);
    }
  }

  /** Every task ends in exactly one lane, and the lanes weigh what the tasks do. */
  lemma SplitPartitions(tasks: seq<Task>, units: seq<Lane>, unitOf: seq<nat>, lanes: seq<Lane>, n: nat, a: seq<nat>)
    requires Weighted(tasks) && IsGrouping(tasks, units, unitOf) && IsPacking(units, n, lanes, a)
    ensures Held(lanes) == multiset(tasks) && LaneWeight(lanes) == TotalWeight(tasks)
  {
    var order := HeaviestFirst(units);
    HeldSame(lanes, MergedLanes(order, a, |lanes|));
    MergedHeld(order, a, |lanes|);
    HeaviestFirstHeld(units);
    HeaviestFirstWeights(units);
    var gathered := MergedLanes(TaskLanes(tasks), unitOf, |units|);
    forall u: nat | u < |units| ensures gathered[u].tasks == units[u].tasks && gathered[u].weight == units[u].weight {
      MergedMembers(tasks, unitOf, u);
    }
    HeldSame(units, gathered);
    MergedHeld(TaskLanes(tasks), unitOf, |units|);
    TaskLanesHeld(tasks);
  }

  lemma {:induction false} MembersHolds(tasks: seq<Task>, tag: seq<nat>, u: nat, t: Task)
    requires |tag| == |tasks|
    ensures t in Members(tasks, tag, u) <==> exists i :: 0 <= i < |tasks| && tag[i] == u && tasks[i] == t
  {
    if tasks != [] { MembersHolds(tasks[..|tasks| - 1], tag[..|tag| - 1], u, t); }
  }

  lemma UnitsDisjoint(tasks: seq<Task>, units: seq<Lane>, unitOf: seq<nat>)
    requires IsGrouping(tasks, units, unitOf)
    ensures Disjoint(units)
  {
    forall u, v, p, q | 0 <= u < v < |units| && p in units[u].paths && q in units[v].paths ensures !Overlaps(p, q) {
      if Overlaps(p, q) {
        var i := PathOwner(tasks, units, unitOf, u, p);
        var j := PathOwner(tasks, units, unitOf, v, q);
        LinkedStep(tasks, i, j);
        assert false;
      }
    }
  }

  lemma PathOwner(tasks: seq<Task>, units: seq<Lane>, unitOf: seq<nat>, u: nat, p: string) returns (i: nat)
    requires IsGrouping(tasks, units, unitOf) && u < |units| && p in units[u].paths
    ensures i < |tasks| && unitOf[i] == u && p in tasks[i].paths
  {
    assert IsUnit(units[u], Members(tasks, unitOf, u));
    ScopeCovers(units[u].tasks);
    var t :| t in units[u].tasks && p in t.paths;
    MembersHolds(tasks, unitOf, u, t);
    i :| 0 <= i < |tasks| && unitOf[i] == u && tasks[i] == t;
  }

  lemma SplitDisjoint(tasks: seq<Task>, units: seq<Lane>, unitOf: seq<nat>, lanes: seq<Lane>, n: nat, a: seq<nat>)
    requires IsGrouping(tasks, units, unitOf) && IsPacking(units, n, lanes, a)
    ensures Disjoint(lanes)
  {
    var order := HeaviestFirst(units);
    UnitsDisjoint(tasks, units, unitOf);
    HeaviestFirstDisjoint(units);
    forall k: nat, l: nat, p, q | k < l < |lanes| && p in lanes[k].paths && q in lanes[l].paths
      ensures !Overlaps(p, q)
    {
      var i := UnitOf(order, a, k, lanes[k], p);
      var j := UnitOf(order, a, l, lanes[l], q);
      if j < i { ApartSymmetric(order[j], order[i]); }
      assert Apart(order[i], order[j]);
    }
  }

  /** Each path of a lane comes from a unit sent to it. */
  lemma UnitOf(order: seq<Lane>, a: seq<nat>, k: nat, lane: Lane, p: string) returns (i: nat)
    requires |a| == |order| && SameLane(lane, Merged(order, a, k)) && p in lane.paths
    ensures i < |order| && a[i] == k && p in order[i].paths
  {
    SameElements(lane.paths, Merged(order, a, k).paths);
    MergedPaths(order, a, k, p);
    i :| 0 <= i < |order| && a[i] == k && p in order[i].paths;
  }

  lemma SplitCovered(tasks: seq<Task>, units: seq<Lane>, unitOf: seq<nat>, lanes: seq<Lane>, n: nat, a: seq<nat>)
    requires IsGrouping(tasks, units, unitOf) && IsPacking(units, n, lanes, a)
    ensures Covered(lanes)
  {
    forall l, t, p | l in lanes && t in l.tasks && p in t.paths ensures Named(l.paths, p) {
      var k: nat :| k < |lanes| && lanes[k] == l;
      var order := HeaviestFirst(units);
      MergedTasks(order, a, k, t);
      var i: nat :| i < |order| && a[i] == k && t in order[i].tasks;
      UnitCovers(tasks, units, unitOf, i, t, p);
      var q :| q in order[i].paths && Covers(q, p);
      LaneNames(order, a, k, i, l, q);
    }
  }

  lemma LaneNames(order: seq<Lane>, a: seq<nat>, k: nat, i: nat, l: Lane, q: string)
    requires |a| == |order| && i < |order| && a[i] == k && q in order[i].paths && SameLane(l, Merged(order, a, k))
    ensures q in l.paths
  {
    MergedPaths(order, a, k, q);
    SameElements(l.paths, Merged(order, a, k).paths);
  }

  lemma UnitCovers(tasks: seq<Task>, units: seq<Lane>, unitOf: seq<nat>, i: nat, t: Task, p: string)
    requires IsGrouping(tasks, units, unitOf) && i < |units|
    requires t in HeaviestFirst(units)[i].tasks && p in t.paths
    ensures Named(HeaviestFirst(units)[i].paths, p)
  {
    OrderOnly(units, i);
    UnitScoped(tasks, units, unitOf, HeaviestFirst(units)[i], p);
  }

  /** Ordering the units makes no new one. */
  lemma OrderOnly(units: seq<Lane>, i: nat)
    requires i < |units|
    ensures HeaviestFirst(units)[i] in units
  {
    SameElements(HeaviestFirst(units), units);
  }

  lemma UnitScoped(tasks: seq<Task>, units: seq<Lane>, unitOf: seq<nat>, unit: Lane, p: string)
    requires IsGrouping(tasks, units, unitOf) && unit in units && exists t :: t in unit.tasks && p in t.paths
    ensures Named(unit.paths, p)
  {
    var u: nat :| u < |units| && units[u] == unit;
    assert IsUnit(units[u], Members(tasks, unitOf, u));
    ScopeCovers(unit.tasks);
  }

  /** A valid split sends the whole of each unit to one lane. */
  lemma UnitLanes(tasks: seq<Task>, units: seq<Lane>, unitOf: seq<nat>, c: seq<nat>, n: nat) returns (b: seq<nat>)
    requires IsGrouping(tasks, units, unitOf) && ValidSplit(tasks, c, n)
    ensures IsAssignment(b, |units|, n) && forall i | 0 <= i < |tasks| :: c[i] == b[unitOf[i]]
  {
    b := [];
    for u := 0 to |units|
      invariant |b| == u && forall v | 0 <= v < u :: b[v] < n
      invariant forall i | 0 <= i < |tasks| && unitOf[i] < u :: c[i] == b[unitOf[i]]
    {
      assert u in unitOf;
      var i :| 0 <= i < |unitOf| && unitOf[i] == u;
      forall j | 0 <= j < |tasks| && unitOf[j] == u ensures c[j] == c[i] {
        assert Linked(tasks, i, j);
        var chain :| Joins(tasks, chain, i, j);
        ChainAgrees(tasks, c, chain);
      }
      b := b + [c[i]];
    }
  }

  lemma SplitNearOptimal(tasks: seq<Task>, units: seq<Lane>, unitOf: seq<nat>, lanes: seq<Lane>, n: nat, a: seq<nat>)
    requires n >= 1 && Weighted(tasks) && IsGrouping(tasks, units, unitOf) && IsPacking(units, n, lanes, a)
    ensures NearOptimal(tasks, lanes, n)
  {
    forall c: seq<nat>, cap: nat, k: nat
      | ValidSplit(tasks, c, n) && Fits(TaskWeights(tasks), c, n, cap) && k < |lanes|
      ensures 3 * n * lanes[k].weight <= (4 * n - 1) * cap
    {
      var b := UnitLanes(tasks, units, unitOf, c, n);
      UnitLoads(tasks, units, unitOf, b, c, n);
      LaneNearOptimal(units, lanes, n, a, b, cap, k);
    }
  }

  /** A lane of a packing against any assignment of the units it packs. */
  lemma LaneNearOptimal(units: seq<Lane>, lanes: seq<Lane>, n: nat, a: seq<nat>, b: seq<nat>, cap: nat, k: nat)
    requires n >= 1 && IsPacking(units, n, lanes, a) && k < |lanes|
    requires IsAssignment(b, |units|, n) && Fits(Weights(units), b, n, cap)
    ensures 3 * n * lanes[k].weight <= (4 * n - 1) * cap
  {
    var order := HeaviestFirst(units);
    HeaviestFirstSorts(units);
    HeaviestFirstWeights(units);
    var b' := Reassign(Weights(units), b, Weights(order), n);
    GreedyBound(Weights(order), a, n, b', cap);
    MergedWeight(order, a, k);
    assert SameLane(lanes[k], Merged(order, a, k));
    assert lanes[k].weight == Load(Weights(order), a, k);
  }

  lemma UnitLoads(tasks: seq<Task>, units: seq<Lane>, unitOf: seq<nat>, b: seq<nat>, c: seq<nat>, n: nat)
    requires Weighted(tasks) && IsGrouping(tasks, units, unitOf)
    requires IsAssignment(b, |units|, n) && IsAssignment(c, |tasks|, n)
    requires forall i | 0 <= i < |tasks| :: c[i] == b[unitOf[i]]
    ensures forall k: nat | k < n :: Load(Weights(units), b, k) == Load(TaskWeights(tasks), c, k)
  {
    assert Weights(TaskLanes(tasks)) == TaskWeights(tasks);
    forall u: nat | u < |units| ensures Weights(units)[u] == Load(TaskWeights(tasks), unitOf, u) {
      assert IsUnit(units[u], Members(tasks, unitOf, u));
      MergedMembers(tasks, unitOf, u);
      MergedWeight(TaskLanes(tasks), unitOf, u);
    }
    forall k: nat | k < n ensures Load(Weights(units), b, k) == Load(TaskWeights(tasks), c, k) {
      Regroup(TaskWeights(tasks), unitOf, Weights(units), b, c, k);
    }
  }

  method Split(tasks: seq<Task>, n: int, clean: string -> string) returns (r: Result<seq<Lane>, Error>)
    ensures n < 1 ==> r == Err(NoLanes(n))
    ensures n >= 1 ==> (r.Ok? <==> forall t | t in tasks :: Scoped(t, clean))
    ensures r.Ok? ==>
      var clean' := seq(|tasks|, i requires 0 <= i < |tasks| => Normal(tasks[i], clean));
      && n >= 1 && |r.value| <= n && (r.value == [] <==> tasks == [])
      && Weighted(clean') && Held(r.value) == multiset(clean') && LaneWeight(r.value) == TotalWeight(clean')
      && Covered(r.value) && Disjoint(r.value) && NearOptimal(clean', r.value, n)
  {
    if n < 1 {
      return Err(NoLanes(n));
    }
    var normal := Normalize(tasks, clean);
    if normal.Err? {
      ghost var i: nat :| FirstUnscoped(tasks, clean, i);
      assert tasks[i] in tasks;
      return Err(normal.error);
    }
    assert normal.value == seq(|tasks|, i requires 0 <= i < |tasks| => Normal(tasks[i], clean));
    if |normal.value| == 0 {
      return Ok([]);
    }
    var units := Group(normal.value);
    ghost var unitOf :| IsGrouping(normal.value, units, unitOf);
    var lanes, a := Pack(units, n);
    SplitPartitions(normal.value, units, unitOf, lanes, n, a);
    SplitDisjoint(normal.value, units, unitOf, lanes, n, a);
    SplitCovered(normal.value, units, unitOf, lanes, n, a);
    SplitNearOptimal(normal.value, units, unitOf, lanes, n, a);
    assert unitOf[0] < |units|;
    r := Ok(lanes);
  }
}
