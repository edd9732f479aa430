/** Grouping tasks whose paths overlap, by union-find with path halving (internal/fanout/group.go). */
module FanoutGroup {
  import opened FanoutPaths

  // ---- what grouping means: chains of overlapping tasks ----

  ghost predicate Chain(tasks: seq<Task>, c: seq<nat>) {
    && c != []
    && (forall i | 0 <= i < |c| :: c[i] < |tasks|)
    && (forall i | 0 < i < |c| :: SharePath(tasks[c[i - 1]], tasks[c[i]]))
  }

  ghost predicate Joins(tasks: seq<Task>, c: seq<nat>, i: nat, j: nat) {
    Chain(tasks, c) && c[0] == i && c[|c| - 1] == j
  }

  /** Tasks i and j are linked by a chain of pairwise path overlaps. */
  ghost predicate Linked(tasks: seq<Task>, i: nat, j: nat) {
    exists c :: Joins(tasks, c, i, j)
  }

  lemma OverlapsSymmetric(tasks: seq<Task>, i: nat, j: nat)
    requires i < |tasks| && j < |tasks| && SharePath(tasks[i], tasks[j])
    ensures SharePath(tasks[j], tasks[i])
  {
    var p, q :| p in tasks[i].paths && q in tasks[j].paths && Overlaps(p, q);
    assert Overlaps(q, p);
  }

  lemma LinkedReflexive(tasks: seq<Task>, i: nat)
    requires i < |tasks|
    ensures Linked(tasks, i, i)
  {
    assert Joins(tasks, [i], i, i);
  }

  lemma LinkedStep(tasks: seq<Task>, i: nat, j: nat)
    requires i < |tasks| && j < |tasks| && SharePath(tasks[i], tasks[j])
    ensures Linked(tasks, i, j)
  {
    assert Joins(tasks, [i, j], i, j);
  }

  lemma LinkedTransitive(tasks: seq<Task>, i: nat, j: nat, k: nat)
    requires Linked(tasks, i, j) && Linked(tasks, j, k)
    ensures Linked(tasks, i, k)
  {
    var c :| Joins(tasks, c, i, j);
    var d :| Joins(tasks, d, j, k);
    assert Joins(tasks, c + d[1..], i, k);
  }

  lemma LinkedSymmetric(tasks: seq<Task>, i: nat, j: nat)
    requires Linked(tasks, i, j)
    ensures Linked(tasks, j, i)
  {
    var c :| Joins(tasks, c, i, j);
    LinkedBackwards(tasks, c);
  }

  lemma {:induction false} LinkedBackwards(tasks: seq<Task>, c: seq<nat>)
    requires Chain(tasks, c)
    ensures Linked(tasks, c[|c| - 1], c[0])
  {
    var m := |c| - 1;
    LinkedReflexive(tasks, c[0]);
    if m > 0 {
      LinkedBackwards(tasks, c[..m]);
      OverlapsSymmetric(tasks, c[m - 1], c[m]);
      LinkedStep(tasks, c[m], c[m - 1]);
      LinkedTransitive(tasks, c[m], c[m - 1], c[0]);
    }
  }

  /** A labelling that agrees across every overlap agrees along every chain. */
  lemma {:induction false} ChainAgrees(tasks: seq<Task>, tag: seq<nat>, c: seq<nat>)
    requires |tag| == |tasks| && Chain(tasks, c)
    requires forall i, j | 0 <= i < j < |tasks| && SharePath(tasks[i], tasks[j]) :: tag[i] == tag[j]
    ensures tag[c[0]] == tag[c[|c| - 1]]
  {
    var m := |c| - 1;
    if m > 0 {
      ChainAgrees(tasks, tag, c[..m]);
      OverlapsSymmetric(tasks, c[m - 1], c[m]);
    }
  }

  // ---- the forest ----

  /** parent is a forest: root gives each node's root, and rank falls along every parent link. */
  ghost predicate Forest(parent: seq<nat>, root: seq<nat>, rank: seq<nat>) {
    && |root| == |rank| == |parent|
    && (forall x | 0 <= x < |parent| :: parent[x] < |parent| && root[x] < |parent|)
    && (forall x | 0 <= x < |parent| :: root[parent[x]] == root[x])
    && (forall x | 0 <= x < |parent| :: parent[root[x]] == root[x])
    && (forall x | 0 <= x < |parent| && parent[x] == x :: root[x] == x)
    && (forall x | 0 <= x < |parent| && parent[x] != x :: rank[parent[x]] < rank[x])
  }

  lemma HalveForest(parent: seq<nat>, root: seq<nat>, rank: seq<nat>, i: nat)
    requires Forest(parent, root, rank) && i < |parent| && parent[i] != i
    ensures Forest(parent[i := parent[parent[i]]], root, rank)
  {
    var up := parent[parent[i]];
    assert rank[parent[i]] < rank[i];
    assert up != parent[i] ==> rank[up] < rank[parent[i]];
    assert root[up] == root[parent[i]] == root[i];
    var halved := parent[i := up];
    forall x: nat | x < |halved| ensures LinkedWell(halved, root, rank, x) { assert root[x] != i; }
    Relinked(halved, root, rank);
  }

  /** What a forest asks of one node. */
  ghost predicate LinkedWell(parent: seq<nat>, root: seq<nat>, rank: seq<nat>, x: nat)
    requires |root| == |rank| == |parent| && x < |parent|
  {
    && parent[x] < |parent| && root[x] < |parent| && root[parent[x]] == root[x] && parent[root[x]] == root[x]
    && if parent[x] == x then root[x] == x else rank[parent[x]] < rank[x]
  }

  lemma Relinked(parent: seq<nat>, root: seq<nat>, rank: seq<nat>)
    requires |root| == |rank| == |parent| && forall x: nat | x < |parent| :: LinkedWell(parent, root, rank, x)
    ensures Forest(parent, root, rank)
  {
    forall x: nat | x < |parent|
      ensures parent[x] < |parent| && root[x] < |parent| && root[parent[x]] == root[x] && parent[root[x]] == root[x]
      ensures if parent[x] == x then root[x] == x else rank[parent[x]] < rank[x]
    {
      assert LinkedWell(parent, root, rank, x);
    }
  }

  /** find, with path halving: every other node on the way up is pointed at its grandparent. */
  method Find(parent: array<nat>, start: nat, ghost root: seq<nat>, ghost rank: seq<nat>) returns (i: nat)
    requires start < parent.Length && Forest(parent[..], root, rank)
    modifies parent
    ensures Forest(parent[..], root, rank)
    ensures i == root[start] && parent[i] == i
  {
    i := start;
    while parent[i] != i
      invariant i < parent.Length && Forest(parent[..], root, rank) && root[i] == root[start]
      decreases rank[i]
    {
      assert rank[parent[i]] < rank[i];
      HalveForest(parent[..], root, rank, i);
      ghost var after := parent[..][i := parent[parent[i]]];
      parent[i] := parent[parent[i]];
      assert parent[..] == after;
      i := parent[i];
    }
  }

  /** Hanging root ri under root rj keeps a forest, whose ranks are lifted over ri's whole tree. */
  ghost function JoinedRoot(root: seq<nat>, ri: nat, rj: nat): seq<nat> {
    seq(|root|, x requires 0 <= x < |root| => if root[x] == ri then rj else root[x])
  }

  ghost function JoinedRank(root: seq<nat>, rank: seq<nat>, ri: nat, rj: nat): seq<nat>
    requires |root| == |rank| && rj < |rank|
  {
    seq(|rank|, x requires 0 <= x < |rank| =>
      if root[x] == ri && ri != rj then rank[x] + rank[rj] + 1 else rank[x])
  }

  lemma JoinForest(parent: seq<nat>, root: seq<nat>, rank: seq<nat>, ri: nat, rj: nat)
    requires Forest(parent, root, rank) && ri < |parent| && rj < |parent|
    requires parent[ri] == ri && parent[rj] == rj
    ensures Forest(parent[ri := rj], JoinedRoot(root, ri, rj), JoinedRank(root, rank, ri, rj))
  {
    var p, r, k := parent[ri := rj], JoinedRoot(root, ri, rj), JoinedRank(root, rank, ri, rj);
    assert root[ri] == ri && root[rj] == rj;
    forall x: nat | x < |p| ensures LinkedWell(p, r, k, x) {
      assert LinkedWell(parent, root, rank, x);
      JoinNode(parent, root, rank, ri, rj, x);
    }
    Relinked(p, r, k);
  }

  lemma JoinNode(parent: seq<nat>, root: seq<nat>, rank: seq<nat>, ri: nat, rj: nat, x: nat)
    requires |root| == |rank| == |parent| && x < |parent| && LinkedWell(parent, root, rank, x)
    requires ri < |parent| && rj < |parent| && root[ri] == parent[ri] == ri && root[rj] == parent[rj] == rj
    ensures LinkedWell(parent[ri := rj], JoinedRoot(root, ri, rj), JoinedRank(root, rank, ri, rj), x)
  {
  }

  /** Nodes share a root only when linked, and all overlaps looked at so far share one. */
  ghost predicate Sound(tasks: seq<Task>, root: seq<nat>) {
    |root| == |tasks| && forall x, y | 0 <= x < |root| && 0 <= y < |root| && root[x] == root[y] :: Linked(tasks, x, y)
  }

  lemma JoinSound(tasks: seq<Task>, root: seq<nat>, i: nat, j: nat)
    requires Sound(tasks, root) && i < |tasks| && j < |tasks| && SharePath(tasks[i], tasks[j])
    ensures Sound(tasks, JoinedRoot(root, root[i], root[j]))
  {
    var after := JoinedRoot(root, root[i], root[j]);
    LinkedStep(tasks, i, j);
    LinkedSymmetric(tasks, i, j);
    forall x, y | 0 <= x < |root| && 0 <= y < |root| && after[x] == after[y] ensures Linked(tasks, x, y) {
      if root[x] != root[y] {
        if root[x] == root[i] {
          LinkedTransitive(tasks, x, i, j);
          LinkedTransitive(tasks, x, j, y);
        } else {
          LinkedTransitive(tasks, x, j, i);
          LinkedTransitive(tasks, x, i, y);
        }
      }
    }
  }

  /** The overlaps between tasks before i, and those of i with tasks before j, share a root. */
  ghost predicate Complete(tasks: seq<Task>, root: seq<nat>, i: nat, j: nat) {
    |root| == |tasks| && forall a, b | 0 <= a < b < |tasks| && (a < i || (a == i && b < j)) ::
      SharePath(tasks[a], tasks[b]) ==> root[a] == root[b]
  }

  /** One join: parent[find(i)] = find(j). */
  method JoinPair(parent: array<nat>, i: nat, j: nat, ghost root: seq<nat>, ghost rank: seq<nat>)
    returns (ghost root': seq<nat>, ghost rank': seq<nat>)
    requires i < parent.Length && j < parent.Length && Forest(parent[..], root, rank)
    modifies parent
    ensures Forest(parent[..], root', rank')
    ensures root' == JoinedRoot(root, root[i], root[j])
  {
    var ri := Find(parent, i, root, rank);
    var rj := Find(parent, j, root, rank);
    JoinForest(parent[..], root, rank, ri, rj);
    ghost var after := parent[..][ri := rj];
    parent[ri] := rj;
    assert parent[..] == after;
    root', rank' := JoinedRoot(root, ri, rj), JoinedRank(root, rank, ri, rj);
  }

  /** Roots link only what overlaps link, and the pairs looked at so far agree. */
  ghost predicate Progress(tasks: seq<Task>, root: seq<nat>, i: nat, j: nat) {
    Sound(tasks, root) && Complete(tasks, root, i, j)
  }

  lemma JoinProgress(tasks: seq<Task>, root: seq<nat>, i: nat, j: nat)
    requires i < j < |tasks| && Progress(tasks, root, i, j)
    ensures SharePath(tasks[i], tasks[j]) ==> Progress(tasks, JoinedRoot(root, root[i], root[j]), i, j + 1)
    ensures !SharePath(tasks[i], tasks[j]) ==> Progress(tasks, root, i, j + 1)
  {
    if SharePath(tasks[i], tasks[j]) {
      JoinSound(tasks, root, i, j);
      JoinComplete(tasks, root, i, j);
    }
  }

  method JoinIfShared(tasks: seq<Task>, parent: array<nat>, i: nat, j: nat, ghost root: seq<nat>, ghost rank: seq<nat>)
    returns (ghost root': seq<nat>, ghost rank': seq<nat>)
    requires i < j < |tasks| == parent.Length && Forest(parent[..], root, rank)
    requires Progress(tasks, root, i, j)
    modifies parent
    ensures Forest(parent[..], root', rank')
    ensures Progress(tasks, root', i, j + 1)
  {
    JoinProgress(tasks, root, i, j);
    root', rank' := root, rank;
    if SharePath(tasks[i], tasks[j]) {
      root', rank' := JoinPair(parent, i, j, root, rank);
    }
  }

  method Singletons(n: nat) returns (parent: array<nat>, ghost root: seq<nat>, ghost rank: seq<nat>)
    ensures fresh(parent) && parent.Length == n && Forest(parent[..], root, rank)
    ensures forall i | 0 <= i < n :: root[i] == i
  {
    parent := new nat[n](i => i);
    root, rank := seq(n, i => i), seq(n, _ => 0);
  }

  /** Task i against every later task. */
  method JoinRow(tasks: seq<Task>, parent: array<nat>, i: nat, ghost root: seq<nat>, ghost rank: seq<nat>)
    returns (ghost root': seq<nat>, ghost rank': seq<nat>)
    requires i < |tasks| == parent.Length && Forest(parent[..], root, rank)
    requires Progress(tasks, root, i, i + 1)
    modifies parent
    ensures Forest(parent[..], root', rank')
    ensures Progress(tasks, root', i, |tasks|)
  {
    root', rank' := root, rank;
    for j := i + 1 to |tasks|
      invariant Forest(parent[..], root', rank') && Progress(tasks, root', i, j)
    {
      root', rank' := JoinIfShared(tasks, parent, i, j, root', rank');
    }
  }

  /** The pairwise join loop: at the end the roots are the connected components. */
  method Join(tasks: seq<Task>) returns (parent: array<nat>, ghost root: seq<nat>, ghost rank: seq<nat>)
    ensures fresh(parent) && parent.Length == |tasks| && Forest(parent[..], root, rank)
    ensures Components(tasks, root)
  {
    parent, root, rank := Singletons(|tasks|);
    SingletonsSound(tasks, root);
    for i := 0 to |tasks|
      invariant Forest(parent[..], root, rank) && Progress(tasks, root, i, i + 1)
    {
      root, rank := JoinRow(tasks, parent, i, root, rank);
    }
    RootsAreComponents(tasks, root);
  }

  ghost predicate Components(tasks: seq<Task>, root: seq<nat>) {
    |root| == |tasks| &&
    forall x, y | 0 <= x < |tasks| && 0 <= y < |tasks| :: root[x] == root[y] <==> Linked(tasks, x, y)
  }

  lemma SingletonsSound(tasks: seq<Task>, root: seq<nat>)
    requires |root| == |tasks| && forall i | 0 <= i < |root| :: root[i] == i
    ensures Sound(tasks, root)
  {
    forall x | 0 <= x < |tasks| ensures Linked(tasks, x, x) { LinkedReflexive(tasks, x); }
  }

  lemma JoinComplete(tasks: seq<Task>, root: seq<nat>, i: nat, j: nat)
    requires i < j < |tasks| && Complete(tasks, root, i, j)
    ensures Complete(tasks, JoinedRoot(root, root[i], root[j]), i, j + 1)
  {
  }

  lemma RootsAreComponents(tasks: seq<Task>, root: seq<nat>)
    requires Sound(tasks, root) && Complete(tasks, root, |tasks|, |tasks|)
    ensures Components(tasks, root)
  {
    forall x, y | 0 <= x < |tasks| && 0 <= y < |tasks| ensures root[x] == root[y] <==> Linked(tasks, x, y) {
      if Linked(tasks, x, y) {
        var c :| Joins(tasks, c, x, y);
        ChainAgrees(tasks, root, c);
      }
    }
  }

  // ---- the units ----

  /** The tasks labelled u, in their own order. */
  function Members(tasks: seq<Task>, tag: seq<nat>, u: nat): seq<Task>
    requires |tasks| == |tag|
  {
    if tasks == [] then []
    else
      var before := Members(tasks[..|tasks| - 1], tag[..|tag| - 1], u);
      if tag[|tag| - 1] == u then before + [tasks[|tasks| - 1]] else before
  }

  function TotalWeight(tasks: seq<Task>): int {
    if tasks == [] then 0 else TotalWeight(tasks[..|tasks| - 1]) + tasks[|tasks| - 1].weight
  }

  ghost predicate Weighted(tasks: seq<Task>) {
    forall t | t in tasks :: t.weight >= 1
  }

  /** units are the tasks split by unitOf, which labels exactly the connected components. */
  ghost predicate IsGrouping(tasks: seq<Task>, units: seq<Lane>, unitOf: seq<nat>) {
    && |unitOf| == |tasks|
    && (forall i | 0 <= i < |unitOf| :: unitOf[i] < |units|)
    && (forall u: nat | u < |units| :: u in unitOf)
    && (forall u: nat | u < |units| :: IsUnit(units[u], Members(tasks, unitOf, u)))
    && (forall i, j | 0 <= i < |tasks| && 0 <= j < |tasks| :: unitOf[i] == unitOf[j] <==> Linked(tasks, i, j))
  }

  lemma {:induction false} MembersAppend(tasks: seq<Task>, tag: seq<nat>, i: nat, u: nat)
    requires |tasks| == |tag| && i < |tasks|
    ensures Members(tasks[..i + 1], tag[..i + 1], u)
         == Members(tasks[..i], tag[..i], u) + if tag[i] == u then [tasks[i]] else []
  {
    assert tasks[..i + 1][..i] == tasks[..i] && tag[..i + 1][..i] == tag[..i];
  }

  lemma TotalAppend(tasks: seq<Task>, t: Task)
    ensures TotalWeight(tasks + [t]) == TotalWeight(tasks) + t.weight
  {
    assert (tasks + [t])[..|tasks|] == tasks;
  }

  lemma {:induction false} TotalPositive(tasks: seq<Task>)
    requires Weighted(tasks)
    ensures TotalWeight(tasks) >= |tasks|
  {
    if tasks != [] { TotalPositive(tasks[..|tasks| - 1]); }
  }

  lemma {:induction false} MembersWeighted(tasks: seq<Task>, tag: seq<nat>, u: nat)
    requires |tasks| == |tag| && Weighted(tasks)
    ensures Weighted(Members(tasks, tag, u))
  {
    if tasks != [] { MembersWeighted(tasks[..|tasks| - 1], tag[..|tag| - 1], u); }
  }

  /** byRoot holds, for each root among the first i tasks, those tasks under it; roots lists the
      roots in the order they first appear. */
  ghost predicate Gathered(tasks: seq<Task>, root: seq<nat>, byRoot: map<nat, Lane>, roots: seq<nat>)
    requires |tasks| == |root|
  {
    && Listed(root, byRoot.Keys, roots)
    && (forall r | r in byRoot :: byRoot[r].tasks == Members(tasks, root, r))
    && (forall r | r in byRoot :: byRoot[r].weight == TotalWeight(byRoot[r].tasks))
  }

  /** roots lists what is in root, each once. */
  ghost predicate Listed(root: seq<nat>, met: set<nat>, roots: seq<nat>) {
    && (forall k | 0 <= k < |roots| :: roots[k] in met)
    && (forall k | 0 <= k < |roots| :: roots[k] in root)
    && (forall j, k | 0 <= j < k < |roots| :: roots[j] != roots[k])
    && (forall r | r in met :: r in roots)
    && (forall x | 0 <= x < |root| :: root[x] in met)
  }

  lemma ListedNext(root: seq<nat>, met: set<nat>, roots: seq<nat>, r: nat)
    requires Listed(root, met, roots)
    ensures Listed(root + [r], met + {r}, if r in met then roots else roots + [r])
  {
  }

  lemma {:induction false} NoMembers(tasks: seq<Task>, root: seq<nat>, r: nat)
    requires |tasks| == |root| && r !in root
    ensures Members(tasks, root, r) == []
  {
    if tasks != [] { NoMembers(tasks[..|tasks| - 1], root[..|root| - 1], r); }
  }

  /** One task added to its root's lane. */
  function AddTask(byRoot: map<nat, Lane>, r: nat, t: Task): map<nat, Lane>
    requires t.weight >= 1
  {
    var lane := if r in byRoot then byRoot[r] else Lane([], [], 0);
    byRoot[r := lane.(tasks := lane.tasks + [t], weight := lane.weight + t.weight)]
  }

  lemma GatherOne(tasks: seq<Task>, root: seq<nat>, byRoot: map<nat, Lane>, roots: seq<nat>, i: nat)
    requires |tasks| == |root| && i < |tasks| && tasks[i].weight >= 1
    requires Gathered(tasks[..i], root[..i], byRoot, roots)
    ensures Gathered(tasks[..i + 1], root[..i + 1], AddTask(byRoot, root[i], tasks[i]),
                     if root[i] in byRoot then roots else roots + [root[i]])
  {
    var r, after := root[i], AddTask(byRoot, root[i], tasks[i]);
    if r !in byRoot { NoMembers(tasks[..i], root[..i], r); }
    forall u | u in after
      ensures after[u].tasks == Members(tasks[..i + 1], root[..i + 1], u)
      ensures after[u].weight == TotalWeight(after[u].tasks)
    {
      MembersAppend(tasks, root, i, u);
      LaneNext(byRoot, r, tasks[i], u);
    }
    assert root[..i + 1] == root[..i] + [r];
    assert after.Keys == byRoot.Keys + {r};
    ListedNext(root[..i], byRoot.Keys, roots, r);
  }

  lemma LaneNext(byRoot: map<nat, Lane>, r: nat, t: Task, u: nat)
    requires t.weight >= 1 && u in AddTask(byRoot, r, t)
    requires forall v | v in byRoot :: byRoot[v].weight == TotalWeight(byRoot[v].tasks)
    ensures var lane, was := AddTask(byRoot, r, t)[u], if u in byRoot then byRoot[u].tasks else [];
      lane.tasks == (if u == r then was + [t] else was) && lane.weight == TotalWeight(lane.tasks)
  {
    TotalAppend(if u in byRoot then byRoot[u].tasks else [], t);
  }

  method Gather(tasks: seq<Task>, parent: array<nat>, ghost root: seq<nat>, ghost rank: seq<nat>)
    returns (byRoot: map<nat, Lane>, roots: seq<nat>)
    requires Weighted(tasks) && parent.Length == |tasks| && Forest(parent[..], root, rank)
    modifies parent
    ensures Gathered(tasks, root, byRoot, roots)
  {
    byRoot, roots := map[], [];
    for i := 0 to |tasks|
      invariant Forest(parent[..], root, rank)
      invariant Gathered(tasks[..i], root[..i], byRoot, roots)
    {
      byRoot, roots := GatherNext(tasks, parent, root, rank, i, byRoot, roots);
    }
    Whole(tasks, root);
  }

  /** One more task joins the unit of its root. */
  method GatherNext(tasks: seq<Task>, parent: array<nat>, ghost root: seq<nat>, ghost rank: seq<nat>, i: nat,
                    byRoot: map<nat, Lane>, roots: seq<nat>)
    returns (byRoot': map<nat, Lane>, roots': seq<nat>)
    requires Weighted(tasks) && parent.Length == |tasks| && Forest(parent[..], root, rank) && i < |tasks|
    requires Gathered(tasks[..i], root[..i], byRoot, roots)
    modifies parent
    ensures Forest(parent[..], root, rank) && Gathered(tasks[..i + 1], root[..i + 1], byRoot', roots')
  {
    var r := Find(parent, i, root, rank);
    GatherOne(tasks, root, byRoot, roots, i);
    roots' := if r in byRoot then roots else roots + [r];
    byRoot' := AddTask(byRoot, r, tasks[i]);
  }

  lemma Whole(tasks: seq<Task>, root: seq<nat>)
    requires |tasks| == |root|
    ensures tasks[..|tasks|] == tasks && root[..|tasks|] == root
  {
  }

  /** The lane of one root, with its scope. */
  ghost predicate IsUnit(unit: Lane, members: seq<Task>) {
    unit.tasks == members && unit.weight == TotalWeight(members) && unit.paths == Scope(members)
  }

  method BuildUnits(tasks: seq<Task>, byRoot: map<nat, Lane>, roots: seq<nat>, ghost root: seq<nat>)
    returns (units: seq<Lane>)
    requires |root| == |tasks| && Gathered(tasks, root, byRoot, roots)
    ensures |units| == |roots|
    ensures forall u: nat | u < |units| :: IsUnit(units[u], Members(tasks, root, roots[u]))
  {
    units := [];
    for k := 0 to |roots|
      invariant |units| == k && Built(tasks, root, roots, units)
    {
      var unit := BuildUnit(byRoot[roots[k]]);
      BuiltNext(tasks, root, roots, units, unit);
      units := units + [unit];
    }
  }

  /** The units of the first roots. */
  ghost predicate Built(tasks: seq<Task>, root: seq<nat>, roots: seq<nat>, units: seq<Lane>)
    requires |root| == |tasks|
  {
    |units| <= |roots| && forall u: nat | u < |units| :: IsUnit(units[u], Members(tasks, root, roots[u]))
  }

  lemma BuiltNext(tasks: seq<Task>, root: seq<nat>, roots: seq<nat>, units: seq<Lane>, unit: Lane)
    requires |root| == |tasks| && Built(tasks, root, roots, units) && |units| < |roots|
    requires IsUnit(unit, Members(tasks, root, roots[|units|]))
    ensures Built(tasks, root, roots, units + [unit])
  {
  }

  method BuildUnit(lane: Lane) returns (unit: Lane)
    requires lane.weight == TotalWeight(lane.tasks)
    ensures IsUnit(unit, lane.tasks)
  {
    var paths := UnionPaths(lane.tasks);
    unit := lane.(paths := paths);
  }

  /** group: one unit per connected component, in the order the components first appear. */
  method Group(tasks: seq<Task>) returns (units: seq<Lane>)
    requires Weighted(tasks)
    ensures exists unitOf :: IsGrouping(tasks, units, unitOf)
  {
    var parent, root, rank := Join(tasks);
    var byRoot, roots := Gather(tasks, parent, root, rank);
    units := BuildUnits(tasks, byRoot, roots, root);
    ghost var unitOf := Positions(root, roots);
    Relabelled(tasks, root, roots, byRoot, units, unitOf);
  }

  lemma Relabelled(tasks: seq<Task>, root: seq<nat>, roots: seq<nat>, byRoot: map<nat, Lane>, units: seq<Lane>,
                   unitOf: seq<nat>)
    requires Components(tasks, root) && Gathered(tasks, root, byRoot, roots) && Places(root, roots, unitOf)
    requires |units| == |roots| && forall u: nat | u < |units| :: IsUnit(units[u], Members(tasks, root, roots[u]))
    ensures IsGrouping(tasks, units, unitOf)
  {
    forall u: nat | u < |units| ensures IsUnit(units[u], Members(tasks, unitOf, u)) && u in unitOf {
      MembersRelabel(tasks, root, roots, unitOf, u);
      PlaceUsed(root, roots, unitOf, u);
    }
    PlacesAgree(root, roots, unitOf);
  }

  lemma PlacesAgree(root: seq<nat>, roots: seq<nat>, tag: seq<nat>)
    requires Places(root, roots, tag) && forall j, k | 0 <= j < k < |roots| :: roots[j] != roots[k]
    ensures forall i, j | 0 <= i < |root| && 0 <= j < |root| :: tag[i] == tag[j] <==> root[i] == root[j]
  {
  }

  lemma PlaceUsed(root: seq<nat>, roots: seq<nat>, tag: seq<nat>, u: nat)
    requires Places(root, roots, tag) && forall j, k | 0 <= j < k < |roots| :: roots[j] != roots[k]
    requires u < |roots| && roots[u] in root
    ensures u in tag
  {
    var x :| 0 <= x < |root| && root[x] == roots[u];
    assert tag[x] == u;
  }

  ghost predicate Places(root: seq<nat>, roots: seq<nat>, tag: seq<nat>) {
    && |tag| == |root|
    && (forall i | 0 <= i < |root| :: tag[i] < |roots| && roots[tag[i]] == root[i])
  }

  ghost method Positions(root: seq<nat>, roots: seq<nat>) returns (tag: seq<nat>)
    requires forall x | 0 <= x < |root| :: root[x] in roots
    ensures Places(root, roots, tag)
  {
    tag := [];
    for i := 0 to |root|
      invariant Places(root[..i], roots, tag)
    {
      var k: nat :| k < |roots| && roots[k] == root[i];
      tag := tag + [k];
    }
    assert root[..|root|] == root;
  }

  lemma {:induction false} MembersRelabel(tasks: seq<Task>, root: seq<nat>, roots: seq<nat>, tag: seq<nat>, u: nat)
    requires |tasks| == |root| && Places(root, roots, tag) && u < |roots|
    requires forall j, k | 0 <= j < k < |roots| :: roots[j] != roots[k]
    ensures Members(tasks, root, roots[u]) == Members(tasks, tag, u)
  {
    var m := |tasks| - 1;
    if tasks != [] {
      MembersRelabel(tasks[..m], root[..m], roots, tag[..m], u);
    }
  }
}
