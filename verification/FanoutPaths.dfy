/** Tasks, lanes and the overlap of paths (internal/fanout/fanout.go). */
module FanoutPaths {
  import opened Strings

  datatype Task = Task(name: string, paths: seq<string>, weight: int)

  datatype Lane = Lane(tasks: seq<Task>, paths: seq<string>, weight: nat)

  const SEPARATOR: char := '/'

  /** b starts with a followed by the separator: it names something strictly inside directory a. */
  predicate Beneath(a: string, b: string) {
    a <= b && |a| < |b| && b[|a|] == SEPARATOR
  }

  predicate Overlaps(a: string, b: string) {
    a == b || Beneath(a, b) || Beneath(b, a)
  }

  /** Path p is in the scope that path q names. */
  predicate Covers(q: string, p: string) {
    q == p || Beneath(q, p)
  }

  /** A directory is documented to overlap everything beneath it. The file system root does not: the
      only cleaned path it overlaps is itself. */
  lemma RootOverlapsOnlyItself(x: string)
    requires x != "" ==> x[0] != SEPARATOR
    ensures Overlaps("/", "/" + x) <==> x == ""
  {
    assert ("/" + x)[1..] == x;
    assert Overlaps("/", "/");
  }

  /** The cleaned path of what a directory names x. */
  function Inside(d: string, x: string): string {
    if d == "/" then "/" + x else d + "/" + x
  }

  /** Every other cleaned directory does overlap what it holds. */
  lemma OverlapsInside(d: string, x: string)
    requires x != "" && x[0] != SEPARATOR
    ensures Overlaps(d, Inside(d, x)) <==> d != "/"
  {
    if d == "/" {
      RootOverlapsOnlyItself(x);
    } else {
      assert Inside(d, x)[..|d|] == d;
    }
  }

  predicate SharePath(a: Task, b: Task) {
    exists p, q | p in a.paths && q in b.paths :: Overlaps(p, q)
  }

  function AllPaths(tasks: seq<Task>): seq<string> {
    if tasks == [] then [] else AllPaths(tasks[..|tasks| - 1]) + tasks[|tasks| - 1].paths
  }

  lemma {:induction false} AllPathsHolds(tasks: seq<Task>, p: string)
    ensures p in AllPaths(tasks) <==> exists t | t in tasks :: p in t.paths
  {
    if tasks != [] {
      AllPathsHolds(tasks[..|tasks| - 1], p);
      assert tasks == tasks[..|tasks| - 1] + [tasks[|tasks| - 1]];
    }
  }

  // ---- the scope of a lane ----

  /** What the scan of a sorted path list keeps: a path is dropped when it overlaps the one kept last. */
  function Kept(sorted: seq<string>): seq<string> {
    if sorted == [] then []
    else
      var r, p := Kept(sorted[..|sorted| - 1]), sorted[|sorted| - 1];
      if r != [] && Overlaps(r[|r| - 1], p) then r else r + [p]
  }

  function Scope(tasks: seq<Task>): seq<string> {
    Kept(Sort(AllPaths(tasks)))
  }

  /** unionPaths: collect, sort, and keep what the previous kept path does not overlap. */
  method UnionPaths(tasks: seq<Task>) returns (out: seq<string>)
    ensures out == Scope(tasks)
    ensures forall p | p in out :: exists t | t in tasks :: p in t.paths
    ensures forall t, p | t in tasks && p in t.paths :: Named(out, p)
  {
    var all: seq<string> := [];
    for i := 0 to |tasks|
      invariant all == AllPaths(tasks[..i])
    {
      assert tasks[..i + 1][..i] == tasks[..i];
      all := all + tasks[i].paths;
    }
    assert tasks[..|tasks|] == tasks;
    all := Sort(all);
    out := [];
    for i := 0 to |all|
      invariant out == Kept(all[..i])
    {
      assert all[..i + 1][..i] == all[..i];
      if out != [] && Overlaps(out[|out| - 1], all[i]) {
        continue;
      }
      out := out + [all[i]];
    }
    assert all[..|all|] == all;
    ScopeCovers(tasks);
  }

  lemma BeneathOrder(p: string, q: string)
    requires Beneath(p, q)
    ensures p != q && LexLe(p, q) && !LexLe(q, p)
  {
    assert p <= q;
    LexPrefix(p, q);
    if LexLe(q, p) { LexAntisymmetric(p, q); }
  }

  ghost predicate Named(scope: seq<string>, p: string) {
    exists q | q in scope :: Covers(q, p)
  }

  lemma {:induction false} KeptFrom(s: seq<string>)
    ensures forall p | p in Kept(s) :: p in s
    ensures s != [] ==> Kept(s) != []
  {
    if s != [] {
      KeptFrom(s[..|s| - 1]);
      assert s == s[..|s| - 1] + [s[|s| - 1]];
    }
  }

  lemma LastCovers(s: seq<string>)
    requires Sorted(s) && s != []
    ensures Kept(s) != [] && Covers(Kept(s)[|Kept(s)| - 1], s[|s| - 1])
  {
    var m := |s| - 1;
    var r, p := Kept(s[..m]), s[m];
    KeptFrom(s[..m]);
    if r != [] {
      var last := r[|r| - 1];
      assert last in s[..m];
      var i :| 0 <= i < m && s[i] == last;
      if Beneath(p, last) { BeneathOrder(p, last); }
    }
  }

  lemma {:induction false} KeptNames(s: seq<string>, p: string)
    requires Sorted(s) && p in s
    ensures Named(Kept(s), p)
  {
    var m := |s| - 1;
    if p == s[m] {
      LastCovers(s);
    } else {
      assert s == s[..m] + [s[m]];
      KeptNames(s[..m], p);
      var q :| q in Kept(s[..m]) && Covers(q, p);
      KeptPrefix(s, m);
      assert q in Kept(s);
    }
  }

  lemma {:induction false} KeptPrefix(s: seq<string>, i: nat)
    requires i <= |s|
    ensures Kept(s[..i]) <= Kept(s)
  {
    if i == |s| {
      assert s[..i] == s;
    } else {
      KeptPrefix(s[..|s| - 1], i);
      assert s[..|s| - 1][..i] == s[..i];
    }
  }

  /** A lane's scope names every path of its tasks, and nothing its tasks do not name. */
  lemma ScopeCovers(tasks: seq<Task>)
    ensures forall p | p in Scope(tasks) :: exists t | t in tasks :: p in t.paths
    ensures forall t, p | t in tasks && p in t.paths :: Named(Scope(tasks), p)
  {
    var all := AllPaths(tasks);
    SortSorts(all);
    KeptFrom(Sort(all));
    SameElements(all, Sort(all));
    forall p | p in Scope(tasks) ensures exists t | t in tasks :: p in t.paths { AllPathsHolds(tasks, p); }
    forall t, p | t in tasks && p in t.paths ensures Named(Scope(tasks), p) {
      AllPathsHolds(tasks, p);
      KeptNames(Sort(all), p);
    }
  }

  // ---- when the scope is the shortest one ----

  ghost predicate Minimal(scope: seq<string>) {
    forall p, q | p in scope && q in scope :: !Beneath(p, q)
  }

  ghost predicate Topmost(p: string, all: seq<string>) {
    p in all && forall t | t in all :: !Beneath(t, p)
  }

  /** Some path sorts between a topmost directory and a path inside it without lying inside it, as
      "a-b" does between "a" and "a/c". */
  ghost predicate Interrupted(all: seq<string>) {
    exists p, q, r :: Interrupts(all, p, q, r)
  }

  ghost predicate Interrupts(all: seq<string>, p: string, q: string, r: string) {
    Topmost(p, all) && q in all && r in all && Beneath(p, r) && !Covers(p, q) && LexLe(p, q) && LexLe(q, r)
  }

  /** unionPaths is documented to give the shortest set that still names all of the lane's work. It
      does exactly when no path interrupts a directory's contents in byte order. */
  lemma ScopeMinimal(tasks: seq<Task>)
    ensures Minimal(Scope(tasks)) <==> !Interrupted(AllPaths(tasks))
  {
    var all := AllPaths(tasks);
    var s := Sort(all);
    SortSorts(all);
    SameElements(all, s);
    if p, q, r :| Interrupts(all, p, q, r) {
      InterruptedKeepsInner(s, p, q, r);
    }
    if !Minimal(Kept(s)) {
      var p0, r0 :| p0 in Kept(s) && r0 in Kept(s) && Beneath(p0, r0);
      var p, q, r := InnerKeptInterrupted(s, p0, r0);
      assert Interrupts(all, p, q, r);
    }
  }

  /** "a", "a-b" and "a/c" are all kept, although "a" covers "a/c". */
  lemma ScopeNotMinimal()
    ensures Scope([Task("t", ["a", "a-b", "a/c"], 1)]) == ["a", "a-b", "a/c"] && Beneath("a", "a/c")
  {
    var task := Task("t", ["a", "a-b", "a/c"], 1);
    OneTask(task);
    LexPrefix("a", "a-b");
    DashBeforeSlash();
    ScopeOfThree(task, "a", "a-b", "a/c");
  }

  lemma OneTask(task: Task)
    ensures AllPaths([task]) == task.paths
  {
    assert [task][..0] == [] && AllPaths([]) == [];
  }

  lemma DashBeforeSlash()
    ensures LexLe("a-b", "a/c")
  {
    assert LexLe("a-b"[1..], "a/c"[1..]);
  }

  lemma ScopeOfThree(task: Task, x: string, y: string, z: string)
    requires AllPaths([task]) == [x, y, z]
    requires LexLe(x, y) && LexLe(y, z) && !Overlaps(x, y) && !Overlaps(y, z)
    ensures Scope([task]) == [x, y, z]
  {
    LexTransitive(x, y, z);
    SortedStays([x, y, z]);
    KeepThree(x, y, z);
  }

  lemma KeepThree(x: string, y: string, z: string)
    requires !Overlaps(x, y) && !Overlaps(y, z)
    ensures Kept([x, y, z]) == [x, y, z]
  {
    var none: seq<string> := [];
    assert [x, y, z][..2] == [x, y] && [x, y][..1] == [x] && [x][..0] == none;
    assert Kept([x]) == [x] && Kept([x, y]) == [x, y];
  }

  lemma {:induction false} KeptStrict(s: seq<string>)
    requires Sorted(s)
    ensures Sorted(Kept(s))
    ensures forall i, j | 0 <= i < j < |Kept(s)| :: Kept(s)[i] != Kept(s)[j]
    ensures forall i | 0 < i < |Kept(s)| :: !Overlaps(Kept(s)[i - 1], Kept(s)[i])
  {
    if s != [] {
      var m := |s| - 1;
      var r, p := Kept(s[..m]), s[m];
      KeptStrict(s[..m]);
      KeptFrom(s[..m]);
      if r != [] && !Overlaps(r[|r| - 1], p) {
        forall i | 0 <= i < |r| ensures LexLe(r[i], p) && r[i] != p {
          assert r[i] in s[..m] && r[|r| - 1] in s[..m];
          if r[i] == p && i < |r| - 1 { LexAntisymmetric(r[i], r[|r| - 1]); }
        }
      }
    }
  }

  lemma TopmostKept(s: seq<string>, p: string)
    requires Sorted(s) && Topmost(p, s)
    ensures p in Kept(s)
  {
    KeptNames(s, p);
    KeptFrom(s);
  }

  /** In a sorted list a path that comes first in byte order comes first in the list. */
  lemma IndexOrder(s: seq<string>, i: nat, j: nat)
    requires Sorted(s) && i < |s| && j < |s| && s[i] != s[j] && LexLe(s[i], s[j])
    ensures i < j
  {
    if j < i { LexAntisymmetric(s[i], s[j]); }
  }

  /** A topmost path stays kept, and is no longer the last one kept once a path it does not cover
      has been scanned. */
  lemma NoLongerLast(s: seq<string>, jp: nat, jq: nat) returns (ip: nat)
    requires Sorted(s) && jp < jq < |s| && Topmost(s[jp], s) && !Covers(s[jp], s[jq])
    ensures ip < |Kept(s[..jq + 1])| - 1 && Kept(s[..jq + 1])[ip] == s[jp]
  {
    var t := s[..jq + 1];
    assert t[jp] == s[jp] && t[|t| - 1] == s[jq];
    TopmostKept(t, s[jp]);
    LastCovers(t);
    ip :| 0 <= ip < |Kept(t)| && Kept(t)[ip] == s[jp];
  }

  /** Once a path outside directory p is the last one kept, the next path inside p is kept too. */
  lemma InterruptedKeepsInner(s: seq<string>, p: string, q: string, r: string)
    requires Sorted(s) && Interrupts(s, p, q, r)
    ensures !Minimal(Kept(s))
  {
    var jp :| 0 <= jp < |s| && s[jp] == p;
    var jq :| 0 <= jq < |s| && s[jq] == q;
    var jr :| 0 <= jr < |s| && s[jr] == r;
    IndexOrder(s, jp, jq);
    IndexOrder(s, jq, jr);
    var ip := NoLongerLast(s, jp, jq);
    var x := LaterKept(s, jq, jr, ip);
    KeptFrom(s);
    Comparable(p, x, r);
    TopmostKept(s, p);
  }

  /** What is last when r has been scanned comes after what was no longer last before. */
  lemma LaterKept(s: seq<string>, jq: nat, jr: nat, ip: nat) returns (x: string)
    requires Sorted(s) && jq < jr < |s| && ip < |Kept(s[..jq + 1])| - 1
    ensures x in Kept(s) && Covers(x, s[jr]) && x != Kept(s[..jq + 1])[ip]
  {
    var t := s[..jr + 1];
    LastCovers(t);
    x := Kept(t)[|Kept(t)| - 1];
    assert t[..jq + 1] == s[..jq + 1];
    KeptPrefix(t, jq + 1);
    KeptPrefix(s, jr + 1);
    KeptStrict(s);
    assert x == Kept(s)[|Kept(t)| - 1];
  }

  /** Two directories of one path lie one inside the other. */
  lemma Comparable(p: string, x: string, r: string)
    requires Covers(p, r) && Covers(x, r)
    ensures Covers(p, x) || Beneath(x, p)
  {
    assert p == r[..|p|] && x == r[..|x|];
  }

  /** Two kept paths, one inside the other, are separated by a kept path outside the topmost directory
      of both. */
  lemma InnerKeptInterrupted(s: seq<string>, p0: string, r0: string) returns (p: string, q: string, r: string)
    requires Sorted(s) && p0 in Kept(s) && r0 in Kept(s) && Beneath(p0, r0)
    ensures Interrupts(s, p, q, r)
  {
    var kept := Kept(s);
    KeptFrom(s);
    KeptStrict(s);
    p := TopmostOf(s, p0);
    assert Beneath(p, r0);
    TopmostKept(s, p);
    var i :| 0 <= i < |kept| && kept[i] == p;
    var j := 0;
    while j < |kept| && !Beneath(p, kept[j])
      invariant j <= |kept| && forall k | 0 <= k < j :: !Beneath(p, kept[k])
    {
      j := j + 1;
    }
    r := kept[j];
    BeneathOrder(p, r);
    IndexOrder(kept, i, j);
    q := kept[j - 1];
    LexTotal(p, p);
    assert q in kept && r in kept;
    assert LexLe(p, q) && LexLe(q, r);
  }

  lemma {:induction false} TopmostOf(s: seq<string>, p: string) returns (top: string)
    requires p in s
    ensures Topmost(top, s) && Covers(top, p)
    decreases |p|
  {
    if t :| t in s && Beneath(t, p) {
      top := TopmostOf(s, t);
    } else {
      top := p;
    }
  }
}
