/** The rows a cycle's phases carry forward (internal/cycle/ledger.go). */
module CycleLedger {
  import opened Outcomes
  import opened Strings

  datatype Hypothesis = Hypothesis(phase: string, cause: string, experiment: string, observation: string,
                                   verdict: string)

  datatype Dismissal = Dismissal(file: string, line: int, reason: string)

  datatype Sweep = Sweep(phase: string, pattern: string, language: string, path: string, artifact: string,
                         dismissed: seq<Dismissal>)

  datatype Rows = Rows(hypotheses: seq<Hypothesis>, sweeps: seq<Sweep>)

  predicate SameSite(a: Dismissal, b: Dismissal) {
    a.file == b.file && a.line == b.line
  }

  predicate Site(ds: seq<Dismissal>, d: Dismissal) {
    exists i | 0 <= i < |ds| :: SameSite(ds[i], d)
  }

  predicate Before(a: Dismissal, b: Dismissal) {
    if a.file != b.file then LexLe(a.file, b.file) else a.line <= b.line
  }

  ghost predicate BySite(ds: seq<Dismissal>) {
    forall i, j | 0 <= i < j < |ds| :: Before(ds[i], ds[j])
  }

  // ---- what was recorded ----

  /** The last word on a site. */
  function LastWord(ds: seq<Dismissal>, d: Dismissal): Option<Dismissal> {
    if ds == [] then None
    else if SameSite(ds[|ds| - 1], d) then Some(ds[|ds| - 1])
    else LastWord(ds[..|ds| - 1], d)
  }

  /** Every dismissal recorded for a pattern, in order. */
  function Dismissals(h: seq<Sweep>, pattern: string): seq<Dismissal> {
    if h == [] then []
    else Dismissals(h[..|h| - 1], pattern) + if h[|h| - 1].pattern == pattern then h[|h| - 1].dismissed else []
  }

  /** The last artifact named for a pattern. */
  function Artifact(h: seq<Sweep>, pattern: string): string {
    if h == [] then ""
    else if h[|h| - 1].pattern == pattern && h[|h| - 1].artifact != "" then h[|h| - 1].artifact
    else Artifact(h[..|h| - 1], pattern)
  }

  /** A pattern's row holds what was recorded for it: nothing but that, and the last word on every site of it. */
  ghost predicate Holds(kept: seq<Dismissal>, recorded: seq<Dismissal>) {
    && (forall d | d in kept :: d in recorded)
    && (forall d :: LastWord(recorded, d).Some? ==> LastWord(recorded, d).value in kept)
  }

  ghost predicate RowOf(s: Sweep, h: seq<Sweep>) {
    s.artifact == Artifact(h, s.pattern) && Holds(s.dismissed, Dismissals(h, s.pattern))
  }

  ghost predicate OnePerPattern(sweeps: seq<Sweep>) {
    forall i, j | 0 <= i < j < |sweeps| :: sweeps[i].pattern != sweeps[j].pattern
  }

  predicate HasPattern(sweeps: seq<Sweep>, pattern: string) {
    exists i | 0 <= i < |sweeps| :: sweeps[i].pattern == pattern
  }

  /** The sweeps kept are what was recorded, one row to a pattern. */
  ghost predicate Accounts(sweeps: seq<Sweep>, h: seq<Sweep>) {
    && OnePerPattern(sweeps)
    && (forall i | 0 <= i < |sweeps| :: RowOf(sweeps[i], h))
    && (forall p :: HasPattern(sweeps, p) <==> HasPattern(h, p))
  }

  lemma {:induction false} LastWordConcat(a: seq<Dismissal>, b: seq<Dismissal>, d: Dismissal)
    ensures LastWord(a + b, d) == if LastWord(b, d).Some? then LastWord(b, d) else LastWord(a, d)
  {
    if b == [] {
      assert a + b == a;
    } else {
      LastWordConcat(a, b[..|b| - 1], d);
      assert (a + b)[..|a + b| - 1] == a + b[..|b| - 1];
    }
  }

  lemma {:induction false} LastWordIn(ds: seq<Dismissal>, d: Dismissal)
    ensures LastWord(ds, d).Some? <==> Site(ds, d)
    ensures LastWord(ds, d).Some? ==> LastWord(ds, d).value in ds && SameSite(LastWord(ds, d).value, d)
  {
    if ds != [] {
      LastWordIn(ds[..|ds| - 1], d);
      assert forall i | 0 <= i < |ds| - 1 :: ds[i] == ds[..|ds| - 1][i];
      if SameSite(ds[|ds| - 1], d) { assert Site(ds, d); }
      if Site(ds[..|ds| - 1], d) {
        var i :| 0 <= i < |ds| - 1 && SameSite(ds[..|ds| - 1][i], d);
        assert SameSite(ds[i], d);
      }
    }
  }

  // ---- merging dismissals ----

  /** One more word: it takes the place of the first on its site, or is added. */
  method AddDismissal(kept: seq<Dismissal>, d: Dismissal, ghost recorded: seq<Dismissal>) returns (out: seq<Dismissal>)
    requires Holds(kept, recorded)
    ensures Holds(out, recorded + [d])
  {
    for i := 0 to |kept|
      invariant forall j | 0 <= j < i :: !SameSite(kept[j], d)
    {
      if SameSite(kept[i], d) {
        out := kept[i := d];
        Replaced(kept, i, d, recorded);
        return;
      }
    }
    out := kept + [d];
    Added(kept, d, recorded);
  }

  lemma Replaced(kept: seq<Dismissal>, i: nat, d: Dismissal, recorded: seq<Dismissal>)
    requires Holds(kept, recorded) && i < |kept| && SameSite(kept[i], d)
    ensures Holds(kept[i := d], recorded + [d])
  {
    var out := kept[i := d];
    assert out[i] == d;
    forall x | LastWord(recorded + [d], x).Some? ensures LastWord(recorded + [d], x).value in out {
      LastWordConcat(recorded, [d], x);
      assert [d][..0] == [];
      if !SameSite(d, x) {
        var w := LastWord(recorded, x).value;
        LastWordIn(recorded, x);
        var j :| 0 <= j < |kept| && kept[j] == w;
        assert out[j] == w;
      }
    }
  }

  lemma Added(kept: seq<Dismissal>, d: Dismissal, recorded: seq<Dismissal>)
    requires Holds(kept, recorded)
    ensures Holds(kept + [d], recorded + [d])
  {
    forall x | LastWord(recorded + [d], x).Some? ensures LastWord(recorded + [d], x).value in kept + [d] {
      LastWordConcat(recorded, [d], x);
      assert [d][..0] == [];
      assert d in kept + [d];
    }
  }

  /** Where d belongs among dismissals by site. */
  method PlaceOf(ds: seq<Dismissal>, d: Dismissal) returns (j: nat)
    ensures j <= |ds| && (j > 0 ==> Before(ds[j - 1], d)) && forall k | j <= k < |ds| :: Before(d, ds[k])
  {
    j := |ds|;
    while j > 0 && !Before(ds[j - 1], d)
      invariant j <= |ds| && forall k | j <= k < |ds| :: Before(d, ds[k])
    {
      BeforeTotal(ds[j - 1], d);
      j := j - 1;
    }
  }

  /** An insertion sort; any sort by site would do. */
  method SortBySite(ds: seq<Dismissal>) returns (out: seq<Dismissal>)
    ensures BySite(out) && multiset(out) == multiset(ds)
  {
    out := [];
    for i := 0 to |ds|
      invariant BySite(out) && multiset(out) == multiset(ds[..i])
    {
      var j := PlaceOf(out, ds[i]);
      Inserted(out, j, ds[i]);
      assert ds[..i + 1] == ds[..i] + [ds[i]];
      out := out[..j] + [ds[i]] + out[j..];
    }
    assert ds[..|ds|] == ds;
  }

  lemma BeforeTotal(a: Dismissal, b: Dismissal)
    ensures Before(a, b) || Before(b, a)
  {
    LexTotal(a.file, b.file);
  }

  lemma BeforeTransitive(a: Dismissal, b: Dismissal, c: Dismissal)
    requires Before(a, b) && Before(b, c)
    ensures Before(a, c)
  {
    if a.file != b.file && b.file != c.file {
      LexTransitive(a.file, b.file, c.file);
      if a.file == c.file { LexAntisymmetric(a.file, b.file); }
    }
  }

  lemma Inserted(out: seq<Dismissal>, j: nat, d: Dismissal)
    requires BySite(out) && j <= |out| && (j > 0 ==> Before(out[j - 1], d))
    requires forall k | j <= k < |out| :: Before(d, out[k])
    ensures BySite(out[..j] + [d] + out[j..]) && multiset(out[..j] + [d] + out[j..]) == multiset(out) + multiset{d}
  {
    forall k | 0 <= k < j ensures Before(out[k], d) {
      if k < j - 1 { BeforeTransitive(out[k], out[j - 1], d); }
    }
    InsertedBySite(out, j, d);
    InsertedOnce(out, j, d);
  }

  lemma InsertedOnce(out: seq<Dismissal>, j: nat, d: Dismissal)
    requires j <= |out|
    ensures multiset(out[..j] + [d] + out[j..]) == multiset(out) + multiset{d}
  {
    assert out == out[..j] + out[j..];
  }

  lemma InsertedBySite(out: seq<Dismissal>, j: nat, d: Dismissal)
    requires BySite(out) && j <= |out|
    requires (forall k | 0 <= k < j :: Before(out[k], d)) && forall k | j <= k < |out| :: Before(d, out[k])
    ensures BySite(out[..j] + [d] + out[j..])
  {
    var all := out[..j] + [d] + out[j..];
    forall x, y | 0 <= x < y < |all| ensures Before(all[x], all[y]) {
      assert all[x] == (if x < j then out[x] else if x == j then d else out[x - 1]);
      assert all[y] == (if y < j then out[y] else if y == j then d else out[y - 1]);
    }
  }

  lemma HoldsPermuted(a: seq<Dismissal>, b: seq<Dismissal>, recorded: seq<Dismissal>)
    requires Holds(a, recorded) && multiset(a) == multiset(b)
    ensures Holds(b, recorded)
  {
    SameElements(a, b);
  }

  /** mergeDismissals: the later words join the earlier ones, and none of them is lost. */
  method MergeDismissals(into: seq<Dismissal>, from: seq<Dismissal>, ghost recorded: seq<Dismissal>)
    returns (out: seq<Dismissal>)
    requires Holds(into, recorded)
    ensures Holds(out, recorded + from) && BySite(out)
  {
    out := into;
    assert recorded + from[..0] == recorded;
    for k := 0 to |from|
      invariant Holds(out, recorded + from[..k])
    {
      out := AddDismissal(out, from[k], recorded + from[..k]);
      assert recorded + from[..k] + [from[k]] == recorded + from[..k + 1];
    }
    assert from[..|from|] == from;
    var sorted := SortBySite(out);
    HoldsPermuted(out, sorted, recorded + from);
    out := sorted;
  }

  // ---- the ledger ----

  type Fold = (string, string) -> bool

  ghost predicate NoRepeats(fold: Fold, hs: seq<Hypothesis>) {
    forall i, j | 0 <= i < j < |hs| :: !(fold(hs[i].cause, hs[j].cause) && hs[i].verdict == hs[j].verdict)
  }

  class Ledger {
    /** strings.EqualFold. */
    const fold: Fold
    var phase: string
    var rows: Rows
    /** Every sweep recorded. */
    ghost var swept: seq<Sweep>

    ghost predicate Valid()
      reads this
    {
      NoRepeats(fold, rows.hypotheses) && Accounts(rows.sweeps, swept)
    }

    constructor (fold: Fold)
      ensures Valid() && rows == Rows([], []) && swept == [] && this.fold == fold
    {
      this.fold := fold;
      phase, rows, swept := "", Rows([], []), [];
    }

    method SetPhase(name: string)
      requires Valid()
      modifies `phase
      ensures Valid() && phase == name
    {
      phase := name;
    }

    /** A cause and verdict the ledger holds already is refused; any other row is added, in the current phase. */
    method RecordHypothesis(h: Hypothesis) returns (ok: bool)
      requires Valid()
      modifies `rows
      ensures Valid() && rows.sweeps == old(rows.sweeps)
      ensures ok <==> forall i | 0 <= i < |old(rows.hypotheses)| ::
        !(fold(old(rows.hypotheses)[i].cause, h.cause) && old(rows.hypotheses)[i].verdict == h.verdict)
      ensures rows.hypotheses == old(rows.hypotheses) + if ok then [h.(phase := phase)] else []
    {
      for i := 0 to |rows.hypotheses|
        invariant rows == old(rows)
        invariant forall j | 0 <= j < i ::
          !(fold(rows.hypotheses[j].cause, h.cause) && rows.hypotheses[j].verdict == h.verdict)
      {
        if fold(rows.hypotheses[i].cause, h.cause) && rows.hypotheses[i].verdict == h.verdict {
          return false;
        }
      }
      rows := rows.(hypotheses := rows.hypotheses + [h.(phase := phase)]);
      ok := true;
    }

    /** A sweep joins the row of its pattern, as the newest of the rows; no site of it is lost, and an artifact only to
        another name. */
    method RecordSweep(s: Sweep)
      requires Valid()
      modifies `rows, `swept
      ensures Valid() && swept == old(swept) + [s] && rows.hypotheses == old(rows.hypotheses)
      ensures rows.sweeps != [] && rows.sweeps[|rows.sweeps| - 1].pattern == s.pattern
    {
      var sweeps := rows.sweeps;
      for i := 0 to |sweeps|
        invariant rows == old(rows) && swept == old(swept) && sweeps == rows.sweeps && Valid()
        invariant forall j | 0 <= j < i :: sweeps[j].pattern != s.pattern
      {
        if sweeps[i].pattern == s.pattern {
          var merged := MergeDismissals(sweeps[i].dismissed, s.dismissed, Dismissals(swept, s.pattern));
          var artifact := if s.artifact == "" then sweeps[i].artifact else s.artifact;
          var row := s.(phase := phase, dismissed := merged, artifact := artifact);
          SweepMoved(sweeps, swept, i, s, row);
          rows := rows.(sweeps := sweeps[..i] + sweeps[i + 1..] + [row]);
          swept := swept + [s];
          return;
        }
      }
      SweepAdded(sweeps, swept, s, s.(phase := phase));
      rows := rows.(sweeps := sweeps + [s.(phase := phase)]);
      swept := swept + [s];
    }
  }

  lemma RowKept(t: Sweep, h: seq<Sweep>, s: Sweep)
    requires RowOf(t, h) && t.pattern != s.pattern
    ensures RowOf(t, h + [s])
  {
    assert (h + [s])[..|h|] == h;
    assert Dismissals(h + [s], t.pattern) == Dismissals(h, t.pattern);
  }

  lemma PatternsNext(h: seq<Sweep>, s: Sweep)
    ensures forall p :: HasPattern(h + [s], p) <==> HasPattern(h, p) || p == s.pattern
  {
    forall p ensures HasPattern(h + [s], p) <==> HasPattern(h, p) || p == s.pattern {
      if HasPattern(h, p) {
        var i :| 0 <= i < |h| && h[i].pattern == p;
        assert (h + [s])[i].pattern == p;
      }
      assert (h + [s])[|h|] == s;
    }
  }

  lemma SweepMoved(sweeps: seq<Sweep>, h: seq<Sweep>, i: nat, s: Sweep, row: Sweep)
    requires Accounts(sweeps, h) && i < |sweeps| && sweeps[i].pattern == s.pattern == row.pattern
    requires row.artifact == (if s.artifact == "" then sweeps[i].artifact else s.artifact)
    requires Holds(row.dismissed, Dismissals(h, s.pattern) + s.dismissed)
    ensures Accounts(sweeps[..i] + sweeps[i + 1..] + [row], h + [s])
  {
    assert RowOf(row, h + [s]) by {
      assert (h + [s])[..|h|] == h && RowOf(sweeps[i], h);
    }
    RowsMoved(sweeps, h, i, s, row);
    PatternsNext(h, s);
    PatternsMoved(sweeps, i, row);
    assert HasPattern(sweeps, s.pattern);
    OneMoved(sweeps, i, row);
  }

  lemma RowsMoved(sweeps: seq<Sweep>, h: seq<Sweep>, i: nat, s: Sweep, row: Sweep)
    requires OnePerPattern(sweeps) && i < |sweeps| && sweeps[i].pattern == s.pattern
    requires (forall k | 0 <= k < |sweeps| :: RowOf(sweeps[k], h)) && RowOf(row, h + [s])
    ensures var out := sweeps[..i] + sweeps[i + 1..] + [row]; forall k | 0 <= k < |out| :: RowOf(out[k], h + [s])
  {
    var out := sweeps[..i] + sweeps[i + 1..] + [row];
    forall k | 0 <= k < |out| ensures RowOf(out[k], h + [s]) {
      if k < |out| - 1 {
        RowKept(sweeps[if k < i then k else k + 1], h, s);
      }
    }
  }

  lemma OneMoved(sweeps: seq<Sweep>, i: nat, row: Sweep)
    requires OnePerPattern(sweeps) && i < |sweeps| && sweeps[i].pattern == row.pattern
    ensures OnePerPattern(sweeps[..i] + sweeps[i + 1..] + [row])
  {
  }

  lemma PatternsMoved(sweeps: seq<Sweep>, i: nat, row: Sweep)
    requires i < |sweeps| && sweeps[i].pattern == row.pattern
    ensures forall p :: HasPattern(sweeps[..i] + sweeps[i + 1..] + [row], p) <==> HasPattern(sweeps, p)
  {
    var out := sweeps[..i] + sweeps[i + 1..] + [row];
    forall p ensures HasPattern(out, p) <==> HasPattern(sweeps, p) {
      if HasPattern(sweeps, p) {
        var k :| 0 <= k < |sweeps| && sweeps[k].pattern == p;
        assert out[if k < i then k else if k == i then |out| - 1 else k - 1].pattern == p;
      }
      if HasPattern(out, p) {
        var k :| 0 <= k < |out| && out[k].pattern == p;
        assert sweeps[if k < i then k else if k == |out| - 1 then i else k + 1].pattern == p;
      }
    }
  }

  lemma SweepAdded(sweeps: seq<Sweep>, h: seq<Sweep>, s: Sweep, row: Sweep)
    requires Accounts(sweeps, h) && !HasPattern(sweeps, s.pattern) && row == s.(phase := row.phase)
    ensures Accounts(sweeps + [row], h + [s])
  {
    assert (h + [s])[..|h|] == h;
    forall k | 0 <= k < |sweeps| ensures RowOf((sweeps + [row])[k], h + [s]) {
      assert RowOf(sweeps[k], h);
      RowKept(sweeps[k], h, s);
    }
    NoneRecorded(h, s.pattern);
    forall d | LastWord(s.dismissed, d).Some? ensures LastWord(s.dismissed, d).value in s.dismissed {
      LastWordIn(s.dismissed, d);
    }
    assert [] + s.dismissed == s.dismissed;
    PatternsNext(h, s);
    PatternsNext(sweeps, row);
  }

  lemma {:induction false} NoneRecorded(h: seq<Sweep>, pattern: string)
    requires !HasPattern(h, pattern)
    ensures Dismissals(h, pattern) == [] && Artifact(h, pattern) == ""
  {
    if h != [] {
      assert h[|h| - 1].pattern != pattern;
      var before := h[..|h| - 1];
      forall i | 0 <= i < |before| ensures before[i].pattern != pattern { assert h[i] == before[i]; }
      NoneRecorded(before, pattern);
    }
  }

  /** No site recorded is lost: whatever a sweep ever dismissed, its pattern's row has the last word on it. */
  lemma NeverLost(sweeps: seq<Sweep>, h: seq<Sweep>, k: nat, d: Dismissal)
    requires Accounts(sweeps, h) && k < |h| && d in h[k].dismissed
    ensures exists i | 0 <= i < |sweeps| ::
      sweeps[i].pattern == h[k].pattern && Site(sweeps[i].dismissed, d)
        && (h[k].artifact != "" ==> sweeps[i].artifact != "")
  {
    var p := h[k].pattern;
    assert HasPattern(h, p);
    var i :| 0 <= i < |sweeps| && sweeps[i].pattern == p;
    assert RowOf(sweeps[i], h);
    Recorded(h, k, d);
    if h[k].artifact != "" { NamedStays(h, k); }
    LastWordIn(Dismissals(h, p), d);
    var w := LastWord(Dismissals(h, p), d).value;
    var j :| 0 <= j < |sweeps[i].dismissed| && sweeps[i].dismissed[j] == w;
    assert SameSite(sweeps[i].dismissed[j], d);
  }

  /** Sweep k of the pattern names an artifact, and no later one of it names another. */
  ghost predicate NamedLast(h: seq<Sweep>, pattern: string, k: nat) {
    && k < |h| && h[k].pattern == pattern && h[k].artifact != ""
    && forall j | k < j < |h| && h[j].pattern == pattern :: h[j].artifact == ""
  }

  /** A sweep that named an artifact leaves its pattern's row with one, whether or not it dismissed a site: the artifact
      of the last sweep of the pattern that named any. */
  lemma ArtifactNeverLost(sweeps: seq<Sweep>, h: seq<Sweep>, k: nat)
    requires Accounts(sweeps, h) && k < |h| && h[k].artifact != ""
    ensures exists i, j: nat | 0 <= i < |sweeps| && k <= j < |h| ::
      sweeps[i].pattern == h[k].pattern && NamedLast(h, h[k].pattern, j) && sweeps[i].artifact == h[j].artifact
  {
    assert HasPattern(h, h[k].pattern);
    var i :| 0 <= i < |sweeps| && sweeps[i].pattern == h[k].pattern;
    assert RowOf(sweeps[i], h);
    var j := LastToName(h, k);
    ArtifactIs(h, h[k].pattern, j);
    assert NamedLast(h, h[k].pattern, j) && sweeps[i].artifact == h[j].artifact;
  }

  lemma {:induction false} LastToName(h: seq<Sweep>, k: nat) returns (j: nat)
    requires k < |h| && h[k].artifact != ""
    ensures k <= j && NamedLast(h, h[k].pattern, j)
    decreases |h| - k
  {
    if x: nat :| k < x < |h| && h[x].pattern == h[k].pattern && h[x].artifact != "" {
      j := LastToName(h, x);
    } else {
      j := k;
    }
  }

  lemma {:induction false} ArtifactIs(h: seq<Sweep>, pattern: string, j: nat)
    requires NamedLast(h, pattern, j)
    ensures Artifact(h, pattern) == h[j].artifact
  {
    if j < |h| - 1 {
      var before := h[..|h| - 1];
      assert forall x | j < x < |before| :: before[x] == h[x];
      ArtifactIs(before, pattern, j);
    }
  }

  lemma NamedStays(h: seq<Sweep>, k: nat)
    requires k < |h| && h[k].artifact != ""
    ensures Artifact(h, h[k].pattern) != ""
  {
    var j := LastToName(h, k);
    ArtifactIs(h, h[k].pattern, j);
  }

  lemma {:induction false} Recorded(h: seq<Sweep>, k: nat, d: Dismissal)
    requires k < |h| && d in h[k].dismissed
    ensures Site(Dismissals(h, h[k].pattern), d)
  {
    var p, m := h[k].pattern, |h| - 1;
    var before := Dismissals(h[..m], p);
    if k < m {
      Recorded(h[..m], k, d);
      var i :| 0 <= i < |before| && SameSite(before[i], d);
      assert Dismissals(h, p)[i] == before[i];
    } else {
      var i :| 0 <= i < |h[k].dismissed| && h[k].dismissed[i] == d;
      assert Dismissals(h, p)[|before| + i] == d;
    }
  }
}
