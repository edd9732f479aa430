/** A cycle's phases driven in order, each until its exit condition holds or its attempts are used up
(internal/cycle/run.go, internal/cycle/cycle.go). What drives a phase, and what its condition says, may be anything. */
module CycleRun {
  import opened Outcomes
  import opened CycleLedger

  const DEFAULT_MAX_ATTEMPTS: nat := 2

  datatype Change = Change(path: string, added: nat, removed: nat)

  datatype Phase = Phase(name: string, maxAttempts: int, hasExit: bool)

  datatype PhaseResult = PhaseResult(changes: seq<Change>, turns: nat, toolCalls: nat, spend: real)

  /** An attempt at a phase: what it came to, and the state its condition was judged on. */
  datatype Tried = Tried(phase: nat, number: nat, result: PhaseResult, changes: seq<Change>, rows: Rows,
                         swept: seq<Sweep>, holds: bool)

  datatype PhaseOutcome = PhaseOutcome(phase: nat, attempts: nat, turns: nat, toolCalls: nat, spend: real, holds: bool)

  datatype Stop = Complete | ConditionUnmet

  datatype Outcome = Outcome(stop: Stop, phases: seq<PhaseOutcome>, changes: seq<Change>, rows: Rows, turns: nat,
                             toolCalls: nat, spend: real)

  datatype RunError = NoPhases | NoExit | Failed

  // ---- the change set ----

  function LastFor(cs: seq<Change>, path: string): Option<Change> {
    if cs == [] then None
    else if cs[|cs| - 1].path == path then Some(cs[|cs| - 1])
    else LastFor(cs[..|cs| - 1], path)
  }

  ghost predicate OnePerPath(cs: seq<Change>) {
    forall i, j | 0 <= i < j < |cs| :: cs[i].path != cs[j].path
  }

  /** One entry to a path, the last that was made to it. */
  ghost predicate Merged(out: seq<Change>, made: seq<Change>) {
    OnePerPath(out) && forall p :: LastFor(out, p) == LastFor(made, p)
  }

  lemma LastForNext(cs: seq<Change>, c: Change, p: string)
    ensures LastFor(cs + [c], p) == if c.path == p then Some(c) else LastFor(cs, p)
  {
    assert (cs + [c])[..|cs|] == cs;
  }

  lemma {:induction false} LastForAt(cs: seq<Change>, i: nat)
    requires OnePerPath(cs) && i < |cs|
    ensures LastFor(cs, cs[i].path) == Some(cs[i])
  {
    if i < |cs| - 1 { LastForAt(cs[..|cs| - 1], i); }
  }

  lemma {:induction false} LastForNone(cs: seq<Change>, p: string)
    ensures LastFor(cs, p).None? <==> forall i | 0 <= i < |cs| :: cs[i].path != p
    ensures LastFor(cs, p).Some? ==> exists i | 0 <= i < |cs| :: cs[i].path == p && LastFor(cs, p) == Some(cs[i])
  {
    if cs != [] {
      var before := cs[..|cs| - 1];
      LastForNone(before, p);
      if cs[|cs| - 1].path != p && LastFor(cs, p).Some? {
        var i :| 0 <= i < |before| && before[i].path == p && LastFor(before, p) == Some(before[i]);
        assert cs[i] == before[i];
      }
    }
  }

  lemma ReplacedAt(cs: seq<Change>, i: nat, c: Change, p: string)
    requires OnePerPath(cs) && i < |cs| && cs[i].path == c.path
    ensures OnePerPath(cs[i := c]) && LastFor(cs[i := c], p) == if c.path == p then Some(c) else LastFor(cs, p)
  {
    var out := cs[i := c];
    LastForNone(cs, p);
    LastForNone(out, p);
    if LastFor(cs, p).Some? {
      var j :| 0 <= j < |cs| && cs[j].path == p && LastFor(cs, p) == Some(cs[j]);
      assert out[j].path == p;
      LastForAt(out, j);
    } else {
      forall j | 0 <= j < |out| ensures out[j].path != p { assert out[j].path == cs[j].path; }
    }
  }

  /** mergeChanges: a phase's changes join the cycle's; a path seen before keeps its place. */
  method MergeChanges(into: seq<Change>, from: seq<Change>, ghost made: seq<Change>) returns (out: seq<Change>)
    requires Merged(into, made)
    ensures Merged(out, made + from)
    ensures |into| <= |out| && forall i | 0 <= i < |into| :: out[i].path == into[i].path
  {
    out := into;
    assert made + from[..0] == made;
    for k := 0 to |from|
      invariant Merged(out, made + from[..k])
      invariant |into| <= |out| && forall i | 0 <= i < |into| :: out[i].path == into[i].path
    {
      ghost var so := made + from[..k];
      var next := AddChange(out, from[k], so);
      assert so + [from[k]] == made + from[..k + 1];
      out := next;
    }
    assert from[..|from|] == from;
  }

  method AddChange(cs: seq<Change>, c: Change, ghost made: seq<Change>) returns (out: seq<Change>)
    requires Merged(cs, made)
    ensures Merged(out, made + [c])
    ensures |cs| <= |out| && forall i | 0 <= i < |cs| :: out[i].path == cs[i].path
  {
    for i := 0 to |cs|
      invariant forall j | 0 <= j < i :: cs[j].path != c.path
    {
      if cs[i].path == c.path {
        MergedReplaced(cs, i, c, made);
        return cs[i := c];
      }
    }
    MergedAdded(cs, c, made);
    out := cs + [c];
  }

  lemma MergedReplaced(cs: seq<Change>, i: nat, c: Change, made: seq<Change>)
    requires Merged(cs, made) && i < |cs| && cs[i].path == c.path
    ensures Merged(cs[i := c], made + [c])
  {
    forall p ensures LastFor(cs[i := c], p) == LastFor(made + [c], p) {
      ReplacedAt(cs, i, c, p);
      LastForNext(made, c, p);
    }
    ReplacedAt(cs, i, c, c.path);
  }

  lemma MergedAdded(cs: seq<Change>, c: Change, made: seq<Change>)
    requires Merged(cs, made) && forall j | 0 <= j < |cs| :: cs[j].path != c.path
    ensures Merged(cs + [c], made + [c])
  {
    forall p ensures LastFor(cs + [c], p) == LastFor(made + [c], p) {
      LastForNext(cs, c, p);
      LastForNext(made, c, p);
    }
  }

  // ---- the order of attempts ----

  datatype Cursor = At(phase: nat, number: nat) | Done | Unmet(phase: nat)

  /** Phase.attempts. */
  function Attempts(p: Phase): nat {
    if p.maxAttempts <= 0 then DEFAULT_MAX_ATTEMPTS else p.maxAttempts
  }

  /** A phase that held gives way to the next; one that did not is tried again while it has attempts left. */
  function Cur(phases: seq<Phase>, trace: seq<Tried>): Cursor {
    if trace == [] then (if phases == [] then Done else At(0, 1))
    else
      var t := trace[|trace| - 1];
      if t.holds then (if t.phase + 1 < |phases| then At(t.phase + 1, 1) else Done)
      else if t.phase < |phases| && t.number < Attempts(phases[t.phase]) then At(t.phase, t.number + 1)
      else Unmet(t.phase)
  }

  ghost predicate Follows(phases: seq<Phase>, trace: seq<Tried>) {
    trace == [] ||
    (&& Follows(phases, trace[..|trace| - 1])
     && Cur(phases, trace[..|trace| - 1]) == At(trace[|trace| - 1].phase, trace[|trace| - 1].number))
  }

  lemma FollowsNext(phases: seq<Phase>, trace: seq<Tried>, t: Tried)
    requires Follows(phases, trace) && Cur(phases, trace) == At(t.phase, t.number)
    ensures Follows(phases, trace + [t])
  {
    assert (trace + [t])[..|trace|] == trace;
  }

  /** Among the first n attempts is one at this phase whose condition held. */
  predicate Held(trace: seq<Tried>, n: nat, phase: nat)
    requires n <= |trace|
  {
    exists j | 0 <= j < n :: trace[j].phase == phase && trace[j].holds
  }

  /** The attempts up to the i-th that are at its phase: its first, and so on to this one. */
  ghost predicate Numbered(trace: seq<Tried>, i: nat)
    requires i < |trace|
  {
    && trace[i].number <= i + 1
    && forall k | i + 1 - trace[i].number <= k <= i ::
      trace[k].phase == trace[i].phase && trace[k].number == k - i + trace[i].number
  }

  lemma {:induction false} AttemptBounded(phases: seq<Phase>, trace: seq<Tried>, i: nat)
    requires Follows(phases, trace) && i < |trace|
    ensures trace[i].phase < |phases| && 1 <= trace[i].number <= Attempts(phases[trace[i].phase])
  {
    var m := |trace| - 1;
    if i < m {
      AttemptBounded(phases, trace[..m], i);
    } else if i > 0 {
      AttemptBounded(phases, trace[..m], i - 1);
    }
  }

  lemma {:induction false} AttemptNumbered(phases: seq<Phase>, trace: seq<Tried>, i: nat)
    requires Follows(phases, trace) && i < |trace|
    ensures Numbered(trace, i)
  {
    var before := trace[..|trace| - 1];
    assert forall j | 0 <= j < |before| :: before[j] == trace[j];
    if i < |trace| - 1 {
      AttemptNumbered(phases, before, i);
    } else if i > 0 {
      AttemptNumbered(phases, before, i - 1);
    }
  }

  /** An attempt comes when every earlier phase has held, and no attempt at its own phase has. */
  lemma {:induction false} AttemptInOrder(phases: seq<Phase>, trace: seq<Tried>, i: nat)
    requires Follows(phases, trace) && i < |trace|
    ensures forall q: nat | q < trace[i].phase :: Held(trace, i, q)
    ensures forall j | 0 <= j < i ::
      trace[j].phase <= trace[i].phase && (trace[j].phase == trace[i].phase ==> !trace[j].holds)
  {
    var before := trace[..|trace| - 1];
    assert forall j | 0 <= j < |before| :: before[j] == trace[j];
    if i < |trace| - 1 {
      AttemptInOrder(phases, before, i);
      forall q: nat | q < trace[i].phase ensures Held(trace, i, q) { HeldPrefix(trace, |before|, i, q); }
    } else if i > 0 {
      AttemptInOrder(phases, before, i - 1);
      forall q: nat | q < trace[i].phase ensures Held(trace, i, q) {
        if q < trace[i - 1].phase { HeldPrefix(trace, |before|, i - 1, q); }
      }
    }
  }

  lemma HeldPrefix(trace: seq<Tried>, m: nat, n: nat, q: nat)
    requires n <= m <= |trace| && Held(trace[..m], n, q)
    ensures forall k: nat | n <= k <= |trace| :: Held(trace, k, q)
  {
    var j :| 0 <= j < n && trace[..m][j].phase == q && trace[..m][j].holds;
    assert trace[j] == trace[..m][j];
  }

  lemma HeldLater(trace: seq<Tried>, n: nat, m: nat, q: nat)
    requires n <= m <= |trace| && Held(trace, n, q)
    ensures Held(trace, m, q)
  {
  }

  /** A cycle completes exactly when every one of its phases had its condition hold, on the state its last attempt
      left. */
  lemma CompleteExactly(phases: seq<Phase>, trace: seq<Tried>)
    requires phases != [] && Follows(phases, trace) && !Cur(phases, trace).At?
    ensures Cur(phases, trace) == Done <==> forall p: nat | p < |phases| :: Held(trace, |trace|, p)
  {
    var m := |trace| - 1;
    AttemptBounded(phases, trace, m);
    AttemptInOrder(phases, trace, m);
    var p := trace[m].phase;
    if trace[m].holds {
      forall q: nat | q < |phases| ensures Held(trace, |trace|, q) {
        if q < p { HeldLater(trace, m, |trace|, q); }
      }
    } else {
      assert !Held(trace, |trace|, p);
    }
  }

  /** What held is a phase's last attempt: none comes after it. */
  lemma HeldLast(phases: seq<Phase>, trace: seq<Tried>, i: nat, j: nat)
    requires Follows(phases, trace) && i < j < |trace| && trace[i].holds
    ensures trace[i].phase < trace[j].phase
  {
    AttemptInOrder(phases, trace, j);
  }

  /** Otherwise it stopped at a phase that used all its attempts and held in none; nothing after that phase was
      driven. */
  lemma UnmetExactly(phases: seq<Phase>, trace: seq<Tried>, p: nat)
    requires phases != [] && Follows(phases, trace) && Cur(phases, trace) == Unmet(p)
    ensures p < |phases| && Attempts(phases[p]) <= |trace|
    ensures forall k | |trace| - Attempts(phases[p]) <= k < |trace| :: trace[k].phase == p && !trace[k].holds
    ensures forall k | 0 <= k < |trace| - Attempts(phases[p]) :: trace[k].phase < p
    ensures forall q: nat | q < p :: Held(trace, |trace|, q)
  {
    var m := |trace| - 1;
    AttemptBounded(phases, trace, m);
    AttemptNumbered(phases, trace, m);
    AttemptInOrder(phases, trace, m);
    assert trace[m].phase == p && trace[m].number == Attempts(phases[p]);
    var first := |trace| - Attempts(phases[p]);
    assert trace[first].phase == p && trace[first].number == 1;
    BeforeFirst(phases, trace, first);
    forall q: nat | q < p ensures Held(trace, |trace|, q) { HeldLater(trace, m, |trace|, q); }
  }

  /** A phase's first attempt comes after attempts at earlier phases only. */
  lemma BeforeFirst(phases: seq<Phase>, trace: seq<Tried>, i: nat)
    requires Follows(phases, trace) && i < |trace| && trace[i].number == 1
    ensures forall k | 0 <= k < i :: trace[k].phase < trace[i].phase
  {
    forall k: nat | k < i ensures trace[k].phase < trace[i].phase {
      AttemptInOrder(phases, trace, i);
      FirstAfterHeld(phases, trace, i);
      AttemptInOrder(phases, trace, i - 1);
    }
  }

  lemma {:induction false} FirstAfterHeld(phases: seq<Phase>, trace: seq<Tried>, i: nat)
    requires Follows(phases, trace) && 0 < i < |trace| && trace[i].number == 1
    ensures trace[i - 1].phase + 1 == trace[i].phase && trace[i - 1].holds
  {
    var before := trace[..|trace| - 1];
    if i < |trace| - 1 {
      FirstAfterHeld(phases, before, i);
    } else {
      AttemptBounded(phases, before, i - 1);
    }
  }

  // ---- what is reported ----

  function Turns(trace: seq<Tried>): nat {
    if trace == [] then 0 else Turns(trace[..|trace| - 1]) + trace[|trace| - 1].result.turns
  }

  function ToolCalls(trace: seq<Tried>): nat {
    if trace == [] then 0 else ToolCalls(trace[..|trace| - 1]) + trace[|trace| - 1].result.toolCalls
  }

  function Spend(trace: seq<Tried>): real {
    if trace == [] then 0.0 else Spend(trace[..|trace| - 1]) + trace[|trace| - 1].result.spend
  }

  function Made(trace: seq<Tried>): seq<Change> {
    if trace == [] then [] else Made(trace[..|trace| - 1]) + trace[|trace| - 1].result.changes
  }

  lemma SumsNext(trace: seq<Tried>, t: Tried)
    ensures Turns(trace + [t]) == Turns(trace) + t.result.turns
    ensures ToolCalls(trace + [t]) == ToolCalls(trace) + t.result.toolCalls
    ensures Spend(trace + [t]) == Spend(trace) + t.result.spend
    ensures Made(trace + [t]) == Made(trace) + t.result.changes
  {
    assert (trace + [t])[..|trace|] == trace;
  }

  /** Each attempt was judged on the changes of all attempts so far, and on rows that hold what all of them recorded. */
  ghost predicate Judged(trace: seq<Tried>) {
    trace == [] ||
    var t, before := trace[|trace| - 1], trace[..|trace| - 1];
    && Judged(before)
    && Merged(t.changes, Made(trace)) && Accounts(t.rows.sweeps, t.swept)
    && (before != [] ==> Grows(before[|before| - 1], t))
  }

  /** Nothing recorded is forgotten: both lists only gain entries at their end. */
  ghost predicate Grows(a: Tried, b: Tried) {
    a.rows.hypotheses <= b.rows.hypotheses && a.swept <= b.swept
  }

  lemma GrowsOn(a: Tried, b: Tried, c: Tried)
    requires Grows(a, b) && Grows(b, c)
    ensures Grows(a, c)
  {
  }

  lemma {:induction false} RowsGrow(trace: seq<Tried>, i: nat, j: nat)
    requires Judged(trace) && i <= j < |trace|
    ensures Grows(trace[i], trace[j])
  {
    var m := |trace| - 1;
    var before := trace[..m];
    if j < m {
      RowsGrow(before, i, j);
    } else if i < m {
      RowsGrow(before, i, m - 1);
      GrowsOn(trace[i], before[m - 1], trace[m]);
    }
  }

  /** No dismissal is lost from one attempt to a later one. */
  lemma NoSiteLost(trace: seq<Tried>, i: nat, j: nat, k: nat, d: Dismissal)
    requires Judged(trace) && i <= j < |trace| && k < |trace[i].swept| && d in trace[i].swept[k].dismissed
    ensures exists r | 0 <= r < |trace[j].rows.sweeps| ::
      trace[j].rows.sweeps[r].pattern == trace[i].swept[k].pattern && Site(trace[j].rows.sweeps[r].dismissed, d)
  {
    RowsGrow(trace, i, j);
    JudgedAt(trace, j);
    assert trace[j].swept[k] == trace[i].swept[k];
    NeverLost(trace[j].rows.sweeps, trace[j].swept, k, d);
    var r :| 0 <= r < |trace[j].rows.sweeps| && trace[j].rows.sweeps[r].pattern == trace[j].swept[k].pattern
      && Site(trace[j].rows.sweeps[r].dismissed, d);
  }

  /** Nor is an artifact named by one attempt, though a later one may name another. */
  lemma NoArtifactLost(trace: seq<Tried>, i: nat, j: nat, k: nat)
    requires Judged(trace) && i <= j < |trace| && k < |trace[i].swept| && trace[i].swept[k].artifact != ""
    ensures exists r, x: nat | 0 <= r < |trace[j].rows.sweeps| && k <= x < |trace[j].swept| ::
      && trace[j].rows.sweeps[r].pattern == trace[i].swept[k].pattern
      && NamedLast(trace[j].swept, trace[i].swept[k].pattern, x)
      && trace[j].rows.sweeps[r].artifact == trace[j].swept[x].artifact
  {
    RowsGrow(trace, i, j);
    JudgedAt(trace, j);
    assert trace[j].swept[k] == trace[i].swept[k];
    ArtifactNeverLost(trace[j].rows.sweeps, trace[j].swept, k);
  }

  lemma {:induction false} JudgedAt(trace: seq<Tried>, j: nat)
    requires Judged(trace) && j < |trace|
    ensures Merged(trace[j].changes, Made(trace[..j + 1])) && Accounts(trace[j].rows.sweeps, trace[j].swept)
  {
    var m := |trace| - 1;
    if j < m {
      JudgedAt(trace[..m], j);
      assert trace[..m][..j + 1] == trace[..j + 1];
    } else {
      assert trace[..j + 1] == trace;
    }
  }

  /** One outcome for each phase driven: a first attempt opens one, a further attempt adds to the last. */
  function GroupOn(so: seq<PhaseOutcome>, t: Tried): seq<PhaseOutcome> {
    if t.number == 1 || so == [] then
      so + [Added(PhaseOutcome(t.phase, 0, 0, 0, 0.0, false), t.number, t.result, t.holds)]
    else so[..|so| - 1] + [Added(so[|so| - 1], t.number, t.result, t.holds)]
  }

  function Added(po: PhaseOutcome, number: nat, result: PhaseResult, holds: bool): PhaseOutcome {
    po.(attempts := number, turns := po.turns + result.turns, toolCalls := po.toolCalls + result.toolCalls,
        spend := po.spend + result.spend, holds := holds)
  }

  function Grouped(trace: seq<Tried>): seq<PhaseOutcome> {
    if trace == [] then [] else GroupOn(Grouped(trace[..|trace| - 1]), trace[|trace| - 1])
  }

  lemma GroupedNext(trace: seq<Tried>, t: Tried)
    ensures Grouped(trace + [t]) == GroupOn(Grouped(trace), t)
  {
    assert (trace + [t])[..|trace|] == trace;
  }

  // ---- the run ----

  /** What a run knows by now. */
  ghost predicate Sofar(trace: seq<Tried>, changes: seq<Change>, rows: Rows, swept: seq<Sweep>) {
    && Judged(trace) && Merged(changes, Made(trace)) && Accounts(rows.sweeps, swept)
    && (trace != [] ==> trace[|trace| - 1].rows.hypotheses <= rows.hypotheses && trace[|trace| - 1].swept <= swept)
  }

  /** Drive: the model works on a phase, recording what it likes in the ledger. */
  method Drive(ledger: Ledger) returns (ok: bool, result: PhaseResult)
    requires ledger.Valid()
    modifies ledger
    ensures ledger.Valid()
    ensures old(ledger.rows.hypotheses) <= ledger.rows.hypotheses && old(ledger.swept) <= ledger.swept
  {
    ok, result := *, *;
    var sweeps: seq<Sweep> := *;
    for i := 0 to |sweeps|
      invariant ledger.Valid()
      invariant old(ledger.rows.hypotheses) <= ledger.rows.hypotheses && old(ledger.swept) <= ledger.swept
    {
      var row: Hypothesis := *;
      var added := ledger.RecordHypothesis(row);
      ledger.RecordSweep(sweeps[i]);
    }
  }

  lemma SofarNext(trace: seq<Tried>, t: Tried, was: seq<Change>, rows: Rows, swept: seq<Sweep>)
    requires Sofar(trace, was, rows, swept) && Merged(t.changes, Made(trace) + t.result.changes)
    requires Accounts(t.rows.sweeps, t.swept) && rows.hypotheses <= t.rows.hypotheses && swept <= t.swept
    ensures Sofar(trace + [t], t.changes, t.rows, t.swept)
  {
    SumsNext(trace, t);
    assert (trace + [t])[..|trace|] == trace;
  }

  /** One attempt: driven, merged, judged. */
  method Attempt(ledger: Ledger, phase: nat, number: nat, changes: seq<Change>, ghost trace: seq<Tried>)
    returns (ok: bool, result: PhaseResult, merged: seq<Change>, holds: bool, ghost t: Tried)
    requires ledger.Valid() && Sofar(trace, changes, ledger.rows, ledger.swept)
    modifies ledger
    ensures ledger.Valid() && Sofar(trace + [t], merged, ledger.rows, ledger.swept)
    ensures t == Tried(phase, number, result, merged, ledger.rows, ledger.swept, holds)
  {
    ghost var rows, swept := ledger.rows, ledger.swept;
    ok, result := Drive(ledger);
    merged := MergeChanges(changes, result.changes, Made(trace));
    holds := *;
    var judged: bool := *;
    ok := ok && judged;
    t := Tried(phase, number, result, merged, ledger.rows, ledger.swept, holds);
    SofarNext(trace, t, changes, rows, swept);
  }

  /** What one phase has come to after some of its attempts; before is the trace the phase began with. */
  ghost predicate PhaseSofar(before: seq<Tried>, trace: seq<Tried>, po: PhaseOutcome) {
    && Turns(trace) == Turns(before) + po.turns && ToolCalls(trace) == ToolCalls(before) + po.toolCalls
    && Spend(trace) == Spend(before) + po.spend
    && Grouped(trace) == Grouped(before) + if po.attempts == 0 then [] else [po]
  }

  lemma PhaseNext(before: seq<Tried>, trace: seq<Tried>, po: PhaseOutcome, t: Tried)
    requires PhaseSofar(before, trace, po) && t.phase == po.phase && t.number == po.attempts + 1
    requires po.attempts == 0 ==> po.turns == po.toolCalls == 0 && po.spend == 0.0
    ensures PhaseSofar(before, trace + [t], Added(po, t.number, t.result, t.holds))
  {
    SumsNext(trace, t);
    PhaseGrouped(before, trace, po, t);
  }

  lemma PhaseGrouped(before: seq<Tried>, trace: seq<Tried>, po: PhaseOutcome, t: Tried)
    requires Grouped(trace) == Grouped(before) + (if po.attempts == 0 then [] else [po])
    requires t.phase == po.phase && t.number == po.attempts + 1
    requires po.attempts == 0 ==> po.turns == po.toolCalls == 0 && po.spend == 0.0
    ensures Grouped(trace + [t]) == Grouped(before) + [Added(po, t.number, t.result, t.holds)]
  {
    GroupedNext(trace, t);
    GroupOnPhase(Grouped(before), po, t);
  }

  lemma GroupOnPhase(so: seq<PhaseOutcome>, po: PhaseOutcome, t: Tried)
    requires t.phase == po.phase && t.number == po.attempts + 1
    requires po.attempts == 0 ==> po == PhaseOutcome(po.phase, 0, 0, 0, 0.0, po.holds)
    ensures GroupOn(so + (if po.attempts == 0 then [] else [po]), t) == so + [Added(po, t.number, t.result, t.holds)]
  {
  }

  /** One more attempt at a phase. */
  method NextAttempt(phases: seq<Phase>, i: nat, ledger: Ledger, so: PhaseOutcome, changes: seq<Change>,
                     ghost before: seq<Tried>, ghost sofar: seq<Tried>)
    returns (ok: bool, po: PhaseOutcome, merged: seq<Change>, ghost trace: seq<Tried>)
    requires i < |phases| && so.phase == i && Follows(phases, sofar) && Cur(phases, sofar) == At(i, so.attempts + 1)
    requires PhaseSofar(before, sofar, so) && (so.attempts == 0 ==> so.turns == so.toolCalls == 0 && so.spend == 0.0)
    requires ledger.Valid() && Sofar(sofar, changes, ledger.rows, ledger.swept)
    modifies ledger
    ensures ledger.Valid() && Sofar(trace, merged, ledger.rows, ledger.swept)
    ensures Follows(phases, trace) && PhaseSofar(before, trace, po)
    ensures po.phase == i && po.attempts == so.attempts + 1
    ensures trace != [] && trace[|trace| - 1].rows == ledger.rows
    ensures Cur(phases, trace) == if po.holds then (if i + 1 < |phases| then At(i + 1, 1) else Done)
                                  else if po.attempts < Attempts(phases[i]) then At(i, po.attempts + 1) else Unmet(i)
  {
    var result, holds;
    ghost var t;
    ok, result, merged, holds, t := Attempt(ledger, i, so.attempts + 1, changes, sofar);
    FollowsNext(phases, sofar, t);
    PhaseNext(before, sofar, so, t);
    CurNext(phases, sofar, t);
    trace := sofar + [t];
    po := Added(so, so.attempts + 1, result, holds);
  }

  lemma CurNext(phases: seq<Phase>, trace: seq<Tried>, t: Tried)
    requires t.phase < |phases|
    ensures Cur(phases, trace + [t])
         == if t.holds then (if t.phase + 1 < |phases| then At(t.phase + 1, 1) else Done)
            else if t.number < Attempts(phases[t.phase]) then At(t.phase, t.number + 1) else Unmet(t.phase)
  {
  }

  /** runPhase: attempts until one holds or the bound is reached. */
  method RunPhase(phases: seq<Phase>, i: nat, ledger: Ledger, changes: seq<Change>, ghost before: seq<Tried>)
    returns (ok: bool, po: PhaseOutcome, merged: seq<Change>, ghost trace: seq<Tried>)
    requires i < |phases| && Follows(phases, before) && Cur(phases, before) == At(i, 1)
    requires ledger.Valid() && Sofar(before, changes, ledger.rows, ledger.swept)
    modifies ledger
    ensures ledger.Valid() && Sofar(trace, merged, ledger.rows, ledger.swept)
    ensures Follows(phases, trace) && PhaseSofar(before, trace, po)
    ensures ok ==> po.attempts > 0 && trace != [] && trace[|trace| - 1].rows == ledger.rows
    ensures ok && po.holds ==> Cur(phases, trace) == if i + 1 < |phases| then At(i + 1, 1) else Done
    ensures ok && !po.holds ==> Cur(phases, trace) == Unmet(i)
  {
    ok, po, merged, trace := true, PhaseOutcome(i, 0, 0, 0, 0.0, false), changes, before;
    for attempt := 1 to Attempts(phases[i]) + 1
      invariant ledger.Valid() && Sofar(trace, merged, ledger.rows, ledger.swept)
      invariant Follows(phases, trace) && PhaseSofar(before, trace, po)
      invariant po.phase == i && po.attempts == attempt - 1 && !po.holds && (attempt == 1 ==> trace == before)
      invariant po.attempts == 0 ==> po.turns == po.toolCalls == 0 && po.spend == 0.0
      invariant attempt > 1 ==> trace != [] && trace[|trace| - 1].rows == ledger.rows
      invariant Cur(phases, trace) == if attempt <= Attempts(phases[i]) then At(i, attempt) else Unmet(i)
    {
      ok, po, merged, trace := NextAttempt(phases, i, ledger, po, merged, before, trace);
      if !ok || po.holds {
        return;
      }
    }
  }

  /** What the outcome so far reports is what happened. */
  ghost predicate Reported(trace: seq<Tried>, out: Outcome) {
    && out.phases == Grouped(trace) && out.turns == Turns(trace) && out.toolCalls == ToolCalls(trace)
    && out.spend == Spend(trace) && (trace != [] ==> out.rows == trace[|trace| - 1].rows)
  }

  /** What a finished run reports is what happened. */
  ghost predicate Told(phases: seq<Phase>, trace: seq<Tried>, out: Outcome) {
    && Follows(phases, trace) && Judged(trace)
    && !Cur(phases, trace).At? && (out.stop == Complete <==> Cur(phases, trace) == Done)
    && Reported(trace, out) && Merged(out.changes, Made(trace))
  }

  /** The next phase of the cycle: driven, logged, and added to the outcome. */
  method NextPhase(phases: seq<Phase>, i: nat, ledger: Ledger, so: Outcome, ghost before: seq<Tried>)
    returns (ok: bool, holds: bool, out: Outcome, ghost trace: seq<Tried>)
    requires i < |phases| && Follows(phases, before) && Cur(phases, before) == At(i, 1)
    requires ledger.Valid() && Sofar(before, so.changes, ledger.rows, ledger.swept) && Reported(before, so)
    modifies ledger
    ensures ledger.Valid()
    ensures ok ==>
      Follows(phases, trace) && Sofar(trace, out.changes, ledger.rows, ledger.swept) && Reported(trace, out)
    ensures ok ==> out.stop == ConditionUnmet
    ensures ok && holds ==> Cur(phases, trace) == if i + 1 < |phases| then At(i + 1, 1) else Done
    ensures ok && !holds ==> Cur(phases, trace) == Unmet(i)
  {
    ledger.SetPhase(phases[i].name);
    var po, merged;
    ok, po, merged, trace := RunPhase(phases, i, ledger, so.changes, before);
    var logged: bool := *;
    ok, holds := ok && logged, po.holds;
    out := Outcome(ConditionUnmet, so.phases + [po], merged, ledger.rows, so.turns + po.turns,
                   so.toolCalls + po.toolCalls, so.spend + po.spend);
  }

  /** Run: the phases in order, ending at the first whose condition does not hold. */
  method Run(phases: seq<Phase>, fold: Fold) returns (r: Result<Outcome, RunError>, ghost trace: seq<Tried>)
    ensures phases == [] ==> r == Err(NoPhases)
    ensures phases != [] && (exists i | 0 <= i < |phases| :: !phases[i].hasExit) ==> r == Err(NoExit)
    ensures r.Ok? ==> Told(phases, trace, r.value)
  {
    trace := [];
    var valid := Validate(phases);
    if valid.Err? {
      return Err(valid.error), trace;
    }
    var ledger := new Ledger(fold);
    var out := Outcome(ConditionUnmet, [], [], ledger.rows, 0, 0, 0.0);
    for i := 0 to |phases|
      invariant fresh(ledger) && ledger.Valid() && Sofar(trace, out.changes, ledger.rows, ledger.swept)
      invariant Follows(phases, trace) && Cur(phases, trace) == if i < |phases| then At(i, 1) else Done
      invariant Reported(trace, out)
    {
      var ok, holds;
      ok, holds, out, trace := NextPhase(phases, i, ledger, out, trace);
      if !ok {
        return Err(Failed), trace;
      }
      if !holds {
        return Ok(out), trace;
      }
    }
    r := Ok(out.(stop := Complete));
  }

  /** Validate: a cycle has phases, and each of them an exit. */
  method Validate(phases: seq<Phase>) returns (r: Result<(), RunError>)
    ensures r == if phases == [] then Err(NoPhases)
                 else if exists i | 0 <= i < |phases| :: !phases[i].hasExit then Err(NoExit)
                 else Ok(())
  {
    if |phases| == 0 {
      return Err(NoPhases);
    }
    for i := 0 to |phases|
      invariant forall j | 0 <= j < i :: phases[j].hasExit
    {
      if !phases[i].hasExit {
        return Err(NoExit);
      }
    }
    r := Ok(());
  }
}
