/** The change gate: what each writer's run is told about its changes (internal/app/changegate.go). */
module ChangeGate {
  import opened GateHistory

  const STUCK_AFTER: nat := 3

  /** A run's past: what happened since it began, how many of its gate answers had been looked at for alarms when that
      was last asked, and the results handed over so far. */
  datatype Past = Past(history: seq<Event>, told: nat, handed: seq<GateResult>)

  const NO_PAST: Past := Past([], 0, [])

  /** What a run holds is what its past adds up to: its changes and results, */
  ghost predicate Stands(past: Past, pending: seq<GateResult>, latest: seq<GateResult>, changed: seq<Change>,
                         queued: nat) {
    var s := StoryOf(past.history);
    && changed == s.changes && queued == s.uncovered && latest == s.latest
    && past.handed + pending == s.results
  }

  /** and its verdicts, and the false alarms among them. */
  ghost predicate Answered(past: Past, verdict: map<string, Verdict>, falseAlarms: seq<string>) {
    && past.told <= |Reports(past.history)|
    && verdict == VerdictsAfter(Reports(past.history)) && falseAlarms == AlarmsFrom(Reports(past.history), past.told)
  }

  /** The first i answers of a batch have been noted. */
  ghost predicate Noted(verdict: map<string, Verdict>, alarms: seq<string>, reports: seq<Report>, all: seq<Report>,
                        i: nat, from: nat)
  {
    && i <= |all| && from <= |reports|
    && verdict == VerdictsAfter(reports + all[..i]) && alarms == AlarmsFrom(reports + all[..i], from)
  }

  lemma NotedEnds(reports: seq<Report>, all: seq<Report>)
    ensures reports + all[..0] == reports && reports + all[..|all|] == reports + all
  {
  }

  lemma NotedNext(reports: seq<Report>, all: seq<Report>, i: nat, from: nat)
    requires i < |all| && from <= |reports|
    ensures var so := reports + all[..i];
      && VerdictsAfter(reports + all[..i + 1])
         == VerdictsAfter(so)[all[i].gate := NextVerdict(VerdictsAfter(so), all[i])]
      && AlarmsFrom(reports + all[..i + 1], from)
         == AlarmsFrom(so, from) + if TakesBack(VerdictsAfter(so), all[i]) then [all[i].gate] else []
  {
    AnswerNext(reports + all[..i], all[i], from);
    assert reports + all[..i] + [all[i]] == reports + all[..i + 1];
  }

  function With(past: Past, e: Event): Past {
    past.(history := past.history + [e])
  }

  lemma StandsNext(past: Past, pending: seq<GateResult>, latest: seq<GateResult>, changed: seq<Change>, queued: nat,
                   results: seq<GateResult>, covered: nat)
    requires Stands(past, pending, latest, changed, queued)
    ensures Stands(With(past, Ran(results, covered)), pending + results, results, changed + Rewrites(results),
                   if queued >= covered then queued - covered else 0)
  {
    assert past.handed + (pending + results) == past.handed + pending + results;
    StoryNext(past.history, Ran(results, covered));
  }

  lemma AnsweredNext(past: Past, results: seq<GateResult>, covered: nat, verdict: map<string, Verdict>,
                     alarms: seq<string>)
    requires past.told <= |Reports(past.history)|
    requires verdict == VerdictsAfter(Reports(past.history) + ReportsOf(results, |Changes(past.history)|))
    requires alarms == AlarmsFrom(Reports(past.history) + ReportsOf(results, |Changes(past.history)|), past.told)
    ensures Answered(With(past, Ran(results, covered)), verdict, alarms)
  {
    StoryNext(past.history, Ran(results, covered));
  }

  /** What one writer's run has been told and has written. */
  class RunState {
    var pending: seq<GateResult>
    var latest: seq<GateResult>
    var changed: seq<Change>
    var verdict: map<string, Verdict>
    var falseAlarms: seq<string>
    var queued: nat
    ghost var past: Past

    ghost predicate Valid()
      reads this
    {
      Stands(past, pending, latest, changed, queued) && Answered(past, verdict, falseAlarms)
    }

    constructor ()
      ensures Valid() && past == NO_PAST
    {
      pending, latest, changed, verdict, falseAlarms, queued := [], [], [], map[], [], 0;
      past := NO_PAST;
    }

    method Enqueue(c: Change)
      requires Valid()
      modifies this
      ensures Valid() && past == With(old(past), Wrote(c))
    {
      queued := queued + 1;
      changed := changed + [c];
      StoryNext(past.history, Wrote(c));
      past := With(past, Wrote(c));
    }

    /** One answer: a failure taken back is noted, and the gate's verdict replaced. */
    method NoteAnswer(r: GateResult, ghost reports: seq<Report>, ghost all: seq<Report>, ghost i: nat, ghost from: nat)
      requires Noted(verdict, falseAlarms, reports, all, i, from) && i < |all| && all[i] == ReportOf(r, |changed|)
      modifies `verdict, `falseAlarms
      ensures Noted(verdict, falseAlarms, reports, all, i + 1, from)
    {
      var report := ReportOf(r, |changed|);
      NotedNext(reports, all, i, from);
      if TakesBack(verdict, report) {
        falseAlarms := falseAlarms + [r.gate];
      }
      verdict := verdict[r.gate := NextVerdict(verdict, report)];
    }

    /** noteFalseAlarms: every answer of a batch in turn. */
    method NoteFalseAlarms(results: seq<GateResult>, ghost reports: seq<Report>, ghost from: nat)
      requires verdict == VerdictsAfter(reports) && from <= |reports| && falseAlarms == AlarmsFrom(reports, from)
      modifies `verdict, `falseAlarms
      ensures verdict == VerdictsAfter(reports + ReportsOf(results, |changed|))
      ensures falseAlarms == AlarmsFrom(reports + ReportsOf(results, |changed|), from)
    {
      ghost var all := ReportsOf(results, |changed|);
      NotedEnds(reports, all);
      for i := 0 to |results|
        invariant Noted(verdict, falseAlarms, reports, all, i, from)
      {
        NoteAnswer(results[i], reports, all, i, from);
      }
    }

    method NoteRewrites(results: seq<GateResult>)
      modifies `changed
      ensures changed == old(changed) + Rewrites(results)
    {
      for i := 0 to |results|
        invariant changed == old(changed) + Rewrites(results[..i])
      {
        ghost var before := changed;
        var paths := results[i].rewrote;
        ghost var noted := seq(|paths|, k requires 0 <= k < |paths| => Change(paths[k], ""));
        for j := 0 to |paths|
          invariant changed == before + noted[..j]
        {
          changed := changed + [Change(paths[j], "")];
        }
        assert results[..i + 1][..i] == results[..i] && noted[..|paths|] == noted;
      }
      assert results[..|results|] == results;
    }

    method Collect(results: seq<GateResult>, covered: nat)
      requires Valid()
      modifies this
      ensures Valid() && past == With(old(past), Ran(results, covered))
    {
      AnswerBatch(results, covered);
      TakeIn(results, covered);
      past := With(past, Ran(results, covered));
    }

    method AnswerBatch(results: seq<GateResult>, ghost covered: nat)
      requires Answered(past, verdict, falseAlarms) && changed == Changes(past.history)
      modifies `verdict, `falseAlarms
      ensures Answered(With(past, Ran(results, covered)), verdict, falseAlarms)
    {
      NoteFalseAlarms(results, Reports(past.history), past.told);
      AnsweredNext(past, results, covered, verdict, falseAlarms);
    }

    /** The results of a batch, and its fixers' rewrites, which come after its answers were dated. */
    method TakeIn(results: seq<GateResult>, covered: nat)
      requires Stands(past, pending, latest, changed, queued)
      modifies `pending, `latest, `changed, `queued
      ensures Stands(With(past, Ran(results, covered)), pending, latest, changed, queued)
    {
      StandsNext(past, pending, latest, changed, queued, results, covered);
      pending := pending + results;
      latest := results;
      NoteRewrites(results);
      queued := if queued >= covered then queued - covered else 0;
    }

    method FalseAlarms() returns (out: seq<string>)
      requires Valid()
      modifies this
      ensures Valid() && past == old(past).(told := |Reports(old(past.history))|)
      ensures out == AlarmsFrom(Reports(past.history), old(past.told))
    {
      out := falseAlarms;
      falseAlarms := [];
      past := past.(told := |Reports(past.history)|);
    }

    /** Some gate that is stuck, when there is one. */
    method Stuck() returns (name: string, ok: bool)
      requires Valid()
      ensures ok ==> StuckGate(past.history, name)
      ensures !ok ==> forall g :: !StuckGate(past.history, g)
    {
      var rest := verdict.Keys;
      while rest != {}
        invariant rest <= verdict.Keys
        invariant forall g | g in verdict && g !in rest :: !StuckGate(past.history, g)
        decreases rest
      {
        var g :| g in rest;
        VerdictIs(Reports(past.history), g);
        if verdict[g].repeats >= STUCK_AFTER - 1 {
          return g, true;
        }
        rest := rest - {g};
      }
      name, ok := "", false;
      forall g | g !in verdict ensures !StuckGate(past.history, g) { VerdictIs(Reports(past.history), g); }
    }

    /** What the gates found since this was last asked. */
    method Take() returns (results: seq<GateResult>)
      requires Valid()
      modifies this
      ensures Valid() && past == old(past).(handed := Results(old(past.history)))
      ensures old(past.handed) + results == Results(past.history)
    {
      results := pending;
      pending := [];
      past := past.(handed := Results(past.history));
    }
  }

  ghost predicate Named(changes: seq<Change>) {
    exists i | 0 <= i < |changes| :: changes[i].writer != ""
  }

  ghost predicate OneWriter(changes: seq<Change>) {
    forall i, j | 0 <= i < |changes| && 0 <= j < |changes| && changes[i].writer != "" && changes[j].writer != "" ::
      changes[i].writer == changes[j].writer
  }

  /** gate.SoleWriter: the one thread a batch names, or none. */
  method SoleWriter(changes: seq<Change>) returns (writer: string)
    ensures writer != "" <==> Named(changes) && OneWriter(changes)
    ensures writer != "" ==> exists i | 0 <= i < |changes| :: changes[i].writer == writer
  {
    writer := "";
    for k := 0 to |changes|
      invariant forall i | 0 <= i < k :: changes[i].writer == "" || changes[i].writer == writer
      invariant writer != "" ==> exists i | 0 <= i < k :: changes[i].writer == writer
    {
      if changes[k].writer == "" {
        continue;
      }
      if writer == "" {
        writer := changes[k].writer;
      } else if changes[k].writer != writer {
        return "";
      }
    }
  }

  /** attributed: some failure names a line in a file the run changed. */
  predicate Attributed(r: GateResult) {
    exists i | 0 <= i < |r.failures| :: r.failures[i].frames != []
  }

  /** attributedOnly: what may be handed to a run that shares the tree with others. */
  function AttributedOnly(results: seq<GateResult>): seq<GateResult> {
    if results == [] then []
    else
      var before, last := AttributedOnly(results[..|results| - 1]), results[|results| - 1];
      if last.pass || Attributed(last) then before + [last] else before
  }

  /** A failure reaches a run that is not alone exactly when it names a file of that run's. */
  lemma {:induction false} AttributedOnlyKeeps(results: seq<GateResult>, r: GateResult)
    ensures r in AttributedOnly(results) <==> r in results && (r.pass || Attributed(r))
  {
    if results != [] {
      var m := |results| - 1;
      AttributedOnlyKeeps(results[..m], r);
      assert results == results[..m] + [results[m]];
    }
  }

  /** A writer's past; one that has not run has none. */
  function At(pasts: map<string, Past>, w: string): Past {
    if w in pasts then pasts[w] else NO_PAST
  }

  /** Each writer has a state of its own. */
  ghost predicate Apart(states: map<string, RunState>, owned: set<RunState>) {
    && (forall w | w in states :: states[w] in owned)
    && (forall v, w | v in states && w in states && v != w :: states[v] != states[w])
  }

  lemma ApartNext(states: map<string, RunState>, owned: set<RunState>, w: string, st: RunState)
    requires Apart(states, owned) && st !in owned
    ensures Apart(states[w := st], owned + {st})
  {
  }

  /** Every writer's run. */
  class Gates {
    var states: map<string, RunState>
    ghost var pasts: map<string, Past>
    ghost var owned: set<RunState>

    ghost predicate Valid()
      reads this, owned
    {
      && Apart(states, owned) && pasts.Keys <= states.Keys
      && (forall w | w in states :: states[w].Valid() && states[w].past == At(pasts, w))
    }

    /** Only one writer's state was touched. */
    twostate lemma Touched(w: string)
      requires old(Valid()) && states == old(states) && owned == old(owned) && w in states && states[w].Valid()
      requires pasts == old(pasts)[w := states[w].past]
      requires forall v | v in states && v != w :: unchanged(states[v])
      ensures Valid()
    {
    }

    constructor ()
      ensures Valid() && pasts == map[]
    {
      states, pasts, owned := map[], map[], {};
    }

    /** A writer's state, made on first use. */
    method State(w: string) returns (st: RunState)
      requires Valid()
      modifies this
      ensures Valid() && w in states && states[w] == st && pasts == old(pasts)
      ensures fresh(owned - old(owned))
    {
      if w in states {
        return states[w];
      }
      st := new RunState();
      ApartNext(states, owned, w, st);
      states, owned := states[w := st], owned + {st};
    }

    /** Begin forgets the writer's last run, and no other's. */
    method Begin(w: string)
      requires Valid()
      modifies this
      ensures Valid() && pasts == old(pasts)[w := NO_PAST]
      ensures fresh(owned - old(owned))
    {
      var st := new RunState();
      ApartNext(states, owned, w, st);
      states, owned := states[w := st], owned + {st};
      pasts := pasts[w := NO_PAST];
    }

    /** A change joins its writer's past and no other. */
    method Enqueue(c: Change)
      requires Valid()
      modifies this, owned
      ensures Valid()
      ensures pasts == old(pasts)[c.writer := With(At(old(pasts), c.writer), Wrote(c))]
      ensures fresh(owned - old(owned))
    {
      var st := State(c.writer);
      label Found:
      st.Enqueue(c);
      pasts := pasts[c.writer := st.past];
      Touched@Found(c.writer);
    }

    /** A batch joins a writer's past and no other. */
    method CollectFor(w: string, results: seq<GateResult>, covered: nat)
      requires Valid()
      modifies this, owned
      ensures Valid() && pasts == old(pasts)[w := With(At(old(pasts), w), Ran(results, covered))]
      ensures fresh(owned - old(owned))
    {
      var st := State(w);
      label Found:
      st.Collect(results, covered);
      pasts := pasts[w := st.past];
      Touched@Found(w);
    }

    /** A batch joins the past of the one writer its changes name. */
    method Collect(changes: seq<Change>, results: seq<GateResult>) returns (ghost writer: string)
      requires Valid()
      modifies this, owned
      ensures Valid() && pasts == old(pasts)[writer := With(At(old(pasts), writer), Ran(results, |changes|))]
      ensures writer != "" <==> Named(changes) && OneWriter(changes)
      ensures writer != "" ==> exists i | 0 <= i < |changes| :: changes[i].writer == writer
      ensures fresh(owned - old(owned))
    {
      var w := SoleWriter(changes);
      writer := w;
      CollectFor(w, results, |changes|);
    }

    method Stuck(w: string) returns (name: string, ok: bool)
      requires Valid()
      modifies this
      ensures Valid() && pasts == old(pasts)
      ensures fresh(owned - old(owned))
      ensures ok ==> StuckGate(At(old(pasts), w).history, name)
      ensures !ok ==> forall g :: !StuckGate(At(old(pasts), w).history, g)
    {
      var st := State(w);
      name, ok := st.Stuck();
    }

    method FalseAlarms(w: string) returns (out: seq<string>)
      requires Valid()
      modifies this, owned
      ensures Valid()
      ensures var was := At(old(pasts), w);
        && out == AlarmsFrom(Reports(was.history), was.told)
        && pasts == old(pasts)[w := was.(told := |Reports(was.history)|)]
    {
      var st := State(w);
      label Found:
      out := st.FalseAlarms();
      pasts := pasts[w := st.past];
      Touched@Found(w);
    }

    /** One more writer looked at. */
    method Look(w: string, ghost looked: set<string>, first: string, seen: bool)
      returns (many: bool, first': string, seen': bool)
      requires Valid() && w in states && w !in looked && SeenOnly(pasts, looked, first, seen)
      ensures if many then !SoleRun(pasts) else SeenOnly(pasts, looked + {w}, first', seen')
    {
      ChangedOf(w);
      SeenNext(pasts, looked, first, seen, w);
      many, first', seen' := false, first, seen;
      if states[w].changed != [] {
        many, first', seen' := seen, w, true;
      }
    }

    /** soleWriter: at most one run has changes. */
    method Alone() returns (alone: bool)
      requires Valid()
      ensures alone <==> SoleRun(pasts)
    {
      var rest := states.Keys;
      ghost var looked: set<string> := {};
      var first, seen := "", false;
      while rest != {}
        invariant rest <= states.Keys && looked !! rest && pasts.Keys <= looked + rest
                  && SeenOnly(pasts, looked, first, seen)
        decreases rest
      {
        var w :| w in rest;
        var many;
        many, first, seen := Look(w, looked, first, seen);
        if many {
          return false;
        }
        looked, rest := looked + {w}, rest - {w};
      }
      alone := true;
    }

    lemma ChangedOf(w: string)
      requires Valid() && w in states
      ensures states[w].changed == Changes(At(pasts, w).history) && (states[w].changed != [] ==> w in pasts)
    {
    }

    /** The results a turn is handed: all since the last time, or, beside another run, those that are this run's. */
    method TakeFeedback(w: string) returns (results: seq<GateResult>)
      requires Valid()
      modifies this, owned
      ensures Valid()
      ensures var was := At(old(pasts), w);
        && pasts == old(pasts)[w := was.(handed := Results(was.history))]
        && exists all ::
             was.handed + all == Results(was.history) && results == if SoleRun(pasts) then all else AttributedOnly(all)
    {
      var st := State(w);
      label Found:
      results := st.Take();
      pasts := pasts[w := st.past];
      Touched@Found(w);
      var alone := Alone();
      if !alone {
        results := AttributedOnly(results);
      }
    }
  }

  /** Of the writers looked at, the first is the only one with changes, if any has. */
  ghost predicate SeenOnly(pasts: map<string, Past>, looked: set<string>, first: string, seen: bool) {
    && (forall w | w in pasts && w in looked && Changes(pasts[w].history) != [] :: seen && w == first)
    && (seen ==> first in pasts && first in looked && Changes(pasts[first].history) != [])
  }

  lemma SeenNext(pasts: map<string, Past>, looked: set<string>, first: string, seen: bool, w: string)
    requires SeenOnly(pasts, looked, first, seen) && w !in looked
    ensures Changes(At(pasts, w).history) == [] ==> SeenOnly(pasts, looked + {w}, first, seen)
    ensures Changes(At(pasts, w).history) != [] && !seen ==> SeenOnly(pasts, looked + {w}, w, true)
    ensures Changes(At(pasts, w).history) != [] && seen ==> !SoleRun(pasts)
  {
    if Changes(At(pasts, w).history) != [] { assert w in pasts; }
  }

  /** No two runs have changes. */
  ghost predicate SoleRun(pasts: map<string, Past>) {
    forall v, w | v in pasts && w in pasts && Changes(pasts[v].history) != []
      && Changes(pasts[w].history) != [] :: v == w
  }
}
