/** What a run wrote and what its gates answered, as one history, and what is to be read from it
(internal/app/changegate.go, internal/gate). */
module GateHistory {

  datatype Failure = Failure(package: string, test: string, frames: seq<string>, context: seq<string>)

  datatype GateResult = GateResult(gate: string, pass: bool, examined: nat, failures: seq<Failure>,
                                   rewrote: seq<string>)

  datatype Change = Change(path: string, writer: string)

  /** A change the run made, or a batch of gate results over some number of its changes. */
  datatype Event = Wrote(change: Change) | Ran(results: seq<GateResult>, covered: nat)

  // ---- what a failing gate reported ----

  function Joined(parts: seq<string>, sep: string): string {
    if parts == [] then ""
    else if |parts| == 1 then parts[0]
    else parts[0] + sep + Joined(parts[1..], sep)
  }

  function FailureText(f: Failure): string {
    f.package + " " + f.test + "\n" + Joined(f.frames, "\n") + "\n" + Joined(f.context, "\n")
  }

  /** failureSignature: everything a gate reported, flattened. */
  function Signature(r: GateResult): string {
    Joined(seq(|r.failures|, i requires 0 <= i < |r.failures| => FailureText(r.failures[i])), "\n--\n")
  }

  /** Only a gate that named no failure at all has an empty signature. */
  lemma EmptySignature(r: GateResult)
    ensures Signature(r) == "" <==> r.failures == []
  {
    if r.failures != [] {
      assert |FailureText(r.failures[0])| > 0;
    }
  }

  // ---- the history ----

  /** A gate's answer, and how many changes the run had made when it came. */
  datatype Report = Report(gate: string, pass: bool, failure: string, changes: nat)

  function Rewrites(results: seq<GateResult>): seq<Change> {
    if results == [] then []
    else
      var last := results[|results| - 1];
      Rewrites(results[..|results| - 1])
      + seq(|last.rewrote|, i requires 0 <= i < |last.rewrote| => Change(last.rewrote[i], ""))
  }

  function ReportOf(r: GateResult, changes: nat): Report {
    Report(r.gate, r.pass, if r.pass then "" else Signature(r), changes)
  }

  function ReportsOf(results: seq<GateResult>, changes: nat): seq<Report> {
    seq(|results|, i requires 0 <= i < |results| => ReportOf(results[i], changes))
  }

  /** What a history comes to: the run's changes, its own and those a gate's fixer made under it; every gate answer,
      each dated by the changes that preceded its batch; every result; the latest batch; and how many changes no batch
      has covered yet, never below none. */
  datatype Story = Story(changes: seq<Change>, reports: seq<Report>, results: seq<GateResult>, latest: seq<GateResult>,
                         uncovered: nat)

  function Told(s: Story, e: Event): Story {
    match e
    case Wrote(c) => s.(changes := s.changes + [c], uncovered := s.uncovered + 1)
    case Ran(results, covered) =>
      Story(s.changes + Rewrites(results), s.reports + ReportsOf(results, |s.changes|), s.results + results, results,
            if s.uncovered >= covered then s.uncovered - covered else 0)
  }

  function StoryOf(h: seq<Event>): Story {
    if h == [] then Story([], [], [], [], 0) else Told(StoryOf(h[..|h| - 1]), h[|h| - 1])
  }

  function Changes(h: seq<Event>): seq<Change> {
    StoryOf(h).changes
  }

  function Reports(h: seq<Event>): seq<Report> {
    StoryOf(h).reports
  }

  function Results(h: seq<Event>): seq<GateResult> {
    StoryOf(h).results
  }

  lemma StoryNext(h: seq<Event>, e: Event)
    ensures StoryOf(h + [e]) == Told(StoryOf(h), e)
  {
    assert (h + [e])[..|h|] == h;
  }

  /** One gate's answers. */
  function Of(reports: seq<Report>, gate: string): seq<Report> {
    if reports == [] then []
    else
      var before, last := Of(reports[..|reports| - 1], gate), reports[|reports| - 1];
      if last.gate == gate then before + [last] else before
  }

  // ---- the same failure again ----

  /** The answers from s on are one failure, the latest, and the answer before them is not it. */
  ghost predicate Unbroken(rs: seq<Report>, s: nat) {
    && s < |rs| && rs[|rs| - 1].failure != ""
    && (forall k | s <= k < |rs| :: rs[k].failure == rs[|rs| - 1].failure)
    && (s > 0 ==> rs[s - 1].failure != rs[|rs| - 1].failure)
  }

  /** The k-th answer came with more changes made than the one before it. */
  predicate RoseAt(rs: seq<Report>, k: int) {
    0 < k < |rs| && rs[k].changes > rs[k - 1].changes
  }

  /** The answers after s that came with more changes made than the answer before them. */
  ghost function Rises(rs: seq<Report>, s: nat): set<int> {
    set k | s < k < |rs| && RoseAt(rs, k)
  }

  function StartOf(rs: seq<Report>): (s: nat)
    requires rs != []
    ensures s < |rs|
  {
    var m := |rs| - 1;
    if m == 0 || rs[m - 1].failure != rs[m].failure then m else StartOf(rs[..m])
  }

  /** How often the run edited against the failure a gate still reports. */
  ghost function Repeats(rs: seq<Report>): nat {
    if rs == [] || rs[|rs| - 1].failure == "" then 0 else |Rises(rs, StartOf(rs))|
  }

  lemma {:induction false} StartUnbroken(rs: seq<Report>)
    requires rs != [] && rs[|rs| - 1].failure != ""
    ensures Unbroken(rs, StartOf(rs))
  {
    var m := |rs| - 1;
    if m > 0 && rs[m - 1].failure == rs[m].failure {
      StartUnbroken(rs[..m]);
    }
  }

  /** There is one unbroken run of the current failure, and what is counted is the rises along it. */
  lemma RepeatsAre(rs: seq<Report>, s: nat)
    requires Unbroken(rs, s)
    ensures Repeats(rs) == |Rises(rs, s)|
  {
    StartUnbroken(rs);
    UnbrokenOnce(rs, s, StartOf(rs));
  }

  lemma UnbrokenOnce(rs: seq<Report>, s: nat, t: nat)
    requires Unbroken(rs, s) && Unbroken(rs, t)
    ensures s == t
  {
  }

  /** One more answer carries the count on, adds to it, or starts over. */
  lemma RepeatsNext(rs: seq<Report>, r: Report)
    ensures Repeats(rs + [r]) ==
      if rs == [] || r.failure == "" || r.failure != rs[|rs| - 1].failure then 0
      else Repeats(rs) + if r.changes > rs[|rs| - 1].changes then 1 else 0
  {
    var next := rs + [r];
    assert next[..|rs|] == rs;
    if r.failure == "" {
    } else if rs == [] || r.failure != rs[|rs| - 1].failure {
      assert Rises(next, StartOf(next)) == {};
    } else {
      var s := StartOf(rs);
      assert StartOf(next) == s;
      RisesNext(rs, r, s);
    }
  }

  lemma RisesNext(rs: seq<Report>, r: Report, s: nat)
    requires s < |rs|
    ensures |Rises(rs + [r], s)| == |Rises(rs, s)| + if r.changes > rs[|rs| - 1].changes then 1 else 0
  {
    var next := rs + [r];
    assert forall k | 0 < k < |rs| :: RoseAt(next, k) == RoseAt(rs, k);
    assert Rises(next, s) == Rises(rs, s) + if r.changes > rs[|rs| - 1].changes then {|rs|} else {};
  }

  /** A gate that fails three times alike with changes in between, and none of its answers different, is stuck. */
  ghost predicate StuckGate(h: seq<Event>, gate: string) {
    Repeats(Of(Reports(h), gate)) >= 2
  }

  /** Stuck is a statement about the whole history: along the unbroken run of the failure the gate still reports, the
      change count rose at least twice. */
  lemma StuckExactly(h: seq<Event>, gate: string)
    ensures StuckGate(h, gate)
       <==> exists s: nat :: Unbroken(Of(Reports(h), gate), s) && |Rises(Of(Reports(h), gate), s)| >= 2
  {
    var rs := Of(Reports(h), gate);
    forall s: nat | Unbroken(rs, s) ensures Repeats(rs) == |Rises(rs, s)| { RepeatsAre(rs, s); }
    if rs != [] && rs[|rs| - 1].failure != "" {
      StartUnbroken(rs);
    }
  }

  /** A gate that fails without naming a failure is never stuck, however often it does. */
  lemma UnnamedNeverStuck(h: seq<Event>, results: seq<GateResult>, covered: nat, r: GateResult)
    requires r.failures == []
    ensures !StuckGate(h + [Ran(results + [r], covered)], r.gate)
  {
    var n := |Changes(h)|;
    EmptySignature(r);
    LastAnswer(h, results, covered, r);
    OfNext(Reports(h) + ReportsOf(results, n), ReportOf(r, n), r.gate);
  }

  lemma LastAnswer(h: seq<Event>, results: seq<GateResult>, covered: nat, r: GateResult)
    ensures var n := |Changes(h)|;
      Reports(h + [Ran(results + [r], covered)]) == Reports(h) + ReportsOf(results, n) + [ReportOf(r, n)]
  {
    var n := |Changes(h)|;
    StoryNext(h, Ran(results + [r], covered));
    assert ReportsOf(results + [r], n) == ReportsOf(results, n) + [ReportOf(r, n)];
  }

  // ---- what is kept of a gate's answers ----

  /** A gate's last answer, and how often the run edited against the failure it reports. */
  datatype Verdict = Verdict(failure: string, changes: nat, repeats: nat, pass: bool)

  /** The gate's next verdict from the one before. */
  function NextVerdict(verdict: map<string, Verdict>, r: Report): Verdict {
    var next := Verdict(r.failure, r.changes, 0, r.pass);
    if r.gate in verdict && next.failure != "" && next.failure == verdict[r.gate].failure then
      next.(repeats := verdict[r.gate].repeats + if r.changes > verdict[r.gate].changes then 1 else 0)
    else next
  }

  function VerdictsAfter(reports: seq<Report>): map<string, Verdict> {
    if reports == [] then map[]
    else
      var before, r := VerdictsAfter(reports[..|reports| - 1]), reports[|reports| - 1];
      before[r.gate := NextVerdict(before, r)]
  }

  /** A verdict is what the gate's own answers add up to. */
  ghost predicate Sums(v: Verdict, rs: seq<Report>) {
    && rs != []
    && v == Verdict(rs[|rs| - 1].failure, rs[|rs| - 1].changes, Repeats(rs), rs[|rs| - 1].pass)
  }

  lemma SumsNext(verdict: map<string, Verdict>, own: seq<Report>, r: Report)
    requires (r.gate in verdict <==> own != []) && (r.gate in verdict ==> Sums(verdict[r.gate], own))
    ensures Sums(NextVerdict(verdict, r), own + [r])
  {
    RepeatsNext(own, r);
  }

  /** Kept answer by answer, the verdicts are what each gate's answers over the whole history add up to. */
  lemma {:induction false} VerdictIs(reports: seq<Report>, gate: string)
    ensures gate in VerdictsAfter(reports) <==> Of(reports, gate) != []
    ensures gate in VerdictsAfter(reports) ==> Sums(VerdictsAfter(reports)[gate], Of(reports, gate))
  {
    if reports != [] {
      var before, r := reports[..|reports| - 1], reports[|reports| - 1];
      VerdictIs(before, gate);
      if r.gate == gate { SumsNext(VerdictsAfter(before), Of(before, gate), r); }
    }
  }

  /** The answer takes back the gate's last one. */
  predicate TakesBack(verdict: map<string, Verdict>, r: Report) {
    r.gate in verdict && !verdict[r.gate].pass && r.pass && verdict[r.gate].changes == r.changes
  }

  /** The gates that took a failure back from the given answer on, in order. */
  function AlarmsFrom(reports: seq<Report>, from: nat): seq<string> {
    if |reports| <= from then []
    else
      var before, r := reports[..|reports| - 1], reports[|reports| - 1];
      AlarmsFrom(before, from) + if TakesBack(VerdictsAfter(before), r) then [r.gate] else []
  }

  lemma AnswerNext(reports: seq<Report>, r: Report, from: nat)
    requires from <= |reports|
    ensures VerdictsAfter(reports + [r]) == VerdictsAfter(reports)[r.gate := NextVerdict(VerdictsAfter(reports), r)]
    ensures AlarmsFrom(reports + [r], from)
         == AlarmsFrom(reports, from) + if TakesBack(VerdictsAfter(reports), r) then [r.gate] else []
  {
    assert (reports + [r])[..|reports|] == reports;
  }

  // ---- failures taken back ----

  /** The gate's answer before the i-th. */
  ghost predicate PriorTo(reports: seq<Report>, i: nat, j: nat) {
    && j < i < |reports| && reports[j].gate == reports[i].gate
    && forall k | j < k < i :: reports[k].gate != reports[i].gate
  }

  /** A pass right after a failure of the same gate with not one change in between. */
  ghost predicate FalseAlarm(reports: seq<Report>, i: nat) {
    && i < |reports| && reports[i].pass
    && exists j: nat | PriorTo(reports, i, j) :: !reports[j].pass && reports[j].changes == reports[i].changes
  }

  /** The last of a gate's answers. */
  lemma {:induction false} OfLast(reports: seq<Report>, gate: string)
    ensures Of(reports, gate) == [] <==> forall j | 0 <= j < |reports| :: reports[j].gate != gate
    ensures Of(reports, gate) != [] ==> exists j :: LastOf(reports, gate, j)
  {
    if reports != [] {
      var m := |reports| - 1;
      OfLast(reports[..m], gate);
      if reports[m].gate == gate {
        assert LastOf(reports, gate, m);
      } else if Of(reports, gate) != [] {
        var j :| LastOf(reports[..m], gate, j);
        LastStill(reports, gate, j);
      }
    }
  }

  /** The j-th answer is the gate's last. */
  ghost predicate LastOf(reports: seq<Report>, gate: string, j: nat) {
    && Of(reports, gate) != [] && j < |reports| && reports[j].gate == gate
    && reports[j] == Of(reports, gate)[|Of(reports, gate)| - 1]
    && forall k | j < k < |reports| :: reports[k].gate != gate
  }

  lemma LastStill(reports: seq<Report>, gate: string, j: nat)
    requires reports != [] && LastOf(reports[..|reports| - 1], gate, j) && reports[|reports| - 1].gate != gate
    ensures LastOf(reports, gate, j)
  {
    var m := |reports| - 1;
    forall k | j < k < |reports| ensures reports[k].gate != gate {
      if k < m { assert reports[..m][k] == reports[k]; }
    }
  }

  lemma PriorOnce(reports: seq<Report>, m: nat, i: nat, j: nat)
    requires PriorTo(reports, m, i) && PriorTo(reports, m, j)
    ensures i == j
  {
  }

  /** Whether an answer is a false alarm can be told from the gate's own answers before it, the last of them alone. */
  lemma FalseAlarmIs(reports: seq<Report>, i: nat)
    requires i < |reports|
    ensures FalseAlarm(reports, i) <==> TakesBack(VerdictsAfter(reports[..i]), reports[i])
  {
    var before, gate := reports[..i], reports[i].gate;
    var own := Of(before, gate);
    VerdictIs(before, gate);
    OfLast(before, gate);
    assert forall j | 0 <= j < i :: before[j] == reports[j];
    if own != [] {
      var j :| LastOf(before, gate, j);
      assert PriorTo(reports, i, j);
      forall k: nat | PriorTo(reports, i, k) ensures k == j { PriorOnce(reports, i, k, j); }
    }
  }

  lemma OfNext(reports: seq<Report>, r: Report, gate: string)
    ensures Of(reports + [r], gate) == Of(reports, gate) + if r.gate == gate then [r] else []
  {
    assert (reports + [r])[..|reports|] == reports;
  }

  /** A gate is listed just when one of its answers since then took a failure back. */
  lemma {:induction false} AlarmListed(reports: seq<Report>, from: nat, gate: string)
    ensures gate in AlarmsFrom(reports, from) <==>
      exists i: nat | from <= i < |reports| :: FalseAlarm(reports, i) && reports[i].gate == gate
  {
    if from < |reports| {
      var m := |reports| - 1;
      AlarmListed(reports[..m], from, gate);
      FalseAlarmIs(reports, m);
      forall i: nat | i < m ensures FalseAlarm(reports[..m], i) <==> FalseAlarm(reports, i) {
        FalseAlarmPrefix(reports, m, i);
      }
    }
  }

  lemma FalseAlarmPrefix(reports: seq<Report>, m: nat, i: nat)
    requires i < m <= |reports|
    ensures FalseAlarm(reports[..m], i) <==> FalseAlarm(reports, i)
  {
    FalseAlarmIs(reports[..m], i);
    FalseAlarmIs(reports, i);
    assert reports[..m][..i] == reports[..i];
  }
}
