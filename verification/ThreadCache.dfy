/** The cache a daemon keeps of a thread, folded from the thread's log as it grows (internal/daemon/thread.go,
internal/daemon/metrics.go). What it costs is left out: that depends on more than the log. */
module ThreadCache {
  import opened Outcomes
  import opened Events
  import EventLog

  const LANE_SAMPLES: nat := 64

  datatype Sample = Sample(at: int, state: State)

  datatype EditPoint = EditPoint(repo: string, op: string, tool: string, paths: seq<string>)

  /** Lifetime sums of the token counts; context and timings are the last turn's. */
  datatype Totals = Totals(input: int, output: int, cacheRead: int, context: int, timings: Option<int>)

  // ---- what a log says ----

  /** The values pick reads from the events, in order. */
  function Picked<T>(s: seq<Event>, pick: Event -> Option<T>): seq<T> {
    if s == [] then []
    else
      var before := Picked(s[..|s| - 1], pick);
      match pick(s[|s| - 1])
      case None => before
      case Some(v) => before + [v]
  }

  function LastOr<T>(s: seq<T>, default: T): T {
    if s == [] then default else s[|s| - 1]
  }

  /** The events since the last prompt: those of the current run. */
  function SincePrompt(s: seq<Event>): seq<Event> {
    if s == [] || s[|s| - 1].kind.User? then [] else SincePrompt(s[..|s| - 1]) + [s[|s| - 1]]
  }

  function AtOf(ev: Event): Option<int> {
    Some(ev.at)
  }

  function PromptAt(ev: Event): Option<int> {
    if ev.kind.User? then Some(ev.at) else None
  }

  function TurnEndAt(ev: Event): Option<int> {
    if ev.kind.User? || ev.detail.usage.Some? then Some(ev.at) else None
  }

  function SampleOf(ev: Event): Option<Sample> {
    if ev.kind.StateChange? then Some(Sample(ev.at, ev.state)) else None
  }

  function ArchivedOf(ev: Event): Option<bool> {
    if ev.kind.Archive? then ev.detail.archived else None
  }

  function UsageOf(ev: Event): Option<Usage> {
    ev.detail.usage
  }

  function ServedOf(ev: Event): Option<(string, string)> {
    if ev.kind.Agent? then ev.detail.served else None
  }

  function SavedOf(ev: Event): Option<int> {
    if ev.kind.UsageRow? then ev.detail.tokensSaved else None
  }

  function PhaseOf(ev: Event): Option<string> {
    if ev.kind.CycleRow? then ev.detail.phase else None
  }

  function FirstLine(s: string): string {
    if s == "" || s[0] == '\n' then "" else [s[0]] + FirstLine(s[1..])
  }

  function StateText(state: State): string {
    match state
    case Working => "working"
    case Gating => "running gates"
    case NeedsInput => "needs input"
    case Blocked => "waiting on a lock"
    case Failed => "failed"
    case Done => "done"
    case Idle => "idle"
  }

  /** stepText: what a thread is doing, in words; empty where the event says nothing of it. */
  function StepText(ev: Event): string {
    match ev.kind
    case StateChange => if ev.text != "" then ev.text else StateText(ev.state)
    case ToolCall => if ev.tool != "" then ev.tool else "running a tool"
    case Gate => "gate " + ev.tool
    case CycleRow => FirstLine(ev.text)
    case HypothesisRow => "recording what it found"
    case Permission => "waiting for approval"
    case ErrorRow => FirstLine(ev.text)
    case Agent => "responding"
    case _ => ""
  }

  function StepOf(ev: Event): Option<string> {
    if StepText(ev) != "" then Some(StepText(ev)) else None
  }

  function Input(us: seq<Usage>): int {
    if us == [] then 0 else Input(us[..|us| - 1]) + us[|us| - 1].input
  }

  function Output(us: seq<Usage>): int {
    if us == [] then 0 else Output(us[..|us| - 1]) + us[|us| - 1].output
  }

  function CacheRead(us: seq<Usage>): int {
    if us == [] then 0 else CacheRead(us[..|us| - 1]) + us[|us| - 1].cacheRead
  }

  function Timings(us: seq<Usage>): Option<int> {
    if us == [] then None else if us[|us| - 1].timings.Some? then us[|us| - 1].timings else Timings(us[..|us| - 1])
  }

  function TotalsOf(us: seq<Usage>): Totals {
    Totals(Input(us), Output(us), CacheRead(us),
           if us == [] then 0 else us[|us| - 1].input + us[|us| - 1].output, Timings(us))
  }

  function Sum(xs: seq<int>): int {
    if xs == [] then 0 else Sum(xs[..|xs| - 1]) + xs[|xs| - 1]
  }

  /** The paths of a change that lie in a repository, or all of them when none does. */
  function PathsIn(inRepo: (string, string) -> bool, repo: string, paths: seq<string>): seq<string> {
    var own := Selected(inRepo, repo, paths);
    if own == [] then paths else own
  }

  function Selected(inRepo: (string, string) -> bool, repo: string, paths: seq<string>): seq<string> {
    if paths == [] then []
    else
      var before, p := Selected(inRepo, repo, paths[..|paths| - 1]), paths[|paths| - 1];
      if inRepo(repo, p) then before + [p] else before
  }

  /** One point for each repository an accepted change was captured in. */
  function PointsOf(inRepo: (string, string) -> bool, ev: Event): seq<EditPoint> {
    if !ev.kind.ToolCall? || ev.changes == [] then []
    else
      var cs := ev.detail.checkpoints;
      seq(|cs|, i requires 0 <= i < |cs| => EditPoint(cs[i].0, cs[i].1, ev.tool, PathsIn(inRepo, cs[i].0, ev.changes)))
  }

  function EditsOf(inRepo: (string, string) -> bool, s: seq<Event>): seq<EditPoint> {
    if s == [] then [] else EditsOf(inRepo, s[..|s| - 1]) + PointsOf(inRepo, s[|s| - 1])
  }

  lemma PickedNext<T>(s: seq<Event>, ev: Event, pick: Event -> Option<T>)
    ensures Picked(s + [ev], pick) == Picked(s, pick) + if pick(ev).Some? then [pick(ev).value] else []
  {
    assert (s + [ev])[..|s|] == s;
  }

  lemma EditsNext(inRepo: (string, string) -> bool, s: seq<Event>, ev: Event)
    ensures EditsOf(inRepo, s + [ev]) == EditsOf(inRepo, s) + PointsOf(inRepo, ev)
  {
    assert (s + [ev])[..|s|] == s;
  }

  lemma TotalsNext(us: seq<Usage>, u: Usage)
    ensures TotalsOf(us + [u]) == var t := TotalsOf(us);
      Totals(t.input + u.input, t.output + u.output, t.cacheRead + u.cacheRead, u.input + u.output,
             if u.timings.Some? then u.timings else t.timings)
  {
    assert (us + [u])[..|us|] == us;
  }

  /** What is after the newest event folded in is what the log has gained since. */
  lemma {:induction false} AfterSeen(seen: seq<Event>, disk: seq<Event>)
    requires seen <= disk && EventLog.Increasing(disk)
    ensures EventLog.After(disk, EventLog.Head(seen)) == disk[|seen|..]
    decreases |disk|
  {
    if |seen| == |disk| {
      assert seen == disk;
      NoneAfterHead(disk);
    } else {
      var before, last := disk[..|disk| - 1], disk[|disk| - 1];
      AfterSeen(seen, before);
      HeadBelowLast(seen, disk);
      assert disk == before + [last] && disk[|seen|..] == before[|seen|..] + [last];
      EventLog.AfterAppend(before, last, EventLog.Head(seen));
    }
  }

  lemma NoneAfterHead(disk: seq<Event>)
    requires EventLog.Increasing(disk)
    ensures EventLog.After(disk, EventLog.Head(disk)) == []
  {
    EventLog.IncreasingIs(disk);
    EventLog.AfterNone(disk, EventLog.Head(disk));
  }

  lemma HeadBelowLast(seen: seq<Event>, disk: seq<Event>)
    requires seen < disk && EventLog.Increasing(disk)
    ensures EventLog.Head(seen) < disk[|disk| - 1].seqNo && EventLog.Increasing(disk[..|disk| - 1])
  {
    EventLog.IncreasingIs(disk);
  }

  lemma SumNext(xs: seq<int>, x: int)
    ensures Sum(xs + [x]) == Sum(xs) + x
  {
    assert (xs + [x])[..|xs|] == xs;
  }

  function LastSamples(s: seq<Sample>): seq<Sample> {
    if |s| <= LANE_SAMPLES then s else s[|s| - LANE_SAMPLES..]
  }

  lemma SamplesNext(s: seq<Sample>, x: Sample)
    ensures var kept := LastSamples(s) + [x];
      LastSamples(s + [x]) == if |kept| > LANE_SAMPLES then kept[|kept| - LANE_SAMPLES..] else kept
  {
  }

  /** Everything a log says that a cache needs: what is read from all of it, and what is read since the last prompt. */
  datatype Digest = Digest(
    times: seq<int>, prompts: seq<int>, turnEnds: seq<int>, samples: seq<Sample>, archived: seq<bool>,
      steps: seq<string>, phases: seq<string>, usages: seq<Usage>, served: seq<(string, string)>, saved: seq<int>,
    runUsages: seq<Usage>, runEdits: seq<EditPoint>)

  function With<T>(xs: seq<T>, x: Option<T>): seq<T> {
    if x.Some? then xs + [x.value] else xs
  }

  function Digested(inRepo: (string, string) -> bool, d: Digest, ev: Event): Digest {
    Digest(With(d.times, AtOf(ev)), With(d.prompts, PromptAt(ev)), With(d.turnEnds, TurnEndAt(ev)),
           With(d.samples, SampleOf(ev)), With(d.archived, ArchivedOf(ev)), With(d.steps, StepOf(ev)),
           With(d.phases, PhaseOf(ev)), With(d.usages, UsageOf(ev)), With(d.served, ServedOf(ev)),
             With(d.saved, SavedOf(ev)), if ev.kind.User? then [] else With(d.runUsages, UsageOf(ev)),
           if ev.kind.User? then [] else d.runEdits + PointsOf(inRepo, ev))
  }

  function DigestOf(inRepo: (string, string) -> bool, s: seq<Event>): Digest {
    if s == [] then Digest([], [], [], [], [], [], [], [], [], [], [], [])
    else Digested(inRepo, DigestOf(inRepo, s[..|s| - 1]), s[|s| - 1])
  }

  lemma DigestNext(inRepo: (string, string) -> bool, s: seq<Event>, ev: Event)
    ensures DigestOf(inRepo, s + [ev]) == Digested(inRepo, DigestOf(inRepo, s), ev)
  {
    assert (s + [ev])[..|s|] == s;
  }

  /** Digesting a log event by event is reading each of these off the whole of it. */
  lemma DigestIs(inRepo: (string, string) -> bool, s: seq<Event>)
    ensures var d := DigestOf(inRepo, s);
      && d.times == Picked(s, AtOf) && d.prompts == Picked(s, PromptAt) && d.turnEnds == Picked(s, TurnEndAt)
      && d.samples == Picked(s, SampleOf) && d.archived == Picked(s, ArchivedOf) && d.steps == Picked(s, StepOf)
      && d.phases == Picked(s, PhaseOf) && d.usages == Picked(s, UsageOf) && d.served == Picked(s, ServedOf)
      && d.saved == Picked(s, SavedOf)
      && d.runUsages == Picked(SincePrompt(s), UsageOf) && d.runEdits == EditsOf(inRepo, SincePrompt(s))
  {
    TimesDigested(inRepo, s);
    LabelsDigested(inRepo, s);
    CountsDigested(inRepo, s);
    RunDigested(inRepo, s);
  }

  lemma {:induction false} TimesDigested(inRepo: (string, string) -> bool, s: seq<Event>)
    ensures var d := DigestOf(inRepo, s);
      d.times == Picked(s, AtOf) && d.prompts == Picked(s, PromptAt) && d.turnEnds == Picked(s, TurnEndAt)
  {
    if s != [] { TimesDigested(inRepo, s[..|s| - 1]); }
  }

  lemma {:induction false} LabelsDigested(inRepo: (string, string) -> bool, s: seq<Event>)
    ensures var d := DigestOf(inRepo, s);
      && d.samples == Picked(s, SampleOf) && d.archived == Picked(s, ArchivedOf) && d.steps == Picked(s, StepOf)
      && d.phases == Picked(s, PhaseOf)
  {
    if s != [] { LabelsDigested(inRepo, s[..|s| - 1]); }
  }

  lemma {:induction false} CountsDigested(inRepo: (string, string) -> bool, s: seq<Event>)
    ensures var d := DigestOf(inRepo, s);
      d.usages == Picked(s, UsageOf) && d.served == Picked(s, ServedOf) && d.saved == Picked(s, SavedOf)
  {
    if s != [] { CountsDigested(inRepo, s[..|s| - 1]); }
  }

  lemma {:induction false} RunDigested(inRepo: (string, string) -> bool, s: seq<Event>)
    ensures var d := DigestOf(inRepo, s);
      d.runUsages == Picked(SincePrompt(s), UsageOf) && d.runEdits == EditsOf(inRepo, SincePrompt(s))
  {
    if s != [] {
      var before, ev := s[..|s| - 1], s[|s| - 1];
      RunDigested(inRepo, before);
      PickedNext(SincePrompt(before), ev, UsageOf);
      EditsNext(inRepo, SincePrompt(before), ev);
    }
  }

  ghost predicate TimesAre(d: Digest, lastAt: int, runStart: int, turnStart: int, turns: nat) {
    && lastAt == LastOr(d.times, 0) && runStart == LastOr(d.prompts, 0) && turnStart == LastOr(d.turnEnds, 0)
    && turns == |d.runUsages|
  }

  ghost predicate SamplesAre(d: Digest, state: State, samples: seq<Sample>) {
    state == LastOr(d.samples, Sample(0, Idle)).state && samples == LastSamples(d.samples)
  }

  ghost predicate LabelsAre(d: Digest, archived: bool, served: (string, string)) {
    archived == LastOr(d.archived, false) && served == LastOr(d.served, ("", ""))
  }

  ghost predicate WordsAre(d: Digest, step: string, phase: string) {
    step == LastOr(d.steps, "") && phase == LastOr(d.phases, "")
  }

  ghost predicate CountsAre(d: Digest, usage: Totals, compactions: nat, tokensSaved: int) {
    usage == TotalsOf(d.usages) && compactions == |d.saved| && tokensSaved == Sum(d.saved)
  }

  lemma WordsDigest(inRepo: (string, string) -> bool, d: Digest, ev: Event)
    ensures var text := StepText(ev);
      Digested(inRepo, d, ev).steps == if text != "" then d.steps + [text] else d.steps
    ensures var x := ev.detail.phase;
      Digested(inRepo, d, ev).phases == if ev.kind.CycleRow? && x.Some? then d.phases + [x.value] else d.phases
  {
  }

  lemma CountsDigest(inRepo: (string, string) -> bool, d: Digest, ev: Event)
    ensures var u := ev.detail.usage;
      Digested(inRepo, d, ev).usages == if u.Some? then d.usages + [u.value] else d.usages
    ensures var x := ev.detail.tokensSaved;
      Digested(inRepo, d, ev).saved == if ev.kind.UsageRow? && x.Some? then d.saved + [x.value] else d.saved
  {
  }

  class Cache {
    const inRepo: (string, string) -> bool
    var processed: nat
    var lastAt: int
    var state: State
    var samples: seq<Sample>
    var archived: bool
    var usage: Totals
    var served: (string, string)
    var compactions: nat
    var tokensSaved: int
    var step: string
    var phase: string
    var runStart: int
    var turnStart: int
    var turns: nat
    var edits: seq<EditPoint>
    /** The part of the log this cache is of, and what that says. */
    ghost var seen: seq<Event>
    ghost var digest: Digest

    /** Every field is what the whole of that log says. */
    ghost predicate Valid()
      reads this
    {
      processed == EventLog.Head(seen) && digest == DigestOf(inRepo, seen) && Says(digest)
    }

    ghost predicate Says(d: Digest)
      reads this
    {
      && TimesAre(d, lastAt, runStart, turnStart, turns) && SamplesAre(d, state, samples)
      && LabelsAre(d, archived, served) && WordsAre(d, step, phase) && CountsAre(d, usage, compactions, tokensSaved)
      && edits == d.runEdits
    }

    constructor (inRepo: (string, string) -> bool)
      ensures Valid() && seen == [] && this.inRepo == inRepo
    {
      this.inRepo := inRepo;
      processed, lastAt, state, samples, archived, usage := 0, 0, Idle, [], false, Totals(0, 0, 0, 0, None);
      served, compactions, tokensSaved, step, phase := ("", ""), 0, 0, "", "";
      runStart, turnStart, turns, edits, seen := 0, 0, 0, [], [];
      digest := DigestOf(inRepo, []);
    }

    /** applyTiming, and the time of the event itself. */
    method ApplyTiming(ev: Event)
      requires TimesAre(digest, lastAt, runStart, turnStart, turns)
      modifies `lastAt, `runStart, `turnStart, `turns
      ensures TimesAre(Digested(inRepo, digest, ev), lastAt, runStart, turnStart, turns)
    {
      lastAt := ev.at;
      if ev.kind.User? {
        runStart, turnStart, turns := ev.at, ev.at, 0;
        return;
      }
      if ev.detail.usage.Some? {
        turns := turns + 1;
        turnStart := ev.at;
      }
    }

    method ApplyState(ev: Event)
      requires SamplesAre(digest, state, samples)
      modifies `state, `samples
      ensures SamplesAre(Digested(inRepo, digest, ev), state, samples)
    {
      if ev.kind.StateChange? {
        state := ev.state;
        AddSample(Sample(ev.at, ev.state), digest.samples);
      }
    }

    method AddSample(x: Sample, ghost all: seq<Sample>)
      requires samples == LastSamples(all)
      modifies `samples
      ensures samples == LastSamples(all + [x])
    {
      SamplesNext(all, x);
      samples := samples + [x];
      if |samples| > LANE_SAMPLES {
        samples := samples[|samples| - LANE_SAMPLES..];
      }
    }

    method ApplyLabels(ev: Event)
      requires LabelsAre(digest, archived, served) && WordsAre(digest, step, phase)
      modifies `archived, `step, `phase, `served
      ensures LabelsAre(Digested(inRepo, digest, ev), archived, served)
              && WordsAre(Digested(inRepo, digest, ev), step, phase)
    {
      if ev.kind.Archive? && ev.detail.archived.Some? {
        archived := ev.detail.archived.value;
      }
      if ev.kind.Agent? && ev.detail.served.Some? {
        served := ev.detail.served.value;
      }
      ApplyWords(ev);
    }

    method ApplyWords(ev: Event)
      requires WordsAre(digest, step, phase)
      modifies `step, `phase
      ensures WordsAre(Digested(inRepo, digest, ev), step, phase)
    {
      WordsDigest(inRepo, digest, ev);
      var text := StepText(ev);
      if text != "" {
        step := text;
      }
      if ev.kind.CycleRow? && ev.detail.phase.Some? {
        phase := ev.detail.phase.value;
      }
    }

    method ApplyCounts(ev: Event)
      requires CountsAre(digest, usage, compactions, tokensSaved)
      modifies `usage, `compactions, `tokensSaved
      ensures CountsAre(Digested(inRepo, digest, ev), usage, compactions, tokensSaved)
    {
      CountsDigest(inRepo, digest, ev);
      if ev.detail.usage.Some? {
        AddUsage(ev.detail.usage.value, digest.usages);
      }
      if ev.kind.UsageRow? && ev.detail.tokensSaved.Some? {
        AddSaved(ev.detail.tokensSaved.value, digest.saved);
      }
    }

    /** One more compaction, and what it saved. */
    method AddSaved(x: int, ghost all: seq<int>)
      requires compactions == |all| && tokensSaved == Sum(all)
      modifies `compactions, `tokensSaved
      ensures compactions == |all + [x]| && tokensSaved == Sum(all + [x])
    {
      SumNext(all, x);
      compactions := compactions + 1;
      tokensSaved := tokensSaved + x;
    }

    /** usage.add: lifetime sums, the last turn's context, and its timings where it has any. */
    method AddUsage(v: Usage, ghost all: seq<Usage>)
      requires usage == TotalsOf(all)
      modifies `usage
      ensures usage == TotalsOf(all + [v])
    {
      TotalsNext(all, v);
      usage := Totals(usage.input + v.input, usage.output + v.output, usage.cacheRead + v.cacheRead, v.input + v.output,
                      if v.timings.Some? then v.timings else usage.timings);
    }

    method ApplyEditPoint(ev: Event)
      requires edits == digest.runEdits
      modifies `edits
      ensures edits == Digested(inRepo, digest, ev).runEdits
    {
      if ev.kind.User? {
        edits := [];
        return;
      }
      if !ev.kind.ToolCall? || ev.changes == [] {
        return;
      }
      AddPoints(ev);
    }

    /** One point for each repository the call changed. */
    method AddPoints(ev: Event)
      requires ev.kind.ToolCall? && ev.changes != []
      modifies `edits
      ensures edits == old(edits) + PointsOf(inRepo, ev)
    {
      var repos := ev.detail.checkpoints;
      for i := 0 to |repos|
        invariant edits == old(edits) + PointsOf(inRepo, ev)[..i]
      {
        edits := edits + [EditPoint(repos[i].0, repos[i].1, ev.tool, PathsIn(inRepo, repos[i].0, ev.changes))];
      }
      assert PointsOf(inRepo, ev)[..|repos|] == PointsOf(inRepo, ev);
    }

    /** What a cache shows, read off the log it is of: each event counted once, a run's turns and edits since its
        prompt. */
    lemma Reading()
      requires Valid()
      ensures state == LastOr(Picked(seen, SampleOf), Sample(0, Idle)).state
              && samples == LastSamples(Picked(seen, SampleOf))
      ensures usage == TotalsOf(Picked(seen, UsageOf)) && served == LastOr(Picked(seen, ServedOf), ("", ""))
      ensures turns == |Picked(SincePrompt(seen), UsageOf)| && edits == EditsOf(inRepo, SincePrompt(seen))
      ensures runStart == LastOr(Picked(seen, PromptAt), 0) && turnStart == LastOr(Picked(seen, TurnEndAt), 0)
      ensures compactions == |Picked(seen, SavedOf)| && tokensSaved == Sum(Picked(seen, SavedOf))
      ensures archived == LastOr(Picked(seen, ArchivedOf), false) && lastAt == LastOr(Picked(seen, AtOf), 0)
      ensures step == LastOr(Picked(seen, StepOf), "") && phase == LastOr(Picked(seen, PhaseOf), "")
    {
      DigestIs(inRepo, seen);
    }

    method Fold(ev: Event)
      requires Says(digest)
      modifies `lastAt, `runStart, `turnStart, `turns, `state, `samples, `archived, `step, `phase, `served, `usage,
               `compactions, `tokensSaved, `edits
      ensures Says(Digested(inRepo, digest, ev))
    {
      ghost var next := Digested(inRepo, digest, ev);
      ApplyShown(ev);
      assert TimesAre(next, lastAt, runStart, turnStart, turns) && SamplesAre(next, state, samples);
      ApplyRest(ev);
    }

    method ApplyShown(ev: Event)
      requires TimesAre(digest, lastAt, runStart, turnStart, turns) && SamplesAre(digest, state, samples)
      modifies `lastAt, `runStart, `turnStart, `turns, `state, `samples
      ensures TimesAre(Digested(inRepo, digest, ev), lastAt, runStart, turnStart, turns)
      ensures SamplesAre(Digested(inRepo, digest, ev), state, samples)
    {
      ApplyTiming(ev);
      ApplyState(ev);
    }

    method ApplyRest(ev: Event)
      requires LabelsAre(digest, archived, served) && WordsAre(digest, step, phase)
               && CountsAre(digest, usage, compactions, tokensSaved)
      requires edits == digest.runEdits
      modifies `archived, `step, `phase, `served, `usage, `compactions, `tokensSaved, `edits
      ensures LabelsAre(Digested(inRepo, digest, ev), archived, served)
              && WordsAre(Digested(inRepo, digest, ev), step, phase)
      ensures CountsAre(Digested(inRepo, digest, ev), usage, compactions, tokensSaved)
      ensures edits == Digested(inRepo, digest, ev).runEdits
    {
      ApplyLabels(ev);
      ApplyCounts(ev);
      ApplyEditPoint(ev);
    }

    /** The event joins the log this cache is of. */
    ghost method Take(ev: Event)
      requires digest == DigestOf(inRepo, seen)
      modifies `seen, `digest
      ensures seen == old(seen) + [ev] && digest == Digested(inRepo, old(digest), ev) == DigestOf(inRepo, seen)
      ensures EventLog.Head(seen) == ev.seqNo
    {
      DigestNext(inRepo, seen, ev);
      seen, digest := seen + [ev], Digested(inRepo, digest, ev);
    }

    /** apply: an event already folded in changes nothing; a newer one is folded in once. */
    method Apply(ev: Event)
      requires Valid()
      modifies this
      ensures Valid() && seen == if ev.seqNo <= old(processed) then old(seen) else old(seen) + [ev]
      ensures ev.seqNo <= old(processed) ==> unchanged(this)
    {
      if ev.seqNo <= processed {
        return;
      }
      ApplyNew(ev);
    }

    method ApplyNew(ev: Event)
      requires Valid()
      modifies this
      ensures Valid() && seen == old(seen) + [ev]
    {
      processed := ev.seqNo;
      FoldIn(ev);
      Take(ev);
    }

    method FoldIn(ev: Event)
      requires Says(digest)
      modifies this
      ensures Says(Digested(inRepo, digest, ev)) && processed == old(processed) && seen == old(seen)
              && digest == old(digest)
    {
      Fold(ev);
    }

    /** sync: whatever was appended since, and however much of it the ring has evicted, the cache becomes that of the
        whole log. */
    method Sync(log: EventLog.Log)
      requires Valid() && log.Valid() && seen <= log.disk
      modifies this
      ensures Valid() && seen == log.disk && processed == EventLog.Head(log.disk)
    {
      ghost var disk := log.disk;
      HeadBelow(seen, disk);
      var events := log.Since(processed);
      AfterSeen(seen, disk);
      ghost var from := |seen|;
      for i := 0 to |events|
        invariant Valid() && from <= from + i <= |disk| && seen == disk[..from + i]
      {
        NextAbove(disk, from + i);
        Apply(events[i]);
      }
      assert disk[..|disk|] == disk;
    }
  }

  lemma HeadBelow(seen: seq<Event>, disk: seq<Event>)
    requires seen <= disk && EventLog.Increasing(disk)
    ensures EventLog.Head(seen) < EventLog.SEQ_LIMIT
  {
    EventLog.IncreasingIs(disk);
  }

  lemma NextAbove(disk: seq<Event>, i: nat)
    requires EventLog.Increasing(disk) && i < |disk|
    ensures disk[i].seqNo > EventLog.Head(disk[..i]) && disk[..i] + [disk[i]] == disk[..i + 1]
  {
    EventLog.IncreasingPrefix(disk, i);
  }
}
