/** The agent run loop: model turns, tool calls, verification and review under many bounds at once
(internal/agent/loop.go, internal/agent/review.go). The model, the router, the tools, the verifier, the review, the
slots and the clock may answer anything. */
module AgentRun {
  import opened Outcomes
  import opened RunTrace

  /** How a step of the run ends: it goes on, it stopped, or the log failed under it. */
  datatype Step = Continue | Stopped(stop: Stop) | Broken

  datatype StopReason = EndTurn | ToolUse | OtherReason

  /** What a model answered. */
  datatype Reply = Reply(blank: bool, calls: seq<Call>, usage: Option<Usage>, reason: StopReason)

  class Run {
    const o: Options
    const pricing: map<string, Pricing>
    const models: Choice -> string
    const editTask: bool
    const start: int
    var clock: int
    var turns: nat
    var toolCalls: nat
    var turnToolCalls: nat
    var consecutiveErrors: nat
    var escalations: nat
    var verifyRounds: nat
    var reviewRounds: nat
    var editAttempted: bool
    var stuckEscalated: bool
    var changes: seq<Change>
    var deadline: Option<int>
    var spend: real
    var route: Choice
    var lastCall: Option<Call>
    var gatesPassedAtEnd: bool
    /** What happened, and what it adds up to. */
    ghost var t: seq<Event>
    ghost var sums: seq<Sums>
    ghost var s: Sums
    /** The check of what a stopped run left behind. */
    ghost var leftBehind: Option<(seq<Change>, Verdict)>

    /** Every counter is what the trace adds up to, and the trace kept its bounds. */
    ghost predicate Valid()
      reads this
    {
      && Recorded(o, start, t, sums) && s == sums[|t|]
      && turns == s.turns && toolCalls == s.calls && turnToolCalls == s.turnCalls && consecutiveErrors == s.unreset
      && escalations == s.escalations && verifyRounds == s.verifyRounds && reviewRounds == s.reviewRounds
      && editAttempted == s.editTried && stuckEscalated == s.stuckBefore && changes == s.changes
      && deadline == DeadlineOf(o, start, s.credit) && spend == s.spent && route == s.route && lastCall == s.lastCall
    }

    /** Nothing that should have stopped the run has been passed by. */
    ghost predicate Within()
      reads this
    {
      && (o.maxHostedSpend > 0.0 ==> s.spent < o.maxHostedSpend)
      && (o.maxStagnantErrors > 0 ==> s.unreset < o.maxStagnantErrors)
      && Under(s.sentBacks, o.maxVerifyRounds) && Under(s.objections, o.maxReviewRounds)
      && s.sentBacks <= s.verifyRounds && s.objections <= s.reviewRounds
    }

    /** What every step leaves: the turn is the same; the run goes on within its bounds, or stopped for cause. */
    ghost predicate Left(turn: nat, step: Step)
      reads this
    {
      && Valid() && s.turns == turn
      && (step.Continue? ==> Within())
      && (step.Stopped? ==> Ended(step.stop))
    }

    /** The run stopped for cause, and where it stopped on a bound its changes carry a verdict. */
    ghost predicate Ended(stop: Stop)
      reads this
    {
      && Cause(o, start, editTask, t, s, clock, stop)
      && (Bounded(stop) && o.verifier && s.changes != [] ==>
            leftBehind.Some? && leftBehind.value.0 == s.changes && gatesPassedAtEnd == leftBehind.value.1.Pass?)
    }

    /** The reply's calls have been taken up as far as the call at hand. */
    ghost predicate AtCall(call: Call)
      reads this
    {
      IsNext(s.exchange, call) && s.exchange.issued == s.exchange.answered
    }

    constructor (o: Options, pricing: map<string, Pricing>, models: Choice -> string, editTask: bool, start: int)
      ensures Valid() && Within() && t == [] && leftBehind == None
      ensures this.o == o && this.pricing == pricing && this.models == models && this.editTask == editTask
              && this.start == start
    {
      this.o, this.pricing, this.models, this.editTask, this.start := o, pricing, models, editTask, start;
      clock, turns, toolCalls, turnToolCalls, consecutiveErrors, escalations := start, 0, 0, 0, 0, 0;
      verifyRounds, reviewRounds, editAttempted, stuckEscalated, changes := 0, 0, false, false, [];
      deadline := if o.maxWallClock > 0 then Some(start + o.maxWallClock) else None;
      spend, route, lastCall, gatesPassedAtEnd := 0.0, Unrouted, None, false;
      t, sums, s, leftBehind := [], [NOTHING], NOTHING, None;
    }

    /** One more event of the trace. */
    ghost method Add(e: Event)
      requires Recorded(o, start, t, sums) && s == sums[|t|] && Allowed(o, start, s, e)
      modifies `t, `sums, `s
      ensures t == old(t) + [e] && s == Adding(old(s), e)
      ensures Recorded(o, start, t, sums) && s == sums[|t|]
    {
      RecordedNext(o, start, t, sums, e);
      t, sums, s := t + [e], sums + [Adding(s, e)], Adding(s, e);
    }

    /** A sign changes no figure. */
    ghost method Note(sign: Sign)
      requires Valid() && Allowed(o, start, s, Noted(sign))
      modifies `t, `sums, `s
      ensures Valid() && s == old(s) && t == old(t) + [Noted(sign)]
    {
      Add(Noted(sign));
    }

    /** Time passes. */
    method Now() returns (at: int)
      modifies `clock
      ensures at == clock >= old(clock)
    {
      var ticks: int := *;
      if ticks > 0 {
        clock := clock + ticks;
      }
      at := clock;
    }

    method PastDeadline() returns (past: bool)
      modifies `clock
      ensures clock >= old(clock)
      ensures past <==> !Before(clock, deadline)
    {
      var at := Now();
      past := deadline.Some? && at >= deadline.value;
    }

    /** One tier up, unless the run is on the top one. */
    method Escalate() returns (moved: bool)
      requires Valid()
      modifies `escalations, `t, `sums, `s
      ensures Valid() && moved == (old(s).route != Deep)
      ensures s == (if moved then Adding(old(s), Escalated) else old(s)) && (!moved ==> t == old(t))
    {
      if route == Deep {
        return false;
      }
      escalations := escalations + 1;
      Add(Escalated);
      moved := true;
    }

    /** verifyAbandoned: a stopped run that changed something has its changes verified. */
    method VerifyAbandoned()
      requires Valid()
      modifies `gatesPassedAtEnd, `leftBehind
      ensures o.verifier && changes != [] ==>
        leftBehind.Some? && leftBehind.value.0 == s.changes && gatesPassedAtEnd == leftBehind.value.1.Pass?
    {
      if o.verifier && changes != [] {
        var verdict: Verdict := *;
        gatesPassedAtEnd := verdict == Pass;
        leftBehind := Some((changes, verdict));
      }
    }

    /** stopBound: the stop is logged, and what the run left behind is verified. */
    method StopBound(stop: Stop) returns (step: Step)
      requires Valid() && Cause(o, start, editTask, t, s, clock, stop)
      modifies `gatesPassedAtEnd, `leftBehind
      ensures Left(s.turns, step) && (step == Broken || step == Stopped(stop))
    {
      var logged: bool := *;
      if !logged {
        return Broken;
      }
      VerifyAbandoned();
      var saved: bool := *;
      step := if saved then Stopped(stop) else Broken;
    }

    /** stopFailed: the provider failed with no tier above to move into. */
    method StopFailed() returns (step: Step)
      requires Valid() && Cause(o, start, editTask, t, s, clock, ProviderFailed)
      ensures Left(s.turns, step) && !step.Continue?
    {
      var logged: bool := *;
      step := if logged then Stopped(ProviderFailed) else Broken;
    }

    /** A call that was answered without being run counts as an error. */
    method CountBounced(call: Call)
      requires Valid() && IsNext(s.exchange, call)
      modifies `toolCalls, `turnToolCalls, `consecutiveErrors, `t, `sums, `s
      ensures Valid() && s == Adding(old(s), Bounced(call))
    {
      toolCalls, turnToolCalls, consecutiveErrors := toolCalls + 1, turnToolCalls + 1, consecutiveErrors + 1;
      Add(Bounced(call));
    }

    /** A call's result is counted: a refusal neither adds to the errors in a row nor ends them. */
    method CountAnswered(call: Call, error: bool, refused: bool)
      requires Valid() && IsNext(s.exchange, call)
      modifies `toolCalls, `turnToolCalls, `consecutiveErrors, `lastCall, `t, `sums, `s
      ensures Valid() && s == Adding(old(s), Answered(call, error, refused))
    {
      Add(Answered(call, error, refused));
      toolCalls, turnToolCalls, lastCall := toolCalls + 1, turnToolCalls + 1, Some(call);
      CountErrors(error, refused);
    }

    method CountErrors(error: bool, refused: bool)
      modifies `consecutiveErrors
      ensures consecutiveErrors == if !error then 0 else old(consecutiveErrors) + if refused then 0 else 1
    {
      if !error {
        consecutiveErrors := 0;
      } else if !refused {
        consecutiveErrors := consecutiveErrors + 1;
      }
    }

    /** checkStagnation: too many errors in a row stop the run. */
    method CheckStagnation(call: Call, bounced: bool, error: bool, refused: bool) returns (step: Step)
      requires Valid() && Within() && s.turnIssued <= s.turnCalls + 1 && (bounced ==> error && !refused)
      requires IsNext(s.exchange, call)
      modifies this
      ensures Left(old(s).turns, step) && s.turnIssued <= s.turnCalls
      ensures s == Adding(old(s), if bounced then Bounced(call) else Answered(call, error, refused))
    {
      if bounced {
        CountBounced(call);
      } else {
        CountAnswered(call, error, refused);
      }
      if !error || refused || o.maxStagnantErrors <= 0 || consecutiveErrors < o.maxStagnantErrors {
        return Continue;
      }
      step := StopBound(Stagnant);
    }

    /** creditHumanWait: time spent waiting on a person moves the deadline out. */
    method CreditHumanWait(waited: int)
      requires Valid() && Within()
      modifies `deadline, `t, `sums, `s
      ensures Valid() && Within()
      ensures s == if waited > 0 && o.maxWallClock > 0 then Adding(old(s), Credited(waited)) else old(s)
    {
      if waited <= 0 || deadline.None? {
        return;
      }
      PutOff(waited);
    }

    /** The deadline moves out. */
    method PutOff(waited: int)
      requires Valid() && waited > 0 && deadline.Some?
      modifies `deadline, `t, `sums, `s
      ensures Valid() && s == Adding(old(s), Credited(waited))
    {
      deadline := Some(deadline.value + waited);
      Add(Credited(waited));
    }

    /** Neither a call was let through since, nor answered. */
    ghost predicate SameCounts(was: Sums)
      reads this
    {
      && s.turnIssued == was.turnIssued && s.turnCalls == was.turnCalls && s.exchange.asked == was.exchange.asked
      && s.exchange.issued == was.exchange.issued && s.exchange.answered == was.exchange.answered
    }

    /** runTool: an unknown, denied or refused call runs nothing; any other runs, and its changes are the run's. */
    method RunTool(call: Call) returns (ok: bool, error: bool, refused: bool)
      requires Valid() && Within()
      modifies this
      ensures Valid() && Within() && s.turns == old(s).turns && SameCounts(old(s))
    {
      ok, error, refused := *, *, *;
      var runs: bool := *;
      if !runs {
        return;
      }
      var waits: seq<int> := *;
      for i := 0 to |waits|
        invariant Valid() && Within() && s.turns == old(s).turns && SameCounts(old(s))
      {
        CreditHumanWait(waits[i]);
      }
      var made: seq<Change> := *;
      changes := changes + made;
      Add(Ran(call, made));
    }

    /** A call answered without being run, by a critique and a move up a tier; on the top tier the run stops. */
    method Bounce(call: Call, stop: Stop) returns (step: Step)
      requires Valid() && Within() && s.turnIssued <= s.turnCalls + 1 && IsNext(s.exchange, call)
      requires s.route == Deep ==> Cause(o, start, editTask, t, s, clock, stop)
      modifies this
      ensures Left(old(s).turns, step) && (step.Continue? ==> s.turnIssued <= s.turnCalls)
      ensures s.changes == old(s).changes && s.exchange.ran == old(s).exchange.ran
    {
      var moved := Escalate();
      if !moved {
        step := StopBound(stop);
        return;
      }
      var logged: bool := *;
      if !logged {
        return Broken;
      }
      step := CheckStagnation(call, true, true, false);
    }

    /** One call of a turn: guarded by the deadline, the flood bound, its input and the call before it. One that is
        malformed or repeats the last runs nothing. */
    method RunCall(call: Call) returns (step: Step)
      requires Valid() && Within() && s.turnIssued <= s.turnCalls && AtCall(call)
      modifies this
      ensures Left(old(s).turns, step) && (step.Continue? ==> s.turnIssued <= s.turnCalls)
      ensures !call.valid || old(SameAsLast(call)) ==>
        s.changes == old(s).changes && s.exchange.ran == old(s).exchange.ran
      ensures step.Continue? && call.valid && !old(SameAsLast(call)) ==> OneOn(old(s).exchange)
    {
      var past := PastDeadline();
      if past {
        step := StopBound(Deadline);
        return;
      }
      if turnToolCalls >= o.maxToolCallsPerTurn {
        step := StopBound(ToolCallFlood);
        return;
      }
      if !call.valid {
        step := Reject(call);
        return;
      }
      step := LetThrough(call);
    }

    /** handleMalformedCall: nothing runs. */
    method Reject(call: Call) returns (step: Step)
      requires Valid() && Within() && s.turnIssued <= s.turnCalls && IsNext(s.exchange, call) && !call.valid
      modifies this
      ensures Left(old(s).turns, step) && (step.Continue? ==> s.turnIssued <= s.turnCalls)
      ensures s.changes == old(s).changes && s.exchange.ran == old(s).exchange.ran
    {
      Note(Malformed(call));
      step := Bounce(call, MalformedTool);
    }

    /** A call with valid input: if it repeats the last one, nothing runs. */
    method LetThrough(call: Call) returns (step: Step)
      requires Valid() && Within() && AtCall(call) && Admissible(o, start, s, clock)
      modifies this
      ensures Left(old(s).turns, step) && (step.Continue? ==> s.turnIssued <= s.turnCalls)
      ensures old(SameAsLast(call)) ==> s.changes == old(s).changes && s.exchange.ran == old(s).exchange.ran
      ensures step.Continue? && !old(SameAsLast(call)) ==> OneOn(old(s).exchange)
    {
      Issue(call);
      if SameAsLast(call) {
        step := Bounce(call, LoopDetected);
        return;
      }
      step := RunIssued(call);
    }

    /** Past the guards. */
    method Issue(call: Call)
      requires Valid() && AtCall(call) && Admissible(o, start, s, clock)
      modifies `editAttempted, `t, `sums, `s
      ensures Valid() && s == Adding(old(s), Issued(call, clock)) && t == old(t) + [Issued(call, clock)]
    {
      editAttempted := editAttempted || call.name in EDIT_TOOLS;
      Add(Issued(call, clock));
    }

    /** One more of the reply's calls has been let through and answered. */
    ghost predicate OneOn(was: Exchange)
      reads this
    {
      s.exchange.asked == was.asked && s.exchange.issued == was.issued + 1 && s.exchange.answered == was.answered + 1
    }

    /** A call let through is run, and its result counted. */
    method RunIssued(call: Call) returns (step: Step)
      requires Valid() && Within() && s.turnIssued <= s.turnCalls + 1 && IsNext(s.exchange, call)
      modifies this
      ensures Left(old(s).turns, step) && (step.Continue? ==> s.turnIssued <= s.turnCalls)
      ensures step.Continue? ==> s.exchange.asked == old(s).exchange.asked
      ensures step.Continue? ==>
        s.exchange.issued == old(s).exchange.issued && s.exchange.answered == old(s).exchange.answered + 1
    {
      var ok, error, refused := RunTool(call);
      if !ok {
        return Broken;
      }
      step := CheckStagnation(call, false, error, refused);
    }

    predicate SameAsLast(call: Call)
      reads this
    {
      lastCall.Some? && lastCall.value.name == call.name && lastCall.value.input == call.input
    }

    /** A turn's calls in order; one that is bounced ends the turn. */
    method RunTools(calls: seq<Call>) returns (step: Step)
      requires Valid() && Within() && s.turnIssued <= s.turnCalls
      requires s.exchange.asked == calls && s.exchange.issued == s.exchange.answered == 0
      modifies this
      ensures Left(old(s).turns, step)
    {
      for i := 0 to |calls|
        invariant Valid() && Within() && s.turnIssued <= s.turnCalls && s.turns == old(s).turns
        invariant s.exchange.asked == calls && s.exchange.issued == s.exchange.answered == i
      {
        var bounced := !calls[i].valid || SameAsLast(calls[i]);
        step := RunCall(calls[i]);
        if bounced || !step.Continue? {
          return;
        }
      }
      step := Continue;
    }

    /** handleTalkedNotActed: a critique and a move up a tier; on the top tier the run stops. */
    method HandleTalkedNotActed(stop: Stop) returns (step: Step)
      requires Valid() && Within() && (s.route == Deep ==> Cause(o, start, editTask, t, s, clock, stop))
      modifies this
      ensures Left(old(s).turns, step)
    {
      var moved := Escalate();
      if !moved {
        step := StopBound(stop);
        return;
      }
      var logged: bool := *;
      step := if logged then Continue else Broken;
    }

    method CompleteRun() returns (step: Step)
      requires Valid() && Earned(o, editTask, t, s)
      ensures Left(s.turns, step) && !step.Continue?
    {
      var checked: bool := *;
      step := if checked then Stopped(Complete) else Broken;
    }

    /** reviewOrComplete, once the gates have passed. */
    method ReviewOrComplete() returns (step: Step)
      requires Valid() && Within() && Untouched(s.exchange) && (o.verifier ==> LastIs(t, Verified(s.changes, Pass)))
      modifies this
      ensures Left(old(s).turns, step)
    {
      if |changes| == 0 && (editAttempted || editTask) {
        step := HandleTalkedNotActed(Stagnant);
        return;
      }
      if !o.reviewer || |changes| == 0 {
        step := CompleteRun();
        return;
      }
      step := ReadChanges();
    }

    /** The review, and what the run does with it. */
    method ReadChanges() returns (step: Step)
      requires Valid() && Within() && Untouched(s.exchange) && s.changes != []
      requires o.verifier ==> LastIs(t, Verified(s.changes, Pass))
      modifies this
      ensures Left(old(s).turns, step)
    {
      var result := Review();
      var logged: bool := *;
      if !logged {
        return Broken;
      }
      if result != Objection || reviewRounds >= o.maxReviewRounds {
        step := CompleteRun();
        return;
      }
      step := Object();
    }

    /** One review round over the changes so far. */
    method Review() returns (result: Review)
      requires Valid()
      modifies this
      ensures Valid() && s == Adding(old(s), RunTrace.Event.Reviewed(old(s).changes, result))
      ensures t == old(t) + [RunTrace.Event.Reviewed(old(s).changes, result)] && clock == old(clock)
    {
      result := *;
      reviewRounds := reviewRounds + 1;
      Add(RunTrace.Event.Reviewed(changes, result));
    }

    /** The objections go back to the model. */
    method Object() returns (step: Step)
      requires Valid() && Within() && s.objections < s.reviewRounds < o.maxReviewRounds
      modifies this
      ensures Left(old(s).turns, step)
    {
      Add(Objected);
      var told: bool := *;
      step := if told then Continue else Broken;
    }

    /** finishOrVerify, once the model ends its turn. */
    method FinishOrVerify() returns (step: Step)
      requires Valid() && Within() && Untouched(s.exchange)
      modifies this
      ensures Left(old(s).turns, step)
    {
      if !o.verifier {
        step := ReviewOrComplete();
        return;
      }
      var verdict := Verify();
      var logged: bool := *;
      if !logged {
        return Broken;
      }
      if verdict == Pass {
        step := ReviewOrComplete();
        return;
      }
      step := Unverified(verdict);
    }

    /** One verification round over the changes so far. */
    method Verify() returns (verdict: Verdict)
      requires Valid() && Within()
      modifies this
      ensures Valid() && Within() && s == Adding(old(s), Verified(old(s).changes, verdict))
      ensures LastIs(t, Verified(s.changes, verdict))
    {
      verdict := *;
      verifyRounds := verifyRounds + 1;
      Add(Verified(changes, verdict));
    }

    /** A round that did not pass ends the run, or goes back to the model while rounds are left. */
    method Unverified(verdict: Verdict) returns (step: Step)
      requires Valid() && Within() && verdict != Pass && LastIs(t, Verified(s.changes, verdict))
               && s.sentBacks < s.verifyRounds
      modifies this
      ensures Left(old(s).turns, step)
    {
      if verdict == Unattributed {
        step := StopBound(TreeState);
        return;
      }
      if verifyRounds >= o.maxVerifyRounds {
        step := StopBound(VerifyFailed);
        return;
      }
      Add(SentBack);
      var told: bool := *;
      step := if told then Continue else Broken;
    }

    /** A turn that ended without a call: nothing came, or prose that is not a report, or the model is done. */
    method EndTurnWithNoCalls(blank: bool) returns (step: Step)
      requires Valid() && Within() && Untouched(s.exchange)
      modifies this
      ensures Left(old(s).turns, step)
    {
      if blank {
        var moved := Falter(CameEmpty);
        if !moved {
          step := StopFailed();
          return;
        }
      }
      step := ReadProse();
    }

    /** The provider gave nothing to act on: one tier up, unless the run is on the top one. */
    method Falter(sign: Sign) returns (moved: bool)
      requires Valid() && Within() && (sign == CameEmpty || sign == StreamBroke)
      modifies `escalations, `t, `sums, `s
      ensures Valid() && s == if moved then Adding(old(s), Escalated) else old(s)
      ensures !moved ==> Cause(o, start, editTask, t, s, clock, ProviderFailed)
    {
      Note(sign);
      moved := Escalate();
    }

    /** What the prose of such a turn reads as. */
    method ReadProse() returns (step: Step)
      requires Valid() && Within() && Untouched(s.exchange)
      modifies this
      ensures Left(old(s).turns, step)
    {
      var prose: Prose := *;
      Note(Read(prose));
      match prose {
        case CallAsText => step := HandleTalkedNotActed(MalformedTool);
        case Question => step := HandleTalkedNotActed(AskedInProse);
        case Announced => step := HandleTalkedNotActed(AnnouncedNotDone);
        case Plain => step := FinishOrVerify();
      }
    }

    /** collectGateFeedback: a stuck gate moves the run up a tier, once. */
    method CollectGateFeedback() returns (ok: bool)
      requires Valid() && Within() && s.turnIssued <= s.turnCalls
      modifies this
      ensures Valid() && Within() && s.turns == old(s).turns && s.turnIssued <= s.turnCalls
    {
      ok := *;
      if !o.changeGate {
        return true;
      }
      var stuck: bool := *;
      if !ok || !stuck || stuckEscalated {
        return;
      }
      EscalateStuck();
    }

    method EscalateStuck()
      requires Valid() && Within()
      modifies this
      ensures Valid() && Within() && s.turns == old(s).turns
      ensures s.turnIssued == old(s).turnIssued && s.turnCalls == old(s).turnCalls
    {
      SeeStuck();
      var moved := Escalate();
    }

    method SeeStuck()
      requires Valid()
      modifies `stuckEscalated, `t, `sums, `s
      ensures Valid() && s == Adding(old(s), StuckSeen)
    {
      stuckEscalated := true;
      Add(StuckSeen);
    }

    /** admitSlot: a turn on the box's own model waits for its slot, and the wait is credited. */
    method AdmitSlot(choice: Choice) returns (ok: bool, ghost waited: int)
      requires Valid() && Within()
      modifies this
      ensures Valid() && Within() && 0 <= waited <= clock - old(clock)
      ensures !o.localSlots || choice != Fast ==> ok && waited == 0
      ensures s == if ok && waited > 0 && o.maxWallClock > 0 then Adding(old(s), Credited(waited)) else old(s)
    {
      if !o.localSlots || choice != Fast {
        return true, 0;
      }
      var wait;
      ok, wait := AwaitSlot();
      waited := wait;
      if wait > 0 && deadline.Some? {
        PutOff(wait);
      }
    }

    /** The wait for a slot: how long it took, if it was granted. */
    method AwaitSlot() returns (ok: bool, wait: int)
      modifies `clock
      ensures 0 <= wait <= clock - old(clock) && (!ok ==> wait == 0)
    {
      var from := Now();
      ok := *;
      if !ok {
        return false, 0;
      }
      var to := Now();
      wait := to - from;
    }

    /** streamFailed: a cancellation and a passed deadline are what they are; any other failure moves up a tier. */
    method StreamFailed() returns (step: Step)
      requires Valid() && Within()
      modifies this
      ensures Left(old(s).turns, step)
    {
      var canceled: bool := *;
      if canceled {
        Note(WasCanceled);
        return Stopped(Canceled);
      }
      var past := PastDeadline();
      if past {
        step := StopBound(Deadline);
        return;
      }
      step := BreakOff();
    }

    /** A stream failed of its own: the run moves up a tier, or stops on the top one. */
    method BreakOff() returns (step: Step)
      requires Valid() && Within()
      modifies this
      ensures Left(old(s).turns, step)
    {
      var moved := Falter(StreamBroke);
      if !moved {
        step := StopFailed();
        return;
      }
      var logged: bool := *;
      step := if logged then Continue else Broken;
    }

    /** The reply is recorded and priced. */
    method Take(reply: Reply)
      requires Valid() && s.turnIssued <= s.turnCalls
      modifies this
      ensures Valid() && s.turns == old(s).turns && s.turnIssued <= s.turnCalls && s.unreset == old(s).unreset
      ensures s.sentBacks == old(s).sentBacks && s.objections == old(s).objections
      ensures s.verifyRounds == old(s).verifyRounds && s.reviewRounds == old(s).reviewRounds
      ensures s.exchange == Exchange(reply.calls, 0, 0, 0, reply.reason == EndTurn)
    {
      Add(Replied(reply.calls, reply.reason == EndTurn));
      if reply.usage.Some? {
        var cost := PriceTurn(pricing, models(route), reply.usage.value);
        spend := spend + cost;
        Add(Priced(cost));
      }
    }

    /** The reply is taken down, and acted on unless it reached the ceiling. */
    method Act(reply: Reply) returns (step: Step)
      requires Valid() && Within() && s.turnIssued <= s.turnCalls
      modifies this
      ensures Left(old(s).turns, step)
    {
      Take(reply);
      if o.maxHostedSpend > 0.0 && spend >= o.maxHostedSpend {
        step := StopBound(CostCeiling);
        return;
      }
      if reply.reason == EndTurn {
        if |reply.calls| == 0 {
          step := EndTurnWithNoCalls(reply.blank);
        } else {
          step := FinishOrVerify();
        }
        return;
      }
      step := RunTools(reply.calls);
    }

    method CountTurn(at: int)
      requires Valid() && Within() && turns < o.maxTurns && Before(at, deadline)
      modifies this
      ensures Valid() && s == Adding(old(s), Began(at))
    {
      turns, turnToolCalls := turns + 1, 0;
      Add(Began(at));
    }

    method RouteTo(choice: Choice)
      requires Valid()
      modifies this
      ensures Valid() && s == Adding(old(s), Routed(choice))
    {
      route := choice;
      Add(Routed(choice));
    }

    /** A turn begins: counted, told what the gates found, and routed. */
    method BeginTurn(at: int) returns (ok: bool)
      requires Valid() && Within() && turns < o.maxTurns && Before(at, deadline)
      modifies this
      ensures Valid() && Within() && s.turns == old(s).turns + 1 && s.turnIssued <= s.turnCalls
    {
      CountTurn(at);
      ok := CollectGateFeedback();
      var logged: bool := *;
      if !ok || !logged {
        return false;
      }
      var choice: Choice := *;
      RouteTo(choice);
      ghost var waited;
      ok, waited := AdmitSlot(choice);
    }

    /** One turn, begun at the given time. */
    method Turn(at: int) returns (step: Step)
      requires Valid() && Within() && turns < o.maxTurns && Before(at, deadline)
      modifies this
      ensures Left(old(s).turns + 1, step)
    {
      var begun := BeginTurn(at);
      if !begun {
        return Broken;
      }
      var failed: bool := *;
      if failed {
        step := StreamFailed();
        return;
      }
      var reply: Reply := *;
      if |reply.calls| == 0 {
        // Calls written into the prose are read back out of it.
        var recovered: seq<Call> := *;
        if |recovered| > 0 {
          reply := reply.(calls := recovered, reason := ToolUse);
        }
      }
      var appended: bool := *;
      if !appended {
        return Broken;
      }
      step := Act(reply);
    }

    /** The run: turns until one of them ends it. It always ends, and within every bound. */
    method Drive() returns (step: Step)
      requires Valid() && Within()
      modifies this
      ensures Valid() && Lawful(o, start, t) && !step.Continue?
      ensures step.Stopped? ==> Cause(o, start, editTask, t, SumOf(t), clock, step.stop)
      ensures step.Stopped? && Bounded(step.stop) && o.verifier && changes != [] ==>
        leftBehind.Some? && leftBehind.value.0 == changes && gatesPassedAtEnd == leftBehind.value.1.Pass?
    {
      step := DriveOn();
      RecordedLawful(o, start, t, sums);
    }

    /** drive. */
    method DriveOn() returns (step: Step)
      requires Valid() && Within()
      modifies this
      ensures Valid() && !step.Continue?
      ensures step.Stopped? ==> Ended(step.stop)
    {
      while true
        invariant Valid() && Within()
        decreases o.maxTurns - turns
      {
        step := MayTurn();
        if !step.Continue? {
          return;
        }
        step := Turn(clock);
        if !step.Continue? {
          return;
        }
      }
    }

    /** What stops the run between turns: a cancellation, the deadline, the turn bound. */
    method MayTurn() returns (step: Step)
      requires Valid() && Within()
      modifies this
      ensures Left(old(s).turns, step)
      ensures step.Continue? ==> turns < o.maxTurns && Before(clock, deadline)
    {
      var canceled: bool := *;
      if canceled {
        Note(WasCanceled);
        return Stopped(Canceled);
      }
      var past := PastDeadline();
      if past {
        step := StopBound(Deadline);
        return;
      }
      if turns >= o.maxTurns {
        step := StopBound(MaxTurns);
        return;
      }
      step := Continue;
    }
  }
}
