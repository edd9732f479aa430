/** One thread's prompts: a queue behind a turn in flight, under a lock (internal/daemon/manager.go). The sections run
under the lock are the methods of Thread; Step puts them among the turns' goroutines. */
module PromptQueue {
  import opened Outcomes

  type Prompt = string

  /** An accepted prompt, and how many were accepted before it: two prompts may read the same. */
  datatype Ticket = Ticket(number: nat, prompt: Prompt)

  /** Where a turn's goroutine is: waiting for admission, driving the loop, past it, or over. */
  datatype Phase = Admitting | Looping | Finishing | Over

  /** A cancellation taken at a send: of which turn, for which accepted prompt, and how many turns had begun by then. */
  datatype Token = Token(turn: nat, sender: nat, begun: nat)

  /** Turn i carries the prompt started[i]; current is the turn whose cancel function the thread holds. */
  datatype State = State(
    running: bool, pending: seq<Ticket>, current: Option<nat>, accepted: seq<Ticket>, started: seq<Ticket>,
    phases: seq<Phase>, tokens: set<Token>, canceled: set<nat>)

  const IDLE: State := State(false, [], None, [], [], [], {}, {})

  datatype Action =
    | Send(prompt: Prompt, interrupt: bool)
    | Cancel(token: Token)
    | Admit(turn: nat)
    | Refuse(turn: nat)
    | LoopEnds(turn: nat)
    | Finish(turn: nat)

  // ---- the sections under the lock ----

  function Started(s: State, p: Ticket): State {
    s.(running := true, current := Some(|s.started|), started := s.started + [p], phases := s.phases + [Admitting])
  }

  function Sent(s: State, p: Prompt, interrupt: bool): State {
    var next := Ticket(|s.accepted|, p);
    var t := s.(accepted := s.accepted + [next]);
    if s.running then
      t.(pending := s.pending + [next],
         tokens := if interrupt && s.current.Some? then s.tokens + {Token(s.current.value, next.number, |s.started|)}
                   else s.tokens)
    else Started(t, next)
  }

  function Stopped(s: State): State {
    s.(running := false, current := None)
  }

  function Drained(s: State): State {
    if s.pending == [] then s else Started(s.(pending := s.pending[1..]), s.pending[0])
  }

  function Tickets(prompts: seq<Prompt>, numbers: seq<nat>): seq<Ticket>
    requires |numbers| == |prompts|
  {
    seq(|prompts|, i requires 0 <= i < |prompts| => Ticket(numbers[i], prompts[i]))
  }

  class Thread {
    const cycle: bool
    var running: bool
    var pending: seq<Prompt>
    /** The cancel function of the turn in flight, named by the turn it cancels. */
    var cancel: Option<nat>
    var turns: nat
    /** When each waiting prompt was accepted. */
    ghost var numbers: seq<nat>
    /** The rest of the state: what the goroutines are doing, and what was accepted and started. */
    ghost var rest: State

    ghost function Now(): State
      requires Valid()
      reads this
    {
      rest.(running := running, pending := Tickets(pending, numbers), current := cancel)
    }

    ghost predicate Valid()
      reads this
    {
      turns == |rest.started| && |numbers| == |pending|
    }

    constructor (cycle: bool)
      ensures Valid() && Now() == IDLE && this.cycle == cycle
    {
      this.cycle := cycle;
      running, pending, cancel, turns, numbers, rest := false, [], None, 0, [], IDLE;
    }

    /** startTurn: a goroutine for one prompt, with a cancel function of its own. */
    method StartTurn(prompt: Prompt, ghost number: nat)
      requires Valid()
      modifies this
      ensures Valid()
      ensures Now() == Started(old(Now()), Ticket(number, prompt))
    {
      running := true;
      cancel, turns := Some(turns), turns + 1;
      rest := rest.(started := rest.started + [Ticket(number, prompt)], phases := rest.phases + [Admitting]);
    }

    /** send: a running thread queues the prompt, and hands back the cancellation an interrupting one is to make once
        the lock is free. */
    method Send(prompt: Prompt, interrupt: bool) returns (toCancel: Option<nat>)
      requires Valid()
      modifies this
      ensures Valid()
      ensures Now() == Sent(old(Now()), prompt, interrupt)
      ensures toCancel == if old(running) && interrupt then old(cancel) else None
    {
      ghost var number := |rest.accepted|;
      rest := rest.(accepted := rest.accepted + [Ticket(number, prompt)]);
      if running {
        pending := pending + [prompt];
        numbers := numbers + [number];
        assert Now().pending == old(Now().pending) + [Ticket(number, prompt)];
        toCancel := if interrupt then cancel else None;
        if toCancel.Some? {
          rest := rest.(tokens := rest.tokens + {Token(toCancel.value, number, |rest.started|)});
        }
        return;
      }
      toCancel := None;
      StartTurn(prompt, number);
    }

    /** The admission of a turn failed. */
    method Refused(ghost turn: nat)
      requires Valid() && turn < |rest.phases|
      modifies this
      ensures Valid()
      ensures Now() == Stopped(old(Now()).(phases := old(rest.phases)[turn := Over]))
    {
      running, cancel := false, None;
      rest := rest.(phases := rest.phases[turn := Over]);
    }

    method DrainPending()
      requires Valid()
      modifies this
      ensures Valid()
      ensures Now() == Drained(old(Now()))
    {
      if |pending| == 0 {
        return;
      }
      var next := pending[0];
      ghost var number := numbers[0];
      pending, numbers := pending[1..], numbers[1..];
      assert Now().pending == old(Now().pending)[1..];
      StartTurn(next, number);
    }

    /** A turn ran to its end: an ordinary thread goes on to its next prompt, one that runs a cycle does not. */
    method Finished(ghost turn: nat)
      requires Valid() && turn < |rest.phases|
      modifies this
      ensures Valid()
      ensures var over := Stopped(old(Now()).(phases := old(rest.phases)[turn := Over]));
        Now() == if cycle then over else Drained(over)
    {
      running, cancel := false, None;
      rest := rest.(phases := rest.phases[turn := Over]);
      if cycle {
        return;
      }
      DrainPending();
    }
  }

  // ---- every interleaving ----

  predicate Enabled(s: State, a: Action) {
    match a
    case Send(_, _) => true
    case Cancel(token) => token in s.tokens
    case Admit(i) => i < |s.phases| && s.phases[i] == Admitting
    case Refuse(i) => i < |s.phases| && s.phases[i] == Admitting
    case LoopEnds(i) => i < |s.phases| && s.phases[i] == Looping
    case Finish(i) => i < |s.phases| && s.phases[i] == Finishing
  }

  function Step(cycle: bool, s: State, a: Action): State
    requires Enabled(s, a)
  {
    match a
    case Send(p, interrupt) => Sent(s, p, interrupt)
    case Cancel(token) => s.(canceled := s.canceled + {token.turn})
    case Admit(i) => s.(phases := s.phases[i := Looping])
    case Refuse(i) => Stopped(s.(phases := s.phases[i := Over]))
    case LoopEnds(i) => s.(phases := s.phases[i := Finishing])
    case Finish(i) =>
      var over := Stopped(s.(phases := s.phases[i := Over]));
      if cycle then over else Drained(over)
  }

  /** The run's actions were each enabled where they came. */
  ghost predicate CanRun(cycle: bool, run: seq<Action>)
    decreases |run|, 0
  {
    run == [] || (CanRun(cycle, run[..|run| - 1]) && Enabled(After(cycle, run[..|run| - 1]), run[|run| - 1]))
  }

  ghost function After(cycle: bool, run: seq<Action>): State
    requires CanRun(cycle, run)
    decreases |run|, 1
  {
    if run == [] then IDLE else Step(cycle, After(cycle, run[..|run| - 1]), run[|run| - 1])
  }

  /** Only the last turn can be under way, and it is exactly while the thread runs. */
  ghost predicate Inv(s: State) {
    && |s.phases| == |s.started|
    && (forall i | 0 <= i < |s.phases| && s.phases[i] != Over :: s.running && i == |s.phases| - 1)
    && (s.running ==> s.phases != [] && s.phases[|s.phases| - 1] != Over)
    && s.current == (if s.running then Some(|s.started| - 1) else None)
    && Numbered(s) && multiset(s.started) + multiset(s.pending) == multiset(s.accepted)
    && (forall k | k in s.tokens :: Reaches(s, k))
    && (forall i | i in s.canceled :: exists k | k in s.tokens :: k.turn == i)
  }

  ghost predicate Numbered(s: State) {
    && (forall i | 0 <= i < |s.accepted| :: s.accepted[i].number == i)
    && (forall i | 0 <= i < |s.started| :: s.started[i].number < |s.accepted|)
    && (forall i | 0 <= i < |s.pending| :: s.pending[i].number < |s.accepted|)
  }

  /** The turn to cancel had begun when the prompt was accepted; the prompt's own turn had not. */
  ghost predicate Reaches(s: State, k: Token) {
    && k.turn < k.begun <= |s.started| && k.sender < |s.accepted|
    && forall i | 0 <= i < |s.started| && s.started[i].number == k.sender :: k.begun <= i
  }

  lemma StartedInv(s: State, p: Ticket)
    requires !s.running && |s.phases| == |s.started| && (forall i | 0 <= i < |s.phases| :: s.phases[i] == Over)
    requires Numbered(s) && p.number < |s.accepted|
    requires multiset(s.started) + multiset(s.pending) + multiset{p} == multiset(s.accepted)
    requires forall k | k in s.tokens :: Reaches(s, k)
    requires forall i | i in s.canceled :: exists k | k in s.tokens :: k.turn == i
    ensures Inv(Started(s, p))
  {
    var t := Started(s, p);
    forall k | k in t.tokens ensures Reaches(t, k) { assert Reaches(s, k); }
  }

  lemma SentInv(s: State, p: Prompt, interrupt: bool)
    requires Inv(s)
    ensures Inv(Sent(s, p, interrupt))
  {
    var next := Ticket(|s.accepted|, p);
    var t := Sent(s, p, interrupt);
    if s.running {
      assert multiset(s.pending + [next]) == multiset(s.pending) + multiset{next};
      forall k | k in t.tokens ensures Reaches(t, k) {
        if k in s.tokens { assert Reaches(s, k); }
      }
    } else {
      var more := s.(accepted := s.accepted + [next]);
      forall k | k in more.tokens ensures Reaches(more, k) { assert Reaches(s, k); }
      StartedInv(more, next);
    }
  }

  lemma OverInv(s: State, i: nat)
    requires Inv(s) && i < |s.phases| && s.phases[i] != Over
    ensures Inv(Stopped(s.(phases := s.phases[i := Over])))
  {
  }

  lemma DrainedInv(s: State)
    requires Inv(s) && !s.running
    ensures Inv(Drained(s))
  {
    if s.pending != [] {
      assert s.pending == [s.pending[0]] + s.pending[1..];
      StartedInv(s.(pending := s.pending[1..]), s.pending[0]);
    }
  }

  lemma InvStep(cycle: bool, s: State, a: Action)
    requires Inv(s) && Enabled(s, a)
    ensures Inv(Step(cycle, s, a))
  {
    match a
    case Send(p, interrupt) => SentInv(s, p, interrupt);
    case Cancel(_) =>
    case Admit(_) =>
    case Refuse(i) => OverInv(s, i);
    case LoopEnds(_) =>
    case Finish(i) =>
      OverInv(s, i);
      DrainedInv(Stopped(s.(phases := s.phases[i := Over])));
  }

  lemma {:induction false} InvRun(cycle: bool, run: seq<Action>)
    requires CanRun(cycle, run)
    ensures Inv(After(cycle, run))
  {
    if run != [] {
      InvRun(cycle, run[..|run| - 1]);
      InvStep(cycle, After(cycle, run[..|run| - 1]), run[|run| - 1]);
    }
  }

  /** No two turns drive the loop at once, and every accepted prompt was started or waits. */
  lemma OneAtATime(cycle: bool, run: seq<Action>, i: nat, j: nat)
    requires CanRun(cycle, run)
    ensures var s := After(cycle, run);
      && multiset(s.started) + multiset(s.pending) == multiset(s.accepted)
      && (i < |s.phases| && j < |s.phases| && s.phases[i] != Over && s.phases[j] != Over ==> i == j)
  {
    InvRun(cycle, run);
  }

  /** An interrupt cancels a turn that had begun when its prompt was accepted: never the prompt's own, nor a later
      one. */
  lemma InterruptsReachBack(cycle: bool, run: seq<Action>, turn: nat)
    requires CanRun(cycle, run) && turn in After(cycle, run).canceled
    ensures var s := After(cycle, run);
      exists k | k in s.tokens ::
        k.turn == turn < k.begun && forall i | 0 <= i < |s.started| && s.started[i].number == k.sender :: k.begun <= i
  {
    InvRun(cycle, run);
    var s := After(cycle, run);
    var k :| k in s.tokens && k.turn == turn;
    assert Reaches(s, k);
  }

  // ---- first in, first out ----

  /** Started, then pending, is accepted in order; and nothing waits behind an idle thread. */
  ghost predicate Orderly(s: State) {
    s.started + s.pending == s.accepted && (!s.running ==> s.pending == [])
  }

  /** The action ends a turn without going on to the next prompt. */
  predicate Strands(cycle: bool, s: State, a: Action) {
    (a.Refuse? || (a.Finish? && cycle)) && s.pending != []
  }

  /** The order is kept by every step but one that ends a turn and leaves prompts waiting: a refused admission, or a
      cycle's end. */
  lemma OrderlyStep(cycle: bool, s: State, a: Action)
    requires Inv(s) && Orderly(s) && Enabled(s, a)
    ensures Orderly(Step(cycle, s, a)) <==> !Strands(cycle, s, a)
  {
    if a.Send? && s.running {
      var next := Ticket(|s.accepted|, a.prompt);
      assert s.started + (s.pending + [next]) == s.started + s.pending + [next];
    } else if a.Finish? && !cycle && s.pending != [] {
      assert s.started + [s.pending[0]] + s.pending[1..] == s.started + s.pending;
    }
  }

  ghost predicate NeverStrands(cycle: bool, run: seq<Action>)
    requires CanRun(cycle, run)
  {
    run == [] ||
    (NeverStrands(cycle, run[..|run| - 1]) && !Strands(cycle, After(cycle, run[..|run| - 1]), run[|run| - 1]))
  }

  ghost predicate AlwaysOrderly(cycle: bool, run: seq<Action>)
    requires CanRun(cycle, run)
  {
    Orderly(After(cycle, run)) && (run == [] || AlwaysOrderly(cycle, run[..|run| - 1]))
  }

  /** Prompts run first in first out, through every interleaving, exactly when no turn ends that way. */
  lemma {:induction false} FirstInFirstOut(cycle: bool, run: seq<Action>)
    requires CanRun(cycle, run)
    ensures AlwaysOrderly(cycle, run) <==> NeverStrands(cycle, run)
  {
    if run != [] {
      var before := run[..|run| - 1];
      FirstInFirstOut(cycle, before);
      InvRun(cycle, before);
      if AlwaysOrderly(cycle, before) {
        OrderlyStep(cycle, After(cycle, before), run[|run| - 1]);
      }
    }
  }

  ghost predicate NoRefusals(run: seq<Action>) {
    forall i | 0 <= i < |run| :: !run[i].Refuse?
  }

  /** With no cycle and every admission granted, that is always. */
  lemma {:induction false} GrantedInOrder(run: seq<Action>)
    requires CanRun(false, run) && NoRefusals(run)
    ensures Orderly(After(false, run))
  {
    if run != [] {
      var before := run[..|run| - 1];
      GrantedInOrder(before);
      InvRun(false, before);
      OrderlyStep(false, After(false, before), run[|run| - 1]);
    }
  }

  /** A prompt sent to an idle thread that others still wait behind runs ahead of them. */
  lemma SendKeepsOrder(s: State, p: Prompt, interrupt: bool)
    requires Inv(s) && s.started + s.pending == s.accepted
    ensures var t := Sent(s, p, interrupt); t.started + t.pending == t.accepted <==> s.running || s.pending == []
  {
    var t, q, next := Sent(s, p, interrupt), s.pending, Ticket(|s.accepted|, p);
    if s.running {
      assert t.started + t.pending == s.started + q + [next];
    } else {
      assert t.accepted == s.started + q + [next] && t.started + t.pending == s.started + [next] + q;
      assert (t.started + t.pending)[|s.started|] == next;
      if q != [] { assert t.accepted[|s.started|] == q[0] && q[0].number < |s.accepted|; }
    }
  }

  lemma RunNext(cycle: bool, run: seq<Action>, a: Action)
    requires CanRun(cycle, run) && Enabled(After(cycle, run), a)
    ensures CanRun(cycle, run + [a]) && After(cycle, run + [a]) == Step(cycle, After(cycle, run), a)
  {
    assert (run + [a])[..|run|] == run;
  }

  /** It happens: a is refused while b waits, and then c runs before b. */
  lemma RefusalBreaksOrder(a: Prompt, b: Prompt, c: Prompt)
    ensures var run := [Send(a, false), Send(b, false), Refuse(0), Send(c, false)];
      && CanRun(false, run) && After(false, run).started == [Ticket(0, a), Ticket(2, c)]
      && After(false, run).pending == [Ticket(1, b)]
  {
    var r0: seq<Action> := [];
    RunNext(false, r0, Send(a, false));
    RunNext(false, r0 + [Send(a, false)], Send(b, false));
    RunNext(false, r0 + [Send(a, false)] + [Send(b, false)], Refuse(0));
    RunNext(false, r0 + [Send(a, false)] + [Send(b, false)] + [Refuse(0)], Send(c, false));
    assert r0 + [Send(a, false)] + [Send(b, false)] + [Refuse(0)] + [Send(c, false)]
        == [Send(a, false), Send(b, false), Refuse(0), Send(c, false)];
  }

  // ---- what runs after an interrupt ----

  lemma RunBack(cycle: bool, run: seq<Action>, a: Action)
    requires CanRun(cycle, run + [a])
    ensures CanRun(cycle, run) && Enabled(After(cycle, run), a)
            && After(cycle, run + [a]) == Step(cycle, After(cycle, run), a)
  {
    assert (run + [a])[..|run|] == run;
  }

  /** No turn ends. */
  ghost predicate NoEnds(run: seq<Action>) {
    forall i | 0 <= i < |run| :: !run[i].Finish? && !run[i].Refuse?
  }

  /** Until a turn ends, what waits first stays first, whatever is sent. */
  lemma {:induction false} FirstStays(cycle: bool, run: seq<Action>, more: seq<Action>)
    requires CanRun(cycle, run + more) && NoEnds(more) && CanRun(cycle, run) && After(cycle, run).running
    ensures var s, t := After(cycle, run), After(cycle, run + more);
      t.running && t.started == s.started && s.pending <= t.pending
  {
    if more == [] {
      assert run + more == run;
    } else {
      var fewer, a := more[..|more| - 1], more[|more| - 1];
      assert run + more == run + fewer + [a];
      RunBack(cycle, run + fewer, a);
      FirstStays(cycle, run, fewer);
    }
  }

  /** An interrupting prompt is documented to run next. When the turn in flight ends, however it ends and whatever was
      sent in between, that prompt is what starts exactly when nothing waited before it and the turn's end goes on to
      the queue: it finished, on a thread without a cycle. */
  lemma InterruptRunsNext(cycle: bool, run: seq<Action>, p: Prompt, more: seq<Action>, end: Action)
    requires CanRun(cycle, run) && After(cycle, run).running && NoEnds(more) && (end.Finish? || end.Refuse?)
    requires CanRun(cycle, run + [Send(p, true)] + more + [end])
    ensures var s, t := After(cycle, run), After(cycle, run + [Send(p, true)] + more + [end]);
      |t.started| == |s.started| + 1 && t.started[|s.started|].number == |s.accepted|
      <==> s.pending == [] && end.Finish? && !cycle
  {
    var s, sent := After(cycle, run), run + [Send(p, true)];
    RunNext(cycle, run, Send(p, true));
    RunBack(cycle, sent + more, end);
    FirstStays(cycle, sent, more);
    var first := (s.pending + [Ticket(|s.accepted|, p)])[0];
    assert After(cycle, sent + more).pending[0] == first;
    InvRun(cycle, run);
  }

  /** It happens with nothing waiting: p interrupts a before a was admitted, which a's admission then fails of, and q,
      sent later, starts while p still waits. */
  lemma InterruptStranded(a: Prompt, p: Prompt, q: Prompt)
    ensures var run := [Send(a, false), Send(p, true), Cancel(Token(0, 1, 1)), Refuse(0), Send(q, false)];
      && CanRun(false, run) && After(false, run).started == [Ticket(0, a), Ticket(2, q)]
      && After(false, run).pending == [Ticket(1, p)]
  {
    var r: seq<Action> := [];
    RunNext(false, r, Send(a, false));
    r := r + [Send(a, false)];
    RunNext(false, r, Send(p, true));
    r := r + [Send(p, true)];
    RunNext(false, r, Cancel(Token(0, 1, 1)));
    r := r + [Cancel(Token(0, 1, 1))];
    RunNext(false, r, Refuse(0));
    r := r + [Refuse(0)];
    RunNext(false, r, Send(q, false));
    assert r + [Send(q, false)]
        == [Send(a, false), Send(p, true), Cancel(Token(0, 1, 1)), Refuse(0), Send(q, false)];
  }

  /** On a thread that runs a cycle it is left waiting by the turn's ordinary end. */
  lemma InterruptOutlasted(a: Prompt, p: Prompt)
    ensures var run := [Send(a, false), Send(p, true), Admit(0), LoopEnds(0), Finish(0)];
      && CanRun(true, run) && After(true, run).started == [Ticket(0, a)]
      && After(true, run).pending == [Ticket(1, p)] && !After(true, run).running
  {
    var r: seq<Action> := [];
    RunNext(true, r, Send(a, false));
    r := r + [Send(a, false)];
    RunNext(true, r, Send(p, true));
    r := r + [Send(p, true)];
    RunNext(true, r, Admit(0));
    r := r + [Admit(0)];
    RunNext(true, r, LoopEnds(0));
    r := r + [LoopEnds(0)];
    RunNext(true, r, Finish(0));
    assert r + [Finish(0)] == [Send(a, false), Send(p, true), Admit(0), LoopEnds(0), Finish(0)];
  }

  /** It happens: c interrupts a while b waits, and b runs next. */
  lemma InterruptWaits(a: Prompt, b: Prompt, c: Prompt)
    ensures var run := [Send(a, false), Send(b, false), Send(c, true), Admit(0), LoopEnds(0), Finish(0)];
      && CanRun(false, run) && After(false, run).started == [Ticket(0, a), Ticket(1, b)]
      && After(false, run).pending == [Ticket(2, c)]
  {
    var r: seq<Action> := [];
    RunNext(false, r, Send(a, false));
    r := r + [Send(a, false)];
    RunNext(false, r, Send(b, false));
    r := r + [Send(b, false)];
    RunNext(false, r, Send(c, true));
    r := r + [Send(c, true)];
    RunNext(false, r, Admit(0));
    r := r + [Admit(0)];
    RunNext(false, r, LoopEnds(0));
    r := r + [LoopEnds(0)];
    RunNext(false, r, Finish(0));
    assert r + [Finish(0)] == [Send(a, false), Send(b, false), Send(c, true), Admit(0), LoopEnds(0), Finish(0)];
  }
}
