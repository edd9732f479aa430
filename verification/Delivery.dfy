/** The fan-out protocol between a log and one of its subscribers (internal/eventlog).

A state is one moment between two atomic steps: a section under the log's or the subscriber's lock, or
one channel operation. Steps of different appenders and of the subscriber's forwarding goroutine
interleave in any order, so a run is any list of enabled actions. Subscribers do not affect each other,
which is why one is enough. */
module Delivery {
  import opened Outcomes
  import opened Events
  import opened Subscriber
  import EventLog

  /** One delivery, as the consumer reads it off the channel. */
  datatype Update = Delivered(event: Event) | Lagged(lastSeq: nat)

  /** Where the subscription stands: what the forwarding goroutine does next. */
  datatype Pc =
    | Unsubscribed
    | Registered
    | Backlog(items: seq<Event>, i: nat)
    | Draining
    | Announcing(lastSeq: nat)
    | Sending(rest: seq<Event>)
    | Waiting
    | Ended

  datatype State = State(
    cap: nat,
    log: seq<Event>,
    from: nat,
    head: nat,
    queue: Queue,
    token: bool,
    appended: set<nat>,
    notifying: set<nat>,
    pc: Pc,
    out: seq<Update>,
    closed: bool)

  datatype Action =
    | Append(ev: Event)
    | Subscribe(at: nat)
    | ReadBacklog
    | SendBacklog
    | EndBacklog
    | Offer(s: nat)
    | Notify(s: nat)
    | Drain
    | SendLag
    | SendEvent
    | Rest
    | Wake
    | Cancel
    | Close

  function Init(cap: nat): State {
    State(cap, [], 0, 0, EMPTY, false, {}, {}, Unsubscribed, [], false)
  }

  /** appended holds the events appended while this subscriber was registered and not yet offered to it. */
  predicate Listening(s: State) {
    !s.pc.Unsubscribed? && !s.pc.Ended?
  }

  predicate Enabled(s: State, a: Action) {
    match a
    case Append(ev) => !s.closed && ev.seqNo == |s.log| + 1
    case Subscribe(_) => !s.closed && s.pc.Unsubscribed?
    case ReadBacklog => s.pc.Registered?
    case SendBacklog => s.pc.Backlog? && s.pc.i < |s.pc.items|
    case EndBacklog => s.pc.Backlog? && s.pc.i >= |s.pc.items|
    case Offer(n) => n in s.appended && 0 < n <= |s.log|
    case Notify(n) => n in s.notifying
    case Drain => s.pc.Draining?
    case SendLag => s.pc.Announcing?
    case SendEvent => s.pc.Sending? && s.pc.rest != []
    case Rest => s.pc.Sending? && s.pc.rest == []
    case Wake => s.pc.Waiting? && s.token
    case Cancel => Listening(s)
    case Close => true
  }

  /** The events of a log whose Seqs count from 1 that come after from. */
  function Newer(log: seq<Event>, from: nat): seq<Event> {
    if from <= |log| then log[from..] else []
  }

  /** The backlog is what Since returns, ring or disk. */
  lemma {:induction false} BacklogIsSince(log: seq<Event>, from: nat)
    requires forall i | 0 <= i < |log| :: log[i].seqNo == i + 1
    ensures Newer(log, from) == EventLog.After(log, from)
  {
    if log != [] {
      var before, last := log[..|log| - 1], log[|log| - 1];
      BacklogIsSince(before, from);
      assert from < |log| ==> log[from..] == before[from..] + [last];
    }
  }

  function Step(s: State, a: Action): State
    requires Enabled(s, a)
  {
    match a
    case Append(ev) =>
      s.(log := s.log + [ev], appended := if Listening(s) then s.appended + {ev.seqNo} else s.appended)
    case Subscribe(from) =>
      s.(from := from, head := |s.log|, pc := Registered)
    case ReadBacklog =>
      s.(pc := Pc.Backlog(Newer(s.log, s.from), 0))
    case SendBacklog =>
      var ev := s.pc.items[s.pc.i];
      s.(pc := s.pc.(i := s.pc.i + 1), out := if ev.seqNo > s.head then s.out else s.out + [Delivered(ev)])
    case EndBacklog =>
      s.(pc := Draining)
    case Offer(n) =>
      s.(queue := Offered(s.queue, s.cap, s.log[n - 1]), appended := s.appended - {n}, notifying := s.notifying + {n})
    case Notify(n) =>
      s.(token := true, notifying := s.notifying - {n})
    case Drain =>
      var b := Taken(s.queue);
      s.(queue := Queue([], false, s.queue.lastSeq),
         pc := if b.lagged then Announcing(b.lastSeq) else Sending(b.events))
    case SendLag =>
      s.(pc := Sending([]), out := s.out + [Lagged(s.pc.lastSeq)])
    case SendEvent =>
      var ev := s.pc.rest[0];
      s.(pc := Sending(s.pc.rest[1..]), out := if ev.seqNo <= s.head then s.out else s.out + [Delivered(ev)])
    case Rest =>
      s.(pc := Waiting)
    case Wake =>
      s.(token := false, pc := Draining)
    case Cancel =>
      s.(pc := Ended)
    case Close =>
      s.(closed := true)
  }

  predicate CanRun(s: State, run: seq<Action>)
    decreases |run|
  {
    run == [] || (Enabled(s, run[0]) && CanRun(Step(s, run[0]), run[1..]))
  }

  function Run(s: State, run: seq<Action>): State
    requires CanRun(s, run)
    decreases |run|
  {
    if run == [] then s else Run(Step(s, run[0]), run[1..])
  }

  // ---- what has been delivered, and what is on its way ----

  function Seqs(out: seq<Update>): seq<nat> {
    if out == [] then []
    else
      var before := Seqs(out[..|out| - 1]);
      match out[|out| - 1]
      case Delivered(ev) => before + [ev.seqNo]
      case Lagged(_) => before
  }

  function Numbers(events: seq<Event>): seq<nat> {
    seq(|events|, i requires 0 <= i < |events| => events[i].seqNo)
  }

  /** What a backlog read as far as the k-th event still holds for the stream. */
  function BacklogHand(log: seq<Event>, k: nat, head: nat): seq<Event>
    requires head <= |log|
  {
    if k <= head then log[k..head] else []
  }

  /** What the goroutine has in hand and will still send. */
  function InHand(s: State): seq<Event>
    requires s.pc.Registered? ==> s.from <= s.head <= |s.log|
    requires s.pc.Backlog? ==> s.from <= s.head <= |s.log|
  {
    match s.pc
    case Registered => s.log[s.from..s.head]
    case Backlog(_, i) => BacklogHand(s.log, s.from + i, s.head)
    case Sending(rest) => rest
    case _ => []
  }

  /** Delivered, in hand and queued, in that order: no step of the subscriber changes it. */
  function Track(s: State): seq<nat>
    requires s.pc.Registered? ==> s.from <= s.head <= |s.log|
    requires s.pc.Backlog? ==> s.from <= s.head <= |s.log|
  {
    Seqs(s.out) + Numbers(InHand(s)) + Numbers(s.queue.items)
  }

  ghost predicate Distinct(xs: seq<nat>) {
    forall i, j | 0 <= i < j < |xs| :: xs[i] != xs[j]
  }

  ghost predicate Logged(log: seq<Event>, ev: Event) {
    0 < ev.seqNo <= |log| && log[ev.seqNo - 1] == ev
  }

  /** Nothing has been dropped, and no gap has been announced. */
  ghost predicate Lossless(s: State) {
    !s.queue.lagged && !s.pc.Announcing? && forall u | u in s.out :: u.Delivered?
  }

  ghost predicate Counted(log: seq<Event>) {
    forall i | 0 <= i < |log| :: log[i].seqNo == i + 1
  }

  ghost predicate PcShape(s: State) {
    && s.head <= |s.log|
    && (s.pc.Unsubscribed? ==> s.out == [] && s.appended == {} && s.queue == EMPTY && s.from == 0 && s.head == 0)
    && (!s.pc.Unsubscribed? ==> s.from <= s.head)
    && (s.pc.Backlog? ==>
          s.pc.items <= Newer(s.log, s.from) && s.from + |s.pc.items| >= s.head && s.pc.i <= |s.pc.items|)
  }

  ghost predicate LiveEvents(s: State, events: seq<Event>) {
    forall i | 0 <= i < |events| :: s.head < events[i].seqNo && Logged(s.log, events[i])
  }

  ghost predicate QueueShape(s: State) {
    && (forall n | n in s.appended :: s.head < n <= |s.log|)
    && LiveEvents(s, s.queue.items)
    && (s.pc.Sending? ==> LiveEvents(s, s.pc.rest))
  }

  ghost predicate OutShape(s: State) {
    forall i | 0 <= i < |s.out| && s.out[i].Delivered? :: Logged(s.log, s.out[i].event)
  }

  ghost predicate Shape(s: State) {
    Counted(s.log) && PcShape(s) && QueueShape(s) && OutShape(s)
  }

  /** Every event is delivered at most once, and none that this subscriber did not ask for. */
  ghost predicate Once(s: State)
    requires Shape(s)
  {
    && Distinct(Track(s))
    && (forall n | n in Track(s) :: s.from < n <= |s.log| && n !in s.appended)
  }

  /** Until a drop, every event since from is delivered or on its way. */
  ghost predicate Accounted(s: State)
    requires Shape(s)
  {
    Listening(s) && Lossless(s) ==> forall n | s.from < n <= |s.log| :: n in Track(s) || n in s.appended
  }

  /** Whenever the goroutine sleeps on a non-empty queue a token is there, or an offerer is about to send one. */
  ghost predicate WillWake(s: State) {
    && (s.queue.items != [] ==> s.token || s.notifying != {} || s.pc.Draining? || s.pc.Ended?)
    && (s.queue.lagged ==> s.queue.items != [])
    && (s.cap > 0 ==> |s.queue.items| <= s.cap)
  }

  ghost predicate Inv(s: State) {
    Shape(s) && Once(s) && Accounted(s) && WillWake(s)
  }

  // ---- one step keeps it ----

  lemma SeqsAppend(out: seq<Update>, u: Update)
    ensures Seqs(out + [u]) == Seqs(out) + if u.Delivered? then [u.event.seqNo] else []
  {
    assert (out + [u])[..|out|] == out;
  }

  lemma {:induction false} SeqsHold(out: seq<Update>, n: nat)
    ensures n in Seqs(out) <==> exists u | u in out :: u.Delivered? && u.event.seqNo == n
  {
    if out != [] {
      SeqsHold(out[..|out| - 1], n);
      assert out == out[..|out| - 1] + [out[|out| - 1]];
    }
  }

  lemma PcShapeStep(s: State, a: Action)
    requires Counted(s.log) && PcShape(s) && Enabled(s, a) && (a.Subscribe? ==> a.at <= |s.log|)
    ensures Counted(Step(s, a).log) && PcShape(Step(s, a))
  {
  }

  lemma QueueShapeStep(s: State, a: Action)
    requires Counted(s.log) && PcShape(s) && QueueShape(s) && Enabled(s, a)
    ensures QueueShape(Step(s, a))
  {
    var t := Step(s, a);
    match a {
      case Offer(n) => QueueShapeOffer(s, n);
      case Append(ev) => QueueShapeAppend(s, ev);
      case Drain => QueueShapeDrain(s);
      case Subscribe(_) =>
      case _ =>
        assert t.log == s.log && t.head == s.head && t.appended == s.appended && t.queue == s.queue;
    }
  }

  lemma QueueShapeOffer(s: State, n: nat)
    requires Counted(s.log) && PcShape(s) && QueueShape(s) && Enabled(s, Offer(n))
    ensures QueueShape(Step(s, Offer(n)))
  {
    var t, ev := Step(s, Offer(n)), s.log[n - 1];
    assert s.head < ev.seqNo && Logged(s.log, ev);
    assert t.queue.items == [ev] || t.queue.items == s.queue.items + [ev];
  }

  lemma QueueShapeAppend(s: State, ev: Event)
    requires Counted(s.log) && PcShape(s) && QueueShape(s) && Enabled(s, Append(ev))
    ensures QueueShape(Step(s, Append(ev)))
  {
    var t := Step(s, Append(ev));
    LiveKept(s, t, s.queue.items);
    if s.pc.Sending? { LiveKept(s, t, s.pc.rest); }
  }

  lemma LiveKept(s: State, t: State, events: seq<Event>)
    requires t.head == s.head && s.log <= t.log && LiveEvents(s, events)
    ensures LiveEvents(t, events)
  {
  }

  lemma QueueShapeDrain(s: State)
    requires QueueShape(s) && Enabled(s, Drain)
    ensures QueueShape(Step(s, Drain))
  {
    var t := Step(s, Drain);
    assert t.log == s.log && t.head == s.head && t.appended == s.appended && t.queue.items == [];
    assert t.pc.Sending? ==> t.pc.rest == s.queue.items;
  }

  lemma OutShapeStep(s: State, a: Action)
    requires Counted(s.log) && PcShape(s) && QueueShape(s) && OutShape(s) && Enabled(s, a)
    ensures OutShape(Step(s, a))
  {
    if a.SendBacklog? {
      assert s.pc.items[s.pc.i] == Newer(s.log, s.from)[s.pc.i];
    }
  }

  lemma ShapeStep(s: State, a: Action)
    requires Shape(s) && Enabled(s, a) && (a.Subscribe? ==> a.at <= |s.log|)
    ensures Shape(Step(s, a))
  {
    PcShapeStep(s, a);
    QueueShapeStep(s, a);
    OutShapeStep(s, a);
  }

  lemma SendBacklogInHand(s: State)
    requires Counted(s.log) && PcShape(s) && Enabled(s, SendBacklog) && PcShape(Step(s, SendBacklog))
    ensures s.pc.items[s.pc.i].seqNo <= s.head ==> InHand(s) == [s.pc.items[s.pc.i]] + InHand(Step(s, SendBacklog))
    ensures s.pc.items[s.pc.i].seqNo > s.head ==> InHand(s) == InHand(Step(s, SendBacklog))
  {
    BacklogAt(s);
    SentOn(s);
    HandOn(s, Step(s, SendBacklog), s.from + s.pc.i);
  }

  lemma HandOn(s: State, t: State, k: nat)
    requires Counted(s.log) && s.pc.Backlog? && k == s.from + s.pc.i < |s.log| && s.from <= s.head <= |s.log|
    requires t.log == s.log && t.head == s.head && t.from == s.from && t.pc == Pc.Backlog(s.pc.items, s.pc.i + 1)
    ensures s.log[k].seqNo <= s.head ==> InHand(s) == [s.log[k]] + InHand(t)
    ensures s.log[k].seqNo > s.head ==> InHand(s) == InHand(t)
  {
    HandOf(s, k);
    HandOf(t, k + 1);
    BacklogHandNext(s.log, k, s.head);
  }

  lemma SentOn(s: State)
    requires Enabled(s, SendBacklog)
    ensures var t := Step(s, SendBacklog);
      && t.log == s.log && t.head == s.head && t.from == s.from && t.pc == Pc.Backlog(s.pc.items, s.pc.i + 1)
  {
  }

  lemma HandOf(s: State, k: nat)
    requires s.pc.Backlog? && s.from <= s.head <= |s.log| && k == s.from + s.pc.i
    ensures InHand(s) == BacklogHand(s.log, k, s.head)
  {
  }

  lemma BacklogHandNext(log: seq<Event>, k: nat, head: nat)
    requires Counted(log) && k < |log| && head <= |log|
    ensures log[k].seqNo <= head ==> BacklogHand(log, k, head) == [log[k]] + BacklogHand(log, k + 1, head)
    ensures log[k].seqNo > head ==> BacklogHand(log, k, head) == BacklogHand(log, k + 1, head)
  {
  }

  lemma BacklogAt(s: State)
    requires Counted(s.log) && PcShape(s) && Enabled(s, SendBacklog)
    ensures var k := s.from + s.pc.i; k < |s.log| && s.pc.items[s.pc.i] == s.log[k] && s.log[k].seqNo == k + 1
  {
    assert s.pc.items[s.pc.i] == Newer(s.log, s.from)[s.pc.i];
  }

  lemma SendBacklogKept(s: State)
    requires Counted(s.log) && PcShape(s) && Enabled(s, SendBacklog) && PcShape(Step(s, SendBacklog))
    ensures Seqs(Step(s, SendBacklog).out) + Numbers(InHand(Step(s, SendBacklog))) == Seqs(s.out) + Numbers(InHand(s))
  {
    SendBacklogInHand(s);
    SentFirst(s.out, s.pc.items[s.pc.i], InHand(Step(s, SendBacklog)));
  }

  lemma SentFirst(out: seq<Update>, ev: Event, rest: seq<Event>)
    ensures Seqs(out + [Delivered(ev)]) + Numbers(rest) == Seqs(out) + Numbers([ev] + rest)
  {
    SeqsAppend(out, Delivered(ev));
    NumbersConcat([ev], rest);
  }

  lemma SendEventKept(s: State)
    requires QueueShape(s) && Enabled(s, SendEvent)
    ensures Seqs(Step(s, SendEvent).out) + Numbers(InHand(Step(s, SendEvent))) == Seqs(s.out) + Numbers(InHand(s))
  {
    var t := Step(s, SendEvent);
    var ev := s.pc.rest[0];
    assert s.head < ev.seqNo;
    assert InHand(s) == [ev] + InHand(t);
    SentFirst(s.out, ev, InHand(t));
  }

  /** No step of the subscriber's own goroutine, and no notify, changes what has been or will be sent. */
  lemma TrackKept(s: State, a: Action)
    requires Shape(s) && Enabled(s, a) && Shape(Step(s, a))
    requires !a.Subscribe? && !a.Offer? && !a.Cancel? && !(a.Drain? && s.queue.lagged)
    ensures Track(Step(s, a)) == Track(s)
  {
    if a.SendBacklog? {
      SendBacklogKept(s);
    } else if a.SendEvent? {
      SendEventKept(s);
    } else {
      QuietTrack(s, a);
    }
  }

  lemma QuietTrack(s: State, a: Action)
    requires Shape(s) && Enabled(s, a) && Shape(Step(s, a))
    requires !a.Subscribe? && !a.Offer? && !a.Cancel? && !a.SendBacklog? && !a.SendEvent?
             && !(a.Drain? && s.queue.lagged)
    ensures Track(Step(s, a)) == Track(s)
  {
    var t := Step(s, a);
    QuietKept(s, a);
    assert Seqs(t.out) == Seqs(s.out) by {
      if a.SendLag? { SeqsAppend(s.out, Lagged(s.pc.lastSeq)); }
    }
    Regrouped(Seqs(t.out), Numbers(InHand(t)), Numbers(t.queue.items));
    Regrouped(Seqs(s.out), Numbers(InHand(s)), Numbers(s.queue.items));
  }

  lemma Regrouped(a: seq<nat>, b: seq<nat>, c: seq<nat>)
    ensures a + b + c == a + (b + c)
  {
  }

  lemma QuietKept(s: State, a: Action)
    requires Counted(s.log) && PcShape(s) && Enabled(s, a) && PcShape(Step(s, a))
    requires !a.Subscribe? && !a.Offer? && !a.Cancel? && !a.SendBacklog? && !a.SendEvent?
             && !(a.Drain? && s.queue.lagged)
    ensures Numbers(InHand(Step(s, a))) + Numbers(Step(s, a).queue.items) == Numbers(InHand(s)) + Numbers(s.queue.items)
  {
    QuietHolds(s, a);
    var t := Step(s, a);
    NumbersConcat(InHand(t), t.queue.items);
    NumbersConcat(InHand(s), s.queue.items);
  }

  lemma QuietHolds(s: State, a: Action)
    requires Counted(s.log) && PcShape(s) && Enabled(s, a) && PcShape(Step(s, a))
    requires !a.Subscribe? && !a.Offer? && !a.Cancel? && !a.SendBacklog? && !a.SendEvent?
             && !(a.Drain? && s.queue.lagged)
    ensures InHand(Step(s, a)) + Step(s, a).queue.items == InHand(s) + s.queue.items
  {
    if a.Drain? {
      DrainHolds(s);
    } else if a.Append? {
      assert InHand(Step(s, a)) == InHand(s);
    } else if !a.SendLag? {
      MoveInHand(s, a);
    }
  }

  lemma DrainHolds(s: State)
    requires Counted(s.log) && PcShape(s) && Enabled(s, Drain) && PcShape(Step(s, Drain)) && !s.queue.lagged
    ensures InHand(Step(s, Drain)) + Step(s, Drain).queue.items == InHand(s) + s.queue.items
  {
    assert InHand(s) == [] && InHand(Step(s, Drain)) == s.queue.items;
  }

  lemma NumbersConcat(a: seq<Event>, b: seq<Event>)
    ensures Numbers(a + b) == Numbers(a) + Numbers(b)
  {
  }

  lemma SubscribeTrack(s: State, at: nat)
    requires Shape(s) && Enabled(s, Subscribe(at)) && at <= |s.log|
    ensures var t := Step(s, Subscribe(at));
            Shape(t) && Track(t) == seq(t.head - t.from, i => t.from + 1 + i)
  {
  }

  lemma OfferOnce(s: State, n: nat)
    requires Shape(s) && Once(s) && Enabled(s, Offer(n)) && Shape(Step(s, Offer(n)))
    ensures Once(Step(s, Offer(n)))
  {
    OfferTrack(s, n);
    OfferKeeps(Seqs(s.out) + Numbers(InHand(s)), Numbers(s.queue.items), n);
  }

  /** Ending, or dropping a lagged queue, only takes events away. */
  lemma LossOnce(s: State, a: Action)
    requires Shape(s) && Once(s) && Enabled(s, a) && Shape(Step(s, a)) && (a.Cancel? || (a.Drain? && s.queue.lagged))
    ensures Once(Step(s, a))
  {
    var t := Step(s, a);
    LossTrack(s, a);
    Prefix(Seqs(s.out), Numbers(InHand(s)), Numbers(s.queue.items));
    assert t.from == s.from && t.log == s.log && t.appended == s.appended;
    assert forall n | n in Track(t) :: n in Track(s);
  }

  lemma LossTrack(s: State, a: Action)
    requires Shape(s) && Enabled(s, a) && Shape(Step(s, a)) && (a.Cancel? || (a.Drain? && s.queue.lagged))
    ensures Track(Step(s, a)) == if a.Cancel? then Seqs(s.out) + Numbers(s.queue.items) else Seqs(s.out)
  {
  }

  lemma SubscribeOnce(s: State, at: nat)
    requires Shape(s) && Enabled(s, Subscribe(at)) && at <= |s.log| && Shape(Step(s, Subscribe(at)))
    ensures Once(Step(s, Subscribe(at)))
  {
    var t := Step(s, Subscribe(at));
    SubscribeTrack(s, at);
    assert t.appended == {};
    forall n | n in Track(t) ensures t.from < n <= |t.log| {
      var i :| 0 <= i < |Track(t)| && Track(t)[i] == n;
    }
  }

  lemma QuietOnce(s: State, a: Action)
    requires Shape(s) && Once(s) && Enabled(s, a) && Shape(Step(s, a)) && Track(Step(s, a)) == Track(s)
    requires !a.Subscribe? && !a.Offer?
    ensures Once(Step(s, a))
  {
    var t := Step(s, a);
    assert t.from == s.from && |s.log| <= |t.log|;
    assert t.appended <= s.appended + {|s.log| + 1};
  }

  lemma OnceStep(s: State, a: Action)
    requires Shape(s) && Once(s) && Enabled(s, a) && Shape(Step(s, a)) && (a.Subscribe? ==> a.at <= |s.log|)
    ensures Once(Step(s, a))
  {
    if a.Subscribe? {
      SubscribeOnce(s, a.at);
    } else if a.Offer? {
      OfferOnce(s, a.s);
    } else if a.Cancel? || (a.Drain? && s.queue.lagged) {
      LossOnce(s, a);
    } else {
      TrackKept(s, a);
      QuietOnce(s, a);
    }
  }

  lemma OfferTrack(s: State, n: nat)
    requires Shape(s) && Enabled(s, Offer(n)) && Shape(Step(s, Offer(n)))
    ensures var sent := Seqs(s.out) + Numbers(InHand(s));
            Track(Step(s, Offer(n)))
            == if |s.queue.items| >= s.cap then sent + [n] else sent + Numbers(s.queue.items) + [n]
  {
    var t := Step(s, Offer(n));
    var ev := s.log[n - 1];
    NumbersConcat(s.queue.items, [ev]);
    assert Numbers([ev]) == [n];
    assert InHand(t) == InHand(s);
  }

  lemma OfferKeeps(sent: seq<nat>, queued: seq<nat>, n: nat)
    requires Distinct(sent + queued) && n !in sent + queued
    ensures Distinct(sent + queued + [n]) && Distinct(sent + [n])
    ensures forall x | x in sent + [n] :: x in sent + queued + [n]
  {
    assert forall i | 0 <= i < |sent + queued| :: (sent + queued)[i] in sent + queued;
    forall i, j | 0 <= i < j < |sent + [n]| ensures (sent + [n])[i] != (sent + [n])[j] {
      assert (sent + queued)[i] == sent[i];
      if j < |sent| { assert (sent + queued)[j] == sent[j]; }
    }
  }

  /** What is left when the queue is dropped, or the goroutine ends. */
  lemma Prefix(sent: seq<nat>, inHand: seq<nat>, queued: seq<nat>)
    requires Distinct(sent + inHand + queued)
    ensures Distinct(sent + queued) && Distinct(sent)
    ensures forall n | n in sent + queued || n in sent :: n in sent + inHand + queued
  {
    var all := sent + inHand + queued;
    forall i, j | 0 <= i < j < |sent + queued| ensures (sent + queued)[i] != (sent + queued)[j] {
      var i', j' := if i < |sent| then i else i + |inHand|, if j < |sent| then j else j + |inHand|;
      assert (sent + queued)[i] == all[i'] && (sent + queued)[j] == all[j'];
    }
    assert sent == (sent + queued)[..|sent|];
  }

  lemma SubscribeAccounted(s: State, at: nat)
    requires Shape(s) && Enabled(s, Subscribe(at)) && at <= |s.log| && Shape(Step(s, Subscribe(at)))
    ensures Accounted(Step(s, Subscribe(at)))
  {
    var t := Step(s, Subscribe(at));
    SubscribeTrack(s, at);
    forall n | t.from < n <= |t.log| ensures n in Track(t) { assert Track(t)[n - t.from - 1] == n; }
  }

  lemma OfferAccounted(s: State, n: nat)
    requires Shape(s) && Accounted(s) && Enabled(s, Offer(n)) && Shape(Step(s, Offer(n)))
    ensures Accounted(Step(s, Offer(n)))
  {
    var t := Step(s, Offer(n));
    if Listening(t) && Lossless(t) {
      OfferTrack(s, n);
      var before := Seqs(s.out) + Numbers(InHand(s)) + Numbers(s.queue.items);
      assert forall k | k in before :: k in before + [n];
      assert n in before + [n];
    }
  }

  /** A step that loses nothing started from nothing lost. */
  lemma LosslessBack(s: State, a: Action)
    requires Enabled(s, a) && Lossless(Step(s, a)) && !a.Offer? && !a.Cancel?
    requires !a.SendLag? && !(a.Drain? && s.queue.lagged)
    ensures Lossless(s)
  {
    assert forall u | u in s.out :: u in Step(s, a).out;
  }

  lemma AccountedStep(s: State, a: Action)
    requires Shape(s) && Accounted(s) && Enabled(s, a) && Shape(Step(s, a)) && (a.Subscribe? ==> a.at <= |s.log|)
    ensures Accounted(Step(s, a))
  {
    if a.Subscribe? {
      SubscribeAccounted(s, a.at);
    } else if a.Offer? {
      OfferAccounted(s, a.s);
    } else if a.SendLag? {
      assert Lagged(s.pc.lastSeq) in Step(s, a).out;
    } else if !a.Cancel? && !(a.Drain? && s.queue.lagged) && Lossless(Step(s, a)) {
      LosslessBack(s, a);
      TrackKept(s, a);
    }
  }

  lemma WillWakeStep(s: State, a: Action)
    requires WillWake(s) && Enabled(s, a)
    ensures WillWake(Step(s, a))
  {
    if a.Offer? { assert a.s in Step(s, a).notifying; }
  }

  lemma InvStep(s: State, a: Action)
    requires Inv(s) && Enabled(s, a) && (a.Subscribe? ==> a.at <= |s.log|)
    ensures Inv(Step(s, a))
  {
    ShapeStep(s, a);
    OnceStep(s, a);
    AccountedStep(s, a);
    WillWakeStep(s, a);
  }

  // ---- whole runs ----

  /** The subscription the source assumes: from is no newer than the head of the log when it is made. */
  ghost predicate FromKnown(s: State, run: seq<Action>)
    requires CanRun(s, run)
    decreases |run|
  {
    run == [] || ((run[0].Subscribe? ==> run[0].at <= |s.log|) && FromKnown(Step(s, run[0]), run[1..]))
  }

  lemma InvInit(cap: nat)
    ensures Inv(Init(cap))
  {
  }

  lemma {:induction false} InvRun(s: State, run: seq<Action>)
    requires Inv(s) && CanRun(s, run) && FromKnown(s, run)
    ensures Inv(Run(s, run))
    decreases |run|
  {
    if run != [] {
      InvStep(s, run[0]);
      InvRun(Step(s, run[0]), run[1..]);
    }
  }

  /** In every interleaving: no event is delivered twice, only events newer than from are, and each is
      the event the log holds under its Seq. */
  lemma NoDuplicates(cap: nat, run: seq<Action>)
    requires CanRun(Init(cap), run) && FromKnown(Init(cap), run)
    ensures var s := Run(Init(cap), run);
            && Distinct(Seqs(s.out))
            && (forall n | n in Seqs(s.out) :: s.from < n <= |s.log|)
            && (forall i | 0 <= i < |s.out| && s.out[i].Delivered? :: Logged(s.log, s.out[i].event))
  {
    var s := Run(Init(cap), run);
    InvInit(cap);
    InvRun(Init(cap), run);
    Prefix(Seqs(s.out), Numbers(InHand(s)), Numbers(s.queue.items));
    assert forall n | n in Seqs(s.out) :: n in Track(s);
  }

  /** In every interleaving: as long as nothing has been dropped, a subscriber at rest with no offer
      outstanding has been sent every event since from. */
  lemma NoneMissed(cap: nat, run: seq<Action>)
    requires CanRun(Init(cap), run) && FromKnown(Init(cap), run)
    ensures var s := Run(Init(cap), run);
            s.pc.Waiting? && s.queue.items == [] && s.appended == {} && Lossless(s) ==>
              forall n | s.from < n <= |s.log| :: n in Seqs(s.out)
  {
    var s := Run(Init(cap), run);
    InvInit(cap);
    InvRun(Init(cap), run);
    if s.pc.Waiting? && s.queue.items == [] {
      assert Track(s) == Seqs(s.out);
    }
  }

  /** In every interleaving: a subscriber asleep on a non-empty queue has a wake-up waiting for it or
      on its way, and the queue is within its cap. */
  lemma NoLostWakeup(cap: nat, run: seq<Action>)
    requires CanRun(Init(cap), run) && FromKnown(Init(cap), run)
    ensures var s := Run(Init(cap), run);
            && (s.pc.Waiting? && s.queue.items != [] ==> s.token || s.notifying != {})
            && (cap > 0 ==> |s.queue.items| <= cap)
  {
    InvInit(cap);
    InvRun(Init(cap), run);
    CapKept(Init(cap), run);
  }

  lemma {:induction false} CapKept(s: State, run: seq<Action>)
    requires CanRun(s, run)
    ensures Run(s, run).cap == s.cap
    decreases |run|
  {
    if run != [] { CapKept(Step(s, run[0]), run[1..]); }
  }

  // ---- one appender at a time ----

  /** How far a consumer has got: each event is the successor of what came before it, whether that was
      an event or the end of a gap; a gap ends beyond where it began. None if that is ever broken. */
  function Cursor(out: seq<Update>, from: nat): Option<nat> {
    if out == [] then Some(from)
    else
      match Cursor(out[..|out| - 1], from)
      case None => None
      case Some(c) =>
        match out[|out| - 1]
        case Delivered(ev) => if ev.seqNo == c + 1 then Some(c + 1) else None
        case Lagged(l) => if l > c then Some(l) else None
  }

  lemma CursorAppend(out: seq<Update>, from: nat, u: Update)
    requires Cursor(out, from).Some?
    ensures var c := Cursor(out, from).value;
            Cursor(out + [u], from) == match u
              case Delivered(ev) => if ev.seqNo == c + 1 then Some(c + 1) else None
              case Lagged(l) => if l > c then Some(l) else None
  {
    assert (out + [u])[..|out|] == out;
  }

  ghost predicate Rising(events: seq<Event>, c: nat) {
    forall i | 0 <= i < |events| :: events[i].seqNo == c + 1 + i
  }

  /** The last event offered, when one appender at a time offers. */
  function OfferedUpTo(s: State): int {
    |s.log| - |s.appended|
  }

  /** The hand goes on from the cursor without a gap, the queue from the hand, and the queue ends, or its lag mark
      stands, at the last event offered. */
  ghost predicate Chained(c: nat, pc: Pc, hand: seq<Event>, head: nat, queue: Queue, offered: int) {
    var next := if pc.Announcing? then pc.lastSeq else c + |hand|;
    && Rising(hand, c)
    && (pc.Announcing? ==> c < pc.lastSeq)
    && (if queue.lagged then next < queue.lastSeq == offered
        else Rising(queue.items, next) && next + |queue.items| == offered)
  }

  ghost predicate Serial(s: State)
    requires PcShape(s)
  {
    && (s.appended == {} || s.appended == {|s.log|})
    && Cursor(s.out, s.from).Some?
    && (Listening(s) ==> Chained(Cursor(s.out, s.from).value, s.pc, InHand(s), s.head, s.queue, OfferedUpTo(s)))
  }

  /** One event goes from the hand to the stream. */
  lemma ChainedTaken(c: nat, pc: Pc, pc': Pc, hand: seq<Event>, rest: seq<Event>, head: nat, queue: Queue, offered: int)
    requires Chained(c, pc, hand, head, queue, offered) && hand != [] && hand == [hand[0]] + rest
    requires !pc.Announcing? && !pc'.Announcing?
    ensures hand[0].seqNo == c + 1 && Chained(c + 1, pc', rest, head, queue, offered)
  {
    assert forall i | 0 <= i < |rest| :: rest[i] == hand[i + 1];
  }

  lemma SerialSend(s: State, a: Action)
    requires Shape(s) && Serial(s) && Enabled(s, a) && Shape(Step(s, a))
             && (a.SendBacklog? || a.SendEvent? || a.SendLag?)
    ensures Serial(Step(s, a))
  {
    if a.SendBacklog? {
      SerialSendBacklog(s);
    } else if a.SendEvent? {
      SerialSendEvent(s);
    } else {
      CursorAppend(s.out, s.from, Lagged(s.pc.lastSeq));
    }
  }

  lemma SerialSendBacklog(s: State)
    requires Shape(s) && Serial(s) && Enabled(s, SendBacklog) && Shape(Step(s, SendBacklog))
    ensures Serial(Step(s, SendBacklog))
  {
    var t, ev := Step(s, SendBacklog), s.pc.items[s.pc.i];
    SendBacklogInHand(s);
    if ev.seqNo <= s.head {
      ChainedTaken(Cursor(s.out, s.from).value, s.pc, t.pc, InHand(s), InHand(t), s.head, s.queue, OfferedUpTo(s));
      CursorAppend(s.out, s.from, Delivered(ev));
    }
  }

  lemma SendEventInHand(s: State)
    requires QueueShape(s) && PcShape(s) && Enabled(s, SendEvent)
    ensures InHand(s) == [s.pc.rest[0]] + InHand(Step(s, SendEvent))
    ensures OfferedUpTo(Step(s, SendEvent)) == OfferedUpTo(s)
  {
  }

  lemma SerialSendEvent(s: State)
    requires Shape(s) && Serial(s) && Enabled(s, SendEvent) && Shape(Step(s, SendEvent))
    ensures Serial(Step(s, SendEvent))
  {
    var t, ev := Step(s, SendEvent), s.pc.rest[0];
    SendEventInHand(s);
    ChainedTaken(Cursor(s.out, s.from).value, s.pc, t.pc, InHand(s), InHand(t), s.head, s.queue, OfferedUpTo(s));
    CursorAppend(s.out, s.from, Delivered(ev));
  }

  lemma SerialOffer(s: State, n: nat)
    requires Shape(s) && Serial(s) && Enabled(s, Offer(n)) && Shape(Step(s, Offer(n)))
    ensures Serial(Step(s, Offer(n)))
  {
    OfferedLast(s, n);
    if Listening(s) {
      ChainedOffered(Cursor(s.out, s.from).value, s.pc, InHand(s), s.head, s.queue, s.cap, s.log[n - 1],
                     OfferedUpTo(s));
    }
  }

  /** With one appender at a time, what is offered is the newest event of the log. */
  lemma OfferedLast(s: State, n: nat)
    requires Counted(s.log) && PcShape(s) && Serial(s) && Enabled(s, Offer(n))
    ensures var t := Step(s, Offer(n));
      && n == |s.log| && t.appended == {} && InHand(t) == InHand(s) && t.log == s.log
      && s.log[n - 1].seqNo == OfferedUpTo(s) + 1 && OfferedUpTo(t) == OfferedUpTo(s) + 1
  {
    assert s.appended == {n} && s.appended - {n} == {};
  }

  /** One more event is offered. */
  lemma ChainedOffered(c: nat, pc: Pc, hand: seq<Event>, head: nat, queue: Queue, cap: nat, ev: Event, offered: int)
    requires Chained(c, pc, hand, head, queue, offered) && ev.seqNo == offered + 1
    ensures Chained(c, pc, hand, head, Offered(queue, cap, ev), offered + 1)
  {
  }

  lemma SerialSubscribe(s: State, at: nat)
    requires Shape(s) && Serial(s) && Enabled(s, Subscribe(at)) && at <= |s.log| && Shape(Step(s, Subscribe(at)))
    ensures Serial(Step(s, Subscribe(at)))
  {
    var t := Step(s, Subscribe(at));
    assert Cursor(t.out, t.from) == Some(t.from);
  }

  lemma SerialAppend(s: State, ev: Event)
    requires Shape(s) && Serial(s) && Enabled(s, Append(ev)) && s.appended == {} && Shape(Step(s, Append(ev)))
    ensures Serial(Step(s, Append(ev)))
  {
    OneAppended(s, ev);
  }

  /** An append leaves what is offered, and what is on its way, as it was. */
  lemma OneAppended(s: State, ev: Event)
    requires PcShape(s) && Enabled(s, Append(ev)) && s.appended == {} && PcShape(Step(s, Append(ev)))
    ensures var t := Step(s, Append(ev));
      && InHand(t) == InHand(s) && t.pc == s.pc && t.out == s.out && t.queue == s.queue && t.from == s.from
      && t.head == s.head && (if Listening(s) then t.appended == {|t.log|} else t.appended == {})
      && (Listening(s) ==> OfferedUpTo(t) == OfferedUpTo(s))
  {
    assert {} + {ev.seqNo} == {ev.seqNo};
  }

  lemma SerialDrain(s: State)
    requires Shape(s) && Serial(s) && Enabled(s, Drain) && Shape(Step(s, Drain))
    ensures Serial(Step(s, Drain))
  {
    assert InHand(s) == [];
  }

  /** Steps that only move the goroutine on leave what it holds as it was. */
  lemma MoveInHand(s: State, a: Action)
    requires Counted(s.log) && PcShape(s) && Enabled(s, a)
    requires a.ReadBacklog? || a.EndBacklog? || a.Notify? || a.Rest? || a.Wake? || a.Close?
    ensures PcShape(Step(s, a)) ==> InHand(Step(s, a)) == InHand(s)
  {
  }

  lemma SerialMove(s: State, a: Action)
    requires Shape(s) && Serial(s) && Enabled(s, a) && Shape(Step(s, a))
    requires a.ReadBacklog? || a.EndBacklog? || a.Notify? || a.Rest? || a.Wake? || a.Cancel? || a.Close?
    ensures Serial(Step(s, a))
  {
    if !a.Cancel? { MoveInHand(s, a); }
    var t := Step(s, a);
    assert t.out == s.out && t.queue == s.queue && t.appended == s.appended;
  }

  lemma SerialStep(s: State, a: Action)
    requires Shape(s) && Serial(s) && Enabled(s, a) && Shape(Step(s, a)) && (a.Subscribe? ==> a.at <= |s.log|)
    requires a.Append? ==> s.appended == {}
    ensures Serial(Step(s, a))
  {
    if a.SendBacklog? || a.SendEvent? || a.SendLag? {
      SerialSend(s, a);
    } else if a.Offer? {
      SerialOffer(s, a.s);
    } else if a.Subscribe? {
      SerialSubscribe(s, a.at);
    } else if a.Append? {
      SerialAppend(s, a.ev);
    } else if a.Drain? {
      SerialDrain(s);
    } else {
      SerialMove(s, a);
    }
  }

  /** Each append runs its offers before the next one starts. */
  ghost predicate OneAppender(s: State, run: seq<Action>)
    requires CanRun(s, run)
    decreases |run|
  {
    run == [] || ((run[0].Append? ==> s.appended == {}) && OneAppender(Step(s, run[0]), run[1..]))
  }

  lemma {:induction false} SerialRun(s: State, run: seq<Action>)
    requires Shape(s) && Serial(s) && CanRun(s, run) && FromKnown(s, run) && OneAppender(s, run)
    ensures PcShape(Run(s, run)) && Serial(Run(s, run))
    decreases |run|
  {
    if run != [] {
      ShapeStep(s, run[0]);
      SerialStep(s, run[0]);
      SerialRun(Step(s, run[0]), run[1..]);
    }
  }

  /** What a consumer of a serial log may rely on: events rise, neighbours are successors, the first
      event is the successor of from, and the first event after a gap is the successor of the gap's end. */
  ghost predicate Gapless(out: seq<Update>, from: nat) {
    && (out != [] && out[0].Delivered? ==> out[0].event.seqNo == from + 1)
    && (forall i | 0 <= i < |out| :: from < Position(out[i]))
    && (forall i | 0 <= i < |out| - 1 && out[i + 1].Delivered? :: out[i + 1].event.seqNo == Position(out[i]) + 1)
    && (forall i, j | 0 <= i < j < |out| :: Position(out[i]) < Position(out[j]))
  }

  function Position(u: Update): nat {
    match u case Delivered(ev) => ev.seqNo case Lagged(l) => l
  }

  /** A stream is gapless exactly when a consumer can follow it with a cursor. */
  lemma {:induction false} CursorGapless(out: seq<Update>, from: nat)
    ensures Cursor(out, from).Some? <==> Gapless(out, from)
    ensures out != [] && Cursor(out, from).Some? ==> Cursor(out, from) == Some(Position(out[|out| - 1]))
  {
    if out != [] {
      var before, u := out[..|out| - 1], out[|out| - 1];
      CursorGapless(before, from);
      assert out == before + [u];
      GaplessNext(before, from, u);
    }
  }

  /** The last position, or from. */
  function LastPosition(out: seq<Update>, from: nat): nat {
    if out == [] then from else Position(out[|out| - 1])
  }

  lemma GaplessNext(out: seq<Update>, from: nat, u: Update)
    ensures var p := LastPosition(out, from);
      Gapless(out + [u], from) <==> Gapless(out, from) && p < Position(u) && (u.Delivered? ==> Position(u) == p + 1)
  {
    var all := out + [u];
    if Gapless(all, from) {
      assert forall i | 0 <= i < |out| :: out[i] == all[i];
      assert all[|out|] == u;
      if out != [] { assert all[|out| - 1] == out[|out| - 1]; }
    }
    if Gapless(out, from) && LastPosition(out, from) < Position(u) {
      forall i | 0 <= i < |out| ensures Position(out[i]) < Position(u) {
        if i < |out| - 1 { assert Position(out[i]) < Position(out[|out| - 1]); }
      }
    }
  }

  /** With one appender at a time, deliveries are in order and every gap is announced and closed exactly. */
  lemma InOrder(cap: nat, run: seq<Action>)
    requires CanRun(Init(cap), run) && FromKnown(Init(cap), run) && OneAppender(Init(cap), run)
    ensures var s := Run(Init(cap), run); Gapless(s.out, s.from)
  {
    var s := Run(Init(cap), run);
    SerialRun(Init(cap), run);
    CursorGapless(s.out, s.from);
  }

  // ---- what does not hold without those conditions ----

  function TestEvent(n: nat): Event {
    Event(n, "", 0, Agent, "", "", Idle, [], Detail(None, None, None, None, None, []))
  }

  /** A run one step longer. */
  lemma {:induction false} Extend(s: State, run: seq<Action>, a: Action)
    requires CanRun(s, run) && FromKnown(s, run) && Enabled(Run(s, run), a) && !a.Subscribe?
    ensures CanRun(s, run + [a]) && FromKnown(s, run + [a]) && Run(s, run + [a]) == Step(Run(s, run), a)
    decreases |run|
  {
    if run == [] {
      assert run + [a] == [a] && [a][1..] == [];
    } else {
      Extend(Step(s, run[0]), run[1..], a);
      assert (run + [a])[1..] == run[1..] + [a];
    }
  }

  ghost predicate Reaches(s: State, run: seq<Action>, t: State) {
    CanRun(s, run) && FromKnown(s, run) && Run(s, run) == t
  }

  lemma Then(s: State, run: seq<Action>, t: State, a: Action) returns (run': seq<Action>, t': State)
    requires Reaches(s, run, t) && Enabled(t, a) && !a.Subscribe?
    ensures Reaches(s, run', t') && t' == Step(t, a)
  {
    Extend(s, run, a);
    run', t' := run + [a], Step(t, a);
  }

  /** A just subscribed, empty-handed subscriber offered ev first delivers it. */
  lemma FirstDelivery(s: State, run: seq<Action>, t: State, n: nat) returns (run': seq<Action>, t': State)
    requires Reaches(s, run, t) && t.pc.Draining? && t.queue == EMPTY && t.out == [] && t.cap > 0
    requires n in t.appended && t.head < n <= |t.log| && t.log[n - 1].seqNo == n
    ensures Reaches(s, run', t') && t'.pc == Sending([]) && t'.out == [Delivered(t.log[n - 1])]
    ensures t'.queue.items == [] && !t'.queue.lagged && t'.log == t.log && t'.cap == t.cap && t'.head == t.head
    ensures n in t'.notifying && t'.appended == t.appended - {n}
  {
    run', t' := Then(s, run, t, Offer(n));
    assert t'.queue.items == [t.log[n - 1]];
    run', t' := Then(s, run', t', Drain);
    run', t' := Then(s, run', t', SendEvent);
  }

  lemma TwoAppended(e1: Event, e2: Event) returns (run: seq<Action>, t: State)
    requires e1.seqNo == 1 && e2.seqNo == 2
    ensures Reaches(Init(1), run, t) && t == Init(1).(log := [e1, e2], appended := {1, 2}, pc := Draining)
  {
    var s := Init(1);
    run, t := [Subscribe(0)], Step(s, Subscribe(0));
    assert run[1..] == [] && CanRun(t, []) && FromKnown(t, []) && Run(t, []) == t;
    assert Reaches(s, run, t);
    run, t := Then(s, run, t, ReadBacklog);
    run, t := Then(s, run, t, EndBacklog);
    run, t := Then(s, run, t, Append(e1));
    run, t := Then(s, run, t, Append(e2));
    assert t.log == [e1, e2] && t.appended == {1, 2};
  }

  /** After a first delivery, a second event offered wakes the subscriber and is delivered next. */
  lemma SecondDelivery(s: State, run: seq<Action>, t: State, m: nat, n: nat) returns (run': seq<Action>, t': State)
    requires Reaches(s, run, t) && t.pc == Sending([]) && t.queue.items == [] && !t.queue.lagged && t.cap > 0
    requires m in t.notifying && n in t.appended && t.head < n <= |t.log| && t.log[n - 1].seqNo == n
    ensures Reaches(s, run', t') && t'.out == t.out + [Delivered(t.log[n - 1])]
  {
    run', t' := WokenUp(s, run, t, m);
    run', t' := OfferTaken(s, run', t', n);
  }

  /** With nothing in hand the subscriber rests, and a token wakes it. */
  lemma WokenUp(s: State, run: seq<Action>, t: State, m: nat) returns (run': seq<Action>, t': State)
    requires Reaches(s, run, t) && t.pc == Sending([]) && m in t.notifying
    ensures Reaches(s, run', t') && t' == t.(pc := Draining, token := false, notifying := t.notifying - {m})
  {
    run', t' := Then(s, run, t, Rest);
    run', t' := Then(s, run', t', Notify(m));
    run', t' := Then(s, run', t', Wake);
  }

  /** Offered to an empty queue before it is drained, an event is delivered. */
  lemma OfferTaken(s: State, run: seq<Action>, t: State, n: nat) returns (run': seq<Action>, t': State)
    requires Reaches(s, run, t) && t.pc.Draining? && t.queue.items == [] && !t.queue.lagged && t.cap > 0
    requires n in t.appended && t.head < n <= |t.log| && t.log[n - 1].seqNo == n
    ensures Reaches(s, run', t') && t'.out == t.out + [Delivered(t.log[n - 1])]
  {
    run', t' := Then(s, run, t, Offer(n));
    assert t'.queue.items == [t.log[n - 1]];
    run', t' := Then(s, run', t', Drain);
    run', t' := Then(s, run', t', SendEvent);
  }

  /** Two appenders may offer out of order, and their events are then delivered out of order. */
  lemma OutOfOrder()
    ensures exists run :: CanRun(Init(1), run) && FromKnown(Init(1), run) && Seqs(Run(Init(1), run).out) == [2, 1]
  {
    var e1, e2 := TestEvent(1), TestEvent(2);
    var run, t := TwoAppended(e1, e2);
    run, t := FirstDelivery(Init(1), run, t, 2);
    run, t := SecondDelivery(Init(1), run, t, 2, 1);
    SeqsAppend([], Delivered(e2));
    SeqsAppend([Delivered(e2)], Delivered(e1));
    assert Seqs(Run(Init(1), run).out) == [2, 1];
  }

  // ---- when order holds, exactly ----

  /** How far the consumer will have got once all that is in hand and queued has reached it. */
  function Reach(c: nat, pc: Pc, hand: seq<Event>, queue: Queue): nat {
    if queue.lagged then queue.lastSeq
    else (if pc.Announcing? then pc.lastSeq else c + |hand|) + |queue.items|
  }

  /** What is in hand follows the stream, what is queued follows that, and at most one event is still to be offered: the
      next one. */
  ghost predicate InStep(s: State)
    requires PcShape(s)
  {
    && Cursor(s.out, s.from).Some?
    && var c := Cursor(s.out, s.from).value;
    && var r := Reach(c, s.pc, InHand(s), s.queue);
    && Chained(c, s.pc, InHand(s), s.head, s.queue, r)
    && (s.appended == {} || s.appended == {r + 1})
  }

  /** Steps of the subscriber's own goroutine and of notifiers: they change nothing of what is on its way. */
  predicate Moves(a: Action) {
    !a.Append? && !a.Subscribe? && !a.Offer? && !a.Cancel?
  }

  ghost predicate NoAppends(run: seq<Action>) {
    forall i | 0 <= i < |run| :: !run[i].Append?
  }

  lemma InStepSame(s: State, t: State)
    requires PcShape(s) && PcShape(t) && t.out == s.out && t.from == s.from && InHand(t) == InHand(s)
             && t.queue == s.queue
    requires t.appended == s.appended && !s.pc.Announcing? && !t.pc.Announcing?
    ensures InStep(t) <==> InStep(s)
  {
  }

  /** One event goes from the hand to the stream: the chain held before exactly if it holds after. */
  lemma ChainedBack(c: nat, pc: Pc, pc': Pc, hand: seq<Event>, rest: seq<Event>, head: nat, queue: Queue, offered: int)
    requires hand != [] && hand == [hand[0]] + rest && !pc.Announcing? && !pc'.Announcing?
    ensures Chained(c, pc, hand, head, queue, offered)
       <==> hand[0].seqNo == c + 1 && Chained(c + 1, pc', rest, head, queue, offered)
  {
    assert forall i | 0 <= i < |rest| :: rest[i] == hand[i + 1];
    if hand[0].seqNo == c + 1 && Rising(rest, c + 1) {
      forall i | 0 <= i < |hand| ensures hand[i].seqNo == c + 1 + i {
        if i > 0 { assert hand[i] == rest[i - 1]; }
      }
    }
  }

  lemma InStepTaken(s: State, t: State, ev: Event)
    requires PcShape(s) && PcShape(t) && t.out == s.out + [Delivered(ev)] && t.from == s.from
    requires InHand(s) == [ev] + InHand(t) && t.queue == s.queue && t.head == s.head && t.appended == s.appended
    requires !s.pc.Announcing? && !t.pc.Announcing?
    ensures InStep(t) <==> InStep(s)
  {
    if Cursor(s.out, s.from).Some? {
      CursorAppend(s.out, s.from, Delivered(ev));
      var c := Cursor(s.out, s.from).value;
      ChainedBack(c, s.pc, t.pc, InHand(s), InHand(t), s.head, s.queue, Reach(c, s.pc, InHand(s), s.queue));
    } else {
      CursorLost(s.out, s.from, Delivered(ev));
    }
  }

  lemma CursorLost(out: seq<Update>, from: nat, u: Update)
    requires Cursor(out, from).None?
    ensures Cursor(out + [u], from).None?
  {
    assert (out + [u])[..|out|] == out;
  }

  lemma InStepLag(s: State)
    requires Shape(s) && Enabled(s, SendLag) && PcShape(Step(s, SendLag))
    ensures InStep(Step(s, SendLag)) <==> InStep(s)
  {
    if Cursor(s.out, s.from).Some? {
      CursorAppend(s.out, s.from, Lagged(s.pc.lastSeq));
    } else {
      CursorLost(s.out, s.from, Lagged(s.pc.lastSeq));
    }
  }

  lemma InStepDrain(s: State)
    requires Shape(s) && Enabled(s, Drain) && PcShape(Step(s, Drain))
    ensures InStep(Step(s, Drain)) <==> InStep(s)
  {
    var t := Step(s, Drain);
    assert InHand(s) == [] && t.out == s.out && t.from == s.from && t.appended == s.appended && t.head == s.head;
    assert t.queue == Queue([], false, s.queue.lastSeq);
    if Cursor(s.out, s.from).Some? {
      var c := Cursor(s.out, s.from).value;
      if s.queue.lagged {
        DrainedLag(c, s.pc, t.pc, s.head, s.queue);
        assert InHand(t) == [];
      } else {
        DrainedItems(c, s.pc, t.pc, s.head, s.queue);
        assert InHand(t) == s.queue.items;
      }
    }
  }

  /** A queue taken as it is becomes the hand. */
  lemma DrainedItems(c: nat, pc: Pc, pc': Pc, head: nat, queue: Queue)
    requires !queue.lagged && !pc.Announcing? && !pc'.Announcing?
    ensures var left := Queue([], false, queue.lastSeq); var r := Reach(c, pc, [], queue);
      && Reach(c, pc', queue.items, left) == r
      && (Chained(c, pc', queue.items, head, left, r) <==> Chained(c, pc, [], head, queue, r))
  {
  }

  /** A lagged one becomes its mark. */
  lemma DrainedLag(c: nat, pc: Pc, pc': Pc, head: nat, queue: Queue)
    requires queue.lagged && !pc.Announcing? && pc' == Announcing(queue.lastSeq)
    ensures var left := Queue([], false, queue.lastSeq); var r := Reach(c, pc, [], queue);
      && Reach(c, pc', [], left) == r
      && (Chained(c, pc', [], head, left, r) <==> Chained(c, pc, [], head, queue, r))
  {
  }

  lemma InStepMoves(s: State, a: Action)
    requires Shape(s) && Enabled(s, a) && Moves(a) && Listening(s) && PcShape(Step(s, a))
    ensures InStep(Step(s, a)) <==> InStep(s)
  {
    var t := Step(s, a);
    if a.SendBacklog? {
      SendBacklogInHand(s);
      if s.pc.items[s.pc.i].seqNo <= s.head {
        InStepTaken(s, t, s.pc.items[s.pc.i]);
      } else {
        InStepSame(s, t);
      }
    } else if a.SendEvent? {
      SendEventInHand(s);
      InStepTaken(s, t, s.pc.rest[0]);
    } else if a.SendLag? {
      InStepLag(s);
    } else if a.Drain? {
      InStepDrain(s);
    } else {
      CloseInHand(s, a);
      if !s.pc.Announcing? { InStepSame(s, t); }
    }
  }

  lemma CloseInHand(s: State, a: Action)
    requires Counted(s.log) && PcShape(s) && Enabled(s, a) && PcShape(Step(s, a))
    requires a.ReadBacklog? || a.EndBacklog? || a.Notify? || a.Rest? || a.Wake? || a.Close?
    ensures var t := Step(s, a);
      && InHand(t) == InHand(s) && t.out == s.out && t.queue == s.queue && t.appended == s.appended && t.from == s.from
      && t.head == s.head && (s.pc.Announcing? ==> t.pc == s.pc) && (!s.pc.Announcing? ==> !t.pc.Announcing?)
  {
    MoveInHand(s, a);
  }

  lemma InStepOffer(s: State, n: nat)
    requires Shape(s) && InStep(s) && Enabled(s, Offer(n)) && PcShape(Step(s, Offer(n)))
    ensures InStep(Step(s, Offer(n)))
  {
    var t, c := Step(s, Offer(n)), Cursor(s.out, s.from).value;
    var r := Reach(c, s.pc, InHand(s), s.queue);
    assert s.appended == {r + 1} && n == r + 1 && s.appended - {n} == {} && s.log[n - 1].seqNo == n;
    assert InHand(t) == InHand(s);
    ChainedOffered(c, s.pc, InHand(s), s.head, s.queue, s.cap, s.log[n - 1], r);
  }

  /** Subscribed, and in step for as long as it listens. */
  ghost predicate KeepsStep(s: State) {
    Inv(s) && !s.pc.Unsubscribed? && Cursor(s.out, s.from).Some? && (Listening(s) ==> InStep(s))
  }

  lemma KeepsStepNext(s: State, a: Action)
    requires KeepsStep(s) && Enabled(s, a) && !a.Append?
    ensures KeepsStep(Step(s, a)) && Step(s, a).from == s.from
  {
    InvStep(s, a);
    if Listening(s) && !a.Cancel? {
      if a.Offer? { InStepOffer(s, a.s); } else { InStepMoves(s, a); }
    } else {
      assert Step(s, a).out == s.out;
    }
  }

  /** In step, the stream has no gap, and has none whatever comes but appends. */
  lemma {:induction false} StaysGapless(s: State, run: seq<Action>)
    requires KeepsStep(s) && CanRun(s, run) && NoAppends(run)
    ensures Gapless(Run(s, run).out, s.from)
    decreases |run|
  {
    if run == [] {
      CursorGapless(s.out, s.from);
    } else {
      KeepsStepNext(s, run[0]);
      StaysGapless(Step(s, run[0]), run[1..]);
    }
  }

  ghost predicate Settled(s: State) {
    s.pc.Waiting? && s.queue.items == [] && !s.queue.lagged
  }

  function Rank(s: State): nat {
    match s.pc
    case Registered => 9
    case Backlog(_, _) => 8
    case Draining => if s.queue.items == [] then 7 else 2
    case Announcing(_) => 6
    case Sending(_) => 5
    case Waiting => if s.queue.items == [] then 0 else if s.token then 3 else 4
    case _ => 0
  }

  function Remaining(s: State): nat {
    match s.pc
    case Backlog(items, i) => if i <= |items| then |items| - i else 0
    case Sending(rest) => |rest|
    case _ => 0
  }

  /** Less is queued, or as much and the goroutine is further on. */
  ghost predicate Nearer(t: State, s: State) {
    || |t.queue.items| < |s.queue.items|
    || (|t.queue.items| == |s.queue.items| && Rank(t) < Rank(s))
    || (|t.queue.items| == |s.queue.items| && Rank(t) == Rank(s) && Remaining(t) < Remaining(s))
  }

  /** What the goroutine, or a notifier, does next when nothing more is offered. */
  lemma NextMove(s: State) returns (a: Action)
    requires Inv(s) && Listening(s) && !Settled(s)
    ensures Enabled(s, a) && Moves(a) && Listening(Step(s, a))
    ensures Nearer(Step(s, a), s)
  {
    match s.pc
    case Registered => a := ReadBacklog;
    case Backlog(items, i) => a := if i < |items| then SendBacklog else EndBacklog;
    case Draining => a := Drain;
    case Announcing(_) => a := SendLag;
    case Sending(rest) => a := if rest != [] then SendEvent else Rest;
    case Waiting =>
      if s.token {
        a := Wake;
      } else {
        var n :| n in s.notifying;
        a := Notify(n);
      }
  }

  /** Left to itself, the subscriber is sent all that is on its way and goes to sleep. */
  lemma {:induction false} Settle(s: State, run: seq<Action>, t: State) returns (run': seq<Action>, t': State)
    requires Reaches(s, run, t) && Inv(t) && Listening(t) && NoAppends(run)
    ensures Reaches(s, run', t') && Inv(t') && Settled(t') && NoAppends(run')
    ensures InStep(t') <==> InStep(t)
    ensures t'.from == t.from && t'.cap == t.cap
    decreases |t.queue.items|, Rank(t), Remaining(t)
  {
    if Settled(t) {
      run', t' := run, t;
    } else {
      var more, next := MoveOn(s, run, t);
      run', t' := Settle(s, more, next);
    }
  }

  lemma MoveOn(s: State, run: seq<Action>, t: State) returns (run': seq<Action>, t': State)
    requires Reaches(s, run, t) && Inv(t) && Listening(t) && !Settled(t) && NoAppends(run)
    ensures Reaches(s, run', t') && Inv(t') && Listening(t') && NoAppends(run') && Nearer(t', t)
    ensures InStep(t') <==> InStep(t)
    ensures t'.from == t.from && t'.cap == t.cap
  {
    var a := NextMove(t);
    InvStep(t, a);
    InStepMoves(t, a);
    Extend(s, run, a);
    run', t' := run + [a], Step(t, a);
  }

  /** Asleep with nothing queued, it is sent next whatever is offered next. */
  lemma SentNext(s: State, run: seq<Action>, t: State, n: nat) returns (run': seq<Action>, t': State)
    requires Reaches(s, run, t) && Inv(t) && Settled(t) && n in t.appended && t.cap > 0 && NoAppends(run)
    ensures Reaches(s, run', t') && NoAppends(run') && t'.out == t.out + [Delivered(t.log[n - 1])]
  {
    var acts := [Offer(n), Notify(n), Wake, Drain, SendEvent];
    Extend(s, run, Offer(n));
    var t1 := Step(t, Offer(n));
    assert t1.queue.items == [t.log[n - 1]];
    Extend(s, run + [Offer(n)], Notify(n));
    Extend(s, run + [Offer(n)] + [Notify(n)], Wake);
    Extend(s, run + [Offer(n)] + [Notify(n)] + [Wake], Drain);
    Extend(s, run + [Offer(n)] + [Notify(n)] + [Wake] + [Drain], SendEvent);
    run' := run + [Offer(n)] + [Notify(n)] + [Wake] + [Drain] + [SendEvent];
    t' := Run(s, run');
  }

  /** Whatever comes but appends, deliveries are in order and every gap is announced and closed exactly. */
  ghost predicate AlwaysGapless(s: State) {
    forall run | CanRun(s, run) && FromKnown(s, run) && NoAppends(run) :: Gapless(Run(s, run).out, s.from)
  }

  /** Without more appends, every continuation from a state of the protocol is gapless exactly when the state is in
      step: all that is on its way follows on, and at most one offer is outstanding, that of the next event. */
  lemma InOrderExactly(s: State)
    requires Inv(s) && Listening(s) && s.cap > 0
    ensures AlwaysGapless(s) <==> InStep(s)
  {
    if InStep(s) {
      forall run | CanRun(s, run) && FromKnown(s, run) && NoAppends(run) ensures Gapless(Run(s, run).out, s.from) {
        StaysGapless(s, run);
      }
    } else {
      var run := Breaks(s);
      assert !Gapless(Run(s, run).out, s.from);
    }
  }

  lemma Breaks(s: State) returns (run: seq<Action>)
    requires Inv(s) && Listening(s) && s.cap > 0 && !InStep(s)
    ensures CanRun(s, run) && FromKnown(s, run) && NoAppends(run) && !Gapless(Run(s, run).out, s.from)
  {
    assert Reaches(s, [], s);
    var t;
    run, t := Settle(s, [], s);
    CursorGapless(t.out, t.from);
    if Cursor(t.out, t.from).Some? {
      var n := Strayed(t);
      CursorAppend(t.out, t.from, Delivered(t.log[n - 1]));
      CursorGapless(t.out + [Delivered(t.log[n - 1])], t.from);
      run, t := SentNext(s, run, t, n);
    }
  }

  /** An offer that is outstanding and not of the next event. */
  lemma Strayed(t: State) returns (n: nat)
    requires Inv(t) && Settled(t) && !InStep(t) && Cursor(t.out, t.from).Some?
    ensures n in t.appended && 0 < n <= |t.log| && t.log[n - 1].seqNo == n && n != Cursor(t.out, t.from).value + 1
  {
    var c := Cursor(t.out, t.from).value;
    assert Chained(c, t.pc, InHand(t), t.head, t.queue, c) && Reach(c, t.pc, InHand(t), t.queue) == c;
    n := OtherThan(t.appended, c + 1);
  }

  lemma OtherThan(xs: set<nat>, x: nat) returns (n: nat)
    requires xs != {} && xs != {x}
    ensures n in xs && n != x
  {
    var rest := xs - {x};
    assert x in xs ==> rest + {x} == xs;
    assert x !in xs ==> rest == xs;
    assert {} + {x} == {x};
    n :| n in rest;
  }

  /** All that was offered so far came in order; what was appended since is still to be offered. */
  ghost predicate InStepSoFar(s: State)
    requires PcShape(s)
  {
    && Cursor(s.out, s.from).Some?
    && var c := Cursor(s.out, s.from).value;
    && var r := Reach(c, s.pc, InHand(s), s.queue);
    && Chained(c, s.pc, InHand(s), s.head, s.queue, r) && (forall n :: n in s.appended <==> r < n <= |s.log|)
  }

  /** Then it is exactly when no two offers are outstanding. */
  lemma OneOutstanding(s: State)
    requires Inv(s) && Listening(s) && s.cap > 0 && InStepSoFar(s)
    ensures AlwaysGapless(s) <==> forall m, n | m in s.appended && n in s.appended :: m == n
  {
    InOrderExactly(s);
    AtMostOne(s.appended, Reach(Cursor(s.out, s.from).value, s.pc, InHand(s), s.queue), |s.log|);
  }

  lemma AtMostOne(xs: set<nat>, r: nat, n: nat)
    requires forall x :: x in xs <==> r < x <= n
    ensures xs == {} || xs == {r + 1} <==> forall x, y | x in xs && y in xs :: x == y
  {
    if n > r + 1 {
      assert r + 1 in xs && r + 2 in xs;
    } else if n == r + 1 {
      assert r + 1 in xs;
    }
  }

  // ---- what a lag mark tells, and what ends the stream ----

  /** A lag mark is documented to tell the head of the log. With one appender at a time it does, whenever it is about to
      be sent, exactly when nothing is queued again and no offer is outstanding: then all that was appended is behind
      it. */
  lemma LagTellsHead(cap: nat, run: seq<Action>)
    requires CanRun(Init(cap), run) && FromKnown(Init(cap), run) && OneAppender(Init(cap), run)
    ensures var s := Run(Init(cap), run);
      s.pc.Announcing? ==> (s.pc.lastSeq == |s.log| <==> s.queue.items == [] && s.appended == {})
  {
    SerialRun(Init(cap), run);
    InvInit(cap);
    InvRun(Init(cap), run);
  }

  ghost predicate Serially(s: State, run: seq<Action>, t: State) {
    Reaches(s, run, t) && OneAppender(s, run)
  }

  lemma {:induction false} ExtendSerially(s: State, run: seq<Action>, a: Action)
    requires CanRun(s, run) && OneAppender(s, run) && CanRun(s, run + [a])
    requires a.Append? ==> Run(s, run).appended == {}
    ensures OneAppender(s, run + [a])
    decreases |run|
  {
    if run == [] {
      assert run + [a] == [a] && [a][1..] == [];
    } else {
      assert (run + [a])[1..] == run[1..] + [a];
      ExtendSerially(Step(s, run[0]), run[1..], a);
    }
  }

  lemma ThenSerially(s: State, run: seq<Action>, t: State, a: Action) returns (run': seq<Action>, t': State)
    requires Serially(s, run, t) && Enabled(t, a) && !a.Subscribe? && (a.Append? ==> t.appended == {})
    ensures Serially(s, run', t') && t' == Step(t, a)
  {
    Extend(s, run, a);
    ExtendSerially(s, run, a);
    run', t' := run + [a], Step(t, a);
  }

  /** One appender offers 1 and then 2 to a queue of one. */
  lemma OverflowsSerially(e1: Event, e2: Event) returns (run: seq<Action>, t: State)
    requires e1.seqNo == 1 && e2.seqNo == 2
    ensures Serially(Init(1), run, t) && t.log == [e1, e2] && t.appended == {} && t.out == [] && !t.closed
    ensures t.pc.Draining? && t.queue == Queue([e2], true, 2)
  {
    run, t := Attached();
    run, t := ThenSerially(Init(1), run, t, Append(e1));
    run, t := ThenSerially(Init(1), run, t, Offer(1));
    run, t := ThenSerially(Init(1), run, t, Append(e2));
    run, t := ThenSerially(Init(1), run, t, Offer(2));
  }

  /** Subscribed to an empty log, with no backlog to read. */
  lemma Attached() returns (run: seq<Action>, t: State)
    ensures Serially(Init(1), run, t) && t == Init(1).(pc := Draining)
  {
    var s := Init(1);
    run, t := [Subscribe(0)], Step(s, Subscribe(0));
    assert run[1..] == [] && CanRun(t, []) && FromKnown(t, []) && Run(t, []) == t && OneAppender(t, []);
    assert Serially(s, run, t);
    run, t := ThenSerially(s, run, t, ReadBacklog);
    run, t := ThenSerially(s, run, t, EndBacklog);
  }

  /** It happens with one appender: 3 is appended and still to be offered when the queue is drained, and though nothing
      is appended since, the mark tells 2. */
  lemma LagBehind()
    ensures exists run ::
      && CanRun(Init(1), run) && FromKnown(Init(1), run) && OneAppender(Init(1), run)
      && Run(Init(1), run).out == [Lagged(2)] && |Run(Init(1), run).log| == 3
  {
    var run, t := OverflowsSerially(TestEvent(1), TestEvent(2));
    run, t := ThenSerially(Init(1), run, t, Append(TestEvent(3)));
    run, t := ThenSerially(Init(1), run, t, Drain);
    run, t := ThenSerially(Init(1), run, t, SendLag);
    assert Run(Init(1), run).out == [Lagged(2)];
  }

  /** The stream is documented to end when the log closes. It ends exactly when its subscriber cancels: by construction,
      no other step of the model ends it, as nothing else in the goroutine returns. */
  lemma {:induction false} EndsOnCancel(s: State, run: seq<Action>)
    requires CanRun(s, run) && !s.pc.Ended?
    ensures Run(s, run).pc.Ended? <==> Cancel in run
    decreases |run|
  {
    if run != [] {
      assert run == [run[0]] + run[1..];
      if run[0] == Cancel {
        EndedStays(Step(s, Cancel), run[1..]);
      } else {
        EndsOnCancel(Step(s, run[0]), run[1..]);
      }
    }
  }

  lemma {:induction false} EndedStays(s: State, run: seq<Action>)
    requires CanRun(s, run) && s.pc.Ended?
    ensures Run(s, run).pc.Ended?
    decreases |run|
  {
    if run != [] { EndedStays(Step(s, run[0]), run[1..]); }
  }

  /** It happens: the log is closed, and its subscriber is sent what was queued and sleeps on. */
  lemma ClosedAndOpen()
    ensures exists run ::
      && CanRun(Init(1), run) && FromKnown(Init(1), run)
      && Run(Init(1), run).closed && Run(Init(1), run).pc.Waiting? && Cancel !in run
  {
    var s := Init(1);
    var run, t := [Subscribe(0)], Step(s, Subscribe(0));
    assert run[1..] == [] && CanRun(t, []) && FromKnown(t, []) && Run(t, []) == t;
    assert Reaches(s, run, t);
    run, t := Then(s, run, t, Close);
    run, t := Then(s, run, t, ReadBacklog);
    run, t := Then(s, run, t, EndBacklog);
    run, t := Then(s, run, t, Drain);
    run, t := Then(s, run, t, Rest);
    EndsOnCancel(s, run);
  }

  /** A subscriber is sent only events newer than from, whatever happens next, exactly when from is no
      newer than the head of the log at subscription: the live stream is filtered by the head. */
  lemma OnlyNewer(s: State, from: nat)
    requires Inv(s) && Enabled(s, Subscribe(from)) && s.cap > 0
    ensures var t := Step(s, Subscribe(from));
            (forall run | CanRun(t, run) && FromKnown(t, run) :: forall n | n in Seqs(Run(t, run).out) :: n > from)
            <==> from <= |s.log|
  {
    var t := Step(s, Subscribe(from));
    if from <= |s.log| {
      InvStep(s, Subscribe(from));
      forall run, n | CanRun(t, run) && FromKnown(t, run) && n in Seqs(Run(t, run).out) ensures n > from {
        InvRun(t, run);
        FromKept(t, run);
        assert n in Track(Run(t, run));
      }
    } else {
      var run := DeliversOld(t, from);
      assert |s.log| + 1 in Seqs(Run(t, run).out);
    }
  }

  lemma {:induction false} FromKept(t: State, run: seq<Action>)
    requires CanRun(t, run) && !t.pc.Unsubscribed?
    ensures Run(t, run).from == t.from
    decreases |run|
  {
    if run != [] { FromKept(Step(t, run[0]), run[1..]); }
  }

  lemma DeliversOld(s: State, from: nat) returns (run: seq<Action>)
    requires s.pc.Registered? && s.from == from && s.head == |s.log| < from
    requires s.queue == EMPTY && s.out == [] && s.cap > 0 && !s.closed
    ensures CanRun(s, run) && FromKnown(s, run) && Seqs(Run(s, run).out) == [|s.log| + 1]
  {
    var n := |s.log| + 1;
    var t := s;
    run := [];
    run, t := Then(s, run, t, ReadBacklog);
    run, t := Then(s, run, t, EndBacklog);
    run, t := Then(s, run, t, Append(TestEvent(n)));
    run, t := FirstDelivery(s, run, t, n);
    SeqsAppend([], Delivered(TestEvent(n)));
  }
}
