/** Everything that happens in one agent run, and what each of its bounds says of it (internal/agent/loop.go). */
module RunTrace {
  import opened Outcomes

  datatype Choice = Unrouted | Fast | Balanced | Deep

  /** A tool call; valid says its input parses. */
  datatype Call = Call(name: string, input: string, valid: bool)

  datatype Change = Change(path: string, added: nat, removed: nat)

  datatype Verdict = Pass | Failed | Unattributed

  datatype Review = ReviewOK | Objection | Skipped

  /** What prose without a call reads as. */
  datatype Prose = CallAsText | Question | Announced | Plain

  /** What a turn shows that counts toward nothing but may be why the run stops. */
  datatype Sign = StreamBroke | CameEmpty | Malformed(call: Call) | Read(prose: Prose) | WasCanceled

  /** Replied holds the calls of a model's reply and whether it ended the turn; the calls may have been read out of
      prose. */
  datatype Event =
    | Began(at: int)
    | Routed(choice: Choice)
    | Replied(calls: seq<Call>, ended: bool)
    | Priced(cost: real)
    | Noted(sign: Sign)
    | Issued(call: Call, at: int)
    | Ran(call: Call, changes: seq<Change>)
    | Answered(call: Call, error: bool, refused: bool)
    | Bounced(call: Call)
    | Credited(wait: int)
    | Escalated
    | StuckSeen
    | Verified(changes: seq<Change>, verdict: Verdict)
    | SentBack
    | Reviewed(changes: seq<Change>, result: Review)
    | Objected

  datatype Stop =
    | Complete | MaxTurns | ToolCallFlood | MalformedTool | LoopDetected | Stagnant | Deadline | CostCeiling | Canceled
    | ProviderFailed | VerifyFailed | AskedInProse | AnnouncedNotDone | TreeState

  datatype Options = Options(
    maxTurns: int, maxToolCallsPerTurn: int, maxVerifyRounds: int, maxReviewRounds: int, maxStagnantErrors: int,
    maxWallClock: int, maxHostedSpend: real, verifier: bool, reviewer: bool, changeGate: bool, localSlots: bool)

  const EDIT_TOOLS: set<string> := {"delete", "rename", "str_replace", "write"}

  // ---- what a trace adds up to ----

  function Turns(t: seq<Event>): nat {
    if t == [] then 0 else Turns(t[..|t| - 1]) + if t[|t| - 1].Began? then 1 else 0
  }

  /** Calls answered since the turn began. */
  function TurnCalls(t: seq<Event>): nat {
    if t == [] || t[|t| - 1].Began? then 0
    else TurnCalls(t[..|t| - 1]) + if t[|t| - 1].Answered? || t[|t| - 1].Bounced? then 1 else 0
  }

  /** Calls let through the guards since the turn began. */
  function TurnIssued(t: seq<Event>): nat {
    if t == [] || t[|t| - 1].Began? then 0
    else TurnIssued(t[..|t| - 1]) + if t[|t| - 1].Issued? then 1 else 0
  }

  function Calls(t: seq<Event>): nat {
    if t == [] then 0 else Calls(t[..|t| - 1]) + if t[|t| - 1].Answered? || t[|t| - 1].Bounced? then 1 else 0
  }

  function Spent(t: seq<Event>): real {
    if t == [] then 0.0 else Spent(t[..|t| - 1]) + if t[|t| - 1].Priced? then t[|t| - 1].cost else 0.0
  }

  /** Error results since the last result that was none; a refusal is neither. */
  function Unreset(t: seq<Event>): nat {
    if t == [] then 0
    else
      var before := Unreset(t[..|t| - 1]);
      match t[|t| - 1]
      case Answered(_, error, refused) => if !error then 0 else if refused then before else before + 1
      case Bounced(_) => before + 1
      case _ => before
  }

  function Changes(t: seq<Event>): seq<Change> {
    if t == [] then [] else Changes(t[..|t| - 1]) + if t[|t| - 1].Ran? then t[|t| - 1].changes else []
  }

  /** Time credited for waits on a person or on a slot. */
  function Credit(t: seq<Event>): int {
    if t == [] then 0 else Credit(t[..|t| - 1]) + if t[|t| - 1].Credited? then t[|t| - 1].wait else 0
  }

  function Escalations(t: seq<Event>): nat {
    if t == [] then 0 else Escalations(t[..|t| - 1]) + if t[|t| - 1].Escalated? then 1 else 0
  }

  function VerifyRounds(t: seq<Event>): nat {
    if t == [] then 0 else VerifyRounds(t[..|t| - 1]) + if t[|t| - 1].Verified? then 1 else 0
  }

  function ReviewRounds(t: seq<Event>): nat {
    if t == [] then 0 else ReviewRounds(t[..|t| - 1]) + if t[|t| - 1].Reviewed? then 1 else 0
  }

  /** Failed verifications the run went on from. */
  function SentBacks(t: seq<Event>): nat {
    if t == [] then 0 else SentBacks(t[..|t| - 1]) + if t[|t| - 1].SentBack? then 1 else 0
  }

  /** Objections the run went on from. */
  function Objections(t: seq<Event>): nat {
    if t == [] then 0 else Objections(t[..|t| - 1]) + if t[|t| - 1].Objected? then 1 else 0
  }

  predicate EditTried(t: seq<Event>) {
    t != [] && (EditTried(t[..|t| - 1]) || (t[|t| - 1].Issued? && t[|t| - 1].call.name in EDIT_TOOLS))
  }

  predicate StuckBefore(t: seq<Event>) {
    t != [] && (t[|t| - 1].StuckSeen? || StuckBefore(t[..|t| - 1]))
  }

  function Route(t: seq<Event>): Choice {
    if t == [] then Unrouted else if t[|t| - 1].Routed? then t[|t| - 1].choice else Route(t[..|t| - 1])
  }

  function LastCall(t: seq<Event>): Option<Call> {
    if t == [] then None else if t[|t| - 1].Answered? then Some(t[|t| - 1].call) else LastCall(t[..|t| - 1])
  }

  /** The last reply: its calls, how many of them were let through, run and answered since, and whether it ended the
      turn. */
  datatype Exchange = Exchange(asked: seq<Call>, issued: nat, ran: nat, answered: nat, ended: bool)

  function LastExchange(t: seq<Event>): Exchange {
    if t == [] then Exchange([], 0, 0, 0, false)
    else
      var x := LastExchange(t[..|t| - 1]);
      match t[|t| - 1]
      case Replied(calls, ended) => Exchange(calls, 0, 0, 0, ended)
      case Issued(_, _) => x.(issued := x.issued + 1)
      case Ran(_, _) => x.(ran := x.ran + 1)
      case Answered(_, _, _) => x.(answered := x.answered + 1)
      case Bounced(_) => x.(answered := x.answered + 1)
      case _ => x
  }

  /** The calls of the last reply that have no answer. */
  function Pending(x: Exchange): seq<Call> {
    if x.answered <= |x.asked| then x.asked[x.answered..] else []
  }

  /** All of these at once. */
  datatype Sums = Sums(
    turns: nat, turnCalls: nat, turnIssued: nat, calls: nat, spent: real, unreset: nat, changes: seq<Change>,
      credit: int, escalations: nat, verifyRounds: nat, reviewRounds: nat, sentBacks: nat, objections: nat,
        editTried: bool, stuckBefore: bool, route: Choice, lastCall: Option<Call>, exchange: Exchange)

  const NOTHING: Sums := Sums(0, 0, 0, 0, 0.0, 0, [], 0, 0, 0, 0, 0, 0, false, false, Unrouted, None,
                               Exchange([], 0, 0, 0, false))

  function Adding(s: Sums, e: Event): Sums {
    var x := s.exchange;
    match e
    case Began(_) => s.(turns := s.turns + 1, turnCalls := 0, turnIssued := 0)
    case Routed(choice) => s.(route := choice)
    case Replied(calls, ended) => s.(exchange := Exchange(calls, 0, 0, 0, ended))
    case Priced(cost) => s.(spent := s.spent + cost)
    case Issued(call, _) =>
      s.(turnIssued := s.turnIssued + 1, editTried := s.editTried || call.name in EDIT_TOOLS,
         exchange := x.(issued := x.issued + 1))
    case Ran(_, changes) => s.(changes := s.changes + changes, exchange := x.(ran := x.ran + 1))
    case Answered(call, error, refused) =>
      s.(turnCalls := s.turnCalls + 1, calls := s.calls + 1, lastCall := Some(call),
         unreset := (if !error then 0 else if refused then s.unreset else s.unreset + 1),
         exchange := x.(answered := x.answered + 1))
    case Bounced(_) =>
      s.(turnCalls := s.turnCalls + 1, calls := s.calls + 1, unreset := s.unreset + 1,
         exchange := x.(answered := x.answered + 1))
    case Credited(wait) => s.(credit := s.credit + wait)
    case Escalated => s.(escalations := s.escalations + 1)
    case StuckSeen => s.(stuckBefore := true)
    case Verified(_, _) => s.(verifyRounds := s.verifyRounds + 1)
    case SentBack => s.(sentBacks := s.sentBacks + 1)
    case Reviewed(_, _) => s.(reviewRounds := s.reviewRounds + 1)
    case Objected => s.(objections := s.objections + 1)
    case Noted(_) => s
  }

  function SumOf(t: seq<Event>): Sums {
    if t == [] then NOTHING else Adding(SumOf(t[..|t| - 1]), t[|t| - 1])
  }

  predicate SumsHold(t: seq<Event>) {
    SumOf(t) == Sums(Turns(t), TurnCalls(t), TurnIssued(t), Calls(t), Spent(t), Unreset(t), Changes(t), Credit(t),
                     Escalations(t), VerifyRounds(t), ReviewRounds(t), SentBacks(t), Objections(t), EditTried(t),
                     StuckBefore(t), Route(t), LastCall(t), LastExchange(t))
  }

  predicate OfCall(e: Event) {
    e.Issued? || e.Ran? || e.Answered? || e.Bounced?
  }

  lemma SumsAfterCall(t: seq<Event>)
    requires t != [] && SumsHold(t[..|t| - 1]) && OfCall(t[|t| - 1])
    ensures SumsHold(t)
  {
  }

  lemma SumsAfterTurn(t: seq<Event>)
    requires t != [] && SumsHold(t[..|t| - 1])
    requires t[|t| - 1].Began? || t[|t| - 1].Routed? || t[|t| - 1].Replied? || t[|t| - 1].Priced? || t[|t| - 1].Noted?
    ensures SumsHold(t)
  {
  }

  lemma SumsAfterOther(t: seq<Event>)
    requires t != [] && SumsHold(t[..|t| - 1]) && !OfCall(t[|t| - 1])
    requires !t[|t| - 1].Began? && !t[|t| - 1].Routed? && !t[|t| - 1].Replied? && !t[|t| - 1].Priced?
             && !t[|t| - 1].Noted?
    ensures SumsHold(t)
  {
  }

  lemma {:induction false} SumsAre(t: seq<Event>)
    ensures SumsHold(t)
  {
    if t != [] {
      SumsAre(t[..|t| - 1]);
      var e := t[|t| - 1];
      if OfCall(e) {
        SumsAfterCall(t);
      } else if e.Began? || e.Routed? || e.Replied? || e.Priced? || e.Noted? {
        SumsAfterTurn(t);
      } else {
        SumsAfterOther(t);
      }
    }
  }

  /** Start plus budget plus credited waits, where a budget is set. */
  function DeadlineOf(o: Options, start: int, credit: int): Option<int> {
    if o.maxWallClock > 0 then Some(start + o.maxWallClock + credit) else None
  }

  predicate Before(at: int, deadline: Option<int>) {
    deadline.Some? ==> at < deadline.value
  }

  // ---- the bounds ----

  predicate Under(n: int, max: int) {
    n == 0 || n < max
  }

  /** What holds whenever a turn begins. */
  predicate Fit(o: Options, start: int, s: Sums, at: int) {
    && s.turns < o.maxTurns && Before(at, DeadlineOf(o, start, s.credit))
    && (o.maxHostedSpend > 0.0 ==> s.spent < o.maxHostedSpend)
    && (o.maxStagnantErrors > 0 ==> s.unreset < o.maxStagnantErrors)
    && Under(s.sentBacks, o.maxVerifyRounds) && Under(s.objections, o.maxReviewRounds)
  }

  /** What holds whenever a call is let through. */
  predicate Admissible(o: Options, start: int, s: Sums, at: int) {
    && s.turnIssued <= s.turnCalls < o.maxToolCallsPerTurn && Before(at, DeadlineOf(o, start, s.credit))
  }

  /** The call is the reply's first without an answer: calls are taken in the order the model gave them. */
  predicate IsNext(x: Exchange, call: Call) {
    x.answered < |x.asked| && x.asked[x.answered] == call
  }

  /** The event came when the bounds allowed it. */
  predicate Allowed(o: Options, start: int, s: Sums, e: Event) {
    match e
    case Began(at) => Fit(o, start, s, at)
    case Issued(call, at) => Admissible(o, start, s, at) && IsNext(s.exchange, call)
    case Noted(sign) => sign.Malformed? ==> !sign.call.valid && IsNext(s.exchange, sign.call)
    case Answered(call, _, _) => IsNext(s.exchange, call)
    case Bounced(call) => IsNext(s.exchange, call)
    case Credited(wait) => wait > 0
    case Verified(changes, _) => changes == s.changes
    case Reviewed(changes, _) => changes == s.changes
    case _ => true
  }

  /** Every event of the trace came when the bounds allowed it. */
  predicate Lawful(o: Options, start: int, t: seq<Event>) {
    t == [] || (Lawful(o, start, t[..|t| - 1]) && Allowed(o, start, SumOf(t[..|t| - 1]), t[|t| - 1]))
  }

  /** The sums before and after the i-th event, and that it was allowed. */
  ghost predicate Entry(o: Options, start: int, t: seq<Event>, sums: seq<Sums>, i: nat)
    requires i < |t| && |sums| == |t| + 1
  {
    sums[i + 1] == Adding(sums[i], t[i]) && Allowed(o, start, sums[i], t[i])
  }

  /** A trace kept together with its running sums. */
  ghost predicate Recorded(o: Options, start: int, t: seq<Event>, sums: seq<Sums>) {
    && |sums| == |t| + 1 && sums[0] == NOTHING
    && forall i: nat {:trigger Entry(o, start, t, sums, i)} | i < |t| :: Entry(o, start, t, sums, i)
  }

  lemma RecordedNext(o: Options, start: int, t: seq<Event>, sums: seq<Sums>, e: Event)
    requires Recorded(o, start, t, sums) && Allowed(o, start, sums[|t|], e)
    ensures Recorded(o, start, t + [e], sums + [Adding(sums[|t|], e)])
  {
    var t', sums' := t + [e], sums + [Adding(sums[|t|], e)];
    forall i: nat | i < |t'| ensures Entry(o, start, t', sums', i) {
      if i < |t| { assert Entry(o, start, t, sums, i); }
    }
  }

  /** Such a trace is lawful, and its last sums are those of the whole of it. */
  lemma {:induction false} RecordedLawful(o: Options, start: int, t: seq<Event>, sums: seq<Sums>)
    requires Recorded(o, start, t, sums)
    ensures Lawful(o, start, t) && sums[|t|] == SumOf(t)
  {
    if t != [] {
      var m := |t| - 1;
      var before, so := t[..m], sums[..m + 1];
      forall i: nat | i < m ensures Entry(o, start, before, so, i) {
        assert Entry(o, start, t, sums, i);
      }
      RecordedLawful(o, start, before, so);
      assert Entry(o, start, t, sums, m);
    }
  }

  lemma LawfulOne(o: Options, start: int, t: seq<Event>, e: Event)
    requires Lawful(o, start, t) && Allowed(o, start, SumOf(t), e)
    ensures Lawful(o, start, t + [e]) && SumOf(t + [e]) == Adding(SumOf(t), e)
  {
    assert (t + [e])[..|t|] == t;
  }

  lemma {:induction false} LawfulPrefix(o: Options, start: int, t: seq<Event>, n: nat)
    requires Lawful(o, start, t) && n <= |t|
    ensures Lawful(o, start, t[..n])
  {
    if n == |t| {
      assert t[..n] == t;
    } else {
      LawfulPrefix(o, start, t[..|t| - 1], n);
      assert t[..|t| - 1][..n] == t[..n];
    }
  }

  lemma LawfulAt(o: Options, start: int, t: seq<Event>, n: nat)
    requires Lawful(o, start, t) && n < |t|
    ensures Allowed(o, start, SumOf(t[..n]), t[n])
  {
    LawfulPrefix(o, start, t, n + 1);
    assert t[..n + 1][..n] == t[..n];
  }

  /** A run has at most as many turns as it may. */
  lemma {:induction false} TurnsBounded(o: Options, start: int, t: seq<Event>)
    requires Lawful(o, start, t)
    ensures Turns(t) == 0 || Turns(t) <= o.maxTurns
  {
    if t != [] {
      TurnsBounded(o, start, t[..|t| - 1]);
      SumsAre(t[..|t| - 1]);
    }
  }

  /** Every turn of it began within all the other bounds at once. */
  lemma TurnsBeganWithin(o: Options, start: int, t: seq<Event>, n: nat)
    requires Lawful(o, start, t) && n < |t| && t[n].Began?
    ensures o.maxWallClock > 0 ==> t[n].at < start + o.maxWallClock + Credit(t[..n])
    ensures o.maxHostedSpend > 0.0 ==> Spent(t[..n]) < o.maxHostedSpend
    ensures o.maxStagnantErrors > 0 ==> Unreset(t[..n]) < o.maxStagnantErrors
    ensures SentBacks(t[..n]) == 0 || SentBacks(t[..n]) < o.maxVerifyRounds
    ensures Objections(t[..n]) == 0 || Objections(t[..n]) < o.maxReviewRounds
  {
    LawfulAt(o, start, t, n);
    SumsAre(t[..n]);
  }

  /** No turn, at any point of it, has let through more calls than it may, and none past the deadline. */
  lemma {:induction false} CallsBounded(o: Options, start: int, t: seq<Event>, n: nat)
    requires Lawful(o, start, t) && n <= |t|
    ensures TurnIssued(t[..n]) == 0 || TurnIssued(t[..n]) <= o.maxToolCallsPerTurn
    ensures n < |t| && t[n].Issued? && o.maxWallClock > 0 ==> t[n].at < start + o.maxWallClock + Credit(t[..n])
  {
    if n < |t| {
      LawfulAt(o, start, t, n);
      SumsAre(t[..n]);
    }
    if n > 0 {
      CallsBounded(o, start, t, n - 1);
      LawfulAt(o, start, t, n - 1);
      SumsAre(t[..n - 1]);
      assert t[..n][..n - 1] == t[..n - 1];
    }
  }

  /** The documentation has the deadline computed once. It moves out as a run goes on, by what it was credited: it is
      still where it was exactly when nothing was credited since. */
  lemma {:induction false} DeadlineMoves(o: Options, start: int, t: seq<Event>, n: nat)
    requires Lawful(o, start, t) && n <= |t| && o.maxWallClock > 0
    ensures var was, now := DeadlineOf(o, start, Credit(t[..n])).value, DeadlineOf(o, start, Credit(t)).value;
      start + o.maxWallClock <= was <= now && (was == now <==> forall i | n <= i < |t| :: !t[i].Credited?)
  {
    if n == |t| {
      assert t[..n] == t;
      if t != [] {
        var before := t[..|t| - 1];
        assert before[..n - 1] == before;
        DeadlineMoves(o, start, before, n - 1);
      }
    } else {
      var before := t[..|t| - 1];
      DeadlineMoves(o, start, before, n);
      assert before[..n] == t[..n];
      assert forall i | n <= i < |before| :: before[i] == t[i];
    }
  }

  /** A wait of five moves a deadline of ten to fifteen. */
  lemma DeadlineMoved(o: Options)
    requires o.maxTurns > 0 && o.maxWallClock == 10 && o.maxHostedSpend <= 0.0 && o.maxStagnantErrors <= 0
    ensures var t := [Began(0), Credited(5)];
      && Lawful(o, 0, t) && DeadlineOf(o, 0, Credit(t[..1])) == Some(10) && DeadlineOf(o, 0, Credit(t)) == Some(15)
  {
    LawfulOne(o, 0, [], Began(0));
    LawfulOne(o, 0, [] + [Began(0)], Credited(5));
    assert [] + [Began(0)] + [Credited(5)] == [Began(0), Credited(5)];
    assert [Began(0), Credited(5)][..1] == [Began(0)] && [Began(0)][..0] == [];
  }

  // ---- why a run stopped ----

  function Unreviewed(t: seq<Event>): seq<Event> {
    if t != [] && t[|t| - 1].Reviewed? then t[..|t| - 1] else t
  }

  predicate LastIs(t: seq<Event>, e: Event) {
    t != [] && t[|t| - 1] == e
  }

  /** The last reply ended its turn, and none of its calls was taken up. */
  predicate Untouched(x: Exchange) {
    x.ended && x.issued == 0 && x.ran == 0 && x.answered == 0
  }

  /** A complete run changed what it was asked to, its last verification passed over exactly the changes it ends with,
      and a reviewer, if there was something to review, read those changes last of all. */
  predicate Earned(o: Options, editTask: bool, t: seq<Event>, s: Sums) {
    && Untouched(s.exchange)
    && (s.changes == [] ==> !s.editTried && !editTask)
    && (o.verifier ==> LastIs(Unreviewed(t), Verified(s.changes, Pass)))
    && (o.reviewer && s.changes != [] ==>
          t != [] && t[|t| - 1].Reviewed? && t[|t| - 1].changes == s.changes
          && (t[|t| - 1].result.Objection? ==> s.reviewRounds >= o.maxReviewRounds))
  }

  /** The last thing that happened is a call let through that has the name and input of the call answered before it. */
  predicate RepeatSeen(t: seq<Event>, s: Sums) {
    && t != [] && t[|t| - 1].Issued? && s.lastCall.Some?
    && s.lastCall.value.name == t[|t| - 1].call.name && s.lastCall.value.input == t[|t| - 1].call.input
  }

  predicate MalformedSeen(t: seq<Event>) {
    t != [] && t[|t| - 1].Noted? && t[|t| - 1].sign.Malformed? && !t[|t| - 1].sign.call.valid
  }

  /** Each stop has its cause. Those that follow an escalation elsewhere happen on the top tier alone. */
  predicate Cause(o: Options, start: int, editTask: bool, t: seq<Event>, s: Sums, at: int, stop: Stop) {
    match stop
    case Complete => Earned(o, editTask, t, s)
    case MaxTurns => s.turns >= o.maxTurns
    case ToolCallFlood => s.turnCalls >= o.maxToolCallsPerTurn
    case MalformedTool => s.route == Deep && (MalformedSeen(t) || LastIs(t, Noted(Read(CallAsText))))
    case LoopDetected => s.route == Deep && RepeatSeen(t, s)
    case AskedInProse => s.route == Deep && LastIs(t, Noted(Read(Question)))
    case AnnouncedNotDone => s.route == Deep && LastIs(t, Noted(Read(Announced)))
    case ProviderFailed => s.route == Deep && (LastIs(t, Noted(StreamBroke)) || LastIs(t, Noted(CameEmpty)))
    case Stagnant =>
      || 0 < o.maxStagnantErrors <= s.unreset
      || (s.changes == [] && (s.editTried || editTask) && s.route == Deep)
    case Deadline => !Before(at, DeadlineOf(o, start, s.credit))
    case CostCeiling => 0.0 < o.maxHostedSpend <= s.spent
    case VerifyFailed => s.verifyRounds >= o.maxVerifyRounds && LastIs(t, Verified(s.changes, Failed))
    case TreeState => LastIs(t, Verified(s.changes, Unattributed))
    case Canceled => LastIs(t, Noted(WasCanceled))
  }

  /** The stops whose changes are verified once more, for whoever finds them. */
  predicate Bounded(stop: Stop) {
    !stop.Complete? && !stop.Canceled? && !stop.ProviderFailed?
  }

  // ---- calls left pending ----

  /** Completion is documented to mean that no call is pending. A complete run leaves calls of its last reply without an
      answer exactly when that reply ended its turn carrying calls: then it leaves them all, and none of them ran. That
      is what being earned comes to; that a run completes only so is for Drive to show. */
  lemma PendingAtCompletion(o: Options, start: int, editTask: bool, t: seq<Event>)
    requires Lawful(o, start, t) && Earned(o, editTask, t, SumOf(t))
    ensures var x := LastExchange(t);
      && (Pending(x) != [] <==> x.ended && x.asked != []) && Pending(x) == x.asked
      && exists n: nat | n < |t| :: t[n] == Replied(x.asked, true) && NoCallAfter(t, n)
  {
    SumsAre(t);
    var n := ReplyAt(t);
    assert t[n] == Replied(LastExchange(t).asked, true) && NoCallAfter(t, n);
  }

  ghost predicate NoCallAfter(t: seq<Event>, n: nat) {
    forall m | n < m < |t| :: !OfCall(t[m])
  }

  /** Where the last reply is, when none of its calls was taken up. */
  lemma {:induction false} ReplyAt(t: seq<Event>) returns (n: nat)
    requires Untouched(LastExchange(t))
    ensures n < |t| && t[n] == Replied(LastExchange(t).asked, true) && NoCallAfter(t, n)
  {
    var m := |t| - 1;
    if t[m].Replied? {
      n := m;
    } else {
      n := ReplyAt(t[..m]);
      assert t[..m][n] == t[n];
      forall k | n < k < |t| ensures !OfCall(t[k]) {
        if k < m { assert t[..m][k] == t[k]; }
      }
    }
  }

  /** It happens: with nothing configured to check it, a first reply that ends its turn and asks for a call completes
      the run, and the call never runs. */
  lemma CallLeftPending(o: Options, call: Call)
    requires o.maxTurns > 0 && o.maxWallClock <= 0 && o.maxHostedSpend <= 0.0 && o.maxStagnantErrors <= 0
    requires !o.verifier && !o.reviewer
    ensures var t := [Began(0), Routed(Fast), Replied([call], true)];
      && Lawful(o, 0, t) && Cause(o, 0, false, t, SumOf(t), 0, Complete) && Pending(LastExchange(t)) == [call]
  {
    var t := [Began(0), Routed(Fast), Replied([call], true)];
    LawfulOne(o, 0, [], Began(0));
    LawfulOne(o, 0, [] + [Began(0)], Routed(Fast));
    LawfulOne(o, 0, [] + [Began(0)] + [Routed(Fast)], Replied([call], true));
    assert t == [] + [Began(0)] + [Routed(Fast)] + [Replied([call], true)];
    SumsAre(t);
  }

  /** What a complete run was verified on was final: no tool ran after it, and nothing else was verified. */
  lemma NothingAfter(o: Options, start: int, editTask: bool, t: seq<Event>)
    requires Lawful(o, start, t) && Earned(o, editTask, t, SumOf(t)) && o.verifier
    ensures exists n: nat | n < |t| ::
      t[n] == Verified(Changes(t), Pass) && (forall m | n < m < |t| :: t[m].Reviewed?) && Changes(t[..n]) == Changes(t)
  {
    var n := LastVerified(o, start, editTask, t);
  }

  lemma LastVerified(o: Options, start: int, editTask: bool, t: seq<Event>) returns (n: nat)
    requires Lawful(o, start, t) && Earned(o, editTask, t, SumOf(t)) && o.verifier
    ensures n < |t| && t[n] == Verified(Changes(t), Pass) && Changes(t[..n]) == Changes(t)
    ensures forall m | n < m < |t| :: t[m].Reviewed?
  {
    SumsAre(t);
    n := |Unreviewed(t)| - 1;
    LawfulAt(o, start, t, n);
    SumsAre(t[..n]);
  }

  /** A run that ends complete with no change never reached for an edit tool, and was not asked for an edit. */
  lemma NothingAsked(o: Options, editTask: bool, t: seq<Event>)
    requires Earned(o, editTask, t, SumOf(t)) && SumOf(t).changes == []
    ensures !editTask && forall i | 0 <= i < |t| && t[i].Issued? :: t[i].call.name !in EDIT_TOOLS
  {
    forall i | 0 <= i < |t| && t[i].Issued? ensures t[i].call.name !in EDIT_TOOLS {
      if t[i].call.name in EDIT_TOOLS { TriedAt(t, i); }
    }
  }

  lemma {:induction false} TriedAt(t: seq<Event>, i: nat)
    requires i < |t| && t[i].Issued? && t[i].call.name in EDIT_TOOLS
    ensures SumOf(t).editTried
  {
    if i < |t| - 1 { TriedAt(t[..|t| - 1], i); }
  }

  // ---- the price of a turn ----

  datatype Pricing = Pricing(inputPerMillion: real, outputPerMillion: real, cacheReadPerMillion: real)

  datatype Usage = Usage(input: int, output: int, cacheRead: int)

  function Min(a: int, b: int): int {
    if a < b then a else b
  }

  function PriceTurn(pricing: map<string, Pricing>, model: string, u: Usage): real {
    if model !in pricing then 0.0
    else
      var p := pricing[model];
      var cached := if p.cacheReadPerMillion == 0.0 then 0 else Min(u.cacheRead, u.input);
      (u.input - cached) as real / 1000000.0 * p.inputPerMillion
      + cached as real / 1000000.0 * p.cacheReadPerMillion
      + u.output as real / 1000000.0 * p.outputPerMillion
  }

  /** A turn costs no more than the whole prompt at the input rate, and no less than the whole of it at the cache rate:
      every input token is billed once. */
  lemma PriceBetween(pricing: map<string, Pricing>, model: string, u: Usage)
    requires model in pricing && 0 <= u.cacheRead && 0 <= u.input
    requires var p := pricing[model]; 0.0 <= p.cacheReadPerMillion <= p.inputPerMillion
    ensures var p := pricing[model]; var out := u.output as real / 1000000.0 * p.outputPerMillion;
      && u.input as real / 1000000.0 * p.cacheReadPerMillion + out <= PriceTurn(pricing, model, u)
      && PriceTurn(pricing, model, u) <= u.input as real / 1000000.0 * p.inputPerMillion + out
  {
    var p := pricing[model];
    var cached := if p.cacheReadPerMillion == 0.0 then 0 else Min(u.cacheRead, u.input);
    Mixed((u.input - cached) as real / 1000000.0, cached as real / 1000000.0, p.inputPerMillion, p.cacheReadPerMillion);
  }

  lemma Mixed(x: real, y: real, high: real, low: real)
    requires 0.0 <= x && 0.0 <= y && low <= high
    ensures (x + y) * low <= x * high + y * low <= (x + y) * high
  {
    assert x * low <= x * high && y * low <= y * high;
  }
}
