/** One thread's append-only log: a bounded ring of recent events over a complete record on disk
(internal/eventlog/eventlog.go). The file is modelled as the sequence of its events. */
module EventLog {
  import opened Events

  /** Seq is an unsigned 64-bit count. */
  const SEQ_LIMIT: nat := 0x1_0000_0000_0000_0000

  const DEFAULT_RING: nat := 4096

  function Head(s: seq<Event>): nat {
    if s == [] then 0 else s[|s| - 1].seqNo
  }

  /** A log as this program writes it: each event is numbered above the head of those before it. */
  ghost predicate Increasing(s: seq<Event>) {
    s == [] || (Increasing(s[..|s| - 1]) && Head(s[..|s| - 1]) < s[|s| - 1].seqNo < SEQ_LIMIT)
  }

  /** Seq starts above 0 and rises from event to event. */
  ghost predicate Rising(s: seq<Event>) {
    && (forall i, j | 0 <= i < j < |s| :: s[i].seqNo < s[j].seqNo)
    && (forall i | 0 <= i < |s| :: 0 < s[i].seqNo < SEQ_LIMIT)
  }

  lemma {:induction false} IncreasingIs(s: seq<Event>)
    ensures Increasing(s) <==> Rising(s)
  {
    if s != [] {
      var m := |s| - 1;
      IncreasingIs(s[..m]);
      if Rising(s[..m]) && Head(s[..m]) < s[m].seqNo < SEQ_LIMIT {
        forall i, j | 0 <= i < j < |s| ensures s[i].seqNo < s[j].seqNo {
          assert s[i] == s[..m][i];
          if j < m { assert s[j] == s[..m][j]; }
        }
      }
      if Rising(s) {
        assert forall i | 0 <= i < m :: s[..m][i] == s[i];
        assert m > 0 ==> Head(s[..m]) == s[m - 1].seqNo;
      }
    }
  }

  /** The events with Seq > from, in order. */
  function After(s: seq<Event>, from: nat): seq<Event> {
    if s == [] then []
    else
      var before, last := After(s[..|s| - 1], from), s[|s| - 1];
      if last.seqNo > from then before + [last] else before
  }

  function LastN(s: seq<Event>, n: nat): seq<Event> {
    if |s| <= n then s else s[|s| - n..]
  }

  lemma LastNPush(s: seq<Event>, n: nat, ev: Event)
    requires n > 0
    ensures LastN(s + [ev], n) == LastN(LastN(s, n) + [ev], n)
  {
  }

  lemma AfterAppend(s: seq<Event>, ev: Event, from: nat)
    ensures After(s + [ev], from) == After(s, from) + if ev.seqNo > from then [ev] else []
  {
    assert (s + [ev])[..|s|] == s;
  }

  lemma {:induction false} AfterConcat(s: seq<Event>, t: seq<Event>, from: nat)
    ensures After(s + t, from) == After(s, from) + After(t, from)
  {
    if t == [] {
      assert s + t == s;
    } else {
      var before, last := t[..|t| - 1], t[|t| - 1];
      AfterConcat(s, before, from);
      ConcatNext(s, before, last, from);
      assert t == before + [last];
    }
  }

  lemma ConcatNext(s: seq<Event>, before: seq<Event>, last: Event, from: nat)
    requires After(s + before, from) == After(s, from) + After(before, from)
    ensures After(s + (before + [last]), from) == After(s, from) + After(before + [last], from)
  {
    AfterAppend(s + before, last, from);
    AfterAppend(before, last, from);
    Grouped(s, before, [last]);
    Grouped(After(s, from), After(before, from), if last.seqNo > from then [last] else []);
  }

  lemma Grouped(a: seq<Event>, b: seq<Event>, c: seq<Event>)
    ensures a + b + c == a + (b + c)
  {
  }

  lemma {:induction false} AfterNone(s: seq<Event>, from: nat)
    requires forall i | 0 <= i < |s| :: s[i].seqNo <= from
    ensures After(s, from) == []
  {
    if s != [] { AfterNone(s[..|s| - 1], from); }
  }

  /** Nothing newer than from has left the ring when the oldest event in it is at most from + 1. */
  lemma AfterInMemory(disk: seq<Event>, n: nat, from: nat)
    requires Increasing(disk) && n > 0 && disk != [] && LastN(disk, n)[0].seqNo <= from + 1
    ensures After(LastN(disk, n), from) == After(disk, from)
  {
    if |disk| > n {
      IncreasingIs(disk);
      var gone := disk[..|disk| - n];
      AfterNone(gone, from);
      assert disk == gone + LastN(disk, n);
      AfterConcat(gone, LastN(disk, n), from);
    }
  }

  /** What can go wrong in an append before the event is on disk. */
  datatype Fault = NoFault | EncodeFails | WriteFails | FlushFails

  datatype Appended = Appended(seqNo: nat) | Closed | NotEncoded | NotWritten | NotFlushed

  /** jammed says that a write or a flush has failed: the buffered writer keeps its error and takes nothing more. */
  function Outcome(closed: bool, jammed: bool, fault: Fault, head: nat): Appended {
    if closed then Closed
    else if fault == EncodeFails then NotEncoded
    else if jammed || fault == WriteFails then NotWritten
    else if fault == FlushFails then NotFlushed
    else Appended(head + 1)
  }

  /** The event as it is stored: its place in the log, its thread, and the time if it carried none. */
  function Stamped(ev: Event, s: nat, threadID: string, now: int): Event {
    ev.(seqNo := s, threadID := threadID, at := if ev.at == 0 then now else ev.at)
  }

  lemma {:induction false} IncreasingPrefix(s: seq<Event>, i: nat)
    requires Increasing(s) && i < |s|
    ensures s[..i + 1] == s[..i] + [s[i]] && Head(s[..i]) < s[i].seqNo < SEQ_LIMIT
    decreases |s|
  {
    assert s[..i + 1] == s[..i] + [s[i]];
    if i == |s| - 1 {
      assert s[..|s|] == s;
    } else {
      IncreasingPrefix(s[..|s| - 1], i);
      assert s[..|s| - 1][..i + 1] == s[..i + 1] && s[..|s| - 1][..i] == s[..i];
    }
  }

  lemma IncreasingAppend(s: seq<Event>, ev: Event)
    requires Increasing(s) && Head(s) < ev.seqNo < SEQ_LIMIT
    ensures Increasing(s + [ev])
  {
    assert (s + [ev])[..|s|] == s;
  }

  class Log {
    var disk: seq<Event>
    const ring: array<Event>
    var start: nat
    var count: nat
    var seqNo: nat
    var closed: bool
    var jammed: bool
    const threadID: string

    ghost predicate Shaped()
      reads `start, `count
    {
      start < ring.Length && count <= ring.Length
    }

    ghost function Held(): seq<Event>
      requires Shaped()
      reads `start, `count, ring
    {
      Unrolled(ring[..], start, count)
    }

    /** The ring holds exactly the newest events of the disk record, oldest first, and Seq is the last of them; one that
        could not be flushed may have used up one more. */
    ghost predicate Valid()
      reads this, ring
    {
      Kept() && Numbered(seqNo)
    }

    ghost predicate Kept()
      reads `disk, `start, `count, ring
    {
      Shaped() && Increasing(disk) && Held() == LastN(disk, ring.Length)
    }

    ghost predicate Numbered(last: int)
      reads `disk, `jammed
    {
      last == Head(disk) || (jammed && last == Head(disk) + 1)
    }

    /** Open: the ring and the sequence are rebuilt from the file. */
    constructor (threadID: string, ringCap: int, file: seq<Event>, fill: Event)
      requires Increasing(file)
      ensures Valid() && disk == file && !closed && !jammed && seqNo == Head(file)
      ensures this.threadID == threadID && fresh(ring)
      ensures ring.Length == if ringCap <= 0 then DEFAULT_RING else ringCap
    {
      this.threadID := threadID;
      ring := new Event[if ringCap <= 0 then DEFAULT_RING else ringCap](_ => fill);
      start, count, seqNo, closed, jammed := 0, 0, 0, false, false;
      disk := [];
      new;
      assert Held() == [];
      ReplayAll(file);
    }

    /** replay. */
    method ReplayAll(file: seq<Event>)
      requires Valid() && disk == [] && Increasing(file)
      modifies `disk, `start, `count, `seqNo, ring
      ensures Valid() && disk == file
    {
      for i := 0 to |file|
        invariant Valid() && disk == file[..i]
      {
        IncreasingPrefix(file, i);
        Replay(file[i]);
      }
      assert file[..|file|] == file;
    }

    /** One event of the file read back. */
    method Replay(ev: Event)
      requires Kept() && Head(disk) < ev.seqNo < SEQ_LIMIT
      modifies `disk, `start, `count, `seqNo, ring
      ensures Valid() && disk == old(disk) + [ev]
    {
      seqNo := ev.seqNo;
      Land(ev);
    }

    /** One more event, on disk and in the ring. */
    method Record(ev: Event)
      requires Kept() && Increasing(disk + [ev]) && seqNo == ev.seqNo
      modifies this`disk, this`start, this`count, ring
      ensures Valid() && disk == old(disk) + [ev]
    {
      LastNPush(disk, ring.Length, ev);
      disk := disk + [ev];
      Push(ev);
    }

    /** An event written and flushed. */
    method Land(ev: Event)
      requires Kept() && Head(disk) < ev.seqNo == seqNo < SEQ_LIMIT
      modifies `disk, `start, `count, ring
      ensures Valid() && disk == old(disk) + [ev]
    {
      IncreasingAppend(disk, ev);
      Record(ev);
    }

    /** push: the newest event displaces the oldest once the ring is full. */
    method Push(ev: Event)
      requires Shaped()
      modifies this`start, this`count, ring
      ensures Shaped() && Held() == LastN(old(Held()) + [ev], ring.Length)
    {
      PushUnrolled(ring[..], start, count, ev);
      var idx := Wrapped(start, count, ring.Length);
      SetSlot(idx, ev);
      if count == ring.Length {
        start := Wrapped(start, 1, ring.Length);
      } else {
        count := count + 1;
      }
    }

    method SetSlot(idx: nat, ev: Event)
      requires idx < ring.Length
      modifies ring
      ensures ring[..] == old(ring[..])[idx := ev]
    {
      ring[idx] := ev;
    }

    /** Append assigns the next Seq and persists the event, or leaves the record as it was. A failed flush alone uses up
        its Seq; after it, or a failed write, nothing is appended until the log is opened again. */
    method Append(ev: Event, now: int, fault: Fault) returns (r: Appended)
      requires Valid() && seqNo + 1 < SEQ_LIMIT
      modifies this`disk, this`seqNo, this`start, this`count, this`jammed, ring
      ensures Valid()
      ensures r == Outcome(old(closed), old(jammed), fault, old(seqNo))
      ensures disk == if r.Appended? then old(disk) + [Stamped(ev, r.seqNo, threadID, now)] else old(disk)
      ensures seqNo == if r.Appended? || r.NotFlushed? then old(seqNo) + 1 else old(seqNo)
      ensures jammed <==> old(jammed) || r.NotWritten? || r.NotFlushed?
    {
      if closed {
        return Closed;
      }
      r := Number(ev, now, fault);
    }

    /** The next Seq, taken back unless the event is written. */
    method Number(ev: Event, now: int, fault: Fault) returns (r: Appended)
      requires Valid() && seqNo + 1 < SEQ_LIMIT
      modifies `disk, `seqNo, `start, `count, `jammed, ring
      ensures Valid() && r == Outcome(false, old(jammed), fault, old(seqNo))
      ensures disk == if r.Appended? then old(disk) + [Stamped(ev, r.seqNo, threadID, now)] else old(disk)
      ensures seqNo == if r.Appended? || r.NotFlushed? then old(seqNo) + 1 else old(seqNo)
      ensures jammed <==> old(jammed) || r.NotWritten? || r.NotFlushed?
    {
      seqNo := seqNo + 1;
      var stamped := Stamped(ev, seqNo, threadID, now);
      if fault == EncodeFails {
        seqNo := seqNo - 1;
        return NotEncoded;
      }
      if jammed || fault == WriteFails {
        seqNo, jammed := seqNo - 1, true;
        return NotWritten;
      }
      if fault == FlushFails {
        jammed := true;
        return NotFlushed;
      }
      Land(stamped);
      r := Appended(seqNo);
    }

    /** Since answers from the ring when it can and from disk otherwise; which of the two does not show. */
    method Since(from: nat) returns (out: seq<Event>)
      requires Valid() && from < SEQ_LIMIT
      ensures out == After(disk, from)
    {
      var oldest := 0;
      if count > 0 {
        oldest := ring[start].seqNo;
      }
      var inMemory := count > 0 && (from + 1) % SEQ_LIMIT >= oldest;
      if inMemory {
        assert Held()[0] == ring[start];
        AfterInMemory(disk, ring.Length, from);
        out := FromRing(from);
        return;
      }
      out := ReadSince(from);
    }

    method FromRing(from: nat) returns (out: seq<Event>)
      requires Shaped()
      ensures out == After(Held(), from)
    {
      ghost var held := Held();
      out := [];
      for i := 0 to count
        invariant out == After(held[..i], from)
      {
        assert held[..i + 1] == held[..i] + [held[i]];
        AfterAppend(held[..i], held[i], from);
        var ev := ring[Wrapped(start, i, ring.Length)];
        assert ev == held[i];
        if ev.seqNo > from {
          out := out + [ev];
        }
      }
      assert held[..count] == held;
    }

    method ReadSince(from: nat) returns (out: seq<Event>)
      ensures out == After(disk, from)
    {
      out := [];
      for i := 0 to |disk|
        invariant out == After(disk[..i], from)
      {
        assert disk[..i + 1] == disk[..i] + [disk[i]];
        AfterAppend(disk[..i], disk[i], from);
        if disk[i].seqNo > from {
          out := out + [disk[i]];
        }
      }
      assert disk[..|disk|] == disk;
    }

    method Close()
      requires Valid()
      modifies this`closed
      ensures Valid() && closed
    {
      closed := true;
    }
  }

  /** The ring slot i places after start. */
  function Slot(start: nat, i: nat, n: nat): nat
    requires start < n && i <= n
  {
    if start + i < n then start + i else start + i - n
  }

  /** It is reckoned by a remainder. */
  function Wrapped(start: nat, i: nat, n: nat): (r: nat)
    requires start < n && i <= n
    ensures r == Slot(start, i, n)
  {
    SlotIsMod(start, i, n);
    (start + i) % n
  }

  lemma SlotIsMod(start: nat, i: nat, n: nat)
    requires start < n && i <= n
    ensures (start + i) % n == Slot(start, i, n)
  {
    if start + i < n { ModOf(start + i, n, 0, start + i); } else { ModOf(start + i, n, 1, start + i - n); }
  }

  lemma ModOf(x: nat, n: nat, q: nat, r: nat)
    requires n > 0 && r < n && x == q * n + r
    ensures x % n == r
  {
    var q', r' := x / n, x % n;
    assert (q - q') * n == r' - r;
    if q' < q { MulAtLeast(q - q', n); }
    if q < q' { MulAtLeast(q' - q, n); }
  }

  lemma MulAtLeast(k: nat, n: nat)
    requires k >= 1
    ensures k * n >= n
  {
  }

  /** What a ring buffer holds, oldest first. */
  ghost function Unrolled(buf: seq<Event>, start: nat, count: nat): seq<Event>
    requires start < |buf| && count <= |buf|
  {
    seq(count, i requires 0 <= i < count => buf[Slot(start, i, |buf|)])
  }

  lemma PushUnrolled(buf: seq<Event>, start: nat, count: nat, ev: Event)
    requires start < |buf| && count <= |buf|
    ensures var n := |buf|;
            Unrolled(buf[Slot(start, count, n) := ev], if count == n then Slot(start, 1, n) else start,
                     if count == n then n else count + 1)
            == LastN(Unrolled(buf, start, count) + [ev], n)
  {
    if count == |buf| { PushFull(buf, start, ev); } else { PushRoom(buf, start, count, ev); }
  }

  lemma PushRoom(buf: seq<Event>, start: nat, count: nat, ev: Event)
    requires start < |buf| && count < |buf|
    ensures Unrolled(buf[Slot(start, count, |buf|) := ev], start, count + 1) == Unrolled(buf, start, count) + [ev]
  {
  }

  lemma PushFull(buf: seq<Event>, start: nat, ev: Event)
    requires start < |buf|
    ensures var n := |buf|;
      Unrolled(buf[Slot(start, n, n) := ev], Slot(start, 1, n), n) == Unrolled(buf, start, n)[1..] + [ev]
  {
  }
}
