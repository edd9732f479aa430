/** Line ending styles across a replacement (attempt in internal/edit/replace.go). */
module LineEndings {
  import opened Text
  import opened Weave

  /** How many bytes become the first one once "\r\n" is replaced by "\n". */
  function Width(s: Bytes): nat {
    if |s| >= 2 && s[0] == CR && s[1] == LF then 2 else 1
  }

  /** strings.ReplaceAll of "\r\n" by "\n". */
  function ToLF(s: Bytes): Bytes {
    if s == [] then [] else [s[Width(s) - 1]] + ToLF(s[Width(s)..])
  }

  /** strings.ReplaceAll of "\n" by "\r\n". */
  function ToCRLF(s: Bytes): Bytes {
    if s == [] then []
    else if s[0] == LF then [CR, LF] + ToCRLF(s[1..])
    else [s[0]] + ToCRLF(s[1..])
  }

  predicate HasCRLF(s: Bytes) {
    exists i | 0 <= i < |s| - 1 :: s[i] == CR && s[i + 1] == LF
  }

  /** Every newline follows a carriage return. */
  ghost predicate Uniform(s: Bytes) {
    forall i | 0 <= i < |s| && s[i] == LF :: i > 0 && s[i - 1] == CR
  }

  function Normalized(source: Bytes): Bytes {
    if HasCRLF(source) then ToLF(source) else source
  }

  function Restored(source: Bytes, edited: Bytes): Bytes {
    if HasCRLF(source) then ToCRLF(edited) else edited
  }

  lemma {:induction false} RoundTrip(s: Bytes)
    ensures ToCRLF(ToLF(s)) == s <==> Uniform(s)
  {
    if s == [] {
    } else if |s| >= 2 && s[0] == CR && s[1] == LF {
      RoundTrip(s[2..]);
      assert ([LF] + ToLF(s[2..]))[1..] == ToLF(s[2..]);
      assert s == [CR, LF] + s[2..];
      UniformTail(s, 2);
    } else {
      RoundTrip(s[1..]);
      assert ([s[0]] + ToLF(s[1..]))[1..] == ToLF(s[1..]);
      assert s == [s[0]] + s[1..];
      if s[0] == LF {
        assert ToCRLF(ToLF(s))[0] == CR;
      } else {
        UniformTail(s, 1);
      }
    }
  }

  lemma UniformTail(s: Bytes, k: nat)
    requires k == 1 || (k == 2 && |s| >= 2 && s[0] == CR && s[1] == LF)
    requires k == 1 ==> s != [] && s[0] != LF && !(|s| >= 2 && s[0] == CR && s[1] == LF)
    ensures Uniform(s) <==> Uniform(s[k..])
  {
    var t := s[k..];
    if Uniform(s) {
      forall i | 0 <= i < |t| && t[i] == LF ensures i > 0 && t[i - 1] == CR { assert s[i + k] == LF; }
    }
    if Uniform(t) {
      forall i | 0 <= i < |s| && s[i] == LF ensures i > 0 && s[i - 1] == CR {
        if i >= k { assert t[i - k] == LF; }
      }
    }
  }

  /** Of a text edited nowhere the line endings are kept exactly when it has no CRLF or nothing else. */
  lemma UneditedPreserved(source: Bytes)
    ensures Restored(source, Normalized(source)) == source <==> !HasCRLF(source) || Uniform(source)
  {
    if HasCRLF(source) { RoundTrip(source); }
  }

  lemma {:induction false} CRLFConcat(a: Bytes, b: Bytes)
    ensures ToCRLF(a + b) == ToCRLF(a) + ToCRLF(b)
  {
    if a == [] {
      assert a + b == b;
    } else {
      assert (a + b)[1..] == a[1..] + b;
      CRLFConcat(a[1..], b);
    }
  }

  // ---- an edit of the normalized text as an edit of the source ----

  /** Where in the text the k-th byte of its normalized form begins. */
  function SourceAt(s: Bytes, k: nat): (at: nat)
    requires k <= |ToLF(s)|
    ensures at <= |s| && (k == |ToLF(s)| ==> at == |s|)
  {
    if k == 0 then 0 else Width(s) + SourceAt(s[Width(s)..], k - 1)
  }

  lemma OneLF(b: Byte, rest: Bytes)
    requires !(b == CR && rest != [] && rest[0] == LF)
    ensures ToLF([b] + rest) == [b] + ToLF(rest)
  {
    assert ([b] + rest)[1..] == rest;
  }

  lemma PairLF(rest: Bytes)
    ensures ToLF([CR, LF] + rest) == [LF] + ToLF(rest)
  {
    assert ([CR, LF] + rest)[2..] == rest;
  }

  /** The first normalized byte, and the rest. */
  lemma FirstLF(s: Bytes)
    requires s != []
    ensures Width(s) <= |s| && ToLF(s) == [s[Width(s) - 1]] + ToLF(s[Width(s)..])
  {
  }

  lemma FrontLF(s: Bytes, n: nat)
    requires s != [] && Width(s) + n <= |s|
    ensures ToLF(s[..Width(s) + n]) == [s[Width(s) - 1]] + ToLF(s[Width(s)..][..n])
  {
    var rest := s[Width(s)..][..n];
    if Width(s) == 2 {
      assert s[..2 + n] == [CR, LF] + rest;
      PairLF(rest);
    } else {
      assert s[..1 + n] == [s[0]] + rest;
      OneLF(s[0], rest);
    }
  }

  lemma {:induction false} TakeLF(s: Bytes, j: nat)
    requires j <= |ToLF(s)|
    ensures ToLF(s[..SourceAt(s, j)]) == ToLF(s)[..j]
    decreases |s|
  {
    if j > 0 {
      var rest := s[Width(s)..];
      FirstLF(s);
      TakeLF(rest, j - 1);
      FrontLF(s, SourceAt(rest, j - 1));
      FrontTake(s[Width(s) - 1], ToLF(rest), j);
    }
  }

  lemma FrontTake<T>(x: T, rest: seq<T>, j: nat)
    requires 0 < j <= |rest| + 1
    ensures ([x] + rest)[..j] == [x] + rest[..j - 1]
  {
  }

  /** No CRLF lies across the place where b follows a. */
  predicate Apart(a: Bytes, b: Bytes) {
    !(a != [] && b != [] && a[|a| - 1] == CR && b[0] == LF)
  }

  lemma ConcatOne(c: Byte, rest: Bytes, b: Bytes, all: Bytes)
    requires all == rest + b && Apart([c], all) && ToLF(all) == ToLF(rest) + ToLF(b)
    ensures ToLF([c] + all) == ToLF([c] + rest) + ToLF(b)
  {
    if rest != [] { assert all[0] == rest[0]; }
    OneLF(c, all);
    OneLF(c, rest);
    Fronts([c], ToLF(rest), ToLF(b));
  }

  lemma ConcatPair(rest: Bytes, b: Bytes, all: Bytes)
    requires ToLF(all) == ToLF(rest) + ToLF(b)
    ensures ToLF([CR, LF] + all) == ToLF([CR, LF] + rest) + ToLF(b)
  {
    PairLF(all);
    PairLF(rest);
    Fronts([LF], ToLF(rest), ToLF(b));
  }

  lemma Fronts<T>(front: seq<T>, rest: seq<T>, b: seq<T>)
    ensures front + rest + b == front + (rest + b)
  {
  }

  lemma {:induction false} ConcatLF(a: Bytes, b: Bytes)
    requires Apart(a, b)
    ensures ToLF(a + b) == ToLF(a) + ToLF(b)
    decreases |a|
  {
    if a == [] {
      assert a + b == b;
    } else {
      ConcatLF(a[Width(a)..], b);
      ConcatFront(a, a[..Width(a)], a[Width(a)..], b);
    }
  }

  lemma ConcatFront(a: Bytes, front: Bytes, rest: Bytes, b: Bytes)
    requires a != [] && front == a[..Width(a)] && rest == a[Width(a)..] && Apart(a, b)
    requires ToLF(rest + b) == ToLF(rest) + ToLF(b)
    ensures ToLF(a + b) == ToLF(a) + ToLF(b)
  {
    assert a == front + rest;
    Fronts(front, rest, b);
    if Width(a) == 2 {
      assert front == [CR, LF];
      ConcatPair(rest, b, rest + b);
    } else {
      assert front == [a[0]];
      ConcatOne(a[0], rest, b, rest + b);
    }
  }

  lemma {:induction false} AtApart(s: Bytes, k: nat)
    requires k <= |ToLF(s)|
    ensures Apart(s[..SourceAt(s, k)], s[SourceAt(s, k)..])
    decreases |s|
  {
    if k > 0 { AtApart(s[Width(s)..], k - 1); }
  }

  lemma {:induction false} AtMonotone(s: Bytes, i: nat, j: nat)
    requires i <= j <= |ToLF(s)|
    ensures SourceAt(s, i) <= SourceAt(s, j)
    decreases |s|
  {
    if i > 0 {
      FirstLF(s);
      AtMonotone(s[Width(s)..], i - 1, j - 1);
    }
  }

  /** A stretch of the normalized text is the normalized form of the stretch it comes from. */
  lemma StretchLF(s: Bytes, i: nat, j: nat)
    requires i <= j <= |ToLF(s)|
    ensures SourceAt(s, i) <= SourceAt(s, j) && ToLF(s[SourceAt(s, i)..SourceAt(s, j)]) == ToLF(s)[i..j]
  {
    AtMonotone(s, i, j);
    AtApart(s, i);
    TakeLF(s, i);
    TakeLF(s, j);
    StretchBetween(s, SourceAt(s, i), SourceAt(s, j));
    Between(ToLF(s), i, j, ToLF(s[SourceAt(s, i)..SourceAt(s, j)]));
  }

  lemma StretchBetween(s: Bytes, x: nat, y: nat)
    requires x <= y <= |s| && Apart(s[..x], s[x..])
    ensures ToLF(s[..y]) == ToLF(s[..x]) + ToLF(s[x..y])
  {
    assert s[..y] == s[..x] + s[x..y];
    ConcatLF(s[..x], s[x..y]);
  }

  lemma Between<T>(s: seq<T>, i: nat, j: nat, mid: seq<T>)
    requires i <= j <= |s| && s[..j] == s[..i] + mid
    ensures mid == s[i..j]
  {
    assert mid == (s[..i] + mid)[i..] == s[..j][i..];
  }

  /** The same edits, made to the source itself. */
  function OwnEdits(source: Bytes, edits: seq<Edit<Byte>>): seq<Edit<Byte>>
    requires forall i | 0 <= i < |edits| :: edits[i].start <= edits[i].end <= |ToLF(source)|
  {
    seq(|edits|, i requires 0 <= i < |edits| =>
      Edit(SourceAt(source, edits[i].start), SourceAt(source, edits[i].end), ToCRLF(edits[i].text)))
  }

  lemma OwnOrdered(source: Bytes, edits: seq<Edit<Byte>>)
    requires Ordered(edits, |ToLF(source)|)
    ensures Ordered(OwnEdits(source, edits), |source|)
  {
    var own := OwnEdits(source, edits);
    forall i | 0 <= i < |own| ensures own[i].start <= own[i].end { StretchLF(source, edits[i].start, edits[i].end); }
    forall i, j | 0 <= i < j < |own| ensures own[i].end <= own[j].start {
      StretchLF(source, edits[i].end, edits[j].start);
    }
  }

  ghost predicate AllUniform(gaps: seq<Bytes>) {
    forall k | 0 <= k < |gaps| :: Uniform(gaps[k])
  }

  lemma {:induction false} NeverShorter(s: Bytes)
    ensures |ToCRLF(ToLF(s))| >= |s| && (|ToCRLF(ToLF(s))| == |s| <==> Uniform(s))
  {
    if s == [] {
    } else if |s| >= 2 && s[0] == CR && s[1] == LF {
      NeverShorter(s[2..]);
      assert ([LF] + ToLF(s[2..]))[1..] == ToLF(s[2..]);
      UniformTail(s, 2);
    } else {
      NeverShorter(s[1..]);
      assert ([s[0]] + ToLF(s[1..]))[1..] == ToLF(s[1..]);
      if s[0] != LF { UniformTail(s, 1); }
    }
  }

  /** One stretch, restored. */
  lemma StretchRestored(source: Bytes, i: nat, j: nat)
    requires i <= j <= |ToLF(source)|
    ensures SourceAt(source, i) <= SourceAt(source, j)
    ensures var now, was := ToCRLF(ToLF(source)[i..j]), source[SourceAt(source, i)..SourceAt(source, j)];
      |now| >= |was| && (now == was <==> Uniform(was))
  {
    StretchLF(source, i, j);
    NeverShorter(source[SourceAt(source, i)..SourceAt(source, j)]);
    RoundTrip(source[SourceAt(source, i)..SourceAt(source, j)]);
  }

  lemma Pieces(a: Bytes, b: Bytes, text: Bytes, c: Bytes, d: Bytes)
    requires |a| >= |b| && |c| >= |d|
    ensures a + text + c == b + text + d <==> a == b && c == d
  {
    var x, y := a + text + c, b + text + d;
    if x == y {
      assert |x| == |y| && |a| == |b|;
      assert a == x[..|a|] == y[..|a|] == b;
      assert c == x[|a| + |text|..] == y[|a| + |text|..] == d;
    }
  }

  /** Restored from its at-th byte on, the edited text is the source edited from there on exactly when the stretches
      that stay are uniform; it is never shorter. */
  ghost predicate Follows(source: Bytes, edits: seq<Edit<Byte>>, at: nat) {
    && Ordered(edits, |ToLF(source)|) && at <= |ToLF(source)| && (edits != [] ==> at <= edits[0].start)
    && var own, from := OwnEdits(source, edits), SourceAt(source, at);
    && Ordered(own, |source|) && (own != [] ==> from <= own[0].start)
    && var now, was := ToCRLF(Woven(ToLF(source), edits, at)), Woven(source, own, from);
    && |now| >= |was| && (now == was <==> AllUniform(Gaps(source, own, from)))
  }

  lemma FollowsEnd(source: Bytes, at: nat)
    requires at <= |ToLF(source)|
    ensures Follows(source, [], at)
  {
    var norm, from := ToLF(source), SourceAt(source, at);
    StretchRestored(source, at, |norm|);
    assert norm[at..] == norm[at..|norm|] && source[from..] == source[from..|source|];
    var gaps := Gaps(source, OwnEdits(source, []), from);
    assert gaps == [source[from..]];
    assert AllUniform(gaps) <==> Uniform(gaps[0]);
  }

  lemma OwnNext(source: Bytes, edits: seq<Edit<Byte>>)
    requires edits != [] && Ordered(edits, |ToLF(source)|)
    ensures Ordered(edits[1..], |ToLF(source)|)
    ensures var own := OwnEdits(source, edits);
      && Ordered(own, |source|) && own[1..] == OwnEdits(source, edits[1..])
      && own[0] == Edit(SourceAt(source, edits[0].start), SourceAt(source, edits[0].end), ToCRLF(edits[0].text))
  {
    OrderedRest(edits, |ToLF(source)|);
    OwnOrdered(source, edits);
    OwnRest(source, edits);
  }

  lemma OrderedRest(edits: seq<Edit<Byte>>, size: nat)
    requires edits != [] && Ordered(edits, size)
    ensures Ordered(edits[1..], size)
  {
  }

  lemma OwnRest(source: Bytes, edits: seq<Edit<Byte>>)
    requires edits != [] && forall i | 0 <= i < |edits| :: edits[i].start <= edits[i].end <= |ToLF(source)|
    ensures OwnEdits(source, edits)[1..] == OwnEdits(source, edits[1..])
  {
    var own, rest := OwnEdits(source, edits)[1..], OwnEdits(source, edits[1..]);
    assert |own| == |rest|;
    assert forall i | 0 <= i < |own| :: own[i] == rest[i];
  }

  lemma CRLFPieces(gap: Bytes, text: Bytes, after: Bytes)
    ensures ToCRLF(gap + text + after) == ToCRLF(gap) + ToCRLF(text) + ToCRLF(after)
  {
    CRLFConcat(gap + text, after);
    CRLFConcat(gap, text);
  }

  lemma FollowsNext(source: Bytes, edits: seq<Edit<Byte>>, at: nat)
    requires edits != [] && Ordered(edits, |ToLF(source)|) && at <= edits[0].start
             && Follows(source, edits[1..], edits[0].end)
    ensures Follows(source, edits, at)
  {
    var norm, own, from := ToLF(source), OwnEdits(source, edits), SourceAt(source, at);
    var e := edits[0];
    OwnNext(source, edits);
    StretchRestored(source, at, e.start);
    var after, ownAfter := Woven(norm, edits[1..], e.end), Woven(source, own[1..], own[0].end);
    var gap, ownGap := norm[at..e.start], source[from..own[0].start];
    CRLFPieces(gap, e.text, after);
    Pieces(ToCRLF(gap), ownGap, ToCRLF(e.text), ToCRLF(after), ownAfter);
    GapsNext(source, own, from);
    UniformFront(ownGap, Gaps(source, own[1..], own[0].end));
  }

  lemma {:induction false} EndingsFrom(source: Bytes, edits: seq<Edit<Byte>>, at: nat)
    requires Ordered(edits, |ToLF(source)|) && at <= |ToLF(source)| && (edits != [] ==> at <= edits[0].start)
    ensures Follows(source, edits, at)
    decreases |edits|
  {
    if edits == [] {
      FollowsEnd(source, at);
    } else {
      OwnNext(source, edits);
      EndingsFrom(source, edits[1..], edits[0].end);
      FollowsNext(source, edits, at);
    }
  }

  lemma UniformFront(gap: Bytes, gaps: seq<Bytes>)
    ensures AllUniform([gap] + gaps) <==> Uniform(gap) && AllUniform(gaps)
  {
    if AllUniform([gap] + gaps) {
      assert ([gap] + gaps)[0] == gap;
      forall k | 0 <= k < |gaps| ensures Uniform(gaps[k]) { assert ([gap] + gaps)[k + 1] == gaps[k]; }
    }
  }

  /** The source's line endings are documented to be preserved exactly. Editing the normalized text and restoring the
      endings is making the same edits to the source's own bytes exactly when no stretch outside the edits holds a
      newline without its carriage return, or the source has no CRLF at all. */
  lemma EndingsPreserved(source: Bytes, edits: seq<Edit<Byte>>)
    requires HasCRLF(source) && Ordered(edits, |Normalized(source)|)
    ensures var own := OwnEdits(source, edits);
      && Ordered(own, |source|)
      && (Restored(source, Woven(Normalized(source), edits, 0)) == Woven(source, own, 0)
          <==> AllUniform(Gaps(source, own, 0)))
  {
    EndingsFrom(source, edits, 0);
  }

  // ---- one mixed source, edited in two places ----

  const MIXED: Bytes := [97, CR, LF, 98, LF, 99]

  lemma OneCRLF(b: Byte, rest: Bytes)
    ensures ToCRLF([b] + rest) == (if b == LF then [CR, LF] else [b]) + ToCRLF(rest)
  {
    assert ([b] + rest)[1..] == rest;
  }

  lemma WovenOnce(s: Bytes, e: Edit<Byte>)
    requires e.start <= e.end <= |s|
    ensures Woven(s, [e], 0) == Spliced(s, e)
  {
    assert [e][1..] == [];
  }

  lemma MixedNormalized()
    ensures HasCRLF(MIXED) && Normalized(MIXED) == [97, LF, 98, LF, 99]
  {
    var rest: Bytes := [98, LF, 99];
    assert MIXED[1] == CR && MIXED[2] == LF && MIXED == [97] + ([CR, LF] + rest);
    OneLF(97, [CR, LF] + rest);
    PairLF(rest);
    PlainLF(rest);
  }

  lemma {:induction false} PlainLF(s: Bytes)
    requires !HasCRLF(s)
    ensures ToLF(s) == s
  {
    if s != [] {
      assert !HasCRLF(s[1..]) by { TailPlain(s); }
      PlainLF(s[1..]);
      assert !(|s| >= 2 && s[0] == CR && s[1] == LF);
    }
  }

  lemma TailPlain(s: Bytes)
    requires s != [] && !HasCRLF(s)
    ensures !HasCRLF(s[1..])
  {
    forall i | 0 <= i < |s| - 2 ensures !(s[1..][i] == CR && s[1..][i + 1] == LF) {
      assert !(s[i + 1] == CR && s[i + 2] == LF);
    }
  }

  /** "a\r\nb\nc" with its a replaced: the lone newline, away from the edit, gains a carriage return. */
  lemma MixedEndingsRewritten()
    ensures |Normalized(MIXED)| == 5
    ensures Restored(MIXED, Woven(Normalized(MIXED), [Edit(0, 1, [120])], 0)) == [120, CR, LF, 98, CR, LF, 99]
  {
    MixedNormalized();
    WovenOnce([97, LF, 98, LF, 99], Edit(0, 1, [120]));
    assert Spliced([97, LF, 98, LF, 99], Edit(0, 1, [120])) == [120, LF] + [98, LF, 99];
    CRLFConcat([120, LF], [98, LF, 99]);
    LineCRLF(120, []);
    LineCRLF(98, [99]);
    OneCRLF(99, []);
  }

  lemma LineCRLF(b: Byte, rest: Bytes)
    requires b != LF
    ensures ToCRLF([b, LF] + rest) == [b, CR, LF] + ToCRLF(rest)
  {
    assert [b, LF] + rest == [b] + ([LF] + rest);
    OneCRLF(b, [LF] + rest);
    OneCRLF(LF, rest);
  }

  /** With the lone newline inside the edit every byte outside it stays. */
  lemma MixedEndingsKept()
    ensures |Normalized(MIXED)| == 5
    ensures Restored(MIXED, Woven(Normalized(MIXED), [Edit(2, 5, [120])], 0)) == [97, CR, LF, 120]
  {
    MixedNormalized();
    WovenOnce([97, LF, 98, LF, 99], Edit(2, 5, [120]));
    assert Spliced([97, LF, 98, LF, 99], Edit(2, 5, [120])) == [97, LF] + [120];
    LineCRLF(97, [120]);
    OneCRLF(120, []);
  }

  function AllToCRLF(parts: seq<Bytes>): seq<Bytes> {
    seq(|parts|, i requires 0 <= i < |parts| => ToCRLF(parts[i]))
  }

  lemma {:induction false} CRLFInterleaved(gaps: seq<Bytes>, fills: seq<Bytes>)
    requires |gaps| == |fills| + 1
    ensures ToCRLF(Interleaved(gaps, fills)) == Interleaved(AllToCRLF(gaps), AllToCRLF(fills))
    decreases |fills|
  {
    if fills != [] {
      var rest := Interleaved(gaps[1..], fills[1..]);
      CRLFInterleaved(gaps[1..], fills[1..]);
      CRLFConcat(gaps[0] + fills[0], rest);
      CRLFConcat(gaps[0], fills[0]);
      assert AllToCRLF(gaps)[1..] == AllToCRLF(gaps[1..]) && AllToCRLF(fills)[1..] == AllToCRLF(fills[1..]);
    }
  }

  /** Editing the normalized text of a uniformly CRLF source and restoring its line endings keeps every
      byte outside the edits: source and result are the same gaps around what was and what now is. */
  lemma UntouchedBytesKept(source: Bytes, edits: seq<Edit<Byte>>)
    requires HasCRLF(source) && Uniform(source) && Ordered(edits, |Normalized(source)|)
    ensures var norm := Normalized(source);
            var gaps := AllToCRLF(Gaps(norm, edits, 0));
            && source == Interleaved(gaps, AllToCRLF(Replaced(norm, edits)))
            && Restored(source, Woven(norm, edits, 0)) == Interleaved(gaps, AllToCRLF(Texts(edits)))
  {
    var norm := Normalized(source);
    RoundTrip(source);
    WovenIsInterleaved(norm, edits, 0);
    assert norm[0..] == norm;
    CRLFInterleaved(Gaps(norm, edits, 0), Replaced(norm, edits));
    CRLFInterleaved(Gaps(norm, edits, 0), Texts(edits));
  }
}
