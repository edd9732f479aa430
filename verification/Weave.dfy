/** Simultaneous replacement: what every splice in internal/edit is a fast form of. */
module Weave {

  /** Elements start..end of a text give way to text. */
  datatype Edit<T> = Edit(start: nat, end: nat, text: seq<T>)

  /** Edits from left to right, none beginning before the one to its left has ended. */
  ghost predicate Ordered<T>(edits: seq<Edit<T>>, size: nat) {
    && (forall i | 0 <= i < |edits| :: edits[i].start <= edits[i].end <= size)
    && (forall i, j | 0 <= i < j < |edits| :: edits[i].end <= edits[j].start)
  }

  /** The text from offset at on: the untouched gaps in place, each edit's text between them. */
  function Woven<T>(src: seq<T>, edits: seq<Edit<T>>, at: nat): seq<T>
    requires forall i | 0 <= i < |edits| :: edits[i].start <= edits[i].end <= |src|
    requires at <= |src| && (edits != [] ==> at <= edits[0].start)
    requires forall i | 0 <= i < |edits| - 1 :: edits[i].end <= edits[i + 1].start
    decreases |edits|
  {
    if edits == [] then src[at..]
    else src[at..edits[0].start] + edits[0].text + Woven(src, edits[1..], edits[0].end)
  }

  function Spliced<T>(s: seq<T>, e: Edit<T>): seq<T>
    requires e.start <= e.end <= |s|
  {
    s[..e.start] + e.text + s[e.end..]
  }

  lemma WovenFrom<T>(src: seq<T>, edits: seq<Edit<T>>, at: nat)
    requires Ordered(edits, |src|) && at <= |src| && (edits != [] ==> at <= edits[0].start)
    ensures Woven(src, edits, 0) == src[..at] + Woven(src, edits, at)
  {
    if edits == [] {
      assert src[0..] == src[..at] + src[at..];
    } else {
      var gap := src[at..edits[0].start];
      assert src[0..edits[0].start] == src[..at] + gap;
      Regroup(src[..at], gap, edits[0].text, Woven(src, edits[1..], edits[0].end));
    }
  }

  /** Splicing the leftmost edit in last leaves the offsets of the others as they were. */
  lemma SpliceFirst<T>(src: seq<T>, edits: seq<Edit<T>>)
    requires edits != [] && Ordered(edits, |src|)
    ensures Ordered(edits[1..], |src|) && edits[0].end <= |Woven(src, edits[1..], 0)|
    ensures Spliced(Woven(src, edits[1..], 0), edits[0]) == Woven(src, edits, 0)
  {
    var rest, e := edits[1..], edits[0];
    assert rest != [] ==> rest[0] == edits[1];
    WovenFrom(src, rest, e.end);
    var after := Woven(src, rest, 0);
    assert after[..e.start] == src[..e.start];
    assert after[e.end..] == Woven(src, rest, e.end);
  }

  // ---- the result as it is built from the left ----

  /** Where the k-th edit's gap begins. */
  function Resumes<T>(edits: seq<Edit<T>>, k: nat): nat
    requires k <= |edits|
  {
    if k == 0 then 0 else edits[k - 1].end
  }

  /** The result up to the end of its first k replacements. */
  function Built<T>(src: seq<T>, edits: seq<Edit<T>>, k: nat): seq<T>
    requires k <= |edits| && InTurn(edits, |src|)
  {
    if k == 0 then [] else Built(src, edits, k - 1) + src[Resumes(edits, k - 1)..edits[k - 1].start] + edits[k - 1].text
  }

  /** Each edit begins no earlier than its gap. */
  ghost predicate InTurn<T>(edits: seq<Edit<T>>, size: nat) {
    forall i {:trigger Resumes(edits, i)} | 0 <= i < |edits| ::
      Resumes(edits, i) <= edits[i].start <= edits[i].end <= size
  }

  lemma OrderedInTurn<T>(edits: seq<Edit<T>>, size: nat)
    requires Ordered(edits, size)
    ensures InTurn(edits, size)
  {
  }

  lemma {:induction false} BuiltWoven<T>(src: seq<T>, edits: seq<Edit<T>>, k: nat)
    requires k <= |edits| && Ordered(edits, |src|) && InTurn(edits, |src|)
    ensures Woven(src, edits, 0) == Built(src, edits, k) + Woven(src, edits[k..], Resumes(edits, k))
  {
    if k == 0 {
      assert edits[0..] == edits;
    } else {
      var j := k - 1;
      BuiltWoven(src, edits, j);
      WovenNext(src, edits, j);
      Regroup(Built(src, edits, j), src[Resumes(edits, j)..edits[j].start], edits[j].text,
              Woven(src, edits[k..], edits[j].end));
    }
  }

  lemma WovenNext<T>(src: seq<T>, edits: seq<Edit<T>>, k: nat)
    requires k < |edits| && Ordered(edits, |src|) && Resumes(edits, k) <= edits[k].start
    ensures Woven(src, edits[k..], Resumes(edits, k))
         == src[Resumes(edits, k)..edits[k].start] + edits[k].text + Woven(src, edits[k + 1..], edits[k].end)
  {
    assert edits[k..][0] == edits[k] && edits[k..][1..] == edits[k + 1..];
  }

  lemma Regroup<T>(front: seq<T>, gap: seq<T>, text: seq<T>, rest: seq<T>)
    ensures front + (gap + text + rest) == front + gap + text + rest
  {
  }

  // ---- the same edits in any order ----

  /** Edits listed by start, with no two starting at one place. */
  ghost predicate StrictlyOrdered<T>(edits: seq<Edit<T>>) {
    forall i, j | 0 <= i < j < |edits| :: edits[i].start < edits[j].start
  }

  /** There is only one way to list given edits by start when their starts differ. */
  lemma {:induction false} OneOrder<T>(a: seq<Edit<T>>, b: seq<Edit<T>>)
    requires StrictlyOrdered(a) && StrictlyOrdered(b) && multiset(a) == multiset(b)
    ensures a == b
  {
    assert |a| == |multiset(a)| == |multiset(b)| == |b|;
    if a != [] {
      FirstIsSame(a, b);
      WithoutFirst(a);
      WithoutFirst(b);
      OneOrder(a[1..], b[1..]);
      assert a == [a[0]] + a[1..] && b == [b[0]] + b[1..];
    }
  }

  lemma WithoutFirst<A>(a: seq<A>)
    requires a != []
    ensures multiset(a[1..]) == multiset(a) - multiset{a[0]}
  {
    assert a == [a[0]] + a[1..];
  }

  lemma FirstIsSame<T>(a: seq<Edit<T>>, b: seq<Edit<T>>)
    requires StrictlyOrdered(a) && StrictlyOrdered(b) && multiset(a) == multiset(b) && a != [] && b != []
    ensures a[0] == b[0]
  {
    assert a[0] in multiset(b) && b[0] in multiset(a);
    var i :| 0 <= i < |b| && b[i] == a[0];
    var j :| 0 <= j < |a| && a[j] == b[0];
  }

  // ---- gaps and fills ----

  /** gaps[0] fills[0] gaps[1] fills[1] ... gaps[n]. */
  function Interleaved<T>(gaps: seq<seq<T>>, fills: seq<seq<T>>): seq<T>
    requires |gaps| == |fills| + 1
    decreases |fills|
  {
    if fills == [] then gaps[0] else gaps[0] + fills[0] + Interleaved(gaps[1..], fills[1..])
  }

  function Gaps<T>(src: seq<T>, edits: seq<Edit<T>>, at: nat): (g: seq<seq<T>>)
    requires forall i | 0 <= i < |edits| :: edits[i].start <= edits[i].end <= |src|
    requires at <= |src| && (edits != [] ==> at <= edits[0].start)
    requires forall i | 0 <= i < |edits| - 1 :: edits[i].end <= edits[i + 1].start
    ensures |g| == |edits| + 1
    decreases |edits|
  {
    if edits == [] then [src[at..]] else [src[at..edits[0].start]] + Gaps(src, edits[1..], edits[0].end)
  }

  function Texts<T>(edits: seq<Edit<T>>): seq<seq<T>> {
    seq(|edits|, i requires 0 <= i < |edits| => edits[i].text)
  }

  function Replaced<T>(src: seq<T>, edits: seq<Edit<T>>): seq<seq<T>>
    requires forall i | 0 <= i < |edits| :: edits[i].start <= edits[i].end <= |src|
  {
    seq(|edits|, i requires 0 <= i < |edits| => src[edits[i].start..edits[i].end])
  }

  /** Source and result share their gaps: they differ only in what fills them. */
  lemma WovenIsInterleaved<T>(src: seq<T>, edits: seq<Edit<T>>, at: nat)
    requires Ordered(edits, |src|) && at <= |src| && (edits != [] ==> at <= edits[0].start)
    ensures Woven(src, edits, at) == Interleaved(Gaps(src, edits, at), Texts(edits))
    ensures src[at..] == Interleaved(Gaps(src, edits, at), Replaced(src, edits))
  {
    ResultInterleaved(src, edits, at);
    SourceInterleaved(src, edits, at);
  }

  lemma GapsNext<T>(src: seq<T>, edits: seq<Edit<T>>, at: nat)
    requires edits != [] && Ordered(edits, |src|) && at <= edits[0].start
    ensures Ordered(edits[1..], |src|) && (edits[1..] != [] ==> edits[0].end <= edits[1..][0].start)
    ensures Gaps(src, edits, at) == [src[at..edits[0].start]] + Gaps(src, edits[1..], edits[0].end)
    ensures Texts(edits) == [edits[0].text] + Texts(edits[1..])
    ensures Replaced(src, edits) == [src[edits[0].start..edits[0].end]] + Replaced(src, edits[1..])
  {
  }

  lemma {:induction false} ResultInterleaved<T>(src: seq<T>, edits: seq<Edit<T>>, at: nat)
    requires Ordered(edits, |src|) && at <= |src| && (edits != [] ==> at <= edits[0].start)
    ensures Woven(src, edits, at) == Interleaved(Gaps(src, edits, at), Texts(edits))
    decreases |edits|
  {
    if edits != [] {
      var rest, e := edits[1..], edits[0];
      GapsNext(src, edits, at);
      ResultInterleaved(src, rest, e.end);
      InterleavedFront(src[at..e.start], Gaps(src, rest, e.end), e.text, Texts(rest));
    }
  }

  lemma {:induction false} SourceInterleaved<T>(src: seq<T>, edits: seq<Edit<T>>, at: nat)
    requires Ordered(edits, |src|) && at <= |src| && (edits != [] ==> at <= edits[0].start)
    ensures src[at..] == Interleaved(Gaps(src, edits, at), Replaced(src, edits))
    decreases |edits|
  {
    if edits != [] {
      var rest, e := edits[1..], edits[0];
      GapsNext(src, edits, at);
      SourceInterleaved(src, rest, e.end);
      InterleavedFront(src[at..e.start], Gaps(src, rest, e.end), src[e.start..e.end], Replaced(src, rest));
      assert src[at..] == src[at..e.start] + src[e.start..e.end] + src[e.end..];
    }
  }

  lemma InterleavedFront<T>(gap: seq<T>, gaps: seq<seq<T>>, fill: seq<T>, fills: seq<seq<T>>)
    requires |gaps| == |fills| + 1
    ensures Interleaved([gap] + gaps, [fill] + fills) == gap + fill + Interleaved(gaps, fills)
  {
    assert ([gap] + gaps)[1..] == gaps && ([fill] + fills)[1..] == fills;
  }
}
