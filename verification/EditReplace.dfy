/** Replacing by text: exact occurrences, and whole-line spans (internal/edit/replace.go). */
module EditReplace {
  import opened Outcomes
  import opened Text
  import opened Weave
  import opened EditTypes
  import opened LineEndings

  // ---- occurrences ----

  predicate MatchAt(s: Bytes, pat: Bytes, i: nat) {
    i + |pat| <= |s| && s[i..i + |pat|] == pat
  }

  predicate Occurs(s: Bytes, pat: Bytes) {
    exists i: nat | i <= |s| :: MatchAt(s, pat, i)
  }

  ghost predicate NoneFrom(s: Bytes, pat: Bytes, from: nat) {
    forall j: nat | from <= j :: !MatchAt(s, pat, j)
  }

  ghost predicate FirstFrom(s: Bytes, pat: Bytes, from: nat, i: nat) {
    from <= i && MatchAt(s, pat, i) && forall j: nat | from <= j < i :: !MatchAt(s, pat, j)
  }

  /** Where the search goes on after the matches found so far. */
  function Resume(pat: Bytes, idxs: seq<nat>): nat {
    if idxs == [] then 0 else idxs[|idxs| - 1] + |pat|
  }

  /** Each match is the first one from where the match before it ended. */
  ghost predicate Successive(s: Bytes, pat: Bytes, idxs: seq<nat>) {
    idxs == [] ||
    (Successive(s, pat, idxs[..|idxs| - 1]) && FirstFrom(s, pat, Resume(pat, idxs[..|idxs| - 1]), idxs[|idxs| - 1]))
  }

  /** The leftmost occurrences that do not overlap, all of them. */
  ghost predicate Leftmost(s: Bytes, pat: Bytes, idxs: seq<nat>) {
    Successive(s, pat, idxs) && NoneFrom(s, pat, Resume(pat, idxs))
  }

  /** strings.Index in s from offset on: the first match, or -1. */
  method Index(s: Bytes, from: nat, pat: Bytes) returns (i: int)
    requires from <= |s|
    ensures i >= 0 ==> FirstFrom(s, pat, from, i) && i + |pat| <= |s|
    ensures i < 0 ==> NoneFrom(s, pat, from)
  {
    i := from;
    while i + |pat| <= |s|
      invariant from <= i && forall j: nat | from <= j < i :: !MatchAt(s, pat, j)
    {
      if s[i..i + |pat|] == pat {
        assert MatchAt(s, pat, i);
        return i;
      }
      assert !MatchAt(s, pat, i);
      i := i + 1;
    }
    i := -1;
  }

  method FindAll(source: Bytes, pat: Bytes) returns (idxs: seq<nat>)
    requires pat != []
    ensures Leftmost(source, pat, idxs)
  {
    idxs := [];
    var offset := 0;
    while true
      invariant offset <= |source| && offset == Resume(pat, idxs) && Successive(source, pat, idxs)
      decreases |source| - offset
    {
      var i := Index(source, offset, pat);
      if i < 0 {
        break;
      }
      assert (idxs + [i])[..|idxs|] == idxs;
      idxs := idxs + [i];
      offset := i + |pat|;
    }
  }

  /** There is one such list: the two share every prefix, and neither can stop before the other. */
  lemma {:induction false} LeftmostUnique(s: Bytes, pat: Bytes, a: seq<nat>, b: seq<nat>)
    requires pat != [] && Leftmost(s, pat, a) && Leftmost(s, pat, b)
    ensures a == b
  {
    var n := if |a| < |b| then |a| else |b|;
    SuccessivePrefix(s, pat, a, n);
    SuccessivePrefix(s, pat, b, n);
    SuccessiveSame(s, pat, a[..n], b[..n]);
    if |a| < |b| {
      Unfinished(s, pat, b, n);
    } else if |b| < |a| {
      Unfinished(s, pat, a, n);
    }
    assert a[..|a|] == a && b[..|b|] == b;
  }

  lemma {:induction false} SuccessivePrefix(s: Bytes, pat: Bytes, idxs: seq<nat>, n: nat)
    requires Successive(s, pat, idxs) && n <= |idxs|
    ensures Successive(s, pat, idxs[..n])
  {
    if n < |idxs| {
      SuccessivePrefix(s, pat, idxs[..|idxs| - 1], n);
      assert idxs[..|idxs| - 1][..n] == idxs[..n];
    } else {
      assert idxs[..n] == idxs;
    }
  }

  lemma {:induction false} SuccessiveSame(s: Bytes, pat: Bytes, a: seq<nat>, b: seq<nat>)
    requires |a| == |b| && Successive(s, pat, a) && Successive(s, pat, b)
    ensures a == b
  {
    if a != [] {
      var m := |a| - 1;
      SuccessiveSame(s, pat, a[..m], b[..m]);
      assert a == a[..m] + [a[m]] && b == b[..m] + [b[m]];
    }
  }

  lemma Unfinished(s: Bytes, pat: Bytes, b: seq<nat>, n: nat)
    requires Successive(s, pat, b) && n < |b|
    ensures !NoneFrom(s, pat, Resume(pat, b[..n]))
  {
    SuccessivePrefix(s, pat, b, n + 1);
    assert b[..n + 1][..n] == b[..n];
    assert MatchAt(s, pat, b[n]);
  }

  lemma {:induction false} SuccessiveAt(s: Bytes, pat: Bytes, idxs: seq<nat>, k: nat)
    requires Successive(s, pat, idxs) && k < |idxs|
    ensures MatchAt(s, pat, idxs[k]) && Resume(pat, idxs[..k]) <= idxs[k]
  {
    SuccessivePrefix(s, pat, idxs, k + 1);
    assert idxs[..k + 1][..k] == idxs[..k];
  }

  lemma {:induction false} SuccessiveOrder(s: Bytes, pat: Bytes, idxs: seq<nat>, i: nat, j: nat)
    requires Successive(s, pat, idxs) && i < j < |idxs|
    ensures idxs[i] + |pat| <= idxs[j]
  {
    SuccessiveAt(s, pat, idxs, j);
    if i < j - 1 { SuccessiveOrder(s, pat, idxs, i, j - 1); }
  }

  // ---- what a splice reports ----

  datatype Splice = Splice(source: Bytes, ranges: seq<LineRange>, added: nat, removed: nat, matches: nat)

  function RangeOf(startLine: int, added: nat): LineRange {
    if added == 0 then LineRange(startLine, startLine - 1) else LineRange(startLine, startLine + added - 1)
  }

  /** What the result holds before the k-th edit's text. */
  function Front<T>(src: seq<T>, edits: seq<Edit<T>>, k: nat): seq<T>
    requires k < |edits| && InTurn(edits, |src|)
  {
    Built(src, edits, k) + src[Resumes(edits, k)..edits[k].start]
  }

  /** The k-th edit's text stands right behind its front in the result. */
  lemma FrontInResult<T>(src: seq<T>, edits: seq<Edit<T>>, k: nat)
    requires k < |edits| && Ordered(edits, |src|)
    ensures InTurn(edits, |src|) && Front(src, edits, k) + edits[k].text <= Woven(src, edits, 0)
  {
    OrderedInTurn(edits, |src|);
    BuiltWoven(src, edits, k + 1);
  }

  function Matches(pat: Bytes, text: Bytes, idxs: seq<nat>): seq<Edit<Byte>> {
    seq(|idxs|, k requires 0 <= k < |idxs| => Edit(idxs[k], idxs[k] + |pat|, text))
  }

  lemma MatchesOrdered(s: Bytes, pat: Bytes, text: Bytes, idxs: seq<nat>)
    requires Successive(s, pat, idxs)
    ensures Ordered(Matches(pat, text, idxs), |s|)
  {
    var edits := Matches(pat, text, idxs);
    forall i | 0 <= i < |edits| ensures edits[i].end <= |s| { SuccessiveAt(s, pat, idxs, i); }
    forall i, j | 0 <= i < j < |edits| ensures edits[i].end <= edits[j].start { SuccessiveOrder(s, pat, idxs, i, j); }
  }

  /** The result is the simultaneous replacement of every occurrence, and each range starts on the line
      of the result on which that replacement begins. */
  ghost predicate ReplacesEvery(source: Bytes, pat: Bytes, text: Bytes, idxs: seq<nat>, r: Splice) {
    var edits := Matches(pat, text, idxs);
    && Ordered(edits, |source|)
    && r.source == Woven(source, edits, 0)
    && |idxs| == r.matches == |r.ranges|
    && r.added == |idxs| * CountLines(text) && r.removed == |idxs| * CountLines(pat)
    && TrueRanges(source, edits, text, r.ranges)
  }

  ghost predicate TrueRanges(source: Bytes, edits: seq<Edit<Byte>>, text: Bytes, ranges: seq<LineRange>) {
    && |ranges| <= |edits|
    && InTurn(edits, |source|)
    && forall k | 0 <= k < |ranges| :: ranges[k] == RangeOf(1 + Newlines(Front(source, edits, k)), CountLines(text))
  }

  /** The result so far holds the first k replacements, and prev is where the next gap begins. */
  ghost predicate Placed(source: Bytes, edits: seq<Edit<Byte>>, k: nat, b: Bytes, prev: int) {
    && k <= |edits| && InTurn(edits, |source|)
    && prev == Resumes(edits, k) <= |source| && b == Built(source, edits, k)
  }

  /** The state of the loop after k replacements: what is built, what it counts, what it reports. */
  ghost predicate Progress(source: Bytes, edits: seq<Edit<Byte>>, text: Bytes, k: nat, b: Bytes, delta: int,
                           prev: int, ranges: seq<LineRange>)
  {
    && Placed(source, edits, k, b, prev) && Newlines(b) == Newlines(source[..prev]) + delta
    && |ranges| == k && TrueRanges(source, edits, text, ranges)
  }

  /** One occurrence: the gap before it, where it starts in the result, and its replacement. */
  method SpliceNext(source: Bytes, pat: Bytes, text: Bytes, idx: nat, ghost edits: seq<Edit<Byte>>, ghost k: nat,
                    b: Bytes, delta: int, prev: int, ranges: seq<LineRange>)
    returns (b': Bytes, delta': int, prev': int, ranges': seq<LineRange>)
    requires Progress(source, edits, text, k, b, delta, prev, ranges)
    requires k < |edits| && edits[k] == Edit(idx, idx + |pat|, text) && MatchAt(source, pat, idx)
    ensures Progress(source, edits, text, k + 1, b', delta', prev', ranges')
  {
    PlacedNext(source, edits, k, b, prev);
    b' := b + source[prev..idx];
    LinesAround(source, pat, text, b, prev, idx, b', delta);
    var startLine := 1 + Newlines(source[..idx]) + delta;
    RangesStep(source, edits, text, ranges, k, startLine);
    ranges' := ranges + [RangeOf(startLine, CountLines(text))];
    b' := b' + text;
    delta' := delta + Newlines(text) - Newlines(pat);
    prev' := idx + |pat|;
  }

  /** The k-th edit in place: its gap, and its text. */
  lemma PlacedNext(source: Bytes, edits: seq<Edit<Byte>>, k: nat, b: Bytes, prev: int)
    requires k < |edits| && Placed(source, edits, k, b, prev)
    ensures prev <= edits[k].start <= |source| && b + source[prev..edits[k].start] == Front(source, edits, k)
    ensures Placed(source, edits, k + 1, Front(source, edits, k) + edits[k].text, edits[k].end)
  {
  }

  lemma EveryBegin(source: Bytes, pat: Bytes, text: Bytes, idxs: seq<nat>)
    requires Successive(source, pat, idxs)
    ensures Ordered(Matches(pat, text, idxs), |source|)
    ensures Progress(source, Matches(pat, text, idxs), text, 0, [], 0, 0, [])
  {
    MatchesOrdered(source, pat, text, idxs);
    OrderedInTurn(Matches(pat, text, idxs), |source|);
  }

  method SpliceEvery(source: Bytes, pat: Bytes, text: Bytes, idxs: seq<nat>) returns (r: Splice)
    requires Successive(source, pat, idxs)
    ensures ReplacesEvery(source, pat, text, idxs, r)
  {
    ghost var edits := Matches(pat, text, idxs);
    EveryBegin(source, pat, text, idxs);
    var b: Bytes := [];
    var ranges: seq<LineRange> := [];
    var added: nat, removed: nat, delta, prev := 0, 0, 0, 0;
    for k := 0 to |idxs|
      invariant Progress(source, edits, text, k, b, delta, prev, ranges)
      invariant added == k * CountLines(text) && removed == k * CountLines(pat)
    {
      SuccessiveAt(source, pat, idxs, k);
      b, delta, prev, ranges := SpliceNext(source, pat, text, idxs[k], edits, k, b, delta, prev, ranges);
      OneMore(k, CountLines(text));
      OneMore(k, CountLines(pat));
      added := added + CountLines(text);
      removed := removed + CountLines(pat);
    }
    EveryEnd(source, pat, text, idxs, b, delta, prev, ranges);
    r := Splice(b + source[prev..], ranges, added, removed, |idxs|);
  }

  lemma RangesStep(source: Bytes, edits: seq<Edit<Byte>>, text: Bytes, ranges: seq<LineRange>, k: nat, startLine: int)
    requires InTurn(edits, |source|) && k < |edits| && |ranges| == k && TrueRanges(source, edits, text, ranges)
    requires startLine == 1 + Newlines(Front(source, edits, k))
    ensures TrueRanges(source, edits, text, ranges + [RangeOf(startLine, CountLines(text))])
  {
  }

  lemma EveryEnd(source: Bytes, pat: Bytes, text: Bytes, idxs: seq<nat>, b: Bytes, delta: int, prev: int,
                 ranges: seq<LineRange>)
    requires Ordered(Matches(pat, text, idxs), |source|)
    requires Progress(source, Matches(pat, text, idxs), text, |idxs|, b, delta, prev, ranges)
    ensures ReplacesEvery(source, pat, text, idxs, Splice(b + source[prev..], ranges, |idxs| * CountLines(text),
                                                          |idxs| * CountLines(pat), |idxs|))
  {
    var edits := Matches(pat, text, idxs);
    BuiltWoven(source, edits, |idxs|);
    assert edits[|idxs|..] == [];
  }

  lemma OneMore(k: nat, c: nat)
    ensures (k + 1) * c == k * c + c
  {
  }

  lemma LinesAround(source: Bytes, pat: Bytes, text: Bytes, b: Bytes, prev: nat, idx: nat, front: Bytes, delta: int)
    requires prev <= idx && MatchAt(source, pat, idx) && Newlines(b) == Newlines(source[..prev]) + delta
    requires front == b + source[prev..idx]
    ensures Newlines(front) == Newlines(source[..idx]) + delta
    ensures Newlines(front + text) == Newlines(source[..idx + |pat|]) + delta + Newlines(text) - Newlines(pat)
  {
    Cut(source, pat, prev, idx);
    LinesSum(b, source[..prev], source[prev..idx], text, pat, delta);
  }

  lemma Cut(source: Bytes, pat: Bytes, prev: nat, idx: nat)
    requires prev <= idx && MatchAt(source, pat, idx)
    ensures source[..idx] == source[..prev] + source[prev..idx]
    ensures source[..idx + |pat|] == source[..prev] + source[prev..idx] + pat
  {
    assert source[..idx + |pat|] == source[..idx] + source[idx..idx + |pat|];
  }

  lemma LinesSum(b: Bytes, before: Bytes, gap: Bytes, text: Bytes, pat: Bytes, delta: int)
    requires Newlines(b) == Newlines(before) + delta
    ensures Newlines(b + gap) == Newlines(before + gap) + delta
    ensures Newlines(b + gap + text) == Newlines(before + gap + pat) + delta + Newlines(text) - Newlines(pat)
  {
    NewlinesConcat(b, gap);
    NewlinesConcat(b + gap, text);
    NewlinesConcat(before, gap);
    NewlinesConcat(before + gap, pat);
  }

  /** spliceExact: the one occurrence there is. */
  method SpliceExact(source: Bytes, pat: Bytes, text: Bytes, idx: nat) returns (r: Splice)
    requires MatchAt(source, pat, idx)
    ensures ReplacesEvery(source, pat, text, [idx], r)
  {
    ghost var edits := Matches(pat, text, [idx]);
    assert Ordered(edits, |source|) && edits[1..] == [];
    assert Front(source, edits, 0) == [] + source[0..idx] == source[..idx];
    r := Splice(source[..idx] + text + source[idx + |pat|..],
                [RangeOf(1 + Newlines(source[..idx]), CountLines(text))], CountLines(text), CountLines(pat), 1);
  }

  // ---- the near-match report ----

  lemma PrefixOccurs(source: Bytes, want: Bytes, m: nat, n: nat)
    requires m <= n <= |want| && Occurs(source, want[..n])
    ensures Occurs(source, want[..m])
  {
    var i: nat :| i <= |source| && MatchAt(source, want[..n], i);
    assert source[i..i + m] == source[i..i + n][..m] == want[..n][..m] == want[..m];
    assert MatchAt(source, want[..m], i);
  }

  /** longestPrefix: binary search for how much of want occurs in source. */
  method LongestPrefix(source: Bytes, want: Bytes) returns (lo: nat)
    ensures lo <= |want|
    ensures forall m: nat | m <= |want| :: Occurs(source, want[..m]) <==> m <= lo
  {
    var hi := |want|;
    lo := 0;
    assert MatchAt(source, want[..0], 0);
    while lo < hi
      invariant lo <= hi <= |want| && Occurs(source, want[..lo])
      invariant forall m: nat | hi < m <= |want| :: !Occurs(source, want[..m])
      decreases hi - lo
    {
      var mid := lo + (hi - lo + 1) / 2;
      if Occurs(source, want[..mid]) {
        lo := mid;
      } else {
        forall m: nat | mid <= m <= |want| ensures !Occurs(source, want[..m]) {
          if Occurs(source, want[..m]) { PrefixOccurs(source, want, mid, m); }
        }
        hi := mid - 1;
      }
    }
    forall m: nat | m <= lo ensures Occurs(source, want[..m]) { PrefixOccurs(source, want, m, lo); }
  }
}
