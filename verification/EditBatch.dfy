/** Batches of replacements, resolved against one snapshot (internal/edit/batch.go).

Finding an anchor is the business of `replace`, which stands for replaceWithRepair: any function from
a text and a pair to a result. Everything here holds whatever it does. */
module EditBatch {
  import opened Outcomes
  import opened Text
  import opened Weave
  import opened EditTypes

  // ---- locating a pair ----

  /** How far a and b agree from place i on, counted from their starts. */
  function PrefixFrom(a: Bytes, b: Bytes, i: nat): (n: nat)
    requires i <= |a| && i <= |b|
    ensures i <= n <= |a| && n <= |b|
    decreases |a| - i
  {
    if i < |a| && i < |b| && a[i] == b[i] then PrefixFrom(a, b, i + 1) else i
  }

  lemma {:induction false} PrefixFromIs(a: Bytes, b: Bytes, i: nat)
    requires i <= |a| && i <= |b|
    ensures var n := PrefixFrom(a, b, i);
            (forall k | i <= k < n :: a[k] == b[k]) && (n < |a| && n < |b| ==> a[n] != b[n])
    decreases |a| - i
  {
    if i < |a| && i < |b| && a[i] == b[i] { PrefixFromIs(a, b, i + 1); }
  }

  /** The same, from the ends backwards. */
  function SuffixFrom(a: Bytes, b: Bytes, i: nat): (n: nat)
    requires i <= |a| && i <= |b|
    ensures i <= n <= |a| && n <= |b|
    decreases |a| - i
  {
    if i < |a| && i < |b| && a[|a| - 1 - i] == b[|b| - 1 - i] then SuffixFrom(a, b, i + 1) else i
  }

  lemma {:induction false} SuffixFromIs(a: Bytes, b: Bytes, i: nat)
    requires i <= |a| && i <= |b|
    ensures var n := SuffixFrom(a, b, i);
            && (forall k | |a| - n <= k < |a| - i :: a[k] == b[k - |a| + |b|])
            && (n < |a| && n < |b| ==> a[|a| - 1 - n] != b[|b| - 1 - n])
    decreases |a| - i
  {
    if i < |a| && i < |b| && a[|a| - 1 - i] == b[|b| - 1 - i] { SuffixFromIs(a, b, i + 1); }
  }

  method CommonPrefix(a: Bytes, b: Bytes) returns (n: nat)
    ensures n == PrefixFrom(a, b, 0)
  {
    var least := if |a| < |b| then |a| else |b|;
    for i := 0 to least
      invariant PrefixFrom(a, b, 0) == PrefixFrom(a, b, i)
    {
      if a[i] != b[i] {
        return i;
      }
    }
    n := least;
  }

  method CommonSuffix(a: Bytes, b: Bytes) returns (n: nat)
    ensures n == SuffixFrom(a, b, 0)
  {
    var least := if |a| < |b| then |a| else |b|;
    for i := 0 to least
      invariant SuffixFrom(a, b, 0) == SuffixFrom(a, b, i)
    {
      if a[|a| - 1 - i] != b[|b| - 1 - i] {
        return i;
      }
    }
    n := least;
  }

  datatype Located = Located(edit: Edit<Byte>, note: Bytes, added: nat, removed: nat, index: nat)

  /** The span of src that changed on the way to after, and what stands there now. */
  function Difference(src: Bytes, after: Bytes): (e: Edit<Byte>)
    ensures e.start <= e.end <= |src|
  {
    var head := PrefixFrom(src, after, 0);
    var tail := SuffixFrom(src[head..], after[head..], 0);
    Edit(head, |src| - tail, after[head..|after| - tail])
  }

  /** A located span, applied alone, gives back exactly what the pair's own replacement gave. */
  lemma DifferenceReproduces(src: Bytes, after: Bytes)
    ensures Spliced(src, Difference(src, after)) == after
  {
    var head := PrefixFrom(src, after, 0);
    PrefixFromIs(src, after, 0);
    assert src[..head] == after[..head];
    var a, b := src[head..], after[head..];
    var tail := SuffixFrom(a, b, 0);
    SuffixEqual(a, b, tail);
    TailOf(src, head, tail);
    TailOf(after, head, tail);
  }

  lemma SuffixEqual(a: Bytes, b: Bytes, n: nat)
    requires n == SuffixFrom(a, b, 0)
    ensures a[|a| - n..] == b[|b| - n..]
  {
    SuffixFromIs(a, b, 0);
    var x, y := a[|a| - n..], b[|b| - n..];
    forall k | 0 <= k < n ensures x[k] == y[k] {
      assert x[k] == a[|a| - n + k] && y[k] == b[|b| - n + k];
    }
  }

  lemma TailOf(s: Bytes, head: nat, tail: nat)
    requires head + tail <= |s|
    ensures s[head..][|s[head..]| - tail..] == s[|s| - tail..]
    ensures s == s[..head] + s[head..|s| - tail] + s[|s| - tail..]
  {
  }

  /** Nothing can be trimmed from either end of a located span. */
  lemma DifferenceTight(src: Bytes, after: Bytes)
    ensures var e := Difference(src, after);
            e.start < e.end && e.text != [] ==> src[e.start] != e.text[0] && src[e.end - 1] != e.text[|e.text| - 1]
  {
    var head := PrefixFrom(src, after, 0);
    PrefixFromIs(src, after, 0);
    var a, b := src[head..], after[head..];
    SuffixFromIs(a, b, 0);
  }

  function Found(src: Bytes, r: Replacement, index: nat): Located {
    Located(Difference(src, r.source), r.note, r.added, r.removed, index)
  }

  method Locate(src: Bytes, p: Pair, index: nat, replace: Replacer) returns (r: Result<Located, ReplaceError>)
    ensures r == match replace(src, p) case Ok(v) => Ok(Found(src, v, index)) case Err(e) => Err(e)
  {
    var res := replace(src, p);
    if res.Err? {
      return Err(res.error);
    }
    var head := CommonPrefix(src, res.value.source);
    var tail := CommonSuffix(src[head..], res.value.source[head..]);
    r := Ok(Located(Edit(head, |src| - tail, res.value.source[head..|res.value.source| - tail]),
                    res.value.note, res.value.added, res.value.removed, index));
  }

  // ---- the batch ----

  datatype BatchError = Anchor(index: nat, error: ReplaceError) | Overlap(first: nat, second: nat) | NoPairs

  datatype Applied = Applied(source: Bytes, notes: seq<Bytes>, added: nat, removed: nat)

  function Edits(spans: seq<Located>): seq<Edit<Byte>> {
    seq(|spans|, i requires 0 <= i < |spans| => spans[i].edit)
  }

  ghost predicate ByStart(spans: seq<Located>) {
    forall i, j | 0 <= i < j < |spans| :: spans[i].edit.start <= spans[j].edit.start
  }

  ghost predicate Within(spans: seq<Located>, size: nat) {
    forall i | 0 <= i < |spans| :: spans[i].edit.start <= spans[i].edit.end <= size
  }

  function InsertByStart(x: Located, s: seq<Located>): (r: seq<Located>)
    ensures multiset(r) == multiset(s) + multiset{x}
  {
    if s == [] || x.edit.start <= s[0].edit.start then [x] + s
    else
      assert s == [s[0]] + s[1..];
      [s[0]] + InsertByStart(x, s[1..])
  }

  lemma {:induction false} InsertKeepsOrder(x: Located, s: seq<Located>)
    requires ByStart(s)
    ensures ByStart(InsertByStart(x, s))
  {
    if s != [] && x.edit.start > s[0].edit.start {
      InsertKeepsOrder(x, s[1..]);
      var r := InsertByStart(x, s[1..]);
      forall i | 0 <= i < |r| ensures s[0].edit.start <= r[i].edit.start {
        assert r[i] in multiset(r);
        assert r[i] == x || r[i] in s[1..];
      }
    }
  }

  /** sort.Slice by start. It is not stable: spans that start together come out in any order, so this
      says only that the result is sorted and holds the same spans. */
  method SortByStart(spans: seq<Located>) returns (r: seq<Located>)
    ensures ByStart(r) && multiset(r) == multiset(spans)
  {
    r := [];
    for i := 0 to |spans|
      invariant ByStart(r) && multiset(r) == multiset(spans[..i])
    {
      InsertKeepsOrder(spans[i], r);
      r := InsertByStart(spans[i], r);
      assert spans[..i + 1] == spans[..i] + [spans[i]];
    }
    assert spans[..|spans|] == spans;
  }

  function SumAdded(spans: seq<Located>): nat {
    if spans == [] then 0 else SumAdded(spans[..|spans| - 1]) + spans[|spans| - 1].added
  }

  function SumRemoved(spans: seq<Located>): nat {
    if spans == [] then 0 else SumRemoved(spans[..|spans| - 1]) + spans[|spans| - 1].removed
  }

  function Notes(spans: seq<Located>): seq<Bytes> {
    if spans == [] then []
    else
      var before, note := Notes(spans[..|spans| - 1]), spans[|spans| - 1].note;
      if note != [] then before + [note] else before
  }

  /** The spans every pair resolves to against before, or the first pair that does not resolve. */
  ghost predicate Resolved(before: Bytes, pairs: seq<Pair>, replace: Replacer, spans: seq<Located>) {
    && |spans| == |pairs|
    && forall i | 0 <= i < |pairs| ::
         replace(before, pairs[i]).Ok? && spans[i] == Found(before, replace(before, pairs[i]).value, i + 1)
  }

  /** The error names the first pair that fails, counted from 1, and carries what it failed with. */
  ghost predicate FirstToFail(before: Bytes, pairs: seq<Pair>, replace: Replacer, e: BatchError) {
    && e.Anchor? && 0 < e.index <= |pairs| && replace(before, pairs[e.index - 1]) == Err(e.error)
    && forall i | 0 <= i < e.index - 1 :: replace(before, pairs[i]).Ok?
  }

  /** The error names the first two neighbours by start that overlap, the later of them at place i. */
  ghost predicate FirstToOverlap(order: seq<Located>, i: nat, e: BatchError) {
    && 0 < i < |order| && order[i].edit.start < order[i - 1].edit.end
    && e == Overlap(order[i - 1].index, order[i].index)
    && forall k | 0 < k < i :: order[k - 1].edit.end <= order[k].edit.start
  }

  method Resolve(before: Bytes, pairs: seq<Pair>, replace: Replacer) returns (r: Result<seq<Located>, BatchError>)
    ensures r.Ok? ==> Resolved(before, pairs, replace, r.value)
    ensures r.Err? ==> FirstToFail(before, pairs, replace, r.error)
  {
    var spans: seq<Located> := [];
    for i := 0 to |pairs|
      invariant |spans| == i
      invariant forall j | 0 <= j < i ::
        replace(before, pairs[j]).Ok? && spans[j] == Found(before, replace(before, pairs[j]).value, j + 1)
    {
      var span := Locate(before, pairs[i], i + 1, replace);
      if span.Err? {
        return Err(Anchor(i + 1, span.error));
      }
      spans := spans + [span.value];
    }
    r := Ok(spans);
  }

  /** Some listing of the spans by start is free of overlap, and source is what they weave into before. */
  ghost predicate Listing(spans: seq<Located>, order: seq<Located>) {
    multiset(order) == multiset(spans) && ByStart(order)
  }

  /** Adjacent spans that do not overlap leave no two spans overlapping. */
  lemma {:induction false} AdjacentIsEnough(order: seq<Located>, size: nat)
    requires Within(order, size)
    requires forall i | 0 < i < |order| :: order[i - 1].edit.end <= order[i].edit.start
    ensures Ordered(Edits(order), size)
  {
    forall i, j | 0 <= i < j < |order| ensures order[i].edit.end <= order[j].edit.start {
      var k := i + 1;
      while k < j
        invariant i < k <= j && order[i].edit.end <= order[k].edit.start
      {
        k := k + 1;
      }
    }
  }

  /** applyAll: all pairs against one text, spliced in from the last. */
  method ApplyAll(before: Bytes, pairs: seq<Pair>, replace: Replacer)
    returns (r: Result<Applied, BatchError>, ghost spans: seq<Located>, ghost order: seq<Located>)
    ensures r.Err? && r.error.Anchor? <==> exists i :: 0 <= i < |pairs| && replace(before, pairs[i]).Err?
    ensures r.Ok? || r.error.Overlap? ==> Resolved(before, pairs, replace, spans) && Listing(spans, order)
    ensures r.Ok? ==> Ordered(Edits(order), |before|) && r.value.source == Woven(before, Edits(order), 0)
    ensures r.Ok? ==>
      r.value.added == SumAdded(order) && r.value.removed == SumRemoved(order) && r.value.notes == Notes(order)
    ensures r.Err? ==> FirstToFail(before, pairs, replace, r.error) || exists i :: FirstToOverlap(order, i, r.error)
  {
    var resolved := Resolve(before, pairs, replace);
    spans, order := [], [];
    if resolved.Err? {
      return Err(resolved.error), spans, order;
    }
    spans := resolved.value;
    var sorted := SortByStart(resolved.value);
    order := sorted;
    StaysWithin(before, pairs, replace, spans, order);
    var added, removed := 0, 0;
    for i := 0 to |sorted|
      invariant added == SumAdded(sorted[..i]) && removed == SumRemoved(sorted[..i])
      invariant forall k | 0 < k < i :: sorted[k - 1].edit.end <= sorted[k].edit.start
    {
      assert sorted[..i + 1][..i] == sorted[..i];
      added := added + sorted[i].added;
      removed := removed + sorted[i].removed;
      if i > 0 && sorted[i].edit.start < sorted[i - 1].edit.end {
        assert FirstToOverlap(order, i, Overlap(sorted[i - 1].index, sorted[i].index));
        return Err(Overlap(sorted[i - 1].index, sorted[i].index)), spans, order;
      }
    }
    assert sorted[..|sorted|] == sorted;
    AdjacentIsEnough(sorted, |before|);
    var notes := CollectNotes(sorted);
    var source := SpliceBackwards(before, sorted);
    r := Ok(Applied(source, notes, added, removed));
  }

  lemma StaysWithin(before: Bytes, pairs: seq<Pair>, replace: Replacer, spans: seq<Located>, order: seq<Located>)
    requires Resolved(before, pairs, replace, spans) && multiset(order) == multiset(spans)
    ensures Within(order, |before|)
  {
    forall i | 0 <= i < |order| ensures order[i].edit.start <= order[i].edit.end <= |before| {
      assert order[i] in multiset(spans);
      assert order[i] in spans;
    }
  }

  method CollectNotes(sorted: seq<Located>) returns (notes: seq<Bytes>)
    ensures notes == Notes(sorted)
  {
    notes := [];
    for i := 0 to |sorted|
      invariant notes == Notes(sorted[..i])
    {
      assert sorted[..i + 1][..i] == sorted[..i];
      if sorted[i].note != [] {
        notes := notes + [sorted[i].note];
      }
    }
    assert sorted[..|sorted|] == sorted;
  }

  method SpliceBackwards(before: Bytes, sorted: seq<Located>) returns (source: Bytes)
    requires Ordered(Edits(sorted), |before|)
    ensures source == Woven(before, Edits(sorted), 0)
  {
    source := before;
    ghost var edits := Edits(sorted);
    var i: nat := |sorted|;
    while i > 0
      invariant i <= |sorted| && Ordered(edits[i..], |before|) && source == Woven(before, edits[i..], 0)
    {
      i := i - 1;
      OrderedSuffix(edits, i, |before|);
      SpliceFirst(before, edits[i..]);
      source := source[..sorted[i].edit.start] + sorted[i].edit.text + source[sorted[i].edit.end..];
    }
    assert edits[0..] == edits;
  }

  lemma OrderedSuffix(edits: seq<Edit<Byte>>, i: nat, size: nat)
    requires Ordered(edits, size) && i < |edits|
    ensures Ordered(edits[i..], size) && edits[i..][0] == edits[i] && edits[i..][1..] == edits[i + 1..]
  {
  }

  // ---- what a batch means ----

  /** source is an outcome the batch may have: what the spans weave into before, taken in some order by start. */
  ghost predicate Outcome(before: Bytes, pairs: seq<Pair>, replace: Replacer, source: Bytes) {
    exists spans, order :: OutcomeBy(before, pairs, replace, source, spans, order)
  }

  ghost predicate OutcomeBy(
    before: Bytes, pairs: seq<Pair>, replace: Replacer, source: Bytes, spans: seq<Located>, order: seq<Located>)
  {
    && Resolved(before, pairs, replace, spans) && Listing(spans, order)
    && Ordered(Edits(order), |before|) && source == Woven(before, Edits(order), 0)
  }

  /** Where the pairs take hold, no two in the same place. */
  ghost predicate DistinctStarts(before: Bytes, pairs: seq<Pair>, replace: Replacer) {
    forall i, j | 0 <= i < j < |pairs| && replace(before, pairs[i]).Ok? && replace(before, pairs[j]).Ok? ::
      Difference(before, replace(before, pairs[i]).value.source).start
      != Difference(before, replace(before, pairs[j]).value.source).start
  }

  /** Where a pair takes hold and what it puts there, when it resolves. */
  ghost function EditOf(before: Bytes, p: Pair, replace: Replacer): Edit<Byte> {
    var r := replace(before, p);
    if r.Ok? then Difference(before, r.value.source) else Edit(0, 0, [])
  }

  function Mapped<A, B>(f: A -> B, s: seq<A>): seq<B> {
    seq(|s|, i requires 0 <= i < |s| => f(s[i]))
  }

  lemma {:induction false} MappedPermute<A, B>(f: A -> B, a: seq<A>, b: seq<A>)
    requires multiset(a) == multiset(b)
    ensures multiset(Mapped(f, a)) == multiset(Mapped(f, b))
    decreases |a|
  {
    assert |a| == |multiset(a)| == |multiset(b)| == |b|;
    if a != [] {
      assert a[0] in multiset(b);
      var i :| 0 <= i < |b| && b[i] == a[0];
      var b' := b[..i] + b[i + 1..];
      WithoutAt(a, 0, b, i);
      assert a[..0] + a[1..] == a[1..];
      MappedPermute(f, a[1..], b');
      MappedAround(f, a, 0);
      MappedAround(f, b, i);
    }
  }

  /** One element taken out. */
  lemma MappedAround<A, B>(f: A -> B, s: seq<A>, i: nat)
    requires i < |s|
    ensures multiset(Mapped(f, s)) == multiset{f(s[i])} + multiset(Mapped(f, s[..i] + s[i + 1..]))
  {
    var before, after := Mapped(f, s[..i]), Mapped(f, s[i + 1..]);
    assert Mapped(f, s) == before + [f(s[i])] + after;
    assert Mapped(f, s[..i] + s[i + 1..]) == before + after;
  }

  lemma WithoutAt<A>(a: seq<A>, i: nat, b: seq<A>, k: nat)
    requires multiset(a) == multiset(b) && i < |a| && k < |b| && a[i] == b[k]
    ensures multiset(a[..i] + a[i + 1..]) == multiset(b[..k] + b[k + 1..])
  {
    Without(a, i);
    Without(b, k);
  }

  lemma Without<A>(a: seq<A>, i: nat)
    requires i < |a|
    ensures multiset(a[..i] + a[i + 1..]) == multiset(a) - multiset{a[i]}
  {
    assert a == a[..i] + [a[i]] + a[i + 1..];
  }

  /** A batch's edits, in order of start, are its pairs' own edits. */
  lemma EditsOfBatch(before: Bytes, pairs: seq<Pair>, replace: Replacer, spans: seq<Located>, order: seq<Located>)
    requires Resolved(before, pairs, replace, spans) && Listing(spans, order)
    ensures multiset(Edits(order)) == multiset(Mapped(p => EditOf(before, p, replace), pairs))
  {
    var f := (p: Pair) => EditOf(before, p, replace);
    var g := (x: Located) => x.edit;
    assert Edits(spans) == Mapped(f, pairs);
    assert Mapped(g, spans) == Edits(spans) && Mapped(g, order) == Edits(order);
    MappedPermute(g, order, spans);
    assert Mapped(f, pairs) == Mapped(p => EditOf(before, p, replace), pairs);
  }

  lemma DistinctEdits(before: Bytes, pairs: seq<Pair>, replace: Replacer, spans: seq<Located>, order: seq<Located>)
    requires Resolved(before, pairs, replace, spans) && Listing(spans, order) && DistinctStarts(before, pairs, replace)
    ensures StrictlyOrdered(Edits(order))
  {
    assert forall k, l | 0 <= k < l < |spans| :: spans[k].edit.start != spans[l].edit.start;
    forall i, j | 0 <= i < j < |order| ensures order[i].edit.start != order[j].edit.start {
      var k, l := TwoOf(order, spans, i, j);
      assert spans[k].edit.start != spans[l].edit.start;
    }
  }

  /** Two places of one list are two places of any list of the same elements. */
  lemma TwoOf<A>(a: seq<A>, b: seq<A>, i: nat, j: nat) returns (k: nat, l: nat)
    requires multiset(a) == multiset(b) && i < j < |a|
    ensures k < |b| && l < |b| && k != l && b[k] == a[i] && b[l] == a[j]
  {
    assert a[i] in multiset(b);
    k :| 0 <= k < |b| && b[k] == a[i];
    WithoutAt(a, i, b, k);
    l := Elsewhere(a[..i] + a[i + 1..], b, k, j - 1);
  }

  lemma Elsewhere<A>(a': seq<A>, b: seq<A>, k: nat, j: nat) returns (l: nat)
    requires k < |b| && j < |a'| && multiset(a') == multiset(b[..k] + b[k + 1..])
    ensures l < |b| && l != k && b[l] == a'[j]
  {
    var b' := b[..k] + b[k + 1..];
    assert a'[j] in multiset(b');
    var m :| 0 <= m < |b'| && b'[m] == a'[j];
    l := if m < k then m else m + 1;
  }

  /** The order in which the pairs of a batch are listed does not show in its result. */
  lemma OrderIrrelevant(before: Bytes, pairs: seq<Pair>, pairs': seq<Pair>, replace: Replacer, source: Bytes,
                        source': Bytes)
    requires multiset(pairs) == multiset(pairs') && DistinctStarts(before, pairs, replace)
    requires Outcome(before, pairs, replace, source) && Outcome(before, pairs', replace, source')
    ensures source == source'
  {
    var spans, order :| OutcomeBy(before, pairs, replace, source, spans, order);
    var spans': seq<Located>, order': seq<Located> :| OutcomeBy(before, pairs', replace, source', spans', order');
    EditsOfBatch(before, pairs, replace, spans, order);
    EditsOfBatch(before, pairs', replace, spans', order');
    MappedPermute(p => EditOf(before, p, replace), pairs, pairs');
    DistinctEdits(before, pairs, replace, spans, order);
    forall i, j | 0 <= i < j < |Edits(order')| ensures Edits(order')[i].start < Edits(order')[j].start {
      var k, l := TwoOf(Edits(order'), Edits(order), i, j);
      assert Edits(order)[k].start != Edits(order)[l].start;
      assert order'[i].edit.start <= order'[j].edit.start;
    }
    OneOrder(Edits(order), Edits(order'));
  }

  ghost predicate AdjacentOverlap(order: seq<Located>) {
    exists i :: 0 < i < |order| && order[i].edit.start < order[i - 1].edit.end
  }

  ghost predicate SomeOverlap(before: Bytes, pairs: seq<Pair>, replace: Replacer) {
    exists p, q | p in pairs && q in pairs :: Overlapping(EditOf(before, p, replace), EditOf(before, q, replace))
  }

  /** With distinct starts a batch is refused for overlap exactly when some pair of edits overlaps. */
  lemma RefusedExactly(before: Bytes, pairs: seq<Pair>, replace: Replacer, spans: seq<Located>, order: seq<Located>)
    requires Resolved(before, pairs, replace, spans) && Listing(spans, order) && DistinctStarts(before, pairs, replace)
    ensures AdjacentOverlap(order) <==> SomeOverlap(before, pairs, replace)
  {
    if AdjacentOverlap(order) {
      AdjacentIsOverlap(before, pairs, replace, spans, order);
    } else {
      StaysWithin(before, pairs, replace, spans, order);
      AdjacentIsEnough(order, |before|);
      OrderedIsApart(before, pairs, replace, spans, order);
    }
  }

  lemma AdjacentIsOverlap(before: Bytes, pairs: seq<Pair>, replace: Replacer, spans: seq<Located>, order: seq<Located>)
    requires Resolved(before, pairs, replace, spans) && Listing(spans, order) && DistinctStarts(before, pairs, replace)
    requires AdjacentOverlap(order)
    ensures SomeOverlap(before, pairs, replace)
  {
    var i :| 0 < i < |order| && order[i].edit.start < order[i - 1].edit.end;
    DistinctEdits(before, pairs, replace, spans, order);
    assert Edits(order)[i - 1].start < Edits(order)[i].start;
    var k, l := TwoOf(order, spans, i - 1, i);
    assert pairs[k] in pairs && pairs[l] in pairs;
    assert Overlapping(EditOf(before, pairs[k], replace), EditOf(before, pairs[l], replace));
  }

  lemma OrderedIsApart(before: Bytes, pairs: seq<Pair>, replace: Replacer, spans: seq<Located>, order: seq<Located>)
    requires Resolved(before, pairs, replace, spans) && Listing(spans, order) && Ordered(Edits(order), |before|)
    ensures !SomeOverlap(before, pairs, replace)
  {
    forall p, q | p in pairs && q in pairs
      ensures !Overlapping(EditOf(before, p, replace), EditOf(before, q, replace))
    {
      var i := PlaceOf(before, pairs, replace, spans, order, p);
      var j := PlaceOf(before, pairs, replace, spans, order, q);
      assert Edits(order)[i] == EditOf(before, p, replace) && Edits(order)[j] == EditOf(before, q, replace);
    }
  }

  /** e begins inside d. */
  predicate Overlapping(d: Edit<Byte>, e: Edit<Byte>) {
    d.start < e.start < d.end
  }

  lemma PlaceOf(before: Bytes, pairs: seq<Pair>, replace: Replacer, spans: seq<Located>, order: seq<Located>, p: Pair)
    returns (i: nat)
    requires Resolved(before, pairs, replace, spans) && Listing(spans, order) && p in pairs
    ensures i < |order| && order[i].edit == EditOf(before, p, replace)
  {
    var k :| 0 <= k < |pairs| && pairs[k] == p;
    assert spans[k] in multiset(order);
    i :| 0 <= i < |order| && order[i] == spans[k];
  }

  // ---- several files ----

  datatype File = Regular(content: Bytes) | Symlink

  datatype FileEdit = FileEdit(path: string, pairs: seq<Pair>)

  datatype FileError =
    | NoEdits
    | Missing(path: string)
    | IsSymlink(path: string)
    | Unresolved(error: BatchError)
    | NotWritten(path: string)

  /** One file's planned content: an outcome of its batch against the file as it was read. */
  ghost predicate Planned(fs: map<string, File>, fe: FileEdit, replace: Replacer, after: Bytes) {
    && fe.pairs != [] && fe.path in fs && fs[fe.path].Regular?
    && Outcome(fs[fe.path].content, fe.pairs, replace, after)
  }

  method PlanFile(fs: map<string, File>, fe: FileEdit, replace: Replacer) returns (r: Result<Bytes, FileError>)
    ensures r.Ok? ==> Planned(fs, fe, replace, r.value)
    ensures r.Err? ==> !r.error.NotWritten? && !r.error.NoEdits?
    ensures r == Err(Missing(fe.path)) <==> fe.pairs != [] && fe.path !in fs
    ensures r == Err(IsSymlink(fe.path)) <==> fe.pairs != [] && fe.path in fs && fs[fe.path].Symlink?
  {
    if |fe.pairs| == 0 {
      return Err(Unresolved(NoPairs));
    }
    if fe.path !in fs {
      return Err(Missing(fe.path));
    }
    if fs[fe.path].Symlink? {
      return Err(IsSymlink(fe.path));
    }
    var out, spans, order := ApplyAll(fs[fe.path].content, fe.pairs, replace);
    if out.Err? {
      return Err(Unresolved(out.error));
    }
    assert OutcomeBy(fs[fe.path].content, fe.pairs, replace, out.value.source, spans, order);
    r := Ok(out.value.source);
  }

  /** Files as they are after the first n planned writes. */
  function Written(fs: map<string, File>, edits: seq<FileEdit>, after: seq<Bytes>, n: nat): map<string, File>
    requires n <= |edits| && n <= |after|
  {
    if n == 0 then fs else Written(fs, edits, after, n - 1)[edits[n - 1].path := Regular(after[n - 1])]
  }

  /** Files no edit names stay as they are; a file named once holds its own plan. A file named twice
      holds only the later plan, both having been made from the file as it was. */
  lemma WrittenFiles(fs: map<string, File>, edits: seq<FileEdit>, after: seq<Bytes>, n: nat, p: string)
    requires n <= |edits| && n <= |after|
    ensures (forall i | 0 <= i < n :: edits[i].path != p) ==>
              (p in Written(fs, edits, after, n) <==> p in fs) && (p in fs ==> Written(fs, edits, after, n)[p] == fs[p])
    ensures forall i | 0 <= i < n && edits[i].path == p && (forall j | i < j < n :: edits[j].path != p) ::
              p in Written(fs, edits, after, n) && Written(fs, edits, after, n)[p] == Regular(after[i])
  {
    if forall i | 0 <= i < n :: edits[i].path != p { WrittenElsewhere(fs, edits, after, n, p); }
    forall i | 0 <= i < n && edits[i].path == p && (forall j | i < j < n :: edits[j].path != p)
      ensures p in Written(fs, edits, after, n) && Written(fs, edits, after, n)[p] == Regular(after[i])
    {
      WrittenLast(fs, edits, after, n, i);
    }
  }

  lemma {:induction false} WrittenElsewhere(fs: map<string, File>, edits: seq<FileEdit>, after: seq<Bytes>, n: nat,
                                            p: string)
    requires n <= |edits| && n <= |after| && forall i | 0 <= i < n :: edits[i].path != p
    ensures (p in Written(fs, edits, after, n) <==> p in fs) && (p in fs ==> Written(fs, edits, after, n)[p] == fs[p])
  {
    if n > 0 { WrittenElsewhere(fs, edits, after, n - 1, p); }
  }

  lemma {:induction false} WrittenLast(fs: map<string, File>, edits: seq<FileEdit>, after: seq<Bytes>, n: nat, i: nat)
    requires i < n <= |edits| && n <= |after| && forall j | i < j < n :: edits[j].path != edits[i].path
    ensures edits[i].path in Written(fs, edits, after, n)
    ensures Written(fs, edits, after, n)[edits[i].path] == Regular(after[i])
  {
    if i < n - 1 { WrittenLast(fs, edits, after, n - 1, i); }
  }

  /** ApplyToFiles: every batch is resolved before the first write. writeFails says which writes the
      file system refuses. */
  method ApplyToFiles(fs: map<string, File>, edits: seq<FileEdit>, replace: Replacer, writeFails: string -> bool)
    returns (fs': map<string, File>, failure: Result<(), FileError>, ghost after: seq<Bytes>)
    ensures failure.Err? && !failure.error.NotWritten? ==> fs' == fs
    ensures failure.Ok? || failure.error.NotWritten? ==>
      |after| == |edits| > 0 && forall i | 0 <= i < |edits| :: Planned(fs, edits[i], replace, after[i])
    ensures failure.Ok? ==> fs' == Written(fs, edits, after, |edits|)
    ensures failure.Err? && failure.error.NotWritten? ==>
      exists n: nat :: n < |edits| && failure.error.path == edits[n].path && writeFails(edits[n].path)
                    && fs' == Written(fs, edits, after, n)
  {
    fs', after := fs, [];
    if |edits| == 0 {
      return fs, Err(NoEdits), after;
    }
    var planned: seq<Bytes> := [];
    for i := 0 to |edits|
      invariant |planned| == i && forall j | 0 <= j < i :: Planned(fs, edits[j], replace, planned[j])
    {
      var p := PlanFile(fs, edits[i], replace);
      if p.Err? {
        return fs, Err(p.error), after;
      }
      planned := planned + [p.value];
    }
    after := planned;
    for i := 0 to |edits|
      invariant fs' == Written(fs, edits, planned, i)
    {
      if writeFails(edits[i].path) {
        return fs', Err(NotWritten(edits[i].path)), after;
      }
      fs' := fs'[edits[i].path := Regular(planned[i])];
    }
    failure := Ok(());
  }

  // ---- the lines a change touched ----

  /** Lines from start to end of the new text are all that differ from the old, and their own ends do differ. */
  ghost predicate Spans(was: seq<Bytes>, now: seq<Bytes>, head: nat, tail: nat) {
    && head + tail <= |was| && head + tail <= |now|
    && (forall i | 0 <= i < head :: was[i] == now[i])
    && (forall i | |was| - tail <= i < |was| :: was[i] == now[i - |was| + |now|])
    && (head < |was| && head < |now| ==> was[head] != now[head])
    && (head + tail < |was| && head + tail < |now| ==> was[|was| - 1 - tail] != now[|now| - 1 - tail])
  }

  /** The scan changedSpan and Summarize make: equal lines from the front, then from the back. */
  method ScanLines(was: seq<Bytes>, now: seq<Bytes>) returns (head: nat, tail: nat)
    ensures Spans(was, now, head, tail)
    ensures head == |was| == |now| <==> was == now
  {
    head := 0;
    while head < |was| && head < |now| && was[head] == now[head]
      invariant head <= |was| && head <= |now| && forall i | 0 <= i < head :: was[i] == now[i]
    {
      head := head + 1;
    }
    tail := 0;
    while tail < |was| - head && tail < |now| - head && was[|was| - 1 - tail] == now[|now| - 1 - tail]
      invariant head + tail <= |was| && head + tail <= |now|
      invariant forall i | |was| - tail <= i < |was| :: was[i] == now[i - |was| + |now|]
    {
      tail := tail + 1;
    }
  }

  /** What is said of the lines between two scans that found the same lines on either side. */
  ghost predicate Reports(was: seq<Bytes>, now: seq<Bytes>, added: int, removed: int, range: seq<LineRange>) {
    exists head: nat, tail: nat ::
      Spans(was, now, head, tail) && added == |now| - head - tail && removed == |was| - head - tail
      && range == [LineRange(head + 1, if |now| - tail > head + 1 then |now| - tail else head + 1)]
  }

  /** Summarize: how many lines came and went between two texts, and where. */
  method Summarize(before: Bytes, after: Bytes) returns (added: nat, removed: nat, range: seq<LineRange>)
    ensures range == [] <==> before == after
    ensures before == after ==> added == 0 && removed == 0
    ensures before != after ==> Reports(Split(before), Split(after), added, removed, range)
  {
    var was, now := Split(before), Split(after);
    var head, tail := ScanLines(was, now);
    SplitSame(before, after);
    if head == |was| && head == |now| {
      return 0, 0, [];
    }
    added, removed := |now| - head - tail, |was| - head - tail;
    range := [LineRange(head + 1, if |now| - tail > head + 1 then |now| - tail else head + 1)];
  }

  lemma SplitSame(a: Bytes, b: Bytes)
    ensures Split(a) == Split(b) <==> a == b
  {
    JoinSplit(a);
    JoinSplit(b);
  }
}
