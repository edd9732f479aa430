/** Anchors that match line by line but for spacing (spliceFuzzy and spliceOverBlanks in internal/edit/replace.go). */
module EditFuzzy {
  import opened Outcomes
  import opened Text
  import opened Weave
  import opened EditTypes
  import opened EditReplace
  import opened EditLines

  // ---- where the anchor matches line by line ----

  /** blockMatches: the anchor's lines face these lines of the source, spacing apart. */
  predicate Faces(collapse: Collapse, lines: seq<Bytes>, anchor: seq<Bytes>, start: nat) {
    start + |anchor| <= |lines| && forall j | 0 <= j < |anchor| :: collapse(lines[start + j]) == collapse(anchor[j])
  }

  /** Every line the anchor matches from, first to last. */
  ghost predicate AllStarts(collapse: Collapse, lines: seq<Bytes>, anchor: seq<Bytes>, starts: seq<nat>) {
    && Rising(starts)
    && (forall s: nat :: s in starts <==> Faces(collapse, lines, anchor, s))
  }

  ghost predicate StartsBefore(collapse: Collapse, lines: seq<Bytes>, anchor: seq<Bytes>, i: nat, starts: seq<nat>) {
    && (forall x, y | 0 <= x < y < |starts| :: starts[x] < starts[y])
    && (forall s: nat :: s in starts <==> s < i && Faces(collapse, lines, anchor, s))
  }

  lemma StartsNext(collapse: Collapse, lines: seq<Bytes>, anchor: seq<Bytes>, i: nat, starts: seq<nat>)
    requires StartsBefore(collapse, lines, anchor, i, starts)
    ensures StartsBefore(collapse, lines, anchor, i + 1,
                         if Faces(collapse, lines, anchor, i) then starts + [i] else starts)
  {
    forall x | 0 <= x < |starts| ensures starts[x] < i { assert starts[x] in starts; }
    assert forall s: nat :: s in starts + [i] <==> s in starts || s == i;
  }

  method FuzzyMatches(collapse: Collapse, lines: seq<Bytes>, anchor: seq<Bytes>) returns (starts: seq<nat>)
    ensures AllStarts(collapse, lines, anchor, starts)
  {
    starts := [];
    var i := 0;
    while i + |anchor| <= |lines|
      invariant StartsBefore(collapse, lines, anchor, i, starts)
    {
      StartsNext(collapse, lines, anchor, i, starts);
      if Faces(collapse, lines, anchor, i) {
        starts := starts + [i];
      }
      i := i + 1;
    }
  }

  // ---- one match, reindented line by line ----

  lemma LeadingPrefix(l: Bytes)
    ensures Leading(l) <= l
  {
  }

  /** strings.TrimLeft of spaces and tabs. */
  function TrimLeft(l: Bytes): Bytes {
    LeadingPrefix(l);
    l[|Leading(l)|..]
  }

  /** The source line whose indentation the j-th replacement line takes: the one it faces, or the match's last. */
  function Facing(n: nat, j: nat): nat
    requires n > 0
  {
    if j < n then j else n - 1
  }

  function ReindentedAll(lines: seq<Bytes>, start: nat, n: nat, ls: seq<Bytes>): seq<Bytes>
    requires n > 0 && start + n <= |lines|
  {
    seq(|ls|, j requires 0 <= j < |ls| => Leading(lines[start + Facing(n, j)]) + TrimLeft(ls[j]))
  }

  function ReindentedText(lines: seq<Bytes>, start: nat, n: nat, text: Bytes): seq<Bytes>
    requires n > 0 && start + n <= |lines|
  {
    ReindentedAll(lines, start, n, NewLines(text))
  }

  function ReindentEdit(lines: seq<Bytes>, start: nat, n: nat, text: Bytes): Edit<Bytes>
    requires n > 0 && start + n <= |lines|
  {
    Edit(start, start + n, ReindentedText(lines, start, n, text))
  }

  /** The one edit there is, made and told of. */
  ghost predicate ReplacesOne(lines: seq<Bytes>, edit: Edit<Bytes>, text: Bytes, r: Splice) {
    && edit.start < edit.end <= |lines| && ReplacesLines(lines, [edit], text, r)
    && |r.ranges| == r.matches == 1 && r.added == CountLines(text) && r.removed == edit.end - edit.start
  }

  lemma OneEdit(lines: seq<Bytes>, edit: Edit<Bytes>, text: Bytes, r: Splice)
    requires edit.start < edit.end <= |lines| && r.source == Join(Spliced(lines, edit))
    requires r.ranges == [RangeOf(edit.start + 1, CountLines(text))] && r.matches == 1
    requires r.added == CountLines(text) && r.removed == edit.end - edit.start
    ensures ReplacesOne(lines, edit, text, r)
  {
    assert [edit][1..] == [];
    assert Woven(lines, [edit], 0) == Spliced(lines, edit);
    assert Built(lines, [edit], 0) == [] && Front(lines, [edit], 0) == lines[0..edit.start];
  }

  method SpliceReindented(lines: seq<Bytes>, start: nat, n: nat, text: Bytes) returns (r: Splice)
    requires n > 0 && start + n <= |lines|
    ensures ReplacesOne(lines, ReindentEdit(lines, start, n, text), text, r)
  {
    var newLines := NewLines(text);
    var reindented: seq<Bytes> := [];
    for j := 0 to |newLines|
      invariant |reindented| == j
      invariant forall k | 0 <= k < j :: reindented[k] == Leading(lines[start + Facing(n, k)]) + TrimLeft(newLines[k])
    {
      var indent := Leading(lines[start + n - 1]);
      if j < n {
        indent := Leading(lines[start + j]);
      }
      reindented := reindented + [indent + TrimLeft(newLines[j])];
    }
    assert reindented == ReindentedText(lines, start, n, text);
    SplitLines(text);
    r := Splice(Join(lines[..start] + reindented + lines[start + n..]),
                [RangeOf(start + 1, |newLines|)], |newLines|, n, 1);
    OneEdit(lines, ReindentEdit(lines, start, n, text), text, r);
  }

  // ---- several matches ----

  function BlockSpans(starts: seq<nat>, n: nat): seq<Span>
    requires n > 0
  {
    seq(|starts|, i requires 0 <= i < |starts| => Span(starts[i], starts[i] + n - 1))
  }

  function LineNumbers(starts: seq<nat>): seq<nat> {
    seq(|starts|, i requires 0 <= i < |starts| => starts[i] + 1)
  }

  /** Replacing all of several spans, or running out of lines on the way. */
  ghost predicate AnswersAll(collapse: Collapse, lines: seq<Bytes>, anchor: seq<Bytes>, text: Bytes, spans: seq<Span>,
                             r: Result<Splice, ReplaceError>)
  {
    && Found(spans, |lines|)
    && EveryAnswer(collapse, lines, anchor, text, spans, if r.Ok? then Some(r.value) else None)
    && (r.Err? ==> r == Err(Panics))
  }

  method SpliceAll(collapse: Collapse, lines: seq<Bytes>, anchor: seq<Bytes>, text: Bytes, spans: seq<Span>)
    returns (r: Result<Splice, ReplaceError>)
    requires lines != [] && Lines(lines) && Found(spans, |lines|)
    ensures AnswersAll(collapse, lines, anchor, text, spans, r)
  {
    var every := SpliceEverySpan(collapse, lines, anchor, text, spans);
    r := if every.Some? then Ok(every.value) else Err(Panics);
  }

  // ---- spans over blank lines the anchor lacks ----

  /** Every span the anchor covers, by its start. */
  ghost predicate AllSpans(collapse: Collapse, lines: seq<Bytes>, wanted: seq<Bytes>, spans: seq<Span>) {
    && Found(spans, |lines|)
    && (forall s :: s in spans <==> Covers(collapse, lines, wanted, s))
  }

  lemma WantedLines(collapse: Collapse, anchor: seq<Bytes>)
    ensures forall k | 0 <= k < |NonBlank(collapse, anchor)| :: NonBlank(collapse, anchor)[k] != []
  {
  }

  /** The spans that begin before line i. */
  ghost predicate SpansBefore(collapse: Collapse, lines: seq<Bytes>, wanted: seq<Bytes>, i: nat, spans: seq<Span>) {
    && Found(spans, |lines|) && (forall k | 0 <= k < |spans| :: spans[k].start < i)
    && (forall s :: s in spans <==> s.start < i && Covers(collapse, lines, wanted, s))
  }

  lemma SpansBeforeNext(collapse: Collapse, lines: seq<Bytes>, wanted: seq<Bytes>, i: nat, spans: seq<Span>, end: nat)
    requires SpansBefore(collapse, lines, wanted, i, spans) && Covers(collapse, lines, wanted, Span(i, end))
    ensures SpansBefore(collapse, lines, wanted, i + 1, spans + [Span(i, end)])
  {
    forall s ensures s in spans + [Span(i, end)] <==> s.start < i + 1 && Covers(collapse, lines, wanted, s) {
      if s.start == i && Covers(collapse, lines, wanted, s) { CoversOnce(collapse, lines, wanted, s, Span(i, end)); }
    }
  }

  lemma SpansBeforeSkip(collapse: Collapse, lines: seq<Bytes>, wanted: seq<Bytes>, i: nat, spans: seq<Span>)
    requires SpansBefore(collapse, lines, wanted, i, spans) && Unmatched(collapse, lines, wanted, i)
    ensures SpansBefore(collapse, lines, wanted, i + 1, spans)
  {
    forall s ensures s in spans <==> s.start < i + 1 && Covers(collapse, lines, wanted, s) {
      assert s == Span(s.start, s.end);
    }
  }

  method SpansOverBlanks(collapse: Collapse, lines: seq<Bytes>, wanted: seq<Bytes>) returns (spans: seq<Span>)
    requires wanted != [] && forall k | 0 <= k < |wanted| :: wanted[k] != []
    ensures AllSpans(collapse, lines, wanted, spans)
  {
    spans := [];
    for i := 0 to |lines|
      invariant SpansBefore(collapse, lines, wanted, i, spans)
    {
      var ok, end := SpanOverBlanks(collapse, lines, wanted, i);
      if ok {
        SpansBeforeNext(collapse, lines, wanted, i, spans, end);
        spans := spans + [Span(i, end)];
      } else {
        SpansBeforeSkip(collapse, lines, wanted, i, spans);
      }
    }
  }

  function StartLines(spans: seq<Span>): seq<nat> {
    seq(|spans|, i requires 0 <= i < |spans| => spans[i].start + 1)
  }

  ghost predicate OverBlanksAnswers(collapse: Collapse, lines: seq<Bytes>, anchor: seq<Bytes>, text: Bytes, all: bool,
                                    spans: seq<Span>, r: Result<Splice, ReplaceError>)
  {
    && Found(spans, |lines|)
    && (NonBlank(collapse, anchor) != [] ==> AllSpans(collapse, lines, NonBlank(collapse, anchor), spans))
    && (NonBlank(collapse, anchor) == [] ==> spans == [])
    && (spans == [] ==> r == Err(NotFound))
    && (|spans| == 1 ==> r.Ok? && ReplacesOne(lines, LineEdit(collapse, lines, anchor, text, spans[0]), text, r.value))
    && (|spans| > 1 && all ==> AnswersAll(collapse, lines, anchor, text, spans, r))
    && (|spans| > 1 && !all ==> r == Err(NotUnique(StartLines(spans))))
  }

  /** spliceOverBlanks: as for exact matches, by spans that may hold blank lines. */
  method SpliceOverBlanks(collapse: Collapse, lines: seq<Bytes>, anchor: seq<Bytes>, text: Bytes, all: bool)
    returns (r: Result<Splice, ReplaceError>)
    requires lines != [] && Lines(lines)
    ensures exists spans :: OverBlanksAnswers(collapse, lines, anchor, text, all, spans, r)
  {
    var wanted := NonBlank(collapse, anchor);
    if wanted == [] {
      r := Err(NotFound);
      assert OverBlanksAnswers(collapse, lines, anchor, text, all, [], r);
      return;
    }
    WantedLines(collapse, anchor);
    var spans := SpansOverBlanks(collapse, lines, wanted);
    if |spans| == 0 {
      r := Err(NotFound);
    } else if |spans| == 1 {
      var one := SpliceSpan(collapse, lines, anchor, text, spans[0]);
      SplitLines(text);
      r := Ok(one.(ranges := [RangeOf(spans[0].start + 1, one.added)]));
      OneEdit(lines, LineEdit(collapse, lines, anchor, text, spans[0]), text, r.value);
    } else if all {
      r := SpliceAll(collapse, lines, anchor, text, spans);
    } else {
      r := Err(NotUnique(StartLines(spans)));
    }
    assert OverBlanksAnswers(collapse, lines, anchor, text, all, spans, r);
  }

  // ---- spliceFuzzy ----

  ghost predicate FuzzyAnswers(collapse: Collapse, lines: seq<Bytes>, anchor: seq<Bytes>, text: Bytes, all: bool,
                               starts: seq<nat>, r: Result<Splice, ReplaceError>)
  {
    && anchor != [] && AllStarts(collapse, lines, anchor, starts)
    && (starts == [] ==> exists spans :: OverBlanksAnswers(collapse, lines, anchor, text, all, spans, r))
    && (|starts| == 1 ==>
          && starts[0] + |anchor| <= |lines| && r.Ok?
          && ReplacesOne(lines, ReindentEdit(lines, starts[0], |anchor|, text), text, r.value))
    && (|starts| > 1 && all ==> AnswersAll(collapse, lines, anchor, text, BlockSpans(starts, |anchor|), r))
    && (|starts| > 1 && !all ==> r == Err(NotUnique(LineNumbers(starts))))
  }

  lemma BlocksFound(collapse: Collapse, lines: seq<Bytes>, anchor: seq<Bytes>, starts: seq<nat>)
    requires anchor != [] && AllStarts(collapse, lines, anchor, starts)
    ensures Found(BlockSpans(starts, |anchor|), |lines|)
    ensures forall i | 0 <= i < |starts| :: starts[i] + |anchor| <= |lines|
  {
    forall i | 0 <= i < |starts| ensures starts[i] + |anchor| <= |lines| {
      assert starts[i] in starts;
    }
  }

  method SpliceFuzzy(collapse: Collapse, source: Bytes, pat: Bytes, text: Bytes, all: bool)
    returns (r: Result<Splice, ReplaceError>)
    ensures exists starts :: FuzzyAnswers(collapse, Split(source), Split(pat), text, all, starts, r)
  {
    var lines, anchor := Split(source), Split(pat);
    SplitLines(source);
    var starts := FuzzyMatches(collapse, lines, anchor);
    BlocksFound(collapse, lines, anchor, starts);
    if |starts| == 0 {
      r := SpliceOverBlanks(collapse, lines, anchor, text, all);
    } else if |starts| == 1 {
      var one := SpliceReindented(lines, starts[0], |anchor|, text);
      r := Ok(one);
    } else if all {
      r := SpliceAll(collapse, lines, anchor, text, BlockSpans(starts, |anchor|));
    } else {
      r := Err(NotUnique(LineNumbers(starts)));
    }
    assert FuzzyAnswers(collapse, lines, anchor, text, all, starts, r);
  }

  // ---- the two ways to reindent ----

  ghost predicate AllSpacing(l: Bytes) {
    forall i | 0 <= i < |l| :: Spacing(l[i])
  }

  lemma {:induction false} LeadingSpacing(l: Bytes)
    ensures AllSpacing(Leading(l)) && (|Leading(l)| < |l| ==> !Spacing(l[|Leading(l)|]))
  {
    if l != [] && Spacing(l[0]) { LeadingSpacing(l[1..]); }
  }

  lemma {:induction false} FirstIndentSpacing(collapse: Collapse, lines: seq<Bytes>)
    ensures AllSpacing(FirstIndent(collapse, lines))
  {
    if lines != [] {
      LeadingSpacing(lines[0]);
      FirstIndentSpacing(collapse, lines[1..]);
    }
  }

  /** The indentation a replacement line has once shifted from one indentation to another. */
  function ShiftedIndent(collapse: Collapse, from: Bytes, to: Bytes, l: Bytes): Bytes {
    if Blank(collapse, l) then Leading(l) else to + TrimPrefix(Leading(l), from)
  }

  /** Spacing a line opens with is spacing its indentation opens with. */
  lemma {:induction false} SpacingLeads(from: Bytes, l: Bytes)
    requires AllSpacing(from)
    ensures from <= l <==> from <= Leading(l)
  {
    LeadingPrefix(l);
    if from != [] && l != [] && from[0] == l[0] {
      SpacingLeads(from[1..], l[1..]);
      assert from == [from[0]] + from[1..] && l == [l[0]] + l[1..];
      assert from <= l <==> from[1..] <= l[1..];
      assert Leading(l)[1..] == Leading(l[1..]);
      assert from <= Leading(l) <==> from[1..] <= Leading(l[1..]);
    }
  }

  lemma ShiftsIndent(collapse: Collapse, from: Bytes, to: Bytes, l: Bytes)
    requires AllSpacing(from)
    ensures ShiftedLine(collapse, from, to, l) == ShiftedIndent(collapse, from, to, l) + TrimLeft(l)
  {
    LeadingPrefix(l);
    SpacingLeads(from, l);
    assert l == Leading(l) + TrimLeft(l);
    assert TrimPrefix(l, from) == TrimPrefix(Leading(l), from) + TrimLeft(l);
  }

  /** Shifted from one indentation to another, the j-th replacement line has the indentation of the line it faces. */
  ghost predicate AlikeAt(collapse: Collapse, from: Bytes, lines: seq<Bytes>, start: nat, n: nat, ls: seq<Bytes>,
                          j: nat)
    requires n > 0 && start + n <= |lines| && j < |ls|
  {
    ShiftedIndent(collapse, from, Leading(lines[start]), ls[j]) == Leading(lines[start + Facing(n, j)])
  }

  ghost predicate Alike(collapse: Collapse, from: Bytes, lines: seq<Bytes>, start: nat, n: nat, ls: seq<Bytes>)
    requires n > 0 && start + n <= |lines|
  {
    forall j: nat | j < |ls| :: AlikeAt(collapse, from, lines, start, n, ls, j)
  }

  lemma IndentDecides(collapse: Collapse, from: Bytes, to: Bytes, indent: Bytes, l: Bytes)
    requires AllSpacing(from)
    ensures ShiftedLine(collapse, from, to, l) == indent + TrimLeft(l)
            <==> ShiftedIndent(collapse, from, to, l) == indent
  {
    ShiftsIndent(collapse, from, to, l);
    SameEnd(ShiftedIndent(collapse, from, to, l), indent, TrimLeft(l));
  }

  lemma AllAlike(collapse: Collapse, from: Bytes, lines: seq<Bytes>, start: nat, n: nat, ls: seq<Bytes>)
    requires AllSpacing(from) && n > 0 && start + n <= |lines|
    ensures ShiftedAll(collapse, from, Leading(lines[start]), ls) == ReindentedAll(lines, start, n, ls)
       <==> Alike(collapse, from, lines, start, n, ls)
  {
    var shifted, reindented := ShiftedAll(collapse, from, Leading(lines[start]), ls),
      ReindentedAll(lines, start, n, ls);
    SameThroughout(shifted, reindented);
    forall j: nat | j < |ls| ensures shifted[j] == reindented[j] <==> AlikeAt(collapse, from, lines, start, n, ls, j) {
      IndentDecides(collapse, from, Leading(lines[start]), Leading(lines[start + Facing(n, j)]), ls[j]);
    }
  }

  lemma SameThroughout<T>(a: seq<T>, b: seq<T>)
    requires |a| == |b|
    ensures a == b <==> forall j: nat | j < |a| :: a[j] == b[j]
  {
  }

  /** A match reindented as one of several is what it is reindented as alone exactly when every replacement line,
      shifted, has the indentation of the line it faces. */
  lemma ReindentedAlike(collapse: Collapse, lines: seq<Bytes>, anchor: seq<Bytes>, text: Bytes, start: nat)
    requires anchor != [] && start + |anchor| <= |lines|
    ensures LineEdit(collapse, lines, anchor, text, Span(start, start + |anchor| - 1))
            == ReindentEdit(lines, start, |anchor|, text)
       <==> Alike(collapse, FirstIndent(collapse, anchor), lines, start, |anchor|, NewLines(text))
  {
    FirstIndentSpacing(collapse, anchor);
    AllAlike(collapse, FirstIndent(collapse, anchor), lines, start, |anchor|, NewLines(text));
  }

  lemma SameEnd(a: Bytes, b: Bytes, end: Bytes)
    ensures a + end == b + end <==> a == b
  {
    if a + end == b + end {
      assert a == (a + end)[..|a + end| - |end|] && b == (b + end)[..|b + end| - |end|];
    }
  }

  /** A line of one letter is told from one of another, and from a blank one; spacing ahead of it is not told. */
  ghost predicate Tells(collapse: Collapse) {
    && collapse([97]) != collapse([98]) && collapse([97]) != [] && collapse([99]) != [] && collapse([100]) != []
    && collapse([32, 97]) == collapse([97]) && collapse([32, 32, 98]) == collapse([98])
  }

  const LINE_A: Bytes := [32, 97]
  const LINE_B: Bytes := [32, 32, 98]
  const FLUSH: seq<Bytes> := [[97], [98]]
  const TWO_LINES: Bytes := [99, LF, 100]

  /** It happens: lines a and b, b indented further, give way to lines c and d, both flush. Found once, d is put under
      b. */
  lemma ReindentedAlone(collapse: Collapse, all: bool, starts: seq<nat>, r: Result<Splice, ReplaceError>)
    requires Tells(collapse) && FuzzyAnswers(collapse, [LINE_A, LINE_B], FLUSH, TWO_LINES, all, starts, r)
    ensures r.Ok? && r.value.source == Join([[32, 99], [32, 32, 100]])
  {
    OnceFaced(collapse);
    OnlyStart(starts, 0);
    OneAnswered(collapse, [LINE_A, LINE_B], FLUSH, TWO_LINES, all, r);
    Alone(LINE_A, LINE_B);
  }

  /** An anchor of two lines found at the first of two gives way to all of the result. */
  lemma OneAnswered(collapse: Collapse, lines: seq<Bytes>, anchor: seq<Bytes>, text: Bytes, all: bool,
                    r: Result<Splice, ReplaceError>)
    requires |lines| == |anchor| == 2 && FuzzyAnswers(collapse, lines, anchor, text, all, [0], r)
    ensures r.Ok? && r.value.source == Join(ReindentedText(lines, 0, 2, text))
  {
    var edit := ReindentEdit(lines, 0, 2, text);
    assert [edit][1..] == [];
    assert Woven(lines, [edit], 0) == edit.text;
  }

  lemma OnceFaced(collapse: Collapse)
    requires Tells(collapse)
    ensures forall s: nat :: Faces(collapse, [LINE_A, LINE_B], FLUSH, s) <==> s == 0
  {
    assert Faces(collapse, [LINE_A, LINE_B], FLUSH, 0);
  }

  /** Found twice, and replaced in both places, it is put under a each time. */
  lemma ReindentedApart(collapse: Collapse, starts: seq<nat>, r: Result<Splice, ReplaceError>)
    requires Tells(collapse)
    requires FuzzyAnswers(collapse, [LINE_A, LINE_B, LINE_A, LINE_B], FLUSH, TWO_LINES, true, starts, r)
    ensures r.Ok? && r.value.source == Join([[32, 99], [32, 100], [32, 99], [32, 100]])
  {
    TwiceFaced(collapse);
    TwoStarts(starts, 0, 2);
    TwoAnswered(collapse, [LINE_A, LINE_B, LINE_A, LINE_B], FLUSH, TWO_LINES, r);
    TwoEdits(collapse);
    var text: seq<Bytes> := [[32, 99], [32, 100]];
    WovenTwice([LINE_A, LINE_B, LINE_A, LINE_B], text);
    assert text + text == [[32, 99], [32, 100], [32, 99], [32, 100]];
  }

  lemma TwoAnswered(collapse: Collapse, lines: seq<Bytes>, anchor: seq<Bytes>, text: Bytes,
                    r: Result<Splice, ReplaceError>)
    requires |lines| == 4 && |anchor| == 2 && FuzzyAnswers(collapse, lines, anchor, text, true, [0, 2], r)
    ensures var edits := LineEdits(collapse, lines, anchor, text, [Span(0, 1), Span(2, 3)]);
      r.Ok? && Ordered(edits, 4) && r.value.source == Join(Woven(lines, edits, 0))
  {
    Two(BlockSpans([0, 2], 2), Span(0, 1), Span(2, 3));
    assert SpansIn([Span(0, 1), Span(2, 3)], |lines|);
  }

  lemma TwoEdits(collapse: Collapse)
    requires Tells(collapse)
    ensures var text: seq<Bytes> := [[32, 99], [32, 100]];
      LineEdits(collapse, [LINE_A, LINE_B, LINE_A, LINE_B], FLUSH, TWO_LINES, [Span(0, 1), Span(2, 3)])
      == [Edit(0, 2, text), Edit(2, 4, text)]
  {
    AmongSeveral(collapse, [97], [98]);
    Indented(97);
    var text: seq<Bytes> := [[32, 99], [32, 100]];
    Two(LineEdits(collapse, [LINE_A, LINE_B, LINE_A, LINE_B], FLUSH, TWO_LINES, [Span(0, 1), Span(2, 3)]),
        Edit(0, 2, text), Edit(2, 4, text));
  }

  lemma TwiceFaced(collapse: Collapse)
    requires Tells(collapse)
    ensures var lines := [LINE_A, LINE_B, LINE_A, LINE_B];
      forall s: nat :: Faces(collapse, lines, FLUSH, s) <==> s == 0 || s == 2
  {
    var lines := [LINE_A, LINE_B, LINE_A, LINE_B];
    assert Faces(collapse, lines, FLUSH, 0) && Faces(collapse, lines, FLUSH, 2);
    assert collapse(lines[1 + 0]) != collapse(FLUSH[0]);
    assert !Faces(collapse, lines, FLUSH, 1);
  }

  lemma WovenTwice(lines: seq<Bytes>, text: seq<Bytes>)
    requires |lines| == 4
    ensures Woven(lines, [Edit(0, 2, text), Edit(2, 4, text)], 0) == text + text
  {
    var edits := [Edit(0, 2, text), Edit(2, 4, text)];
    assert edits[1..] == [Edit(2, 4, text)] && edits[1..][1..] == [];
    assert Woven(lines, edits[1..], 2) == text;
  }

  ghost predicate Rising(starts: seq<nat>) {
    forall i, j | 0 <= i < j < |starts| :: starts[i] < starts[j]
  }

  lemma Member(starts: seq<nat>, i: nat)
    requires i < |starts|
    ensures starts[i] in starts
  {
  }

  lemma OnlyStart(starts: seq<nat>, a: nat)
    requires Rising(starts) && forall s: nat :: s in starts <==> s == a
    ensures starts == [a]
  {
    assert a in starts;
    var i: nat :| i < |starts| && starts[i] == a;
    Member(starts, 0);
    Member(starts, |starts| - 1);
  }

  lemma TwoStarts(starts: seq<nat>, a: nat, b: nat)
    requires a < b && Rising(starts) && forall s: nat :: s in starts <==> s == a || s == b
    ensures starts == [a, b]
  {
    assert a in starts && b in starts;
    var i: nat :| i < |starts| && starts[i] == a;
    var j: nat :| j < |starts| && starts[j] == b;
    Member(starts, 0);
    Member(starts, 1);
    Member(starts, |starts| - 1);
    assert i < j;
  }

  /** It happens: an anchor of two equal lines, against three of them and replaced by nothing, is found twice, and the
      source panics. */
  lemma OverlapPanics(collapse: Collapse, l: Bytes, x: Bytes, starts: seq<nat>, r: Result<Splice, ReplaceError>)
    requires collapse(x) == collapse(l) != [] && OneLine(l)
    requires FuzzyAnswers(collapse, [l, l, l], [x, x], [], true, starts, r)
    ensures r == Err(Panics)
  {
    var lines := [l, l, l];
    assert forall s: nat :: Faces(collapse, lines, [x, x], s) <==> s == 0 || s == 1;
    TwoStarts(starts, 0, 1);
    Two(BlockSpans(starts, 2), Span(0, 1), Span(1, 2));
    OverlapsRunOut(collapse, l, [x, x]);
  }

  lemma Alone(a: Bytes, b: Bytes)
    requires a == [32, 97] && b == [32, 32, 98]
    ensures ReindentedText([a, b], 0, 2, [99, LF, 100]) == [[32, 99], [32, 32, 100]]
  {
    TwoLines(99, 100);
    Indented(97);
    Indented(98);
    Flush(99);
    Flush(100);
    var r := ReindentedText([a, b], 0, 2, [99, LF, 100]);
    var c: Bytes, d: Bytes := [32, 99], [32, 32, 100];
    assert c == [32] + [99] && d == [32, 32] + [100];
    Two(r, c, d);
  }

  lemma AmongSeveral(collapse: Collapse, a: Bytes, b: Bytes)
    requires collapse([99]) != [] && collapse([100]) != [] && collapse(a) != [] && a == [97]
    ensures ShiftedText(collapse, FirstIndent(collapse, [a, b]), [32], [99, LF, 100]) == [[32, 99], [32, 100]]
  {
    TwoLines(99, 100);
    Flush(97);
    assert FirstIndent(collapse, [a, b]) == [];
    var s := ShiftedText(collapse, [], [32], [99, LF, 100]);
    var c: Bytes, d: Bytes := [32, 99], [32, 100];
    assert c == [32] + [99] && d == [32] + [100];
    Two(s, c, d);
  }

  lemma Two<T>(s: seq<T>, a: T, b: T)
    requires |s| == 2 && s[0] == a && s[1] == b
    ensures s == [a, b]
  {
  }

  lemma TwoLines(a: Byte, b: Byte)
    requires a != LF && b != LF
    ensures NewLines([a, LF, b]) == [[a], [b]]
  {
    SplitOneLine([a]);
    SplitAfter([a], [b]);
    assert [a] + [LF] + [b] == [a, LF, b];
  }

  lemma Flush(b: Byte)
    requires !Spacing(b)
    ensures Leading([b]) == [] && TrimLeft([b]) == [b]
  {
  }

  lemma Indented(b: Byte)
    requires !Spacing(b)
    ensures Leading([32, b]) == [32] && Leading([32, 32, b]) == [32, 32]
  {
    assert [32, b][1..] == [b] && [32, 32, b][1..] == [32, b];
  }
}
