/** Replacing whole lines by an anchor whose spacing the source does not share (internal/edit/replace.go). */
module EditLines {
  import opened Outcomes
  import opened Text
  import opened Weave
  import opened EditTypes
  import opened EditReplace

  /** collapseSpacing: a line trimmed, with each run of spacing inside it made one space. */
  type Collapse = Bytes -> Bytes

  /** Lines start to end of the source, both included, counted from 0. */
  datatype Span = Span(start: nat, end: nat)

  predicate Blank(collapse: Collapse, l: Bytes) {
    collapse(l) == []
  }

  // ---- where an anchor sits when the source holds more blank lines ----

  /** What is left of the lines once collapsed, the blank ones dropped. */
  function NonBlank(collapse: Collapse, lines: seq<Bytes>): seq<Bytes> {
    if lines == [] then []
    else
      var before, l := NonBlank(collapse, lines[..|lines| - 1]), collapse(lines[|lines| - 1]);
      if l == [] then before else before + [l]
  }

  /** The anchor's lines are the lines of this span that are not blank, its first and last among them. */
  ghost predicate Covers(collapse: Collapse, lines: seq<Bytes>, wanted: seq<Bytes>, span: Span) {
    && span.start <= span.end < |lines|
    && !Blank(collapse, lines[span.start]) && !Blank(collapse, lines[span.end])
    && NonBlank(collapse, lines[span.start..span.end + 1]) == wanted
  }

  lemma NonBlankAppend(collapse: Collapse, lines: seq<Bytes>, from: nat, to: nat)
    requires from <= to < |lines|
    ensures NonBlank(collapse, lines[from..to + 1])
         == NonBlank(collapse, lines[from..to]) + if Blank(collapse, lines[to]) then [] else [collapse(lines[to])]
  {
    assert lines[from..to + 1][..to - from] == lines[from..to];
  }

  lemma {:induction false} NonBlankGrows(collapse: Collapse, lines: seq<Bytes>, from: nat, mid: nat, to: nat)
    requires from <= mid <= to <= |lines|
    ensures NonBlank(collapse, lines[from..mid]) <= NonBlank(collapse, lines[from..to])
  {
    if mid < to {
      NonBlankGrows(collapse, lines, from, mid, to - 1);
      NonBlankAppend(collapse, lines, from, to - 1);
    }
  }

  /** A start has at most one end: past it the span holds one more line that is not blank. */
  lemma CoversOnce(collapse: Collapse, lines: seq<Bytes>, wanted: seq<Bytes>, a: Span, b: Span)
    requires Covers(collapse, lines, wanted, a) && Covers(collapse, lines, wanted, b) && a.start == b.start
    ensures a == b
  {
    if a.end < b.end { OneMoreLine(collapse, lines, a.start, a.end + 1, b.end); }
    if b.end < a.end { OneMoreLine(collapse, lines, a.start, b.end + 1, a.end); }
  }

  lemma OneMoreLine(collapse: Collapse, lines: seq<Bytes>, from: nat, mid: nat, to: nat)
    requires from <= mid <= to < |lines| && !Blank(collapse, lines[to])
    ensures |NonBlank(collapse, lines[from..mid])| < |NonBlank(collapse, lines[from..to + 1])|
  {
    NonBlankGrows(collapse, lines, from, mid, to);
    NonBlankAppend(collapse, lines, from, to);
  }

  /** The next line from i on that is not blank, or the end of the source. */
  method SkipBlank(collapse: Collapse, lines: seq<Bytes>, start: nat, i: nat) returns (j: nat)
    requires start <= i <= |lines|
    ensures i <= j <= |lines| && NonBlank(collapse, lines[start..j]) == NonBlank(collapse, lines[start..i])
    ensures j < |lines| ==> !Blank(collapse, lines[j])
    ensures i < |lines| && !Blank(collapse, lines[i]) ==> j == i
  {
    j := i;
    while j < |lines| && Blank(collapse, lines[j])
      invariant i <= j <= |lines| && NonBlank(collapse, lines[start..j]) == NonBlank(collapse, lines[start..i])
      invariant i < |lines| && !Blank(collapse, lines[i]) ==> j == i
    {
      NonBlankAppend(collapse, lines, start, j);
      j := j + 1;
    }
  }

  ghost predicate Unmatched(collapse: Collapse, lines: seq<Bytes>, wanted: seq<Bytes>, start: nat) {
    forall e: nat :: !Covers(collapse, lines, wanted, Span(start, e))
  }

  /** The first k wanted lines were matched from start on, the last of them just before i. */
  ghost predicate Matched(collapse: Collapse, lines: seq<Bytes>, wanted: seq<Bytes>, start: nat, k: nat, i: nat) {
    && start <= i <= |lines| && k <= |wanted|
    && NonBlank(collapse, lines[start..i]) == wanted[..k]
    && (k == 0 ==> i == start)
    && (k > 0 ==> start < i && !Blank(collapse, lines[i - 1]))
  }

  lemma MatchedNext(collapse: Collapse, lines: seq<Bytes>, wanted: seq<Bytes>, start: nat, k: nat, i: nat, j: nat)
    requires Matched(collapse, lines, wanted, start, k, i) && k < |wanted| && wanted[k] != []
    requires i <= j < |lines| && NonBlank(collapse, lines[start..j]) == NonBlank(collapse, lines[start..i])
    requires collapse(lines[j]) == wanted[k]
    ensures Matched(collapse, lines, wanted, start, k + 1, j + 1)
  {
    NonBlankAppend(collapse, lines, start, j);
    assert wanted[..k + 1] == wanted[..k] + [wanted[k]];
  }

  /** spanOverBlanks: the end of the anchor matched from start, when there is one. */
  method SpanOverBlanks(collapse: Collapse, lines: seq<Bytes>, wanted: seq<Bytes>, start: nat)
    returns (ok: bool, end: nat)
    requires wanted != [] && (forall k | 0 <= k < |wanted| :: wanted[k] != []) && start < |lines|
    ensures if ok then Covers(collapse, lines, wanted, Span(start, end)) else Unmatched(collapse, lines, wanted, start)
  {
    if collapse(lines[start]) != wanted[0] {
      WrongFirst(collapse, lines, wanted, start);
      return false, 0;
    }
    var i := start;
    end := start;
    for k := 0 to |wanted|
      invariant Matched(collapse, lines, wanted, start, k, i) && (k > 0 ==> end == i - 1)
    {
      var more, j := NextWanted(collapse, lines, wanted, start, k, i);
      if !more {
        return false, 0;
      }
      end, i := j, j + 1;
    }
    ok := true;
    MatchedAll(collapse, lines, wanted, start, i);
  }

  /** The next line that is not blank, if it is the one wanted. */
  method NextWanted(collapse: Collapse, lines: seq<Bytes>, wanted: seq<Bytes>, start: nat, k: nat, i: nat)
    returns (ok: bool, j: nat)
    requires k < |wanted| && wanted[k] != [] && Matched(collapse, lines, wanted, start, k, i)
    ensures if ok then Matched(collapse, lines, wanted, start, k + 1, j + 1)
            else Unmatched(collapse, lines, wanted, start)
  {
    j := SkipBlank(collapse, lines, start, i);
    if j >= |lines| || collapse(lines[j]) != wanted[k] {
      WrongNext(collapse, lines, wanted, start, j, k);
      return false, j;
    }
    MatchedNext(collapse, lines, wanted, start, k, i, j);
    ok := true;
  }

  lemma MatchedAll(collapse: Collapse, lines: seq<Bytes>, wanted: seq<Bytes>, start: nat, i: nat)
    requires wanted != [] && start < |lines| && wanted[0] != [] && collapse(lines[start]) == wanted[0]
    requires Matched(collapse, lines, wanted, start, |wanted|, i)
    ensures Covers(collapse, lines, wanted, Span(start, i - 1))
  {
    assert wanted[..|wanted|] == wanted;
  }

  lemma WrongFirst(collapse: Collapse, lines: seq<Bytes>, wanted: seq<Bytes>, start: nat)
    requires wanted != [] && start < |lines| && collapse(lines[start]) != wanted[0]
    ensures Unmatched(collapse, lines, wanted, start)
  {
    forall e: nat ensures !Covers(collapse, lines, wanted, Span(start, e)) {
      FirstWanted(collapse, lines, wanted, start, e);
    }
  }

  lemma WrongNext(collapse: Collapse, lines: seq<Bytes>, wanted: seq<Bytes>, start: nat, i: nat, k: nat)
    requires start <= i <= |lines| && k < |wanted| && NonBlank(collapse, lines[start..i]) == wanted[..k]
    requires i < |lines| ==> !Blank(collapse, lines[i]) && collapse(lines[i]) != wanted[k]
    ensures Unmatched(collapse, lines, wanted, start)
  {
    forall e: nat ensures !Covers(collapse, lines, wanted, Span(start, e)) {
      NotCovered(collapse, lines, wanted, start, i, k, e);
    }
  }

  lemma FirstWanted(collapse: Collapse, lines: seq<Bytes>, wanted: seq<Bytes>, start: nat, e: nat)
    requires wanted != [] && start < |lines| && collapse(lines[start]) != wanted[0]
    ensures !Covers(collapse, lines, wanted, Span(start, e))
  {
    if Covers(collapse, lines, wanted, Span(start, e)) {
      NonBlankAppend(collapse, lines, start, start);
      NonBlankGrows(collapse, lines, start, start + 1, e + 1);
    }
  }

  lemma NotCovered(collapse: Collapse, lines: seq<Bytes>, wanted: seq<Bytes>, start: nat, i: nat, k: nat, e: nat)
    requires start <= i <= |lines| && k < |wanted| && NonBlank(collapse, lines[start..i]) == wanted[..k]
    requires i < |lines| ==> !Blank(collapse, lines[i]) && collapse(lines[i]) != wanted[k]
    ensures !Covers(collapse, lines, wanted, Span(start, e))
  {
    if Covers(collapse, lines, wanted, Span(start, e)) {
      if e < i {
        NonBlankGrows(collapse, lines, start, e + 1, i);
      } else {
        NextLine(collapse, lines, wanted, start, i, k, e);
      }
    }
  }

  lemma NextLine(collapse: Collapse, lines: seq<Bytes>, wanted: seq<Bytes>, start: nat, i: nat, k: nat, e: nat)
    requires start <= i <= e < |lines| && k < |wanted| && NonBlank(collapse, lines[start..i]) == wanted[..k]
    requires !Blank(collapse, lines[i]) && NonBlank(collapse, lines[start..e + 1]) == wanted
    ensures collapse(lines[i]) == wanted[k]
  {
    NonBlankAppend(collapse, lines, start, i);
    NonBlankGrows(collapse, lines, start, i + 1, e + 1);
    NextInPrefix(wanted, k, collapse(lines[i]));
  }

  lemma NextInPrefix(wanted: seq<Bytes>, k: nat, l: Bytes)
    requires k < |wanted|
    ensures wanted[..k] + [l] <= wanted ==> wanted[k] == l
  {
    assert wanted[..k] + [l] <= wanted ==> (wanted[..k] + [l])[k] == wanted[k];
  }

  /** An anchor that repeats itself matches at overlapping spans: two equal lines against three. */
  lemma SpansMayOverlap(collapse: Collapse, l: Bytes)
    requires collapse(l) != []
    ensures Covers(collapse, [l, l, l], [collapse(l), collapse(l)], Span(0, 1))
    ensures Covers(collapse, [l, l, l], [collapse(l), collapse(l)], Span(1, 2))
  {
    var lines := [l, l, l];
    NonBlankAppend(collapse, lines, 0, 0);
    NonBlankAppend(collapse, lines, 0, 1);
    NonBlankAppend(collapse, lines, 1, 1);
    NonBlankAppend(collapse, lines, 1, 2);
  }

  // ---- replacing spans of lines ----

  predicate Spacing(b: Byte) {
    b == 32 || b == 9
  }

  /** leadingWhitespace: the spaces and tabs a line opens with. */
  function Leading(l: Bytes): Bytes {
    if l != [] && Spacing(l[0]) then [l[0]] + Leading(l[1..]) else []
  }

  /** firstIndent: the indentation of the first line that is not blank. */
  function FirstIndent(collapse: Collapse, lines: seq<Bytes>): Bytes {
    if lines == [] then []
    else if !Blank(collapse, lines[0]) then Leading(lines[0])
    else FirstIndent(collapse, lines[1..])
  }

  function TrimPrefix(l: Bytes, prefix: Bytes): Bytes {
    if prefix <= l then l[|prefix|..] else l
  }

  /** A replacement line moved from the anchor's indentation to the source's; a blank one stays as it is. */
  function ShiftedLine(collapse: Collapse, from: Bytes, to: Bytes, l: Bytes): Bytes {
    if Blank(collapse, l) then l else to + TrimPrefix(l, from)
  }

  function NewLines(text: Bytes): seq<Bytes> {
    if text == [] then [] else Split(text)
  }

  function ShiftedAll(collapse: Collapse, from: Bytes, to: Bytes, ls: seq<Bytes>): seq<Bytes> {
    seq(|ls|, j requires 0 <= j < |ls| => ShiftedLine(collapse, from, to, ls[j]))
  }

  function ShiftedText(collapse: Collapse, from: Bytes, to: Bytes, text: Bytes): seq<Bytes> {
    ShiftedAll(collapse, from, to, NewLines(text))
  }

  /** One span as an edit of the lines: shifted to the indentation of the line the span opens on. */
  function LineEdit(collapse: Collapse, lines: seq<Bytes>, anchor: seq<Bytes>, text: Bytes, span: Span): Edit<Bytes>
    requires span.start < |lines|
  {
    Edit(span.start, span.end + 1,
         ShiftedText(collapse, FirstIndent(collapse, anchor), Leading(lines[span.start]), text))
  }

  ghost predicate SpansIn(spans: seq<Span>, size: nat) {
    && (forall i | 0 <= i < |spans| :: spans[i].start <= spans[i].end < size)
    && (forall i, j | 0 <= i < j < |spans| :: spans[i].end < spans[j].start)
  }

  function LineEdits(collapse: Collapse, lines: seq<Bytes>, anchor: seq<Bytes>, text: Bytes,
                     spans: seq<Span>): seq<Edit<Bytes>>
    requires forall i | 0 <= i < |spans| :: spans[i].start < |lines|
  {
    seq(|spans|, k requires 0 <= k < |spans| => LineEdit(collapse, lines, anchor, text, spans[k]))
  }

  lemma LeadingOneLine(l: Bytes)
    requires OneLine(l)
    ensures OneLine(Leading(l))
  {
  }

  lemma ShiftedLines(collapse: Collapse, from: Bytes, to: Bytes, text: Bytes)
    requires OneLine(to)
    ensures Lines(ShiftedText(collapse, from, to, text)) && |ShiftedText(collapse, from, to, text)| == CountLines(text)
  {
    SplitLines(text);
    var ls := NewLines(text);
    forall j | 0 <= j < |ls| ensures OneLine(ShiftedLine(collapse, from, to, ls[j])) {
      assert OneLine(ls[j]);
    }
  }

  lemma SplicedLines(lines: seq<Bytes>, e: Edit<Bytes>)
    requires Lines(lines) && Lines(e.text) && e.start <= e.end <= |lines|
    ensures Lines(Spliced(lines, e))
  {
  }

  /** spliceSpan: one span of lines gives way to the shifted text. */
  method SpliceSpan(collapse: Collapse, lines: seq<Bytes>, anchor: seq<Bytes>, text: Bytes, span: Span)
    returns (r: Splice)
    requires span.start <= span.end < |lines|
    ensures r.source == Join(Spliced(lines, LineEdit(collapse, lines, anchor, text, span)))
    ensures r.added == |NewLines(text)| && r.removed == span.end - span.start + 1 && r.matches == 1
  {
    var newLines := NewLines(text);
    var from, to := FirstIndent(collapse, anchor), Leading(lines[span.start]);
    var shifted: seq<Bytes> := [];
    for j := 0 to |newLines|
      invariant |shifted| == j
      invariant forall k | 0 <= k < j :: shifted[k] == ShiftedLine(collapse, from, to, newLines[k])
    {
      var l := to + TrimPrefix(newLines[j], from);
      if Blank(collapse, newLines[j]) {
        l := newLines[j];
      }
      shifted := shifted + [l];
    }
    assert shifted == ShiftedText(collapse, from, to, text);
    r := Splice(Join(lines[..span.start] + shifted + lines[span.end + 1..]),
                [], |newLines|, span.end - span.start + 1, 1);
  }

  /** What the lines are once the spans from i on have been replaced; text with no lines left reads as one empty
      line. */
  ghost predicate Through(src: seq<Bytes>, edits: seq<Edit<Bytes>>, i: nat, lines: seq<Bytes>)
    requires Ordered(edits, |src|) && i <= |edits|
  {
    OrderedFrom(edits, |src|, i);
    lines == Reread(Woven(src, edits[i..], 0)) && Lines(lines)
  }

  /** What the spans to the left still find: every line up to where the first replaced span begins. */
  lemma FrontUntouched(src: seq<Bytes>, edits: seq<Edit<Bytes>>, i: nat, lines: seq<Bytes>, at: nat)
    requires Ordered(edits, |src|) && i <= |edits| && Through(src, edits, i, lines)
    requires 0 < at <= |src| && (i < |edits| ==> at <= edits[i].start)
    ensures at <= |lines| && lines[..at] == src[..at] && lines == Woven(src, edits[i..], 0)
  {
    assert i < |edits| ==> edits[i..][0] == edits[i];
    WovenFrom(src, edits[i..], at);
  }

  lemma ThroughNext(src: seq<Bytes>, edits: seq<Edit<Bytes>>, i: nat, lines: seq<Bytes>)
    requires Ordered(edits, |src|) && 0 < i <= |edits| && Through(src, edits, i, lines) && Lines(edits[i - 1].text)
    requires edits[i - 1].start < edits[i - 1].end <= |lines| && lines == Woven(src, edits[i..], 0)
    ensures Through(src, edits, i - 1, Split(Join(Spliced(lines, edits[i - 1]))))
  {
    OrderedFrom(edits, |src|, i - 1);
    assert edits[i - 1..][0] == edits[i - 1] && edits[i - 1..][1..] == edits[i..];
    SpliceFirst(src, edits[i - 1..]);
    SplicedLines(lines, edits[i - 1]);
    ReadBack(Spliced(lines, edits[i - 1]));
  }

  lemma OrderedFrom<T>(edits: seq<Edit<T>>, size: nat, i: nat)
    requires Ordered(edits, size) && i <= |edits|
    ensures Ordered(edits[i..], size)
  {
  }

  /** Lines joined and split again are the same, but that no lines at all read as one empty line. */
  lemma ReadBack(lines: seq<Bytes>)
    requires Lines(lines)
    ensures Split(Join(lines)) == (if lines == [] then [[]] else lines) && Lines(Split(Join(lines)))
  {
    if lines != [] { SplitJoin(lines); }
  }

  lemma LineEditsOrdered(collapse: Collapse, lines: seq<Bytes>, anchor: seq<Bytes>, text: Bytes, spans: seq<Span>)
    requires SpansIn(spans, |lines|) && Lines(lines)
    ensures Ordered(LineEdits(collapse, lines, anchor, text, spans), |lines|)
    ensures forall k | 0 <= k < |spans| ::
      var t := LineEdits(collapse, lines, anchor, text, spans)[k].text; Lines(t) && |t| == CountLines(text)
  {
    forall k | 0 <= k < |spans|
      ensures var t := LineEdits(collapse, lines, anchor, text, spans)[k].text; Lines(t) && |t| == CountLines(text)
    {
      LeadingOneLine(lines[spans[k].start]);
      ShiftedLines(collapse, FirstIndent(collapse, anchor), Leading(lines[spans[k].start]), text);
    }
  }

  function Sizes(spans: seq<Span>): nat
    requires forall i | 0 <= i < |spans| :: spans[i].start <= spans[i].end
    decreases |spans|
  {
    if spans == [] then 0 else (spans[0].end - spans[0].start + 1) + Sizes(spans[1..])
  }

  /** Each range begins on the line of the result that its replacement begins on. */
  ghost predicate TrueSpans(lines: seq<Bytes>, edits: seq<Edit<Bytes>>, text: Bytes, ranges: seq<LineRange>) {
    && |ranges| <= |edits| && InTurn(edits, |lines|)
    && forall k | 0 <= k < |ranges| :: ranges[k] == RangeOf(1 + |Front(lines, edits, k)|, CountLines(text))
  }

  lemma FrontLength(lines: seq<Bytes>, edits: seq<Edit<Bytes>>, k: nat, delta: int)
    requires InTurn(edits, |lines|) && k < |edits| && |Built(lines, edits, k)| == Resumes(edits, k) + delta
    ensures |Front(lines, edits, k)| == edits[k].start + delta
    ensures |Built(lines, edits, k + 1)|
         == Resumes(edits, k + 1) + delta + |edits[k].text| - (edits[k].end - edits[k].start)
  {
    assert Resumes(edits, k) <= edits[k].start;
  }

  /** The ranges reckoned for the first k spans, and by how many lines those spans moved what follows. */
  ghost predicate Reckoned(lines: seq<Bytes>, edits: seq<Edit<Bytes>>, text: Bytes, k: nat, ranges: seq<LineRange>,
                           delta: int) {
    && k <= |edits| && |ranges| == k && TrueSpans(lines, edits, text, ranges)
    && |Built(lines, edits, k)| == Resumes(edits, k) + delta
  }

  lemma ReckonedNext(lines: seq<Bytes>, edits: seq<Edit<Bytes>>, text: Bytes, k: nat, ranges: seq<LineRange>,
                     delta: int)
    requires k < |edits| && Reckoned(lines, edits, text, k, ranges, delta) && |edits[k].text| == CountLines(text)
    ensures Reckoned(lines, edits, text, k + 1, ranges + [RangeOf(edits[k].start + 1 + delta, CountLines(text))],
                     delta + CountLines(text) - (edits[k].end - edits[k].start))
  {
    FrontLength(lines, edits, k, delta);
    TrueSpansNext(lines, edits, text, k, ranges);
  }

  lemma TrueSpansNext(lines: seq<Bytes>, edits: seq<Edit<Bytes>>, text: Bytes, k: nat, ranges: seq<LineRange>)
    requires k < |edits| && |ranges| == k && TrueSpans(lines, edits, text, ranges)
    ensures TrueSpans(lines, edits, text, ranges + [RangeOf(1 + |Front(lines, edits, k)|, CountLines(text))])
  {
  }

  /** The ranges are reckoned on their own, from the left, after the lines were replaced from the right. */
  method RangesOf(spans: seq<Span>, text: Bytes, ghost lines: seq<Bytes>, ghost edits: seq<Edit<Bytes>>)
    returns (ranges: seq<LineRange>)
    ensures |ranges| == |spans|
    ensures Matching(spans, text, lines, edits) ==> TrueSpans(lines, edits, text, ranges)
  {
    ghost var matching := Matching(spans, text, lines, edits);
    if matching { OrderedInTurn(edits, |lines|); }
    ranges := [];
    var delta := 0;
    for k := 0 to |spans|
      invariant |ranges| == k && (matching ==> Reckoned(lines, edits, text, k, ranges, delta))
    {
      if matching { ReckonedSpan(spans, text, lines, edits, k, ranges, delta); }
      ranges := ranges + [RangeOf(spans[k].start + 1 + delta, CountLines(text))];
      delta := delta + CountLines(text) - (spans[k].end - spans[k].start + 1);
    }
  }

  lemma ReckonedSpan(spans: seq<Span>, text: Bytes, lines: seq<Bytes>, edits: seq<Edit<Bytes>>, k: nat,
                     ranges: seq<LineRange>, delta: int)
    requires Matching(spans, text, lines, edits) && k < |spans| && Reckoned(lines, edits, text, k, ranges, delta)
    ensures Reckoned(lines, edits, text, k + 1, ranges + [RangeOf(spans[k].start + 1 + delta, CountLines(text))],
                     delta + CountLines(text) - (spans[k].end - spans[k].start + 1))
  {
    ReckonedNext(lines, edits, text, k, ranges, delta);
  }

  /** Edits for these spans, in order and apart. */
  ghost predicate Matching(spans: seq<Span>, text: Bytes, lines: seq<Bytes>, edits: seq<Edit<Bytes>>) {
    && Ordered(edits, |lines|) && |edits| == |spans|
    && (forall k | 0 <= k < |spans| :: edits[k].start == spans[k].start && edits[k].end == spans[k].end + 1)
    && (forall k | 0 <= k < |spans| :: |edits[k].text| == CountLines(text))
  }

  /** The edits the spans call for, each known by the lines the spans were found in. */
  ghost predicate EditsFor(collapse: Collapse, lines: seq<Bytes>, anchor: seq<Bytes>, text: Bytes, spans: seq<Span>,
                           edits: seq<Edit<Bytes>>)
  {
    && |edits| == |spans| && Ordered(edits, |lines|)
    && forall k {:trigger EditFor(collapse, lines, anchor, text, spans[k], edits[k])} | 0 <= k < |spans| ::
      EditFor(collapse, lines, anchor, text, spans[k], edits[k])
  }

  ghost predicate EditFor(collapse: Collapse, lines: seq<Bytes>, anchor: seq<Bytes>, text: Bytes, span: Span,
                          e: Edit<Bytes>)
  {
    && span.start <= span.end < |lines| && e == LineEdit(collapse, lines, anchor, text, span)
    && Lines(e.text) && |e.text| == CountLines(text)
  }

  /** Lines put together as text and read again. */
  function Reread(lines: seq<Bytes>): seq<Bytes> {
    if lines == [] then [[]] else lines
  }

  /** One span of many, replaced in the lines the later ones have left. */
  method SpliceOne(collapse: Collapse, anchor: seq<Bytes>, text: Bytes, span: Span, left: seq<Bytes>)
    returns (left': seq<Bytes>, added: nat, removed: nat)
    requires span.start <= span.end < |left| && Lines(left)
    ensures left' == Reread(Spliced(left, LineEdit(collapse, left, anchor, text, span))) && Lines(left')
    ensures |LineEdit(collapse, left, anchor, text, span).text| == CountLines(text)
    ensures added == CountLines(text) && removed == span.end - span.start + 1
  {
    LeadingOneLine(left[span.start]);
    ShiftedLines(collapse, FirstIndent(collapse, anchor), Leading(left[span.start]), text);
    SplitLines(text);
    var one := SpliceSpan(collapse, left, anchor, text, span);
    ghost var edit := LineEdit(collapse, left, anchor, text, span);
    SplicedLines(left, edit);
    ReadBack(Spliced(left, edit));
    left', added, removed := Split(one.source), one.added, one.removed;
  }

  /** Of disjoint spans, each still finds the lines it was found in. */
  lemma StillThere(collapse: Collapse, lines: seq<Bytes>, anchor: seq<Bytes>, text: Bytes, spans: seq<Span>, i: nat,
                   left: seq<Bytes>, edits: seq<Edit<Bytes>>)
    requires EditsFor(collapse, lines, anchor, text, spans, edits) && i < |spans| && Through(lines, edits, i + 1, left)
    ensures spans[i].start <= spans[i].end < |left| && LineEdit(collapse, left, anchor, text, spans[i]) == edits[i]
    ensures left == Woven(lines, edits[i + 1..], 0)
  {
    EditAt(collapse, lines, anchor, text, spans, edits, i);
    FrontUntouched(lines, edits, i + 1, left, spans[i].end + 1);
    SameEdit(collapse, left, lines, anchor, text, spans[i]);
  }

  lemma EditAt(collapse: Collapse, lines: seq<Bytes>, anchor: seq<Bytes>, text: Bytes, spans: seq<Span>,
               edits: seq<Edit<Bytes>>, i: nat)
    requires EditsFor(collapse, lines, anchor, text, spans, edits) && i < |spans|
    ensures |edits| == |spans| && Ordered(edits, |lines|) && spans[i].start <= spans[i].end < |lines|
    ensures edits[i] == LineEdit(collapse, lines, anchor, text, spans[i]) && edits[i].end == spans[i].end + 1
    ensures i + 1 < |edits| ==> edits[i].end <= edits[i + 1].start
    ensures Lines(edits[i].text) && |edits[i].text| == CountLines(text)
  {
    assert EditFor(collapse, lines, anchor, text, spans[i], edits[i]);
  }

  lemma SameEdit(collapse: Collapse, left: seq<Bytes>, lines: seq<Bytes>, anchor: seq<Bytes>, text: Bytes, span: Span)
    requires span.start <= span.end < |lines| && span.end < |left| && left[..span.end + 1] == lines[..span.end + 1]
    ensures LineEdit(collapse, left, anchor, text, span) == LineEdit(collapse, lines, anchor, text, span)
  {
    SameLine(left, lines, span.start, span.end + 1);
  }

  lemma ThroughOne(src: seq<Bytes>, edits: seq<Edit<Bytes>>, i: nat, left: seq<Bytes>)
    requires Ordered(edits, |src|) && i < |edits| && Through(src, edits, i + 1, left) && Lines(edits[i].text)
    requires edits[i].start < edits[i].end <= |left| && left == Woven(src, edits[i + 1..], 0)
    ensures Through(src, edits, i, Reread(Spliced(left, edits[i])))
  {
    ThroughNext(src, edits, i + 1, left);
    SplicedLines(left, edits[i]);
    ReadBack(Spliced(left, edits[i]));
  }

  lemma SameLine(a: seq<Bytes>, b: seq<Bytes>, i: nat, n: nat)
    requires i < n <= |a| && n <= |b| && a[..n] == b[..n]
    ensures a[i] == b[i]
  {
    assert a[..n][i] == b[..n][i];
  }

  // ---- spans as they are found, which may overlap ----

  /** The lines once the spans from the i-th on have been replaced one after the other, the last one first; a span that
      lies beyond what the later ones left replaces nothing. */
  function LeftBy(collapse: Collapse, lines: seq<Bytes>, anchor: seq<Bytes>, text: Bytes, spans: seq<Span>,
                  i: nat): seq<Bytes>
    requires i <= |spans|
    decreases |spans| - i
  {
    if i == |spans| then lines
    else
      var left := LeftBy(collapse, lines, anchor, text, spans, i + 1);
      if spans[i].start <= spans[i].end < |left| then
        Reread(Spliced(left, LineEdit(collapse, left, anchor, text, spans[i])))
      else left
  }

  /** Spans of the lines, each beginning after the one before it. */
  ghost predicate Found(spans: seq<Span>, size: nat) {
    && (forall i | 0 <= i < |spans| :: spans[i].start <= spans[i].end < size)
    && (forall i, j | 0 <= i < j < |spans| :: spans[i].start < spans[j].start)
  }

  /** How many lines there are once the spans from the i-th on have each become count lines. */
  function LinesLeft(spans: seq<Span>, size: nat, count: nat, i: nat): int
    requires i <= |spans| && forall j | 0 <= j < |spans| :: spans[j].start <= spans[j].end
  {
    size + (|spans| - i) * count - Sizes(spans[i..])
  }

  /** None of the spans from the i-th on ends beyond the lines that those after it leave. */
  ghost predicate FitsFrom(spans: seq<Span>, size: nat, count: nat, i: nat)
    requires forall j | 0 <= j < |spans| :: spans[j].start <= spans[j].end
  {
    forall j | i <= j < |spans| :: spans[j].end < LinesLeft(spans, size, count, j + 1)
  }

  ghost predicate Fits(spans: seq<Span>, size: nat, count: nat)
    requires forall j | 0 <= j < |spans| :: spans[j].start <= spans[j].end
  {
    FitsFrom(spans, size, count, 0)
  }

  lemma LeftNext(spans: seq<Span>, size: nat, count: nat, i: nat)
    requires i < |spans| && forall j | 0 <= j < |spans| :: spans[j].start <= spans[j].end
    ensures LinesLeft(spans, size, count, i)
         == LinesLeft(spans, size, count, i + 1) + count - (spans[i].end - spans[i].start + 1)
  {
    OneMore(|spans| - (i + 1), count);
    SizesNext(spans, i);
  }

  lemma LeftAll(spans: seq<Span>, size: nat, count: nat)
    requires forall j | 0 <= j < |spans| :: spans[j].start <= spans[j].end
    ensures LinesLeft(spans, size, count, |spans|) == size
  {
    assert spans[|spans|..] == [];
  }

  /** One span replaced among lines that hold it; of an edit past the first line some line is left. */
  lemma SplicedSize(collapse: Collapse, left: seq<Bytes>, anchor: seq<Bytes>, text: Bytes, span: Span)
    requires span.start <= span.end < |left| && Lines(left)
    ensures var e := LineEdit(collapse, left, anchor, text, span);
      && Lines(Reread(Spliced(left, e))) && |e.text| == CountLines(text)
      && (span.start > 0 ==> |Reread(Spliced(left, e))| == |left| + CountLines(text) - (span.end - span.start + 1))
  {
    LeadingOneLine(left[span.start]);
    ShiftedLines(collapse, FirstIndent(collapse, anchor), Leading(left[span.start]), text);
    SplicedLines(left, LineEdit(collapse, left, anchor, text, span));
  }

  /** The lines left are as many as reckoned, as long as the spans fit. */
  lemma {:induction false} LeftByLines(collapse: Collapse, lines: seq<Bytes>, anchor: seq<Bytes>, text: Bytes,
                                       spans: seq<Span>, i: nat)
    requires lines != [] && Lines(lines) && Found(spans, |lines|) && i <= |spans|
    requires FitsFrom(spans, |lines|, CountLines(text), i)
    ensures Lines(LeftBy(collapse, lines, anchor, text, spans, i))
    ensures i > 0 ==>
      |LeftBy(collapse, lines, anchor, text, spans, i)| == LinesLeft(spans, |lines|, CountLines(text), i)
    decreases |spans| - i
  {
    if i == |spans| {
      LeftAll(spans, |lines|, CountLines(text));
    } else {
      LeftByLines(collapse, lines, anchor, text, spans, i + 1);
      LeftNext(spans, |lines|, CountLines(text), i);
      if i > 0 { assert spans[0].start < spans[i].start; }
      SplicedSize(collapse, LeftBy(collapse, lines, anchor, text, spans, i + 1), anchor, text, spans[i]);
    }
  }

  /** Of disjoint spans, what is left is the source with each of them replaced where it was found. */
  lemma {:induction false} LeftByThrough(collapse: Collapse, lines: seq<Bytes>, anchor: seq<Bytes>, text: Bytes,
                                         spans: seq<Span>, edits: seq<Edit<Bytes>>, i: nat)
    requires lines != [] && Lines(lines) && EditsFor(collapse, lines, anchor, text, spans, edits) && i <= |spans|
    ensures Through(lines, edits, i, LeftBy(collapse, lines, anchor, text, spans, i))
    decreases |spans| - i
  {
    if i == |spans| {
      LeftByNone(collapse, lines, anchor, text, spans, edits, i);
    } else {
      LeftByThrough(collapse, lines, anchor, text, spans, edits, i + 1);
      LeftByStep(collapse, lines, anchor, text, spans, edits, i);
    }
  }

  lemma LeftByNone(collapse: Collapse, lines: seq<Bytes>, anchor: seq<Bytes>, text: Bytes, spans: seq<Span>,
                   edits: seq<Edit<Bytes>>, i: nat)
    requires lines != [] && Lines(lines) && i == |edits| == |spans| && Ordered(edits, |lines|)
    ensures Through(lines, edits, i, LeftBy(collapse, lines, anchor, text, spans, i))
  {
    ThroughFirst(lines, edits);
  }

  /** One more span replaced in what the later ones left. */
  lemma LeftByStep(collapse: Collapse, lines: seq<Bytes>, anchor: seq<Bytes>, text: Bytes, spans: seq<Span>,
                   edits: seq<Edit<Bytes>>, i: nat)
    requires EditsFor(collapse, lines, anchor, text, spans, edits) && i < |spans|
    requires Through(lines, edits, i + 1, LeftBy(collapse, lines, anchor, text, spans, i + 1))
    ensures Through(lines, edits, i, LeftBy(collapse, lines, anchor, text, spans, i))
  {
    ThroughBack(collapse, lines, anchor, text, spans, i, LeftBy(collapse, lines, anchor, text, spans, i + 1), edits);
  }

  /** One more of them, in what is left. */
  lemma ThroughBack(collapse: Collapse, lines: seq<Bytes>, anchor: seq<Bytes>, text: Bytes, spans: seq<Span>, i: nat,
                    left: seq<Bytes>, edits: seq<Edit<Bytes>>)
    requires EditsFor(collapse, lines, anchor, text, spans, edits) && i < |spans| && Through(lines, edits, i + 1, left)
    ensures spans[i].start <= spans[i].end < |left|
    ensures Through(lines, edits, i, Reread(Spliced(left, LineEdit(collapse, left, anchor, text, spans[i]))))
  {
    EditAt(collapse, lines, anchor, text, spans, edits, i);
    StillThere(collapse, lines, anchor, text, spans, i, left, edits);
    ThroughOne(lines, edits, i, left);
  }

  lemma DisjointFit(collapse: Collapse, lines: seq<Bytes>, anchor: seq<Bytes>, text: Bytes, spans: seq<Span>,
                    edits: seq<Edit<Bytes>>, i: nat)
    requires lines != [] && Lines(lines) && Found(spans, |lines|) && i < |spans|
    requires EditsFor(collapse, lines, anchor, text, spans, edits) && FitsFrom(spans, |lines|, CountLines(text), i + 1)
    ensures FitsFrom(spans, |lines|, CountLines(text), i)
  {
    LeftByLines(collapse, lines, anchor, text, spans, i + 1);
    LeftByThrough(collapse, lines, anchor, text, spans, edits, i + 1);
    StillThere(collapse, lines, anchor, text, spans, i, LeftBy(collapse, lines, anchor, text, spans, i + 1), edits);
  }

  /** Disjoint spans fit. */
  lemma {:induction false} DisjointFits(collapse: Collapse, lines: seq<Bytes>, anchor: seq<Bytes>, text: Bytes,
                                        spans: seq<Span>, edits: seq<Edit<Bytes>>, i: nat)
    requires lines != [] && Lines(lines) && Found(spans, |lines|) && i <= |spans|
    requires EditsFor(collapse, lines, anchor, text, spans, edits)
    ensures FitsFrom(spans, |lines|, CountLines(text), i)
    decreases |spans| - i
  {
    if i < |spans| {
      DisjointFits(collapse, lines, anchor, text, spans, edits, i + 1);
      DisjointFit(collapse, lines, anchor, text, spans, edits, i);
    }
  }

  /** The loop's state: the spans from the i-th on have been replaced and counted. */
  ghost predicate Working(collapse: Collapse, lines: seq<Bytes>, anchor: seq<Bytes>, text: Bytes, spans: seq<Span>,
                          i: nat, left: seq<Bytes>, added: nat, removed: nat)
  {
    && lines != [] && Lines(lines) && Found(spans, |lines|) && Tallied(spans, CountLines(text), i, added, removed)
    && FitsFrom(spans, |lines|, CountLines(text), i) && left == LeftBy(collapse, lines, anchor, text, spans, i)
  }

  /** The i-th span, when it lies within what the later ones have left. */
  method WorkOne(collapse: Collapse, ghost lines: seq<Bytes>, anchor: seq<Bytes>, text: Bytes, spans: seq<Span>, i: nat,
                 left: seq<Bytes>, added: nat, removed: nat)
    returns (ok: bool, left': seq<Bytes>, added': nat, removed': nat)
    requires i < |spans| && Working(collapse, lines, anchor, text, spans, i + 1, left, added, removed)
    ensures if ok then Working(collapse, lines, anchor, text, spans, i, left', added', removed')
            else !Fits(spans, |lines|, CountLines(text))
  {
    LeftByLines(collapse, lines, anchor, text, spans, i + 1);
    if spans[i].end >= |left| {
      return false, left, added, removed;
    }
    var next, more, fewer := SpliceOne(collapse, anchor, text, spans[i], left);
    TalliedNext(spans, CountLines(text), i, added, removed);
    ok, left', added', removed' := true, next, added + more, removed + fewer;
  }

  /** The lines after every span, from the last one back; ok is whether each still lay within the lines. */
  method SpliceBack(collapse: Collapse, lines: seq<Bytes>, anchor: seq<Bytes>, text: Bytes, spans: seq<Span>)
    returns (ok: bool, left: seq<Bytes>, added: nat, removed: nat)
    requires lines != [] && Lines(lines) && Found(spans, |lines|)
    ensures ok <==> Fits(spans, |lines|, CountLines(text))
    ensures ok ==> Working(collapse, lines, anchor, text, spans, 0, left, added, removed)
  {
    left, added, removed, ok := lines, 0, 0, true;
    assert spans[|spans|..] == [];
    var i := |spans|;
    while i > 0
      invariant 0 <= i <= |spans| && Working(collapse, lines, anchor, text, spans, i, left, added, removed)
    {
      i := i - 1;
      ok, left, added, removed := WorkOne(collapse, lines, anchor, text, spans, i, left, added, removed);
      if !ok {
        return;
      }
    }
    ok := true;
  }

  /** What the spans from the i-th on have added, size lines each, and taken away. */
  ghost predicate Tallied(spans: seq<Span>, size: nat, i: nat, added: nat, removed: nat) {
    && i <= |spans|
    && (forall j | i <= j < |spans| :: spans[j].start <= spans[j].end)
    && added == (|spans| - i) * size && removed == Sizes(spans[i..])
  }

  lemma TalliedNext(spans: seq<Span>, size: nat, i: nat, added: nat, removed: nat)
    requires i < |spans| && Tallied(spans, size, i + 1, added, removed)
    requires forall j | 0 <= j < |spans| :: spans[j].start <= spans[j].end
    ensures Tallied(spans, size, i, added + size, removed + (spans[i].end - spans[i].start + 1))
  {
    OneMore(|spans| - (i + 1), size);
    SizesNext(spans, i);
  }

  /** The result is the lines with all the edits in place at once, and each range tells where one of them landed. */
  ghost predicate ReplacesLines(lines: seq<Bytes>, edits: seq<Edit<Bytes>>, text: Bytes, r: Splice) {
    && Ordered(edits, |lines|)
    && r.source == Join(Woven(lines, edits, 0))
    && TrueSpans(lines, edits, text, r.ranges)
  }

  /** What is told of the spans: how many there were, and how many lines came and went. */
  ghost predicate Counted(spans: seq<Span>, text: Bytes, r: Splice)
    requires forall i | 0 <= i < |spans| :: spans[i].start <= spans[i].end
  {
    && |r.ranges| == r.matches == |spans|
    && r.added == |spans| * CountLines(text) && r.removed == Sizes(spans)
  }

  /** spliceEverySpan, worked from the last span back: it stays within the lines exactly when the spans fit, and of
      disjoint ones, which always do, it replaces all at once. Where it would not, the source panics: the outcome is
      none. */
  method SpliceEverySpan(collapse: Collapse, lines: seq<Bytes>, anchor: seq<Bytes>, text: Bytes, spans: seq<Span>)
    returns (r: Option<Splice>)
    requires lines != [] && Lines(lines) && Found(spans, |lines|)
    ensures EveryAnswer(collapse, lines, anchor, text, spans, r)
  {
    ghost var edits := LineEdits(collapse, lines, anchor, text, spans);
    if SpansIn(spans, |lines|) {
      LineEditsOrdered(collapse, lines, anchor, text, spans);
      DisjointFits(collapse, lines, anchor, text, spans, edits, 0);
    }
    var ok, left, added, removed := SpliceBack(collapse, lines, anchor, text, spans);
    if !ok {
      return None;
    }
    assert spans[0..] == spans;
    var ranges := RangesOf(spans, text, lines, edits);
    r := Some(Splice(Join(left), ranges, added, removed, |spans|));
    if SpansIn(spans, |lines|) {
      LeftByThrough(collapse, lines, anchor, text, spans, edits, 0);
      EveryDone(collapse, lines, anchor, text, spans, edits, left, r.value);
    }
  }

  lemma EveryDone(collapse: Collapse, lines: seq<Bytes>, anchor: seq<Bytes>, text: Bytes, spans: seq<Span>,
                  edits: seq<Edit<Bytes>>, left: seq<Bytes>, r: Splice)
    requires EditsFor(collapse, lines, anchor, text, spans, edits) && Through(lines, edits, 0, left)
             && r.source == Join(left)
    requires Matching(spans, text, lines, edits) ==> TrueSpans(lines, edits, text, r.ranges)
    ensures ReplacesLines(lines, edits, text, r)
  {
    ThroughLast(lines, edits, left);
    forall i | 0 <= i < |spans|
      ensures edits[i].start == spans[i].start && edits[i].end == spans[i].end + 1
      ensures |edits[i].text| == CountLines(text)
    {
      EditAt(collapse, lines, anchor, text, spans, edits, i);
    }
    assert Matching(spans, text, lines, edits);
  }

  ghost predicate EveryAnswer(collapse: Collapse, lines: seq<Bytes>, anchor: seq<Bytes>, text: Bytes, spans: seq<Span>,
                              r: Option<Splice>)
    requires Found(spans, |lines|)
  {
    && (r.Some? <==> Fits(spans, |lines|, CountLines(text)))
    && (r.Some? ==> Counted(spans, text, r.value))
    && (r.Some? ==> r.value.source == Join(LeftBy(collapse, lines, anchor, text, spans, 0)))
    && (SpansIn(spans, |lines|) ==>
          r.Some? && ReplacesLines(lines, LineEdits(collapse, lines, anchor, text, spans), text, r.value))
  }

  /** An anchor of two equal lines against three, replaced by nothing: the spans found do not fit, since the second one
      leaves a single line behind and the first wants two. */
  lemma OverlapsRunOut(collapse: Collapse, l: Bytes, anchor: seq<Bytes>)
    requires collapse(l) != [] && OneLine(l)
    ensures var spans, wanted := [Span(0, 1), Span(1, 2)], [collapse(l), collapse(l)];
      && (forall k | 0 <= k < |spans| :: Covers(collapse, [l, l, l], wanted, spans[k]))
      && Found(spans, 3) && !Fits(spans, 3, CountLines([]))
    ensures |Split(Join(Spliced([l, l, l], LineEdit(collapse, [l, l, l], anchor, [], Span(1, 2)))))| == 1
  {
    SpansMayOverlap(collapse, l);
    var spans := [Span(0, 1), Span(1, 2)];
    assert spans[1..] == [Span(1, 2)] && spans[1..][1..] == [];
    assert LinesLeft(spans, 3, 0, 1) == 1 && spans[0].end == 1;
    assert !Fits(spans, 3, CountLines([]));
    var left := Spliced([l, l, l], LineEdit(collapse, [l, l, l], anchor, [], Span(1, 2)));
    assert left == [l];
    SplitOneLine(l);
  }

  lemma ThroughFirst(lines: seq<Bytes>, edits: seq<Edit<Bytes>>)
    requires lines != [] && Lines(lines) && Ordered(edits, |lines|)
    ensures Through(lines, edits, |edits|, lines)
  {
    assert edits[|edits|..] == [] && lines[0..] == lines;
  }

  lemma ThroughLast(src: seq<Bytes>, edits: seq<Edit<Bytes>>, lines: seq<Bytes>)
    requires Ordered(edits, |src|) && Through(src, edits, 0, lines)
    ensures Join(lines) == Join(Woven(src, edits, 0))
  {
    assert edits[0..] == edits;
  }

  lemma SizesNext(spans: seq<Span>, i: nat)
    requires i < |spans| && forall j | 0 <= j < |spans| :: spans[j].start <= spans[j].end
    ensures Sizes(spans[i..]) == Sizes(spans[i + 1..]) + (spans[i].end - spans[i].start + 1)
  {
    assert spans[i..][1..] == spans[i + 1..];
  }
}
