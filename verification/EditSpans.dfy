/** Replacements addressed by line and UTF-16 column (internal/edit/spans.go). */
module EditSpans {
  import opened Outcomes
  import opened Text
  import opened Utf8
  import opened Weave
  import EditBatch

  datatype Span = Span(text: Bytes, line: int, column: int, endLine: int, endColumn: int)

  datatype SpanError = OutOfRange | EndBeforeStart(index: nat) | TwoOverlap(index: nat)

  // ---- a column within a line ----

  /** The first boundary with at least column code units before it. */
  function At(s: Bytes, column: int): (r: Option<nat>)
    ensures r.Some? ==> r.value <= |s|
    decreases |s|
  {
    if column <= 0 then Some(0)
    else if s == [] then None
    else
      match At(s[Width(s)..], column - Units(s))
      case None => None
      case Some(i) => Some(Width(s) + i)
  }

  function ColumnAt(line: Bytes, column: int): (r: Option<nat>)
    ensures r.Some? ==> r.value <= |line|
  {
    if column < 0 then None else At(line, column)
  }

  function Moved(o: Option<nat>, n: nat): Option<nat> {
    if o.Some? then Some(o.value + n) else None
  }

  /** The column is as far from byte i, with units counted up to it, as it is from the start. */
  ghost predicate CountedTo(line: Bytes, column: int, i: nat, units: int) {
    i <= |line| && At(line, column) == Moved(At(line[i..], column - units), i)
  }

  lemma CountedFrom(line: Bytes, column: int)
    ensures CountedTo(line, column, 0, 0)
  {
    assert line[0..] == line;
  }

  lemma CountedReached(line: Bytes, column: int, i: nat, units: int)
    requires CountedTo(line, column, i, units) && (units >= column || i == |line|)
    ensures At(line, column) == if units >= column then Some(i) else None
  {
  }

  /** Past one more rune, and the code units it counts. */
  method NextRune(line: Bytes, column: int, i: nat, units: int) returns (j: nat, after: int)
    requires CountedTo(line, column, i, units) && i < |line| && units < column
    ensures i < j <= |line| && CountedTo(line, column, j, after)
  {
    j, after := i + Width(line[i..]), units + Units(line[i..]);
    Onward(line, i, Width(line[i..]));
    AtNext(line[i..], column - units, line[j..], column - after);
    MovedTwice(At(line[j..], column - after), j - i, i);
  }

  lemma AtNext(s: Bytes, column: int, rest: Bytes, left: int)
    requires s != [] && column > 0 && rest == s[Width(s)..] && left == column - Units(s)
    ensures At(s, column) == Moved(At(rest, left), |s| - |rest|)
  {
  }

  lemma MovedTwice(o: Option<nat>, w: nat, i: nat)
    ensures Moved(Moved(o, w), i) == Moved(o, i + w)
  {
  }

  lemma Onward(line: Bytes, i: nat, w: nat)
    requires i + w <= |line|
    ensures line[i..][w..] == line[i + w..]
  {
  }

  method ByteInLine(line: Bytes, column: int) returns (r: Option<nat>)
    ensures r == ColumnAt(line, column)
  {
    if column < 0 {
      return None;
    }
    var i, units := 0, 0;
    CountedFrom(line, column);
    while i < |line|
      invariant CountedTo(line, column, i, units)
      decreases |line| - i
    {
      if units >= column {
        CountedReached(line, column, i, units);
        return Some(i);
      }
      i, units := NextRune(line, column, i, units);
    }
    CountedReached(line, column, i, units);
    if units < column {
      return None;
    }
    return Some(|line|);
  }

  /** A column lands on a rune boundary, never inside a rune. */
  lemma {:induction false} AtBoundary(s: Bytes, column: int)
    requires At(s, column).Some?
    ensures Boundary(s, At(s, column).value) && column <= UnitsBefore(s, At(s, column).value)
    decreases |s|
  {
    if column > 0 { AtBoundary(s[Width(s)..], column - Units(s)); }
  }

  /** Counting the code units before a boundary and asking for that column gives the boundary back. */
  lemma {:induction false} AtInverse(s: Bytes, i: nat)
    requires Boundary(s, i)
    ensures At(s, UnitsBefore(s, i)) == Some(i)
    decreases |s|
  {
    if i != 0 { AtInverse(s[Width(s)..], i - Width(s)); }
  }

  /** A column is accepted exactly when the line has that many code units. */
  lemma {:induction false} AtDefined(s: Bytes, column: int)
    ensures At(s, column).Some? <==> column <= TotalUnits(s)
    decreases |s|
  {
    if column > 0 && s != [] { AtDefined(s[Width(s)..], column - Units(s)); }
  }

  lemma {:induction false} AtMonotone(s: Bytes, column: int, column': int)
    requires column <= column' && At(s, column').Some?
    ensures At(s, column).Some? && At(s, column).value <= At(s, column').value
    decreases |s|
  {
    if column > 0 { AtMonotone(s[Width(s)..], column - Units(s), column' - Units(s)); }
  }

  // ---- a position within the source ----

  /** Where line n begins in the joined source. */
  function LineStart(lines: seq<Bytes>, n: nat): nat
    requires n <= |lines|
  {
    if n == 0 then 0 else LineStart(lines, n - 1) + |lines[n - 1]| + 1
  }

  function TotalLength(lines: seq<Bytes>): nat {
    if lines == [] then 0 else LineStart(lines, |lines| - 1) + |lines[|lines| - 1]|
  }

  /** The offset of a zero-based line and UTF-16 column, if the source has it. */
  function PositionOf(lines: seq<Bytes>, line: int, column: int): Option<nat> {
    if line == |lines| && column == 0 then Some(TotalLength(lines))
    else if line < 0 || line >= |lines| then None
    else
      match ColumnAt(lines[line], column)
      case None => None
      case Some(i) => Some(LineStart(lines, line) + i)
  }

  method SourceLength(lines: seq<Bytes>) returns (total: nat)
    ensures total == TotalLength(lines)
  {
    total := 0;
    for i := 0 to |lines|
      invariant total == if i == |lines| then TotalLength(lines) else LineStart(lines, i)
    {
      total := total + |lines[i]|;
      if i < |lines| - 1 {
        total := total + 1;
      }
    }
  }

  method OffsetOf(lines: seq<Bytes>, line: int, column: int) returns (r: Option<nat>)
    ensures r == PositionOf(lines, line, column)
  {
    if line == |lines| && column == 0 {
      var total := SourceLength(lines);
      return Some(total);
    }
    if line < 0 || line >= |lines| {
      return None;
    }
    var offset := 0;
    for i := 0 to line
      invariant offset == LineStart(lines, i)
    {
      offset := offset + |lines[i]| + 1;
    }
    var within := ByteInLine(lines[line], column);
    if within.None? {
      return None;
    }
    return Some(offset + within.value);
  }

  lemma {:induction false} LineStartPrefix(lines: seq<Bytes>, m: nat, n: nat)
    requires n <= m <= |lines|
    ensures LineStart(lines[..m], n) == LineStart(lines, n)
  {
    if n > 0 { LineStartPrefix(lines, m, n - 1); }
  }

  lemma {:induction false} LengthOfJoin(lines: seq<Bytes>)
    ensures |Join(lines)| == TotalLength(lines)
  {
    if |lines| > 1 {
      var m := |lines| - 1;
      LengthOfJoin(lines[..m]);
      LineStartPrefix(lines, m, m - 1);
    }
  }

  /** A boundary of a line is a boundary of the source it lies in. */
  lemma {:induction false} LineBoundary(lines: seq<Bytes>, n: nat, i: nat)
    requires n < |lines| && Boundary(lines[n], i)
    ensures Boundary(Join(lines), LineStart(lines, n) + i) && LineStart(lines, n) + i <= |Join(lines)|
  {
    var m := |lines| - 1;
    if m > 0 {
      assert Join(lines) == Join(lines[..m]) + [LF] + lines[m];
      if n < m {
        LineBoundary(lines[..m], n, i);
        LineStartPrefix(lines, m, n);
        BoundaryBeforeNewline(Join(lines[..m]), lines[m], LineStart(lines, n) + i);
      } else {
        LastLineStart(lines);
        BoundaryAfterNewline(Join(lines[..m]), lines[m], i);
      }
    }
    BoundaryInside(Join(lines), LineStart(lines, n) + i);
  }

  lemma LastLineStart(lines: seq<Bytes>)
    requires |lines| > 1
    ensures LineStart(lines, |lines| - 1) == |Join(lines[..|lines| - 1])| + 1
  {
    var m := |lines| - 1;
    LengthOfJoin(lines[..m]);
    LineStartPrefix(lines, m, m - 1);
  }

  /** Every position lies in the source, between two runes, whatever bytes the source holds. */
  lemma PositionLands(src: Bytes, line: int, column: int)
    requires PositionOf(Split(src), line, column).Some?
    ensures Lands(src, PositionOf(Split(src), line, column).value)
  {
    if line == |Split(src)| {
      EndLands(src);
    } else {
      LineLands(src, line, column);
    }
  }

  ghost predicate Lands(src: Bytes, offset: nat) {
    offset <= |src| && Boundary(src, offset)
  }

  lemma EndLands(src: Bytes)
    ensures TotalLength(Split(src)) == |src| && Lands(src, |src|)
  {
    JoinSplit(src);
    LengthOfJoin(Split(src));
    EndIsBoundary(src);
  }

  lemma LineLands(src: Bytes, line: nat, column: int)
    requires line < |Split(src)| && ColumnAt(Split(src)[line], column).Some?
    ensures Lands(src, LineStart(Split(src), line) + ColumnAt(Split(src)[line], column).value)
  {
    JoinSplit(src);
    var l := Split(src)[line];
    AtBoundary(l, column);
    LineBoundary(Split(src), line, ColumnAt(l, column).value);
  }

  lemma {:induction false} LineStartMonotone(lines: seq<Bytes>, m: nat, n: nat)
    requires m < n <= |lines|
    ensures LineStart(lines, m) + |lines[m]| + 1 <= LineStart(lines, n)
  {
    if m < n - 1 { LineStartMonotone(lines, m, n - 1); }
  }

  /** A later position is not an earlier offset. */
  lemma PositionMonotone(lines: seq<Bytes>, line: int, column: int, line': int, column': int)
    requires PositionOf(lines, line, column).Some? && PositionOf(lines, line', column').Some?
    requires line < line' || (line == line' && column <= column')
    ensures PositionOf(lines, line, column).value <= PositionOf(lines, line', column').value
  {
    if line == line' {
      if line < |lines| { AtMonotone(lines[line], column, column'); }
    } else if line' < |lines| {
      LineStartMonotone(lines, line, line');
    } else if line < |lines| - 1 {
      LineStartMonotone(lines, line, |lines| - 1);
    }
  }

  // ---- applying spans ----

  /** What span i replaces, when both its ends are in the source. */
  function EditAt(src: Bytes, s: Span): Option<Edit<Byte>> {
    var start, end := PositionOf(Split(src), s.line, s.column), PositionOf(Split(src), s.endLine, s.endColumn);
    if start.Some? && end.Some? && start.value <= end.value then Some(Edit(start.value, end.value, s.text)) else None
  }

  ghost predicate Addressed(src: Bytes, spans: seq<Span>, edits: seq<Edit<Byte>>) {
    |edits| == |spans| && forall i | 0 <= i < |spans| :: EditAt(src, spans[i]) == Some(edits[i])
  }

  method Address(src: Bytes, spans: seq<Span>) returns (r: Result<seq<Edit<Byte>>, SpanError>)
    ensures r.Ok? ==> Addressed(src, spans, r.value)
    ensures r.Err? ==> !r.error.TwoOverlap? && exists i :: 0 <= i < |spans| && EditAt(src, spans[i]).None?
  {
    var lines := Split(src);
    var edits: seq<Edit<Byte>> := [];
    for i := 0 to |spans|
      invariant |edits| == i && forall j | 0 <= j < i :: EditAt(src, spans[j]) == Some(edits[j])
    {
      var s := spans[i];
      var start := OffsetOf(lines, s.line, s.column);
      if start.None? {
        assert EditAt(src, spans[i]).None?;
        return Err(OutOfRange);
      }
      var end := OffsetOf(lines, s.endLine, s.endColumn);
      if end.None? {
        assert EditAt(src, spans[i]).None?;
        return Err(OutOfRange);
      }
      if end.value < start.value {
        assert EditAt(src, spans[i]).None?;
        return Err(EndBeforeStart(i));
      }
      edits := edits + [Edit(start.value, end.value, s.text)];
    }
    r := Ok(edits);
  }

  function Upto(n: nat): (r: seq<nat>)
    ensures |r| == n && forall i | 0 <= i < n :: r[i] == i
  {
    if n == 0 then [] else Upto(n - 1) + [n - 1]
  }

  ghost predicate Indices(order: seq<nat>, n: nat) {
    multiset(order) == multiset(Upto(n))
  }

  ghost predicate LatestFirst(edits: seq<Edit<Byte>>, order: seq<nat>) {
    (forall k | 0 <= k < |order| :: order[k] < |edits|) &&
    forall i, j | 0 <= i < j < |order| :: edits[order[i]].start >= edits[order[j]].start
  }

  function InsertIndex(edits: seq<Edit<Byte>>, x: nat, order: seq<nat>): (r: seq<nat>)
    requires x < |edits| && forall k | 0 <= k < |order| :: order[k] < |edits|
    ensures multiset(r) == multiset(order) + multiset{x}
  {
    if order == [] || edits[x].start >= edits[order[0]].start then [x] + order
    else
      assert order == [order[0]] + order[1..];
      [order[0]] + InsertIndex(edits, x, order[1..])
  }

  /** No edit named starts after the first. */
  ghost predicate NoneAfter(edits: seq<Edit<Byte>>, order: seq<nat>, first: nat)
    requires first < |edits|
  {
    forall k | 0 <= k < |order| :: order[k] < |edits| && edits[order[k]].start <= edits[first].start
  }

  lemma {:induction false} InsertIndexOrder(edits: seq<Edit<Byte>>, x: nat, order: seq<nat>)
    requires x < |edits| && LatestFirst(edits, order)
    ensures LatestFirst(edits, InsertIndex(edits, x, order))
  {
    if order != [] && edits[x].start < edits[order[0]].start {
      var rest := order[1..];
      assert NoneAfter(edits, rest, order[0]);
      InsertIndexOrder(edits, x, rest);
      InsertedFrom(edits, x, rest, order[0]);
      FrontOrdered(edits, order[0], InsertIndex(edits, x, rest));
    }
  }

  lemma FrontOrdered(edits: seq<Edit<Byte>>, first: nat, order: seq<nat>)
    requires LatestFirst(edits, order) && first < |edits| && NoneAfter(edits, order, first)
    ensures LatestFirst(edits, [first] + order)
  {
  }

  lemma {:induction false} InsertedFrom(edits: seq<Edit<Byte>>, x: nat, order: seq<nat>, first: nat)
    requires x < |edits| && first < |edits| && edits[x].start <= edits[first].start && NoneAfter(edits, order, first)
    ensures NoneAfter(edits, InsertIndex(edits, x, order), first)
  {
    if order != [] && edits[x].start < edits[order[0]].start {
      InsertedFrom(edits, x, order[1..], first);
    }
  }

  /** sort.Slice of the indices, latest start first. It is not stable, so indices of spans that start
      together come out in any order. */
  method SortIndices(edits: seq<Edit<Byte>>) returns (order: seq<nat>)
    ensures Indices(order, |edits|) && LatestFirst(edits, order)
  {
    order := [];
    for i := 0 to |edits|
      invariant Indices(order, i) && LatestFirst(edits, order)
    {
      InsertIndexOrder(edits, i, order);
      order := InsertIndex(edits, i, order);
      assert Upto(i + 1) == Upto(i) + [i];
    }
  }

  /** The edits an order of indices names, from the last to the first. */
  function Backwards(edits: seq<Edit<Byte>>, order: seq<nat>): seq<Edit<Byte>>
    requires forall k | 0 <= k < |order| :: order[k] < |edits|
  {
    if order == [] then [] else [edits[order[|order| - 1]]] + Backwards(edits, order[..|order| - 1])
  }

  lemma MappedAppend(f: nat -> Edit<Byte>, s: seq<nat>, x: nat)
    ensures EditBatch.Mapped(f, s + [x]) == EditBatch.Mapped(f, s) + [f(x)]
  {
  }

  lemma {:induction false} BackwardsHolds(edits: seq<Edit<Byte>>, order: seq<nat>, pick: nat -> Edit<Byte>)
    requires forall k | 0 <= k < |order| :: order[k] < |edits|
    requires forall i: nat | i < |edits| :: pick(i) == edits[i]
    ensures multiset(Backwards(edits, order)) == multiset(EditBatch.Mapped(pick, order))
  {
    if order != [] {
      var m := |order| - 1;
      var before, last := order[..m], order[m];
      BackwardsHolds(edits, before, pick);
      assert order == before + [last];
      MappedAppend(pick, before, last);
      assert multiset([edits[last]] + Backwards(edits, before))
        == multiset{edits[last]} + multiset(Backwards(edits, before));
    }
  }

  lemma PickAll(edits: seq<Edit<Byte>>, pick: nat -> Edit<Byte>)
    requires forall i: nat | i < |edits| :: pick(i) == edits[i]
    ensures EditBatch.Mapped(pick, Upto(|edits|)) == edits
  {
  }

  /** All edits, each once. */
  lemma BackwardsPermutes(edits: seq<Edit<Byte>>, order: seq<nat>)
    requires Indices(order, |edits|) && forall k | 0 <= k < |order| :: order[k] < |edits|
    ensures multiset(Backwards(edits, order)) == multiset(edits)
  {
    var pick := (i: nat) => if i < |edits| then edits[i] else Edit(0, 0, []);
    BackwardsHolds(edits, order, pick);
    EditBatch.MappedPermute(pick, order, Upto(|edits|));
    PickAll(edits, pick);
  }

  ghost predicate Inside(edits: seq<Edit<Byte>>, size: nat) {
    forall i | 0 <= i < |edits| :: edits[i].start <= edits[i].end <= size
  }

  lemma OrderedFront(e: Edit<Byte>, edits: seq<Edit<Byte>>, size: nat)
    requires Ordered(edits, size) && e.start <= e.end <= size && (edits != [] ==> e.end <= edits[0].start)
    ensures Ordered([e] + edits, size)
  {
  }

  /** Splicing, latest first; or the first span found to reach past the one spliced before it. */
  method SpliceLatestFirst(src: Bytes, edits: seq<Edit<Byte>>, order: seq<nat>) returns (r: Result<Bytes, SpanError>)
    requires Inside(edits, |src|) && LatestFirst(edits, order)
    ensures r.Ok? ==> Ordered(Backwards(edits, order), |src|) && r.value == Woven(src, Backwards(edits, order), 0)
    ensures r.Err? ==> r.error.TwoOverlap? && exists k ::
      0 < k < |order| && r.error.index == order[k] && edits[order[k]].end > edits[order[k - 1]].start
  {
    var out := src;
    var prevStart := |src| + 1;
    for k := 0 to |order|
      invariant Ordered(Backwards(edits, order[..k]), |src|) && out == Woven(src, Backwards(edits, order[..k]), 0)
      invariant prevStart == if k == 0 then |src| + 1 else edits[order[k - 1]].start
    {
      var i := order[k];
      if edits[i].end > prevStart {
        return Err(TwoOverlap(i));
      }
      ghost var before := Backwards(edits, order[..k]);
      assert order[..k + 1][..k] == order[..k];
      OrderedFront(edits[i], before, |src|);
      assert ([edits[i]] + before)[1..] == before;
      SpliceFirst(src, [edits[i]] + before);
      out := out[..edits[i].start] + edits[i].text + out[edits[i].end..];
      prevStart := edits[i].start;
    }
    assert order[..|order|] == order;
    r := Ok(out);
  }

  function Range(lo: int, hi: int): set<int>
    decreases hi - lo
  {
    if lo > hi then {} else Range(lo, hi - 1) + {hi}
  }

  function Touched(spans: seq<Span>): set<int> {
    if spans == [] then {}
    else Touched(spans[..|spans| - 1]) + Range(spans[|spans| - 1].line, spans[|spans| - 1].endLine)
  }

  method TouchedLines(spans: seq<Span>) returns (n: nat)
    ensures n == |Touched(spans)|
  {
    var seen: set<int> := {};
    for i := 0 to |spans|
      invariant seen == Touched(spans[..i])
    {
      assert spans[..i + 1][..i] == spans[..i];
      var l := spans[i].line;
      ghost var before := seen;
      while l <= spans[i].endLine
        invariant spans[i].line <= l
        invariant l <= spans[i].endLine + 1 || l == spans[i].line
        invariant seen == before + Range(spans[i].line, l - 1)
        decreases spans[i].endLine - l + 1
      {
        seen := seen + {l};
        l := l + 1;
      }
    }
    assert spans[..|spans|] == spans;
    n := |seen|;
  }

  lemma AddressedInside(src: Bytes, spans: seq<Span>, edits: seq<Edit<Byte>>)
    requires Addressed(src, spans, edits)
    ensures Inside(edits, |src|)
  {
    forall i | 0 <= i < |edits| ensures edits[i].end <= |src| {
      PositionLands(src, spans[i].endLine, spans[i].endColumn);
    }
  }

  /** Two spans, of which one begins inside, or at the start of, the other, whose end lies beyond. */
  ghost predicate Clash(edits: seq<Edit<Byte>>) {
    exists i, j | 0 <= i < |edits| && 0 <= j < |edits| && i != j :: edits[i].start <= edits[j].start < edits[i].end
  }

  lemma ClashFound(edits: seq<Edit<Byte>>, order: seq<nat>, k: nat)
    requires Indices(order, |edits|) && LatestFirst(edits, order)
    requires 0 < k < |order| && edits[order[k]].end > edits[order[k - 1]].start
    ensures Clash(edits)
  {
    var a, b := EditBatch.TwoOf(order, Upto(|edits|), k - 1, k);
    assert order[k] != order[k - 1];
    assert edits[order[k]].start <= edits[order[k - 1]].start < edits[order[k]].end;
  }

  ghost predicate DistinctStarts(edits: seq<Edit<Byte>>) {
    forall i, j | 0 <= i < j < |edits| :: edits[i].start != edits[j].start
  }

  /** A listing without overlap shows that no two edits that start apart clash. */
  lemma NoClash(edits: seq<Edit<Byte>>, a: seq<Edit<Byte>>, size: nat)
    requires multiset(a) == multiset(edits) && Ordered(a, size) && DistinctStarts(edits)
    ensures !Clash(edits)
  {
    forall i: nat, j: nat | i < |edits| && j < |edits| && i != j
      ensures !(edits[i].start <= edits[j].start < edits[i].end)
    {
      assert edits[i].start != edits[j].start;
      if i < j { var k, l := EditBatch.TwoOf(edits, a, i, j); } else { var k, l := EditBatch.TwoOf(edits, a, j, i); }
    }
  }

  /** ApplySpans: the simultaneous replacement, or a refusal. ascending lists the edits by start. */
  method ApplySpans(src: Bytes, spans: seq<Span>)
    returns (r: Result<(Bytes, nat), SpanError>, ghost edits: seq<Edit<Byte>>, ghost ascending: seq<Edit<Byte>>)
    ensures r.Err? && !r.error.TwoOverlap? <==> exists i :: 0 <= i < |spans| && EditAt(src, spans[i]).None?
    ensures r.Ok? || r.error.TwoOverlap? ==> Addressed(src, spans, edits)
    ensures r.Err? && r.error.TwoOverlap? ==> Clash(edits)
    ensures r.Ok? && DistinctStarts(edits) ==> !Clash(edits)
    ensures r.Ok? ==> multiset(ascending) == multiset(edits) && Ordered(ascending, |src|)
    ensures r.Ok? ==> r.value == (Woven(src, ascending, 0), |Touched(spans)|)
  {
    edits, ascending := [], [];
    var addressed := Address(src, spans);
    if addressed.Err? {
      return Err(addressed.error), edits, ascending;
    }
    edits := addressed.value;
    var out;
    out, ascending := SpliceAll(src, spans, addressed.value);
    if out.Err? {
      return Err(out.error), edits, ascending;
    }
    var touched := TouchedLines(spans);
    r := Ok((out.value, touched));
  }

  method SpliceAll(src: Bytes, spans: seq<Span>, edits: seq<Edit<Byte>>)
    returns (r: Result<Bytes, SpanError>, ghost ascending: seq<Edit<Byte>>)
    requires Addressed(src, spans, edits)
    ensures r.Err? ==> Clash(edits)
    ensures r.Ok? && DistinctStarts(edits) ==> !Clash(edits)
    ensures r.Ok? ==>
      multiset(ascending) == multiset(edits) && Ordered(ascending, |src|) && r.value == Woven(src, ascending, 0)
    ensures r.Err? ==> r.error.TwoOverlap?
  {
    AddressedInside(src, spans, edits);
    var order := SortIndices(edits);
    ascending := Backwards(edits, order);
    BackwardsPermutes(edits, order);
    r := SpliceLatestFirst(src, edits, order);
    if r.Err? {
      ghost var k :| 0 < k < |order| && r.error.index == order[k] && edits[order[k]].end > edits[order[k - 1]].start;
      ClashFound(edits, order, k);
    } else if DistinctStarts(edits) {
      NoClash(edits, ascending, |src|);
    }
  }

  /** Spans that all start in different places have one result, whichever way the sort lists them. */
  lemma OneResult(src: Bytes, edits: seq<Edit<Byte>>, a: seq<Edit<Byte>>, b: seq<Edit<Byte>>)
    requires multiset(a) == multiset(edits) == multiset(b) && Ordered(a, |src|) && Ordered(b, |src|)
    requires DistinctStarts(edits)
    ensures Woven(src, a, 0) == Woven(src, b, 0)
  {
    DistinctListing(edits, a, |src|);
    DistinctListing(edits, b, |src|);
    OneOrder(a, b);
  }

  lemma DistinctListing(edits: seq<Edit<Byte>>, a: seq<Edit<Byte>>, size: nat)
    requires multiset(a) == multiset(edits) && Ordered(a, size)
    requires DistinctStarts(edits)
    ensures StrictlyOrdered(a)
  {
    forall i, j | 0 <= i < j < |a| ensures a[i].start < a[j].start {
      var k, l := EditBatch.TwoOf(a, edits, i, j);
      assert edits[k].start != edits[l].start;
    }
  }
}
