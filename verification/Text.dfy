/** Source text as bytes, its lines, and counts of them. */
module Text {

  type Byte = b: int | 0 <= b < 256

  type Bytes = seq<Byte>

  const LF: Byte := 10
  const CR: Byte := 13

  /** strings.Count of the newline. */
  function Newlines(s: Bytes): nat {
    if s == [] then 0 else Newlines(s[..|s| - 1]) + if s[|s| - 1] == LF then 1 else 0
  }

  lemma {:induction false} NewlinesConcat(a: Bytes, b: Bytes)
    ensures Newlines(a + b) == Newlines(a) + Newlines(b)
  {
    if b == [] {
      assert a + b == a;
    } else {
      var m := |b| - 1;
      NewlinesConcat(a, b[..m]);
      assert (a + b)[..|a| + m] == a + b[..m];
    }
  }

  /** How many lines a replacement text counts as. */
  function CountLines(s: Bytes): nat {
    if s == [] then 0 else Newlines(s) + 1
  }

  /** strings.Split on the newline: always at least one line. */
  function Split(s: Bytes): (r: seq<Bytes>)
    ensures r != []
  {
    if s == [] then [[]]
    else
      var before, b := Split(s[..|s| - 1]), s[|s| - 1];
      if b == LF then before + [[]] else before[..|before| - 1] + [before[|before| - 1] + [b]]
  }

  /** strings.Join with the newline. */
  function Join(lines: seq<Bytes>): Bytes {
    if lines == [] then []
    else if |lines| == 1 then lines[0]
    else Join(lines[..|lines| - 1]) + [LF] + lines[|lines| - 1]
  }

  ghost predicate OneLine(s: Bytes) {
    forall i | 0 <= i < |s| :: s[i] != LF
  }

  ghost predicate Lines(lines: seq<Bytes>) {
    forall i | 0 <= i < |lines| :: OneLine(lines[i])
  }

  lemma {:induction false} SplitLines(s: Bytes)
    ensures Lines(Split(s)) && |Split(s)| == Newlines(s) + 1
  {
    if s != [] { SplitLines(s[..|s| - 1]); }
  }

  lemma JoinAppend(lines: seq<Bytes>, l: Bytes)
    requires lines != []
    ensures Join(lines + [l]) == Join(lines) + [LF] + l
  {
    assert (lines + [l])[..|lines|] == lines;
  }

  lemma JoinExtend(lines: seq<Bytes>, l: Bytes, b: Byte)
    ensures Join(lines + [l + [b]]) == Join(lines + [l]) + [b]
  {
    if lines == [] {
      assert lines + [l] == [l] && lines + [l + [b]] == [l + [b]];
    } else {
      JoinAppend(lines, l);
      JoinAppend(lines, l + [b]);
    }
  }

  /** Text taken apart into lines and put together again is the same text. */
  lemma {:induction false} JoinSplit(s: Bytes)
    ensures Join(Split(s)) == s
  {
    if s != [] {
      var before, b := Split(s[..|s| - 1]), s[|s| - 1];
      JoinSplit(s[..|s| - 1]);
      if b == LF {
        JoinAppend(before, []);
      } else {
        assert before == before[..|before| - 1] + [before[|before| - 1]];
        JoinExtend(before[..|before| - 1], before[|before| - 1], b);
      }
      assert s == s[..|s| - 1] + [b];
    }
  }

  lemma {:induction false} SplitOneLine(s: Bytes)
    requires OneLine(s)
    ensures Split(s) == [s]
  {
    if s != [] {
      SplitOneLine(s[..|s| - 1]);
      assert s == s[..|s| - 1] + [s[|s| - 1]];
    }
  }

  lemma {:induction false} SplitAfter(a: Bytes, b: Bytes)
    requires OneLine(b)
    ensures Split(a + [LF] + b) == Split(a) + [b]
  {
    if b == [] {
      assert a + [LF] + b == a + [LF] && (a + [LF])[..|a|] == a;
    } else {
      var m := |b| - 1;
      SplitAfter(a, b[..m]);
      var s := a + [LF] + b;
      assert s[..|s| - 1] == a + [LF] + b[..m] && b == b[..m] + [b[m]];
    }
  }

  /** Lines put together and taken apart again are the same lines. */
  lemma {:induction false} SplitJoin(lines: seq<Bytes>)
    requires lines != [] && Lines(lines)
    ensures Split(Join(lines)) == lines
  {
    if |lines| == 1 {
      SplitOneLine(lines[0]);
    } else {
      var before, last := lines[..|lines| - 1], lines[|lines| - 1];
      SplitJoin(before);
      SplitAfter(Join(before), last);
      assert lines == before + [last];
    }
  }
}
