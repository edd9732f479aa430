/** Runes in bytes, as Go's range over a string finds them: UTF-8 of section 3 of RFC 3629, with every
byte that begins no valid sequence taken as one replacement rune; and the UTF-16 code units of section
2.1 of RFC 2781 each takes. */
module Utf8 {
  import opened Text

  predicate Continues(s: Bytes, i: nat, lo: int, hi: int) {
    i < |s| && lo <= s[i] <= hi
  }

  predicate Tail(s: Bytes, i: nat) {
    Continues(s, i, 0x80, 0xBF)
  }

  /** How many bytes the first rune takes. */
  function Width(s: Bytes): (w: nat)
    requires s != []
    ensures 1 <= w <= 4 && w <= |s|
  {
    var b := s[0];
    if 0xC2 <= b <= 0xDF && Tail(s, 1) then 2
    else if b == 0xE0 && Continues(s, 1, 0xA0, 0xBF) && Tail(s, 2) then 3
    else if b == 0xED && Continues(s, 1, 0x80, 0x9F) && Tail(s, 2) then 3
    else if 0xE1 <= b <= 0xEF && b != 0xED && Tail(s, 1) && Tail(s, 2) then 3
    else if b == 0xF0 && Continues(s, 1, 0x90, 0xBF) && Tail(s, 2) && Tail(s, 3) then 4
    else if 0xF1 <= b <= 0xF3 && Tail(s, 1) && Tail(s, 2) && Tail(s, 3) then 4
    else if b == 0xF4 && Continues(s, 1, 0x80, 0x8F) && Tail(s, 2) && Tail(s, 3) then 4
    else 1
  }

  /** How many UTF-16 code units the first rune takes: only the four-byte ones lie outside the basic plane. */
  function Units(s: Bytes): nat
    requires s != []
  {
    if Width(s) == 4 then 2 else 1
  }

  /** A rune of s begins, or s ends, at offset i. */
  ghost predicate Boundary(s: Bytes, i: nat)
    decreases |s|
  {
    i == 0 || (s != [] && Width(s) <= i && Boundary(s[Width(s)..], i - Width(s)))
  }

  function TotalUnits(s: Bytes): nat
    decreases |s|
  {
    if s == [] then 0 else Units(s) + TotalUnits(s[Width(s)..])
  }

  /** The code units of the runes before boundary i. */
  ghost function UnitsBefore(s: Bytes, i: nat): nat
    requires Boundary(s, i)
    decreases |s|
  {
    if i == 0 then 0 else Units(s) + UnitsBefore(s[Width(s)..], i - Width(s))
  }

  /** A newline, or the end of the text, cuts a rune off just the same. */
  lemma WidthBeforeNewline(s: Bytes, rest: Bytes)
    requires s != []
    ensures Width(s + [LF] + rest) == Width(s)
  {
  }

  lemma CutBefore(s: Bytes, rest: Bytes, w: nat)
    requires w <= |s|
    ensures (s + [LF] + rest)[w..] == s[w..] + [LF] + rest
  {
  }

  lemma BoundaryOn(s: Bytes, i: nat)
    requires s != [] && Width(s) <= i && Boundary(s[Width(s)..], i - Width(s))
    ensures Boundary(s, i)
  {
  }

  lemma {:induction false} BoundaryBeforeNewline(s: Bytes, rest: Bytes, i: nat)
    requires Boundary(s, i)
    ensures Boundary(s + [LF] + rest, i)
    decreases |s|
  {
    if i != 0 {
      var w := Width(s);
      WidthBeforeNewline(s, rest);
      BoundaryBeforeNewline(s[w..], rest, i - w);
      CutBefore(s, rest, w);
      BoundaryOn(s + [LF] + rest, i);
    }
  }

  lemma {:induction false} BoundaryAfterNewline(s: Bytes, rest: Bytes, i: nat)
    requires Boundary(rest, i)
    ensures Boundary(s + [LF] + rest, |s| + 1 + i)
    decreases |s|
  {
    if s == [] {
      assert (s + [LF] + rest)[1..] == rest;
    } else {
      var w := Width(s);
      WidthBeforeNewline(s, rest);
      BoundaryAfterNewline(s[w..], rest, i);
      CutBefore(s, rest, w);
      BoundaryOn(s + [LF] + rest, |s| + 1 + i);
    }
  }

  lemma {:induction false} BoundaryInside(s: Bytes, i: nat)
    requires Boundary(s, i)
    ensures i <= |s|
    decreases |s|
  {
    if i != 0 { BoundaryInside(s[Width(s)..], i - Width(s)); }
  }

  lemma {:induction false} EndIsBoundary(s: Bytes)
    ensures Boundary(s, |s|)
    decreases |s|
  {
    if s != [] { EndIsBoundary(s[Width(s)..]); }
  }
}
