/** One replacement as it is asked for: search, fallbacks and line endings (attempt in internal/edit/replace.go). */
module EditAttempt {
  import opened Outcomes
  import opened Text
  import opened EditTypes
  import opened LineEndings
  import opened EditReplace
  import opened EditLines
  import opened EditFuzzy

  /** matchLines: the line each match starts on. */
  function MatchLines(source: Bytes, idxs: seq<nat>): seq<nat>
    requires forall k | 0 <= k < |idxs| :: idxs[k] <= |source|
  {
    seq(|idxs|, k requires 0 <= k < |idxs| => 1 + Newlines(source[..idxs[k]]))
  }

  /** What doReplace owes for a text whose matches, leftmost first, are idxs. */
  ghost predicate Answers(collapse: Collapse, source: Bytes, pat: Bytes, text: Bytes, all: bool, idxs: seq<nat>,
                          r: Result<Splice, ReplaceError>)
  {
    && Leftmost(source, pat, idxs)
    && (idxs == [] ==> exists starts :: FuzzyAnswers(collapse, Split(source), Split(pat), text, all, starts, r))
    && (|idxs| == 1 || (|idxs| > 1 && all) ==> r.Ok? && ReplacesEvery(source, pat, text, idxs, r.value))
    && (|idxs| > 1 && !all ==>
          (forall k | 0 <= k < |idxs| :: idxs[k] <= |source|) && r == Err(NotUnique(MatchLines(source, idxs))))
  }

  /** doReplace: none found falls back, one is replaced, several are replaced only when asked for. */
  method DoReplace(collapse: Collapse, source: Bytes, pat: Bytes, text: Bytes, all: bool)
    returns (r: Result<Splice, ReplaceError>)
    requires pat != []
    ensures exists idxs :: Answers(collapse, source, pat, text, all, idxs, r)
  {
    var found := FindAll(source, pat);
    forall k | 0 <= k < |found| ensures found[k] <= |source| { SuccessiveAt(source, pat, found, k); }
    if |found| == 0 {
      r := SpliceFuzzy(collapse, source, pat, text, all);
    } else if |found| == 1 {
      var once := SpliceExact(source, pat, text, found[0]);
      assert found == [found[0]];
      r := Ok(once);
    } else if all {
      var every := SpliceEvery(source, pat, text, found);
      r := Ok(every);
    } else {
      r := Err(NotUnique(MatchLines(source, found)));
    }
    assert Answers(collapse, source, pat, text, all, found, r);
  }

  /** What is searched for, or put in, in place of the text given. */
  function Sought(source: Bytes, s: Bytes): Bytes {
    if HasCRLF(source) then ToLF(s) else s
  }

  /** A splice of the normalized text, as it is reported for the source. */
  function Reported(source: Bytes, s: Splice): Replacement {
    Replacement(Restored(source, s.source), [], s.ranges, s.added, s.removed, if s.matches > 1 then s.matches else 1)
  }

  ghost predicate Attempted(collapse: Collapse, source: Bytes, pat: Bytes, text: Bytes, all: bool,
                            inner: Result<Splice, ReplaceError>, r: Result<Replacement, ReplaceError>)
  {
    && (exists idxs ::
          Answers(collapse, Normalized(source), Sought(source, pat), Sought(source, text), all, idxs, inner))
    && r == match inner case Err(e) => Err(e) case Ok(s) => Ok(Reported(source, s))
  }

  /** attempt: line endings are brought to newlines for the search and back for the result. */
  method Attempt(collapse: Collapse, source: Bytes, pat: Bytes, text: Bytes, all: bool)
    returns (r: Result<Replacement, ReplaceError>)
    ensures pat == [] ==> r == Err(EmptyOldString)
    ensures pat != [] && pat == text ==> r == Err(NoChange)
    ensures pat != [] && pat != text ==> exists inner :: Attempted(collapse, source, pat, text, all, inner, r)
  {
    if pat == [] {
      return Err(EmptyOldString);
    }
    if pat == text {
      return Err(NoChange);
    }
    var crlf := HasCRLF(source);
    var src, p, t := source, pat, text;
    if crlf {
      src, p, t := ToLF(source), ToLF(pat), ToLF(text);
    }
    var spliced := DoReplace(collapse, src, p, t, all);
    if spliced.Err? {
      r := Err(spliced.error);
    } else {
      var out := spliced.value.source;
      if crlf {
        out := ToCRLF(out);
      }
      var matches := if spliced.value.matches > 1 then spliced.value.matches else 1;
      r := Ok(Replacement(out, [], spliced.value.ranges, spliced.value.added, spliced.value.removed, matches));
    }
    assert src == Normalized(source) && p == Sought(source, pat) && t == Sought(source, text);
    assert Attempted(collapse, source, pat, text, all, spliced, r);
  }

  // ---- one source, in full ----

  /** " x" three times over, and "x" twice. */
  const THRICE: Bytes := [32, 120, LF, 32, 120, LF, 32, 120]
  const TWICE: Bytes := [120, LF, 120]

  lemma FirstMatches(s: Bytes, pat: Bytes, idxs: seq<nat>)
    requires Leftmost(s, pat, idxs)
    ensures idxs != [] ==> MatchAt(s, pat, idxs[0])
  {
    if idxs != [] { SuccessiveAt(s, pat, idxs, 0); }
  }

  lemma NoExactMatch(i: nat)
    ensures !MatchAt(THRICE, TWICE, i)
  {
    if i + 3 <= 8 {
      assert THRICE[i..i + 3][0] == THRICE[i] && THRICE[i..i + 3][2] == THRICE[i + 2];
    }
  }

  lemma SplitTwo(a: Bytes)
    requires OneLine(a)
    ensures Split(a + [LF] + a) == [a, a]
  {
    SplitOneLine(a);
    SplitAfter(a, a);
  }

  lemma SplitThree(a: Bytes)
    requires OneLine(a)
    ensures Split(a + [LF] + a + [LF] + a) == [a, a, a]
  {
    SplitTwo(a);
    SplitAfter(a + [LF] + a, a);
  }

  lemma SplitsOf(l: Bytes, x: Bytes)
    requires l == [32, 120] && x == [120]
    ensures Split(THRICE) == [l, l, l] && Split(TWICE) == [x, x]
  {
    SplitThree(l);
    SplitTwo(x);
    assert l + [LF] + l + [LF] + l == THRICE;
    assert x + [LF] + x == TWICE;
  }

  /** It happens: replacing every "x", "x" of " x", " x", " x" by nothing finds no exact match and two near ones that
      share a line, and the source panics. */
  lemma ReplaceAllPanics(collapse: Collapse, idxs: seq<nat>, r: Result<Splice, ReplaceError>)
    requires collapse([32, 120]) == collapse([120]) != [] && Answers(collapse, THRICE, TWICE, [], true, idxs, r)
    ensures r == Err(Panics)
  {
    FirstMatches(THRICE, TWICE, idxs);
    forall i: nat ensures !MatchAt(THRICE, TWICE, i) { NoExactMatch(i); }
    SplitsOf([32, 120], [120]);
    NearPanics(collapse, THRICE, TWICE, [32, 120], [120], r);
  }

  lemma NearPanics(collapse: Collapse, source: Bytes, pat: Bytes, l: Bytes, x: Bytes, r: Result<Splice, ReplaceError>)
    requires Split(source) == [l, l, l] && Split(pat) == [x, x] && collapse(x) == collapse(l) != [] && OneLine(l)
    requires exists starts :: FuzzyAnswers(collapse, Split(source), Split(pat), [], true, starts, r)
    ensures r == Err(Panics)
  {
    var starts :| FuzzyAnswers(collapse, Split(source), Split(pat), [], true, starts, r);
    OverlapPanics(collapse, l, x, starts, r);
  }
}
