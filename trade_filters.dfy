// Validation of the `get_trades` filters: the side and duration filters
// (`re.match(r'^(long|short)$', side, re.IGNORECASE)` and its duration
// twin) and the lower-case `and`/`or` heuristic for tag expressions
// (`re.search(r'\sand\s', ...)`).

module TradeFilters {
  import opened Wire

  function LowerAscii(c: char): char {
    if 'A' <= c <= 'Z' then (c as int + 32) as char else c
  }

  function UpperAscii(c: char): char {
    if 'a' <= c <= 'z' then (c as int - 32) as char else c
  }

  function FoldCase(s: string): (f: string)
    ensures |f| == |s|
    ensures forall i :: 0 <= i < |s| ==> f[i] == LowerAscii(s[i])
  {
    seq(|s|, i requires 0 <= i < |s| => LowerAscii(s[i]))
  }

  /** `re.match('^' + w + '$', s, re.IGNORECASE)` for a lower-case word `w`:
      the whole of `s` is `w` up to case, optionally followed by one final
      newline, which Python's `$` also accepts. */
  predicate MatchesWord(s: string, w: string) {
    FoldCase(s) == w || FoldCase(s) == w + "\n"
  }

  /** The first letter upper-cased, as `value[0].upper()` gives it. */
  function Initial(value: string): string
    requires value != []
  {
    [UpperAscii(value[0])]
  }

  lemma InitialOfMatch(s: string, w: string)
    requires w != [] && 'a' <= w[0] <= 'z'
    requires MatchesWord(s, w)
    ensures s != [] && Initial(s) == [UpperAscii(w[0])]
  {
    assert FoldCase(s)[0] == w[0];
    assert LowerAscii(s[0]) == w[0];
  }

  /** The `side` filter: "long" or "short" in any case becomes "L" or "S". */
  function NormalizeSide(side: string): (r: Outcome<string>)
    ensures r == Return("L") <==> MatchesWord(side, "long")
    ensures r == Return("S") <==> MatchesWord(side, "short")
    ensures r.Raise? <==> !MatchesWord(side, "long") && !MatchesWord(side, "short")
    ensures r.Raise? ==> r.exc == ValueError(BadSide)
  {
    if MatchesWord(side, "long") then
      InitialOfMatch(side, "long");
      Return(Initial(side))
    else if MatchesWord(side, "short") then
      InitialOfMatch(side, "short");
      Return(Initial(side))
    else Raise(ValueError(BadSide))
  }

  /** The `duration` filter: "intraday" or "multiday" in any case becomes "I" or "M". */
  function NormalizeDuration(duration: string): (r: Outcome<string>)
    ensures r == Return("I") <==> MatchesWord(duration, "intraday")
    ensures r == Return("M") <==> MatchesWord(duration, "multiday")
    ensures r.Raise? <==> !MatchesWord(duration, "intraday") && !MatchesWord(duration, "multiday")
    ensures r.Raise? ==> r.exc == ValueError(BadDuration)
  {
    if MatchesWord(duration, "intraday") then
      InitialOfMatch(duration, "intraday");
      Return(Initial(duration))
    else if MatchesWord(duration, "multiday") then
      InitialOfMatch(duration, "multiday");
      Return(Initial(duration))
    else Raise(ValueError(BadDuration))
  }

  lemma SideExamples()
    ensures NormalizeSide("Long") == Return("L")
    ensures NormalizeSide("SHORT") == Return("S")
    ensures NormalizeSide("long\n") == Return("L")
    ensures NormalizeSide("sideways") == Raise(ValueError(BadSide))
    ensures NormalizeSide("") == Raise(ValueError(BadSide))
  {
    assert FoldCase("Long") == "long";
    assert FoldCase("SHORT") == "short";
    assert FoldCase("long\n") == "long\n";
    assert FoldCase("sideways")[0] == 's';
    assert FoldCase("sideways")[1] == 'i';
  }

  /** Python's `\s` on the ASCII and Latin-1 range. */
  predicate IsSpace(c: char) {
    c == ' ' || c == '\t' || c == '\n' || c == '\r' || c == '\U{000B}' || c == '\U{000C}'
    || ('\U{001C}' <= c <= '\U{001F}') || c == '\U{0085}' || c == '\U{00A0}'
  }

  /** The regular expression `\s` + w + `\s` matches `s` at position `i`. */
  predicate SpacedAt(s: string, w: string, i: nat)
    requires i + |w| + 2 <= |s|
  {
    IsSpace(s[i]) && s[i + 1..i + 1 + |w|] == w && IsSpace(s[i + 1 + |w|])
  }

  /** `re.search` for `\s` + w + `\s`, scanning from the left. */
  function SearchSpaced(s: string, w: string): bool
    decreases |s|
  {
    if |s| < |w| + 2 then false
    else SpacedAt(s, w, 0) || SearchSpaced(s[1..], w)
  }

  lemma {:induction false} SearchSpacedFinds(s: string, w: string)
    ensures SearchSpaced(s, w) <==> exists i: nat :: i + |w| + 2 <= |s| && SpacedAt(s, w, i)
    decreases |s|
  {
    if |s| >= |w| + 2 {
      SearchSpacedFinds(s[1..], w);
      forall i: nat | i + |w| + 2 <= |s[1..]|
        ensures SpacedAt(s[1..], w, i) <==> SpacedAt(s, w, i + 1)
      {
        assert s[1..][i + 1..i + 1 + |w|] == s[i + 2..i + 2 + |w|];
      }
      if !SearchSpaced(s, w) {
        forall i: nat | i + |w| + 2 <= |s|
          ensures !SpacedAt(s, w, i)
        {
          if i > 0 {
            assert !SpacedAt(s[1..], w, i - 1);
          }
        }
      } else if !SpacedAt(s, w, 0) {
        var j: nat :| j + |w| + 2 <= |s[1..]| && SpacedAt(s[1..], w, j);
        assert SpacedAt(s, w, j + 1);
      }
    }
  }

  /** A tag expression using a lower-case `and` or `or` between blanks, which
      the service does not read as a boolean operator. */
  predicate DubiousTagExpr(tagExpr: string) {
    SearchSpaced(tagExpr, "and") || SearchSpaced(tagExpr, "or")
  }

  /** No blank in `s` is followed by the first letter of `w`, so the search fails. */
  lemma NoSpacedMatch(s: string, w: string)
    requires w != []
    requires forall i: nat :: i + 1 < |s| && IsSpace(s[i]) ==> s[i + 1] != w[0]
    ensures !SearchSpaced(s, w)
  {
    SearchSpacedFinds(s, w);
  }

  /** A match at one position is found by the search. */
  lemma SpacedMatchFound(s: string, w: string, i: nat)
    requires i + |w| + 2 <= |s| && SpacedAt(s, w, i)
    ensures SearchSpaced(s, w)
  {
    SearchSpacedFinds(s, w);
  }

  lemma DubiousLowerCaseAnd()
    ensures DubiousTagExpr("foo and bar")
  {
    var s := "foo and bar";
    assert s[4..7] == "and";
    SpacedMatchFound(s, "and", 3);
  }

  lemma DubiousLowerCaseOr()
    ensures DubiousTagExpr("a\tor b")
  {
    var s := "a\tor b";
    assert s[2..4] == "or";
    SpacedMatchFound(s, "or", 1);
  }

  lemma NotDubiousUpperCaseAnd()
    ensures !DubiousTagExpr("foo AND bar")
  {
    var s := "foo AND bar";
    forall i: nat | i + 1 < |s| && IsSpace(s[i]) ensures s[i + 1] == 'A' || s[i + 1] == 'b' {
      assert i == 3 || i == 7;
    }
    NoSpacedMatch(s, "and");
    NoSpacedMatch(s, "or");
  }

  /** A leading `and` has no blank before it and is not flagged. */
  lemma NotDubiousLeadingAnd()
    ensures !DubiousTagExpr("and bar")
  {
    var s := "and bar";
    forall i: nat | i + 1 < |s| && IsSpace(s[i]) ensures s[i + 1] == 'b' {
      assert i == 3;
    }
    NoSpacedMatch(s, "and");
    NoSpacedMatch(s, "or");
  }
}
