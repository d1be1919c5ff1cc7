/**
 * The string primitives the extractor relies on: Python's argument-less
 * str.split() and str.strip(), ' '.join, the `in` substring test and
 * str.isdigit()/int() on item numbers.
 */
module Text {

  /** Python's str.isspace(): the characters str.split() and str.strip() treat as whitespace. */
  predicate IsSpace(c: char) {
    c == ' ' || ('\t' <= c <= '\r') || ('\U{1c}' <= c <= '\U{1f}')
    || c == '\U{85}' || c == '\U{a0}' || c == '\U{1680}'
    || ('\U{2000}' <= c <= '\U{200a}') || c == '\U{2028}' || c == '\U{2029}'
    || c == '\U{202f}' || c == '\U{205f}' || c == '\U{3000}'
  }

  predicate NoSpace(s: string) {
    forall k :: 0 <= k < |s| ==> !IsSpace(s[k])
  }

  /** `line.strip()` is empty. */
  predicate IsBlank(s: string) {
    forall k :: 0 <= k < |s| ==> IsSpace(s[k])
  }

  predicate IsDigit(c: char) {
    '0' <= c <= '9'
  }

  predicate OnlyDigits(s: string) {
    forall k :: 0 <= k < |s| ==> IsDigit(s[k])
  }

  /** str.isdigit() restricted to ASCII digits: false on the empty string. */
  predicate IsDigitString(s: string) {
    |s| > 0 && OnlyDigits(s)
  }

  /** int(s) on a string of decimal digits (leading zeros allowed; "" counts as 0). */
  function DigitsValue(s: string): nat
    requires OnlyDigits(s)
  {
    if |s| == 0 then 0
    else 10 * DigitsValue(s[..|s| - 1]) + (s[|s| - 1] as int - '0' as int)
  }

  /** Length of the run of non-whitespace characters that starts `s`. */
  function TokenLen(s: string): (n: nat)
    ensures n <= |s|
  {
    if |s| == 0 || IsSpace(s[0]) then 0 else 1 + TokenLen(s[1..])
  }

  /** TokenLen measures a maximal run: no whitespace inside, whitespace or the end right after. */
  lemma {:induction false} TokenLenIsRun(s: string)
    ensures forall k :: 0 <= k < TokenLen(s) ==> !IsSpace(s[k])
    ensures TokenLen(s) < |s| ==> IsSpace(s[TokenLen(s)])
  {
    if |s| > 0 && !IsSpace(s[0]) {
      TokenLenIsRun(s[1..]);
      assert forall k :: 1 <= k < |s| ==> s[k] == s[1..][k - 1];
    }
  }

  /** The non-whitespace characters of `s`, in order. */
  function NonSpace(s: string): string {
    if |s| == 0 then []
    else if IsSpace(s[0]) then NonSpace(s[1..])
    else [s[0]] + NonSpace(s[1..])
  }

  function Concat(ts: seq<string>): string {
    if |ts| == 0 then [] else ts[0] + Concat(ts[1..])
  }

  /** ' '.join(ts). */
  function Join(ts: seq<string>): string {
    if |ts| == 0 then []
    else if |ts| == 1 then ts[0]
    else ts[0] + " " + Join(ts[1..])
  }

  /** Python's s.split() with no separator: the maximal runs of non-whitespace characters, in order. */
  function Split(s: string): seq<string>
    decreases |s|
  {
    if |s| == 0 then []
    else if IsSpace(s[0]) then Split(s[1..])
    else
      var n := TokenLen(s);
      [s[..n]] + Split(s[n..])
  }

  /**
   * Every token of a split is non-empty and holds no whitespace, and
   * together the tokens are exactly the non-whitespace characters of `s`.
   */
  lemma {:induction false} SplitTokens(s: string)
    ensures forall t :: t in Split(s) ==> |t| > 0 && NoSpace(t)
    ensures Concat(Split(s)) == NonSpace(s)
    decreases |s|
  {
    if |s| > 0 {
      if IsSpace(s[0]) {
        SplitTokens(s[1..]);
      } else {
        var n := TokenLen(s);
        TokenLenIsRun(s);
        SplitTokens(s[n..]);
        NonSpaceToken(s);
        assert Split(s) == [s[..n]] + Split(s[n..]);
      }
    }
  }

  /** gaps[0] + ts[0] + gaps[1] + ... + ts[n - 1] + gaps[n]. */
  function Interleave(gaps: seq<string>, ts: seq<string>): string
    requires |gaps| == |ts| + 1
  {
    if |ts| == 0 then gaps[0] else gaps[0] + ts[0] + Interleave(gaps[1..], ts[1..])
  }

  /**
   * The whitespace around and between n tokens: n + 1 blank gaps, those
   * between two tokens non-empty.
   */
  predicate Separators(gaps: seq<string>, n: nat) {
    |gaps| == n + 1
    && (forall k :: 0 <= k < |gaps| ==> IsBlank(gaps[k]))
    && (forall k :: 0 < k < n ==> |gaps[k]| > 0)
  }

  /**
   * The split takes `s` apart into its tokens and the whitespace around
   * them: `s` is the tokens interleaved with blank gaps, every gap between
   * two tokens non-empty. With SplitTokens (tokens non-empty, without
   * whitespace) this makes every token a maximal run: no token is cut in
   * two and no two runs are merged.
   */
  lemma SplitIsMaximalRuns(s: string)
    ensures exists gaps :: Separators(gaps, |Split(s)|) && s == Interleave(gaps, Split(s))
  {
    var gaps := SplitGaps(s);
  }

  /** The gaps of SplitIsMaximalRuns, built by induction on `s`. */
  lemma {:induction false} SplitGaps(s: string) returns (gaps: seq<string>)
    ensures Separators(gaps, |Split(s)|)
    ensures s == Interleave(gaps, Split(s))
    ensures |s| > 0 && IsSpace(s[0]) ==> |gaps[0]| > 0
    decreases |s|
  {
    if |s| == 0 {
      gaps := [[]];
    } else if IsSpace(s[0]) {
      var g := SplitGaps(s[1..]);
      gaps := LeadingSpaceGaps(s, g);
    } else {
      var g := SplitGaps(s[TokenLen(s)..]);
      gaps := [[]] + g;
      TokenGaps(s, g);
    }
  }

  /** Leading whitespace joins the first gap. */
  lemma LeadingSpaceGaps(s: string, g: seq<string>) returns (gaps: seq<string>)
    requires |s| > 0 && IsSpace(s[0])
    requires Separators(g, |Split(s[1..])|)
    requires s[1..] == Interleave(g, Split(s[1..]))
    ensures Separators(gaps, |Split(s)|)
    ensures s == Interleave(gaps, Split(s))
    ensures |gaps[0]| > 0
  {
    var ts := Split(s[1..]);
    assert Split(s) == ts;
    gaps := [[s[0]] + g[0]] + g[1..];
    assert gaps[1..] == g[1..];
    BlankCons(s[0], g[0]);
    assert forall k :: 0 < k < |gaps| ==> gaps[k] == g[k];
    assert s == [s[0]] + s[1..];
  }

  lemma BlankCons(c: char, g: string)
    requires IsSpace(c) && IsBlank(g)
    ensures IsBlank([c] + g)
  {
    assert forall k :: 0 < k < |[c] + g| ==> ([c] + g)[k] == g[k - 1];
  }

  /** A token opens with an empty gap; the gap after it is the whitespace that ends it. */
  lemma TokenGaps(s: string, g: seq<string>)
    requires |s| > 0 && !IsSpace(s[0])
    requires Separators(g, |Split(s[TokenLen(s)..])|)
    requires s[TokenLen(s)..] == Interleave(g, Split(s[TokenLen(s)..]))
    requires |s[TokenLen(s)..]| > 0 && IsSpace(s[TokenLen(s)..][0]) ==> |g[0]| > 0
    ensures Separators([[]] + g, |Split(s)|)
    ensures s == Interleave([[]] + g, Split(s))
  {
    var n := TokenLen(s);
    var rest := s[n..];
    var ts := Split(rest);
    assert Split(s) == [s[..n]] + ts;
    var gaps := [[]] + g;
    assert gaps[1..] == g;
    assert ([s[..n]] + ts)[1..] == ts;
    assert s == s[..n] + rest;
    assert Separators(gaps, |ts| + 1) by {
      if |ts| > 0 {
        TokenLenIsRun(s);
        assert IsSpace(rest[0]);
      }
      assert forall k :: 0 < k < |gaps| ==> gaps[k] == g[k - 1];
    }
  }

  lemma SplitTokenNonEmpty(s: string, i: nat)
    requires i < |Split(s)|
    ensures |Split(s)[i]| > 0
  {
    SplitTokens(s);
    assert Split(s)[i] in Split(s);
  }

  /** NonSpace keeps the leading token whole and goes on after it. */
  lemma {:induction false} NonSpaceToken(s: string)
    ensures NonSpace(s) == s[..TokenLen(s)] + NonSpace(s[TokenLen(s)..])
  {
    if |s| > 0 && !IsSpace(s[0]) {
      var rest := s[1..];
      NonSpaceToken(rest);
      var n := TokenLen(s);
      assert n == 1 + TokenLen(rest);
      assert rest[n - 1..] == s[n..];
      assert [s[0]] + rest[..n - 1] == s[..n];
    } else {
      assert s[..0] == [] && s[0..] == s;
    }
  }

  /** A line is blank (`not line.strip()`) exactly when it splits into no tokens. */
  lemma {:induction false} BlankIffNoTokens(s: string)
    ensures IsBlank(s) <==> Split(s) == []
    decreases |s|
  {
    if |s| > 0 {
      if IsSpace(s[0]) {
        BlankIffNoTokens(s[1..]);
        assert IsBlank(s) <==> IsBlank(s[1..]);
      } else {
        assert !IsBlank(s);
      }
    }
  }

  /** Joining two non-empty runs of tokens puts one space between the two joins. */
  lemma {:induction false} JoinAppend(a: seq<string>, b: seq<string>)
    requires |a| > 0 && |b| > 0
    ensures Join(a + b) == Join(a) + " " + Join(b)
  {
    if |a| == 1 {
      assert (a + b)[1..] == b;
    } else {
      JoinAppend(a[1..], b);
      assert (a + b)[1..] == a[1..] + b;
    }
  }

  /** A join of non-empty tokens is non-empty. */
  lemma JoinNonEmpty(ts: seq<string>)
    requires |ts| > 0 && |ts[0]| > 0
    ensures |Join(ts)| > 0
  {
  }

  /** Leading whitespace is skipped by the split. */
  lemma SplitLeadingSpace(s: string)
    requires |s| > 0 && IsSpace(s[0])
    ensures Split(s) == Split(s[1..])
  {
  }

  /**
   * Round trip: splitting the ' '.join of tokens that are non-empty and
   * free of whitespace gives those tokens back.
   */
  lemma {:induction false} SplitJoin(ts: seq<string>)
    requires forall k :: 0 <= k < |ts| ==> |ts[k]| > 0 && NoSpace(ts[k])
    ensures Split(Join(ts)) == ts
  {
    if |ts| == 0 {
    } else {
      var t := ts[0];
      var s := Join(ts);
      var rest := if |ts| == 1 then [] else " " + Join(ts[1..]);
      assert s == t + rest;
      assert s[0] == t[0];
      var n := TokenLen(s);
      TokenLenIsRun(s);
      assert n == |t| by {
        assert forall k :: 0 <= k < |t| ==> s[k] == t[k];
        assert |rest| > 0 ==> s[|t|] == ' ';
      }
      assert s[..n] == t;
      assert s[n..] == rest;
      if |ts| > 1 {
        SplitLeadingSpace(rest);
        assert rest[1..] == Join(ts[1..]);
        SplitJoin(ts[1..]);
      }
      assert ts == [t] + ts[1..];
    }
  }

  /** The prefix test used by Contains, one character at a time. */
  predicate StartsWith(s: string, prefix: string) {
    |prefix| == 0 || (|s| > 0 && s[0] == prefix[0] && StartsWith(s[1..], prefix[1..]))
  }

  /** StartsWith is the comparison of the first |prefix| characters of `s` with `prefix`. */
  lemma {:induction false} StartsWithSlice(s: string, prefix: string)
    ensures StartsWith(s, prefix) <==> |prefix| <= |s| && s[..|prefix|] == prefix
  {
    if |prefix| > 0 && |s| > 0 {
      StartsWithSlice(s[1..], prefix[1..]);
      if |prefix| <= |s| {
        assert s[..|prefix|] == [s[0]] + s[1..][..|prefix| - 1];
        assert prefix == [prefix[0]] + prefix[1..];
      }
    }
  }

  /** Python's `sub in s`: `sub` occurs somewhere in `s`. */
  predicate Contains(s: string, sub: string) {
    StartsWith(s, sub) || (|s| > 0 && Contains(s[1..], sub))
  }

  /** Contains holds exactly when `sub` sits at some index of `s`. */
  lemma {:induction false} ContainsAt(s: string, sub: string)
    ensures Contains(s, sub) <==> exists i :: 0 <= i <= |s| - |sub| && StartsWith(s[i..], sub)
  {
    StartsWithSlice(s, sub);
    assert s[0..] == s;
    if |s| > 0 {
      ContainsAt(s[1..], sub);
      if Contains(s[1..], sub) {
        var i :| 0 <= i <= |s| - 1 - |sub| && StartsWith(s[1..][i..], sub);
        assert s[1..][i..] == s[i + 1..];
      }
      if i :| 0 <= i <= |s| - |sub| && StartsWith(s[i..], sub) {
        if i > 0 {
          assert s[1..][i - 1..] == s[i..];
        }
      }
    }
  }
}
