/**
 * The pieces of Rust's `str` API that the shell relies on, over `string`
 * (a sequence of Unicode scalar values, as a Rust `&str` is):
 * `split_whitespace`, `trim`, `split(':')` and `join("")`.
 */
module Text {

  /** The characters with the Unicode White_Space property. */
  const Whitespace: set<char> := {
    '\t', '\n', '\U{000B}', '\U{000C}', '\r', ' ', '\U{0085}', '\U{00A0}', '\U{1680}',
    '\U{2000}', '\U{2001}', '\U{2002}', '\U{2003}', '\U{2004}', '\U{2005}', '\U{2006}',
    '\U{2007}', '\U{2008}', '\U{2009}', '\U{200A}', '\U{2028}', '\U{2029}', '\U{202F}',
    '\U{205F}', '\U{3000}'
  }

  /** `char::is_whitespace`. */
  predicate IsWhitespace(c: char) {
    c in Whitespace
  }

  predicate NoWhitespace(s: string) {
    forall i :: 0 <= i < |s| ==> !IsWhitespace(s[i])
  }

  predicate AllWhitespace(s: string) {
    forall i :: 0 <= i < |s| ==> IsWhitespace(s[i])
  }

  /** Length of the longest all-whitespace prefix of `s`. */
  function LeadingWhitespace(s: string): (r: nat)
    ensures r <= |s| && forall i :: 0 <= i < r ==> IsWhitespace(s[i])
    ensures r < |s| ==> !IsWhitespace(s[r])
  {
    if s == [] || !IsWhitespace(s[0]) then 0
    else 1 + LeadingWhitespace(s[1..])
  }

  /** Length of the longest whitespace-free prefix of `s`. */
  function WordLength(s: string): (r: nat)
    ensures r <= |s| && forall i :: 0 <= i < r ==> !IsWhitespace(s[i])
    ensures r < |s| ==> IsWhitespace(s[r])
  {
    if s == [] || IsWhitespace(s[0]) then 0
    else 1 + WordLength(s[1..])
  }

  /**
   * `str::split_whitespace`: the maximal runs of non-whitespace characters,
   * left to right. Quotes and backslashes are ordinary characters.
   */
  function SplitWhitespace(s: string): (r: seq<string>)
    ensures forall i :: 0 <= i < |r| ==> r[i] != [] && NoWhitespace(r[i])
    decreases |s|
  {
    var rest := s[LeadingWhitespace(s)..];
    if rest == [] then []
    else
      var n := WordLength(rest);
      [rest[..n]] + SplitWhitespace(rest[n..])
  }

  /** The whitespace runs that `SplitWhitespace` throws away, one more than the words. */
  ghost function Gaps(s: string): seq<string>
    decreases |s|
  {
    var l := LeadingWhitespace(s);
    var rest := s[l..];
    if rest == [] then [s]
    else
      var n := WordLength(rest);
      [s[..l]] + Gaps(rest[n..])
  }

  /** `gaps[0] + toks[0] + gaps[1] + ... + toks[k-1] + gaps[k]`. */
  function Interleave(gaps: seq<string>, toks: seq<string>): string
    requires |gaps| == |toks| + 1
  {
    if toks == [] then gaps[0]
    else gaps[0] + toks[0] + Interleave(gaps[1..], toks[1..])
  }

  /**
   * `toks` are words and `gaps` whitespace runs such that interleaving them
   * keeps neighbouring words apart: the inner gaps are non-empty.
   */
  ghost predicate WellSeparated(gaps: seq<string>, toks: seq<string>) {
    && |gaps| == |toks| + 1
    && (forall i :: 0 <= i < |gaps| ==> AllWhitespace(gaps[i]))
    && (forall i :: 0 < i < |toks| ==> gaps[i] != [])
    && (forall i :: 0 <= i < |toks| ==> toks[i] != [] && NoWhitespace(toks[i]))
  }

  lemma LeadingWhitespaceAfterBlank(w: string, x: string)
    requires AllWhitespace(w)
    requires x == [] || !IsWhitespace(x[0])
    ensures LeadingWhitespace(w + x) == |w|
    decreases |w|
  {
    if w == [] {
      assert w + x == x;
    } else {
      assert (w + x)[0] == w[0] && IsWhitespace(w[0]);
      assert (w + x)[1..] == w[1..] + x;
      LeadingWhitespaceAfterBlank(w[1..], x);
    }
  }

  lemma WordLengthBeforeBlank(t: string, x: string)
    requires NoWhitespace(t)
    requires x == [] || IsWhitespace(x[0])
    ensures WordLength(t + x) == |t|
    decreases |t|
  {
    if t == [] {
      assert t + x == x;
    } else {
      assert (t + x)[0] == t[0] && !IsWhitespace(t[0]);
      assert (t + x)[1..] == t[1..] + x;
      WordLengthBeforeBlank(t[1..], x);
    }
  }

  /** One step of `SplitWhitespace` and `Gaps` on an input that has a word. */
  lemma SplitWhitespaceStep(s: string, l: nat, n: nat)
    requires l == LeadingWhitespace(s) && l < |s| && n == WordLength(s[l..])
    ensures 0 < n <= |s| - l
    ensures SplitWhitespace(s) == [s[l..][..n]] + SplitWhitespace(s[l..][n..])
    ensures Gaps(s) == [s[..l]] + Gaps(s[l..][n..])
    ensures s[l..][n..] == [] || IsWhitespace(s[l..][n..][0])
    ensures s == s[..l] + s[l..][..n] + s[l..][n..]
  {
    assert n > 0;
    SliceInThree(s, l, n);
  }

  lemma SliceInThree<T>(s: seq<T>, l: nat, n: nat)
    requires l + n <= |s|
    ensures s == s[..l] + s[l..][..n] + s[l..][n..]
  {
    assert s[l..] == s[l..][..n] + s[l..][n..];
  }

  lemma WellSeparatedCons(g0: string, t0: string, g: seq<string>, t: seq<string>)
    requires AllWhitespace(g0) && t0 != [] && NoWhitespace(t0)
    requires WellSeparated(g, t) && (t != [] ==> g[0] != [])
    ensures WellSeparated([g0] + g, [t0] + t)
    ensures Interleave([g0] + g, [t0] + t) == g0 + t0 + Interleave(g, t)
  {
    assert ([g0] + g)[1..] == g && ([t0] + t)[1..] == t;
  }

  /** Every string is its words interleaved with its whitespace runs. */
  lemma {:induction false} SplitWhitespaceRecomposes(s: string)
    ensures WellSeparated(Gaps(s), SplitWhitespace(s))
    ensures Interleave(Gaps(s), SplitWhitespace(s)) == s
    decreases |s|
  {
    var l := LeadingWhitespace(s);
    if l < |s| {
      var n := WordLength(s[l..]);
      SplitWhitespaceStep(s, l, n);
      var tail := s[l..][n..];
      SplitWhitespaceRecomposes(tail);
      var g, t := Gaps(tail), SplitWhitespace(tail);
      if t != [] {
        // the word before `tail` ended at a whitespace character, which opens g[0]
        var lt := LeadingWhitespace(tail);
        assert lt < |tail| by { SplitWhitespaceEmptyIffBlank(tail); }
        assert g[0] == tail[..lt];
        assert lt > 0;
      }
      WellSeparatedCons(s[..l], s[l..][..n], g, t);
    }
  }

  /** A whitespace run, then a word, then a break: the word comes out first. */
  lemma SplitWhitespaceCons(g0: string, t0: string, rest: string)
    requires AllWhitespace(g0) && t0 != [] && NoWhitespace(t0)
    requires rest == [] || IsWhitespace(rest[0])
    ensures SplitWhitespace(g0 + t0 + rest) == [t0] + SplitWhitespace(rest)
  {
    var s := g0 + t0 + rest;
    assert s == g0 + (t0 + rest);
    LeadingWhitespaceAfterBlank(g0, t0 + rest);
    assert s[|g0|..] == t0 + rest;
    WordLengthBeforeBlank(t0, rest);
    assert (t0 + rest)[..|t0|] == t0;
    assert (t0 + rest)[|t0|..] == rest;
  }

  lemma WellSeparatedTail(gaps: seq<string>, toks: seq<string>)
    requires WellSeparated(gaps, toks) && toks != []
    ensures WellSeparated(gaps[1..], toks[1..])
    ensures AllWhitespace(gaps[0]) && toks[0] != [] && NoWhitespace(toks[0])
    ensures |toks| > 1 ==> gaps[1] != []
  {
  }

  lemma InterleaveOpensWithGap(gaps: seq<string>, toks: seq<string>)
    requires |gaps| == |toks| + 1 && gaps[0] != []
    ensures Interleave(gaps, toks) != [] && Interleave(gaps, toks)[0] == gaps[0][0]
  {
  }

  /** Splitting words interleaved with whitespace runs gives back exactly the words. */
  lemma {:induction false} SplitWhitespaceOfInterleave(gaps: seq<string>, toks: seq<string>)
    requires WellSeparated(gaps, toks)
    ensures SplitWhitespace(Interleave(gaps, toks)) == toks
    decreases |toks|
  {
    if toks == [] {
      SplitWhitespaceEmptyIffBlank(gaps[0]);
    } else {
      WellSeparatedTail(gaps, toks);
      var rest := Interleave(gaps[1..], toks[1..]);
      SplitWhitespaceOfInterleave(gaps[1..], toks[1..]);
      if |toks| > 1 {
        InterleaveOpensWithGap(gaps[1..], toks[1..]);
      }
      SplitWhitespaceCons(gaps[0], toks[0], rest);
      assert toks == [toks[0]] + toks[1..];
    }
  }

  lemma InterleaveWidenFirst(w: string, gaps: seq<string>, toks: seq<string>)
    requires |gaps| == |toks| + 1
    ensures w + Interleave(gaps, toks) == Interleave([w + gaps[0]] + gaps[1..], toks)
  {
    var g' := [w + gaps[0]] + gaps[1..];
    assert g'[1..] == gaps[1..];
  }

  lemma {:induction false} InterleaveWidenLast(gaps: seq<string>, toks: seq<string>, w: string)
    requires |gaps| == |toks| + 1
    ensures Interleave(gaps, toks) + w == Interleave(gaps[..|toks|] + [gaps[|toks|] + w], toks)
    decreases |toks|
  {
    var g' := gaps[..|toks|] + [gaps[|toks|] + w];
    if toks == [] {
      assert g' == [gaps[0] + w];
    } else {
      var inner := Interleave(gaps[1..], toks[1..]);
      InterleaveWidenLast(gaps[1..], toks[1..], w);
      assert g'[0] == gaps[0];
      assert g'[1..] == gaps[1..][..|toks| - 1] + [gaps[1..][|toks| - 1] + w];
      assert Interleave(g', toks) == gaps[0] + toks[0] + (inner + w);
      assert Interleave(gaps, toks) == gaps[0] + toks[0] + inner;
    }
  }

  lemma WellSeparatedWiden(gaps: seq<string>, toks: seq<string>, w1: string, w2: string)
    requires WellSeparated(gaps, toks) && AllWhitespace(w1) && AllWhitespace(w2)
    ensures var g1 := [w1 + gaps[0]] + gaps[1..];
            WellSeparated(g1[..|toks|] + [g1[|toks|] + w2], toks)
  {
    var g1 := [w1 + gaps[0]] + gaps[1..];
    var g2 := g1[..|toks|] + [g1[|toks|] + w2];
    assert forall i :: 0 < i < |toks| ==> g2[i] == gaps[i];
    assert AllWhitespace(g1[0]);
    assert AllWhitespace(g1[|toks|] + w2);
  }

  /** Leading and trailing whitespace does not change the words. */
  lemma SplitWhitespaceIgnoresPadding(w1: string, s: string, w2: string)
    requires AllWhitespace(w1) && AllWhitespace(w2)
    ensures SplitWhitespace(w1 + s + w2) == SplitWhitespace(s)
  {
    SplitWhitespaceRecomposes(s);
    var g, t := Gaps(s), SplitWhitespace(s);
    var g1 := [w1 + g[0]] + g[1..];
    InterleaveWidenFirst(w1, g, t);
    var g2 := g1[..|t|] + [g1[|t|] + w2];
    InterleaveWidenLast(g1, t, w2);
    WellSeparatedWiden(g, t, w1, w2);
    SplitWhitespaceOfInterleave(g2, t);
  }

  lemma SplitWhitespaceEmptyIffBlank(s: string)
    ensures SplitWhitespace(s) == [] <==> AllWhitespace(s)
  {
    var l := LeadingWhitespace(s);
    if AllWhitespace(s) {
      assert l == |s|;
      assert s[l..] == [];
    } else {
      assert l < |s|;
      assert s[l..] != [];
    }
  }

  /** `remove all whitespace`: the characters of `s` that are not whitespace, in order. */
  function RemoveWhitespace(s: string): string {
    if s == [] then []
    else (if IsWhitespace(s[0]) then [] else [s[0]]) + RemoveWhitespace(s[1..])
  }

  /** `join("")`: the concatenation of `parts`. */
  function Concat(parts: seq<string>): string {
    if parts == [] then [] else parts[0] + Concat(parts[1..])
  }

  lemma {:induction false} RemoveWhitespaceAppend(x: string, y: string)
    ensures RemoveWhitespace(x + y) == RemoveWhitespace(x) + RemoveWhitespace(y)
    decreases |x|
  {
    if x == [] {
      assert x + y == y;
    } else {
      assert (x + y)[0] == x[0] && (x + y)[1..] == x[1..] + y;
      RemoveWhitespaceAppend(x[1..], y);
    }
  }

  lemma {:induction false} RemoveWhitespaceOfBlank(w: string)
    requires AllWhitespace(w)
    ensures RemoveWhitespace(w) == []
    decreases |w|
  {
    if w != [] { RemoveWhitespaceOfBlank(w[1..]); }
  }

  lemma {:induction false} RemoveWhitespaceOfWord(t: string)
    requires NoWhitespace(t)
    ensures RemoveWhitespace(t) == t
    decreases |t|
  {
    if t != [] {
      RemoveWhitespaceOfWord(t[1..]);
      assert t == [t[0]] + t[1..];
    }
  }

  lemma {:induction false} RemoveWhitespaceOfInterleave(gaps: seq<string>, toks: seq<string>)
    requires WellSeparated(gaps, toks)
    ensures RemoveWhitespace(Interleave(gaps, toks)) == Concat(toks)
    decreases |toks|
  {
    RemoveWhitespaceOfBlank(gaps[0]);
    if toks != [] {
      assert WellSeparated(gaps[1..], toks[1..]);
      RemoveWhitespaceOfInterleave(gaps[1..], toks[1..]);
      RemoveWhitespaceAppend(gaps[0] + toks[0], Interleave(gaps[1..], toks[1..]));
      RemoveWhitespaceAppend(gaps[0], toks[0]);
      RemoveWhitespaceOfWord(toks[0]);
    }
  }

  /**
   * The words hold every non-whitespace character of the input, in order and
   * unchanged: quotes and backslashes are kept verbatim.
   */
  lemma SplitWhitespaceKeepsCharacters(s: string)
    ensures Concat(SplitWhitespace(s)) == RemoveWhitespace(s)
  {
    SplitWhitespaceRecomposes(s);
    RemoveWhitespaceOfInterleave(Gaps(s), SplitWhitespace(s));
  }

  lemma {:induction false} ConcatOfWords(parts: seq<string>)
    requires forall i :: 0 <= i < |parts| ==> NoWhitespace(parts[i])
    ensures NoWhitespace(Concat(parts))
    decreases |parts|
  {
    if parts != [] {
      ConcatOfWords(parts[1..]);
    }
  }

  /** `str::trim_end`. */
  function TrimEnd(s: string): (r: string)
    ensures r == [] || !IsWhitespace(r[|r| - 1])
    ensures r <= s && AllWhitespace(s[|r|..])
  {
    if s != [] && IsWhitespace(s[|s| - 1]) then
      var r := TrimEnd(s[..|s| - 1]);
      assert s[|r|..] == s[..|s| - 1][|r|..] + [s[|s| - 1]];
      r
    else s
  }

  /** `str::trim`: `trim_end` after dropping the leading whitespace. */
  function Trim(s: string): (r: string)
    ensures var l := LeadingWhitespace(s);
            && l + |r| <= |s|
            && r == s[l..l + |r|]
            && AllWhitespace(s[l + |r|..])
    ensures r == [] || (!IsWhitespace(r[0]) && !IsWhitespace(r[|r| - 1]))
  {
    var l := LeadingWhitespace(s);
    var r := TrimEnd(s[l..]);
    PrefixOfSuffix(s, l, r);
    r
  }

  lemma PrefixOfSuffix<T>(s: seq<T>, l: nat, r: seq<T>)
    requires l <= |s| && r <= s[l..]
    ensures l + |r| <= |s| && r == s[l..l + |r|] && s[l..][|r|..] == s[l + |r|..]
    ensures r != [] ==> r[0] == s[l]
  {
  }

  /** Trimming is the identity on a string without whitespace. */
  lemma TrimOfWord(s: string)
    requires NoWhitespace(s)
    ensures Trim(s) == s
  {
    assert LeadingWhitespace(s) == 0;
    assert s[0..] == s;
  }

  /** Trimming a line never changes its words. */
  lemma SplitWhitespaceOfTrim(s: string)
    ensures SplitWhitespace(Trim(s)) == SplitWhitespace(s)
  {
    var l, r := LeadingWhitespace(s), Trim(s);
    SliceInThree(s, l, |r|);
    assert s[l..][..|r|] == r && s[l..][|r|..] == s[l + |r|..];
    SplitWhitespaceIgnoresPadding(s[..l], r, s[l + |r|..]);
  }

  /**
   * `str::split(sep)`: the pieces between separators, empty pieces included,
   * so a string with k separators has k + 1 pieces and "" has the one piece "".
   */
  function SplitOn(s: string, sep: char): (r: seq<string>)
    ensures |r| >= 1
    ensures forall i :: 0 <= i < |r| ==> sep !in r[i]
  {
    if s == [] then [""]
    else
      var tail := SplitOn(s[1..], sep);
      if s[0] == sep then [""] + tail
      else [[s[0]] + tail[0]] + tail[1..]
  }

  /** The pieces joined back with one `sep` between neighbours. */
  function JoinWith(parts: seq<string>, sep: char): string
    requires |parts| >= 1
  {
    if |parts| == 1 then parts[0] else parts[0] + [sep] + JoinWith(parts[1..], sep)
  }

  /** Joining the pieces restores the original string. */
  lemma {:induction false} JoinSplitOn(s: string, sep: char)
    ensures JoinWith(SplitOn(s, sep), sep) == s
  {
    if s != [] {
      var tail := SplitOn(s[1..], sep);
      JoinSplitOn(s[1..], sep);
      if s[0] == sep {
        assert ([""] + tail)[1..] == tail;
      } else {
        var r := [[s[0]] + tail[0]] + tail[1..];
        if |tail| > 1 {
          assert r[1..] == tail[1..];
        }
      }
    }
  }

  lemma {:induction false} SplitOnWithout(x: string, sep: char)
    requires sep !in x
    ensures SplitOn(x, sep) == [x]
    decreases |x|
  {
    if x != [] {
      SplitOnWithout(x[1..], sep);
      assert x == [x[0]] + x[1..];
    }
  }

  lemma {:induction false} SplitOnAtSeparator(x: string, sep: char, y: string)
    requires sep !in x
    ensures SplitOn(x + [sep] + y, sep) == [x] + SplitOn(y, sep)
    decreases |x|
  {
    var s := x + [sep] + y;
    if x == [] {
      assert s[1..] == y;
    } else {
      assert s[1..] == x[1..] + [sep] + y;
      SplitOnAtSeparator(x[1..], sep, y);
      assert x == [x[0]] + x[1..];
    }
  }

  /** Splitting separator-free pieces joined with the separator gives back the pieces. */
  lemma {:induction false} SplitOnJoin(parts: seq<string>, sep: char)
    requires |parts| >= 1
    requires forall i :: 0 <= i < |parts| ==> sep !in parts[i]
    ensures SplitOn(JoinWith(parts, sep), sep) == parts
    decreases |parts|
  {
    if |parts| == 1 {
      SplitOnWithout(parts[0], sep);
    } else {
      SplitOnJoin(parts[1..], sep);
      SplitOnAtSeparator(parts[0], sep, JoinWith(parts[1..], sep));
    }
  }
}
