/**
 * The operations of Rust's `str` that the build front half relies on:
 * `lines`, `strip_prefix`, `trim_start`, `trim`, `find`, `to_uppercase`
 * and `replace`, stated over `seq<char>` with the meaning the Rust standard
 * library documents for them.
 */
module RustStr {
  import opened Wrappers

  /** `char::is_whitespace`: the characters with the Unicode White_Space property. */
  predicate IsWhitespace(c: char) {
    || c == '\t' || c == '\n' || c == '\U{B}' || c == '\U{C}' || c == '\r' || c == ' '
    || c == '\U{85}' || c == '\U{A0}' || c == '\U{1680}'
    || ('\U{2000}' <= c <= '\U{200A}')
    || c == '\U{2028}' || c == '\U{2029}' || c == '\U{202F}' || c == '\U{205F}' || c == '\U{3000}'
  }

  predicate AllWhitespace(s: string) {
    forall i :: 0 <= i < |s| ==> IsWhitespace(s[i])
  }

  /** `char::is_ascii_alphabetic` */
  predicate IsAsciiAlphabetic(c: char) {
    'a' <= c <= 'z' || 'A' <= c <= 'Z'
  }

  /** `char::is_ascii_alphanumeric` */
  predicate IsAsciiAlphanumeric(c: char) {
    IsAsciiAlphabetic(c) || '0' <= c <= '9'
  }

  /** `str::strip_prefix`: the rest of `s` when it starts with `prefix`. */
  function StripPrefix(s: string, prefix: string): (r: Option<string>)
    ensures r.Some? <==> |prefix| <= |s| && s[..|prefix|] == prefix
    ensures r.Some? ==> s == prefix + r.value
  {
    if |prefix| <= |s| && s[..|prefix|] == prefix then Some(s[|prefix|..]) else None
  }

  /** `str::trim_start`: drops the leading whitespace and nothing else. */
  function TrimStart(s: string): (r: string)
    ensures |r| <= |s| && r == s[|s| - |r|..]
    ensures AllWhitespace(s[..|s| - |r|])
    ensures r == [] || !IsWhitespace(r[0])
    decreases |s|
  {
    if |s| > 0 && IsWhitespace(s[0]) then
      var r := TrimStart(s[1..]);
      assert s[1..][|s[1..]| - |r|..] == s[|s| - |r|..];
      assert s[..|s| - |r|] == [s[0]] + s[1..][..|s[1..]| - |r|];
      AllWhitespaceConcat([s[0]], s[1..][..|s[1..]| - |r|]);
      r
    else
      assert s[..0] == [];
      s
  }

  /** `str::trim_end`: drops the trailing whitespace and nothing else. */
  function TrimEnd(s: string): (r: string)
    ensures |r| <= |s| && r == s[..|r|]
    ensures AllWhitespace(s[|r|..])
    ensures r == [] || !IsWhitespace(r[|r| - 1])
    decreases |s|
  {
    if |s| > 0 && IsWhitespace(s[|s| - 1]) then
      var init := s[..|s| - 1];
      var r := TrimEnd(init);
      assert init[..|r|] == s[..|r|];
      assert s[|r|..] == init[|r|..] + [s[|s| - 1]];
      AllWhitespaceConcat(init[|r|..], [s[|s| - 1]]);
      r
    else
      assert s[|s|..] == [];
      s
  }

  /** `str::trim`: both ends. */
  function Trim(s: string): string {
    TrimEnd(TrimStart(s))
  }

  /** `str::find` with a `char` pattern: the position of the first occurrence. */
  function Find(s: string, c: char): (r: Option<nat>)
    ensures r.None? <==> c !in s
    ensures r.Some? ==> r.value < |s| && s[r.value] == c && c !in s[..r.value]
    decreases |s|
  {
    if |s| == 0 then None
    else if s[0] == c then Some(0)
    else match Find(s[1..], c)
      case None => None
      case Some(k) => Some(k + 1)
  }

  /** `to_uppercase` on the ASCII range; every other character is kept. */
  function AsciiUpper(c: char): (u: char)
    ensures IsAsciiAlphanumeric(c) <==> IsAsciiAlphanumeric(u)
    ensures u == '_' <==> c == '_'
    ensures 'a' <= c <= 'z' ==> 'A' <= u <= 'Z' && u as int == c as int - 32
  {
    if 'a' <= c <= 'z' then (c as int - 32) as char else c
  }

  function ToUppercase(s: string): (r: string)
    ensures |r| == |s|
    ensures forall i :: 0 <= i < |s| ==> r[i] == AsciiUpper(s[i])
  {
    seq(|s|, i requires 0 <= i < |s| => AsciiUpper(s[i]))
  }

  /** A line terminator is "\n" or "\r\n": the "\r" goes only when a "\n" ended the line. */
  function StripCr(line: string): string {
    if |line| > 0 && line[|line| - 1] == '\r' then line[..|line| - 1] else line
  }

  /**
   * `str::lines`: the text split at each "\n" (a "\r" right before it goes too);
   * the final line ending is optional, and the empty text has no lines.
   */
  function Lines(s: string): (r: seq<string>)
    ensures |r| == 0 <==> |s| == 0
    decreases |s|
  {
    if |s| == 0 then []
    else match Find(s, '\n')
      case None => [s]
      case Some(k) => [StripCr(s[..k])] + Lines(s[k + 1..])
  }

  /** No line holds a line break. */
  lemma {:induction false} LinesHaveNoBreaks(s: string)
    ensures forall k :: 0 <= k < |Lines(s)| ==> '\n' !in Lines(s)[k]
    decreases |s|
  {
    if |s| > 0 && Find(s, '\n').Some? {
      var k := Find(s, '\n').value;
      LinesUnfold(s, k);
      LinesHaveNoBreaks(s[k + 1..]);
      assert '\n' !in StripCr(s[..k]);
    }
  }

  /** `pat` occurs in `s` starting at position `i`. */
  predicate MatchAt(s: string, pat: string, i: int) {
    0 <= i && i + |pat| <= |s| && s[i..i + |pat|] == pat
  }

  /**
   * `str::replace`: every occurrence of `pat` found by a left-to-right scan,
   * occurrences never overlapping, is replaced by `rep`.
   */
  function Replace(s: string, pat: string, rep: string): string
    requires |pat| > 0
    decreases |s|
  {
    if |s| < |pat| then s
    else if s[..|pat|] == pat then rep + Replace(s[|pat|..], pat, rep)
    else [s[0]] + Replace(s[1..], pat, rep)
  }

  // ---------------------------------------------------------------------
  // Lemmas
  // ---------------------------------------------------------------------

  /** Leading whitespace in front of a text that starts with something else is exactly what trim_start drops. */
  lemma {:induction false} TrimStartOf(ws: string, x: string)
    requires AllWhitespace(ws)
    requires x == [] || !IsWhitespace(x[0])
    ensures TrimStart(ws + x) == x
    decreases |ws|
  {
    if ws != [] {
      assert (ws + x)[1..] == ws[1..] + x;
      TrimStartOf(ws[1..], x);
    }
  }

  /** Trailing whitespace after a text that ends with something else is exactly what trim_end drops. */
  lemma {:induction false} TrimEndOf(x: string, ws: string)
    requires AllWhitespace(ws)
    requires x == [] || !IsWhitespace(x[|x| - 1])
    ensures TrimEnd(x + ws) == x
    decreases |ws|
  {
    if ws != [] {
      assert (x + ws)[..|x + ws| - 1] == x + ws[..|ws| - 1];
      TrimEndOf(x, ws[..|ws| - 1]);
    }
  }

  /** Every text is its leading whitespace followed by what trim_start keeps. */
  lemma SplitLeadingWhitespace(s: string) returns (ws: string)
    ensures AllWhitespace(ws) && s == ws + TrimStart(s)
  {
    ws := s[..|s| - |TrimStart(s)|];
  }

  /** Every text is what trim_end keeps followed by its trailing whitespace. */
  lemma SplitTrailingWhitespace(s: string) returns (ws: string)
    ensures AllWhitespace(ws) && s == TrimEnd(s) + ws
  {
    ws := s[|TrimEnd(s)|..];
  }

  lemma SplitAtChar(s: string, k: nat)
    requires k < |s|
    ensures s == s[..k] + [s[k]] + s[k + 1..]
  {
  }

  lemma AllWhitespaceConcat(a: string, b: string)
    requires AllWhitespace(a) && AllWhitespace(b)
    ensures AllWhitespace(a + b)
  {
    forall i | 0 <= i < |a + b| ensures IsWhitespace((a + b)[i]) {
      if i < |a| { assert (a + b)[i] == a[i]; } else { assert (a + b)[i] == b[i - |a|]; }
    }
  }

  /** A text that starts with `prefix` loses exactly the prefix. */
  lemma StripPrefixOf(prefix: string, rest: string)
    ensures StripPrefix(prefix + rest, prefix) == Some(rest)
  {
    assert (prefix + rest)[..|prefix|] == prefix;
  }

  /** The first `c` is found right after a prefix that does not hold one. */
  lemma {:induction false} FindAfter(x: string, c: char, y: string)
    requires c !in x
    ensures Find(x + [c] + y, c) == Some(|x|)
    decreases |x|
  {
    if x != [] {
      assert (x + [c] + y)[1..] == x[1..] + [c] + y;
      FindAfter(x[1..], c, y);
    }
  }

  /** Splitting into lines commutes with concatenation after a complete line. */
  lemma {:induction false} LinesConcat(a: string, b: string)
    requires a == [] || a[|a| - 1] == '\n'
    ensures Lines(a + b) == Lines(a) + Lines(b)
    decreases |a|
  {
    if a == [] {
      assert a + b == b;
    } else {
      var k := FindInPrefix(a, '\n', b);
      var line := StripCr(a[..k]);
      var a' := a[k + 1..];
      assert Lines(a) == [line] + Lines(a') by { LinesUnfold(a, k); }
      assert Lines(a + b) == [line] + Lines(a' + b) by { LinesUnfoldConcat(a, b, k); }
      assert a' == [] || a'[|a'| - 1] == '\n' by {
        if a' != [] {
          assert a'[|a'| - 1] == a[|a| - 1];
        }
      }
      LinesConcat(a', b);
      ConsAssoc(line, Lines(a'), Lines(b));
    }
  }

  lemma LinesUnfoldConcat(a: string, b: string, k: nat)
    requires k < |a| && Find(a + b, '\n') == Some(k)
    ensures Lines(a + b) == [StripCr(a[..k])] + Lines(a[k + 1..] + b)
  {
    assert (a + b)[..k] == a[..k];
    assert (a + b)[k + 1..] == a[k + 1..] + b;
    LinesUnfold(a + b, k);
  }

  lemma ConsAssoc<T>(x: T, s: seq<T>, t: seq<T>)
    ensures [x] + (s + t) == ([x] + s) + t
  {
  }

  /** A character that occurs in `a` is found in `a + b` where it is found in `a`. */
  lemma FindInPrefix(a: string, c: char, b: string) returns (k: nat)
    requires c in a
    ensures Find(a, c) == Some(k) && Find(a + b, c) == Some(k)
  {
    k := Find(a, c).value;
    SplitAtChar(a, k);
    assert a + b == a[..k] + [c] + (a[k + 1..] + b);
    FindAfter(a[..k], c, a[k + 1..] + b);
  }

  lemma LinesUnfold(s: string, k: nat)
    requires Find(s, '\n') == Some(k)
    ensures Lines(s) == [StripCr(s[..k])] + Lines(s[k + 1..])
  {
  }

  /** A text without a line break, terminated by one, is a single line (without a final "\r"). */
  lemma LinesOfLineCr(x: string)
    requires '\n' !in x
    ensures Lines(x + "\n") == [StripCr(x)]
  {
    FindAfter(x, '\n', "");
    assert (x + "\n")[..|x|] == x;
    assert (x + "\n")[|x| + 1..] == [];
  }

  /** A text without a line break is one line, kept whole, unless it is empty. */
  lemma LinesOfUnterminated(x: string)
    requires '\n' !in x
    ensures Lines(x) == if x == [] then [] else [x]
  {
  }

  /** Every text is its complete lines followed by an unterminated last line (possibly empty). */
  lemma {:induction false} SplitLastLine(s: string) returns (complete: string, last: string)
    ensures s == complete + last
    ensures complete == [] || complete[|complete| - 1] == '\n'
    ensures '\n' !in last
    decreases |s|
  {
    if s == [] {
      complete, last := [], [];
    } else if s[|s| - 1] == '\n' {
      complete, last := s, [];
    } else {
      var c, l := SplitLastLine(s[..|s| - 1]);
      complete, last := c, l + [s[|s| - 1]];
      assert s == s[..|s| - 1] + [s[|s| - 1]];
    }
  }

  /** Without an occurrence of the pattern, replace changes nothing. */
  lemma {:induction false} ReplaceNoMatch(s: string, pat: string, rep: string)
    requires |pat| > 0
    requires forall i :: !MatchAt(s, pat, i)
    ensures Replace(s, pat, rep) == s
    decreases |s|
  {
    if |s| >= |pat| {
      ReplaceSkipsFirst(s, pat, rep);
      NoMatchInTail(s, pat);
      ReplaceNoMatch(s[1..], pat, rep);
      assert [s[0]] + s[1..] == s;
    }
  }

  lemma NoMatchInTail(s: string, pat: string)
    requires |s| > 0
    requires forall i :: !MatchAt(s, pat, i)
    ensures forall i :: !MatchAt(s[1..], pat, i)
  {
    forall i ensures !MatchAt(s[1..], pat, i) {
      if 0 <= i && i + |pat| <= |s[1..]| {
        assert s[1..][i..i + |pat|] == s[i + 1..i + 1 + |pat|];
        assert !MatchAt(s, pat, i + 1);
      }
    }
  }

  /** The first occurrence found by the scan is replaced and the text before it is kept. */
  lemma {:induction false} ReplaceAtFirst(pre: string, pat: string, post: string, rep: string)
    requires |pat| > 0
    requires forall i :: 0 <= i < |pre| ==> !MatchAt(pre + pat + post, pat, i)
    ensures Replace(pre + pat + post, pat, rep) == pre + rep + Replace(post, pat, rep)
    decreases |pre|
  {
    if pre == [] {
      ReplaceAtStart(pat, post, rep);
    } else {
      var s := pre + pat + post;
      ReplaceSkipsFirst(s, pat, rep);
      assert s[1..] == pre[1..] + pat + post;
      NoMatchShifted(pre, pat, post);
      ReplaceAtFirst(pre[1..], pat, post, rep);
      assert [s[0]] + (pre[1..] + rep + Replace(post, pat, rep)) == pre + rep + Replace(post, pat, rep);
    }
  }

  /** An occurrence that is the only one in the text is all that replace changes. */
  lemma ReplaceOnly(s: string, pre: string, pat: string, post: string, rep: string)
    requires |pat| > 0 && s == pre + pat + post
    requires forall i :: MatchAt(s, pat, i) ==> i == |pre|
    ensures Replace(s, pat, rep) == pre + rep + post
  {
    ReplaceAtFirst(pre, pat, post, rep);
    forall j ensures !MatchAt(post, pat, j) {
      if MatchAt(post, pat, j) {
        MatchShift(pre + pat, post, pat, j);
      }
    }
    ReplaceNoMatch(post, pat, rep);
  }

  /** An occurrence in the second part of a text is one in the whole text, shifted by the first part. */
  lemma MatchShift(a: string, b: string, pat: string, j: int)
    requires MatchAt(b, pat, j)
    ensures MatchAt(a + b, pat, |a| + j)
  {
    assert (a + b)[|a| + j..|a| + j + |pat|] == b[j..j + |pat|];
  }

  lemma ReplaceAtStart(pat: string, post: string, rep: string)
    requires |pat| > 0
    ensures Replace([] + pat + post, pat, rep) == rep + Replace(post, pat, rep)
  {
    var s := [] + pat + post;
    assert s[..|pat|] == pat;
    assert s[|pat|..] == post;
  }

  lemma ReplaceSkipsFirst(s: string, pat: string, rep: string)
    requires |pat| > 0 && |s| > 0 && !MatchAt(s, pat, 0)
    ensures Replace(s, pat, rep) == [s[0]] + Replace(s[1..], pat, rep)
  {
    if |s| < |pat| {
      assert s == [s[0]] + s[1..];
    }
  }

  lemma NoMatchShifted(pre: string, pat: string, post: string)
    requires |pre| > 0
    requires forall i :: 0 <= i < |pre| ==> !MatchAt(pre + pat + post, pat, i)
    ensures !MatchAt(pre + pat + post, pat, 0)
    ensures forall i :: 0 <= i < |pre[1..]| ==> !MatchAt(pre[1..] + pat + post, pat, i)
  {
    var s := pre + pat + post;
    assert s[1..] == pre[1..] + pat + post;
    forall i | 0 <= i < |pre[1..]| ensures !MatchAt(pre[1..] + pat + post, pat, i) {
      if i + |pat| <= |s[1..]| {
        assert s[1..][i..i + |pat|] == s[i + 1..i + 1 + |pat|];
        assert !MatchAt(s, pat, i + 1);
      }
    }
  }

  // ---------------------------------------------------------------------
  // Text assembled from lines
  // ---------------------------------------------------------------------

  /** Each line followed by "\n": the text `str::lines` splits back into the same lines. */
  function Unlines(ls: seq<string>): string {
    if |ls| == 0 then "" else Unlines(ls[..|ls| - 1]) + ls[|ls| - 1] + "\n"
  }

  /** A line that survives a round trip through `lines`: no line break, no final carriage return. */
  predicate PlainLine(l: string) {
    '\n' !in l && (l == [] || l[|l| - 1] != '\r')
  }

  lemma UnlinesEndsLine(ls: seq<string>)
    ensures Unlines(ls) == [] || Unlines(ls)[|Unlines(ls)| - 1] == '\n'
  {
  }

  lemma {:induction false} UnlinesAppend(a: seq<string>, b: seq<string>)
    ensures Unlines(a + b) == Unlines(a) + Unlines(b)
    decreases |b|
  {
    if b == [] {
      assert a + b == a;
    } else {
      var n := |b| - 1;
      assert (a + b)[..|a + b| - 1] == a + b[..n];
      assert (a + b)[|a + b| - 1] == b[n];
      UnlinesAppend(a, b[..n]);
    }
  }

  /** Splitting the text assembled from plain lines gives those lines back. */
  lemma {:induction false} LinesOfUnlines(ls: seq<string>)
    requires forall k :: 0 <= k < |ls| ==> PlainLine(ls[k])
    ensures Lines(Unlines(ls)) == ls
    decreases |ls|
  {
    if ls != [] {
      var n := |ls| - 1;
      var init := ls[..n];
      assert Lines(Unlines(init)) == init by {
        assert forall k :: 0 <= k < |init| ==> init[k] == ls[k];
        LinesOfUnlines(init);
      }
      LinesOfUnlinesStep(init, ls[n]);
      assert init + [ls[n]] == ls;
    }
  }

  lemma LinesOfUnlinesStep(init: seq<string>, l: string)
    requires Lines(Unlines(init)) == init
    requires PlainLine(l)
    ensures Lines(Unlines(init + [l])) == init + [l]
  {
    assert (init + [l])[..|init|] == init;
    assert Unlines(init + [l]) == Unlines(init) + (l + "\n");
    UnlinesEndsLine(init);
    LinesConcat(Unlines(init), l + "\n");
    LinesOfLineCr(l);
  }
}
