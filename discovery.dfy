/**
 * Exported-function discovery: a line-based scan of the Python source for
 * top-level `def NAME(` lines (src/main.rs `find_exported_functions`).
 * It is a lexer, not a parser: only lines that begin with "def " at column 0
 * are looked at, and the name is the trimmed text up to the first "(".
 */
module Discovery {
  import opened Wrappers
  import opened RustStr

  /** The four checks a candidate name must pass before it is exported. */
  predicate IsExportableName(name: string) {
    && |name| > 0
    && name[0] != '_'
    && (forall c :: c in name ==> IsAsciiAlphanumeric(c) || c == '_')
    && IsAsciiAlphabetic(name[0])
  }

  /** The name a single source line contributes, if any. */
  function NameOfLine(line: string): Option<string> {
    match StripPrefix(line, "def ")
    case None => None
    case Some(after) => NameBeforeParen(TrimStart(after))
  }

  /** The trimmed text before the first "(", when it is an exportable name. */
  function NameBeforeParen(rest: string): Option<string> {
    match Find(rest, '(')
    case None => None
    case Some(paren) =>
      var name := Trim(rest[..paren]);
      if IsExportableName(name) then Some(name) else None
  }

  /**
   * What a scan that asks `pick` about each line in turn collects: the
   * loop shape of find_exported_functions, independent of what a line yields.
   */
  function Collect(pick: string -> Option<string>, lines: seq<string>): (r: seq<string>)
    ensures |r| <= |lines|
  {
    if |lines| == 0 then []
    else Collect(pick, lines[..|lines| - 1]) + Yield(pick(lines[|lines| - 1]))
  }

  function Yield(o: Option<string>): seq<string> {
    match o
    case Some(x) => [x]
    case None => []
  }

  /** The names discovery collects from the lines of a source, in line order. */
  function ExportedNames(lines: seq<string>): seq<string> {
    Collect(NameOfLine, lines)
  }

  /**
   * find_exported_functions: one pass over the lines of the source, pushing
   * the name each line yields, if any, onto the result.
   */
  method FindExportedFunctions(source: string) returns (functions: seq<string>)
    ensures functions == ExportedNames(Lines(source))
  {
    functions := [];
    var lines := Lines(source);
    for i := 0 to |lines|
      invariant functions == ExportedNames(lines[..i])
    {
      var picked := NameOfLine(lines[i]);
      CollectSnoc(NameOfLine, lines, i);
      if picked.Some? {
        functions := functions + [picked.value];
      }
    }
    assert lines[..|lines|] == lines;
  }

  lemma CollectSnoc(pick: string -> Option<string>, lines: seq<string>, i: nat)
    requires i < |lines|
    ensures Collect(pick, lines[..i + 1]) == Collect(pick, lines[..i]) + Yield(pick(lines[i]))
  {
    assert lines[..i + 1][..i] == lines[..i];
  }

  // ---------------------------------------------------------------------
  // What a line contributes
  // ---------------------------------------------------------------------

  /**
   * A line that yields a name is exactly "def ", optional whitespace, the
   * name, optional whitespace, "(" and anything after it.
   */
  lemma NameOfLineShape(line: string) returns (ws1: string, ws2: string, tail: string)
    requires NameOfLine(line).Some?
    ensures AllWhitespace(ws1) && AllWhitespace(ws2)
    ensures line == "def " + ws1 + NameOfLine(line).value + ws2 + "(" + tail
  {
    var after, rest, paren := ScanSteps(line);
    var inner := rest[..paren];
    tail := rest[paren + 1..];
    var lead0 := SplitLeadingWhitespace(after);
    var lead1 := SplitLeadingWhitespace(inner);
    ws2 := SplitTrailingWhitespace(TrimStart(inner));
    SplitAtChar(rest, paren);
    ws1 := lead0 + lead1;
    AllWhitespaceConcat(lead0, lead1);
    Reassemble(line, after, lead0, rest, inner, tail, lead1, TrimStart(inner), NameOfLine(line).value, ws2);
  }

  /** The intermediate values of the scan of a line that yields a name. */
  lemma ScanSteps(line: string) returns (after: string, rest: string, paren: nat)
    requires NameOfLine(line).Some?
    ensures line == "def " + after
    ensures rest == TrimStart(after)
    ensures paren < |rest| && rest[paren] == '('
    ensures TrimEnd(TrimStart(rest[..paren])) == NameOfLine(line).value
  {
    after := StripPrefix(line, "def ").value;
    rest := TrimStart(after);
    paren := Find(rest, '(').value;
  }

  lemma Reassemble(line: string, after: string, lead0: string, rest: string, inner: string, tail: string,
                   lead1: string, start: string, name: string, ws2: string)
    requires line == "def " + after
    requires after == lead0 + rest
    requires rest == inner + "(" + tail
    requires inner == lead1 + start
    requires start == name + ws2
    ensures line == "def " + (lead0 + lead1) + name + ws2 + "(" + tail
  {
  }

  /** Conversely, every line of that shape yields its name. */
  lemma NameOfLineOfShape(ws1: string, name: string, ws2: string, tail: string)
    requires AllWhitespace(ws1) && AllWhitespace(ws2)
    requires IsExportableName(name)
    ensures NameOfLine("def " + ws1 + name + ws2 + "(" + tail) == Some(name)
  {
    var rest := (name + ws2) + ['('] + tail;
    ShapeAfterDef(ws1, name, ws2, tail);
    ShapeSkipsLeadingWhitespace(ws1, name, ws2, tail);
    ShapeFindsParen(name, ws2, tail);
    ShapeTrimsName(name, ws2, tail);
    NameOfLineSteps("def " + ws1 + name + ws2 + "(" + tail, ws1 + rest, rest, |name + ws2|, name);
  }

  lemma ShapeAfterDef(ws1: string, name: string, ws2: string, tail: string)
    ensures StripPrefix("def " + ws1 + name + ws2 + "(" + tail, "def ") == Some(ws1 + ((name + ws2) + ['('] + tail))
  {
    assert "def " + ws1 + name + ws2 + "(" + tail == "def " + (ws1 + ((name + ws2) + ['('] + tail));
  }

  lemma ShapeSkipsLeadingWhitespace(ws1: string, name: string, ws2: string, tail: string)
    requires AllWhitespace(ws1)
    requires IsExportableName(name)
    ensures TrimStart(ws1 + ((name + ws2) + ['('] + tail)) == (name + ws2) + ['('] + tail
  {
    TrimStartOf(ws1, (name + ws2) + ['('] + tail);
  }

  lemma ShapeFindsParen(name: string, ws2: string, tail: string)
    requires AllWhitespace(ws2)
    requires IsExportableName(name)
    ensures Find((name + ws2) + ['('] + tail, '(') == Some(|name + ws2|)
  {
    NoParenBeforeCall(name, ws2);
    FindAfter(name + ws2, '(', tail);
  }

  lemma ShapeTrimsName(name: string, ws2: string, tail: string)
    requires AllWhitespace(ws2)
    requires IsExportableName(name)
    ensures Trim(((name + ws2) + ['('] + tail)[..|name + ws2|]) == name
  {
    assert ((name + ws2) + ['('] + tail)[..|name + ws2|] == name + ws2;
    assert name[|name| - 1] in name;
    TrimEndOf(name, ws2);
    assert TrimStart(name + ws2) == name + ws2;
  }

  lemma NoParenBeforeCall(name: string, ws2: string)
    requires AllWhitespace(ws2)
    requires IsExportableName(name)
    ensures '(' !in name + ws2
  {
    forall i | 0 <= i < |name + ws2| ensures (name + ws2)[i] != '(' {
      if i < |name| { assert (name + ws2)[i] == name[i]; } else { assert (name + ws2)[i] == ws2[i - |name|]; }
    }
  }

  /** The steps of the scan, one by one, as NameOfLine takes them. */
  lemma NameOfLineSteps(line: string, after: string, rest: string, paren: nat, name: string)
    requires StripPrefix(line, "def ") == Some(after)
    requires TrimStart(after) == rest
    requires Find(rest, '(') == Some(paren)
    requires Trim(rest[..paren]) == name
    requires IsExportableName(name)
    ensures NameOfLine(line) == Some(name)
  {
  }

  /** Only column-0 "def " lines are examined: an indented def never yields a name. */
  lemma IndentedDefIgnored(line: string)
    requires |line| > 0 && IsWhitespace(line[0])
    ensures NameOfLine(line) == None
  {
  }

  /** A line that is empty or does not begin with 'd' (a comment, a blank or indented line) yields nothing. */
  lemma NotDefIgnored(line: string)
    requires |line| == 0 || line[0] != 'd'
    ensures NameOfLine(line) == None
  {
    if 4 <= |line| {
      assert line[..4][0] == line[0];
    }
  }

  /** A run of such lines yields no names. */
  lemma {:induction false} NotDefLinesIgnored(lines: seq<string>)
    requires forall line :: line in lines ==> |line| == 0 || line[0] != 'd'
    ensures ExportedNames(lines) == []
    decreases |lines|
  {
    if lines != [] {
      var n := |lines| - 1;
      assert lines[n] in lines;
      NotDefIgnored(lines[n]);
      assert forall line :: line in lines[..n] ==> line in lines;
      NotDefLinesIgnored(lines[..n]);
    }
  }

  /** A "def " line without a "(" contributes nothing. */
  lemma NoParenIgnored(line: string)
    requires '(' !in line
    ensures NameOfLine(line) == None
  {
    var r := StripPrefix(line, "def ");
    if r.Some? {
      var rest := TrimStart(r.value);
      forall j | 0 <= j < |rest| ensures rest[j] != '(' {
        assert rest[j] == line[4 + |r.value| - |rest| + j];
      }
      assert '(' !in rest;
    }
  }

  // ---------------------------------------------------------------------
  // Order
  // ---------------------------------------------------------------------

  /** Scanning two runs of lines yields the first run's entries followed by the second's. */
  lemma {:induction false} CollectAppend(pick: string -> Option<string>, a: seq<string>, b: seq<string>)
    ensures Collect(pick, a + b) == Collect(pick, a) + Collect(pick, b)
    decreases |b|
  {
    if b == [] {
      assert a + b == a;
    } else {
      var b' := b[..|b| - 1];
      assert (a + b)[..|a + b| - 1] == a + b';
      assert (a + b)[|a + b| - 1] == b[|b| - 1];
      CollectAppend(pick, a, b');
    }
  }

  /**
   * The scan's result is the in-order subsequence of what the lines yield:
   * each entry comes from its own line, the lines strictly increase, and no
   * line that yields something is skipped.
   */
  lemma {:induction false} CollectOrigin(pick: string -> Option<string>, lines: seq<string>) returns (origin: seq<nat>)
    ensures |origin| == |Collect(pick, lines)|
    ensures forall k :: 0 <= k < |origin| ==>
      origin[k] < |lines| && pick(lines[origin[k]]) == Some(Collect(pick, lines)[k])
    ensures forall k, j :: 0 <= k < j < |origin| ==> origin[k] < origin[j]
    ensures forall i :: 0 <= i < |lines| && pick(lines[i]).Some? ==> i in origin
    decreases |lines|
  {
    if lines == [] {
      origin := [];
    } else {
      var n := |lines| - 1;
      var init := lines[..n];
      var o := CollectOrigin(pick, init);
      origin := CollectOriginStep(pick, lines, o);
    }
  }

  /** One more line: its entry, if any, is appended, and it comes from the new last line. */
  lemma CollectOriginStep(pick: string -> Option<string>, lines: seq<string>, o: seq<nat>) returns (origin: seq<nat>)
    requires |lines| > 0
    requires |o| == |Collect(pick, lines[..|lines| - 1])|
    requires forall k :: 0 <= k < |o| ==>
      o[k] < |lines| - 1 && pick(lines[..|lines| - 1][o[k]]) == Some(Collect(pick, lines[..|lines| - 1])[k])
    requires forall k, j :: 0 <= k < j < |o| ==> o[k] < o[j]
    requires forall i :: 0 <= i < |lines| - 1 && pick(lines[..|lines| - 1][i]).Some? ==> i in o
    ensures |origin| == |Collect(pick, lines)|
    ensures forall k :: 0 <= k < |origin| ==>
      origin[k] < |lines| && pick(lines[origin[k]]) == Some(Collect(pick, lines)[k])
    ensures forall k, j :: 0 <= k < j < |origin| ==> origin[k] < origin[j]
    ensures forall i :: 0 <= i < |lines| && pick(lines[i]).Some? ==> i in origin
  {
    var n := |lines| - 1;
    var init := lines[..n];
    var prev := Collect(pick, init);
    var all := Collect(pick, lines);
    assert all == prev + Yield(pick(lines[n]));
    assert forall i :: 0 <= i < n ==> lines[i] == init[i];
    match pick(lines[n]) {
      case Some(x) =>
        origin := o + [n];
        assert all == prev + [x];
      case None =>
        origin := o;
        assert all == prev;
    }
  }

  /**
   * Discovery returns, in line order, one exportable name for each line that
   * yields one and nothing else.
   */
  lemma ExportedNamesOrigin(lines: seq<string>) returns (origin: seq<nat>)
    ensures |origin| == |ExportedNames(lines)|
    ensures forall k :: 0 <= k < |origin| ==>
      origin[k] < |lines| && NameOfLine(lines[origin[k]]) == Some(ExportedNames(lines)[k])
    ensures forall k, j :: 0 <= k < j < |origin| ==> origin[k] < origin[j]
    ensures forall i :: 0 <= i < |lines| && NameOfLine(lines[i]).Some? ==> i in origin
    ensures forall k :: 0 <= k < |origin| ==> IsExportableName(ExportedNames(lines)[k])
  {
    origin := CollectOrigin(NameOfLine, lines);
    forall k | 0 <= k < |origin| ensures IsExportableName(ExportedNames(lines)[k]) {
      NameOfLineExportable(lines[origin[k]]);
    }
  }

  lemma NameOfLineExportable(line: string)
    requires NameOfLine(line).Some?
    ensures IsExportableName(NameOfLine(line).value)
  {
  }

  /** Duplicate definitions are not merged: each "def" line yields its own entry. */
  lemma DuplicatesKept(line: string)
    requires NameOfLine(line).Some?
    ensures ExportedNames([line, line]) == [NameOfLine(line).value, NameOfLine(line).value]
  {
    CollectTwice(NameOfLine, line);
  }

  lemma CollectTwice(pick: string -> Option<string>, line: string)
    ensures Collect(pick, [line, line]) == Yield(pick(line)) + Yield(pick(line))
  {
    assert [line, line][..1] == [line];
    assert [line][..0] == [];
  }
}
