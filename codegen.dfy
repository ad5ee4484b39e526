/**
 * Glue-source generation (src/main.rs `generate_lib_rs`): one bytecode
 * static and one exported entry point per compiled method, spliced into the
 * lib.rs template at its two marker comments. The template is a parameter.
 */
module Codegen {
  import opened Wrappers
  import opened RustStr
  import opened Discovery
  import opened Precompile

  /** Where the statics go in the template. */
  const MarkerBytecode: string := "// @MONTY_BYTECODE_STATICS"

  /** Where the exported functions go in the template. */
  const MarkerExports: string := "// @MONTY_EXPORTS"

  /** Neither marker occurs inside the other, so each replace finds only its own marker. */
  lemma MarkersDiffer()
    ensures forall i :: !MatchAt(MarkerExports, MarkerBytecode, i)
    ensures forall i :: !MatchAt(MarkerBytecode, MarkerExports, i)
  {
    forall i | 0 <= i && i + |MarkerExports| <= |MarkerBytecode| ensures !MatchAt(MarkerBytecode, MarkerExports, i) {
      if i == 0 {
        assert MarkerBytecode[i..i + |MarkerExports|][10] == MarkerBytecode[10];
      } else {
        assert MarkerBytecode[i..i + |MarkerExports|][3] == MarkerBytecode[i + 3];
      }
    }
  }

  function MethodNames(methods: seq<CompiledMethod>): (names: seq<string>)
    ensures |names| == |methods|
    ensures forall k :: 0 <= k < |methods| ==> names[k] == methods[k].name
  {
    seq(|methods|, k requires 0 <= k < |methods| => methods[k].name)
  }

  /** The Rust static that holds a method's bytecode. */
  function StaticName(name: string): string {
    ToUppercase(name) + "_BYTECODE"
  }

  function StaticLine(name: string): string {
    "static " + StaticName(name) + ": &[u8] = include_bytes!(\"" + name + ".bin\");\n"
  }

  /** The entry point for one method, followed by a blank line (written here line by line). */
  function ExportBlock(name: string): string {
    "#[no_mangle]" + "\n"
    + "pub extern \"C\" fn " + name + "() {" + "\n"
    + "    run_precompiled(" + StaticName(name) + ");" + "\n"
    + "}" + "\n"
    + "\n"
  }

  /** The text `piece` gives for each name, concatenated in order. */
  function Render(piece: string -> string, names: seq<string>): string {
    if |names| == 0 then "" else Render(piece, names[..|names| - 1]) + piece(names[|names| - 1])
  }

  /** The statics fragment: one static line per method, in method order. */
  function Statics(names: seq<string>): string {
    Render(StaticLine, names)
  }

  /** The exports fragment: one export block per method, in method order. */
  function Exports(names: seq<string>): string {
    Render(ExportBlock, names)
  }

  /** The lib.rs source: every occurrence of each marker in the template replaced by its fragment. */
  function LibRs(template: string, names: seq<string>): string {
    Replace(Replace(template, MarkerBytecode, Statics(names)), MarkerExports, Exports(names))
  }

  /** generate_lib_rs: both fragments grown in one pass over the methods, then spliced in. */
  method GenerateLibRs(template: string, methods: seq<CompiledMethod>) returns (libRs: string)
    ensures libRs == LibRs(template, MethodNames(methods))
  {
    var names := MethodNames(methods);
    var bytecodeStatics := "";
    var exports := "";
    for i := 0 to |methods|
      invariant bytecodeStatics == Statics(names[..i])
      invariant exports == Exports(names[..i])
    {
      var name := methods[i].name;
      assert names[..i + 1][..i] == names[..i];
      assert names[i] == name;
      bytecodeStatics := bytecodeStatics + StaticLine(name);
      exports := exports + ExportBlock(name);
    }
    assert names[..|methods|] == names;
    libRs := Replace(Replace(template, MarkerBytecode, bytecodeStatics), MarkerExports, exports);
  }

  // ---------------------------------------------------------------------
  // Splicing
  // ---------------------------------------------------------------------

  /**
   * A template laid out as text, the statics marker, text, the exports
   * marker and text becomes the same layout with each marker replaced by its
   * fragment, and nothing else changes, provided each marker is found only
   * there: the statics marker in the template, the exports marker in the
   * text the first replace leaves.
   */
  lemma SpliceTemplate(pre: string, mid: string, post: string, statics: string, exports: string)
    requires forall i :: MatchAt(pre + MarkerBytecode + mid + MarkerExports + post, MarkerBytecode, i) ==> i == |pre|
    requires forall i :: MatchAt(pre + statics + mid + MarkerExports + post, MarkerExports, i) ==> i == |pre + statics + mid|
    ensures Replace(Replace(pre + MarkerBytecode + mid + MarkerExports + post, MarkerBytecode, statics), MarkerExports, exports)
      == pre + statics + mid + exports + post
  {
    SpliceInOrder(pre, mid, post, MarkerBytecode, statics, MarkerExports, exports);
  }

  /** The same splice for a template that holds the exports marker first. */
  lemma SpliceTemplateExportsFirst(pre: string, mid: string, post: string, statics: string, exports: string)
    requires forall i :: MatchAt(pre + MarkerExports + mid + MarkerBytecode + post, MarkerBytecode, i) ==> i == |pre + MarkerExports + mid|
    requires forall i :: MatchAt(pre + MarkerExports + mid + statics + post, MarkerExports, i) ==> i == |pre|
    ensures Replace(Replace(pre + MarkerExports + mid + MarkerBytecode + post, MarkerBytecode, statics), MarkerExports, exports)
      == pre + exports + mid + statics + post
  {
    SpliceInReverse(pre, mid, post, MarkerBytecode, statics, MarkerExports, exports);
  }

  /** Two single-occurrence replaces, the first pattern before the second. */
  lemma SpliceInOrder(pre: string, mid: string, post: string, p1: string, r1: string, p2: string, r2: string)
    requires |p1| > 0 && |p2| > 0
    requires forall i :: MatchAt(pre + p1 + mid + p2 + post, p1, i) ==> i == |pre|
    requires forall i :: MatchAt(pre + r1 + mid + p2 + post, p2, i) ==> i == |pre + r1 + mid|
    ensures Replace(Replace(pre + p1 + mid + p2 + post, p1, r1), p2, r2) == pre + r1 + mid + r2 + post
  {
    var t := pre + p1 + mid + p2 + post;
    var u := pre + r1 + mid + p2 + post;
    var rest := mid + p2 + post;
    assert t == pre + p1 + rest;
    ReplaceOnly(t, pre, p1, rest, r1);
    assert pre + r1 + rest == u;
    ReplaceOnly(u, pre + r1 + mid, p2, post, r2);
  }

  /** Two single-occurrence replaces, the second pattern before the first. */
  lemma SpliceInReverse(pre: string, mid: string, post: string, p1: string, r1: string, p2: string, r2: string)
    requires |p1| > 0 && |p2| > 0
    requires forall i :: MatchAt(pre + p2 + mid + p1 + post, p1, i) ==> i == |pre + p2 + mid|
    requires forall i :: MatchAt(pre + p2 + mid + r1 + post, p2, i) ==> i == |pre|
    ensures Replace(Replace(pre + p2 + mid + p1 + post, p1, r1), p2, r2) == pre + r2 + mid + r1 + post
  {
    var t := pre + p2 + mid + p1 + post;
    var u := pre + p2 + mid + r1 + post;
    var rest := mid + r1 + post;
    ReplaceOnly(t, pre + p2 + mid, p1, post, r1);
    assert u == pre + p2 + rest;
    ReplaceOnly(u, pre, p2, rest, r2);
    assert pre + r2 + rest == pre + r2 + mid + r1 + post;
  }

  /** The template's fixed text around the markers comes through unchanged; the markers become the fragments. */
  lemma LibRsSplices(pre: string, mid: string, post: string, names: seq<string>)
    requires forall i :: MatchAt(pre + MarkerBytecode + mid + MarkerExports + post, MarkerBytecode, i) ==> i == |pre|
    requires forall i :: MatchAt(pre + Statics(names) + mid + MarkerExports + post, MarkerExports, i) ==> i == |pre + Statics(names) + mid|
    ensures LibRs(pre + MarkerBytecode + mid + MarkerExports + post, names)
      == pre + Statics(names) + mid + Exports(names) + post
  {
    SpliceTemplate(pre, mid, post, Statics(names), Exports(names));
  }

  /** The same for a template that holds the exports marker first. */
  lemma LibRsSplicesExportsFirst(pre: string, mid: string, post: string, names: seq<string>)
    requires forall i :: MatchAt(pre + MarkerExports + mid + MarkerBytecode + post, MarkerBytecode, i) ==> i == |pre + MarkerExports + mid|
    requires forall i :: MatchAt(pre + MarkerExports + mid + Statics(names) + post, MarkerExports, i) ==> i == |pre|
    ensures LibRs(pre + MarkerExports + mid + MarkerBytecode + post, names)
      == pre + Exports(names) + mid + Statics(names) + post
  {
    SpliceTemplateExportsFirst(pre, mid, post, Statics(names), Exports(names));
  }

  /** With no methods the markers are simply deleted. */
  lemma NoMethodsDeletesMarkers(pre: string, mid: string, post: string)
    requires forall i :: MatchAt(pre + MarkerBytecode + mid + MarkerExports + post, MarkerBytecode, i) ==> i == |pre|
    requires forall i :: MatchAt(pre + mid + MarkerExports + post, MarkerExports, i) ==> i == |pre + mid|
    ensures LibRs(pre + MarkerBytecode + mid + MarkerExports + post, []) == pre + mid + post
  {
    assert Statics([]) == "" && Exports([]) == "";
    assert pre + "" + mid + MarkerExports + post == pre + mid + MarkerExports + post;
    SpliceTemplate(pre, mid, post, "", "");
    assert pre + "" + mid + "" + post == pre + mid + post;
  }

  /** A template in which neither marker occurs is returned unchanged: nothing is generated into it. */
  lemma TemplateWithoutMarkersUnchanged(template: string, names: seq<string>)
    requires forall i :: !MatchAt(template, MarkerBytecode, i)
    requires forall i :: !MatchAt(template, MarkerExports, i)
    ensures LibRs(template, names) == template
  {
    ReplaceNoMatch(template, MarkerBytecode, Statics(names));
    ReplaceNoMatch(template, MarkerExports, Exports(names));
  }

  /** No pattern holding an '@' occurs in a text without one. */
  lemma NoAtNoMatch(s: string, pat: string, k: nat)
    requires k < |pat| && pat[k] == '@'
    requires '@' !in s
    ensures forall i :: !MatchAt(s, pat, i)
  {
    forall i ensures !MatchAt(s, pat, i) {
      if 0 <= i && i + |pat| <= |s| {
        assert s[i..i + |pat|][k] == s[i + k];
      }
    }
  }

  // ---------------------------------------------------------------------
  // Characters of the generated text
  // ---------------------------------------------------------------------

  predicate AllExportable(names: seq<string>) {
    forall k :: 0 <= k < |names| ==> IsExportableName(names[k])
  }

  /** Only ASCII letters, digits and '_'. */
  predicate IdentChars(s: string) {
    forall c :: c in s ==> IsAsciiAlphanumeric(c) || c == '_'
  }

  lemma StaticNameChars(name: string)
    requires IsExportableName(name)
    ensures IdentChars(StaticName(name))
  {
    var upper := ToUppercase(name);
    forall c | c in StaticName(name) ensures IsAsciiAlphanumeric(c) || c == '_' {
      if c in upper {
        var i :| 0 <= i < |upper| && upper[i] == c;
        assert name[i] in name;
      } else {
        assert c in "_BYTECODE";
      }
    }
  }

  lemma IdentExcludes(s: string, c: char)
    requires IdentChars(s)
    requires !IsAsciiAlphanumeric(c) && c != '_'
    ensures c !in s
  {
  }

  lemma StaticLineHasNoAt(name: string)
    requires IsExportableName(name)
    ensures '@' !in StaticLine(name)
  {
    StaticNameChars(name);
    IdentExcludes(StaticName(name), '@');
  }

  lemma {:induction false} StaticsHaveNoAt(names: seq<string>)
    requires AllExportable(names)
    ensures '@' !in Statics(names)
    decreases |names|
  {
    if names != [] {
      var n := |names| - 1;
      assert AllExportable(names[..n]) by {
        assert forall k :: 0 <= k < n ==> names[..n][k] == names[k];
      }
      StaticsHaveNoAt(names[..n]);
      StaticLineHasNoAt(names[n]);
    }
  }

  /** The statics fragment holds neither marker, so the second replace finds none inside it. */
  lemma StaticsHoldNoMarkers(names: seq<string>)
    requires AllExportable(names)
    ensures forall i :: !MatchAt(Statics(names), MarkerBytecode, i)
    ensures forall i :: !MatchAt(Statics(names), MarkerExports, i)
  {
    StaticsHaveNoAt(names);
    NoAtNoMatch(Statics(names), MarkerBytecode, 3);
    NoAtNoMatch(Statics(names), MarkerExports, 3);
  }

  /**
   * Two method names that differ only in letter case get the same static:
   * the generated crate then declares that static twice.
   */
  lemma CaseOnlyNamesShareStatic()
    ensures StaticName("get") == StaticName("GET")
  {
    assert ToUppercase("get") == "GET" by {
      assert |ToUppercase("get")| == 3;
      assert ToUppercase("get")[0] == 'G' && ToUppercase("get")[1] == 'E' && ToUppercase("get")[2] == 'T';
    }
    assert ToUppercase("GET") == "GET" by {
      assert ToUppercase("GET")[0] == 'G' && ToUppercase("GET")[1] == 'E' && ToUppercase("GET")[2] == 'T';
    }
  }

  // ---------------------------------------------------------------------
  // Reading the fragments back
  // ---------------------------------------------------------------------

  /** The static line without its line break. */
  function StaticDecl(name: string): string {
    "static " + StaticName(name) + ": &[u8] = include_bytes!(\"" + name + ".bin\");"
  }

  function StaticBlock(name: string): seq<string> {
    [StaticDecl(name)]
  }

  /** The lines of one export block. */
  function ExportBlockLines(name: string): seq<string> {
    ["#[no_mangle]", "pub extern \"C\" fn " + name + "() {", "    run_precompiled(" + StaticName(name) + ");", "}", ""]
  }

  /** The lines `block` gives for each name, one run after another. */
  function Blocks(block: string -> seq<string>, names: seq<string>): seq<string> {
    if |names| == 0 then [] else Blocks(block, names[..|names| - 1]) + block(names[|names| - 1])
  }

  function Mapped(f: string -> string, names: seq<string>): (r: seq<string>)
    ensures |r| == |names| && forall k :: 0 <= k < |names| ==> r[k] == f(names[k])
  {
    seq(|names|, k requires 0 <= k < |names| => f(names[k]))
  }

  function BinFile(name: string): string {
    name + ".bin"
  }

  /** The file an `include_bytes!` line embeds: the text between its first two '"'. */
  function IncludeTarget(line: string): Option<string> {
    match Find(line, '"')
    case None => None
    case Some(q) =>
      match Find(line[q + 1..], '"')
      case None => None
      case Some(e) => Some(line[q + 1..][..e])
  }

  /** The static a `static` line declares: the text up to the ':'. */
  function DeclaredStatic(line: string): Option<string> {
    match StripPrefix(line, "static ")
    case None => None
    case Some(rest) =>
      match Find(rest, ':')
      case None => None
      case Some(c) => Some(rest[..c])
  }

  /** The symbol a `pub extern "C" fn` line exports: the text up to the '('. */
  function ExportedSymbol(line: string): Option<string> {
    match StripPrefix(line, "pub extern \"C\" fn ")
    case None => None
    case Some(rest) =>
      match Find(rest, '(')
      case None => None
      case Some(p) => Some(rest[..p])
  }

  /** The static an entry point runs: the argument of `run_precompiled`. */
  function RunTarget(line: string): Option<string> {
    match StripPrefix(line, "    run_precompiled(")
    case None => None
    case Some(rest) =>
      match Find(rest, ')')
      case None => None
      case Some(p) => Some(rest[..p])
  }

  /** Each static line embeds the method's own `.bin` file. */
  lemma StaticsIncludeBinFiles(names: seq<string>)
    requires AllExportable(names)
    ensures Collect(IncludeTarget, Lines(Statics(names))) == Mapped(BinFile, names)
  {
    StaticsLines(names);
    forall k | 0 <= k < |names| ensures Collect(IncludeTarget, StaticBlock(names[k])) == [BinFile(names[k])] {
      IncludeTargetOfStatic(names[k]);
      CollectOne(IncludeTarget, StaticDecl(names[k]));
    }
    CollectBlocks(IncludeTarget, StaticBlock, BinFile, names);
  }

  /** The statics fragment declares the methods' statics, one per line, in method order. */
  lemma StaticsDeclareStatics(names: seq<string>)
    requires AllExportable(names)
    ensures Collect(DeclaredStatic, Lines(Statics(names))) == Mapped(StaticName, names)
  {
    StaticsLines(names);
    forall k | 0 <= k < |names| ensures Collect(DeclaredStatic, StaticBlock(names[k])) == [StaticName(names[k])] {
      DeclaredStaticOfStatic(names[k]);
      CollectOne(DeclaredStatic, StaticDecl(names[k]));
    }
    CollectBlocks(DeclaredStatic, StaticBlock, StaticName, names);
  }

  /** The exports fragment exports one C symbol per method, named as the method, in method order. */
  lemma ExportsDeclareMethods(names: seq<string>)
    requires AllExportable(names)
    ensures Collect(ExportedSymbol, Lines(Exports(names))) == names
  {
    ExportsLines(names);
    forall k | 0 <= k < |names| ensures Collect(ExportedSymbol, ExportBlockLines(names[k])) == [Identity(names[k])] {
      ExportBlockSymbols(names[k]);
    }
    CollectBlocks(ExportedSymbol, ExportBlockLines, Identity, names);
    assert Mapped(Identity, names) == names;
  }

  /** Entry point k runs exactly the static of method k. */
  lemma ExportsRunStatics(names: seq<string>)
    requires AllExportable(names)
    ensures Collect(RunTarget, Lines(Exports(names))) == Mapped(StaticName, names)
  {
    ExportsLines(names);
    forall k | 0 <= k < |names| ensures Collect(RunTarget, ExportBlockLines(names[k])) == [StaticName(names[k])] {
      ExportBlockRuns(names[k]);
    }
    CollectBlocks(RunTarget, ExportBlockLines, StaticName, names);
  }

  function Identity(name: string): string {
    name
  }

  // The fragments as lines

  lemma StaticsLines(names: seq<string>)
    requires AllExportable(names)
    ensures Lines(Statics(names)) == Blocks(StaticBlock, names)
  {
    forall k | 0 <= k < |names| ensures StaticLine(names[k]) == Unlines(StaticBlock(names[k])) {
      UnlinesOne(StaticDecl(names[k]));
    }
    RenderAsLines(StaticLine, StaticBlock, names);
    forall k | 0 <= k < |names| ensures forall j :: 0 <= j < |StaticBlock(names[k])| ==> PlainLine(StaticBlock(names[k])[j]) {
      StaticDeclPlain(names[k]);
    }
    BlocksPlain(StaticBlock, names);
    LinesOfUnlines(Blocks(StaticBlock, names));
  }

  lemma ExportsLines(names: seq<string>)
    requires AllExportable(names)
    ensures Lines(Exports(names)) == Blocks(ExportBlockLines, names)
  {
    forall k | 0 <= k < |names| ensures ExportBlock(names[k]) == Unlines(ExportBlockLines(names[k])) {
      ExportBlockAsLines(names[k]);
    }
    RenderAsLines(ExportBlock, ExportBlockLines, names);
    forall k | 0 <= k < |names| ensures forall j :: 0 <= j < |ExportBlockLines(names[k])| ==> PlainLine(ExportBlockLines(names[k])[j]) {
      ExportBlockLinesPlain(names[k]);
    }
    BlocksPlain(ExportBlockLines, names);
    LinesOfUnlines(Blocks(ExportBlockLines, names));
  }

  lemma {:induction false} RenderAsLines(piece: string -> string, block: string -> seq<string>, names: seq<string>)
    requires forall k :: 0 <= k < |names| ==> piece(names[k]) == Unlines(block(names[k]))
    ensures Render(piece, names) == Unlines(Blocks(block, names))
    decreases |names|
  {
    if names != [] {
      var n := |names| - 1;
      assert forall k :: 0 <= k < n ==> names[..n][k] == names[k];
      RenderAsLines(piece, block, names[..n]);
      UnlinesAppend(Blocks(block, names[..n]), block(names[n]));
    }
  }

  lemma {:induction false} BlocksPlain(block: string -> seq<string>, names: seq<string>)
    requires forall k :: 0 <= k < |names| ==> forall j :: 0 <= j < |block(names[k])| ==> PlainLine(block(names[k])[j])
    ensures forall i :: 0 <= i < |Blocks(block, names)| ==> PlainLine(Blocks(block, names)[i])
    decreases |names|
  {
    if names != [] {
      var n := |names| - 1;
      assert forall k :: 0 <= k < n ==> names[..n][k] == names[k];
      BlocksPlain(block, names[..n]);
      var init := Blocks(block, names[..n]);
      var last := block(names[n]);
      forall i | 0 <= i < |init + last| ensures PlainLine((init + last)[i]) {
        if i < |init| {
          assert (init + last)[i] == init[i];
        } else {
          assert (init + last)[i] == last[i - |init|];
        }
      }
    }
  }

  lemma {:induction false} CollectBlocks(pick: string -> Option<string>, block: string -> seq<string>, f: string -> string, names: seq<string>)
    requires forall k :: 0 <= k < |names| ==> Collect(pick, block(names[k])) == [f(names[k])]
    ensures Collect(pick, Blocks(block, names)) == Mapped(f, names)
    decreases |names|
  {
    if names != [] {
      var n := |names| - 1;
      var init := names[..n];
      forall k | 0 <= k < |init| ensures Collect(pick, block(init[k])) == [f(init[k])] {
        assert init[k] == names[k];
      }
      CollectBlocks(pick, block, f, init);
      BlocksSnoc(block, names);
      CollectAppend(pick, Blocks(block, init), block(names[n]));
      MappedSnoc(f, names);
    }
  }

  lemma BlocksSnoc(block: string -> seq<string>, names: seq<string>)
    requires names != []
    ensures Blocks(block, names) == Blocks(block, names[..|names| - 1]) + block(names[|names| - 1])
  {
  }

  lemma MappedSnoc(f: string -> string, names: seq<string>)
    requires names != []
    ensures Mapped(f, names) == Mapped(f, names[..|names| - 1]) + [f(names[|names| - 1])]
  {
    var n := |names| - 1;
    assert forall k :: 0 <= k < n ==> names[..n][k] == names[k];
  }

  lemma UnlinesOne(x: string)
    ensures Unlines([x]) == x + "\n"
  {
    assert [x][..0] == [];
  }

  lemma ExportBlockAsLines(name: string)
    ensures ExportBlock(name) == Unlines(ExportBlockLines(name))
  {
    var u := StaticName(name);
    UnlinesFive("#[no_mangle]", "pub extern \"C\" fn " + name + "() {", "    run_precompiled(" + u + ");", "}", "");
  }

  lemma UnlinesFive(a: string, b: string, c: string, d: string, e: string)
    ensures Unlines([a, b, c, d, e]) == a + "\n" + b + "\n" + c + "\n" + d + "\n" + e + "\n"
  {
    var ls := [a, b, c, d, e];
    assert ls == [a] + [b] + [c] + [d] + [e];
    UnlinesAppend([a] + [b] + [c] + [d], [e]);
    UnlinesAppend([a] + [b] + [c], [d]);
    UnlinesAppend([a] + [b], [c]);
    UnlinesAppend([a], [b]);
    UnlinesOne(a);
    UnlinesOne(b);
    UnlinesOne(c);
    UnlinesOne(d);
    UnlinesOne(e);
  }

  lemma StaticDeclPlain(name: string)
    requires IsExportableName(name)
    ensures PlainLine(StaticDecl(name))
  {
    StaticNameChars(name);
    IdentExcludes(StaticName(name), '\n');
    NameExcludes(name, '\n');
  }

  lemma ExportBlockLinesPlain(name: string)
    requires IsExportableName(name)
    ensures forall j :: 0 <= j < |ExportBlockLines(name)| ==> PlainLine(ExportBlockLines(name)[j])
  {
    StaticNameChars(name);
    IdentExcludes(StaticName(name), '\n');
    NameExcludes(name, '\n');
  }

  lemma NameExcludes(name: string, c: char)
    requires IsExportableName(name)
    requires !IsAsciiAlphanumeric(c) && c != '_'
    ensures c !in name
  {
  }

  // One block at a time

  /** A line whose first character differs from the prefix's does not carry the prefix. */
  lemma NotPrefixed(line: string, prefix: string)
    requires |prefix| > |line| || (|line| > 0 && |prefix| > 0 && line[0] != prefix[0])
    ensures StripPrefix(line, prefix) == None
  {
    if |prefix| <= |line| {
      assert line[..|prefix|][0] == line[0];
    }
  }

  lemma IncludeTargetOf(lead: string, target: string, tail: string)
    requires '"' !in lead && '"' !in target
    ensures IncludeTarget(lead + ['"'] + target + ['"'] + tail) == Some(target)
  {
    var after := target + ['"'] + tail;
    var line := lead + ['"'] + after;
    assert lead + ['"'] + target + ['"'] + tail == line;
    FindAfter(lead, '"', after);
    assert line[|lead| + 1..] == after;
    FindAfter(target, '"', tail);
    assert after[..|target|] == target;
  }

  lemma IncludeTargetOfStatic(name: string)
    requires IsExportableName(name)
    ensures IncludeTarget(StaticDecl(name)) == Some(BinFile(name))
  {
    var lead := "static " + StaticName(name) + ": &[u8] = include_bytes!(";
    StaticNameChars(name);
    IdentExcludes(StaticName(name), '"');
    NameExcludes(name, '"');
    assert '"' !in ": &[u8] = include_bytes!(";
    assert '"' !in BinFile(name);
    assert StaticDecl(name) == lead + ['"'] + BinFile(name) + ['"'] + ");";
    IncludeTargetOf(lead, BinFile(name), ");");
  }

  lemma DeclaredStaticOf(ident: string, tail: string)
    requires ':' !in ident
    ensures DeclaredStatic("static " + ident + [':'] + tail) == Some(ident)
  {
    assert "static " + ident + [':'] + tail == "static " + (ident + [':'] + tail);
    StripPrefixOf("static ", ident + [':'] + tail);
    FindAfter(ident, ':', tail);
    assert (ident + [':'] + tail)[..|ident|] == ident;
  }

  lemma DeclaredStaticOfStatic(name: string)
    requires IsExportableName(name)
    ensures DeclaredStatic(StaticDecl(name)) == Some(StaticName(name))
  {
    var u := StaticName(name);
    var lit := " &[u8] = include_bytes!(\"";
    var tail := lit + name + ".bin\");";
    assert ':' !in u by {
      StaticNameChars(name);
      IdentExcludes(u, ':');
    }
    assert StaticDecl(name) == "static " + u + [':'] + tail by {
      ColonThenType();
      assert StaticDecl(name) == "static " + u + ([':'] + lit) + name + ".bin\");";
    }
    DeclaredStaticOf(u, tail);
  }

  lemma ColonThenType()
    ensures ": &[u8] = include_bytes!(\"" == [':'] + " &[u8] = include_bytes!(\""
  {
  }

  lemma CollectFive(pick: string -> Option<string>, ls: seq<string>)
    requires |ls| == 5
    ensures Collect(pick, ls) == Yield(pick(ls[0])) + Yield(pick(ls[1])) + Yield(pick(ls[2])) + Yield(pick(ls[3])) + Yield(pick(ls[4]))
  {
    assert Collect(pick, ls[..1]) == Yield(pick(ls[0])) by {
      assert ls[..1][..0] == [];
    }
    CollectSnoc(pick, ls, 1);
    CollectSnoc(pick, ls, 2);
    CollectSnoc(pick, ls, 3);
    CollectSnoc(pick, ls, 4);
    assert ls[..5] == ls;
  }

  lemma SymbolOf(name: string, tail: string)
    requires '(' !in name
    ensures ExportedSymbol("pub extern \"C\" fn " + name + ['('] + tail) == Some(name)
  {
    assert "pub extern \"C\" fn " + name + ['('] + tail == "pub extern \"C\" fn " + (name + ['('] + tail);
    StripPrefixOf("pub extern \"C\" fn ", name + ['('] + tail);
    FindAfter(name, '(', tail);
    assert (name + ['('] + tail)[..|name|] == name;
  }

  lemma RunTargetOf(ident: string, tail: string)
    requires ')' !in ident
    ensures RunTarget("    run_precompiled(" + ident + [')'] + tail) == Some(ident)
  {
    assert "    run_precompiled(" + ident + [')'] + tail == "    run_precompiled(" + (ident + [')'] + tail);
    StripPrefixOf("    run_precompiled(", ident + [')'] + tail);
    FindAfter(ident, ')', tail);
    assert (ident + [')'] + tail)[..|ident|] == ident;
  }

  lemma ExportBlockSymbols(name: string)
    requires IsExportableName(name)
    ensures Collect(ExportedSymbol, ExportBlockLines(name)) == [name]
  {
    var ls := ExportBlockLines(name);
    ExportBlockLineSymbols(name);
    CollectFive(ExportedSymbol, ls);
  }

  lemma ExportBlockLineSymbols(name: string)
    requires IsExportableName(name)
    ensures var ls := ExportBlockLines(name);
      ExportedSymbol(ls[0]) == None && ExportedSymbol(ls[1]) == Some(name) && ExportedSymbol(ls[2]) == None
      && ExportedSymbol(ls[3]) == None && ExportedSymbol(ls[4]) == None
  {
    var ls := ExportBlockLines(name);
    var p := "pub extern \"C\" fn ";
    NoExportedSymbol(ls[0]);
    NameExcludes(name, '(');
    assert ls[1] == p + name + ['('] + ") {";
    SymbolOf(name, ") {");
    NoExportedSymbol(ls[2]);
    NoExportedSymbol(ls[3]);
    NoExportedSymbol(ls[4]);
  }

  lemma NoExportedSymbol(line: string)
    requires |line| == 0 || line[0] != 'p'
    ensures ExportedSymbol(line) == None
  {
    NotPrefixed(line, "pub extern \"C\" fn ");
  }

  lemma ExportBlockRuns(name: string)
    requires IsExportableName(name)
    ensures Collect(RunTarget, ExportBlockLines(name)) == [StaticName(name)]
  {
    var ls := ExportBlockLines(name);
    var p := "    run_precompiled(";
    CollectFive(RunTarget, ls);
    assert RunTarget(ls[0]) == None by { NotPrefixed(ls[0], p); }
    assert RunTarget(ls[1]) == None by { NotPrefixed(ls[1], p); }
    assert RunTarget(ls[2]) == Some(StaticName(name)) by {
      StaticNameChars(name);
      IdentExcludes(StaticName(name), ')');
      assert ls[2] == p + StaticName(name) + [')'] + ";";
      RunTargetOf(StaticName(name), ";");
    }
    assert RunTarget(ls[3]) == None by { NotPrefixed(ls[3], p); }
    assert ls[4] == "";
    assert RunTarget("") == None by { NotPrefixed("", p); }
  }
}
