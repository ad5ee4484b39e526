/**
 * Per-method program construction (src/main.rs `precompile_method`): the
 * whole source followed by a call of the method, compiled by the Monty
 * compiler against the host functions NEAR provides, then serialized.
 * The compiler and the serializer are foreign code and enter as functions.
 */
module Precompile {
  import opened Wrappers
  import opened RustStr
  import opened Discovery
  import opened BuildErrors

  newtype byte = x: int | 0 <= x < 256

  /** near_external_functions: the host functions a contract may call, in this order. */
  function NearExternalFunctions(): (r: seq<string>)
    ensures |r| == 14
  {
    [
      "value_return",
      "input",
      "log",
      "storage_write",
      "storage_read",
      "storage_remove",
      "storage_has_key",
      "current_account_id",
      "predecessor_account_id",
      "signer_account_id",
      "block_height",
      "block_timestamp",
      "sha256",
      "keccak256"
    ]
  }

  /** The host function list names each function once. */
  lemma NearExternalFunctionsDistinct()
    ensures forall i, j :: 0 <= i < j < |NearExternalFunctions()| ==> NearExternalFunctions()[i] != NearExternalFunctions()[j]
  {
    var r := NearExternalFunctions();
    forall i, j | 0 <= i < j < |r| ensures r[i] != r[j] {
      if i == 0 {
        assert r[i] == "value_return";
      } else if i == 1 {
        assert r[i] == "input";
      } else if i == 2 {
        assert r[i] == "log";
      } else if i == 3 {
        assert r[i] == "storage_write";
      } else if i == 4 {
        assert r[i] == "storage_read";
      } else if i == 5 {
        assert r[i] == "storage_remove";
      } else if i == 6 {
        assert r[i] == "storage_has_key";
      } else if i == 7 {
        assert r[i] == "current_account_id";
      } else if i == 8 {
        assert r[i] == "predecessor_account_id";
      } else if i == 9 {
        assert r[i] == "signer_account_id";
      } else if i == 10 {
        assert r[i] == "block_height";
      } else if i == 11 {
        assert r[i] == "block_timestamp";
      } else {
        assert r[i] == "sha256";
      }
    }
  }

  /** The program compiled for one method: the source, a blank line, and a call of the method. */
  function Program(source: string, name: string): string {
    source + "\n\n" + name + "()\n"
  }

  /** What the compiler is given: the code, the script name, the (no) inputs and the host functions. */
  datatype CompileRequest = CompileRequest(code: string, scriptName: string, inputs: seq<string>, externalFunctions: seq<string>)

  function Request(source: string, name: string): CompileRequest {
    CompileRequest(Program(source, name), "contract.py", [], NearExternalFunctions())
  }

  /** `MontyRun::new`: a compiled runner, or the compiler's error text. */
  type Compiler<R> = CompileRequest -> Result<R, string>

  /** `MontyRun::dump`: the runner's bytecode, or the serializer's error text. */
  type Serializer<!R> = R -> Result<seq<byte>, string>

  datatype CompiledMethod = CompiledMethod(name: string, bytecode: seq<byte>)

  /**
   * precompile_method: the method's bytecode when both the compiler and the
   * serializer succeed; otherwise the first failure, tagged with the method.
   */
  function PrecompileMethod<R>(compile: Compiler<R>, dump: Serializer<R>, source: string, name: string): (r: Result<CompiledMethod, BuildError>)
    ensures r.Success? <==> compile(Request(source, name)).Success? && dump(compile(Request(source, name)).value).Success?
    ensures r.Success? ==> r.value.name == name && dump(compile(Request(source, name)).value) == Success(r.value.bytecode)
    ensures compile(Request(source, name)).Failure? ==>
      r == Failure(CompileFailed(name, compile(Request(source, name)).error))
    ensures compile(Request(source, name)).Success? && dump(compile(Request(source, name)).value).Failure? ==>
      r == Failure(SerializeFailed(name, dump(compile(Request(source, name)).value).error))
  {
    match compile(Request(source, name))
    case Failure(e) => Failure(CompileFailed(name, e))
    case Success(runner) =>
      match dump(runner)
      case Failure(e) => Failure(SerializeFailed(name, e))
      case Success(bytecode) => Success(CompiledMethod(name, bytecode))
  }

  /** Every failure of precompile_method is one of its two tagged errors and quotes the method's name. */
  lemma PrecompileFailureNamesMethod<R>(compile: Compiler<R>, dump: Serializer<R>, source: string, name: string)
    requires PrecompileMethod(compile, dump, source, name).Failure?
    ensures var e := PrecompileMethod(compile, dump, source, name).error;
      (e.CompileFailed? || e.SerializeFailed?) && e.methodName == name && Quotes(Message(e), name)
  {
    MessageNamesMethod(PrecompileMethod(compile, dump, source, name).error);
  }

  // ---------------------------------------------------------------------
  // The program keeps the source's exported functions
  // ---------------------------------------------------------------------

  /**
   * The lines of the program are the source's lines up to its last "\n",
   * the text after that "\n" (empty when the source is empty or ends with
   * "\n", which then gives two empty lines in a row), a blank line and the
   * call.
   */
  lemma ProgramLines(source: string, name: string) returns (complete: string, last: string)
    requires IsExportableName(name)
    ensures source == complete + last
    ensures Lines(source) == Lines(complete) + (if last == [] then [] else [last])
    ensures Lines(Program(source, name)) == Lines(complete) + [StripCr(last), "", name + "()"]
  {
    complete, last := SplitLastLine(source);
    LinesConcat(complete, last);
    LinesOfUnterminated(last);
    var tail := ProgramTail(source, name, complete, last);
    LinesConcat(complete, tail);
    TailLines(last, name);
  }

  /** What the program adds after the source's complete lines. */
  lemma ProgramTail(source: string, name: string, complete: string, last: string) returns (tail: string)
    requires source == complete + last
    ensures tail == (last + "\n") + ("\n" + (name + "()\n"))
    ensures Program(source, name) == complete + tail
  {
    tail := (last + "\n") + ("\n" + (name + "()\n"));
  }

  lemma TailLines(last: string, name: string)
    requires '\n' !in last
    requires IsExportableName(name)
    ensures Lines((last + "\n") + ("\n" + (name + "()\n"))) == [StripCr(last), "", name + "()"]
  {
    LinesOfLineCr(last);
    CallLines(name);
    LinesOfTwo(last + "\n", "\n" + (name + "()\n"), [StripCr(last)], ["", name + "()"]);
    assert [StripCr(last)] + ["", name + "()"] == [StripCr(last), "", name + "()"];
  }

  /** Two texts split separately when the first ends its last line. */
  lemma LinesOfTwo(first: string, second: string, a: seq<string>, b: seq<string>)
    requires first != [] && first[|first| - 1] == '\n'
    requires Lines(first) == a && Lines(second) == b
    ensures Lines(first + second) == a + b
  {
    LinesConcat(first, second);
  }

  lemma CallLines(name: string)
    requires IsExportableName(name)
    ensures Lines("\n" + (name + "()\n")) == ["", name + "()"]
  {
    assert name + "()\n" == (name + "()") + "\n";
    LinesConcat("\n", name + "()\n");
    BlankLine();
    CallLineHasNoBreak(name);
    LinesOfLineCr(name + "()");
  }

  lemma CallLineHasNoBreak(name: string)
    requires IsExportableName(name)
    ensures '\n' !in name + "()" && StripCr(name + "()") == name + "()"
  {
    forall i | 0 <= i < |name| ensures name[i] != '\n' {
      assert name[i] in name;
    }
    assert (name + "()")[|name|..] == "()";
  }

  lemma BlankLine()
    ensures Lines("\n") == [""]
  {
    LinesOfLineCr("");
    assert "" + "\n" == "\n";
  }

  /** Appending the call of an exported method neither adds nor hides an exported function. */
  lemma ProgramKeepsExports(source: string, name: string)
    requires IsExportableName(name)
    ensures ExportedNames(Lines(Program(source, name))) == ExportedNames(Lines(source))
  {
    var complete, last := ProgramLines(source, name);
    ExportsWithCall(Lines(complete), StripCr(last), name);
    ExportsOfSource(Lines(complete), last);
  }

  lemma ExportsWithCall(before: seq<string>, line: string, name: string)
    requires IsExportableName(name)
    ensures ExportedNames(before + [line, "", name + "()"]) == ExportedNames(before) + Yield(NameOfLine(line))
  {
    CollectThreeMore(NameOfLine, before, line, "", name + "()");
    CallLineIgnored(name);
    EmptyLineIgnored();
  }

  lemma EmptyLineIgnored()
    ensures NameOfLine("") == None
  {
  }

  lemma CollectThreeMore(pick: string -> Option<string>, before: seq<string>, x: string, y: string, z: string)
    ensures Collect(pick, before + [x, y, z]) == Collect(pick, before) + Yield(pick(x)) + Yield(pick(y)) + Yield(pick(z))
  {
    assert Collect(pick, before + [x, y, z]) == Collect(pick, before) + Collect(pick, [x, y, z]) by {
      CollectAppend(pick, before, [x, y, z]);
    }
    assert Collect(pick, [x, y]) == Yield(pick(x)) + Yield(pick(y)) by {
      assert [x, y][..1] == [x];
      CollectOne(pick, x);
    }
    assert Collect(pick, [x, y, z]) == Collect(pick, [x, y]) + Yield(pick(z)) by {
      assert [x, y, z][..2] == [x, y];
    }
  }

  lemma ExportsOfSource(before: seq<string>, last: string)
    ensures ExportedNames(before + (if last == [] then [] else [last])) ==
      ExportedNames(before) + Yield(NameOfLine(StripCr(last)))
  {
    if last == [] {
      assert before + [] == before;
      EmptyLineIgnored();
    } else {
      CollectAppend(NameOfLine, before, [last]);
      CollectOne(NameOfLine, last);
      NameOfLineStripCr(last);
    }
  }

  lemma CollectOne(pick: string -> Option<string>, x: string)
    ensures Collect(pick, [x]) == Yield(pick(x))
  {
    assert [x][..0] == [];
  }

  /** The call line `name()` never starts with "def ": its fourth character is a name character or a parenthesis. */
  lemma CallLineIgnored(name: string)
    requires IsExportableName(name)
    ensures NameOfLine(name + "()") == None
  {
    var line := name + "()";
    assert StripPrefix(line, "def ").None? by {
      if 4 <= |line| {
        assert line[3] != ' ' by {
          if 3 < |name| {
            assert line[3] == name[3] && name[3] in name;
          } else {
            assert line[3] == "()"[3 - |name|];
          }
        }
        assert line[..4][3] == line[3];
        assert "def "[3] == ' ';
      }
    }
  }

  /** A carriage return that ends a line never changes what the line yields. */
  lemma NameOfLineStripCr(line: string)
    ensures NameOfLine(StripCr(line)) == NameOfLine(line)
  {
    if |line| > 0 && line[|line| - 1] == '\r' {
      var x := line[..|line| - 1];
      assert line == x + "\r";
      NameOfLineCr(x);
    }
  }

  lemma NameOfLineCr(x: string)
    ensures NameOfLine(x + "\r") == NameOfLine(x)
  {
    StripPrefixCr(x);
    match StripPrefix(x, "def ") {
      case None =>
      case Some(after) => NameAfterDefCr(after);
    }
  }

  lemma StripPrefixCr(x: string)
    ensures StripPrefix(x + "\r", "def ") ==
      match StripPrefix(x, "def ") case None => None case Some(after) => Some(after + "\r")
  {
    var line := x + "\r";
    if 4 <= |x| {
      assert line[..4] == x[..4];
      assert line[4..] == x[4..] + "\r";
    } else if |x| == 3 {
      assert line[..4][3] == '\r';
    }
  }

  lemma NameAfterDefCr(after: string)
    ensures NameBeforeParen(TrimStart(after + "\r")) == NameBeforeParen(TrimStart(after))
  {
    TrimStartCr(after);
    if !AllWhitespace(after) {
      NameBeforeParenCr(TrimStart(after));
    }
  }

  lemma NameBeforeParenCr(rest: string)
    ensures NameBeforeParen(rest + "\r") == NameBeforeParen(rest)
  {
    FindSnoc(rest, '(', '\r');
    match Find(rest, '(') {
      case None =>
      case Some(p) => assert (rest + "\r")[..p] == rest[..p];
    }
  }

  /** A carriage return after a run is dropped with it when the run is all whitespace, and kept otherwise. */
  lemma TrimStartCr(s: string)
    ensures AllWhitespace(s) ==> TrimStart(s + "\r") == "" && TrimStart(s) == ""
    ensures !AllWhitespace(s) ==> TrimStart(s + "\r") == TrimStart(s) + "\r"
  {
    var ws := SplitLeadingWhitespace(s);
    var t := TrimStart(s);
    if t == [] {
      assert s == ws;
      TrimStartWhitespaceCr(ws);
    } else {
      assert !AllWhitespace(s) by {
        assert s[|ws|] == t[0];
      }
      TrimStartKeepsCr(ws, t);
    }
  }

  lemma TrimStartWhitespaceCr(ws: string)
    requires AllWhitespace(ws)
    ensures TrimStart(ws + "\r") == ""
  {
    assert AllWhitespace(ws + "\r") by {
      assert IsWhitespace("\r"[0]);
      AllWhitespaceConcat(ws, "\r");
    }
    assert ws + "\r" == (ws + "\r") + "";
    TrimStartOf(ws + "\r", "");
  }

  lemma TrimStartKeepsCr(ws: string, t: string)
    requires AllWhitespace(ws)
    requires t != [] && !IsWhitespace(t[0])
    ensures TrimStart(ws + t + "\r") == t + "\r"
  {
    assert ws + t + "\r" == ws + (t + "\r");
    assert (t + "\r")[0] == t[0];
    TrimStartOf(ws, t + "\r");
  }

  /** A character other than the one sought, appended, does not change what find returns. */
  lemma {:induction false} FindSnoc(s: string, c: char, d: char)
    requires c != d
    ensures Find(s + [d], c) == Find(s, c)
    decreases |s|
  {
    if s == [] {
      assert Find([d], c) == None by { assert [d][1..] == []; }
    } else {
      assert (s + [d])[1..] == s[1..] + [d];
      FindSnoc(s[1..], c, d);
    }
  }
}
