/**
 * The build driver (src/main.rs `build_contract`): read the contract, find
 * its exported functions, compile each of them, rebuild the project's
 * source tree, run cargo and name the output file. Reading the input, the
 * current directory and the cargo build are parameters; the copy of the
 * WASM binary to its destination is the `Artifact` the build returns.
 */
module Driver {
  import opened Wrappers
  import opened RustStr
  import opened Discovery
  import opened BuildErrors
  import opened Precompile
  import opened Codegen
  import opened Project

  // ---------------------------------------------------------------------
  // Compiling every method
  // ---------------------------------------------------------------------

  /** The methods compiled in order; the first failure ends the build. */
  function CompileAll<R>(compile: Compiler<R>, dump: Serializer<R>, source: string, names: seq<string>): Result<seq<CompiledMethod>, BuildError> {
    if |names| == 0 then Success([])
    else
      match CompileAll(compile, dump, source, names[..|names| - 1])
      case Failure(e) => Failure(e)
      case Success(methods) =>
        match PrecompileMethod(compile, dump, source, names[|names| - 1])
        case Failure(e) => Failure(e)
        case Success(m) => Success(methods + [m])
  }

  /** The compile loop: stops at the first method that fails. */
  method CompileMethods<R>(compile: Compiler<R>, dump: Serializer<R>, source: string, names: seq<string>)
    returns (r: Result<seq<CompiledMethod>, BuildError>)
    ensures r == CompileAll(compile, dump, source, names)
  {
    var methods: seq<CompiledMethod> := [];
    for i := 0 to |names|
      invariant CompileAll(compile, dump, source, names[..i]) == Success(methods)
    {
      assert names[..i + 1][..i] == names[..i];
      var compiled := PrecompileMethod(compile, dump, source, names[i]);
      if compiled.Failure? {
        FailureSticks(compile, dump, source, names, i + 1);
        return Failure(compiled.error);
      }
      methods := methods + [compiled.value];
    }
    assert names[..|names|] == names;
    return Success(methods);
  }

  /** Once a prefix of the methods fails, compiling more of them changes nothing. */
  lemma {:induction false} FailureSticks<R>(compile: Compiler<R>, dump: Serializer<R>, source: string, names: seq<string>, i: nat)
    requires i <= |names| && CompileAll(compile, dump, source, names[..i]).Failure?
    ensures CompileAll(compile, dump, source, names) == CompileAll(compile, dump, source, names[..i])
    decreases |names| - i
  {
    if i == |names| {
      assert names[..i] == names;
    } else {
      assert names[..i + 1][..i] == names[..i];
      FailureSticks(compile, dump, source, names, i + 1);
    }
  }

  /**
   * Compiling succeeds exactly when every method compiles, and then yields
   * each method's compilation, in the order of the names.
   */
  lemma {:induction false} CompileAllSucceeds<R>(compile: Compiler<R>, dump: Serializer<R>, source: string, names: seq<string>)
    ensures CompileAll(compile, dump, source, names).Success? <==>
      forall k :: 0 <= k < |names| ==> PrecompileMethod(compile, dump, source, names[k]).Success?
    ensures CompileAll(compile, dump, source, names).Success? ==>
      var methods := CompileAll(compile, dump, source, names).value;
      |methods| == |names| && forall k :: 0 <= k < |names| ==> methods[k] == PrecompileMethod(compile, dump, source, names[k]).value
    decreases |names|
  {
    if names != [] {
      var n := |names| - 1;
      var init := names[..n];
      assert forall k :: 0 <= k < n ==> init[k] == names[k];
      CompileAllSucceeds(compile, dump, source, init);
    }
  }

  /**
   * A failed compilation is the failure of one method, every method before
   * it having compiled.
   */
  lemma {:induction false} CompileAllFailsAt<R>(compile: Compiler<R>, dump: Serializer<R>, source: string, names: seq<string>)
    returns (j: nat)
    requires CompileAll(compile, dump, source, names).Failure?
    ensures j < |names|
    ensures PrecompileMethod(compile, dump, source, names[j]).Failure?
    ensures PrecompileMethod(compile, dump, source, names[j]).error == CompileAll(compile, dump, source, names).error
    ensures forall k :: 0 <= k < j ==> PrecompileMethod(compile, dump, source, names[k]).Success?
    decreases |names|
  {
    var n := |names| - 1;
    var init := names[..n];
    assert forall k :: 0 <= k < n ==> init[k] == names[k];
    if CompileAll(compile, dump, source, init).Failure? {
      j := CompileAllFailsAt(compile, dump, source, init);
    } else {
      CompileAllSucceeds(compile, dump, source, init);
      j := n;
    }
  }

  /** The compiled methods carry the discovered names, and equal names carry equal bytecode. */
  lemma CompiledMethodsConsistent<R>(compile: Compiler<R>, dump: Serializer<R>, source: string, names: seq<string>)
    requires CompileAll(compile, dump, source, names).Success?
    ensures MethodNames(CompileAll(compile, dump, source, names).value) == names
    ensures SameNameSameBytes(CompileAll(compile, dump, source, names).value)
  {
    CompileAllSucceeds(compile, dump, source, names);
  }

  // ---------------------------------------------------------------------
  // Paths
  // ---------------------------------------------------------------------

  const BuildDirName: string := "target/monty-near-build"

  /** A Unix path is absolute when it starts at the root. */
  predicate IsAbsolute(p: string) {
    |p| > 0 && p[0] == '/'
  }

  /** `Path::join`: an absolute path replaces the base; otherwise it is appended after a separator. */
  function Join(base: string, p: string): string {
    if IsAbsolute(p) then p
    else if base == [] || base[|base| - 1] == '/' then base + p
    else base + "/" + p
  }

  /** The destination of the WASM binary: the output path, taken relative to the current directory. */
  function ResolveOutput(cwd: string, output: string): string {
    if IsAbsolute(output) then output else Join(cwd, output)
  }

  /** Joining a relative path keeps the base in front and the path at the end. */
  lemma JoinRelative(base: string, p: string)
    requires !IsAbsolute(p)
    ensures exists sep :: (sep == "" || sep == "/") && Join(base, p) == base + sep + p
  {
    var sep := if base == [] || base[|base| - 1] == '/' then "" else "/";
    assert Join(base, p) == base + sep + p;
    assert (sep == "" || sep == "/") && Join(base, p) == base + sep + p;
  }

  /** Under an absolute directory every path resolves to an absolute one. */
  lemma ResolveOutputAbsolute(cwd: string, output: string)
    requires IsAbsolute(cwd)
    ensures IsAbsolute(ResolveOutput(cwd, output))
  {
    if !IsAbsolute(output) {
      assert ResolveOutput(cwd, output)[0] == cwd[0];
    }
  }

  /** An absolute output path is used as given, whatever the current directory. */
  lemma AbsoluteOutputKept(cwd: string, output: string)
    requires IsAbsolute(output)
    ensures ResolveOutput(cwd, output) == output
  {
  }

  /** Resolving a resolved path again changes nothing. */
  lemma ResolveOutputIdempotent(cwd: string, output: string)
    requires IsAbsolute(cwd)
    ensures ResolveOutput(cwd, ResolveOutput(cwd, output)) == ResolveOutput(cwd, output)
  {
    ResolveOutputAbsolute(cwd, output);
  }

  // ---------------------------------------------------------------------
  // The build
  // ---------------------------------------------------------------------

  /** The project directory, the file the binary is copied to, and the binary. */
  datatype Artifact = Artifact(buildDir: string, outputPath: string, wasm: seq<byte>)

  /** What a build returns, and the build directory's files after it, without what cargo itself writes there. */
  datatype Outcome = Outcome(result: Result<Artifact, BuildError>, files: Files)

  /** `build_wasm`: the cargo build of the project's files, giving the binary or an error (its own writes to the directory are not modelled). */
  type Cargo = Files -> Result<seq<byte>, string>

  /** build_contract, step by step: each failure stops the build where it happens. */
  function Build<R>(files: Files, read: Result<string, string>, input: string, compile: Compiler<R>, dump: Serializer<R>,
                    cwd: Result<string, string>, t: Templates, cargo: Cargo, output: string): Outcome
  {
    match read
    case Failure(e) => Outcome(Failure(ReadFailed(input, e)), files)
    case Success(source) =>
      var names := ExportedNames(Lines(source));
      if names == [] then Outcome(Failure(NoExports), files)
      else
        match CompileAll(compile, dump, source, names)
        case Failure(e) => Outcome(Failure(e), files)
        case Success(methods) =>
          match cwd
          case Failure(e) => Outcome(Failure(CwdFailed(e)), files)
          case Success(dir) =>
            var rebuilt := Apply(WithoutSrc(files), ProjectWrites(t, methods));
            match cargo(rebuilt)
            case Failure(e) => Outcome(Failure(CargoFailed(e)), rebuilt)
            case Success(wasm) => Outcome(Success(Artifact(Join(dir, BuildDirName), ResolveOutput(dir, output), wasm)), rebuilt)
  }

  /** build_contract over the build directory `dir`. */
  method BuildContract<R>(dir: BuildDir, read: Result<string, string>, input: string, compile: Compiler<R>, dump: Serializer<R>,
                          cwd: Result<string, string>, t: Templates, cargo: Cargo, output: string)
    returns (r: Result<Artifact, BuildError>)
    modifies dir
    ensures Build(old(dir.files), read, input, compile, dump, cwd, t, cargo, output) == Outcome(r, dir.files)
  {
    if read.Failure? {
      return Failure(ReadFailed(input, read.error));
    }
    var source := read.value;
    var names := FindExportedFunctions(source);
    if |names| == 0 {
      return Failure(NoExports);
    }
    var compiled := CompileMethods(compile, dump, source, names);
    if compiled.Failure? {
      return Failure(compiled.error);
    }
    var methods := compiled.value;
    if cwd.Failure? {
      return Failure(CwdFailed(cwd.error));
    }
    var buildDir := Join(cwd.value, BuildDirName);
    dir.RemoveSrc();
    dir.WriteProject(t, methods);
    var built := cargo(dir.files);
    if built.Failure? {
      return Failure(CargoFailed(built.error));
    }
    return Success(Artifact(buildDir, ResolveOutput(cwd.value, output), built.value));
  }

  // ---------------------------------------------------------------------
  // What a build guarantees
  // ---------------------------------------------------------------------

  /** A contract without exported functions is refused before anything is compiled or written. */
  lemma NoExportsRefused<R>(files: Files, source: string, input: string, compile: Compiler<R>, dump: Serializer<R>,
                            cwd: Result<string, string>, t: Templates, cargo: Cargo, output: string)
    requires ExportedNames(Lines(source)) == []
    ensures Build(files, Success(source), input, compile, dump, cwd, t, cargo, output) == Outcome(Failure(NoExports), files)
  {
  }

  /** Every failure except cargo's happens before the build directory is touched. */
  lemma EarlyFailuresLeaveDir<R>(files: Files, read: Result<string, string>, input: string, compile: Compiler<R>, dump: Serializer<R>,
                                 cwd: Result<string, string>, t: Templates, cargo: Cargo, output: string)
    ensures var o := Build(files, read, input, compile, dump, cwd, t, cargo, output);
      o.result.Failure? && !o.result.error.CargoFailed? ==> o.files == files
  {
  }

  /** A compilation failure names one of the discovered methods, every earlier one having compiled. */
  lemma CompileFailureNamesDiscoveredMethod<R>(files: Files, source: string, input: string, compile: Compiler<R>, dump: Serializer<R>,
                                               cwd: Result<string, string>, t: Templates, cargo: Cargo, output: string)
    returns (j: nat)
    requires var o := Build(files, Success(source), input, compile, dump, cwd, t, cargo, output);
      o.result.Failure? && (o.result.error.CompileFailed? || o.result.error.SerializeFailed?)
    ensures var names := ExportedNames(Lines(source));
      var o := Build(files, Success(source), input, compile, dump, cwd, t, cargo, output);
      j < |names| && o.result.error.methodName == names[j]
      && forall k :: 0 <= k < j ==> PrecompileMethod(compile, dump, source, names[k]).Success?
  {
    var names := ExportedNames(Lines(source));
    j := CompileAllFailsAt(compile, dump, source, names);
  }

  /**
   * A successful build found at least one method, compiled every one of
   * them, and cargo built the rebuilt project: its lib.rs is the spliced
   * template and every method's bytecode lies in src/.
   */
  lemma SuccessfulBuild<R>(files: Files, read: Result<string, string>, input: string, compile: Compiler<R>, dump: Serializer<R>,
                           cwd: Result<string, string>, t: Templates, cargo: Cargo, output: string)
    requires Build(files, read, input, compile, dump, cwd, t, cargo, output).result.Success?
    ensures read.Success? && cwd.Success?
    ensures var names := ExportedNames(Lines(read.value));
      var o := Build(files, read, input, compile, dump, cwd, t, cargo, output);
      |names| > 0
      && (forall k :: 0 <= k < |names| ==> PrecompileMethod(compile, dump, read.value, names[k]).Success?)
      && LibRsPath in o.files && o.files[LibRsPath] == Text(LibRs(t.libRs, names))
      && (forall k :: 0 <= k < |names| ==>
            BinPath(names[k]) in o.files
            && o.files[BinPath(names[k])] == Bytes(PrecompileMethod(compile, dump, read.value, names[k]).value.bytecode))
      && cargo(o.files) == Success(o.result.value.wasm)
      && o.result.value.outputPath == ResolveOutput(cwd.value, output)
      && o.result.value.buildDir == Join(cwd.value, BuildDirName)
  {
    var methods := SuccessfulBuildFiles(files, read, input, compile, dump, cwd, t, cargo, output);
    var source := read.value;
    var names := ExportedNames(Lines(source));
    var r := Apply(WithoutSrc(files), ProjectWrites(t, methods));
    CompileAllSucceeds(compile, dump, source, names);
    assert LibRsPath in r && r[LibRsPath] == Text(LibRs(t.libRs, names)) by {
      ProjectConfigFiles(WithoutSrc(files), t, methods);
    }
    assert forall k :: 0 <= k < |names| ==>
        BinPath(names[k]) in r && r[BinPath(names[k])] == Bytes(PrecompileMethod(compile, dump, source, names[k]).value.bytecode) by {
      ProjectBytecodeFiles(WithoutSrc(files), t, methods);
      assert forall k :: 0 <= k < |names| ==> methods[k].name == names[k];
    }
  }

  /**
   * In a successful build every `include_bytes!` of the generated lib.rs
   * names a file of the rebuilt source tree, and the k-th one holds the
   * bytecode of the k-th discovered method.
   */
  lemma BuiltIncludesResolve<R>(files: Files, read: Result<string, string>, input: string, compile: Compiler<R>, dump: Serializer<R>,
                                cwd: Result<string, string>, t: Templates, cargo: Cargo, output: string)
    requires Build(files, read, input, compile, dump, cwd, t, cargo, output).result.Success?
    ensures read.Success?
    ensures var names := ExportedNames(Lines(read.value));
      var o := Build(files, read, input, compile, dump, cwd, t, cargo, output);
      var targets := Collect(IncludeTarget, Lines(Statics(names)));
      |targets| == |names|
      && forall k :: 0 <= k < |names| ==>
           PrecompileMethod(compile, dump, read.value, names[k]).Success?
           && "src/" + targets[k] in o.files
           && o.files["src/" + targets[k]] == Bytes(PrecompileMethod(compile, dump, read.value, names[k]).value.bytecode)
  {
    var source := read.value;
    var names := ExportedNames(Lines(source));
    var methods := SuccessfulBuildFiles(files, read, input, compile, dump, cwd, t, cargo, output);
    assert AllExportable(names) by {
      var origin := ExportedNamesOrigin(Lines(source));
    }
    IncludesResolve(WithoutSrc(files), t, methods);
    CompileAllSucceeds(compile, dump, source, names);
    var rebuilt := Apply(WithoutSrc(files), ProjectWrites(t, methods));
    var targets := Collect(IncludeTarget, Lines(Statics(names)));
    forall k | 0 <= k < |names|
      ensures "src/" + targets[k] in rebuilt
      ensures rebuilt["src/" + targets[k]] == Bytes(PrecompileMethod(compile, dump, source, names[k]).value.bytecode)
    {
      assert methods[k] == PrecompileMethod(compile, dump, source, names[k]).value;
    }
  }

  /** The files a successful build leaves: the rebuilt project of the compiled methods. */
  lemma SuccessfulBuildFiles<R>(files: Files, read: Result<string, string>, input: string, compile: Compiler<R>, dump: Serializer<R>,
                                cwd: Result<string, string>, t: Templates, cargo: Cargo, output: string)
    returns (methods: seq<CompiledMethod>)
    requires Build(files, read, input, compile, dump, cwd, t, cargo, output).result.Success?
    ensures read.Success? && cwd.Success?
    ensures CompileAll(compile, dump, read.value, ExportedNames(Lines(read.value))) == Success(methods)
    ensures Build(files, read, input, compile, dump, cwd, t, cargo, output).files == Apply(WithoutSrc(files), ProjectWrites(t, methods))
    ensures MethodNames(methods) == ExportedNames(Lines(read.value)) && SameNameSameBytes(methods)
  {
    methods := CompileAll(compile, dump, read.value, ExportedNames(Lines(read.value))).value;
    CompiledMethodsConsistent(compile, dump, read.value, ExportedNames(Lines(read.value)));
  }
}
