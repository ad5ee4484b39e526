/**
 * The temporary cargo project (src/main.rs `write_project`): the three
 * configuration files copied from their templates, the generated lib.rs and
 * one `<name>.bin` file per method beside it. The build directory is a map
 * from paths relative to it to file contents; directories exist implicitly.
 */
module Project {
  import opened Wrappers
  import opened RustStr
  import opened Discovery
  import opened Precompile
  import opened Codegen

  datatype Contents = Text(text: string) | Bytes(data: seq<byte>)

  /** The four files embedded in the tool at compile time. */
  datatype Templates = Templates(cargoToml: string, rustToolchain: string, cargoConfig: string, libRs: string)

  datatype FileWrite = FileWrite(path: string, contents: Contents)

  type Files = map<string, Contents>

  const CargoTomlPath: string := "Cargo.toml"
  const ToolchainPath: string := "rust-toolchain.toml"
  const CargoConfigPath: string := ".cargo/config.toml"
  const LibRsPath: string := "src/lib.rs"

  /** Where a method's bytecode is written, next to lib.rs so that `include_bytes!` finds it. */
  function BinPath(name: string): string {
    "src/" + BinFile(name)
  }

  function ConfigWrites(t: Templates): seq<FileWrite> {
    [FileWrite(CargoTomlPath, Text(t.cargoToml)),
     FileWrite(ToolchainPath, Text(t.rustToolchain)),
     FileWrite(CargoConfigPath, Text(t.cargoConfig))]
  }

  function BytecodeWrites(methods: seq<CompiledMethod>): (w: seq<FileWrite>)
    ensures |w| == |methods|
    ensures forall k :: 0 <= k < |methods| ==> w[k] == FileWrite(BinPath(methods[k].name), Bytes(methods[k].bytecode))
  {
    seq(|methods|, k requires 0 <= k < |methods| => FileWrite(BinPath(methods[k].name), Bytes(methods[k].bytecode)))
  }

  /** The writes `write_project` performs, in its order. */
  function ProjectWrites(t: Templates, methods: seq<CompiledMethod>): seq<FileWrite> {
    ConfigWrites(t) + [FileWrite(LibRsPath, Text(LibRs(t.libRs, MethodNames(methods))))] + BytecodeWrites(methods)
  }

  /** The files after the writes, applied in order: a later write to a path replaces an earlier one. */
  function Apply(files: Files, writes: seq<FileWrite>): Files {
    if |writes| == 0 then files
    else Apply(files, writes[..|writes| - 1])[writes[|writes| - 1].path := writes[|writes| - 1].contents]
  }

  /** What the last write to `path` wrote, if any write names it. */
  function LastWrite(writes: seq<FileWrite>, path: string): Option<Contents> {
    if |writes| == 0 then None
    else if writes[|writes| - 1].path == path then Some(writes[|writes| - 1].contents)
    else LastWrite(writes[..|writes| - 1], path)
  }

  /** Paths of the source tree that is cleared before every build. */
  predicate InSrc(path: string) {
    |path| >= 4 && path[..4] == "src/"
  }

  /** The files with the source tree removed (`remove_dir_all` of src). */
  function WithoutSrc(files: Files): Files {
    map p | p in files && !InSrc(p) :: files[p]
  }

  /** Methods that share a name share their bytecode (as compiling the same program twice does). */
  predicate SameNameSameBytes(methods: seq<CompiledMethod>) {
    forall j, k :: 0 <= j < |methods| && 0 <= k < |methods| && methods[j].name == methods[k].name ==>
      methods[j].bytecode == methods[k].bytecode
  }

  /** The build directory, whose files the build rewrites in place. */
  class BuildDir {
    var files: Files

    constructor (files: Files)
      ensures this.files == files
    {
      this.files := files;
    }

    /** `fs::write`: creates or replaces one file. */
    method WriteFile(path: string, contents: Contents)
      modifies this
      ensures files == old(files)[path := contents]
    {
      files := files[path := contents];
    }

    /** Removes the source tree, leaving every other file. */
    method RemoveSrc()
      modifies this
      ensures files == WithoutSrc(old(files))
    {
      files := WithoutSrc(files);
    }

    /** write_project: the three configuration files, lib.rs, then one bytecode file per method. */
    method WriteProject(t: Templates, methods: seq<CompiledMethod>)
      modifies this
      ensures files == Apply(old(files), ProjectWrites(t, methods))
    {
      ghost var start := files;
      ghost var writes := ProjectWrites(t, methods);
      assert writes[..0] == [];
      WriteFile(CargoTomlPath, Text(t.cargoToml));
      ApplySnoc(start, writes, 0);
      WriteFile(ToolchainPath, Text(t.rustToolchain));
      ApplySnoc(start, writes, 1);
      WriteFile(CargoConfigPath, Text(t.cargoConfig));
      ApplySnoc(start, writes, 2);
      var libRs := GenerateLibRs(t.libRs, methods);
      WriteFile(LibRsPath, Text(libRs));
      ApplySnoc(start, writes, 3);
      for i := 0 to |methods|
        invariant files == Apply(start, writes[..4 + i])
      {
        assert writes[4 + i] == FileWrite(BinPath(methods[i].name), Bytes(methods[i].bytecode));
        WriteFile(BinPath(methods[i].name), Bytes(methods[i].bytecode));
        ApplySnoc(start, writes, 4 + i);
      }
      assert writes[..4 + |methods|] == writes;
    }
  }

  lemma ApplySnoc(files: Files, writes: seq<FileWrite>, k: nat)
    requires k < |writes|
    ensures Apply(files, writes[..k + 1]) == Apply(files, writes[..k])[writes[k].path := writes[k].contents]
  {
    assert writes[..k + 1][..k] == writes[..k];
  }

  // ---------------------------------------------------------------------
  // What a sequence of writes leaves behind
  // ---------------------------------------------------------------------

  /** A path holds what its last write wrote, and is otherwise as before. */
  lemma {:induction false} ApplyLookup(files: Files, writes: seq<FileWrite>, path: string)
    ensures path in Apply(files, writes) <==> path in files || LastWrite(writes, path).Some?
    ensures LastWrite(writes, path).Some? ==> Apply(files, writes)[path] == LastWrite(writes, path).value
    ensures LastWrite(writes, path).None? && path in files ==> Apply(files, writes)[path] == files[path]
    decreases |writes|
  {
    if writes != [] {
      ApplyLookup(files, writes[..|writes| - 1], path);
    }
  }

  /** The last write to a path is one of the writes, and names that path. */
  lemma {:induction false} LastWriteIsAWrite(writes: seq<FileWrite>, path: string) returns (j: nat)
    requires LastWrite(writes, path).Some?
    ensures j < |writes| && writes[j].path == path && LastWrite(writes, path).value == writes[j].contents
    decreases |writes|
  {
    if writes[|writes| - 1].path == path {
      j := |writes| - 1;
    } else {
      j := LastWriteIsAWrite(writes[..|writes| - 1], path);
    }
  }

  /** A path that some write names has a last write. */
  lemma {:induction false} WrittenHasLastWrite(writes: seq<FileWrite>, path: string, k: nat)
    requires k < |writes| && writes[k].path == path
    ensures LastWrite(writes, path).Some?
    decreases |writes|
  {
    if k < |writes| - 1 && writes[|writes| - 1].path != path {
      WrittenHasLastWrite(writes[..|writes| - 1], path, k);
    }
  }

  /** Only the writes in the second run count for a path the second run writes. */
  lemma {:induction false} LastWriteAppend(a: seq<FileWrite>, b: seq<FileWrite>, path: string)
    ensures LastWrite(a + b, path) == if LastWrite(b, path).Some? then LastWrite(b, path) else LastWrite(a, path)
    decreases |b|
  {
    if b == [] {
      assert a + b == a;
    } else {
      assert (a + b)[..|a + b| - 1] == a + b[..|b| - 1];
      LastWriteAppend(a, b[..|b| - 1], path);
    }
  }

  /** A write that no later write overrides is the last write to its path. */
  lemma {:induction false} LastWriteAt(writes: seq<FileWrite>, k: nat)
    requires k < |writes|
    requires forall j :: k < j < |writes| ==> writes[j].path != writes[k].path
    ensures LastWrite(writes, writes[k].path) == Some(writes[k].contents)
    decreases |writes|
  {
    if k < |writes| - 1 {
      var init := writes[..|writes| - 1];
      assert init[k] == writes[k];
      forall j | k < j < |init| ensures init[j].path != init[k].path {
        assert init[j] == writes[j];
      }
      LastWriteAt(init, k);
    }
  }

  lemma LastWriteNone(writes: seq<FileWrite>, path: string)
    requires forall k :: 0 <= k < |writes| ==> writes[k].path != path
    ensures LastWrite(writes, path).None?
  {
    if LastWrite(writes, path).Some? {
      var j := LastWriteIsAWrite(writes, path);
    }
  }

  // ---------------------------------------------------------------------
  // Paths
  // ---------------------------------------------------------------------

  lemma BinPathInSrc(name: string)
    ensures InSrc(BinPath(name))
  {
    assert BinPath(name)[..4] == "src/";
  }

  /** Distinct methods get distinct bytecode files. */
  lemma BinPathInjective(a: string, b: string)
    requires BinPath(a) == BinPath(b)
    ensures a == b
  {
    assert |a| == |b|;
    assert a == BinPath(a)[4..4 + |a|];
    assert b == BinPath(b)[4..4 + |b|];
  }

  /** No bytecode file overwrites lib.rs: one ends in ".bin", the other in ".rs". */
  lemma BinPathIsNotLibRs(name: string)
    ensures BinPath(name) != LibRsPath
  {
    var p := BinPath(name);
    assert p[|p| - 1] == 'n';
  }

  lemma ConfigPathsOutsideSrc()
    ensures !InSrc(CargoTomlPath) && !InSrc(ToolchainPath) && !InSrc(CargoConfigPath)
  {
    assert CargoTomlPath[..4][0] == 'C';
    assert ToolchainPath[..4][0] == 'r';
    assert CargoConfigPath[..4][0] == '.';
  }

  // ---------------------------------------------------------------------
  // The project as written
  // ---------------------------------------------------------------------

  /** No write of the bytecode files names the path. */
  lemma NoBytecodeWriteTo(methods: seq<CompiledMethod>, path: string)
    requires !InSrc(path) || path == LibRsPath
    ensures LastWrite(BytecodeWrites(methods), path).None?
  {
    forall k | 0 <= k < |methods| ensures BytecodeWrites(methods)[k].path != path {
      BinPathInSrc(methods[k].name);
      BinPathIsNotLibRs(methods[k].name);
    }
    LastWriteNone(BytecodeWrites(methods), path);
  }

  /** The configuration files are the templates, verbatim, and lib.rs is the spliced template. */
  lemma ProjectConfigFiles(files: Files, t: Templates, methods: seq<CompiledMethod>)
    ensures var r := Apply(files, ProjectWrites(t, methods));
      CargoTomlPath in r && r[CargoTomlPath] == Text(t.cargoToml)
      && ToolchainPath in r && r[ToolchainPath] == Text(t.rustToolchain)
      && CargoConfigPath in r && r[CargoConfigPath] == Text(t.cargoConfig)
      && LibRsPath in r && r[LibRsPath] == Text(LibRs(t.libRs, MethodNames(methods)))
  {
    var head := ConfigWrites(t) + [FileWrite(LibRsPath, Text(LibRs(t.libRs, MethodNames(methods))))];
    var tail := BytecodeWrites(methods);
    assert ProjectWrites(t, methods) == head + tail;
    assert head[0].path[0] == 'C' && head[1].path[0] == 'r' && head[2].path[0] == '.' && head[3].path[0] == 's';
    ConfigPathsOutsideSrc();
    assert CargoTomlPath in Apply(files, head + tail) && Apply(files, head + tail)[CargoTomlPath] == Text(t.cargoToml) by {
      NoBytecodeWriteTo(methods, CargoTomlPath);
      HeadFileKept(files, head, tail, 0);
    }
    assert ToolchainPath in Apply(files, head + tail) && Apply(files, head + tail)[ToolchainPath] == Text(t.rustToolchain) by {
      NoBytecodeWriteTo(methods, ToolchainPath);
      HeadFileKept(files, head, tail, 1);
    }
    assert CargoConfigPath in Apply(files, head + tail) && Apply(files, head + tail)[CargoConfigPath] == Text(t.cargoConfig) by {
      NoBytecodeWriteTo(methods, CargoConfigPath);
      HeadFileKept(files, head, tail, 2);
    }
    assert LibRsPath in Apply(files, head + tail) && Apply(files, head + tail)[LibRsPath] == head[3].contents by {
      NoBytecodeWriteTo(methods, LibRsPath);
      HeadFileKept(files, head, tail, 3);
    }
  }

  /** A write of the first run that no later write overrides decides what its path holds. */
  lemma HeadFileKept(files: Files, head: seq<FileWrite>, tail: seq<FileWrite>, k: nat)
    requires k < |head|
    requires forall j :: k < j < |head| ==> head[j].path != head[k].path
    requires LastWrite(tail, head[k].path).None?
    ensures head[k].path in Apply(files, head + tail) && Apply(files, head + tail)[head[k].path] == head[k].contents
  {
    LastWriteAt(head, k);
    ConfigFileLookup(files, head, tail, head[k].path);
  }

  lemma ConfigFileLookup(files: Files, head: seq<FileWrite>, tail: seq<FileWrite>, path: string)
    requires LastWrite(tail, path).None?
    ensures LastWrite(head + tail, path) == LastWrite(head, path)
    ensures LastWrite(head, path).Some? ==> path in Apply(files, head + tail) && Apply(files, head + tail)[path] == LastWrite(head, path).value
  {
    LastWriteAppend(head, tail, path);
    ApplyLookup(files, head + tail, path);
  }

  /** Every method's bytecode file is written and holds that method's bytecode. */
  lemma ProjectBytecodeFiles(files: Files, t: Templates, methods: seq<CompiledMethod>)
    requires SameNameSameBytes(methods)
    ensures var r := Apply(files, ProjectWrites(t, methods));
      forall k :: 0 <= k < |methods| ==>
        BinPath(methods[k].name) in r && r[BinPath(methods[k].name)] == Bytes(methods[k].bytecode)
  {
    forall k | 0 <= k < |methods|
      ensures var r := Apply(files, ProjectWrites(t, methods));
        BinPath(methods[k].name) in r && r[BinPath(methods[k].name)] == Bytes(methods[k].bytecode)
    {
      BytecodeFileOf(files, t, methods, k);
    }
  }

  lemma BytecodeFileOf(files: Files, t: Templates, methods: seq<CompiledMethod>, k: nat)
    requires SameNameSameBytes(methods) && k < |methods|
    ensures var r := Apply(files, ProjectWrites(t, methods));
      BinPath(methods[k].name) in r && r[BinPath(methods[k].name)] == Bytes(methods[k].bytecode)
  {
    var head := ConfigWrites(t) + [FileWrite(LibRsPath, Text(LibRs(t.libRs, MethodNames(methods))))];
    var tail := BytecodeWrites(methods);
    var path := BinPath(methods[k].name);
    WrittenHasLastWrite(tail, path, k);
    LastWriteAppend(head, tail, path);
    var j := LastWriteIsAWrite(tail, path);
    BinPathInjective(methods[j].name, methods[k].name);
    ApplyLookup(files, head + tail, path);
  }

  /**
   * Every file lib.rs embeds, taken relative to src/ as `include_bytes!`
   * does, is written and holds the bytecode of the method whose static
   * embeds it.
   */
  lemma IncludesResolve(files: Files, t: Templates, methods: seq<CompiledMethod>)
    requires AllExportable(MethodNames(methods)) && SameNameSameBytes(methods)
    ensures var r := Apply(files, ProjectWrites(t, methods));
      var targets := Collect(IncludeTarget, Lines(Statics(MethodNames(methods))));
      |targets| == |methods|
      && forall k :: 0 <= k < |methods| ==> "src/" + targets[k] in r && r["src/" + targets[k]] == Bytes(methods[k].bytecode)
  {
    StaticsIncludeBinFiles(MethodNames(methods));
    ProjectBytecodeFiles(files, t, methods);
  }

  /** After the source tree is cleared, it holds exactly lib.rs and the methods' bytecode files. */
  lemma RebuiltSourceTree(files: Files, t: Templates, methods: seq<CompiledMethod>)
    ensures var r := Apply(WithoutSrc(files), ProjectWrites(t, methods));
      forall p :: p in r && InSrc(p) ==> p == LibRsPath || exists k :: 0 <= k < |methods| && p == BinPath(methods[k].name)
  {
    forall p | p in Apply(WithoutSrc(files), ProjectWrites(t, methods)) && InSrc(p)
      ensures p == LibRsPath || exists k :: 0 <= k < |methods| && p == BinPath(methods[k].name)
    {
      SrcFileOrigin(files, t, methods, p);
    }
  }

  lemma SrcFileOrigin(files: Files, t: Templates, methods: seq<CompiledMethod>, p: string)
    requires p in Apply(WithoutSrc(files), ProjectWrites(t, methods)) && InSrc(p)
    ensures p == LibRsPath || exists k :: 0 <= k < |methods| && p == BinPath(methods[k].name)
  {
    var w := ProjectWrites(t, methods);
    ApplyLookup(WithoutSrc(files), w, p);
    var j := LastWriteIsAWrite(w, p);
    ConfigPathsOutsideSrc();
    if j >= 4 {
      assert w[j] == BytecodeWrites(methods)[j - 4];
    }
  }

  /** Files outside the source tree that the project does not write are left as they were. */
  lemma OtherFilesKept(files: Files, t: Templates, methods: seq<CompiledMethod>)
    ensures var r := Apply(WithoutSrc(files), ProjectWrites(t, methods));
      forall p :: !InSrc(p) && p != CargoTomlPath && p != ToolchainPath && p != CargoConfigPath ==>
        (p in r <==> p in files) && (p in files ==> r[p] == files[p])
  {
    forall p | !InSrc(p) && p != CargoTomlPath && p != ToolchainPath && p != CargoConfigPath
      ensures var r := Apply(WithoutSrc(files), ProjectWrites(t, methods));
        (p in r <==> p in files) && (p in files ==> r[p] == files[p])
    {
      UnwrittenPath(files, t, methods, p);
    }
  }

  lemma UnwrittenPath(files: Files, t: Templates, methods: seq<CompiledMethod>, p: string)
    requires !InSrc(p) && p != CargoTomlPath && p != ToolchainPath && p != CargoConfigPath
    ensures var r := Apply(WithoutSrc(files), ProjectWrites(t, methods));
      (p in r <==> p in files) && (p in files ==> r[p] == files[p])
  {
    var w := ProjectWrites(t, methods);
    forall k | 0 <= k < |w| ensures w[k].path != p {
      if k >= 4 {
        assert w[k] == BytecodeWrites(methods)[k - 4];
        BinPathInSrc(methods[k - 4].name);
      }
    }
    LastWriteNone(w, p);
    ApplyLookup(WithoutSrc(files), w, p);
  }
}
