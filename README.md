# monty-near-cli `build`: the code-generation front half, in Dafny

`monty-near build contract.py` turns a Python contract into a NEAR WASM
binary. It works in five steps:

1. It finds the contract's exported top-level functions with a line scan.
2. It compiles the whole source once per function, with a call to that function appended, into Monty bytecode.
3. It writes a temporary cargo project. The project's `lib.rs` is a template with one bytecode static and one `extern "C"` entry point per function spliced in at two marker comments. Each function's bytecode sits beside `lib.rs` as `src/<name>.bin`.
4. It runs `cargo build --release`.
5. It copies the binary to the output path.

This project models steps 1–3 and the driver's sequencing, and proves what they promise:

- which names discovery returns, from which lines and in what order;
- the exact program each method is compiled from;
- how the template is spliced;
- that every `include_bytes!` target the statics fragment of the generated `lib.rs` emits is a file the project writes, holding that method's bytecode;
- the order in which the build fails.

Modules, one file each:

- `RustStr` (`rust_str.dfy`): the Rust `str` operations the code relies on: `lines`, `strip_prefix`, `trim_start`/`trim`, `find`, ASCII `to_uppercase` and `replace`. They follow the Rust standard library's documented behaviour. For example, `lines` drops a `"\r"` only before a `"\n"`, and `replace` scans left to right without overlaps.
- `Discovery` (`discovery.dfy`): `find_exported_functions` as a loop proved against the specification function `ExportedNames`, plus the properties of that function.
- `DiscoveryExample` (`discovery_example.dfy`): the repository's sample contract `examples/example.py`, line by line, as a test vector.
- `BuildErrors` (`errors.dfy`): the build's errors and the outermost (`Display`) message of each. `main` returns an `anyhow::Result`, so the process prints `Error: ` and anyhow's `Debug` form, which for the `context` errors adds a `Caused by:` chain holding the cause that this message leaves out.
- `Precompile` (`precompile.dfy`): the host-function list, the program built for each method, and `precompile_method`, with the compiler as a parameter.
- `Codegen` (`codegen.dfy`): `generate_lib_rs` as a loop proved against `LibRs`, the splice, and a reading-back of both generated fragments.
- `Project` (`project.dfy`): the build directory as a class over a path-to-contents map, and `write_project` as a loop of writes.
- `Driver` (`driver.dfy`): the compile loop with early exit, the output-path resolution, and `build_contract` as a method proved against the step function `Build`.

The foreign parts are parameters:

- The Monty compiler (`MontyRun::new`) and its serializer (`dump`) are the functions `compile` and `dump`. Either may fail.
- `build_wasm` is a function `cargo` from the build directory's files to a binary or an error.
- The results of `fs::read_to_string` and `std::env::current_dir` are passed in as `Result` values.
- The four embedded templates are a `Templates` value. Their text is not part of this model.

Two things the code does that a reader might not expect, and that the model follows:

- Discovery is a line scan, not a parse. An indented `def` is never exported, while a `def ` at column 0 inside a string literal is.
- A template without the markers is passed through silently.

Facts about the code that the model exhibits:

- Discovery keeps duplicates (`Discovery.DuplicatesKept`). A contract that defines the same function twice gets two identical statics and two identical entry points.
- Names differing only in case (`get`, `GET`) map to one static (`Codegen.CaseOnlyNamesShareStatic`).

Either case is left for cargo to reject, and the model does not follow cargo.

## Model

A row whose third column says "as a definition" is a function with no contract of its own: the row says which source lines it follows and names the lemmas that state its properties.

| member | source | states |
|---|---|---|
| Discovery.FindExportedFunctions | src/main.rs:80-98 | the loop over the lines returns exactly `ExportedNames(Lines(source))`, the names of the lines in line order |
| Discovery.ExportedNames | src/main.rs:80-98 | the names discovery collects from the lines, as a definition: the scan `Collect` with `NameOfLine`, the specification FindExportedFunctions is proved against; ExportedNamesOrigin characterises it |
| Discovery.IsExportableName | src/main.rs:87-90 | the four name checks, as a definition: non-empty, no leading `_`, only ASCII alphanumerics and `_`, an ASCII letter first; NameOfLineExportable states them of every discovered name |
| Discovery.NameOfLine | src/main.rs:83-93 | the name one line contributes, as a definition: `strip_prefix("def ")`, then `trim_start`, then NameBeforeParen; NameOfLineShape and NameOfLineOfShape characterise it |
| Discovery.NameBeforeParen | src/main.rs:85-93 | the trimmed text before the first `(`, as a definition, kept only when it passes the four checks; NoParenIgnored states the case without `(` |
| Discovery.ExportedNamesOrigin | src/main.rs:82-95 | each returned name comes from its own line, in strictly increasing line order (so at most one per line and source order kept); every line that yields a name is used; every name is exportable |
| Discovery.NameOfLineExportable | src/main.rs:86-90 | a name discovery keeps is non-empty, does not start with `_`, contains only ASCII alphanumerics and `_`, and starts with an ASCII letter |
| Discovery.NameOfLineShape | src/main.rs:83-86 | a line yields a name only if it is `def `, whitespace, the name, whitespace, `(` and a rest: the name is the text between `def ` and that `(`, trimmed |
| Discovery.NameOfLineOfShape | src/main.rs:83-92 | conversely, every line of that shape whose name is exportable yields exactly that name |
| Discovery.IndentedDefIgnored | src/main.rs:83 | a line starting with whitespace (an indented `def`) yields nothing |
| Discovery.NotDefIgnored | src/main.rs:83 | a line not starting with `d` yields nothing |
| Discovery.NotDefLinesIgnored | src/main.rs:82-95 | lines none of which starts with `d` yield no names |
| Discovery.NoParenIgnored | src/main.rs:85 | a line without `(` yields nothing |
| Discovery.DuplicatesKept | src/main.rs:92 | a name defined twice is returned twice: duplicates are not removed |
| Discovery.CollectAppend | src/main.rs:82-95 | the scan of two runs of lines is the scan of the first followed by the scan of the second |
| Discovery.CollectOrigin | src/main.rs:82-95 | for any per-line picker, each collected entry comes from its own line, in increasing line order, and every picking line is used |
| DiscoveryExample.ExampleContractExports | examples/example.py:10-151 | on the sample contract discovery returns the 13 names `hello` … `kv_get`, in source order |
| DiscoveryExample.SectionNames | examples/example.py:10-151 | a `def name():` line followed by body lines none of which begins with `d` yields just `name` |
| RustStr.Lines | src/main.rs:82 | the text has no lines exactly when it is empty |
| RustStr.StripCr | src/main.rs:82 | the `"\r"` of a `"\r\n"` line ending, as a definition: a final `"\r"` is dropped and nothing else; NameOfLineStripCr states it never changes what a line yields |
| RustStr.LinesHaveNoBreaks | src/main.rs:82 | no line holds a `"\n"` |
| RustStr.LinesConcat | src/main.rs:82 | splitting after a complete line splits each part separately |
| RustStr.LinesOfUnlines | src/main.rs:82 | lines without breaks or a final `"\r"`, each written with `"\n"`, split back into the same lines |
| RustStr.TrimStart | src/main.rs:84 | the result is a suffix that drops only whitespace and starts with a non-whitespace character |
| RustStr.TrimEnd | src/main.rs:86 | the result is a prefix that drops only whitespace and ends with a non-whitespace character |
| RustStr.Find | src/main.rs:85 | `None` exactly when the character is absent; otherwise its first position |
| RustStr.StripPrefix | src/main.rs:83 | `Some` exactly when the text starts with the prefix, and then the text is the prefix followed by the result |
| RustStr.IsWhitespace | src/main.rs:84-86 | `char::is_whitespace`, as a definition: the 25 characters with the Unicode White_Space property that `trim_start` and `trim` drop |
| RustStr.IsAsciiAlphabetic | src/main.rs:90 | `char::is_ascii_alphabetic`, as a definition: `A`–`Z` and `a`–`z` |
| RustStr.IsAsciiAlphanumeric | src/main.rs:89 | `char::is_ascii_alphanumeric`, as a definition: the ASCII letters and `0`–`9` |
| RustStr.AsciiUpper | src/main.rs:137 | one character upper-cased: a lower-case ASCII letter becomes its capital, and the character stays an ASCII alphanumeric, or `_`, exactly when it was one |
| RustStr.ToUppercase | src/main.rs:137 | same length, and every character upper-cased (ASCII) |
| RustStr.Trim | src/main.rs:86 | `str::trim`, as a definition: `trim_end` after `trim_start`; TrimStart and TrimEnd state what each drops |
| RustStr.Replace | src/main.rs:150-152 | `str::replace`, as a definition: a left-to-right scan replacing each occurrence without overlap; ReplaceNoMatch, ReplaceAtFirst and ReplaceOnly state its behaviour |
| RustStr.ReplaceNoMatch | src/main.rs:150-152 | without an occurrence of the pattern, `replace` changes nothing |
| RustStr.ReplaceAtFirst | src/main.rs:150-152 | the first occurrence is replaced and everything before it is kept |
| RustStr.ReplaceOnly | src/main.rs:150-152 | an occurrence that is the only one is replaced and the text on both sides is kept |
| Precompile.NearExternalFunctions | src/main.rs:53-73 | the host-function list has 14 entries |
| Precompile.NearExternalFunctionsDistinct | src/main.rs:53-73 | the 14 host-function names are pairwise distinct |
| Precompile.Program | src/main.rs:110 | the program text, as a definition: the source, `"\n\n"`, the call `name()` and `"\n"`; ProgramLines and ProgramKeepsExports state its lines and its exports |
| Precompile.Request | src/main.rs:111-113 | what `MontyRun::new` is given, as a definition: that program, the script name `contract.py`, no inputs and the host-function list |
| Precompile.PrecompileMethod | src/main.rs:109-124 | success exactly when compiling `Program(source, name)` and serializing the result both succeed, and then the name and the serialized bytes; a compile failure gives `CompileFailed(name, …)`; a serialize failure gives `SerializeFailed(name, …)` |
| Precompile.PrecompileFailureNamesMethod | src/main.rs:113-118 | every failure of `precompile_method` prints a message that quotes the method's name |
| Precompile.ProgramLines | src/main.rs:110 | the compiled program's lines are the lines of the source up to its last `"\n"`, then the text after that `"\n"` (less a final `"\r"`), an empty line and `name()`; that text is empty when the source is empty or ends in `"\n"`, so such a source is followed by two empty lines |
| Precompile.ProgramKeepsExports | src/main.rs:110 | appending the call changes none of the program's exported names |
| BuildErrors.MessageNamesMethod | src/main.rs:113-118 | the compile and serialize messages quote the method's name between `'` |
| BuildErrors.Message | src/main.rs:114-229 | the outermost message of each error, as a definition: the compile message with its cause (line 114), the serialize context (118), the read context (225), the no-exports text (229), and the cause itself for the current-directory and cargo errors; MessageNamesMethod states the quoting |
| Codegen.GenerateLibRs | src/main.rs:132-153 | the two-buffer loop and the two replaces give `LibRs(template, names)` |
| Codegen.MethodNames | src/main.rs:136 | the names of the compiled methods, in order |
| Codegen.MarkersDiffer | src/main.rs:19-20 | the markers `// @MONTY_BYTECODE_STATICS` and `// @MONTY_EXPORTS` (the constants MarkerBytecode and MarkerExports) are distinct and neither occurs inside the other |
| Codegen.StaticName | src/main.rs:137-140 | a method's static, as a definition: its name upper-cased, then `_BYTECODE`; StaticsDeclareStatics and CaseOnlyNamesShareStatic state what that gives |
| Codegen.StaticLine | src/main.rs:139-142 | one method's static, as a definition: `static <NAME>_BYTECODE: &[u8] = include_bytes!("<name>.bin");` and a newline; StaticsIncludeBinFiles and StaticsDeclareStatics read it back |
| Codegen.ExportBlock | src/main.rs:144-147 | one method's entry point, as a definition: `#[no_mangle]`, `pub extern "C" fn <name>() {`, `run_precompiled(<NAME>_BYTECODE);`, `}` and a blank line; ExportsDeclareMethods and ExportsRunStatics read it back |
| Codegen.Statics | src/main.rs:133-142 | the statics buffer after the loop, as a definition: the static lines of the methods concatenated in order; StaticsLines and StaticsIncludeBinFiles characterise it |
| Codegen.Exports | src/main.rs:133-148 | the exports buffer after the loop, as a definition: the entry-point blocks of the methods concatenated in order; ExportsLines and ExportsDeclareMethods characterise it |
| Codegen.LibRs | src/main.rs:150-152 | the lib.rs text, as a definition: the statics marker replaced by the statics fragment, then the exports marker by the exports fragment; the splice lemmas state its shape |
| Codegen.SpliceTemplate | src/main.rs:150-152 | for a template laid out as text, statics marker, text, exports marker and text, in which the statics marker occurs only there and the exports marker occurs only there in the text the first replace leaves, the two replaces give text, statics, text, exports and text |
| Codegen.SpliceTemplateExportsFirst | src/main.rs:150-152 | the same splice for a template holding the exports marker before the statics marker |
| Codegen.SpliceInOrder | src/main.rs:150-152 | for any two patterns, each occurring once (the second in the text the first replace leaves), the first before the second, two replaces put each replacement in its pattern's place and keep all other text |
| Codegen.SpliceInReverse | src/main.rs:150-152 | the same when the second pattern comes first in the text |
| Codegen.LibRsSplices | src/main.rs:150-152 | under the same single-occurrence conditions, the generated lib.rs keeps all template text and puts the statics and the exports where the markers were |
| Codegen.LibRsSplicesExportsFirst | src/main.rs:150-152 | the same for a template holding the exports marker first |
| Codegen.NoMethodsDeletesMarkers | src/main.rs:150-152 | with no methods each marker, occurring once, is deleted and nothing else changes |
| Codegen.TemplateWithoutMarkersUnchanged | src/main.rs:150-152 | a template in which neither marker occurs comes through unchanged |
| Codegen.StaticsHaveNoAt | src/main.rs:139-142 | the statics fragment holds no `@` |
| Codegen.StaticsHoldNoMarkers | src/main.rs:139-142 | the statics fragment holds neither marker, so the second replace finds no marker inside it |
| Codegen.StaticsLines | src/main.rs:139-142 | the statics fragment is one line per method, in method order |
| Codegen.ExportsLines | src/main.rs:144-147 | the exports fragment is one five-line block per method, in method order |
| Codegen.StaticsIncludeBinFiles | src/main.rs:140 | the k-th static line embeds `<name k>.bin` |
| Codegen.StaticsDeclareStatics | src/main.rs:140 | the k-th static line declares `<NAME k>_BYTECODE` |
| Codegen.ExportsDeclareMethods | src/main.rs:145 | the k-th block exports the C symbol `<name k>` |
| Codegen.ExportsRunStatics | src/main.rs:145 | the k-th block's body runs `<NAME k>_BYTECODE`, the static of the same method |
| Codegen.CaseOnlyNamesShareStatic | src/main.rs:137 | `get` and `GET` get the same static name |
| Project.BuildDir.WriteFile | src/main.rs:160 | one file is created or replaced and no other changes |
| Project.BuildDir.RemoveSrc | src/main.rs:247-252 | the files under `src/` are removed and all others kept |
| Project.WithoutSrc | src/main.rs:247-252 | the files after `remove_dir_all` of `src`, as a definition: every path under `src/` dropped, every other kept; RemoveSrc is proved against it |
| Project.BuildDir.WriteProject | src/main.rs:159-176 | the directory's files become the old files with the writes of `ProjectWrites` applied in order |
| Project.ProjectWrites | src/main.rs:159-173 | the writes of `write_project`, as a definition, in order: Cargo.toml, rust-toolchain.toml, .cargo/config.toml, src/lib.rs, then one `src/<name>.bin` per method; ProjectConfigFiles, ProjectBytecodeFiles and RebuiltSourceTree state their effect |
| Project.BinPath | src/main.rs:172 | where a method's bytecode goes, as a definition: `src/<name>.bin`; BinPathInjective and BinPathIsNotLibRs state its properties |
| Project.Apply | src/main.rs:160-173 | a run of `fs::write` calls, as a definition: each write replaces its path's contents, in order; ApplyLookup characterises it |
| Project.ApplyLookup | src/main.rs:159-176 | after a run of writes, a path holds what its last write wrote, and is otherwise as before |
| Project.ProjectConfigFiles | src/main.rs:160-169 | Cargo.toml, rust-toolchain.toml and .cargo/config.toml hold their templates verbatim; src/lib.rs holds the spliced template |
| Project.ProjectBytecodeFiles | src/main.rs:171-173 | every method's `src/<name>.bin` is written with that method's bytecode |
| Project.IncludesResolve | src/main.rs:140-172 | every `include_bytes!` target the statics fragment emits, taken relative to `src/`, is a written file holding its method's bytecode |
| Project.RebuiltSourceTree | src/main.rs:247-255 | after the source tree is cleared and the project written, `src/` holds only lib.rs and the methods' `.bin` files |
| Project.OtherFilesKept | src/main.rs:247-255 | through the clearing of `src/` and the project writes, the files outside `src/` that the project does not write stay as they were |
| Project.BinPathInjective | src/main.rs:172 | distinct method names get distinct bytecode files |
| Project.BinPathIsNotLibRs | src/main.rs:169-172 | no bytecode file overwrites lib.rs |
| Driver.CompileMethods | src/main.rs:237-243 | the compile loop with early exit returns `CompileAll`, the first failure or every compiled method |
| Driver.CompileAll | src/main.rs:237-243 | the compiled methods in discovery order or the first failure, as a definition; CompileAllSucceeds and CompileAllFailsAt characterise it |
| Driver.FailureSticks | src/main.rs:240 | once a method fails, compiling the later methods changes nothing |
| Driver.CompileAllSucceeds | src/main.rs:237-243 | compilation succeeds exactly when every method compiles, and then returns each method's compilation, in discovery order |
| Driver.CompileAllFailsAt | src/main.rs:237-243 | a failed compilation is the failure of one method, all earlier methods having compiled |
| Driver.CompiledMethodsConsistent | src/main.rs:237-243 | the compiled methods carry the discovered names, and equal names carry equal bytecode |
| Driver.Join | src/main.rs:246-262 | Unix `Path::join`, as a definition: an absolute path replaces the base, otherwise a `/` is added where the base lacks one; JoinRelative states the relative case |
| Driver.IsAbsolute | src/main.rs:259 | Unix `Path::is_absolute`, as a definition: the path starts with `/` |
| Driver.ResolveOutput | src/main.rs:259-263 | the output destination, as a definition: an absolute output path as given, otherwise joined to the current directory; AbsoluteOutputKept, ResolveOutputAbsolute and ResolveOutputIdempotent state its properties |
| Driver.ResolveOutputAbsolute | src/main.rs:259-263 | under an absolute current directory the output path is absolute |
| Driver.AbsoluteOutputKept | src/main.rs:259-260 | an absolute output path is used as given |
| Driver.JoinRelative | src/main.rs:262 | a relative output path is the current directory, a separator where one is missing, and the path |
| Driver.ResolveOutputIdempotent | src/main.rs:259-263 | resolving a resolved output path again changes nothing |
| Driver.BuildContract | src/main.rs:222-272 | the build's result and the build directory's new files are those of the step function `Build`: the project as written, cargo's own writes aside |
| Driver.Build | src/main.rs:222-272 | the build as a step function, as a definition: read, discover, refuse an empty discovery, compile in order, take the current directory (the build directory is it joined with `target/monty-near-build`, the constant BuildDirName), clear `src/`, write the project, run cargo, resolve the output; NoExportsRefused, EarlyFailuresLeaveDir and SuccessfulBuild state what it promises |
| Driver.NoExportsRefused | src/main.rs:227-229 | a contract without exported functions fails with `NoExports` and leaves the build directory untouched |
| Driver.EarlyFailuresLeaveDir | src/main.rs:224-246 | every failure other than cargo's leaves the build directory untouched |
| Driver.CompileFailureNamesDiscoveredMethod | src/main.rs:237-243 | a compile or serialize failure names one discovered method, all earlier ones having compiled |
| Driver.SuccessfulBuild | src/main.rs:222-272 | a successful build found at least one method and compiled all of them; lib.rs is the spliced template; every method's bytecode lies in `src/`; the binary is cargo's; the output path is resolved against the current directory |
| Driver.BuiltIncludesResolve | src/main.rs:240-257 | in a successful build every `include_bytes!` the statics fragment emits names a written file holding the bytecode of the corresponding discovered method |

## Left out

- File-system failures. `fs::write`, `create_dir_all`, `remove_dir_all`, `fs::copy` and `fs::metadata` always succeed in the model. Directories exist implicitly in the path map. Only the read of the input, the current directory and cargo may fail.
- The copy of the binary to the output path and the size report. The report uses f64 formatting. `Artifact` names the destination and the binary instead.
- The progress output (`eprintln!`/`eprint!`) and the clap command line and `main`.
- The Monty compiler and serializer. They are foreign code, modelled as the parameters `compile` and `dump`.
- `build_wasm`. It spawns a process and checks its exit status and the output file's existence, so it is modelled as the parameter `cargo`.
- The contents of the four embedded templates. They are not part of this model, so they are a `Templates` parameter.
- Driver.BuildContract: the output path uses the first result of `std::env::current_dir` for both the build directory and the output. The source asks for the current directory a second time, and that second call could fail or differ. Cargo's own writes to the build directory (Cargo.lock, target/, including the `.wasm` that `build_wasm` returns) are not modelled: the directory's files after a cargo run are the project as written.
- Driver.Build: the outcome's files after a cargo run are the files cargo is given, since `cargo` returns only the binary or an error; what cargo itself writes into the build directory is not part of this model.
- Codegen.LibRsSplices: the splice is stated for a template holding each marker once, in either order (LibRsSplicesExportsFirst), with no marker formed across the first replacement. A template with a repeated marker, every copy of which `replace` replaces, or with only one marker, is covered only by the `Replace` lemmas ReplaceAtFirst, ReplaceOnly and ReplaceNoMatch.
- RustStr.AsciiUpper: only `a`–`z` are mapped, which is all a discovered name can hold; other characters are kept as they are.
- RustStr.ToUppercase: only ASCII letters are upper-cased. That covers every name discovery can return, since those are ASCII identifiers.
- Paths follow Unix rules: a path is absolute when it starts with `/`, and `/` is the only separator.
- DiscoveryExample: the sample contract is given as its lines, not as one text. Discovery is stated on `Lines(source)`, and `lines` itself is proved separately.
- The code has no dispatcher synthesis, build profiles, size optimization or instruction-set validation: it compiles one blob per method and builds with plain `cargo build --release`, so the model has none either.
- tests/sandbox.rs. These integration tests deploy to a NEAR sandbox over the network.
