/** `lithe build`: generate the routes, sync the public assets, build the
    WebAssembly bundle and then either package a release binary (`--bin`)
    or render a static site.  Every stage is a function from what the
    environment answers (file contents, whether a path exists, whether a
    write or a child process succeeds) to the step it takes; the first
    stage that fails stops the build. */
module Build {
  import opened Io
  import opened Text
  import opened Markup
  import Dev
  import Routes

  // ---------------------------------------------------------------------
  // The project name, read from Cargo.toml for a log line.

  predicate IsNameLine(line: string)
  {
    "name = " <= line
  }

  /** The first line that starts with `name = `, if any. */
  function FirstNameLine(lines: seq<string>): (r: Option<string>)
    ensures r.Some? ==> IsNameLine(r.value)
    ensures r.Some? ==>
      exists i :: 0 <= i < |lines| && lines[i] == r.value && forall j :: 0 <= j < i ==> !IsNameLine(lines[j])
    ensures r.None? <==> forall line :: line in lines ==> !IsNameLine(line)
  {
    if lines == [] then None
    else if IsNameLine(lines[0]) then Some(lines[0])
    else FirstNameLine(lines[1..])
  }

  /** The text between the first and the second `=` of a name line,
      trimmed of whitespace and then of every leading and trailing `"`. */
  function NameValue(line: string): (v: string)
    requires IsNameLine(line)
    ensures '=' !in v
    ensures v != [] ==> v[0] != '"' && v[|v| - 1] != '"'
  {
    assert line == "name " + ['='] + line[6..];
    SplitAtFirst("name ", line[6..], '=');
    var value := Split(line, '=')[1];
    var trimmed := Trim(value, Whitespace);
    Trim(trimmed, {'"'})
  }

  /** The package name, or `app` when no line starts with `name = `. */
  function ProjectName(manifest: string): (name: string)
    ensures '=' !in name
    ensures name != [] ==> name[0] != '"' && name[|name| - 1] != '"'
    ensures FirstNameLine(Lines(manifest)).None? ==> name == "app"
  {
    match FirstNameLine(Lines(manifest))
    case None => "app"
    case Some(line) => NameValue(line)
  }

  /** Lines that are not name lines do not change which one comes first. */
  lemma {:induction false} FirstNameLineSkips(before: seq<string>, after: seq<string>)
    requires forall line :: line in before ==> !IsNameLine(line)
    ensures FirstNameLine(before + after) == FirstNameLine(after)
  {
    if before == [] {
      assert before + after == after;
    } else {
      assert before[0] in before;
      assert forall line :: line in before[1..] ==> line in before;
      assert (before + after)[0] == before[0];
      assert (before + after)[1..] == before[1..] + after;
      FirstNameLineSkips(before[1..], after);
    }
  }

  /** A manifest whose first name line is `name = "v"`, after any lines
      that are not name lines and before anything at all, is named `v`. */
  lemma ProjectNameOfQuoted(before: seq<string>, v: string, rest: string)
    requires forall k :: 0 <= k < |before| ==> '\n' !in before[k] && !IsNameLine(StripCr(before[k]))
    requires '\n' !in v && '=' !in v
    requires v != [] ==> v[0] != '"' && v[|v| - 1] != '"'
    ensures ProjectName(Unlines(before + ["name = \"" + v + "\""]) + rest) == v
  {
    var x := "name = \"" + v + "\"";
    QuotedLine(v);
    LinesOfManifest(before, x, rest);
    NotNameLines(before);
    FirstNameLineSkips(StripCrs(before), [x] + Lines(rest));
    NameLineValue(v);
    assert ([x] + Lines(rest))[0] == x;
    assert FirstNameLine([x] + Lines(rest)) == Some(x);
  }

  lemma QuotedLine(v: string)
    requires '\n' !in v
    ensures '\n' !in "name = \"" + v + "\""
    ensures StripCr("name = \"" + v + "\"") == "name = \"" + v + "\""
  {
    var x := "name = \"" + v + "\"";
    assert x == "name = \"" + (v + "\"");
    assert x[|x| - 1] == '"';
  }

  lemma LinesOfManifest(before: seq<string>, x: string, rest: string)
    requires forall k :: 0 <= k < |before| ==> '\n' !in before[k]
    requires '\n' !in x && StripCr(x) == x
    ensures Lines(Unlines(before + [x]) + rest) == StripCrs(before) + ([x] + Lines(rest))
  {
    NoNewlineSnoc(before, x);
    LinesAfter(before + [x], rest);
    StripCrsSnoc(before, x);
    AppendAssoc(StripCrs(before), [x], Lines(rest));
  }

  lemma NotNameLines(before: seq<string>)
    requires forall k :: 0 <= k < |before| ==> !IsNameLine(StripCr(before[k]))
    ensures forall line :: line in StripCrs(before) ==> !IsNameLine(line)
  {
    forall line | line in StripCrs(before)
      ensures !IsNameLine(line)
    {
      var k :| 0 <= k < |before| && StripCrs(before)[k] == line;
    }
  }

  /** The value is the text between the first and the second `=`, whatever
      follows the second, trimmed of whitespace and then of quotes. */
  lemma NameValueBetween(x: string, t: string)
    requires '=' !in x && IsNameLine("name =" + x)
    ensures NameValue("name =" + x) == Trim(Trim(x, Whitespace), {'"'})
    ensures IsNameLine("name =" + x + "=" + t)
    ensures NameValue("name =" + x + "=" + t) == Trim(Trim(x, Whitespace), {'"'})
  {
    var one := "name =" + x;
    assert one == "name " + ['='] + x;
    NameLineSplit(x);
    var two := "name =" + x + "=" + t;
    assert two == "name " + ['='] + (x + ['='] + t);
    assert two[..7] == one[..7];
    SplitAtFirst("name ", x + ['='] + t, '=');
    SplitAtFirst(x, t, '=');
  }

  lemma NameLineValue(v: string)
    requires '=' !in v
    requires v != [] ==> v[0] != '"' && v[|v| - 1] != '"'
    ensures IsNameLine("name = \"" + v + "\"")
    ensures NameValue("name = \"" + v + "\"") == v
  {
    var quoted := "\"" + v + "\"";
    var value := [' '] + quoted;
    var x := "name = \"" + v + "\"";
    assert x == "name " + ['='] + value by {
      assert "name = \"" == "name " + ['='] + [' '] + "\"";
    }
    assert IsNameLine(x) by {
      assert x[..7] == "name = ";
    }
    NameLineSplit(value);
    SpaceAndQuotesTrimmed(quoted);
    QuotesStripped(v);
    assert NameValue(x) == Trim(Trim(value, Whitespace), {'"'});
  }

  lemma NameLineSplit(value: string)
    requires '=' !in value
    ensures Split("name " + ['='] + value, '=') == ["name ", value]
  {
    SplitAtFirst("name ", value, '=');
    SplitWithout(value, '=');
  }

  lemma SpaceAndQuotesTrimmed(quoted: string)
    requires |quoted| >= 2 && quoted[0] == '"' && quoted[|quoted| - 1] == '"'
    ensures Trim([' '] + quoted, Whitespace) == quoted
  {
    assert ' ' in Whitespace && '"' !in Whitespace;
    TrimStartDrop(' ', quoted, Whitespace);
  }

  lemma QuotesStripped(v: string)
    requires v != [] ==> v[0] != '"' && v[|v| - 1] != '"'
    ensures Trim("\"" + v + "\"", {'"'}) == v
  {
    var q := {'"'};
    assert "\"" + v + "\"" == ['"'] + (v + ['"']);
    TrimStartDrop('"', v + ['"'], q);
    if v == [] {
      assert v + ['"'] == ['"'] + [];
      TrimStartDrop('"', [], q);
    } else {
      assert TrimStart(v + ['"'], q) == v + ['"'];
      TrimEndDrop(v, '"', q);
    }
  }

  // ---------------------------------------------------------------------
  // The WebAssembly bundle.

  /** What the environment answers to the bundle stage: the manifest (or a
      read failure), the outcome of discovering the `#[client]` functions
      and how many were found, the outcome of writing their exports, of
      creating the output directory, and how `wasm-pack` ran. */
  datatype WasmEnv = WasmEnv(
    manifest: Option<string>,
    discovery: Outcome,
    clientFunctions: nat,
    exports: Outcome,
    pkgDir: Outcome,
    wasmPack: Process)

  function PkgDir(projectDir: Path): Path
  {
    projectDir + [".lithe", "public", "pkg"]
  }

  function WasmPackCommand(projectDir: Path): seq<string>
  {
    ["wasm-pack", "build", "--target", "web", "--out-dir", Display(PkgDir(projectDir))]
  }

  /** `build_wasm_unified`: a project without client functions builds no
      bundle and succeeds; otherwise `wasm-pack` must run and succeed. */
  function BuildWasmUnified(projectDir: Path, env: WasmEnv): (s: Step)
    ensures env.manifest.None? ==> s == Just(Err(IoError))
    ensures s.outcome.Ok? <==>
      env.manifest.Some? && env.discovery.Ok? &&
      (env.clientFunctions == 0 || (env.exports.Ok? && env.pkgDir.Ok? && env.wasmPack == Exited(true)))
    ensures s.effects == [] || s.effects == [Run(WasmPackCommand(projectDir))]
    ensures s.effects != [] <==>
      env.manifest.Some? && env.discovery.Ok? && env.clientFunctions > 0 &&
      env.exports.Ok? && env.pkgDir.Ok? && env.wasmPack.Exited?
    ensures s.effects != [] && s.outcome.Err? ==> s.outcome.error == Message("wasm-pack build failed")
    ensures env.wasmPack == SpawnFailed && s.effects == [] && s.outcome.Err? &&
            env.manifest.Some? && env.discovery.Ok? && env.exports.Ok? && env.pkgDir.Ok? ==>
      s.outcome.error == Message("Failed to build unified WASM bundle")
    ensures s.warnings == []
  {
    match env.manifest
    case None => Just(Err(IoError))
    case Some(manifest) =>
      var _ := ProjectName(manifest);
      if env.discovery.Err? then Just(env.discovery)
      else if env.clientFunctions == 0 then Just(Ok)
      else if env.exports.Err? then Just(env.exports)
      else if env.pkgDir.Err? then Just(env.pkgDir)
      else
        match env.wasmPack
        case SpawnFailed => Just(Err(Message("Failed to build unified WASM bundle")))
        case Exited(success) =>
          Step(if success then Ok else Err(Message("wasm-pack build failed")), [Run(WasmPackCommand(projectDir))], [])
  }

  // ---------------------------------------------------------------------
  // Public assets.

  /** `sync_public_assets`: `src/public` is copied into `.lithe/public`
      when it exists; otherwise nothing happens. */
  function SyncPublicAssets(projectDir: Path, sourceExists: bool, copy: Outcome): (s: Step)
    ensures !sourceExists ==> s == Just(Ok)
    ensures s.outcome == (if sourceExists then copy else Ok)
    ensures s.outcome.Ok? && sourceExists ==>
      s.effects == [CopyTree(Display(projectDir + ["src", "public"]), Display(projectDir + [".lithe", "public"]))]
    ensures s.outcome.Err? ==> s.effects == []
  {
    if !sourceExists then Just(Ok)
    else if copy.Err? then Just(copy)
    else Step(Ok, [CopyTree(Display(projectDir + ["src", "public"]), Display(projectDir + [".lithe", "public"]))], [])
  }

  // ---------------------------------------------------------------------
  // The release binary.

  /** `Path::new(dir).join(name)` for a relative `name`. */
  function JoinName(dir: string, name: string): (r: string)
    ensures EndsWith(r, name)
  {
    if dir == [] then name
    else if dir[|dir| - 1] == '/' then dir + name
    else dir + "/" + name
  }

  function ReleaseBinary(root: Path): Path
  {
    root + ["target", "release", "lithe-app"]
  }

  /** Where the built binary was looked for and whether it was there. */
  datatype Location = Found(path: Path) | Missing(path: Path) | Panicked

  /** The places to look for the binary, in order: the project's own
      `target`, and the `target` of the directory two levels up (a
      workspace root) when there is one. */
  function Candidates(projectDir: Path): (r: seq<Path>)
    ensures |r| >= 1 && r[0] == ReleaseBinary(projectDir)
    ensures |r| == 2 <==> |projectDir| >= 2
    ensures |r| == 2 ==> r[1] == ReleaseBinary(projectDir[..|projectDir| - 2])
  {
    match Parent(projectDir)
    case None => [ReleaseBinary(projectDir)]
    case Some(parent) =>
      match Parent(parent)
      case None => [ReleaseBinary(projectDir)]
      case Some(grand) => [ReleaseBinary(projectDir), ReleaseBinary(grand)]
  }

  /** The search as the source writes it: the grandparent is unwrapped, so
      a project directly under the root with no binary of its own panics. */
  function BinaryLocationAsWritten(projectDir: Path, existing: set<Path>): Location
  {
    var primary := ReleaseBinary(projectDir);
    if primary in existing then Found(primary)
    else
      match Parent(projectDir)
      case None => Missing(primary)
      case Some(parent) =>
        match Parent(parent)
        case None => Panicked
        case Some(grand) =>
          if ReleaseBinary(grand) in existing then Found(ReleaseBinary(grand)) else Missing(primary)
  }

  /** The search with a missing grandparent treated like a missing parent:
      the first candidate that exists, or the project's own path reported
      as missing. */
  function BinaryLocation(projectDir: Path, existing: set<Path>): (l: Location)
    ensures !l.Panicked?
    ensures l.Found? ==> l.path in existing && l.path in Candidates(projectDir)
    ensures l.Found? && l.path != ReleaseBinary(projectDir) ==> ReleaseBinary(projectDir) !in existing
    ensures l.Missing? <==> forall c :: c in Candidates(projectDir) ==> c !in existing
    ensures l.Missing? ==> l.path == ReleaseBinary(projectDir)
  {
    var cs := Candidates(projectDir);
    if cs[0] in existing then Found(cs[0])
    else if |cs| == 2 && cs[1] in existing then Found(cs[1])
    else Missing(cs[0])
  }

  /** The panic: `/app` with nothing built. */
  lemma GrandparentUnwrapPanics()
    ensures BinaryLocationAsWritten(["app"], {}) == Panicked
    ensures BinaryLocation(["app"], {}) == Missing(ReleaseBinary(["app"]))
  {
  }

  /** Everywhere else the two searches agree. */
  lemma BinaryLocationAgrees(projectDir: Path, existing: set<Path>)
    requires |projectDir| != 1 || ReleaseBinary(projectDir) in existing
    ensures BinaryLocationAsWritten(projectDir, existing) == BinaryLocation(projectDir, existing)
  {
  }

  /** What the environment answers to the binary stage: the manifest and
      whether it can be written, how the release build ran, the outcome of
      creating the output directory, the paths that exist afterwards, and
      the outcomes of the two copies. */
  datatype BinaryEnv = BinaryEnv(
    manifest: Option<string>,
    manifestWritable: bool,
    release: Process,
    outDir: Outcome,
    existing: set<Path>,
    binaryCopy: Outcome,
    assetsCopy: Outcome)

  const ReleaseCommand := ["cargo", "build", "--release", "--bin", "lithe-app"]

  /** Copying the binary that was found, and the project's `.lithe/public`
      next to it when there is one. */
  function Install(projectDir: Path, outDir: string, env: BinaryEnv): (s: Step)
    ensures s.outcome.Ok? ==> BinaryLocation(projectDir, env.existing).Found?
    ensures BinaryLocation(projectDir, env.existing).Missing? ==>
      s == Just(Err(Message("Could not find built binary at " + Display(ReleaseBinary(projectDir)))))
    ensures s.effects != [] ==>
      s.effects[0] == CopyFile(Display(BinaryLocation(projectDir, env.existing).path), JoinName(outDir, "lithe-app"))
    ensures s.outcome.Ok? <==>
      BinaryLocation(projectDir, env.existing).Found? && env.binaryCopy.Ok? &&
      (projectDir + [".lithe", "public"] !in env.existing || env.assetsCopy.Ok?)
    ensures BinaryLocation(projectDir, env.existing).Found? && env.binaryCopy.Ok? ==>
      s.effects != [] &&
      s.effects[0] == CopyFile(Display(BinaryLocation(projectDir, env.existing).path), JoinName(outDir, "lithe-app"))
    ensures s.outcome.Ok? ==>
      s.effects == [CopyFile(Display(BinaryLocation(projectDir, env.existing).path), JoinName(outDir, "lithe-app"))] +
        (if projectDir + [".lithe", "public"] in env.existing
         then [CopyTree(Display(projectDir + [".lithe", "public"]), JoinName(outDir, ".lithe/public"))]
         else [])
  {
    match BinaryLocation(projectDir, env.existing)
    case Missing(path) => Just(Err(Message("Could not find built binary at " + Display(path))))
    case Found(path) =>
      var copy :=
        if env.binaryCopy.Err? then Just(env.binaryCopy)
        else Step(Ok, [CopyFile(Display(path), JoinName(outDir, "lithe-app"))], []);
      var source := projectDir + [".lithe", "public"];
      var assets :=
        if source !in env.existing then Just(Ok)
        else if env.assetsCopy.Err? then Just(env.assetsCopy)
        else Step(Ok, [CopyTree(Display(source), JoinName(outDir, ".lithe/public"))], []);
      Then(copy, assets)
  }

  /** `build_binary`, as a function of the environment's answers.  A
      release build that exits with failure ends the stage successfully,
      having copied nothing. */
  function BinaryStep(projectDir: Path, outDir: string, env: BinaryEnv): (s: Step)
    ensures s.outcome.Ok? ==> Dev.EnsureCargoBinConfig(projectDir, env.manifest, env.manifestWritable).outcome.Ok? && env.release.Exited?
    ensures env.release == Exited(false) ==> s.outcome == Dev.EnsureCargoBinConfig(projectDir, env.manifest, env.manifestWritable).outcome
    ensures env.release == Exited(false) ==> forall e :: e in s.effects ==> !e.CopyFile? && !e.CopyTree?
    ensures env.release == SpawnFailed ==> s.outcome.Err? && Run(ReleaseCommand) !in s.effects
    ensures env.release == Exited(true) && env.outDir.Ok? && BinaryLocation(projectDir, env.existing).Missing? &&
            Dev.EnsureCargoBinConfig(projectDir, env.manifest, env.manifestWritable).outcome.Ok? ==>
      s.outcome == Err(Message("Could not find built binary at " + Display(ReleaseBinary(projectDir))))
  {
    var patch := Dev.EnsureCargoBinConfig(projectDir, env.manifest, env.manifestWritable);
    var build := ReleaseBuild(projectDir, outDir, env);
    Then(patch, build)
  }

  /** When the stage succeeds, and that a successful release build whose
      binary is found ends with the binary copied: the stage's effects are
      the patch's, the release build's run and the install's. */
  lemma BinaryStepInstalls(projectDir: Path, outDir: string, env: BinaryEnv)
    ensures BinaryStep(projectDir, outDir, env).outcome.Ok? <==>
      Dev.EnsureCargoBinConfig(projectDir, env.manifest, env.manifestWritable).outcome.Ok? && env.release.Exited? &&
      (!env.release.success || (env.outDir.Ok? && Install(projectDir, outDir, env).outcome.Ok?))
    ensures Dev.EnsureCargoBinConfig(projectDir, env.manifest, env.manifestWritable).outcome.Ok? &&
            env.release == Exited(true) && env.outDir.Ok? ==>
      BinaryStep(projectDir, outDir, env).outcome == Install(projectDir, outDir, env).outcome &&
      BinaryStep(projectDir, outDir, env).effects ==
        Dev.EnsureCargoBinConfig(projectDir, env.manifest, env.manifestWritable).effects +
        [Run(ReleaseCommand)] + Install(projectDir, outDir, env).effects
  {
    var patch := Dev.EnsureCargoBinConfig(projectDir, env.manifest, env.manifestWritable);
    if patch.outcome.Ok? && env.release == Exited(true) && env.outDir.Ok? {
      AppendAssoc(patch.effects, [Run(ReleaseCommand)], Install(projectDir, outDir, env).effects);
    }
  }

  /** The part of `build_binary` after the manifest patch: the release
      build and, when it succeeds, the output directory and the install. */
  function ReleaseBuild(projectDir: Path, outDir: string, env: BinaryEnv): (s: Step)
    ensures env.release == SpawnFailed ==> s == Just(Err(Message("Failed to build binary")))
    ensures env.release == Exited(false) ==> s == Step(Ok, [Run(ReleaseCommand)], [])
    ensures env.release == Exited(true) && env.outDir.Err? ==> s == Step(env.outDir, [Run(ReleaseCommand)], [])
    ensures env.release == Exited(true) && env.outDir.Ok? ==>
      s.outcome == Install(projectDir, outDir, env).outcome &&
      s.effects == [Run(ReleaseCommand)] + Install(projectDir, outDir, env).effects
    ensures s.outcome.Ok? <==>
      env.release.Exited? && (!env.release.success || (env.outDir.Ok? && Install(projectDir, outDir, env).outcome.Ok?))
  {
    match env.release
    case SpawnFailed => Just(Err(Message("Failed to build binary")))
    case Exited(success) =>
      var ran := Step(Ok, [Run(ReleaseCommand)], []);
      if success then Then(ran, Then(Just(env.outDir), Install(projectDir, outDir, env))) else ran
  }

  /** `build_binary`: the binary's path is a variable that the search may
      move from the project's own `target` to the workspace's. */
  method BuildBinary(projectDir: Path, outDir: string, env: BinaryEnv) returns (s: Step)
    ensures s == BinaryStep(projectDir, outDir, env)
  {
    var patch := Dev.EnsureCargoBinConfig(projectDir, env.manifest, env.manifestWritable);
    if patch.outcome.Err? {
      return patch;
    }
    if env.release.SpawnFailed? {
      return Then(patch, Just(Err(Message("Failed to build binary"))));
    }
    var ran := Step(Ok, [Run(ReleaseCommand)], []);
    if !env.release.success {
      return Then(patch, ran);
    }
    var installed := InstallBinary(projectDir, outDir, env);
    s := Then(patch, Then(ran, installed));
  }

  /** The rest of `build_binary` after a successful release build: create
      the output directory, find the binary, copy it and the assets. */
  method InstallBinary(projectDir: Path, outDir: string, env: BinaryEnv) returns (s: Step)
    ensures s == Then(Just(env.outDir), Install(projectDir, outDir, env))
  {
    if env.outDir.Err? {
      return Just(env.outDir);
    }
    var targetBinary := ReleaseBinary(projectDir);
    if targetBinary !in env.existing {
      var parent := Parent(projectDir);
      if parent.Some? {
        var grand := Parent(parent.value);
        if grand.Some? {
          var workspaceTarget := ReleaseBinary(grand.value);
          if workspaceTarget in env.existing {
            targetBinary := workspaceTarget;
          }
        }
      }
    }
    assert BinaryLocation(projectDir, env.existing) ==
      if targetBinary in env.existing then Found(targetBinary) else Missing(targetBinary);
    var destBinary := JoinName(outDir, "lithe-app");
    if targetBinary in env.existing {
      if env.binaryCopy.Err? {
        return Just(env.binaryCopy);
      }
      s := Step(Ok, [CopyFile(Display(targetBinary), destBinary)], []);
      var sourcePublic := projectDir + [".lithe", "public"];
      if sourcePublic in env.existing {
        if env.assetsCopy.Err? {
          return Then(s, Just(env.assetsCopy));
        }
        s := Then(s, Step(Ok, [CopyTree(Display(sourcePublic), JoinName(outDir, ".lithe/public"))], []));
      } else {
        s := Then(s, Just(Ok));
      }
    } else {
      s := Just(Err(Message("Could not find built binary at " + Display(targetBinary))));
    }
  }

  // ---------------------------------------------------------------------
  // The static site.

  const StaticBuilderBin := "lithe-static-builder"

  /** The `[[bin]]` block for the static-site builder. */
  const StaticBuilderBlock := "\n\n[[bin]]\nname = \"" + StaticBuilderBin + "\"\npath = \".lithe/static_builder.rs\"\n"

  /** The manifest after the static builder's block is ensured: appended
      unless the builder's name already occurs anywhere. */
  function WithStaticBuilderBin(content: string): (r: string)
    ensures content <= r
    ensures Contains(r, StaticBuilderBin)
    ensures Contains(content, StaticBuilderBin) <==> r == content
  {
    if Contains(content, StaticBuilderBin) then content
    else
      assert StaticBuilderBin <= StaticBuilderBin;
      ContainsWithin("\n\n[[bin]]\nname = \"", StaticBuilderBin, "\"\npath = \".lithe/static_builder.rs\"\n", StaticBuilderBin);
      ContainsWithin(content, StaticBuilderBlock, "", StaticBuilderBin);
      assert content + StaticBuilderBlock + "" == content + StaticBuilderBlock;
      content + StaticBuilderBlock
  }

  /** A second build leaves the manifest as the first left it. */
  lemma WithStaticBuilderBinIdempotent(content: string)
    ensures WithStaticBuilderBin(WithStaticBuilderBin(content)) == WithStaticBuilderBin(content)
  {
  }

  /** What the environment answers to the static-site stage: whether the
      builder program can be written, the manifest, whether it can be
      written, and how the builder ran. */
  datatype StaticEnv = StaticEnv(
    builderWritable: bool,
    manifest: Option<string>,
    manifestWritable: bool,
    builder: Process)

  const BuilderCommand := ["cargo", "run", "--bin", "lithe-static-builder"]

  /** `build_static_site`: writes the builder program, makes sure the
      manifest declares it, and runs it; a builder that exits with failure
      is only reported. */
  function BuildStaticSite(projectDir: Path, outDir: string, env: StaticEnv): (s: Step)
    ensures s.outcome.Ok? <==>
      env.builderWritable && env.manifest.Some? &&
      (Contains(env.manifest.value, StaticBuilderBin) || env.manifestWritable) && env.builder.Exited?
    ensures s.effects != [] ==> s.effects[0] == WriteBuilder(Display(projectDir + [".lithe", "static_builder.rs"]), outDir)
    ensures env.builderWritable ==>
      s.effects != [] && s.effects[0] == WriteBuilder(Display(projectDir + [".lithe", "static_builder.rs"]), outDir)
    ensures s.outcome.Ok? ==> s.effects != [] && s.effects[|s.effects| - 1] == Run(BuilderCommand)
    ensures env.manifest.Some? && Contains(env.manifest.value, StaticBuilderBin) ==>
      forall e :: e in s.effects ==> !e.WriteFile?
    ensures env.manifest.Some? ==>
      (WriteFile(Display(projectDir + ["Cargo.toml"]), WithStaticBuilderBin(env.manifest.value)) in s.effects <==>
       env.builderWritable && !Contains(env.manifest.value, StaticBuilderBin) && env.manifestWritable)
    ensures env.builder == SpawnFailed && s.outcome.Err? && s.effects != [] && (env.manifest.Some? && (Contains(env.manifest.value, StaticBuilderBin) || env.manifestWritable)) ==>
      s.outcome.error == Message("Failed to run static builder")
    ensures s.warnings == (if s.outcome.Ok? && env.builder == Exited(false) then ["Static build failed"] else [])
  {
    var program := WriteBuilder(Display(projectDir + [".lithe", "static_builder.rs"]), outDir);
    var write := if env.builderWritable then Step(Ok, [program], []) else Just(Err(IoError));
    var register :=
      match env.manifest
      case None => Just(Err(IoError))
      case Some(content) =>
        if Contains(content, StaticBuilderBin) then Just(Ok)
        else if !env.manifestWritable then Just(Err(IoError))
        else Step(Ok, [WriteFile(Display(projectDir + ["Cargo.toml"]), content + StaticBuilderBlock)], []);
    var run :=
      match env.builder
      case SpawnFailed => Just(Err(Message("Failed to run static builder")))
      case Exited(success) => Step(Ok, [Run(BuilderCommand)], if success then [] else ["Static build failed"]);
    Then(write, Then(register, run))
  }

  /** Where the builder writes a route's page: `<out>/index.html` for `/`,
      `<out><route>/index.html` otherwise. */
  function OutputPath(outDir: string, route: string): (path: string)
    ensures EndsWith(path, "/index.html")
  {
    if route == "/" then outDir + "/index.html" else outDir + route + "/index.html"
  }

  /** Two non-empty routes never share an output file. */
  lemma OutputPathInjective(outDir: string, r1: string, r2: string)
    requires r1 != [] && r2 != []
    requires OutputPath(outDir, r1) == OutputPath(outDir, r2)
    ensures r1 == r2
  {
    var tail := "/index.html";
    var p1 := if r1 == "/" then "" else r1;
    var p2 := if r2 == "/" then "" else r2;
    assert OutputPath(outDir, r1) == outDir + p1 + tail;
    assert OutputPath(outDir, r2) == outDir + p2 + tail;
    assert |p1| == |p2|;
    assert p1 == (outDir + p1 + tail)[|outDir|..|outDir| + |p1|];
    assert p2 == (outDir + p2 + tail)[|outDir|..|outDir| + |p2|];
  }

  /** The files the builder leaves for the routes in order: each route's
      page at its output path, a later write replacing an earlier one. */
  function SiteOf(outDir: string, routes: seq<string>, pages: Routes.Pages): map<string, string>
  {
    if routes == [] then map[]
    else
      var last := routes[|routes| - 1];
      SiteOf(outDir, routes[..|routes| - 1], pages)[OutputPath(outDir, last) := Routes.Dispatch(last, pages)]
  }

  /** Exactly one file per route. */
  lemma {:induction false} SiteOfKeys(outDir: string, routes: seq<string>, pages: Routes.Pages)
    ensures SiteOf(outDir, routes, pages).Keys == set r | r in routes :: OutputPath(outDir, r)
  {
    if routes != [] {
      var init, last := routes[..|routes| - 1], routes[|routes| - 1];
      SiteOfKeys(outDir, init, pages);
      assert routes == init + [last];
      var keys := set r | r in routes :: OutputPath(outDir, r);
      var before := set r | r in init :: OutputPath(outDir, r);
      forall k | k in keys
        ensures k in before + {OutputPath(outDir, last)}
      {
        var r :| r in routes && k == OutputPath(outDir, r);
        if r != last {
          assert r in init;
        }
      }
      forall k | k in before
        ensures k in keys
      {
        var r :| r in init && k == OutputPath(outDir, r);
        assert r in routes;
      }
      assert last in routes;
      assert keys == before + {OutputPath(outDir, last)};
    }
  }

  /** Each route's file holds that route's page. */
  lemma {:induction false} SiteOfEntries(outDir: string, routes: seq<string>, pages: Routes.Pages)
    requires forall r :: r in routes ==> r != []
    ensures forall r :: r in routes ==>
      OutputPath(outDir, r) in SiteOf(outDir, routes, pages) &&
      SiteOf(outDir, routes, pages)[OutputPath(outDir, r)] == Routes.Dispatch(r, pages)
  {
    if routes != [] {
      var init, last := routes[..|routes| - 1], routes[|routes| - 1];
      assert routes == init + [last];
      assert forall r :: r in init ==> r in routes;
      SiteOfEntries(outDir, init, pages);
      assert last in routes;
      forall r | r in routes
        ensures OutputPath(outDir, r) in SiteOf(outDir, routes, pages)
        ensures SiteOf(outDir, routes, pages)[OutputPath(outDir, r)] == Routes.Dispatch(r, pages)
      {
        if r != last && OutputPath(outDir, r) == OutputPath(outDir, last) {
          OutputPathInjective(outDir, r, last);
        }
      }
    }
  }

  /** What the generated builder does when run: it tries to remove the
      output directory, ignoring a failure, and then writes every route's
      page to its output path.  `earlier` is what the directory held before
      and `removed` whether the removal succeeded; a failed removal leaves
      the earlier files in place, and a page replaces a file at its path. */
  method RunStaticBuilder(outDir: string, pages: Routes.Pages, earlier: map<string, string>, removed: bool)
    returns (site: map<string, string>)
    ensures removed ==> site.Keys == {outDir + "/index.html", outDir + "/about/index.html"}
    ensures !removed ==> site.Keys == earlier.Keys + {outDir + "/index.html", outDir + "/about/index.html"}
    ensures !removed ==> forall p :: p in earlier && p != outDir + "/index.html" && p != outDir + "/about/index.html" ==>
      p in site && site[p] == earlier[p]
    ensures outDir + "/index.html" in site && site[outDir + "/index.html"] == Rendered(pages.index)
    ensures outDir + "/about/index.html" in site && site[outDir + "/about/index.html"] == Rendered(pages.about)
  {
    var start: map<string, string> := if removed then map[] else earlier;
    site := start;
    var routes := Routes.RouteList();
    for i := 0 to |routes|
      invariant site == start + SiteOf(outDir, routes[..i], pages)
    {
      var route := routes[i];
      var content := Routes.Dispatch(route, pages);
      var path := OutputPath(outDir, route);
      MergeUpdate(start, SiteOf(outDir, routes[..i], pages), path, content);
      site := site[path := content];
      assert routes[..i + 1][..i] == routes[..i];
    }
    assert routes[..|routes|] == routes;
    SiteOver(outDir, pages, start);
  }

  lemma MergeUpdate(start: map<string, string>, m: map<string, string>, k: string, v: string)
    ensures (start + m)[k := v] == start + m[k := v]
  {
  }

  /** The example's pages written over what a directory holds: both pages
      at their paths, every other file as it was. */
  lemma SiteOver(outDir: string, pages: Routes.Pages, start: map<string, string>)
    ensures (start + SiteOf(outDir, Routes.RouteList(), pages)).Keys ==
      start.Keys + {outDir + "/index.html", outDir + "/about/index.html"}
    ensures forall p :: p in start && p != outDir + "/index.html" && p != outDir + "/about/index.html" ==>
      (start + SiteOf(outDir, Routes.RouteList(), pages))[p] == start[p]
    ensures (start + SiteOf(outDir, Routes.RouteList(), pages))[outDir + "/index.html"] == Rendered(pages.index)
    ensures (start + SiteOf(outDir, Routes.RouteList(), pages))[outDir + "/about/index.html"] == Rendered(pages.about)
  {
    ExampleSite(outDir, pages);
  }

  /** The example project's site: its two pages, each at its own path. */
  lemma ExampleSite(outDir: string, pages: Routes.Pages)
    ensures SiteOf(outDir, Routes.RouteList(), pages).Keys == {outDir + "/index.html", outDir + "/about/index.html"}
    ensures SiteOf(outDir, Routes.RouteList(), pages)[outDir + "/index.html"] == Rendered(pages.index)
    ensures SiteOf(outDir, Routes.RouteList(), pages)[outDir + "/about/index.html"] == Rendered(pages.about)
    ensures SiteOf(outDir, Routes.RouteList(), pages) ==
      map[outDir + "/index.html" := Rendered(pages.index), outDir + "/about/index.html" := Rendered(pages.about)]
  {
    var routes := Routes.RouteList();
    var index, about := outDir + "/index.html", outDir + "/about/index.html";
    assert OutputPath(outDir, "/") == index;
    assert OutputPath(outDir, "/about") == about;
    assert |index| != |about|;
    assert routes[..1] == ["/"] && ["/"][..0] == [];
    assert SiteOf(outDir, ["/"], pages) == map[index := Rendered(pages.index)];
    assert SiteOf(outDir, routes, pages) == map[index := Rendered(pages.index), about := Rendered(pages.about)];
  }

  // ---------------------------------------------------------------------
  // The build as a whole.

  datatype Stage = RoutesStage | AssetsStage | WasmStage | BinaryStage | SiteStage

  /** The stages of a build, in order. */
  function Planned(bin: bool): seq<Stage>
  {
    [RoutesStage, AssetsStage, WasmStage, if bin then BinaryStage else SiteStage]
  }

  /** The environment's answers for every stage; the route generator is
      only seen through its outcome. */
  datatype BuildEnv = BuildEnv(
    generate: Outcome,
    publicSource: bool,
    publicCopy: Outcome,
    wasm: WasmEnv,
    binary: BinaryEnv,
    site: StaticEnv)

  function StageStep(stage: Stage, projectDir: Path, outDir: string, env: BuildEnv): Step
  {
    match stage
    case RoutesStage => Just(env.generate)
    case AssetsStage => SyncPublicAssets(projectDir, env.publicSource, env.publicCopy)
    case WasmStage => BuildWasmUnified(projectDir, env.wasm)
    case BinaryStage => BinaryStep(projectDir, outDir, env.binary)
    case SiteStage => BuildStaticSite(projectDir, outDir, env.site)
  }

  /** Each stage's step, for one project and environment. */
  function Stepper(projectDir: Path, outDir: string, env: BuildEnv): Stage -> Step
  {
    stage => StageStep(stage, projectDir, outDir, env)
  }

  /** Stages run one after the other; a failing stage ends the run. */
  function Pipeline(stages: seq<Stage>, projectDir: Path, outDir: string, env: BuildEnv): Step
  {
    Chain(stages, Stepper(projectDir, outDir, env))
  }

  /** A run of stages succeeds exactly when every stage does. */
  lemma PipelineOk(stages: seq<Stage>, projectDir: Path, outDir: string, env: BuildEnv)
    ensures Pipeline(stages, projectDir, outDir, env).outcome.Ok? <==>
      forall i :: 0 <= i < |stages| ==> StageStep(stages[i], projectDir, outDir, env).outcome.Ok?
  {
    ChainOk(stages, Stepper(projectDir, outDir, env));
  }

  /** `handle_build`: `projectDir` is the current directory (`None` when it
      cannot be determined).  Besides the step, the stages that were
      entered: a prefix of the plan, every one but the last successful, and
      the last one failed unless the whole plan ran. */
  method HandleBuild(bin: bool, outDir: string, projectDir: Option<Path>, env: BuildEnv) returns (s: Step, stages: seq<Stage>)
    ensures projectDir.None? ==> s == Just(Err(IoError)) && stages == []
    ensures projectDir.Some? ==> Ended(stages, s, Planned(bin), projectDir.value, outDir, env)
  {
    if projectDir.None? {
      return Just(Err(IoError)), [];
    }
    var dir := projectDir.value;
    var plan := Planned(bin);
    assert Pipeline([], dir, outDir, env) == Just(Ok);
    Advance([], RoutesStage, dir, outDir, env);
    stages := [RoutesStage];
    s := Just(env.generate);
    if s.outcome.Err? {
      Stopped([], RoutesStage, plan, dir, outDir, env);
      return;
    }
    var assets := SyncPublicAssets(dir, env.publicSource, env.publicCopy);
    assert assets == StageStep(AssetsStage, dir, outDir, env);
    Advance(stages, AssetsStage, dir, outDir, env);
    s := Then(s, assets);
    if s.outcome.Err? {
      Stopped(stages, AssetsStage, plan, dir, outDir, env);
      stages := stages + [AssetsStage];
      return;
    }
    stages := stages + [AssetsStage];
    var wasm := BuildWasmUnified(dir, env.wasm);
    assert wasm == StageStep(WasmStage, dir, outDir, env);
    Advance(stages, WasmStage, dir, outDir, env);
    s := Then(s, wasm);
    if s.outcome.Err? {
      Stopped(stages, WasmStage, plan, dir, outDir, env);
      stages := stages + [WasmStage];
      return;
    }
    stages := stages + [WasmStage];
    var final := if bin then BinaryStage else SiteStage;
    var last := FinalStep(bin, dir, outDir, env);
    assert stages == [RoutesStage, AssetsStage, WasmStage];
    assert stages + [final] == plan;
    Advance(stages, final, dir, outDir, env);
    Stopped(stages, final, plan, dir, outDir, env);
    stages := stages + [final];
    s := Then(s, last);
  }

  /** The last stage of `handle_build`: the release binary with `--bin`,
      otherwise the static site. */
  method FinalStep(bin: bool, projectDir: Path, outDir: string, env: BuildEnv) returns (last: Step)
    ensures last == StageStep(if bin then BinaryStage else SiteStage, projectDir, outDir, env)
  {
    if bin {
      last := BuildBinary(projectDir, outDir, env.binary);
    } else {
      last := BuildStaticSite(projectDir, outDir, env.site);
    }
  }

  /** A `wasm-pack` that runs and fails fails the whole build, whichever
      kind it is, and the last stage never starts. */
  lemma WasmFailureAborts(bin: bool, projectDir: Path, outDir: string, env: BuildEnv)
    requires env.generate.Ok? && SyncPublicAssets(projectDir, env.publicSource, env.publicCopy).outcome.Ok?
    requires env.wasm.manifest.Some? && env.wasm.discovery.Ok? && env.wasm.clientFunctions > 0
    requires env.wasm.exports.Ok? && env.wasm.pkgDir.Ok? && env.wasm.wasmPack == Exited(false)
    ensures Pipeline(Planned(bin), projectDir, outDir, env).outcome == Err(Message("wasm-pack build failed"))
    ensures Run(ReleaseCommand) !in Pipeline(Planned(bin), projectDir, outDir, env).effects
    ensures Run(BuilderCommand) !in Pipeline(Planned(bin), projectDir, outDir, env).effects
    ensures Pipeline(Planned(bin), projectDir, outDir, env).effects ==
      SyncPublicAssets(projectDir, env.publicSource, env.publicCopy).effects + [Run(WasmPackCommand(projectDir))]
  {
    var first := [RoutesStage, AssetsStage, WasmStage];
    var assets := SyncPublicAssets(projectDir, env.publicSource, env.publicCopy);
    var wasm := BuildWasmUnified(projectDir, env.wasm);
    assert wasm == Step(Err(Message("wasm-pack build failed")), [Run(WasmPackCommand(projectDir))], []);
    assert first[1..] == [AssetsStage, WasmStage] && first[2..] == [WasmStage] && first[3..] == [];
    assert Pipeline(first[3..], projectDir, outDir, env) == Just(Ok);
    assert Pipeline(first[2..], projectDir, outDir, env) == wasm;
    assert Pipeline(first[1..], projectDir, outDir, env) == Then(assets, wasm);
    assert Pipeline(first, projectDir, outDir, env) == Then(Just(env.generate), Then(assets, wasm));
    ChainStops(first, [Planned(bin)[3]], Stepper(projectDir, outDir, env));
    assert first + [Planned(bin)[3]] == Planned(bin);
  }

  /** One more stage after a successful run: the run sequenced with that
      stage's step. */
  lemma Advance(done: seq<Stage>, stage: Stage, projectDir: Path, outDir: string, env: BuildEnv)
    requires Pipeline(done, projectDir, outDir, env).outcome.Ok?
    ensures Pipeline(done + [stage], projectDir, outDir, env) ==
      Then(Pipeline(done, projectDir, outDir, env), StageStep(stage, projectDir, outDir, env))
  {
    ChainSnoc(done, stage, Stepper(projectDir, outDir, env));
  }

  /** What a build that entered `stages` of `plan` and produced `s`
      promises: `s` is the whole plan's run and the run of the stages
      entered, those are a non-empty prefix of the plan, every one but the
      last succeeded, and the last failed unless the whole plan ran. */
  predicate Ended(stages: seq<Stage>, s: Step, plan: seq<Stage>, projectDir: Path, outDir: string, env: BuildEnv)
  {
    && s == Pipeline(plan, projectDir, outDir, env)
    && s == Pipeline(stages, projectDir, outDir, env)
    && stages != [] && stages <= plan
    && (forall i :: 0 <= i < |stages| - 1 ==> StageStep(stages[i], projectDir, outDir, env).outcome.Ok?)
    && (stages != plan ==> StageStep(stages[|stages| - 1], projectDir, outDir, env).outcome.Err? && s.outcome.Err?)
  }

  /** Where a build ends: after a stage of the plan that failed, or after
      the plan's last stage. */
  lemma Stopped(done: seq<Stage>, stage: Stage, plan: seq<Stage>, projectDir: Path, outDir: string, env: BuildEnv)
    requires Pipeline(done, projectDir, outDir, env).outcome.Ok?
    requires done + [stage] <= plan
    requires Pipeline(done + [stage], projectDir, outDir, env).outcome.Err? || done + [stage] == plan
    ensures Ended(done + [stage], Pipeline(done + [stage], projectDir, outDir, env), plan, projectDir, outDir, env)
  {
    PipelineOk(done, projectDir, outDir, env);
    Advance(done, stage, projectDir, outDir, env);
    var prefix := done + [stage];
    if prefix != plan {
      ChainStops(prefix, plan[|prefix|..], Stepper(projectDir, outDir, env));
      assert prefix + plan[|prefix|..] == plan;
    }
    assert forall i :: 0 <= i < |prefix| - 1 ==> prefix[i] == done[i];
  }


}
