/** `lithe dev`: generate the routes and the server entry, make sure
    Cargo.toml declares the `lithe-app` binary, and run it in the
    foreground.  The server's exit status is only reported. */
module Dev {
  import opened Io
  import opened Text

  /** The `[[bin]]` block appended to Cargo.toml. */
  const AppBinBlock := "\n\n" + BinHeader + "\nname = \"" + AppBin + "\"\npath = \".lithe/main.rs\"\n"

  const BinHeader := "[[bin]]"
  const AppBin := "lithe-app"

  /** The guard: two independent substring tests, so any `[[bin]]` together
      with any mention of `lithe-app` counts as configured. */
  predicate AppBinConfigured(content: string)
  {
    Contains(content, BinHeader) && Contains(content, AppBin)
  }

  /** The block satisfies the guard by itself, wherever it is appended. */
  lemma AppendedBlockConfigures(content: string)
    ensures AppBinConfigured(content + AppBinBlock)
  {
    var head, tail := "\nname = \"", "\"\npath = \".lithe/main.rs\"\n";
    assert BinHeader <= BinHeader && AppBin <= AppBin;
    ContainsWithin("\n\n", BinHeader, head + AppBin + tail, BinHeader);
    ContainsWithin("\n\n" + BinHeader + head, AppBin, tail, AppBin);
    ContainsWithin(content, AppBinBlock, "", BinHeader);
    ContainsWithin(content, AppBinBlock, "", AppBin);
    assert content + AppBinBlock + "" == content + AppBinBlock;
  }

  /** The content `ensure_cargo_bin_config` leaves in Cargo.toml: the old
      content followed, if the guard fails, by the block. */
  function WithAppBin(content: string): (r: string)
    ensures content <= r
    ensures AppBinConfigured(r)
    ensures AppBinConfigured(content) <==> r == content
  {
    if AppBinConfigured(content) then content
    else AppendedBlockConfigures(content); content + AppBinBlock
  }

  /** A second run changes nothing. */
  lemma WithAppBinIdempotent(content: string)
    ensures WithAppBin(WithAppBin(content)) == WithAppBin(content)
  {
  }

  /** A manifest with some other `[[bin]]` and an unrelated mention of
      `lithe-app` is taken as configured and left alone. */
  lemma UnrelatedMentionsCount()
    ensures WithAppBin("[[bin]]\nname = \"tool\"\n# lithe-app-demo\n") == "[[bin]]\nname = \"tool\"\n# lithe-app-demo\n"
  {
    var c := "[[bin]]\nname = \"tool\"\n# lithe-app-demo\n";
    assert c[0..7] == "[[bin]]";
    assert c[24..33] == "lithe-app";
    ContainsAt(c, BinHeader, 0);
    ContainsAt(c, AppBin, 24);
  }

  function CargoPath(projectDir: Path): string
  {
    Display(projectDir + ["Cargo.toml"])
  }

  /** `ensure_cargo_bin_config`: `manifest` is what reading Cargo.toml gives
      (`None` when it cannot be read), `writable` whether writing it
      succeeds.  A failed read writes nothing; a configured manifest is not
      rewritten; otherwise the patched content is written. */
  function EnsureCargoBinConfig(projectDir: Path, manifest: Option<string>, writable: bool): (s: Step)
    ensures manifest.None? ==> s.outcome == Err(Message("Failed to read Cargo.toml")) && s.effects == []
    ensures s.outcome.Ok? <==> manifest.Some? && (AppBinConfigured(manifest.value) || writable)
    ensures s.outcome.Err? ==> s.effects == []
    ensures s.outcome.Ok? ==>
      s.effects == if AppBinConfigured(manifest.value) then []
                   else [WriteFile(CargoPath(projectDir), WithAppBin(manifest.value))]
    ensures s.warnings == []
  {
    match manifest
    case None => Just(Err(Message("Failed to read Cargo.toml")))
    case Some(content) =>
      if AppBinConfigured(content) then Just(Ok)
      else if !writable then Just(Err(Message("Failed to update Cargo.toml")))
      else Step(Ok, [WriteFile(CargoPath(projectDir), content + AppBinBlock)], [])
  }

  const DevCommand := ["cargo", "run", "--bin", "lithe-app"]

  /** Running `cargo run --bin lithe-app` in the foreground: a server that
      cannot be started fails the command; one that exits, successfully or
      not, does not, and a failed exit is only logged. */
  function ServeStep(server: Process): (r: Step)
    ensures r.outcome.Ok? <==> server.Exited?
    ensures r.outcome.Ok? ==> r.effects == [Run(DevCommand)]
    ensures r.outcome.Err? ==> r.effects == [] && r.outcome == Err(Message("Failed to run cargo"))
    ensures server == Exited(false) ==> r.warnings == ["Development server exited with error"]
    ensures server != Exited(false) ==> r.warnings == []
  {
    match server
    case SpawnFailed => Just(Err(Message("Failed to run cargo")))
    case Exited(success) =>
      Step(Ok, [Run(DevCommand)], if success then [] else ["Development server exited with error"])
  }

  /** `handle_dev`: `projectDir` is the current directory (`None` when it
      cannot be determined), `generate` the outcome of generating the
      routes and server code, `server` how the dev server ran. */
  function HandleDev(projectDir: Option<Path>, generate: Outcome, manifest: Option<string>, writable: bool, server: Process): (s: Step)
    ensures s.outcome.Ok? <==>
      projectDir.Some? && generate.Ok? && EnsureCargoBinConfig(projectDir.value, manifest, writable).outcome.Ok? && server.Exited?
    ensures server == Exited(false) && s.outcome.Ok? ==> s.warnings == ["Development server exited with error"]
    ensures server == Exited(true) ==> s.warnings == []
    ensures Run(DevCommand) in s.effects ==> s.outcome.Ok? && s.effects[|s.effects| - 1] == Run(DevCommand)
    ensures generate.Err? ==> s.effects == []
    ensures projectDir.Some? && s.outcome.Ok? ==>
      s.effects == EnsureCargoBinConfig(projectDir.value, manifest, writable).effects + [Run(DevCommand)]
  {
    match projectDir
    case None => Just(Err(IoError))
    case Some(dir) =>
      Then(Just(generate), Then(EnsureCargoBinConfig(dir, manifest, writable), ServeStep(server)))
  }
}
