# lithe, modelled in Dafny

lithe is a small Rust web framework. Pages are trees of components that
render to HTML text. A procedural macro turns `on_click(handler)` into a
call to a browser-side dispatcher. A finishing step puts a loader script
into each page's `<head>`. A command-line tool (`lithe dev`,
`lithe build`) patches `Cargo.toml`, runs the compilers and either
packages a release binary or writes a static site.

This project models that core in Dafny and proves properties about the
model:

- `markup.dfy` (module `Markup`): the component tree and its
  serialisation. `Render` appends to a `Buffer` class, and the
  `Rendered` function specifies what it appends. Attribute and child
  order are proved.
- `elements.dfy` (module `Elements`): the `Element` and `VoidElement`
  builders as classes whose list fields are updated in place, and the
  tag constructors.
- `macros.dfy` (module `Macros`): a small expression tree and the
  `on_click` rewriter. The rewrite is applied bottom-up. The proofs cover
  the rewritten shape, that nothing else changes, idempotence, and that
  a path's segments are joined with `_` and `crate` is kept.
- `lithe.dfy` (module `Lithe`): `render_page`, which injects the script
  before every `</head>`. It also holds the browser dispatch rule, as a
  function over the exports in enumeration order and as the loop of the
  embedded script.
- `dev.dfy` (module `Dev`): the guarded append of the `lithe-app`
  `[[bin]]` block, and `handle_dev`'s handling of the server's exit.
- `build.dfy` (module `Build`): the whole of `lithe build`, namely:
  - the project-name parse;
  - the bundle, asset, binary and static-site stages;
  - the two-candidate search for the binary;
  - the static builder's output paths;
  - the order of the stages, where the first error stops the build.
- `routes.dfy` (module `Routes`): the example project's generated route
  table.
- `text.dfy` (module `Text`) and `io.dfy` (module `Io`): the Rust string
  operations the code relies on (`contains`, `split`, `lines`, `trim`,
  `trim_matches`, `replace`, `join`). Also how I/O is represented:
  - file contents, whether a path exists, and the outcome of each write
    or child process are inputs;
  - a stage's result is a `Step`, which holds its outcome, the effects
    that took place in order, and the warnings it logged.

Five behaviours of the code are worth stating up front, because the
model follows them exactly:

- The rewriter keeps every path segment, `crate` included:
  `crate::utils::alert_from_utils` becomes
  `Lithe.dispatch('crate_utils_alert_from_utils')`.
- An inline closure passed to `on_click` is not replaced and not
  extracted into a named handler; only its body is visited like any
  other expression.
- A `wasm-pack` run that exits with failure is an error that stops
  `lithe build`; it is not merely a warning.
- A release build that exits with failure ends `build_binary`
  successfully, having copied nothing.
- A static builder that exits with failure only logs a warning.

## Model

| member | source | states |
|---|---|---|
| Markup.Rendered | crates/lithe-core/src/element.rs:30-76 | defines a component's text: an element is `<tag`, its ` key="value"` pairs in order, `>`, its children's texts in order and `</tag>`; a void element is `<tag`, its pairs and ` />`; a text is itself. `Render`, `RenderToString` and the ordering lemmas below are stated against it |
| Markup.Buffer.constructor | crates/lithe-core/src/lib.rs:10 | `String::new()`: a new buffer is empty |
| Markup.Buffer.PushStr | crates/lithe-core/src/lib.rs:15-25 | `push_str`: the buffer afterwards is the old contents followed by the string |
| Markup.RenderOpenTag | crates/lithe-core/src/element.rs:31-39 | appends `<`, the tag and ` key="value"` for each attribute in insertion order, verbatim |
| Markup.Render | crates/lithe-core/src/element.rs:30-47 | the buffer afterwards is the old buffer followed by the component's text, so the old contents stay a prefix; an element is `<tag attrs>` + children in order + `</tag>`, and a text component (the `String`/`&str` impls of crates/lithe-core/src/lib.rs:15-25) appends its own text verbatim |
| Markup.RenderChildren | crates/lithe-core/src/element.rs:41-43 | appends the children's texts one after the other |
| Markup.RenderToString | crates/lithe-core/src/lib.rs:9-13 | rendering into a fresh buffer yields exactly the component's text; for a text component that is the text itself |
| Markup.AttributesTextAppend | crates/lithe-core/src/element.rs:33-39 | the attribute text of a concatenation is the concatenation of the texts |
| Markup.AttributeInPlace | crates/lithe-core/src/element.rs:33-39 | the i-th attribute's ` key="value"` comes after those before it and before those after it |
| Markup.RenderedAllAppend | crates/lithe-core/src/element.rs:41-43 | the children's text of a concatenation is the concatenation of the texts |
| Markup.ChildInPlace | crates/lithe-core/src/element.rs:41-43 | the i-th child's text comes after the texts of the children before it and before those after it |
| Elements.Element.constructor | crates/lithe-core/src/element.rs:10-16 | a new element has the given tag, no attributes and no children |
| Elements.Element.SetAttribute | crates/lithe-core/src/element.rs:18-21 | exactly one `(key, value)` pair is appended at the end; the tag and children are unchanged |
| Elements.Element.Child | crates/lithe-core/src/element.rs:23-26 | exactly one child is appended at the end; the tag and attributes are unchanged |
| Elements.VoidElement.constructor | crates/lithe-core/src/element.rs:56-61 | a new void element has the given tag and no attributes |
| Elements.Div | crates/lithe-core/src/element.rs:79-81 | a fresh `div` element with no attributes or children |
| Elements.Span | crates/lithe-core/src/element.rs:82-84 | a fresh `span` element with no attributes or children |
| Elements.P | crates/lithe-core/src/element.rs:85-87 | a fresh `p` element with no attributes or children |
| Elements.A | crates/lithe-core/src/element.rs:88-90 | a fresh `a` element with no attributes or children |
| Elements.Br | crates/lithe-core/src/element.rs:92-94 | a fresh `br` void element with no attributes |
| Elements.Img | crates/lithe-core/src/element.rs:95-97 | a fresh `img` void element with no attributes |
| Elements.FreshElementsRender | crates/lithe-core/src/element.rs:79-97 | fresh elements render as `<div></div>`, `<span></span>`, `<p></p>`, `<a></a>`, `<br />` and `<img />` |
| Elements.SetAttributeRendering | crates/lithe-core/src/element.rs:18-21 | after `set_attribute` the new ` key="value"` is the last thing in the opening tag |
| Elements.ChildRendering | crates/lithe-core/src/element.rs:23-26 | after `child` the new child's text comes right before the closing tag |
| Elements.VoidSelfClosed | crates/lithe-core/src/element.rs:65-76 | a void element's text ends with ` />`; there is no closing tag |
| Macros.DispatchCall | crates/lithe-macros/src/lib.rs:17-23 | defines the replacement literal: the path's segments joined with `_` inside `Lithe.dispatch('…')`; `JoinedImportPath`, `KeysCanCollide` and `KeyDeterminesPath` state what the join keeps and loses |
| Macros.RewriteNode | crates/lithe-macros/src/lib.rs:15-27 | the visitor's step on one method call keeps the receiver, the method name and the number of arguments; afterwards the call is no longer an `on_click` with a path argument; a call that was not one keeps its arguments |
| Macros.Rewrite | crates/lithe-macros/src/lib.rs:13-28 | defines the visit: sub-expressions first, then `RewriteNode` on each method call; every other form is rebuilt from its visited parts. `RewriteSite`, `RewriteOtherCall`, `ClosureHandlerKept`, `RewriteClearsSites`, `NoSitesUnchanged`, `RewriteIdempotent` and `RewriteChanges` state its properties |
| Macros.RewriteAll | crates/lithe-macros/src/lib.rs:14 | the visitor rewrites every argument, and nothing is added or dropped |
| Macros.RewriteSite | crates/lithe-macros/src/lib.rs:15-25 | `on_click` with one path argument gets `Lithe.dispatch('<segments joined by _>')` in its place |
| Macros.RewriteOtherCall | crates/lithe-macros/src/lib.rs:15-16 | any other call keeps its method and argument shape; only its sub-expressions are visited |
| Macros.ClosureHandlerKept | crates/lithe-macros/src/lib.rs:16 | a closure argument to `on_click` is left as it is |
| Macros.RewriteClearsSites | crates/lithe-macros/src/lib.rs:13-28 | after the rewrite no rewritable call remains anywhere in the tree, nested ones included |
| Macros.RewriteAllClearsSites | crates/lithe-macros/src/lib.rs:14 | the same for a list of sub-expressions |
| Macros.NoSitesUnchanged | crates/lithe-macros/src/lib.rs:15-16 | a tree without a rewritable call is returned unchanged |
| Macros.NoSitesUnchangedAll | crates/lithe-macros/src/lib.rs:14 | the same for a list of sub-expressions |
| Macros.RewriteIdempotent | crates/lithe-macros/src/lib.rs:13-28 | rewriting twice gives the same tree as rewriting once |
| Macros.RewriteChanges | crates/lithe-macros/src/lib.rs:15-25 | a tree with a rewritable call does change |
| Macros.LocalHandlerExample | crates/lithe-macros/src/lib.rs:17-23 | `on_click(handle_local_click)` becomes `on_click("Lithe.dispatch('handle_local_click')")` |
| Macros.ImportedHandlerExample | crates/lithe-macros/src/lib.rs:17-23 | `on_click(crate::utils::alert_from_utils)` becomes `on_click("Lithe.dispatch('crate_utils_alert_from_utils')")`; `crate` is kept |
| Macros.JoinedImportPath | crates/lithe-macros/src/lib.rs:17-22 | the three segments join to `crate_utils_alert_from_utils` |
| Macros.KeysCanCollide | crates/lithe-macros/src/lib.rs:17-23 | two different paths can yield the same dispatch literal when a segment contains `_` |
| Macros.KeyDeterminesPath | crates/lithe-macros/src/lib.rs:17-23 | when no segment contains `_`, the dispatch literal determines the path |
| Macros.MethodCallNode.VisitMut | crates/lithe-macros/src/lib.rs:13-28 | the node visited in place equals the rewrite of the node before; its method name and argument count are unchanged |
| Macros.Client | crates/lithe-macros/src/lib.rs:7-10 | `#[client]` returns its input unchanged |
| Macros.Page | crates/lithe-macros/src/lib.rs:30-40 | `#[page]` keeps the function's name and the length of its body; each body expression is the rewrite of the original one at the same place, and no `on_click` with a path argument remains |
| Macros.PageIdempotent | crates/lithe-macros/src/lib.rs:30-40 | applying `#[page]` twice is the same as once |
| Lithe.ScriptImportsApp | crates/lithe/src/lib.rs:37 | the script imports from `/public/pkg/<app_name>.js`, with the name substituted verbatim |
| Lithe.RenderPage | crates/lithe/src/lib.rs:9-47 | every `</head>` is replaced by script + newline + `</head>`; the result is the text cut at its `</head>`s and glued back with that; without `</head>` the rendered text comes back unchanged |
| Lithe.Resolve | crates/lithe/src/lib.rs:16-35 | defines the dispatch rule: not initialised → warn; an exact export → invoke it; otherwise `Scan`. `ResolveRule` states its properties |
| Lithe.Scan | crates/lithe/src/lib.rs:26-34 | defines the scan: the first key, in the given order, that ends with `_`+name or equals the name is invoked; with none the warning names the function. `ScanFirstMatch` states its properties |
| Lithe.Script | crates/lithe/src/lib.rs:13-43 | defines the loader script text verbatim, with `app_name` put into the import line as is; `ScriptImportsApp` and `RenderPage` state what is proved about it |
| Lithe.Dispatch | crates/lithe/src/lib.rs:16-35 | the loop over the export keys with early returns resolves exactly as the dispatch rule |
| Lithe.ScanFirstMatch | crates/lithe/src/lib.rs:26-33 | the scan invokes a key iff some key ends with `_`+name or equals name, and then it is the first such key; otherwise it warns that the function is not found |
| Lithe.ResolveRule | crates/lithe/src/lib.rs:16-35 | not ready → warns and invokes nothing; exact key → invoked, no scan; otherwise the first suffix match is invoked, or it warns; anything invoked is an export |
| Lithe.FirstOfSeveralWins | crates/lithe/src/lib.rs:28-32 | with `a_go` before `b_go`, dispatching `go` invokes `a_go` |
| Lithe.ExactBeatsSuffix | crates/lithe/src/lib.rs:22-25 | an exact export wins over an earlier suffix match |
| Lithe.LocalNameReachesQualifiedExport | crates/lithe/src/lib.rs:26-32 | `handle_local_click` reaches the export `pages_index_handle_local_click` |
| Dev.AppBinConfigured | crates/lithe-cli/src/dev.rs:35 | defines the guard: the manifest contains `[[bin]]` and contains `lithe-app`, as two independent tests; `AppendedBlockConfigures`, `WithAppBin` and `UnrelatedMentionsCount` state its properties |
| Dev.AppendedBlockConfigures | crates/lithe-cli/src/dev.rs:39-46 | the appended block contains both guard strings, wherever it is appended |
| Dev.WithAppBin | crates/lithe-cli/src/dev.rs:35-46 | the old content is a prefix of the new one; the result passes the guard; it is unchanged exactly when the old content already passed |
| Dev.WithAppBinIdempotent | crates/lithe-cli/src/dev.rs:35-46 | patching twice is the same as patching once |
| Dev.UnrelatedMentionsCount | crates/lithe-cli/src/dev.rs:35 | another `[[bin]]` plus an unrelated mention of `lithe-app` counts as configured, and the file is left alone |
| Dev.EnsureCargoBinConfig | crates/lithe-cli/src/dev.rs:31-51 | a read failure fails with "Failed to read Cargo.toml" and writes nothing; a configured manifest is not rewritten; otherwise the patched content is written, or the step fails and nothing was written |
| Dev.ServeStep | crates/lithe-cli/src/dev.rs:18-26 | a server that cannot be started fails with "Failed to run cargo" and ran nothing; an exit, successful or not, succeeds after running `cargo run --bin lithe-app`, and only a failed exit warns "Development server exited with error" |
| Dev.HandleDev | crates/lithe-cli/src/dev.rs:8-29 | success iff every step succeeds and the server could be started; an exit with failure only warns "Development server exited with error"; the server runs last; a generation failure does nothing |
| Build.IsNameLine | crates/lithe-cli/src/build.rs:33 | defines the test: the line starts with `name = ` |
| Build.FirstNameLine | crates/lithe-cli/src/build.rs:31-33 | the line found starts with `name = `, occurs among the lines, and no line before it starts with `name = `; none exactly when no line does |
| Build.FirstNameLineSkips | crates/lithe-cli/src/build.rs:31-33 | lines that do not start with `name = ` in front of the others do not change which line is found |
| Build.NameValue | crates/lithe-cli/src/build.rs:34 | the value holds no `=` and neither starts nor ends with `"` |
| Build.NameValueBetween | crates/lithe-cli/src/build.rs:34 | the value is the text between the first `=` and the next `=` or the end of the line, whatever follows, trimmed of whitespace and then of `"` |
| Build.ProjectName | crates/lithe-cli/src/build.rs:31-35 | the project name holds no `=` and neither starts nor ends with `"`; it is `app` when no line starts with `name = ` |
| Build.ProjectNameOfQuoted | crates/lithe-cli/src/build.rs:31-35 | a manifest of any lines that do not start with `name = ` (each perhaps ending in `\r`), then the line `name = "v"`, then any text at all, is named `v` |
| Build.NameLineValue | crates/lithe-cli/src/build.rs:34 | `name = "v"` yields `v` |
| Build.NameLineSplit | crates/lithe-cli/src/build.rs:34 | splitting `name =<rest>` at `=` gives `name ` and the rest when the rest holds no `=` |
| Build.SpaceAndQuotesTrimmed | crates/lithe-cli/src/build.rs:34 | `trim` removes the space before a quoted value and keeps the quotes |
| Build.QuotesStripped | crates/lithe-cli/src/build.rs:34 | `trim_matches('"')` removes one pair of enclosing quotes from a value that does not itself start or end with one |
| Build.BuildWasmUnified | crates/lithe-cli/src/build.rs:28-67 | succeeds iff the manifest is read, discovery succeeds, and either there are no client functions or every later step succeeds and `wasm-pack` exits with success; `wasm-pack` runs only with client functions; a failed run is "wasm-pack build failed"; a failed start is "Failed to build unified WASM bundle" |
| Build.SyncPublicAssets | crates/lithe-cli/src/build.rs:69-78 | without `src/public` nothing happens; otherwise the tree is copied to `.lithe/public`, or the stage fails with the copy's error |
| Build.JoinName | crates/lithe-cli/src/build.rs:119 | joining a relative name to a directory ends with that name |
| Build.BinaryLocationAsWritten | crates/lithe-cli/src/build.rs:108-117 | the search as written: the primary candidate when it exists; otherwise the primary path as missing when the project has no parent, `Panicked` when its parent has no parent, and else the workspace candidate under the parent's parent when that exists or the primary path as missing. `GrandparentUnwrapPanics` and `BinaryLocationAgrees` state what it does |
| Build.Candidates | crates/lithe-cli/src/build.rs:108-117 | the project's own `target/release/lithe-app` first, then the grandparent's when there is one |
| Build.BinaryLocation | crates/lithe-cli/src/build.rs:108-120 | found only at an existing candidate, the primary one preferred; missing, reported at the primary path, exactly when no candidate exists; never panics |
| Build.GrandparentUnwrapPanics | crates/lithe-cli/src/build.rs:111-112 | for the project `/app` with nothing built, the code as written panics where the corrected search reports the binary missing |
| Build.BinaryLocationAgrees | crates/lithe-cli/src/build.rs:108-117 | apart from that case the written and the corrected searches agree |
| Build.Install | crates/lithe-cli/src/build.rs:119-133 | a missing binary fails with "Could not find built binary at <primary path>"; it succeeds iff the binary is found, its copy succeeds and, when `.lithe/public` exists, the assets copy succeeds; a found binary whose copy succeeds is the first effect, copied to `<out_dir>/lithe-app`; on success the effects are exactly that copy followed by the assets copy when `.lithe/public` exists |
| Build.ReleaseBuild | crates/lithe-cli/src/build.rs:98-134 | a release build that cannot start fails with "Failed to build binary"; one that exits with failure ran `cargo build --release --bin lithe-app` and succeeds with nothing else done; after a successful one a failed directory creation fails the stage, and otherwise the outcome and later effects are those of `Install`; success iff it started and, when it succeeded, the directory and the install succeed |
| Build.BinaryStep | crates/lithe-cli/src/build.rs:94-137 | success needs the manifest patch and a started release build; a release build that exits with failure copies nothing and does not fail; a missing binary after a successful release build fails with the not-found message |
| Build.BinaryStepInstalls | crates/lithe-cli/src/build.rs:94-137 | the stage succeeds iff the manifest patch succeeds, the release build starts and, when it succeeds, the output directory and `Install` succeed; after a patch, a successful release build and the directory, the stage has `Install`'s outcome and its effects are the patch's, the release build's run and `Install`'s copies |
| Build.BuildBinary | crates/lithe-cli/src/build.rs:94-137 | the method that reassigns the binary's path computes exactly `BinaryStep` |
| Build.InstallBinary | crates/lithe-cli/src/build.rs:105-133 | creating the output directory, searching with the corrected search and copying computes exactly `Install` after the directory step |
| Build.WithStaticBuilderBin | crates/lithe-cli/src/build.rs:150-159 | the old content is a prefix; the result names the static builder; it is unchanged exactly when the name already occurs |
| Build.WithStaticBuilderBinIdempotent | crates/lithe-cli/src/build.rs:150-159 | appending twice is the same as once |
| Build.BuildStaticSite | crates/lithe-cli/src/build.rs:139-174 | succeeds iff the builder is written, the manifest read and, when needed, written, and the builder starts; whenever the builder program can be written it is the first effect; on success the last effect runs `cargo run --bin lithe-static-builder`; the manifest is rewritten exactly when it lacks the builder's name; a failed builder only warns "Static build failed" |
| Build.OutputPath | crates/lithe-cli/src/build.rs:194-198 | every output path ends with `/index.html` |
| Build.OutputPathInjective | crates/lithe-cli/src/build.rs:194-198 | two non-empty routes never share an output file |
| Build.SiteOf | crates/lithe-cli/src/build.rs:191-203 | defines the files the builder leaves: the routes in order, each page written at its output path, a later write replacing an earlier one. `SiteOfKeys` and `SiteOfEntries` state its properties |
| Build.SiteOfKeys | crates/lithe-cli/src/build.rs:191-203 | the builder leaves exactly one file per route |
| Build.SiteOfEntries | crates/lithe-cli/src/build.rs:191-203 | each route's file holds that route's page |
| Build.RunStaticBuilder | crates/lithe-cli/src/build.rs:181-204 | for the example project `<out>/index.html` holds the index page and `<out>/about/index.html` the about page; when the removal of the output directory succeeded those are the only files, and when it failed (the failure is ignored) every earlier file at another path is kept |
| Build.SiteOver | crates/lithe-cli/src/build.rs:191-203 | the example's pages written over a directory's files: both pages at their paths, every other file as it was |
| Build.ExampleSite | crates/lithe-cli/src/build.rs:191-203 | the example project's two routes give `<out>/index.html` with the index page and `<out>/about/index.html` with the about page, and no other file |
| Build.Planned | crates/lithe-cli/src/build.rs:15-23 | defines the plan: routes, assets, wasm, then the binary stage with `--bin` or else the static-site stage |
| Build.StageStep | crates/lithe-cli/src/build.rs:15-23 | defines each stage's step: the generator's outcome, `SyncPublicAssets`, `BuildWasmUnified`, `BinaryStep` or `BuildStaticSite` |
| Build.Pipeline | crates/lithe-cli/src/build.rs:15-23 | defines a run of stages as their steps chained with `?`; `PipelineOk`, `Advance` and `Stopped` state its properties |
| Build.PipelineOk | crates/lithe-cli/src/build.rs:15-23 | a run of stages succeeds iff every stage does |
| Build.Advance | crates/lithe-cli/src/build.rs:15-23 | after a successful run, one more stage is that run sequenced with the stage's step |
| Build.Stopped | crates/lithe-cli/src/build.rs:15-23 | a build that ends after a failed stage, or after the plan's last stage, is the whole plan's run; every earlier stage succeeded and the last one entered failed unless the plan ran to the end |
| Build.FinalStep | crates/lithe-cli/src/build.rs:19-23 | the last stage runs `build_binary` with `--bin` and `build_static_site` otherwise: its step is exactly that stage's planned step |
| Build.WasmFailureAborts | crates/lithe-cli/src/build.rs:15-23 | a `wasm-pack` that runs and fails fails the whole build with "wasm-pack build failed"; neither the release build nor the static builder runs |
| Build.HandleBuild | crates/lithe-cli/src/build.rs:11-26 | the build is the planned stages routes → assets → wasm → binary or static site in order; the stages entered are a prefix of the plan, all but the last successful, and the last one failed unless the whole plan ran |
| Routes.Dispatch | examples/project/.lithe/routes.rs:8-14 | `/` gives the rendered index page, `/about` the rendered about page, any other path `404 Not Found` |
| Routes.DispatchExamples | examples/project/.lithe/routes.rs:9-12 | `/contact` gets `404 Not Found` |
| Routes.RouteList | examples/project/.lithe/routes.rs:16-18 | defines the route list: `/` then `/about`. `RouteListMatchesArms` states how it relates to `Dispatch` |
| Routes.RouteListMatchesArms | examples/project/.lithe/routes.rs:8-18 | the listed routes are exactly the paths with an arm of their own, and the list has no duplicates |
| Io.Parent | crates/lithe-cli/src/build.rs:111-112 | an absolute path has a parent unless it is the root, and the parent plus the last component is the path |
| Io.Display | crates/lithe-cli/src/build.rs:132 | defines how `display()` spells an absolute path: `/` for the root, otherwise `/` before each component |
| Io.Chain | crates/lithe-cli/src/build.rs:15-23 | defines a run of steps each followed by `?`: nothing after the first failure; `ChainOk`, `ChainStops` and `ChainSnoc` state its properties |
| Io.Then | crates/lithe-cli/src/build.rs:15-23 | a failed step stops the sequence; otherwise outcomes follow the second step and effects and warnings accumulate |
| Io.ThenAssoc | crates/lithe-cli/src/build.rs:15-23 | sequencing steps with `?` does not depend on grouping |
| Io.ChainOk | crates/lithe-cli/src/build.rs:15-23 | a run of steps one after another succeeds iff every step does |
| Io.ChainStops | crates/lithe-cli/src/build.rs:15-23 | after a failed step, later steps add nothing |
| Io.ChainSnoc | crates/lithe-cli/src/build.rs:15-23 | a successful run followed by one more item is that run sequenced with the item's step |
| Text.ContainsIff | crates/lithe-cli/src/dev.rs:35 | `contains` holds iff the pattern occurs at some position |
| Text.ContainsWithin | crates/lithe-cli/src/dev.rs:35 | an occurrence stays one when text is added on either side |
| Text.EndsWith | crates/lithe/src/lib.rs:29 | defines `endsWith` (and Rust's `ends_with`): the suffix is the text's last characters |
| Text.Join | crates/lithe-macros/src/lib.rs:22 | defines `join`: the pieces with the separator between consecutive ones; `JoinSplit`, `SplitJoin` and `JoinSplitOn` state its round trips |
| Text.Split | crates/lithe-cli/src/build.rs:34 | `split` yields at least one piece and no piece holds the separator |
| Text.JoinSplit | crates/lithe-cli/src/build.rs:34 | joining the pieces with the separator gives back the text |
| Text.SplitJoin | crates/lithe-macros/src/lib.rs:17-22 | splitting a join of separator-free pieces gives back the pieces |
| Text.Lines | crates/lithe-cli/src/build.rs:32 | defines `lines`: the pieces between newlines, each ended by a newline less one trailing `\r`, and no empty piece after the last newline. `LinesFirst` and `LinesAfter` state its properties |
| Text.LinesAfter | crates/lithe-cli/src/build.rs:32 | whole newline-ended lines followed by more text give those lines, each less a trailing `\r`, and then the lines of the rest |
| Text.LinesFirst | crates/lithe-cli/src/build.rs:32 | `lines` takes off the text before the first newline, less a trailing carriage return, as the first line |
| Text.TrimStart | crates/lithe-cli/src/build.rs:34 | removes exactly the longest prefix of characters from the set |
| Text.TrimEnd | crates/lithe-cli/src/build.rs:34 | removes exactly the longest suffix of characters from the set |
| Text.Trim | crates/lithe-cli/src/build.rs:34 | the result neither starts nor ends with a character from the set and holds only characters of the input |
| Text.ReplaceAll | crates/lithe/src/lib.rs:44 | defines `replace`: scanning left to right, each occurrence of the pattern is replaced and the scan resumes after it. `ReplaceAllNoMatch`, `ReplaceAllIsJoin`, `ReplaceAllSelf` and `JoinSplitOn` state its properties |
| Text.ReplaceAllNoMatch | crates/lithe/src/lib.rs:44 | `replace` leaves a text without the pattern unchanged |
| Text.ReplaceAllIsJoin | crates/lithe/src/lib.rs:44 | `replace` is cutting at every occurrence and joining with the replacement |
| Text.ReplaceAllSelf | crates/lithe/src/lib.rs:44 | replacing a pattern by itself changes nothing |
| Text.JoinSplitOn | crates/lithe/src/lib.rs:44 | joining the pieces of a cut with the pattern gives back the text |

## Left out

- The route and server-code generator and the `#[client]` discovery and
  export writer (the CLI's `generate` and `wasm` modules) are not part
  of this model. Their results are inputs. The port passed to the
  generator is not modelled.
- `copy_dir_all` is modelled only as a copy of a tree with an outcome.
  Its recursion and the partial copies left by a failure mid-way are
  not modelled.
- A failed file write is modelled as writing nothing. Partial writes are
  not modelled.
- Every file read, existence test and write is an independent input. A
  write's effect on a later read (for example the bundle stage creating
  `.lithe/public`, which the binary stage then finds) is not tracked.
- The text of the generated static builder program is not modelled. The
  `WriteBuilder` effect records its path and output directory, and
  `RunStaticBuilder` models what the program does when run.
- A removal of the output directory that fails part-way, leaving some
  earlier files, is not modelled: `RunStaticBuilder` takes the removal as
  all or nothing.
- When run, the static builder also copies `.lithe/public` into
  `<out_dir>/public`; that copy is not modelled. Its `unwrap` panics on
  failed copies, directory creation or writes are not modelled either,
  and `RunStaticBuilder` covers only the route pages.
- Log lines (`info!`) are not modelled. `warn!` lines are the step's
  warnings.
- Paths are absolute, as `current_dir` returns them. The panic of
  `to_str().unwrap()` on a path that is not UTF-8 is not modelled.
- In the embedded script, the asynchronous `init().then(...)` loading is
  a `ready` flag. `Object.keys` is the sequence of export names, taken
  as given. ECMAScript enumerates a module namespace's keys in
  code-unit order, and the model does not impose that order on its
  input. The truthiness test `window.wasm_module[name]` is modelled as
  membership of `name` among the exports.
- The script text is modelled exactly, but nothing is proved about it
  beyond the import line. The rule it implements is modelled separately.
- The rewriter works on an expression tree of paths, literals, closures,
  method calls, calls and blocks. Generic arguments, a leading `::`,
  qualified-self paths and other expression forms of the Rust syntax
  tree are not modelled. Macro invocations (`vec![...]`, `format!(...)`)
  are not modelled either: the visitor does not enter their tokens, so an
  `on_click` inside one stays as written. A `#[page]` item that fails to parse (a compile
  error) is not modelled.
- Build.Install, Build.BinaryStep, Build.BuildBinary, Build.InstallBinary,
  Build.HandleBuild: these use the corrected search `BinaryLocation`. Where
  the code panics (a project directly under `/`, with no binary under it),
  the model fails with "Could not find built binary at
  <project>/target/release/lithe-app" instead. The panic is modelled only
  in `BinaryLocationAsWritten`; see Findings.
- Build.OutputPathInjective: output paths are compared as strings. Two
  routes that name one file through different strings, such as `/about`
  and `/about/` (`<out>/about/index.html` and `<out>/about//index.html`),
  count as different here. Path normalisation is not modelled.
- Build.SiteOfEntries: the map is keyed by path strings, so the same
  limitation holds. A later route that writes the same file under another
  spelling of its path would replace the earlier page on disk, but not in
  the model.
- Macros.Page: the body is a sequence of expressions, not a Rust
  function's full syntax tree. Its signature and attributes are kept
  only as the name.
- The browser and client wrappers, the RPC data holders, `lithe init`,
  argument parsing, the example server and the example pages are
  outside the core and are not modelled.

## Findings

| source | as written | input that shows it | evidently intended | confidence | as-written member | corrected member |
|---|---|---|---|---|---|---|
| crates/lithe-cli/src/build.rs:111-112 | the workspace candidate is `parent.parent().unwrap()`, which panics when the parent has no parent | project directory `/app`, no `target/release/lithe-app` under it: the parent `/` has no parent and `build --bin` panics | skip the workspace candidate, as when there is no parent, and fail with "Could not find built binary at /app/target/release/lithe-app" | not executed; high that it panics, medium that the panic is unintended | Build.BinaryLocationAsWritten, Build.GrandparentUnwrapPanics | Build.BinaryLocation, Build.BinaryLocationAgrees |
