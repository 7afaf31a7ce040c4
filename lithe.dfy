/** The `lithe` crate's page finalisation and the browser-side dispatch
    rule its loader script installs.  `render_page` renders a page and, if
    the text has a `</head>`, puts the loader script in front of every
    `</head>`.  The script's `Lithe.dispatch(name)` invokes at most one
    export of the browser module: nothing before the module is ready, the
    export named exactly `name` if there is one, else the first export (in
    enumeration order) whose name ends with `_` + `name`. */
module Lithe {
  import opened Text
  import opened Markup

  const HeadClose := "</head>"

  /** The part of the loader script that installs `window.Lithe`. */
  const BridgeText :=
    "    <script type=\"module\">\n" +
    "                window.Lithe = {\n" +
    "                    dispatch: (name) => {\n" +
    "                        if (!window.wasm_module) {\n" +
    "                            console.warn('WASM module not initialized');\n" +
    "                            return;\n" +
    "                        }\n" +
    "                        // Try exact match first\n" +
    "                        if (window.wasm_module[name]) {\n" +
    "                            window.wasm_module[name]();\n" +
    "                            return;\n" +
    "                        }\n" +
    "                        // Try to find a function ending with the name (for local functions)\n" +
    "                        const suffix = '_' + name;\n" +
    "                        for (const key of Object.keys(window.wasm_module)) {\n" +
    "                            if (key.endsWith(suffix) || key === name) {\n" +
    "                                window.wasm_module[key]();\n" +
    "                                return;\n" +
    "                            }\n" +
    "                        }\n" +
    "                        console.warn('WASM function not found:', name);\n" +
    "                    }\n" +
    "                };\n"

  /** The part that loads the module and marks it ready. */
  const InitText :=
    "                init().then(() => {\n" +
    "                    window.wasm_module = exports;\n" +
    "                });\n" +
    "            </script>"

  /** The module import for an application: `app_name` is put in as is. */
  function ImportLine(appName: string): string
  {
    "import init, * as exports from '/public/pkg/" + appName + ".js';"
  }

  /** The whole loader script for an application. */
  function Script(appName: string): string
  {
    ScriptHead + ImportLine(appName) + ScriptTail
  }

  const ScriptHead := BridgeText + "                "
  const ScriptTail := "\n" + InitText

  /** What takes the place of each `</head>`. */
  function Injected(appName: string): string
  {
    Script(appName) + "\n" + HeadClose
  }

  /** The script imports the application's module from `/public/pkg/`. */
  lemma ScriptImportsApp(appName: string)
    ensures Contains(Script(appName), ImportLine(appName))
  {
    var line := ImportLine(appName);
    assert line <= line;
    assert Contains(line, line);
    ContainsWithin(ScriptHead, line, ScriptTail, line);
  }

  /** `render_page`: the page's text, with the script put in front of each
      `</head>`; a text without `</head>` comes back unchanged.  Put another
      way: cut the text at its `</head>`s and glue the pieces back with the
      script and `</head>` instead of `</head>` alone. */
  method RenderPage(comp: Component, appName: string) returns (s: string)
    ensures s == ReplaceAll(Rendered(comp), HeadClose, Injected(appName))
    ensures s == Join(SplitOn(Rendered(comp), HeadClose), Injected(appName))
    ensures !Contains(Rendered(comp), HeadClose) ==> s == Rendered(comp)
  {
    s := RenderToString(comp);
    if Contains(s, HeadClose) {
      s := ReplaceAll(s, HeadClose, Injected(appName));
    } else {
      ReplaceAllNoMatch(s, HeadClose, Injected(appName));
    }
    ReplaceAllIsJoin(Rendered(comp), HeadClose, Injected(appName));
  }

  /** Why `dispatch` did nothing. */
  datatype Warning = NotInitialized | NotFound(name: string)

  /** What one call of `Lithe.dispatch(name)` does: invoke one export, or
      log a warning and invoke nothing. */
  datatype Resolution = Invoke(key: string) | Warn(warning: Warning)

  /** The test in the scan: `key.endsWith('_' + name) || key === name`. */
  predicate SuffixMatch(key: string, name: string)
  {
    EndsWith(key, "_" + name) || key == name
  }

  /** The scan over the export names in enumeration order. */
  function Scan(keys: seq<string>, name: string): Resolution
  {
    if keys == [] then Warn(NotFound(name))
    else if SuffixMatch(keys[0], name) then Invoke(keys[0])
    else Scan(keys[1..], name)
  }

  /** The dispatch rule: `ready` is whether the module has been loaded,
      `exports` the module's export names in enumeration order. */
  function Resolve(ready: bool, exports: seq<string>, name: string): Resolution
  {
    if !ready then Warn(NotInitialized)
    else if name in exports then Invoke(name)
    else Scan(exports, name)
  }

  /** `Lithe.dispatch(name)` as the script runs it: early returns out of a
      loop over the export names. */
  method Dispatch(ready: bool, exports: seq<string>, name: string) returns (r: Resolution)
    ensures r == Resolve(ready, exports, name)
  {
    if !ready {
      return Warn(NotInitialized);
    }
    if name in exports {
      return Invoke(name);
    }
    var suffix := "_" + name;
    for i := 0 to |exports|
      invariant Scan(exports[i..], name) == Scan(exports, name)
    {
      var key := exports[i];
      if EndsWith(key, suffix) || key == name {
        return Invoke(key);
      }
      assert exports[i..][1..] == exports[i + 1..];
    }
    return Warn(NotFound(name));
  }

  /** The scan invokes the first matching export, and warns only when no
      export matches. */
  lemma {:induction false} ScanFirstMatch(keys: seq<string>, name: string)
    ensures Scan(keys, name).Invoke? <==> exists i :: 0 <= i < |keys| && SuffixMatch(keys[i], name)
    ensures Scan(keys, name).Invoke? ==>
      exists i :: 0 <= i < |keys| && keys[i] == Scan(keys, name).key && SuffixMatch(keys[i], name) &&
        forall j :: 0 <= j < i ==> !SuffixMatch(keys[j], name)
    ensures Scan(keys, name).Warn? ==> Scan(keys, name) == Warn(NotFound(name))
  {
    if keys != [] && !SuffixMatch(keys[0], name) {
      ScanFirstMatch(keys[1..], name);
      if Scan(keys, name).Invoke? {
        var i :| 0 <= i < |keys[1..]| && keys[1..][i] == Scan(keys, name).key && SuffixMatch(keys[1..][i], name) &&
          forall j :: 0 <= j < i ==> !SuffixMatch(keys[1..][j], name);
        assert keys[i + 1] == Scan(keys, name).key;
        assert forall j :: 0 <= j < i + 1 ==> !SuffixMatch(keys[j], name) by {
          forall j | 0 <= j < i + 1 ensures !SuffixMatch(keys[j], name) {
            if j > 0 { assert keys[j] == keys[1..][j - 1]; }
          }
        }
      }
      if exists i :: 0 <= i < |keys| && SuffixMatch(keys[i], name) {
        var i :| 0 <= i < |keys| && SuffixMatch(keys[i], name);
        assert i > 0;
        assert keys[1..][i - 1] == keys[i];
      }
    } else if keys != [] {
      assert SuffixMatch(keys[0], name);
    }
  }

  /** The rule in full: before the module is ready nothing is invoked; the
      exact name wins; otherwise the first export ending in `_` + `name`
      (the equality test in the scan can no longer succeed); otherwise a
      warning.  At most one export is invoked, and it is one of the module's. */
  lemma ResolveRule(ready: bool, exports: seq<string>, name: string)
    ensures !ready ==> Resolve(ready, exports, name) == Warn(NotInitialized)
    ensures ready && name in exports ==> Resolve(ready, exports, name) == Invoke(name)
    ensures ready && name !in exports ==>
      (Resolve(ready, exports, name).Invoke? <==> exists i :: 0 <= i < |exports| && EndsWith(exports[i], "_" + name))
    ensures ready && name !in exports && Resolve(ready, exports, name).Invoke? ==>
      exists i :: 0 <= i < |exports| && exports[i] == Resolve(ready, exports, name).key &&
        EndsWith(exports[i], "_" + name) &&
        forall j :: 0 <= j < i ==> !EndsWith(exports[j], "_" + name)
    ensures Resolve(ready, exports, name).Invoke? ==> Resolve(ready, exports, name).key in exports
  {
    ScanFirstMatch(exports, name);
    if ready && name !in exports && Resolve(ready, exports, name).Invoke? {
      var i :| 0 <= i < |exports| && exports[i] == Scan(exports, name).key && SuffixMatch(exports[i], name) &&
        forall j :: 0 <= j < i ==> !SuffixMatch(exports[j], name);
      assert exports[i] != name;
    }
  }

  /** When several exports end with `_` + `name`, enumeration order decides. */
  lemma FirstOfSeveralWins()
    ensures Resolve(true, ["a_go", "b_go"], "go") == Invoke("a_go")
  {
    assert EndsWith("a_go", "_go");
  }

  /** An exact export is preferred even to an earlier suffix match. */
  lemma ExactBeatsSuffix()
    ensures Resolve(true, ["x_go", "go"], "go") == Invoke("go")
  {
  }

  /** A short local name reaches its qualified export through the suffix rule. */
  lemma LocalNameReachesQualifiedExport()
    ensures Resolve(true, ["pages_index_handle_local_click"], "handle_local_click") ==
      Invoke("pages_index_handle_local_click")
  {
    assert EndsWith("pages_index_handle_local_click", "_" + "handle_local_click");
  }
}
