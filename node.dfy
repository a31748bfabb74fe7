/**
  The Node.js runtime adapter: it resolves a function's handler to a source file,
  derives the esbuild configuration from the function's node properties, keeps
  one incremental build context and the latest build result per function ID,
  renders esbuild's errors as diagnostics, and answers whether a changed file
  was an input of a function's last build.

  Everything outside this adapter is a parameter (`Host`): which paths exist on
  disk (`os.Stat`), `filepath.Rel`, whether esbuild accepts the options when it
  creates a context, and what a rebuild of given options produces.
*/
module NodeRuntime {
  import opened Wrappers
  import GoStrings
  import GoPath
  import opened Esbuild

  // ---------------------------------------------------------------------------
  // Loader registry
  // ---------------------------------------------------------------------------

  /** The loader tags a function's `loader` property may use, and the esbuild loader each names. */
  const LoaderMap: map<string, Loader> := map[
    "js" := LoaderJS,
    "jsx" := LoaderJSX,
    "ts" := LoaderTS,
    "tsx" := LoaderTSX,
    "css" := LoaderCSS,
    "json" := LoaderJSON,
    "text" := LoaderText,
    "base64" := LoaderBase64,
    "file" := LoaderFile,
    "dataurl" := LoaderDataURL,
    "binary" := LoaderBinary
  ]

  /** The tag under which the registry lists a loader: every loader the registry names has one. */
  function LoaderTag(l: Loader): (tag: string)
    ensures tag in LoaderMap && LoaderMap[tag] == l
  {
    match l
    case LoaderJS => "js"
    case LoaderJSX => "jsx"
    case LoaderTS => "ts"
    case LoaderTSX => "tsx"
    case LoaderCSS => "css"
    case LoaderJSON => "json"
    case LoaderText => "text"
    case LoaderBase64 => "base64"
    case LoaderFile => "file"
    case LoaderDataURL => "dataurl"
    case LoaderBinary => "binary"
  }

  /** No two tags name the same loader: LoaderTag inverts the registry. */
  lemma LoaderMapInjective(tag: string)
    requires tag in LoaderMap
    ensures LoaderTag(LoaderMap[tag]) == tag
  {
  }

  // ---------------------------------------------------------------------------
  // Inputs and outputs of a build
  // ---------------------------------------------------------------------------

  /**
    The function's node properties, already decoded from JSON. Of the low-level
    esbuild block only its `Target` is read; `sourceMap` is decoded but never used.
  */
  datatype NodeProperties = NodeProperties(
    loader: map<string, string>,
    install: seq<string>,
    banner: string,
    esbuildTarget: Target,
    minify: bool,
    format: string,
    sourceMap: bool,
    splitting: bool,
    plugins: string)

  /** A build request: the function's ID, its handler, its properties, the project root and its output directory. */
  datatype BuildInput = BuildInput(
    functionID: string,
    handler: string,
    properties: NodeProperties,
    root: string,
    out: string)

  datatype BuildOutput = BuildOutput(handler: string, errors: seq<string>)

  /**
    Why a build did not complete: the handler resolved to no file, `filepath.Rel`
    failed, or the function's stored build context is nil (esbuild refused its
    options when it was created; calling Rebuild on it is a nil-interface call).
  */
  datatype BuildError = HandlerNotFound(handler: string) | RelError | NilContext

  /** The text of the error a build returns when its handler does not resolve. */
  function HandlerNotFoundMessage(handler: string): (msg: string)
    ensures GoStrings.HasPrefix(msg, "Handler not found: ")
    ensures msg[|"Handler not found: "|..] == handler
  {
    "Handler not found: " + handler
  }

  /**
    The text of a build error the adapter composes itself. A failing
    `filepath.Rel` returns that function's own error, and a nil context panics,
    so neither has a text of the adapter's.
  */
  function ErrorText(e: BuildError): Option<string>
  {
    match e
    case HandlerNotFound(handler) => Some(HandlerNotFoundMessage(handler))
    case RelError => None
    case NilContext => None
  }

  /** What the adapter asks of the world outside it during one build. */
  datatype Host = Host(
    existing: set<string>,
    rel: (string, string) -> Option<string>,
    contextAccepts: BuildOptions -> bool,
    rebuild: BuildOptions -> BuildResult)

  // ---------------------------------------------------------------------------
  // Handler resolution
  // ---------------------------------------------------------------------------

  /** The extensions a handler's source file may have, in the order they are tried. */
  const NodeExtensions: seq<string> := [".ts", ".tsx", ".mts", ".cts", ".js", ".jsx", ".mjs", ".cjs"]

  /** A base name without its last '.'-separated segment: split at '.', drop the last part, join again. */
  function DropLastSegment(b: string): string
  {
    var parts := GoStrings.Split(b, '.');
    GoStrings.Join(parts[..|parts| - 1], ".")
  }

  /** The handler's base name without the exported symbol after its last '.'. */
  function HandlerStem(handler: string): string
  {
    DropLastSegment(GoPath.Base(handler))
  }

  /**
    DropLastSegment cuts at the last '.': what precedes that dot is kept, and a
    name without any dot becomes empty.
  */
  lemma DropLastSegmentCutsAtLastDot(b: string)
    ensures '.' !in b ==> DropLastSegment(b) == ""
    ensures '.' in b ==> exists i :: 0 <= i < |b| && b[i] == '.' && DropLastSegment(b) == b[..i] &&
                                     forall j :: i < j < |b| ==> b[j] != '.'
  {
    var parts := GoStrings.Split(b, '.');
    if '.' !in b {
      GoStrings.SplitNoSeparator(b, '.');
    } else {
      GoStrings.SplitMoreThanOne(b, '.');
      GoStrings.SplitParts(b, '.');
      GoStrings.JoinLast(parts, ".");
      var stem := DropLastSegment(b);
      var last := parts[|parts| - 1];
      assert b == stem + "." + last;
      var i := |stem|;
      assert b[i] == '.' && b[..i] == stem;
      forall j | i < j < |b| ensures b[j] != '.' {
        assert b[j] == last[j - i - 1];
      }
    }
  }

  /** The path probed for one extension: root, the handler's directory, and stem plus extension. */
  function Candidate(root: string, dir: string, stem: string, ext: string): string
  {
    GoPath.Join([root, dir, stem + ext])
  }

  /**
    The first candidate, in the order of `exts`, that exists; None when none does.
  */
  function Probe(root: string, dir: string, stem: string, existing: set<string>, exts: seq<string>): Option<string>
    decreases |exts|
  {
    if exts == [] then None
    else
      var c := Candidate(root, dir, stem, exts[0]);
      if c in existing then Some(c) else Probe(root, dir, stem, existing, exts[1..])
  }

  /**
    A found path exists and is the candidate of some extension whose
    predecessors all do not exist; None means no candidate exists.
  */
  lemma {:induction false} ProbeFindsFirst(root: string, dir: string, stem: string, existing: set<string>, exts: seq<string>)
    ensures var r := Probe(root, dir, stem, existing, exts);
      && (r.Some? ==>
            && r.value in existing
            && exists i :: 0 <= i < |exts| && r.value == Candidate(root, dir, stem, exts[i]) &&
                 forall j :: 0 <= j < i ==> Candidate(root, dir, stem, exts[j]) !in existing)
      && (r.None? ==> forall i :: 0 <= i < |exts| ==> Candidate(root, dir, stem, exts[i]) !in existing)
    decreases |exts|
  {
    if exts != [] && Candidate(root, dir, stem, exts[0]) !in existing {
      ProbeFindsFirst(root, dir, stem, existing, exts[1..]);
      assert forall i :: 1 <= i < |exts| ==> exts[i] == exts[1..][i - 1];
      var r := Probe(root, dir, stem, existing, exts[1..]);
      if r.Some? {
        var k :| 0 <= k < |exts[1..]| && r.value == Candidate(root, dir, stem, exts[1..][k]) &&
                 forall j :: 0 <= j < k ==> Candidate(root, dir, stem, exts[1..][j]) !in existing;
        assert r.value == Candidate(root, dir, stem, exts[k + 1]);
      }
    }
  }

  /** Probing from position `i` tries the `i`th extension, then goes on from `i + 1`. */
  lemma ProbeFrom(root: string, dir: string, stem: string, existing: set<string>, exts: seq<string>, i: nat)
    requires i < |exts|
    ensures var c := Candidate(root, dir, stem, exts[i]);
      Probe(root, dir, stem, existing, exts[i..]) ==
        if c in existing then Some(c) else Probe(root, dir, stem, existing, exts[i + 1..])
  {
    assert exts[i..][1..] == exts[i + 1..];
  }

  /** The handler's source file: the first of its candidates, in NodeExtensions order, that exists. */
  function Resolve(root: string, handler: string, existing: set<string>): Option<string>
  {
    Probe(root, GoPath.Dir(handler), HandlerStem(handler), existing, NodeExtensions)
  }

  // ---------------------------------------------------------------------------
  // Build configuration
  // ---------------------------------------------------------------------------

  /**
    Module format and output extension: "cjs" selects CommonJS with ".cjs", any
    other value (the empty one too) ECMAScript modules with ".mjs". The result is
    (isESM, extension), and the extension is itself one Node accepts as a source.
  */
  function FormatChoice(format: string): (r: (bool, string))
    ensures r.0 <==> format != "cjs"
    ensures r.1 == (if r.0 then ".mjs" else ".cjs")
    ensures r.1 in NodeExtensions
  {
    if format == "cjs" then (false, ".cjs") else (true, ".mjs")
  }

  /**
    Where the artifact is written: under `out`, the path relative to the project
    root with its extension text replaced. Every occurrence of that text is
    replaced, not only the trailing one.
  */
  function OutputPath(out: string, rel: string, extension: string): string
  {
    GoPath.Join([out, GoStrings.ReplaceAll(rel, GoPath.Ext(rel), extension)])
  }

  /** Every source extension is a '.' followed by neither '.' nor '/': it is what `filepath.Ext` returns for it. */
  lemma NodeExtensionShape(ext: string)
    requires ext in NodeExtensions
    ensures |ext| >= 1 && ext[0] == '.'
    ensures forall j :: 1 <= j < |ext| ==> ext[j] != '.' && ext[j] != '/'
  {
  }

  /** When a source extension occurs only at the end of the relative path, just that extension changes. */
  lemma OutputPathSwapsExtension(out: string, stem: string, ext: string, extension: string)
    requires ext in NodeExtensions
    requires forall i :: 0 <= i < |stem| ==> !GoStrings.OccursAt(stem + ext, ext, i)
    ensures OutputPath(out, stem + ext, extension) == GoPath.Join([out, stem + extension])
  {
    NodeExtensionShape(ext);
    GoPath.ExtOfSuffix(stem, ext);
    GoStrings.ReplaceAllTrailingOnly(stem, ext, extension);
  }

  /**
    An extension text that also occurs inside a directory name is replaced
    there as well: "lib.ts/a.ts" is written as "lib.mjs/a.mjs".
  */
  lemma OutputPathReplacesInnerOccurrences(out: string, dir: string, name: string, ext: string, extension: string)
    requires ext in NodeExtensions
    requires forall i :: 0 <= i < |dir| ==> !GoStrings.OccursAt(dir + ext + ("/" + name) + ext, ext, i)
    requires forall i :: 0 <= i < |"/" + name| ==> !GoStrings.OccursAt("/" + name + ext, ext, i)
    ensures OutputPath(out, dir + ext + ("/" + name) + ext, extension) == GoPath.Join([out, dir + extension + ("/" + name) + extension])
  {
    NodeExtensionShape(ext);
    GoPath.ExtOfSuffix(dir + ext + ("/" + name), ext);
    GoStrings.ReplaceAllTwoOccurrences(dir, ext, "/" + name, extension);
  }

  /** Filters the user's loader map against the registry; unknown tags are dropped. */
  function FilterLoaders(user: map<string, string>): map<string, Loader>
  {
    map k | k in user && user[k] in LoaderMap :: LoaderMap[user[k]]
  }

  /** Setting an unknown tag for an extension is the same as not configuring that extension at all. */
  lemma FilterLoadersUnknownTag(user: map<string, string>, ext: string, tag: string)
    requires tag !in LoaderMap
    ensures FilterLoaders(user[ext := tag]) == FilterLoaders(user) - {ext}
  {
    var a := FilterLoaders(user[ext := tag]);
    var b := FilterLoaders(user) - {ext};
    assert a.Keys == b.Keys;
  }

  /** Setting a known tag for an extension maps that extension to the registry's loader. */
  lemma FilterLoadersKnownTag(user: map<string, string>, ext: string, tag: string)
    requires tag in LoaderMap
    ensures FilterLoaders(user[ext := tag]) == FilterLoaders(user)[ext := LoaderMap[tag]]
  {
    var a := FilterLoaders(user[ext := tag]);
    var b := FilterLoaders(user)[ext := LoaderMap[tag]];
    assert a.Keys == b.Keys;
  }

  /** Packages that are never bundled because they carry native bindings. */
  const NativeExternals: seq<string> := ["sharp", "pg-native"]

  /** The external list: the native packages first, then the `install` packages in their order. */
  function Externals(install: seq<string>): (r: seq<string>)
    ensures |r| == |NativeExternals| + |install|
    ensures r[..|NativeExternals|] == NativeExternals && r[|NativeExternals|..] == install
    ensures forall p :: p in r <==> p in NativeExternals || p in install
  {
    NativeExternals + install
  }

  /** The lines that give an ES module the CommonJS globals `require`, `__filename` and `__dirname`. */
  const EsmShim: seq<string> := [ShimImportCreateRequire, ShimRequire, ShimImportUrl, ShimFilename, ShimDirname]

  // Each line is written as a few short literals joined together: the verifier reads a
  // literal one character at a time, and a whole line as one literal is too long for it
  // to show that no character is a newline.
  const ShimImportCreateRequire := "import { " + "createRequire as " + "topLevelCreateRequire" + " } from 'module';"
  const ShimRequire := "const require = " + "topLevelCreateRequire" + "(import.meta.url);"
  const ShimImportUrl := "import { " + "fileURLToPath as " + "topLevelFileUrlToPath" + ", URL as " + "topLevelURL } " + "from \"url\""
  const ShimFilename := "const __filename = " + "topLevelFileUrlToPath" + "(import.meta.url)"
  const ShimDirname := "const __dirname = " + "topLevelFileUrlToPath" + "(new topLevelURL(" + "\".\", import.meta.url))"

  // Each shim line is one line; the lines are checked one lemma each, to keep every proof small.

  lemma ShimImportCreateRequireHasNoNewline() ensures '\n' !in ShimImportCreateRequire {}
  lemma ShimRequireHasNoNewline() ensures '\n' !in ShimRequire {}
  lemma ShimImportUrlHasNoNewline() ensures '\n' !in ShimImportUrl {}
  lemma ShimFilenameHasNoNewline() ensures '\n' !in ShimFilename {}
  lemma ShimDirnameHasNoNewline() ensures '\n' !in ShimDirname {}

  lemma EsmShimLinesHaveNoNewline()
    ensures forall i :: 0 <= i < |EsmShim| ==> '\n' !in EsmShim[i]
  {
    ShimImportCreateRequireHasNoNewline();
    ShimRequireHasNoNewline();
    ShimImportUrlHasNoNewline();
    ShimFilenameHasNoNewline();
    ShimDirnameHasNoNewline();
  }

  /** The JS banner of an ES module build: the shim lines, then the user's banner, joined with newlines. */
  function EsmBanner(user: string): string
  {
    GoStrings.Join(EsmShim + [user], "\n")
  }

  /**
    Read line by line, the ES module banner is exactly the shim followed by the
    user's lines, and it ends with the user's text.
  */
  lemma EsmBannerLines(user: string)
    ensures GoStrings.Split(EsmBanner(user), '\n') == EsmShim + GoStrings.Split(user, '\n')
    ensures |user| <= |EsmBanner(user)| && EsmBanner(user)[|EsmBanner(user)| - |user|..] == user
  {
    var shim := GoStrings.Join(EsmShim, "\n");
    GoStrings.JoinLast(EsmShim + [user], "\n");
    assert (EsmShim + [user])[..|EsmShim|] == EsmShim;
    assert EsmBanner(user) == shim + "\n" + user;
    EsmShimLinesHaveNoNewline();
    GoStrings.SplitJoin(EsmShim, '\n');
    GoStrings.SplitConcat(shim, '\n', user);
  }

  /** The language target: the low-level override when it is set (non-zero), otherwise ESNext. */
  function ResolveTarget(override: Target): (t: Target)
    ensures override != DefaultTarget ==> t == override
    ensures override == DefaultTarget ==> t == ESNext
  {
    if override != DefaultTarget then override else ESNext
  }

  /** The esbuild options for a resolved entry file, output path and translated loader map. */
  function Options(file: string, target: string, loader: map<string, Loader>, p: NodeProperties): (o: BuildOptions)
    ensures o.entryPoints == [file] && o.outfile == target && o.loader == loader
    ensures o.external == Externals(p.install)
    ensures o.plugins == (if p.plugins == "" then [] else [p.plugins])
    ensures o.format == FormatCommonJS <==> p.format == "cjs"
    ensures o.format == FormatESModule <==> p.format != "cjs"
    ensures o.format == FormatESModule ==> o.banner == map["js" := EsmBanner(p.banner)] && o.mainFields == ["module", "main"]
    ensures o.format == FormatCommonJS ==> o.banner == map[] && o.mainFields == []
    ensures o.target == ResolveTarget(p.esbuildTarget)
    ensures o.minifyWhitespace == o.minifySyntax == o.minifyIdentifiers == p.minify
    ensures o.splitting == p.splitting
    ensures o.platform == PlatformNode && o.sourcemap == SourceMapLinked
    ensures o.keepNames && o.bundle && o.metafile && o.write
  {
    var isESM := FormatChoice(p.format).0;
    BuildOptions(
      entryPoints := [file],
      platform := PlatformNode,
      external := Externals(p.install),
      plugins := if p.plugins == "" then [] else [p.plugins],
      sourcemap := SourceMapLinked,
      loader := loader,
      keepNames := true,
      bundle := true,
      splitting := p.splitting,
      metafile := true,
      write := true,
      outfile := target,
      minifyWhitespace := p.minify,
      minifySyntax := p.minify,
      minifyIdentifiers := p.minify,
      format := if isESM then FormatESModule else FormatCommonJS,
      target := ResolveTarget(p.esbuildTarget),
      mainFields := if isESM then ["module", "main"] else [],
      banner := if isESM then map["js" := EsmBanner(p.banner)] else map[])
  }

  /**
    Everything a build decides before it touches the per-function state: the
    entry file and the esbuild options, or why the build stops.
  */
  function Plan(input: BuildInput, host: Host): Result<(string, BuildOptions), BuildError>
  {
    match Resolve(input.root, input.handler, host.existing)
    case None => Failure(HandlerNotFound(input.handler))
    case Some(file) =>
      match host.rel(input.root, file)
      case None => Failure(RelError)
      case Some(rel) =>
        var extension := FormatChoice(input.properties.format).1;
        var target := OutputPath(input.out, rel, extension);
        Success((file, Options(file, target, FilterLoaders(input.properties.loader), input.properties)))
  }

  /**
    A build stops in planning with "Handler not found" exactly when no candidate
    of the handler exists; a planned build enters the resolved file and writes to
    the output path of its path relative to the root.
  */
  lemma PlanOutcome(input: BuildInput, host: Host)
    ensures Resolve(input.root, input.handler, host.existing).None? <==>
            Plan(input, host) == Failure(HandlerNotFound(input.handler))
    ensures Plan(input, host) == Failure(RelError) <==>
            var resolved := Resolve(input.root, input.handler, host.existing);
            resolved.Some? && host.rel(input.root, resolved.value).None?
    ensures Plan(input, host).Success? <==>
            var resolved := Resolve(input.root, input.handler, host.existing);
            resolved.Some? && host.rel(input.root, resolved.value).Some?
    ensures Plan(input, host).Success? ==>
      var (file, o) := Plan(input, host).value;
      && Resolve(input.root, input.handler, host.existing) == Some(file)
      && o.entryPoints == [file]
      && host.rel(input.root, file).Some?
      && o.outfile == OutputPath(input.out, host.rel(input.root, file).value, FormatChoice(input.properties.format).1)
      && o.loader == FilterLoaders(input.properties.loader)
  {
  }

  /** A handler with no existing candidate fails the build with "Handler not found: " and the handler. */
  lemma UnresolvedHandlerMessage(input: BuildInput, host: Host)
    requires Resolve(input.root, input.handler, host.existing).None?
    ensures Plan(input, host).Failure?
    ensures ErrorText(Plan(input, host).error) == Some("Handler not found: " + input.handler)
  {
  }

  // ---------------------------------------------------------------------------
  // Diagnostics
  // ---------------------------------------------------------------------------

  /** One diagnostic: the message text, then " file:line:column" when esbuild knows the location. */
  function RenderMessage(m: Message): string
  {
    match m.location
    case None => m.text
    case Some(loc) =>
      m.text + " " + loc.file + ":" + GoStrings.IntToString(loc.line) + ":" + GoStrings.IntToString(loc.column)
  }

  /** The diagnostics of a build: one per error, in order. Warnings are not included. */
  function RenderErrors(errors: seq<Message>): seq<string>
  {
    seq(|errors|, i requires 0 <= i < |errors| => RenderMessage(errors[i]))
  }

  /** A diagnostic without a location is the bare message text. */
  lemma RenderedWithoutLocation(m: Message)
    requires m.location.None?
    ensures RenderMessage(m) == m.text
  {
  }

  /**
    A located diagnostic starts with the message text and a space, and its last
    two ':'-separated fields read back as the line and the column.
  */
  lemma RenderedLocationReadsBack(m: Message)
    requires m.location.Some?
    ensures var r := RenderMessage(m);
      var fields := GoStrings.Split(r, ':');
      && GoStrings.HasPrefix(r, m.text + " ")
      && GoStrings.HasPrefix(r, m.text + " " + m.location.value.file + ":")
      && fields == GoStrings.Split(m.text + " " + m.location.value.file, ':') +
                   [GoStrings.IntToString(m.location.value.line), GoStrings.IntToString(m.location.value.column)]
      && |fields| >= 3
      && GoStrings.ParseInt(fields[|fields| - 2]) == m.location.value.line
      && GoStrings.ParseInt(fields[|fields| - 1]) == m.location.value.column
  {
    var loc := m.location.value;
    var head := m.text + " " + loc.file;
    var line := GoStrings.IntToString(loc.line);
    var column := GoStrings.IntToString(loc.column);
    var r := RenderMessage(m);
    assert r == head + [':'] + (line + [':'] + column);
    GoStrings.IntToStringHasNo(loc.line, ':');
    GoStrings.IntToStringHasNo(loc.column, ':');
    GoStrings.SplitNoSeparator(line, ':');
    GoStrings.SplitNoSeparator(column, ':');
    GoStrings.SplitConcat(line, ':', column);
    GoStrings.SplitConcat(head, ':', line + [':'] + column);
    var fields := GoStrings.Split(r, ':');
    assert fields == GoStrings.Split(head, ':') + [line, column];
    GoStrings.ParseIntToString(loc.line);
    GoStrings.ParseIntToString(loc.column);
    assert r[..|m.text + " "|] == m.text + " ";
    assert r[..|head + ":"|] == head + ":";
  }

  // ---------------------------------------------------------------------------
  // Per-function state and one build
  // ---------------------------------------------------------------------------

  /** The runtime's two maps, keyed by function ID. */
  datatype State = State(contexts: map<string, BuildContext>, results: map<string, BuildResult>)

  /** The context esbuild creates for the given options. */
  function NewContext(o: BuildOptions, host: Host): BuildContext
  {
    if host.contextAccepts(o) then Live(o) else Nil
  }

  /**
    The state change of a build whose planning succeeded with `options`: the
    context is created only when the ID has none (an existing one, with its
    options, is kept as it is); with a live context, the ID's result becomes the
    rebuild of the context's own options; no other ID is affected.
  */
  function Commit(st: State, f: string, handler: string, options: BuildOptions, host: Host): (res: (State, Result<BuildOutput, BuildError>))
    ensures res.0.contexts - {f} == st.contexts - {f}
    ensures res.0.results - {f} == st.results - {f}
    ensures f in res.0.contexts
    ensures f in st.contexts ==> res.0.contexts == st.contexts
    ensures f !in st.contexts ==> res.0.contexts[f] == NewContext(options, host)
    ensures res.0.contexts[f].Live? ==>
            var result := host.rebuild(res.0.contexts[f].options);
            && res.0.results == st.results[f := result]
            && res.1 == Success(BuildOutput(handler, RenderErrors(result.errors)))
    ensures res.0.contexts[f].Nil? ==> res.0.results == st.results && res.1 == Failure(NilContext)
  {
    var contexts := if f in st.contexts then st.contexts else st.contexts[f := NewContext(options, host)];
    match contexts[f]
    case Nil => (State(contexts, st.results), Failure(NilContext))
    case Live(stored) =>
      var result := host.rebuild(stored);
      (State(contexts, st.results[f := result]), Success(BuildOutput(handler, RenderErrors(result.errors))))
  }

  /** One build of `input.functionID`: a build that stops in planning changes nothing. */
  function BuildStep(st: State, input: BuildInput, host: Host): (res: (State, Result<BuildOutput, BuildError>))
    ensures Plan(input, host).Failure? ==> res.0 == st && res.1 == Failure(Plan(input, host).error)
    ensures Plan(input, host).Success? ==>
            res == Commit(st, input.functionID, input.handler, Plan(input, host).value.1, host)
  {
    match Plan(input, host)
    case Failure(e) => (st, Failure(e))
    case Success(planned) => Commit(st, input.functionID, input.handler, planned.1, host)
  }

  // ---------------------------------------------------------------------------
  // Dependency index
  // ---------------------------------------------------------------------------

  /**
    Whether `file` was an input of the last build of `f`: there is a result for
    `f`, its metafile parsed, and some input key's absolute path is `file`.
  */
  function Affected(results: map<string, BuildResult>, f: string, file: string, abs: string -> Option<string>): bool
  {
    f in results && results[f].metafile.Some? &&
    exists key :: key in results[f].metafile.value && abs(key) == Some(file)
  }

  /**
    After a completed build of one ID, the rebuild question for that ID is
    answered from the new result's inputs, and for every other ID as before.
  */
  lemma AffectedAfterBuild(st: State, input: BuildInput, host: Host, g: string, file: string, abs: string -> Option<string>)
    requires BuildStep(st, input, host).1.Success?
    ensures var st' := BuildStep(st, input, host).0;
      && (g != input.functionID ==> Affected(st'.results, g, file, abs) == Affected(st.results, g, file, abs))
      && (g == input.functionID ==>
            var inputs := host.rebuild(st'.contexts[g].options).metafile;
            Affected(st'.results, g, file, abs) <==>
              inputs.Some? && exists key :: key in inputs.value && abs(key) == Some(file))
  {
    if g != input.functionID {
      BuildStepKeepsOthers(st, input, host, g);
    } else {
      BuildStoresRebuild(st, input, host);
    }
  }

  /** A completed build leaves the ID with a live context and that context's rebuild as its result. */
  lemma BuildStoresRebuild(st: State, input: BuildInput, host: Host)
    requires BuildStep(st, input, host).1.Success?
    ensures var st' := BuildStep(st, input, host).0;
      && input.functionID in st'.contexts && st'.contexts[input.functionID].Live?
      && input.functionID in st'.results
      && st'.results[input.functionID] == host.rebuild(st'.contexts[input.functionID].options)
  {
    var f := input.functionID;
    var p := Plan(input, host);
    assert p.Success?;
    var c := Commit(st, f, input.handler, p.value.1, host);
    assert BuildStep(st, input, host) == c;
    assert c.0.contexts[f].Live?;
  }

  // ---------------------------------------------------------------------------
  // Sequences of builds
  // ---------------------------------------------------------------------------

  /** A build request together with the world it meets. */
  datatype Call = Call(input: BuildInput, host: Host)

  function RunBuilds(st: State, calls: seq<Call>): State
    decreases |calls|
  {
    if calls == [] then st
    else RunBuilds(BuildStep(st, calls[0].input, calls[0].host).0, calls[1..])
  }

  /** The context the first call for `f` that gets past planning creates; None when no call does. */
  function FirstContext(calls: seq<Call>, f: string): Option<BuildContext>
    decreases |calls|
  {
    if calls == [] then None
    else
      var c := calls[0];
      if c.input.functionID == f && Plan(c.input, c.host).Success? then
        Some(NewContext(Plan(c.input, c.host).value.1, c.host))
      else FirstContext(calls[1..], f)
  }

  /** Once a function has a context, no later build replaces it. */
  lemma {:induction false} ContextPersists(st: State, calls: seq<Call>, f: string)
    requires f in st.contexts
    ensures f in RunBuilds(st, calls).contexts
    ensures RunBuilds(st, calls).contexts[f] == st.contexts[f]
    decreases |calls|
  {
    if calls != [] {
      var next := BuildStep(st, calls[0].input, calls[0].host).0;
      BuildStepKeepsContext(st, calls[0].input, calls[0].host, f);
      assert RunBuilds(st, calls) == RunBuilds(next, calls[1..]);
      ContextPersists(next, calls[1..], f);
    }
  }

  /**
    A function's context is created exactly once: it is the one made from the
    options of its first build that got past planning, whatever later builds ask for.
  */
  lemma {:induction false} ContextFromFirstBuild(st: State, calls: seq<Call>, f: string)
    requires f !in st.contexts
    ensures f in RunBuilds(st, calls).contexts <==> FirstContext(calls, f).Some?
    ensures FirstContext(calls, f).Some? ==> RunBuilds(st, calls).contexts[f] == FirstContext(calls, f).value
    decreases |calls|
  {
    if calls != [] {
      var c := calls[0];
      var next := BuildStep(st, c.input, c.host).0;
      if c.input.functionID == f && Plan(c.input, c.host).Success? {
        ContextPersists(next, calls[1..], f);
      } else {
        BuildStepCreatesNoContext(st, c.input, c.host, f);
        ContextFromFirstBuild(next, calls[1..], f);
      }
    }
  }

  /** Any build keeps a context that exists. */
  lemma BuildStepKeepsContext(st: State, input: BuildInput, host: Host, f: string)
    requires f in st.contexts
    ensures var next := BuildStep(st, input, host).0;
      f in next.contexts && next.contexts[f] == st.contexts[f]
  {
    var next := BuildStep(st, input, host).0;
    if input.functionID != f {
      MapFrame(next.contexts, st.contexts, input.functionID, f);
    }
  }

  /** A build that is not a build of `f` past planning gives `f` no context. */
  lemma BuildStepCreatesNoContext(st: State, input: BuildInput, host: Host, f: string)
    requires f !in st.contexts
    requires input.functionID != f || Plan(input, host).Failure?
    ensures f !in BuildStep(st, input, host).0.contexts
  {
    var next := BuildStep(st, input, host).0;
    if input.functionID != f {
      MapFrame(next.contexts, st.contexts, input.functionID, f);
    }
  }

  /** A build of one function leaves every other function's context and result as they were. */
  lemma BuildStepKeepsOthers(st: State, input: BuildInput, host: Host, g: string)
    requires g != input.functionID
    ensures var next := BuildStep(st, input, host).0;
      && (g in next.contexts <==> g in st.contexts)
      && (g in st.contexts ==> next.contexts[g] == st.contexts[g])
      && (g in next.results <==> g in st.results)
      && (g in st.results ==> next.results[g] == st.results[g])
  {
    var next := BuildStep(st, input, host).0;
    MapFrame(next.contexts, st.contexts, input.functionID, g);
    MapFrame(next.results, st.results, input.functionID, g);
  }

  /** Two maps that agree away from `f` agree at every other key. */
  lemma MapFrame<V>(a: map<string, V>, b: map<string, V>, f: string, g: string)
    requires a - {f} == b - {f} && g != f
    ensures g in a <==> g in b
    ensures g in a ==> a[g] == b[g]
  {
    assert g in a <==> g in a - {f};
    assert g in b <==> g in b - {f};
  }

  /** Builds of other functions leave a function's context and result as they were. */
  lemma {:induction false} OtherBuildsLeaveStateAlone(st: State, calls: seq<Call>, f: string)
    requires forall i :: 0 <= i < |calls| ==> calls[i].input.functionID != f
    ensures var st' := RunBuilds(st, calls);
      && (f in st'.contexts <==> f in st.contexts)
      && (f in st.contexts ==> st'.contexts[f] == st.contexts[f])
      && (f in st'.results <==> f in st.results)
      && (f in st.results ==> st'.results[f] == st.results[f])
    decreases |calls|
  {
    if calls != [] {
      var c := calls[0];
      var next := BuildStep(st, c.input, c.host).0;
      BuildStepKeepsOthers(st, c.input, c.host, f);
      assert forall i :: 0 <= i < |calls[1..]| ==> calls[1..][i] == calls[i + 1];
      OtherBuildsLeaveStateAlone(next, calls[1..], f);
      assert RunBuilds(st, calls) == RunBuilds(next, calls[1..]);
    }
  }

  // ---------------------------------------------------------------------------
  // The runtime object
  // ---------------------------------------------------------------------------

  class Runtime {
    var contexts: map<string, BuildContext>
    var results: map<string, BuildResult>

    /** A runtime with no contexts and no results. */
    constructor ()
      ensures contexts == map[] && results == map[]
    {
      contexts := map[];
      results := map[];
    }

    function Snapshot(): State
      reads this
    {
      State(contexts, results)
    }

    /** Whether this runtime serves a function's runtime name: any name starting with "node". */
    function Match(runtime: string): (b: bool)
      ensures b <==> |runtime| >= 4 && runtime[..4] == "node"
    {
      GoStrings.HasPrefix(runtime, "node")
    }

    /**
      Probes the handler's candidates in extension order and returns the first
      that exists, or ("", false) when none does.
    */
    method GetFile(handler: string, root: string, existing: set<string>) returns (file: string, ok: bool)
      ensures ok ==>
        && file in existing
        && exists i :: 0 <= i < |NodeExtensions| &&
             file == Candidate(root, GoPath.Dir(handler), HandlerStem(handler), NodeExtensions[i]) &&
             forall j :: 0 <= j < i ==> Candidate(root, GoPath.Dir(handler), HandlerStem(handler), NodeExtensions[j]) !in existing
      ensures !ok ==>
        && file == ""
        && forall i :: 0 <= i < |NodeExtensions| ==> Candidate(root, GoPath.Dir(handler), HandlerStem(handler), NodeExtensions[i]) !in existing
      ensures Resolve(root, handler, existing) == if ok then Some(file) else None
    {
      var dir := GoPath.Dir(handler);
      var stem := HandlerStem(handler);
      for i := 0 to |NodeExtensions|
        invariant Resolve(root, handler, existing) == Probe(root, dir, stem, existing, NodeExtensions[i..])
      {
        ProbeFrom(root, dir, stem, existing, NodeExtensions, i);
        var candidate := Candidate(root, dir, stem, NodeExtensions[i]);
        if candidate in existing {
          assert Resolve(root, handler, existing) == Some(candidate);
          ProbeFindsFirst(root, dir, stem, existing, NodeExtensions);
          return candidate, true;
        }
      }
      assert Resolve(root, handler, existing) == None;
      ProbeFindsFirst(root, dir, stem, existing, NodeExtensions);
      return "", false;
    }

    /**
      The part of a build that reads no per-function state: resolves the
      handler, makes the output path and translates the loaders.
    */
    method PlanBuild(input: BuildInput, host: Host) returns (r: Result<(string, BuildOptions), BuildError>)
      ensures r == Plan(input, host)
    {
      var file, ok := GetFile(input.handler, input.root, host.existing);
      if !ok {
        return Failure(HandlerNotFound(input.handler));
      }
      var relOrErr := host.rel(input.root, file);
      if relOrErr.None? {
        return Failure(RelError);
      }
      var extension := FormatChoice(input.properties.format).1;
      var target := OutputPath(input.out, relOrErr.value, extension);
      var loader := TranslateLoaders(input.properties.loader);
      return Success((file, Options(file, target, loader, input.properties)));
    }

    /**
      Builds one function: plans it, creates the function's context on its first
      build only, rebuilds and records the result, and returns the rendered errors.
    */
    method Build(input: BuildInput, host: Host) returns (r: Result<BuildOutput, BuildError>)
      modifies this
      ensures (Snapshot(), r) == BuildStep(old(Snapshot()), input, host)
    {
      ghost var st := State(contexts, results);
      var planned := PlanBuild(input, host);
      if planned.Failure? {
        return Failure(planned.error);
      }
      var options := planned.value.1;
      var f := input.functionID;
      ghost var step := Commit(st, f, input.handler, options, host);
      assert BuildStep(st, input, host) == step;
      if f !in contexts {
        contexts := contexts[f := NewContext(options, host)];
      }
      var buildContext := contexts[f];
      if buildContext.Nil? {
        return Failure(NilContext);
      }
      var result := host.rebuild(buildContext.options);
      results := results[f := result];
      var errors := RenderDiagnostics(result.errors);
      return Success(BuildOutput(input.handler, errors));
    }

    /**
      Whether a change to `file` should trigger a rebuild of `functionID`: false
      without a result or with an unparsable metafile, otherwise whether some
      input key's absolute path is `file` (keys whose path cannot be made
      absolute are skipped).
    */
    method ShouldRebuild(functionID: string, file: string, abs: string -> Option<string>) returns (b: bool)
      ensures functionID !in results ==> !b
      ensures functionID in results && results[functionID].metafile.None? ==> !b
      ensures functionID in results && results[functionID].metafile.Some? ==>
        (b <==> exists key :: key in results[functionID].metafile.value && abs(key) == Some(file))
      ensures b == Affected(results, functionID, file, abs)
    {
      if functionID !in results {
        return false;
      }
      var meta := results[functionID].metafile;
      if meta.None? {
        return false;
      }
      var pending := meta.value;
      while pending != {}
        invariant pending <= meta.value
        invariant forall key :: key in meta.value && key !in pending ==> abs(key) != Some(file)
        decreases pending
      {
        var key :| key in pending;
        var absPath := abs(key);
        if absPath.Some? && absPath.value == file {
          return true;
        }
        pending := pending - {key};
      }
      return false;
    }
  }

  /**
    Translates the user's loader map: an extension keeps exactly the tags the
    registry knows, mapped to the registry's loader; unknown tags are skipped.
  */
  method TranslateLoaders(user: map<string, string>) returns (loader: map<string, Loader>)
    ensures forall k :: k in loader <==> k in user && user[k] in LoaderMap
    ensures forall k :: k in loader ==> loader[k] == LoaderMap[user[k]]
    ensures loader == FilterLoaders(user)
  {
    loader := map[];
    var pending := user.Keys;
    while pending != {}
      invariant pending <= user.Keys
      invariant forall k :: k in loader <==> k in user && k !in pending && user[k] in LoaderMap
      invariant forall k :: k in loader ==> loader[k] == LoaderMap[user[k]]
      decreases pending
    {
      var key :| key in pending;
      var value := user[key];
      if value in LoaderMap {
        loader := loader[key := LoaderMap[value]];
      }
      pending := pending - {key};
    }
    assert loader.Keys == FilterLoaders(user).Keys;
  }

  /** Renders every error of a build result, in order. */
  method RenderDiagnostics(errors: seq<Message>) returns (texts: seq<string>)
    ensures texts == RenderErrors(errors)
  {
    texts := [];
    for i := 0 to |errors|
      invariant |texts| == i
      invariant forall j :: 0 <= j < i ==> texts[j] == RenderMessage(errors[j])
    {
      texts := texts + [RenderMessage(errors[i])];
    }
  }
}
