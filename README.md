# Node.js runtime adapter

This project models the Node.js runtime adapter of the ion deployment tool. The adapter lets
the tool build and run functions written for Node.js. This model covers its build side:

- **Handler resolution.** A function's handler (`dir/file.export`) is resolved to a source
  file. The adapter probes `root/dir/file` with each Node extension in a fixed order
  (`.ts .tsx .mts .cts .js .jsx .mjs .cjs`) and takes the first file that exists.
- **Bundler configuration.** The esbuild options are derived from the function's node
  properties: module format and output extension, output path, loaders, externals, the
  ES-module banner, minification, splitting and the language target.
- **Per-function state.** The runtime keeps one incremental build context per function ID,
  created on that ID's first build, and the latest build result per function ID.
- **Diagnostics.** esbuild's errors are rendered as diagnostic strings.
- **Rebuild triggers.** `ShouldRebuild` says whether a changed file was an input of a
  function's last build.

Files:

- `node.dfy` (module `NodeRuntime`) is the adapter itself. The pure configuration logic is
  written as functions. `Runtime` is a class with the two maps as fields. The loops of the
  source are methods with loops: `GetFile`, `ShouldRebuild`, `TranslateLoaders` and
  `RenderDiagnostics`; the last two hold the loops of `Build`. Each is proved against a
  function (`Resolve`, `Affected`, `FilterLoaders`, `RenderErrors`), and `Build` is proved
  against `BuildStep`.
- `go_strings.dfy` and `go_path.dfy` model the parts of Go's `strings`, `fmt` and
  `path/filepath` packages that the adapter's results depend on, with Unix path semantics.
- `esbuild.dfy` holds the esbuild API values the adapter reads or builds.
- `wrappers.dfy` holds `Option` and `Result`.

The world outside the adapter is a `Host` parameter of each build:

- `existing` is the set of paths for which `os.Stat` succeeds;
- `rel` stands for `filepath.Rel`;
- `contextAccepts` says whether `esbuild.Context` returns a context;
- `rebuild` gives the result of a rebuild of given options.

`filepath.Abs` is a parameter of `ShouldRebuild`.

Points where the code's behaviour may surprise a reader:

- Diagnostics come from errors only. Warnings are logged, not returned.
- A located diagnostic is `text + " " + file:line:column`, without brackets.
- `strings.ReplaceAll` replaces every occurrence of the extension text in the relative path,
  not only the trailing one (`OutputPathReplacesInnerOccurrences`).
- Of the passthrough esbuild block only `Target` is read. Nothing else is merged.
- The `sourceMap` property is decoded but ignored: source maps are always linked.

## Model

| member | source | states |
|---|---|---|
| NodeRuntime.LoaderTag | pkg/runtime/node/node.go:22-34 | each of the eleven loaders the registry names has a tag that maps back to it |
| NodeRuntime.LoaderMapInjective | pkg/runtime/node/node.go:22-34 | no two registry tags name the same loader: the tag of a tag's loader is that tag |
| NodeRuntime.HandlerNotFoundMessage | pkg/runtime/node/node.go:100-102 | the error text starts with "Handler not found: " and the rest is exactly the handler |
| NodeRuntime.ErrorText | pkg/runtime/node/node.go:100-116 | defines the text of a build error: the "Handler not found" message for an unresolved handler; a failing Rel carries that function's own error, so the adapter composes no text for it |
| NodeRuntime.UnresolvedHandlerMessage | pkg/runtime/node/node.go:99-102 | a handler with no existing candidate fails planning, with the text "Handler not found: " followed by the handler |
| NodeRuntime.DropLastSegmentCutsAtLastDot | pkg/runtime/node/node.go:255-256 | the file stem is the base name cut at its last '.', and a base name with no '.' gives the empty stem |
| NodeRuntime.Probe | pkg/runtime/node/node.go:257-263 | defines the probe loop: the first candidate, in extension order, that exists, or None |
| NodeRuntime.ProbeFindsFirst | pkg/runtime/node/node.go:257-263 | a found path exists and is the candidate of some extension whose predecessors all do not exist; None means no candidate exists |
| NodeRuntime.ProbeFrom | pkg/runtime/node/node.go:257-262 | probing from extension i takes that candidate when it exists and otherwise goes on from i + 1 |
| NodeRuntime.NodeExtensionShape | pkg/runtime/node/node.go:93 | every Node extension is a '.' followed by neither '.' nor '/' |
| NodeRuntime.Runtime.GetFile | pkg/runtime/node/node.go:253-264 | returns (first existing candidate in extension order, true), or ("", false) when no candidate exists; in both cases this is Resolve's answer |
| NodeRuntime.FormatChoice | pkg/runtime/node/node.go:105-111 | ES modules exactly when the format is not "cjs"; the extension is ".mjs" for ES modules and ".cjs" otherwise, and is itself a Node extension |
| NodeRuntime.OutputPathSwapsExtension | pkg/runtime/node/node.go:113-117 | when the source extension occurs only at the end of the relative path, the artifact is out joined with the path with exactly that extension swapped |
| NodeRuntime.OutputPathReplacesInnerOccurrences | pkg/runtime/node/node.go:117 | when the extension text also ends a directory name, both occurrences are replaced ("lib.ts/a.ts" becomes "lib.mjs/a.mjs") |
| NodeRuntime.FilterLoadersUnknownTag | pkg/runtime/node/node.go:123-127 | giving an extension an unknown tag yields the same loader map as leaving that extension out |
| NodeRuntime.FilterLoadersKnownTag | pkg/runtime/node/node.go:123-129 | giving an extension a known tag maps that extension to the registry's loader and changes nothing else |
| NodeRuntime.TranslateLoaders | pkg/runtime/node/node.go:121-129 | an extension is in the result if and only if its tag is in the registry, and it then maps to the registry's loader |
| NodeRuntime.Externals | pkg/runtime/node/node.go:139-144 | the external list is "sharp", "pg-native" followed by the install list in order; a package is external exactly when it is native or installed |
| NodeRuntime.EsmShimLinesHaveNoNewline | pkg/runtime/node/node.go:165-169 | each of the five shim lines is a single line |
| NodeRuntime.EsmBannerLines | pkg/runtime/node/node.go:163-171 | read line by line, the ES-module banner is the five shim lines followed by the lines of the user's banner, and it ends with the user's text |
| NodeRuntime.ResolveTarget | pkg/runtime/node/node.go:159-180 | a non-zero low-level target wins; otherwise the target is ESNext |
| NodeRuntime.Options | pkg/runtime/node/node.go:136-180 | entry point, outfile, loaders, externals and plugins; CommonJS exactly for "cjs" and ES modules otherwise; the banner and main fields only for ES modules; the target; all three minify flags equal to minify; splitting; and the fixed settings: node platform, linked source maps, names kept, bundling, metafile and writing on |
| NodeRuntime.PlanOutcome | pkg/runtime/node/node.go:99-117 | "Handler not found" exactly when no candidate exists; the Rel error exactly when Rel fails on the resolved file; the build is planned exactly when the handler resolves and Rel succeeds on the resolved file; a planned build enters the resolved file and writes to OutputPath of its relative path |
| NodeRuntime.Runtime.PlanBuild | pkg/runtime/node/node.go:95-157 | the planning half of Build (resolve, Rel, output path, loaders, options) computes exactly Plan |
| NodeRuntime.Commit | pkg/runtime/node/node.go:182-189 | other IDs' contexts and results are unchanged; an existing context is kept; a missing one is created from the options; with a live context the result becomes the rebuild of the stored options and the errors are rendered; a nil context fails with the results unchanged |
| NodeRuntime.BuildStep | pkg/runtime/node/node.go:95-213 | a build that fails in planning leaves the state unchanged and returns that error; otherwise it is Commit of the planned options |
| NodeRuntime.Runtime.Build | pkg/runtime/node/node.go:95-213 | the new maps and the returned value are exactly BuildStep of the old maps |
| NodeRuntime.Runtime.constructor | pkg/runtime/node/node.go:41-46 | a new runtime has no contexts and no results |
| NodeRuntime.RenderedWithoutLocation | pkg/runtime/node/node.go:192-196 | an error without a location renders as its bare text |
| NodeRuntime.RenderedLocationReadsBack | pkg/runtime/node/node.go:193-195 | a located error renders as its text, a space, the location's file name and ':'; split at ':' it gives the parts of the text and file name followed by the line and the column in decimal, and those last two parts read back as the line and column |
| NodeRuntime.RenderDiagnostics | pkg/runtime/node/node.go:190-197 | one diagnostic per error, in order, each rendered as RenderMessage |
| NodeRuntime.BuildStoresRebuild | pkg/runtime/node/node.go:182-189 | after a completed build the ID has a live context, and its result is the rebuild of that context's stored options |
| NodeRuntime.AffectedAfterBuild | pkg/runtime/node/node.go:266-288 | after a completed build, the rebuild answer for that ID comes from the new result's inputs; for every other ID it is unchanged |
| NodeRuntime.BuildStepKeepsContext | pkg/runtime/node/node.go:182-186 | no build replaces a context that already exists |
| NodeRuntime.BuildStepCreatesNoContext | pkg/runtime/node/node.go:182-186 | a build of another ID, or one that stops in planning, gives an ID no context |
| NodeRuntime.BuildStepKeepsOthers | pkg/runtime/node/node.go:182-189 | a build of one ID leaves every other ID's context and result as they were |
| NodeRuntime.ContextPersists | pkg/runtime/node/node.go:182-186 | once an ID has a context, it keeps that same context through any sequence of builds |
| NodeRuntime.ContextFromFirstBuild | pkg/runtime/node/node.go:182-186 | an ID has a context after a sequence of builds exactly when one of its builds got past planning, and it is the context made from the first such build's options |
| NodeRuntime.OtherBuildsLeaveStateAlone | pkg/runtime/node/node.go:182-189 | a sequence of builds of other IDs leaves an ID's context and result as they were |
| NodeRuntime.Runtime.Match | pkg/runtime/node/node.go:249-251 | a runtime name is served exactly when it starts with "node" |
| NodeRuntime.Runtime.ShouldRebuild | pkg/runtime/node/node.go:266-288 | false with no result or an unparsable metafile; otherwise true exactly when some input key's absolute path is the file, skipping keys that cannot be made absolute |
| NodeRuntime.LoaderMap | pkg/runtime/node/node.go:22-34 | holds the loader registry: the eleven tags js, jsx, ts, tsx, css, json, text, base64, file, dataurl and binary, each naming the esbuild loader of that name (LoaderTag and LoaderMapInjective state that it is one-to-one) |
| NodeRuntime.NodeExtensions | pkg/runtime/node/node.go:93 | holds the eight handler extensions in the order they are tried: .ts, .tsx, .mts, .cts, .js, .jsx, .mjs, .cjs (NodeExtensionShape states their form) |
| NodeRuntime.NativeExternals | pkg/runtime/node/node.go:141 | holds the two packages never bundled, "sharp" then "pg-native" (Externals puts them first) |
| NodeRuntime.EsmShim | pkg/runtime/node/node.go:165-169 | holds the five shim lines of the ES-module banner, in their order (EsmShimLinesHaveNoNewline and EsmBannerLines state how the banner reads) |
| NodeRuntime.ShimImportCreateRequire | pkg/runtime/node/node.go:165 | holds the banner line importing createRequire from 'module' as topLevelCreateRequire |
| NodeRuntime.ShimRequire | pkg/runtime/node/node.go:166 | holds the banner line defining require from topLevelCreateRequire(import.meta.url) |
| NodeRuntime.ShimImportUrl | pkg/runtime/node/node.go:167 | holds the banner line importing fileURLToPath and URL from "url" under their topLevel names |
| NodeRuntime.ShimFilename | pkg/runtime/node/node.go:168 | holds the banner line defining __filename from import.meta.url |
| NodeRuntime.ShimDirname | pkg/runtime/node/node.go:169 | holds the banner line defining __dirname as the directory of import.meta.url |
| NodeRuntime.RunBuilds | pkg/runtime/node/node.go:95-189 | defines a sequence of builds: BuildStep applied to each call in turn, each starting from the state the previous one left (ContextPersists, ContextFromFirstBuild and OtherBuildsLeaveStateAlone quantify over it) |
| NodeRuntime.FirstContext | pkg/runtime/node/node.go:182-186 | defines the context the first call for an ID that gets past planning creates from its options, or none when no such call exists (ContextFromFirstBuild states that this is the context the sequence leaves) |
| NodeRuntime.DropLastSegment | pkg/runtime/node/node.go:255-256 | defines the stem: split the base name at '.', drop the last part, and join the rest with '.' (DropLastSegmentCutsAtLastDot states what this cuts) |
| NodeRuntime.HandlerStem | pkg/runtime/node/node.go:255-256 | defines the stem of a handler as DropLastSegment of its base name |
| NodeRuntime.Candidate | pkg/runtime/node/node.go:258 | defines the path probed for one extension: Join of the root, the handler's directory, and the stem followed by the extension |
| NodeRuntime.Resolve | pkg/runtime/node/node.go:253-264 | defines handler resolution as Probe over NodeExtensions, with the handler's Dir and stem (GetFile is proved equal to it) |
| NodeRuntime.OutputPath | pkg/runtime/node/node.go:117 | defines the artifact path: Join of out and ReplaceAll of Ext(rel) by the new extension in rel (the two OutputPath lemmas state its effect) |
| NodeRuntime.FilterLoaders | pkg/runtime/node/node.go:121-129 | defines the translated loader map: the user's keys whose tag is registered, mapped to the registry's loader (the FilterLoaders lemmas and TranslateLoaders state its effect) |
| NodeRuntime.EsmBanner | pkg/runtime/node/node.go:163-171 | defines the ES-module banner: the shim lines and the user's banner joined with "\n" (EsmBannerLines states what it reads as) |
| NodeRuntime.Plan | pkg/runtime/node/node.go:95-180 | defines the planning part of a build: resolve, Rel, output path, loaders and options, or the error that stops it (PlanOutcome states its cases) |
| NodeRuntime.RenderMessage | pkg/runtime/node/node.go:192-196 | defines one diagnostic: the error's text, followed by " file:line:column" when it has a location (the two Rendered lemmas state its shape) |
| NodeRuntime.RenderErrors | pkg/runtime/node/node.go:190-197 | defines the diagnostics as RenderMessage of each error, in order |
| NodeRuntime.NewContext | pkg/runtime/node/node.go:184 | defines the context esbuild creates for options: live with those options when it accepts them, nil otherwise |
| NodeRuntime.Affected | pkg/runtime/node/node.go:266-288 | defines the rebuild question: the ID has a result with a parsed metafile, and some input key's absolute path is the file |
| GoPath.Clean | pkg/runtime/node/node.go:258 | defines filepath.Clean by a scan of the '/'-separated elements that drops empty and "." elements and resolves ".." (CleanIdempotent is proved about it) |
| GoPath.CleanIdempotent | pkg/runtime/node/node.go:258 | cleaning a cleaned path changes nothing |
| GoPath.CleanElemsNormal | pkg/runtime/node/node.go:258 | Clean's scan keeps its element list normal: no empty, "." or '/'-holding element, ".." only in a leading run, and none when rooted |
| GoPath.CleanElemsOfNormal | pkg/runtime/node/node.go:258 | scanning elements that are already normal keeps them unchanged |
| GoPath.Join | pkg/runtime/node/node.go:258 | defines filepath.Join: the elements from the first non-empty one, joined with '/' and cleaned, or "" when all are empty |
| GoPath.JoinIsClean | pkg/runtime/node/node.go:258 | a non-empty Join result, such as every probed candidate, is already clean |
| GoPath.Dir | pkg/runtime/node/node.go:254 | defines filepath.Dir: the path up to and with its last '/', cleaned |
| GoPath.DirIsClean | pkg/runtime/node/node.go:254 | the directory of a path is a clean path |
| GoPath.LastSlashIsLast | pkg/runtime/node/node.go:254 | the index found holds a '/' and no later character is one; -1 means the path has no '/' |
| GoPath.Base | pkg/runtime/node/node.go:255 | defines filepath.Base: the last element after trailing '/'s are dropped, "." for the empty path and "/" for a path of only '/'s |
| GoPath.BaseIsOneElement | pkg/runtime/node/node.go:255 | the base name holds no '/' unless it is the root "/" |
| GoStrings.Join | pkg/runtime/node/node.go:256 | defines strings.Join: the parts with the separator between neighbours, "" for no parts |
| GoStrings.Split | pkg/runtime/node/node.go:255 | defines strings.Split on one character; there is always at least one part |
| GoStrings.HasPrefix | pkg/runtime/node/node.go:250 | defines strings.HasPrefix: the prefix is no longer than the string and equals its start |
| GoStrings.ReplaceAll | pkg/runtime/node/node.go:117 | defines strings.ReplaceAll as a left-to-right scan replacing non-overlapping occurrences; an empty pattern inserts the replacement around every rune (the ReplaceAll lemmas state its effect) |
| GoStrings.IntToString | pkg/runtime/node/node.go:194 | defines fmt.Sprint of an int: a '-' for negatives, then the decimal digits (ParseIntToString reads it back) |
| GoPath.Ext | pkg/runtime/node/node.go:117 | the extension is a suffix of the path and, when not empty, a '.' followed by neither '.' nor '/' |
| GoPath.ExtOfSuffix | pkg/runtime/node/node.go:117 | a path ending in such an extension has exactly that extension |
| GoStrings.ReplaceAllFirstOccurrence | pkg/runtime/node/node.go:117 | the first occurrence of the pattern is replaced, what precedes it is kept, and the scan goes on after it |
| GoStrings.ReplaceAllTwoOccurrences | pkg/runtime/node/node.go:117 | with exactly two occurrences of the pattern, both are replaced |
| GoStrings.ReplaceAllAbsent | pkg/runtime/node/node.go:117 | a pattern that does not occur leaves the path unchanged |
| GoStrings.ReplaceAllSelf | pkg/runtime/node/node.go:117 | replacing a text by itself changes nothing |
| GoStrings.SplitParts | pkg/runtime/node/node.go:255-256 | no part of a split holds the separator, and joining the parts with it gives the string back |
| GoStrings.SplitMoreThanOne | pkg/runtime/node/node.go:255-256 | a string holds the separator exactly when it splits into two or more parts |
| GoStrings.SplitJoin | pkg/runtime/node/node.go:164-171 | splitting a join of separator-free parts gives the parts back |
| GoStrings.SplitConcat | pkg/runtime/node/node.go:164-171 | a separator splits the text on its two sides independently |
| GoStrings.JoinLast | pkg/runtime/node/node.go:164-171 | a join of two or more parts is the join of all but the last, the separator, and the last part |
| GoStrings.ParseIntToString | pkg/runtime/node/node.go:194 | the decimal rendering of an int reads back as the same int |
| GoStrings.IntToStringHasNo | pkg/runtime/node/node.go:194 | the decimal rendering of an int contains no character other than '-' and digits |

## Left out

- `Run`, `Worker.Stop` and `Worker.Logs` (node.go:216-247, 54-79) start, signal and pipe OS
  processes. They are outside this model.
- JSON decoding of the node properties (node.go:96-97) is not modelled: `NodeProperties`
  arrives already decoded. Decoding ignores errors, so missing fields take Go's zero values.
- The redundant first `filepath.Rel` call (node.go:103), whose result is discarded, is not
  modelled.
- `os.Stat`, `filepath.Rel`, `filepath.Abs`, `esbuild.Context` and `Rebuild` are parameters.
  esbuild's bundling itself is not modelled.
- Metafile: an unparsable metafile is `None`. A parsed metafile without an "inputs" object
  makes the Go type assertion panic (node.go:277). The model has no such case: the metafile
  is the set of its input keys.
- The `plugins` property is modelled as the plugin reference it names. The esbuild plugin it
  builds (`plugin(...)`) is not part of this model.
- When `esbuild.Context` fails, the source stores a nil context, and `Rebuild` on it panics
  (node.go:184-188). The model stores `Nil` and returns `Failure(NilContext)` with the results
  unchanged, on that build and every later build of the same ID.
- The `node_modules` symlink (node.go:205-208) and the `slog` logging (node.go:119, 198-203)
  are effects outside the model.
- Concurrency: the Go maps are not synchronized. The model treats builds as sequential.
- Strings are sequences of runes, and paths follow Unix `path/filepath` rules only (no volume
  names).
- `pkg/project/add.go` is not part of this model.
- The `Loader` type holds only the eleven loaders the registry names. esbuild's `api.Loader`
  has more (LoaderNone, LoaderDefault, LoaderCopy, LoaderEmpty, LoaderGlobalCSS,
  LoaderLocalCSS), but the adapter never sets any of them.
- NodeRuntime.Options: `plugins` is the list holding the plugin reference, not an esbuild
  plugin value.
