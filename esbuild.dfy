/**
  The values of the esbuild Go API that the node runtime builds and reads.
  esbuild itself (creating a build context, running a rebuild) is outside this
  model; these are only the shapes of its options and results.
*/
module Esbuild {
  import opened Wrappers

  /**
    The loaders the adapter's registry names. esbuild's `api.Loader` has more
    (LoaderNone, LoaderDefault, LoaderCopy, LoaderEmpty, LoaderGlobalCSS,
    LoaderLocalCSS); the adapter never sets any of them, so they are not here.
  */
  datatype Loader =
    | LoaderJS | LoaderJSX | LoaderTS | LoaderTSX | LoaderCSS | LoaderJSON
    | LoaderText | LoaderBase64 | LoaderFile | LoaderDataURL | LoaderBinary

  datatype Format = FormatDefault | FormatIIFE | FormatCommonJS | FormatESModule

  datatype Platform = PlatformBrowser | PlatformNode | PlatformNeutral

  datatype SourceMap = SourceMapNone | SourceMapInline | SourceMapLinked | SourceMapExternal | SourceMapInlineAndExternal

  /** esbuild's `Target` is a `uint8` enumeration whose zero value means "not set". */
  type Target = t: int | 0 <= t < 256

  const DefaultTarget: Target := 0
  const ESNext: Target := 1

  datatype Location = Location(file: string, line: int, column: int)

  /** An error or warning esbuild reports, with its source location when known. */
  datatype Message = Message(text: string, location: Option<Location>)

  /**
    What a rebuild returns. The metafile is given already parsed: the key set of
    its "inputs" object, or None when the metafile text is not valid JSON.
  */
  datatype BuildResult = BuildResult(errors: seq<Message>, warnings: seq<Message>, metafile: Option<set<string>>)

  /** The subset of esbuild's BuildOptions the node runtime sets. Plugins are named by their module path. */
  datatype BuildOptions = BuildOptions(
    entryPoints: seq<string>,
    platform: Platform,
    external: seq<string>,
    plugins: seq<string>,
    sourcemap: SourceMap,
    loader: map<string, Loader>,
    keepNames: bool,
    bundle: bool,
    splitting: bool,
    metafile: bool,
    write: bool,
    outfile: string,
    minifyWhitespace: bool,
    minifySyntax: bool,
    minifyIdentifiers: bool,
    format: Format,
    target: Target,
    mainFields: seq<string>,
    banner: map<string, string>)

  /**
    A build context: the options it was created with, or Nil when esbuild
    refused to create one (esbuild's `Context` then returns a nil context).
  */
  datatype BuildContext = Live(options: BuildOptions) | Nil
}
