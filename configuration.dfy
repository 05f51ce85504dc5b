/** The plugin's options: how the argument of `tsLink(...)` is normalised into a
    configuration, and the per-file decisions `main` takes from it (index.js:15-36,
    index.js:175-221). */
module Configuration {
  import opened Js

  /** The `outputAs` setting: `'input'`, `'buffer'` or `'stream'`. */
  datatype OutputAs = MatchInput | ForceBuffer | ForceStream

  /** The normalised configuration built by `setConfiguration`. */
  datatype Config = Config(
    outFile: Option<string>,
    outputAs: OutputAs,
    newLine: string,
    preserveImport: bool,
    preserveExport: bool)

  /** The options object as given by the caller: each property any JavaScript value. */
  datatype Options = Options(
    outFile: Value,
    outputAs: Value,
    newLine: Value,
    preserveImport: Value,
    preserveExport: Value)

  /** `{}`: every property undefined. */
  const EmptyOptions := Options(Undefined, Undefined, Undefined, Undefined, Undefined)

  /** The argument handed to the plugin: a string, an object, or anything else
      (undefined, null, a number, a boolean), which has none of the option properties. */
  datatype PluginArg = Shorthand(name: string) | Given(options: Options) | NoOptions

  /** The option shapes `setConfiguration` can read: a truthy `outputAs` must be a
      string, since `toLowerCase` is called on it. */
  predicate Readable(o: Options) {
    !Truthy(o.outputAs) || o.outputAs.Str?
  }

  /** A configuration `setConfiguration` can produce: an output name, when set, has
      non-white-space content. */
  predicate Normalized(cfg: Config) {
    cfg.outFile.Some? ==> !AllSpace(cfg.outFile.value)
  }

  function Name(a: OutputAs): string {
    match a
    case MatchInput => "input"
    case ForceBuffer => "buffer"
    case ForceStream => "stream"
  }

  /** The string shorthand (index.js:183-185) and `options || {}` (index.js:19). */
  function NormalizeArgument(arg: PluginArg): (o: Options)
    ensures arg.Shorthand? ==> o.outFile == Str(arg.name) && o.(outFile := Undefined) == EmptyOptions
    ensures arg.NoOptions? ==> o == EmptyOptions
    ensures arg.Given? ==> o == arg.options
  {
    match arg
    case Shorthand(name) => EmptyOptions.(outFile := Str(name))
    case Given(options) => options
    case NoOptions => EmptyOptions
  }

  /** `outFile` (index.js:22): kept only when it is a string with some
      non-white-space content. */
  function ReadOutFile(v: Value): (r: Option<string>)
    ensures r.Some? <==> v.Str? && !AllSpace(v.s)
    ensures r.Some? ==> r.value == v.s
  {
    if v.Str? && Trim(v.s) != [] then Some(v.s) else None
  }

  /** `outputAs` (index.js:23, 29-33): lower-cased and trimmed, and kept only when
      it names one of the three settings. */
  function ReadOutputAs(v: Value): (r: OutputAs)
    requires !Truthy(v) || v.Str?
    ensures r != MatchInput <==>
              v.Str? && (Trim(ToLower(v.s)) == "buffer" || Trim(ToLower(v.s)) == "stream")
    ensures r != MatchInput ==> Trim(ToLower(v.s)) == Name(r)
  {
    var requested := if Truthy(v) then Trim(ToLower(v.s)) else "";
    if requested == "buffer" then ForceBuffer
    else if requested == "stream" then ForceStream
    else MatchInput
  }

  /** `setConfiguration`: defaults for everything not given in a usable form. */
  function SetConfiguration(o: Options): (cfg: Config)
    requires Readable(o)
    ensures Normalized(cfg)
    ensures cfg.newLine == (if o.newLine.Str? then o.newLine.s else "\r\n")
    ensures cfg.outFile.Some? <==> o.outFile.Str? && !AllSpace(o.outFile.s)
    ensures cfg.outFile.Some? ==> cfg.outFile.value == o.outFile.s
    ensures cfg.preserveImport == Truthy(o.preserveImport)
    ensures cfg.preserveExport == Truthy(o.preserveExport)
    ensures cfg.outputAs == ReadOutputAs(o.outputAs)
    ensures cfg.outputAs != MatchInput <==>
              o.outputAs.Str? && (Trim(ToLower(o.outputAs.s)) == "buffer" || Trim(ToLower(o.outputAs.s)) == "stream")
  {
    Config(
      outFile := ReadOutFile(o.outFile),
      outputAs := ReadOutputAs(o.outputAs),
      newLine := if o.newLine.Str? then o.newLine.s else "\r\n",
      preserveImport := Truthy(o.preserveImport),
      preserveExport := Truthy(o.preserveExport))
  }

  /** The options object that spells out a configuration. */
  function AsOptions(cfg: Config): Options {
    Options(
      outFile := if cfg.outFile.Some? then Str(cfg.outFile.value) else Null,
      outputAs := Str(Name(cfg.outputAs)),
      newLine := Str(cfg.newLine),
      preserveImport := Bool(cfg.preserveImport),
      preserveExport := Bool(cfg.preserveExport))
  }

  lemma LowerTrimName(a: OutputAs)
    ensures Trim(ToLower(Name(a))) == Name(a)
  {
    var n := Name(a);
    forall i | 0 <= i < |n| ensures 'a' <= n[i] <= 'z' && LowerChar(n[i]) == n[i] {
    }
    assert ToLower(n) == n;
    assert !IsSpace(n[0]) && !IsSpace(n[|n| - 1]);
  }

  /** Normalising is idempotent: a normalised configuration, given back as options,
      comes out unchanged. */
  lemma ConfigurationRoundTrip(cfg: Config)
    requires Normalized(cfg)
    ensures Readable(AsOptions(cfg)) && SetConfiguration(AsOptions(cfg)) == cfg
  {
    LowerTrimName(cfg.outputAs);
  }

  /** The string shorthand names the output file and leaves every other option at
      its default; a blank name is ignored. */
  lemma ShorthandConfiguration(name: string)
    ensures Readable(NormalizeArgument(Shorthand(name)))
    ensures SetConfiguration(NormalizeArgument(Shorthand(name))) ==
            Config(if AllSpace(name) then None else Some(name), MatchInput, "\r\n", false, false)
  {
  }

  /** What the incoming file holds (`isNull`, `isBuffer`, `isStream`, or none of them). */
  datatype Contents = NullContents | BufferContents | StreamContents | OtherContents

  /** What the plugin does with a file: pass it on untouched, emit its linked content
      as one buffer or as a stream, or report an unsupported file. */
  datatype Delivery = PassThrough | AsBuffer | AsStream | Unsupported

  /** The buffer-or-stream decision of `main` (index.js:178-210). */
  function Deliver(kind: Contents, outputAs: OutputAs): (d: Delivery)
    ensures d == PassThrough <==> kind == NullContents
    ensures d == Unsupported <==> kind == OtherContents
    ensures kind in {BufferContents, StreamContents} ==>
              (d == AsBuffer <==> outputAs == ForceBuffer || (outputAs == MatchInput && kind == BufferContents)) &&
              (d == AsStream <==> outputAs == ForceStream || (outputAs == MatchInput && kind == StreamContents))
  {
    match kind
    case NullContents => PassThrough
    case BufferContents =>
      // a buffer comes out as a buffer unless a stream is asked for
      (match outputAs
       case ForceStream => AsStream
       case _ => AsBuffer)
    case StreamContents =>
      // a stream comes out as a stream unless a buffer is asked for
      (match outputAs
       case ForceBuffer => AsBuffer
       case _ => AsStream)
    case OtherContents => Unsupported
  }

  /** The output file name (index.js:218-221): renamed into the file's base
      directory when `outFile` is set; `join` stands for Node's `path.join`. */
  function OutputPath(cfg: Config, join: (string, string) -> string, path: string, base: string): (p: string)
    ensures cfg.outFile.None? ==> p == path
    ensures cfg.outFile.Some? ==> p == join(base, cfg.outFile.value)
  {
    if cfg.outFile.Some? then join(base, cfg.outFile.value) else path
  }

  /** `tsLink('name')` renames every linked file to `name` in its base directory,
      unless `name` is blank, when each file keeps its own path. */
  lemma ShorthandRenames(name: string, join: (string, string) -> string, path: string, base: string)
    ensures OutputPath(SetConfiguration(NormalizeArgument(Shorthand(name))), join, path, base) ==
            if AllSpace(name) then path else join(base, name)
  {
    ShorthandConfiguration(name);
  }
}
