/** The plugin itself, `main` (index.js:175-252): a transform that, for each file,
    normalises its options, decides between buffer and stream output, renames the
    file when `outFile` is set and links the file's lines through a root session. */
module Plugin {
  import opened Js
  import opened Configuration
  import opened Linker
  import opened Sessions

  /** A Vinyl file as the plugin sees it: its path, its base directory, what its
      contents are, and the lines `split()` would cut them into. */
  datatype GulpFile = GulpFile(path: string, base: string, contents: Contents, lines: seq<string>)

  /** What leaves the transform for one file: the file untouched, nothing (an
      unsupported file is reported as an error), or the linked file under its
      output path, delivered as a buffer or a stream, with the chunks written to it
      and whether linking ended without a read error. */
  datatype Emitted =
    | Forwarded(file: GulpFile)
    | Rejected
    | Linked(path: string, delivery: Delivery, chunks: seq<string>, ok: bool)

  class TsLink {
    /** The closure variable `options`, which the transform reassigns on every file. */
    var options: PluginArg
    /** The files inject directives can read, `path.resolve` and `path.dirname`. */
    const fs: FileSystem
    /** `path.join` */
    const join: (string, string) -> string
    /** How deep inject directives may nest. */
    const fuel: nat

    ghost predicate Valid()
      reads this
    {
      Readable(NormalizeArgument(options))
    }

    /** The configuration the next file will be linked with. */
    ghost function Configured(): Config
      reads this
      requires Valid()
    {
      SetConfiguration(NormalizeArgument(options))
    }

    /** `tsLink(options)` */
    constructor (arg: PluginArg, fs: FileSystem, join: (string, string) -> string, fuel: nat)
      requires Readable(NormalizeArgument(arg))
      ensures Valid() && options == arg
      ensures this.fs == fs && this.join == join && this.fuel == fuel
    {
      options := arg;
      this.fs := fs;
      this.join := join;
      this.fuel := fuel;
    }

    /** The transform function for one file. Every file is linked with the same
        configuration: the one the plugin's argument normalises to, although
        `options` is overwritten with that configuration on the first file. */
    method Transform(file: GulpFile) returns (r: Emitted)
      requires Valid()
      modifies this
      ensures Valid() && Configured() == old(Configured())
      ensures file.contents == NullContents ==> r == Forwarded(file) && options == old(options)
      ensures r.Rejected? <==> file.contents == OtherContents
      ensures r.Linked? <==> file.contents in {BufferContents, StreamContents}
      ensures r.Linked? ==>
                var cfg := old(Configured());
                var t := Run(EnvOf(cfg, fs), file.base, fuel, false, file.lines);
                r.path == OutputPath(cfg, join, file.path, file.base) &&
                r.delivery == Deliver(file.contents, cfg.outputAs) &&
                r.chunks == t.out && r.ok == !t.failed
    {
      if file.contents == NullContents {
        return Forwarded(file);
      }
      var cfg := SetConfiguration(NormalizeArgument(options));
      options := Given(AsOptions(cfg));
      ConfigurationRoundTrip(cfg);
      var delivery := Deliver(file.contents, cfg.outputAs);
      if delivery == Unsupported {
        return Rejected;
      }
      var path := OutputPath(cfg, join, file.path, file.base);
      // the root session resolves its directives against the file's base directory
      var sink := new Sink();
      var session := new Session(EnvOf(cfg, fs), file.path, file.base, sink, fuel);
      var ok, _ := Link(session, file.lines);
      r := Linked(path, delivery, sink.written, ok);
    }
  }
}
