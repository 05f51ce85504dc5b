# gulp-ts-link, modelled in Dafny

gulp-ts-link is a gulp plugin. It links TypeScript sources into one file by
following comment directives. Each file is read line by line:

- An `// @tslink:inject <path>` line is replaced by the linked content of the
  file it names.
- `// @tslink:emit <text>` writes `<text>`.
- `// @tslink:startOmit` and `// @tslink:endOmit` bracket lines that are left out.
- `import` lines are dropped unless `preserveImport` is set.
- Single-name `export { x }` and `export *` lines are dropped unless
  `preserveExport` is set.
- Any other line that starts with `export` followed by white space loses its
  `export` keyword.

Everything else is copied, each line followed by the configured `newLine`.

The project models `index.js`:

- **`js.dfy`, module `Js`.** The JavaScript primitives the plugin relies on:
  the `\s` class, `trim`, `toLowerCase` (on the words it compares) and truthiness.
- **`configuration.dfy`, module `Configuration`.**
  - `setConfiguration` and the string shorthand for options.
  - The buffer/stream output decision of `main`.
  - The `outFile` rename.
- **`patterns.dfy`, module `Patterns`.** The anchored regular expressions of
  `readFromBuffer`, as token sequences.
  - A greedy matcher, `Match`.
  - The backtracking semantics of ECMAScript regular expressions, `Leaves`.
  - A proof that the matcher finds exactly what `test` and `replace` find, on
    every expression where no repetition could take what follows it.
- **`classifier.dfy`, module `Classifier`.** The eight expressions of `rx`, and
  the if/else chain of `readFromBuffer` as the function `Classify`. It maps the
  omit flag, the configuration and a line to an action: write, drop, move the
  omit flag, or inject. Lemmas give one rule per kind of line.
- **`linker.dfy`, module `Linker`.** The specification of a link session:
  - `Run` is what a session writes for the lines it takes.
  - Nested sessions for inject directives, bounded by a nesting depth `fuel`.
  - A read error is meant to stop every session up to the root.
  - Lemmas: FIFO order, the splicing of injected files, omit regions, plain
    copies, and self-injection.
- **`session.dfy`, module `Sessions`.** `linkFile` as the stateful object it is.
  - A `Session` holds the line queue and the flags `bufferBusy`, `doneReading`,
    `completed` and `ignoringLines`.
  - It has `data`/`end` handlers and the `readFromBuffer`/`finishBufferRead`
    drain, written as a loop.
  - An inject directive starts a nested session and leaves the drain waiting,
    with `bufferBusy` still set. Lines that arrive meanwhile only queue up, and
    `end` only records `doneReading`. The nested session's completion callback
    (the parent's `finishBufferRead`) resumes the drain; its error callback (the
    parent's `errorHandler`) stops the parent.
  - It writes into a `Sink` shared with the nested sessions it starts.
  - Every method is proved against `Linker.Run`. Whenever a session is not
    waiting, its sink holds exactly what `Run` makes of the lines received so
    far, whatever order the events came in.
  - `Link` and `AwaitNested` drive one run of the event loop. The events of a
    file and of the nested sessions it starts interleave there.
- **`plugin.dfy`, module `Plugin`.** `main`'s transform, as a class whose
  `options` variable it reassigns on every file. It is proved to link every file
  with the same configuration, and to deliver each file as `Deliver`,
  `OutputPath` and `Run` say.

The session applies the line rule it is given (`Env.rule`). The plugin gives it
`Rules(cfg)`, which is `Classify` under the normalised configuration. The rule
lemmas of `Classifier` therefore apply to every line a plugin session takes.

## Model

| member | source | states |
|---|---|---|
| Js.TrimStart | index.js:102-109 | the leading `\s*` of every expression: what is left is empty or starts with a non-white-space character, and `TrimStartRemovesSpace` shows that only white space was removed |
| Js.ToLower | index.js:30 | `toLowerCase` keeps the length, leaves no upper-case ASCII letter, and changes a character only by lower-casing an ASCII letter |
| Js.Truthy | index.js:25-26 | `!!v` is false exactly for `undefined`, `null`, `false`, the empty string, and the falsy values of other types |
| Js.Trim | index.js:22 | `trim()` is a slice of the string with only white space before and after it; it is empty exactly when the string is all white space, and otherwise starts and ends with non-white-space |
| Configuration.NormalizeArgument | index.js:183-185 | a string argument becomes `{outFile: name}` with every other option undefined; anything that is not an object becomes `{}`; an object is kept |
| Configuration.ReadOutFile | index.js:22 | `outFile` is kept exactly when it is a string with some non-white-space content, and then unchanged |
| Configuration.ReadOutputAs | index.js:29-33 | `outputAs` is `buffer` or `stream` exactly when the trimmed, lower-cased string names one; otherwise it is `input` |
| Configuration.SetConfiguration | index.js:18-36 | the normalised configuration: `newLine` defaults to `"\r\n"` unless a string is given; `outFile` rules; booleans are the truthiness of the preserve options; `outputAs` is what `ReadOutputAs` reads from the option |
| Configuration.ConfigurationRoundTrip | index.js:186 | normalising a normalised configuration again gives it back, so re-normalising `options` on every file changes nothing |
| Configuration.ShorthandConfiguration | index.js:183-186 | `tsLink('name')` names the output file (ignored when blank) and leaves every other setting at its default |
| Configuration.Deliver | index.js:178-210 | null files pass through, unsupported files are rejected; a buffer is delivered as a buffer unless `stream` is asked for, a stream as a stream unless `buffer` is asked for |
| Configuration.OutputPath | index.js:219-221 | with `outFile` set the file is renamed to `join(base, outFile)`, otherwise its path is kept |
| Configuration.ShorthandRenames | index.js:219-221 | with the string shorthand `tsLink('name')` every linked file is renamed to `join(base, name)`, unless `name` is blank, when it keeps its path |
| Patterns.BindingLength | index.js:106 | `[^}\s]+` greedily takes the longest run free of white space and `}`, and stops only at one of them or the end |
| Patterns.LineLength | index.js:104-105 | `.*` greedily takes the longest run free of line terminators |
| Patterns.Match | index.js:101-110 | what a match leaves is no longer than the line; `GreedyMatchIsExact` ties it to the expression's semantics |
| Patterns.GreedyMatchIsExact | index.js:101-110 | on a separated expression: the greedy matcher succeeds exactly when the backtracking semantics has a match; what it leaves is a match, and no match leaves less, so it is the match `replace` removes |
| Classifier.RegexesSeparated | index.js:102-109 | all eight expressions of `rx` are separated, so `GreedyMatchIsExact` applies to each |
| Classifier.IsStartOmit | index.js:141 | `rx.startOmit.test(line)` succeeds exactly when the expression matches the line in the backtracking semantics |
| Classifier.IsEndOmit | index.js:145 | `rx.endOmit.test(line)` succeeds exactly when the expression matches the line in the backtracking semantics |
| Classifier.IsSingleExport | index.js:128 | `rx.export.test(line)` succeeds exactly when the expression matches the line in the backtracking semantics |
| Classifier.IsStarExport | index.js:128 | `rx.starExport.test(line)` succeeds exactly when the expression matches the line in the backtracking semantics |
| Classifier.IsImport | index.js:126 | `rx.import.test(line)` succeeds exactly when the expression matches the line in the backtracking semantics |
| Classifier.InjectTarget | index.js:112-113 | `rx.inject.test(line)` succeeds exactly when the inject expression matches the line in the backtracking semantics, and what is left is what its longest match leaves, the text `replace` keeps |
| Classifier.EmitText | index.js:136-137 | `rx.emit.test(line)` succeeds exactly when the emit expression matches, and what is left is what its longest match leaves |
| Classifier.ExportTail | index.js:130-132 | `rx.exportObj.test(line)` succeeds exactly when the `export` expression matches, and what is left is what its longest match leaves |
| Classifier.Classify | index.js:112-151 | a line is injected exactly when it is an inject directive outside an omit region, and then its target is the text after the directive; the omit flag is set only by a `startOmit` line and cleared only by an `endOmit` line; inside an omit region every line is dropped or moves the flag |
| Classifier.DirectivesExclusive | index.js:102-105 | no line is two kinds of directive |
| Classifier.DirectivesAreNoStatements | index.js:102-109 | no directive line matches the import or any export expression |
| Classifier.ImportIsNoExport | index.js:106-109 | no import line matches an export expression |
| Classifier.PlainLineRule | index.js:148-151 | a line no expression matches is written unchanged outside an omit region and dropped inside one, whatever the configuration |
| Classifier.ImportRule | index.js:126 | an import line is dropped unless `preserveImport` is set; then it is written unchanged outside omit regions |
| Classifier.ExportStatementRule | index.js:128 | a single-name `export {x}` or an `export *` line is dropped unless `preserveExport` is set; then it is written unchanged outside omit regions |
| Classifier.ExportDeclarationRule | index.js:130-134 | any other line that starts with `export` followed by white space, outside an omit region is written with `export` and the white space around it removed, whatever `preserveExport` says |
| Classifier.EmitRule | index.js:136-139 | an emit directive outside an omit region writes only the text after the marker and its one white-space character; inside one it is dropped |
| Classifier.OmitDirectiveRule | index.js:141-147 | `startOmit` sets the omit flag and `endOmit` clears it, in a region or not; neither line is written |
| Classifier.InjectRule | index.js:112-113 | an inject directive outside an omit region injects the path fragment after it |
| Classifier.OmittedLinesAreSilent | index.js:112-151 | in an omit region every line is dropped or moves the omit flag, and only an `endOmit` line clears it |
| Classifier.EmitCanonical | index.js:103 | `// @tslink:emit <text>` writes exactly `<text>` |
| Classifier.InjectCanonical | index.js:102 | `// @tslink:inject <path>` injects `<path>` |
| Classifier.OmitKeywordBoundary | index.js:104 | `startOmit` is recognised in any case, and only when the end of the line or white space follows it |
| Classifier.EndOmitKeywordBoundary | index.js:105 | `endOmit` is recognised in any case, and only when the end of the line or white space follows it, so `// @tslink:endomitx` does not close a region |
| Classifier.BraceExportTail | index.js:108 | `export <decl>` with `<decl>` starting with `{` is a declaration export that leaves `<decl>`, and no `export *` |
| Classifier.ExportListQuirk | index.js:106 | `export { x, y };` is not a single-name export: it falls through and is written as `{ x, y };`, whatever `preserveExport` says |
| Classifier.SpacedExportRule | index.js:106-128 | `export { x };`, with spaces inside the braces and a semicolon after, is a single-name export: dropped unless `preserveExport` is set, and written unchanged outside omit regions when it is |
| Classifier.PackedExportIsSingle | index.js:106 | `export {x}` with no white space in the braces is a single-name export, even when `x` is a list such as `a,b` |
| Linker.Step | index.js:112-153 | one line moves the omit flag only when the rule says `SetOmit`; only an inject directive can fail, and one whose file is unreadable or beyond the nesting bound fails at once writing nothing; any other line writes at most one chunk |
| Linker.Run | index.js:90-171 | lines that are no inject directive never fail and write at most one chunk each |
| Linker.LinkFile | index.js:112-121 | a nested session on a file without inject directives completes and writes at most one chunk per line |
| Linker.RunAppend | index.js:62-73 | lines are taken first in, first out: the outcome of `a + b` is that of `a`, then `b` from the state `a` left, unless `a` failed |
| Linker.FailureIgnoresLaterLines | index.js:78-84 | after a read error no further line has any effect |
| Linker.PlainLinesCopied | index.js:86-88 | a file of lines no expression matches is copied line by line, in order, each line once and followed by `newLine` |
| Linker.OmittedRegionSilent | index.js:141-150 | lines without `endOmit`, taken while omitting, write nothing and inject nothing, and the session stays in the region |
| Linker.OmitBlock | index.js:141-147 | a `startOmit` line, any lines without `endOmit`, and an `endOmit` line write nothing, and leave the omit flag off |
| Linker.InjectSplice | index.js:112-121 | an inject directive splices the injected file's whole output at its place: earlier output, then the child's (resolved against the parent's directory, started with the omit flag off), then later output |
| Linker.SpliceNested | index.js:112-121 | for any line rule: a line that starts a nested session which completes splices that session's whole output between the earlier and the later output |
| Linker.RunFuelMonotone | index.js:121 | the output of a session that completes does not depend on how much deeper nesting would have been allowed |
| Linker.SelfInjectNeverCompletes | index.js:112-121 | a file whose first line injects the file itself never completes, whatever nesting depth is allowed |
| Linker.SelfStartNeverCompletes | index.js:112-121 | for any line rule: a file whose first action injects the file itself never completes, whatever nesting depth is allowed |
| Sessions.Sink.Write | index.js:86-88 | `writeTo.write` appends one chunk to the output |
| Sessions.Session.constructor | index.js:56-60 | a new session has an empty queue and every flag cleared |
| Sessions.Session.Outcome | index.js:62-73 | whenever the session is not waiting for a nested session, the sink holds exactly what `Run` makes of every line received, and the session has failed exactly when `Run` says so |
| Sessions.Session.NestedOutcome | index.js:112-121 | while the session waits, its trace is what it did before the inject directive followed by the nested session's whole trace, with the omit flag unchanged |
| Sessions.Session.OnData | index.js:62-67 | the `data` handler never fires the callback. While a nested session is awaited it only queues the line and changes nothing else, the sink included. Otherwise it drains, and afterwards the output is `Run` of all lines received unless a new nested session is awaited. A nested session is started exactly when the session was not waiting or stopped and the line is an inject directive of a readable file within the nesting bound |
| Sessions.Session.OnEnd | index.js:68-73 | the `end` handler writes nothing. While a nested session is awaited it only sets `doneReading`. Otherwise the session completes, and the callback fires exactly when no read error stopped it |
| Sessions.Session.OnNestedCompleted | index.js:157-171 | the nested session's `onCompleted`, called once it has written its whole output: the wait ends and the drain resumes, firing the callback exactly when it completes without error; it starts a nested session exactly when the queued lines reach an inject directive of a readable file before any read error |
| Sessions.Session.ErrorHandler | index.js:78-84 | the nested session's `onError`, called after its read error: the session is stopped for good, completed and failed, without firing its callback, and its output is `Run` of the lines received |
| Sessions.Session.ReadFromBuffer | index.js:90-99 | `readFromBuffer` entered from a handler sets `bufferBusy` and drains; it starts a nested session exactly when the queued lines reach an inject directive of a readable file before any read error; with an empty queue it writes nothing and starts nothing |
| Sessions.Session.Drain | index.js:90-171 | the drain takes lines until the queue is empty, a read error stops it, or a nested session is started and awaited. Otherwise it completes (firing the callback, with an empty queue, only after `end`) or goes idle. The state stays consistent with `Run`. It stops to start a nested session exactly when the queued lines, taken from the current omit flag, reach an inject directive of a readable file within the nesting bound before any read error |
| Sessions.Session.HandleLine | index.js:99-101 | taking one line shifts it off the queue and extends the output as `Run` does for one more line, or leaves the session waiting on the nested session that line starts. It waits exactly when the line is an inject directive, under the current omit flag, of a readable file within the nesting bound; every other line extends the output inline |
| Sessions.Session.Apply | index.js:112-153 | the effect of one line on the sink, the omit flag and the error flags is `Step`'s. A nested session is started exactly when the line is an inject directive of a readable file within the nesting bound: a fresh session one level deeper, on the same sink, and the session waits |
| Sessions.Link | index.js:38-73 | a session fed a file's lines and then `end`, its nested sessions run as they are awaited, writes `Run` of those lines into the shared sink. It reports whether it completed, and fires its callback exactly once if it did and never otherwise |
| Sessions.AwaitNested | index.js:121 | the nested sessions are run one after another until none is awaited; the callback fires at most once, and only on completion without error |
| Sessions.Nested | index.js:121 | a nested session runs on its own file, then calls back its parent with `onCompleted` or `onError` as its outcome says |
| Plugin.TsLink.constructor | index.js:175-177 | the plugin keeps its argument as `options` |
| Plugin.TsLink.Transform | index.js:177-247 | null files pass through with `options` untouched; unsupported files are rejected; every other file is linked with the one configuration the argument normalises to, renamed by `OutputPath`, delivered as `Deliver` decides, and holds `Run` of its lines from its base directory |

## Left out

- Stream and file I/O are not modelled: `fs.createReadStream`, `split()`,
  `through2`, `ReadableStream`, `Buffer.concat`, and `PluginError` messages and
  emission. A file is given as its already-split lines, `GulpFile.lines` for the
  main file and `FileSystem.files` for injected ones. The written chunks are kept
  as a sequence rather than joined into a buffer.
- Node's `path.resolve`, `path.dirname` and `path.join` are parameters
  (`FileSystem.resolve`, `FileSystem.dirname`, `TsLink.join`) and are not modelled.
- `errorHandler` (index.js:78-84) is modelled by its evident intent: the error
  travels up through every enclosing session, each is marked completed without
  firing its callback, and the root reports failure (`Linked.ok` false).
  - As written, its first statement calls `readFrom.close()`.
  - The objects `linkFile` receives (index.js:115-119, 212-216) have no `close`
    method, so the handler throws before `onError` runs or any flag is set.
  - A file that cannot be read raises its error on the stream that
    `fs.createReadStream` returns (index.js:43). The `error` listener (index.js:74)
    is on the `split()` stream that it is piped into (index.js:54), and `pipe` does
    not forward errors, so the error is an uncaught exception that never reaches
    `errorHandler`.
  - The root session's `onError` callback (index.js:224-225) calls `this.emit`,
    and `this` is undefined there under `'use strict'` (index.js:1).
  - Apply: a file that cannot be read fails the session at once, when its inject
    directive is taken. In the source the failure would come later, from the
    nested session's stream, with lines queued in between; the output and the
    outcome are the same.
- Event-loop asynchrony: each event is a method call, and the methods allow the
  events of a session and of its nested sessions in any order.
  - `Link` drives one such order. All of a file's lines arrive before the
    nested sessions it starts run, and the nested sessions then run one after
    another.
  - Other orders are covered only by the contracts of the individual event
    methods and by `Session.Outcome`. No driver is proved for them.
- Linker.Step: nesting is bounded by `fuel`, and an inject beyond the bound is
  treated like a file that cannot be read.
  - The source has no bound. A self-injecting file recurses without end there.
  - `Linker.SelfInjectNeverCompletes` shows that no bound lets such a file
    complete.
  - `Linker.RunFuelMonotone` shows that the bound never changes the output of a
    session that completes.
- Js.ToLower folds ASCII letters only.
  - For the `/i` expressions this is exact. Without the `u` flag, ECMAScript's
    Canonicalize never maps a character at or above 128 to one below it, so only
    the two cases of an ASCII letter match it. For example, `@tslin` followed by
    U+212A KELVIN SIGN is no directive, in the source or in the model.
  - `toLowerCase` in `outputAs` (index.js:30) also maps U+212A to `k`, and U+0130
    to `i` followed by U+0307. Neither can make the value read as `input`,
    `buffer` or `stream`: those words hold no `k`, and U+0307 is not white space
    that `trim` would remove.
- Configuration.SetConfiguration requires a truthy `outputAs` to be a string. The
  source calls `toLowerCase` on it and would throw on any other truthy value.
- JavaScript values other than strings, booleans, `undefined` and `null` are
  modelled only through their truthiness (`Value.Other`). That is all the plugin
  looks at.
- Patterns.Match consumes `($|\s.*)` greedily, although only `test` is ever
  applied to the two expressions that contain it.
- Test expectations for a `relPath` directive and a `base` option have nothing to
  model: `index.js` implements neither.
