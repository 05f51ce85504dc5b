/** What one link session produces, as a function of the lines it takes: the
    specification the imperative sessions of session.dfy are proved against.

    A session takes its lines in order (index.js:62-73, 90-101, 157-171), classifies
    each one (index.js:101-153) and writes to the shared sink, moves its omit flag,
    or runs a nested session on the injected file and resumes only when that session
    completes (index.js:112-121). A nested file that cannot be read is meant to stop
    the link: the nested session is given the parent's `errorHandler` as its
    `onError` (index.js:121), so the error is meant to travel up, each session on the
    way marking itself completed without firing its callback (index.js:78-84), and
    no further line is taken anywhere. That intended behaviour is what `failed`
    models. */
module Linker {
  import opened Js
  import opened Configuration
  import opened Classifier

  /** The files a session can open, each already split into lines, and the two
      path functions of Node the linker calls: `resolve(dir, fragment)` for
      `path.resolve` and `dirname(path)` for `path.dirname`. */
  datatype FileSystem = FileSystem(
    files: map<string, seq<string>>,
    resolve: (string, string) -> string,
    dirname: string -> string)

  /** How a session treats one line, given its omit flag. */
  type Rule = (bool, string) -> Action

  /** The if/else chain of `readFromBuffer` under the configuration `cfg`. */
  function Rules(cfg: Config): Rule {
    (omitting, line) => Classify(cfg, omitting, line)
  }

  /** What stays fixed across a link: the line rule, the line ending `writeLine`
      appends, and the files. */
  datatype Env = Env(rule: Rule, newLine: string, fs: FileSystem)

  /** The environment the plugin links under, for the configuration `cfg`. */
  function EnvOf(cfg: Config, fs: FileSystem): Env {
    Env(Rules(cfg), cfg.newLine, fs)
  }

  /** What a session has done with the lines it has taken: the chunks written to
      the sink, its omit flag afterwards, and whether a read error stopped it. */
  datatype Trace = Trace(out: seq<string>, omitting: bool, failed: bool)

  /** `first`, then `rest` from where `first` left off. */
  function Join(first: Trace, rest: Trace): (t: Trace) {
    Trace(first.out + rest.out, rest.omitting, rest.failed)
  }

  /** The line, taken under the omit flag `omitting`, is an inject directive whose
      file can be read within the nesting bound: it starts a nested session. */
  predicate StartsNested(env: Env, dir: string, fuel: nat, omitting: bool, line: string) {
    var action := env.rule(omitting, line);
    action.Inject? && fuel > 0 && env.fs.resolve(dir, action.target) in env.fs.files
  }

  /** One line taken from the queue (one pass of `readFromBuffer`) in the session
      resolving against `dir`, with `fuel` more levels of nesting allowed. Only a
      line the rule marks `SetOmit` moves the omit flag; only an inject directive
      can fail, and one that starts no nested session does, writing nothing; any
      other line writes at most one chunk. */
  function Step(env: Env, dir: string, fuel: nat, omitting: bool, line: string): (t: Trace)
    decreases fuel, 0
    ensures t.omitting == if env.rule(omitting, line).SetOmit? then env.rule(omitting, line).on else omitting
    ensures t.failed ==> env.rule(omitting, line).Inject?
    ensures !env.rule(omitting, line).Inject? ==> |t.out| <= 1
    ensures env.rule(omitting, line).Inject? && !StartsNested(env, dir, fuel, omitting, line) ==>
              t.failed && t.out == []
  {
    match env.rule(omitting, line)
    case Write(text) => Trace([text + env.newLine], omitting, false)
    case Drop => Trace([], omitting, false)
    case SetOmit(on) => Trace([], on, false)
    case Inject(target) =>
      var path := env.fs.resolve(dir, target);
      // a file that cannot be read, or nesting beyond the bound, is a read error
      if fuel == 0 || path !in env.fs.files then Trace([], omitting, true)
      else
        // the nested session starts with an empty queue and the omit flag off,
        // resolves its own directives against its own directory, and shares the sink
        var child := Run(env, env.fs.dirname(path), fuel - 1, false, env.fs.files[path]);
        Trace(child.out, omitting, child.failed)
  }

  /** No line is an inject directive, whether or not the session omits. */
  predicate NoInject(env: Env, lines: seq<string>) {
    lines == [] ||
    (!env.rule(false, lines[0]).Inject? && !env.rule(true, lines[0]).Inject? && NoInject(env, lines[1..]))
  }

  /** The lines taken in order, until a read error stops the session. Lines that
      are no inject directive, under either omit flag, never fail and write at most
      one chunk each. */
  function Run(env: Env, dir: string, fuel: nat, omitting: bool, lines: seq<string>): (r: Trace)
    decreases fuel, |lines|
    ensures NoInject(env, lines) ==> !r.failed && |r.out| <= |lines|
  {
    if lines == [] then Trace([], omitting, false)
    else
      var first := Step(env, dir, fuel, omitting, lines[0]);
      if first.failed then first
      else Join(first, Run(env, dir, fuel, first.omitting, lines[1..]))
  }

  /** The session on a file, as an inject directive starts it: a file without
      inject directives completes, writing at most one chunk per line. */
  function LinkFile(env: Env, path: string, fuel: nat): (r: Trace)
    requires path in env.fs.files
    ensures NoInject(env, env.fs.files[path]) ==> !r.failed && |r.out| <= |env.fs.files[path]|
  {
    Run(env, env.fs.dirname(path), fuel, false, env.fs.files[path])
  }

  /** Taking `lines` in order from the omit flag `omitting` reaches a line that
      starts a nested session before any read error. */
  predicate ReachesNested(env: Env, dir: string, fuel: nat, omitting: bool, lines: seq<string>)
    decreases |lines|
  {
    lines != [] &&
    (StartsNested(env, dir, fuel, omitting, lines[0]) ||
     var first := Step(env, dir, fuel, omitting, lines[0]);
     !first.failed && ReachesNested(env, dir, fuel, first.omitting, lines[1..]))
  }

  // ----- order -----

  /** Lines are taken first in, first out: a session that receives `a` and then `b`
      does with `b` exactly what it would from the state `a` left it in. */
  lemma {:induction false} RunAppend(env: Env, dir: string, fuel: nat, omitting: bool, a: seq<string>, b: seq<string>)
    ensures Run(env, dir, fuel, omitting, a + b) ==
            var t := Run(env, dir, fuel, omitting, a);
            if t.failed then t else Join(t, Run(env, dir, fuel, t.omitting, b))
    decreases |a|
  {
    if a == [] {
      assert a + b == b;
    } else {
      var first := Step(env, dir, fuel, omitting, a[0]);
      RunCons(env, dir, fuel, omitting, a[0], a[1..] + b);
      assert [a[0]] + (a[1..] + b) == a + b;
      RunCons(env, dir, fuel, omitting, a[0], a[1..]);
      assert [a[0]] + a[1..] == a;
      if !first.failed {
        RunAppend(env, dir, fuel, first.omitting, a[1..], b);
        var t := Run(env, dir, fuel, first.omitting, a[1..]);
        JoinAssociative(first, t, Run(env, dir, fuel, t.omitting, b));
      }
    }
  }

  lemma JoinAssociative(x: Trace, y: Trace, z: Trace)
    ensures Join(x, Join(y, z)) == Join(Join(x, y), z)
  {
    assert x.out + (y.out + z.out) == (x.out + y.out) + z.out;
  }

  /** One line, then the rest. */
  lemma RunCons(env: Env, dir: string, fuel: nat, omitting: bool, line: string, rest: seq<string>)
    ensures Run(env, dir, fuel, omitting, [line] + rest) ==
            var first := Step(env, dir, fuel, omitting, line);
            if first.failed then first else Join(first, Run(env, dir, fuel, first.omitting, rest))
  {
    assert ([line] + rest)[0] == line && ([line] + rest)[1..] == rest;
  }

  /** A failed session ignores every line that comes after. */
  lemma FailureIgnoresLaterLines(env: Env, dir: string, fuel: nat, omitting: bool, a: seq<string>, b: seq<string>)
    requires Run(env, dir, fuel, omitting, a).failed
    ensures Run(env, dir, fuel, omitting, a + b) == Run(env, dir, fuel, omitting, a)
  {
    RunAppend(env, dir, fuel, omitting, a, b);
  }

  /** One more line, taken by a session that has not failed. */
  lemma RunSnoc(env: Env, dir: string, fuel: nat, lines: seq<string>, line: string)
    requires !Run(env, dir, fuel, false, lines).failed
    ensures Run(env, dir, fuel, false, lines + [line]) ==
            Join(Run(env, dir, fuel, false, lines),
                 Step(env, dir, fuel, Run(env, dir, fuel, false, lines).omitting, line))
  {
    RunAppend(env, dir, fuel, false, lines, [line]);
    assert [line][1..] == [];
  }

  // ----- plain lines -----

  /** Lines the rule writes unchanged come out in order, each followed by the line
      ending, and nothing else does. */
  lemma {:induction false} WrittenLinesCopied(env: Env, dir: string, fuel: nat, lines: seq<string>)
    requires forall i :: 0 <= i < |lines| ==> env.rule(false, lines[i]) == Write(lines[i])
    ensures Run(env, dir, fuel, false, lines) ==
            Trace(seq(|lines|, i requires 0 <= i < |lines| => lines[i] + env.newLine), false, false)
    decreases |lines|
  {
    if lines != [] {
      WrittenLinesCopied(env, dir, fuel, lines[1..]);
      var copied := seq(|lines|, i requires 0 <= i < |lines| => lines[i] + env.newLine);
      assert copied == [lines[0] + env.newLine] + copied[1..];
    }
  }

  /** Each line of a file without directives, imports or exports is written once,
      unchanged and in order, followed by `newLine`. */
  lemma PlainLinesCopied(cfg: Config, fs: FileSystem, dir: string, fuel: nat, lines: seq<string>)
    requires forall i :: 0 <= i < |lines| ==> IsPlain(lines[i])
    ensures Run(EnvOf(cfg, fs), dir, fuel, false, lines) ==
            Trace(seq(|lines|, i requires 0 <= i < |lines| => lines[i] + cfg.newLine), false, false)
  {
    forall i | 0 <= i < |lines| ensures Rules(cfg)(false, lines[i]) == Write(lines[i]) {
      PlainLineRule(cfg, false, lines[i]);
    }
    WrittenLinesCopied(EnvOf(cfg, fs), dir, fuel, lines);
  }

  // ----- omit regions -----

  /** While the rule neither writes, injects nor clears the flag of an omitting
      session, the session writes nothing and keeps omitting. */
  lemma {:induction false} SilentWhileOmitting(env: Env, dir: string, fuel: nat, lines: seq<string>)
    requires forall i :: 0 <= i < |lines| ==> env.rule(true, lines[i]) in {Drop, SetOmit(true)}
    ensures Run(env, dir, fuel, true, lines) == Trace([], true, false)
    decreases |lines|
  {
    if lines != [] {
      SilentWhileOmitting(env, dir, fuel, lines[1..]);
    }
  }

  /** Inside an omit region nothing is written and nothing is injected until an
      `endOmit` line. */
  lemma OmittedRegionSilent(cfg: Config, fs: FileSystem, dir: string, fuel: nat, lines: seq<string>)
    requires forall i :: 0 <= i < |lines| ==> !IsEndOmit(lines[i])
    ensures Run(EnvOf(cfg, fs), dir, fuel, true, lines) == Trace([], true, false)
  {
    forall i | 0 <= i < |lines| ensures Rules(cfg)(true, lines[i]) in {Drop, SetOmit(true)} {
      OmittedLinesAreSilent(cfg, lines[i]);
    }
    SilentWhileOmitting(EnvOf(cfg, fs), dir, fuel, lines);
  }

  /** A `startOmit` line, lines without `endOmit`, and an `endOmit` line: nothing
      is written, and the session leaves the block with the omit flag off. */
  lemma OmitBlock(cfg: Config, fs: FileSystem, dir: string, fuel: nat, omitting: bool,
                  start: string, body: seq<string>, end: string)
    requires IsStartOmit(start) && IsEndOmit(end)
    requires forall i :: 0 <= i < |body| ==> !IsEndOmit(body[i])
    ensures Run(EnvOf(cfg, fs), dir, fuel, omitting, [start] + body + [end]) == Trace([], false, false)
  {
    var env := EnvOf(cfg, fs);
    OmitDirectiveRule(cfg, omitting, start);
    OmitDirectiveRule(cfg, true, end);
    DirectivesExclusive(end);
    assert Run(env, dir, fuel, omitting, [start]) == Trace([], true, false) by {
      assert [start][1..] == [];
    }
    assert Run(env, dir, fuel, true, [end]) == Trace([], false, false) by {
      assert [end][1..] == [];
    }
    OmittedRegionSilent(cfg, fs, dir, fuel, body);
    RunAppend(env, dir, fuel, omitting, [start], body);
    RunAppend(env, dir, fuel, omitting, [start] + body, [end]);
  }

  // ----- inject -----

  /** An inject directive splices the injected file's whole output at its place:
      the parent's earlier output, then the child's, then the parent's later output. */
  lemma InjectSplice(cfg: Config, fs: FileSystem, dir: string, fuel: nat,
                     before: seq<string>, line: string, after: seq<string>)
    requires InjectTarget(line).Some?
    requires fuel > 0 && fs.resolve(dir, InjectTarget(line).value) in fs.files
    requires !Run(EnvOf(cfg, fs), dir, fuel, false, before).failed
    requires !Run(EnvOf(cfg, fs), dir, fuel, false, before).omitting
    requires !LinkFile(EnvOf(cfg, fs), fs.resolve(dir, InjectTarget(line).value), fuel - 1).failed
    ensures Run(EnvOf(cfg, fs), dir, fuel, false, before + [line] + after).out ==
            Run(EnvOf(cfg, fs), dir, fuel, false, before).out +
            LinkFile(EnvOf(cfg, fs), fs.resolve(dir, InjectTarget(line).value), fuel - 1).out +
            Run(EnvOf(cfg, fs), dir, fuel, false, after).out
  {
    InjectRule(cfg, line);
    SpliceNested(EnvOf(cfg, fs), dir, fuel, before, line, after);
  }

  /** `InjectSplice` for any rule: a line that starts a nested session after
      `before`, and that session completes. */
  lemma SpliceNested(env: Env, dir: string, fuel: nat, before: seq<string>, line: string, after: seq<string>)
    requires !Run(env, dir, fuel, false, before).failed
    requires !Run(env, dir, fuel, false, before).omitting
    requires StartsNested(env, dir, fuel, false, line)
    requires !LinkFile(env, env.fs.resolve(dir, env.rule(false, line).target), fuel - 1).failed
    ensures Run(env, dir, fuel, false, before + [line] + after).out ==
            Run(env, dir, fuel, false, before).out +
            LinkFile(env, env.fs.resolve(dir, env.rule(false, line).target), fuel - 1).out +
            Run(env, dir, fuel, false, after).out
  {
    assert before + [line] + after == before + ([line] + after);
    RunAppend(env, dir, fuel, false, before, [line] + after);
    RunCons(env, dir, fuel, false, line, after);
    var b := Run(env, dir, fuel, false, before);
    var nested := Step(env, dir, fuel, false, line);
    var rest := Run(env, dir, fuel, false, after);
    assert b.out + (nested.out + rest.out) == b.out + nested.out + rest.out;
  }

  /** Nothing a session produces depends on the nesting bound, once the bound is
      large enough for the session to complete. */
  lemma {:induction false} RunFuelMonotone(env: Env, dir: string, fuel: nat, more: nat,
                                           omitting: bool, lines: seq<string>)
    requires fuel <= more
    requires !Run(env, dir, fuel, omitting, lines).failed
    ensures Run(env, dir, more, omitting, lines) == Run(env, dir, fuel, omitting, lines)
    decreases fuel, |lines|
  {
    if lines != [] {
      StepFuelMonotone(env, dir, fuel, more, omitting, lines[0]);
      var first := Step(env, dir, fuel, omitting, lines[0]);
      RunFuelMonotone(env, dir, fuel, more, first.omitting, lines[1..]);
    }
  }

  lemma {:induction false} StepFuelMonotone(env: Env, dir: string, fuel: nat, more: nat,
                                            omitting: bool, line: string)
    requires fuel <= more
    requires !Step(env, dir, fuel, omitting, line).failed
    ensures Step(env, dir, more, omitting, line) == Step(env, dir, fuel, omitting, line)
    decreases fuel, 0
  {
    match env.rule(omitting, line)
    case Inject(target) =>
      var path := env.fs.resolve(dir, target);
      RunFuelMonotone(env, env.fs.dirname(path), fuel - 1, more - 1, false, env.fs.files[path]);
    case _ =>
  }

  /** Nothing stops a file from injecting itself: such a session never completes,
      however deep nesting is allowed to go. */
  lemma SelfInjectNeverCompletes(cfg: Config, fs: FileSystem, path: string, fuel: nat)
    requires path in fs.files && fs.files[path] != []
    requires InjectTarget(fs.files[path][0]).Some?
    requires fs.resolve(fs.dirname(path), InjectTarget(fs.files[path][0]).value) == path
    ensures LinkFile(EnvOf(cfg, fs), path, fuel).failed
  {
    InjectRule(cfg, fs.files[path][0]);
    SelfStartNeverCompletes(EnvOf(cfg, fs), path, fuel);
  }

  /** `SelfInjectNeverCompletes` for any rule whose first action on the file is
      to inject the file itself. */
  lemma {:induction false} SelfStartNeverCompletes(env: Env, path: string, fuel: nat)
    requires path in env.fs.files && env.fs.files[path] != []
    requires env.rule(false, env.fs.files[path][0]).Inject?
    requires env.fs.resolve(env.fs.dirname(path), env.rule(false, env.fs.files[path][0]).target) == path
    ensures LinkFile(env, path, fuel).failed
  {
    var lines := env.fs.files[path];
    if fuel > 0 {
      SelfStartNeverCompletes(env, path, fuel - 1);
    }
    assert Step(env, env.fs.dirname(path), fuel, false, lines[0]).failed;
  }
}
