/** The link session of `linkFile` (index.js:38-172) as the object it is: a line
    queue, four flags and the omit flag, updated by the `data` and `end` events of
    the file's line stream and by the callbacks of the nested sessions it starts,
    with every written chunk going to one shared sink. Each method is proved
    against `Linker.Run`: whenever the session is not waiting for a nested session,
    the sink holds what `Run` says about all lines the session has received. */
module Sessions {
  import opened Js
  import opened Configuration
  import opened Classifier
  import opened Linker

  /** The output stream `writeTo`, shared by a session and all sessions it starts. */
  class Sink {
    var written: seq<string>

    constructor ()
      ensures written == []
    {
      written := [];
    }

    /** `writeTo.write(chunk)` */
    method Write(chunk: string)
      modifies this
      ensures written == old(written) + [chunk]
    {
      written := written + [chunk];
    }
  }

  class Session {
    /** The line rule (`Rules(options)` for the plugin), `options.newLine` and the files. */
    const env: Env
    /** `readFrom.path`, and `readFrom.dir`, against which inject directives resolve. */
    const path: string
    const dir: string
    /** How many more levels of nested sessions this one may start. */
    const fuel: nat
    const sink: Sink

    var queue: seq<string>   // `lineBuffer`
    var busy: bool           // `bufferBusy`
    var doneReading: bool
    var completed: bool
    var ignoring: bool       // `ignoringLines`
    /** `onCompleted = null`: a read error stopped the session and its callback never fires. */
    var failed: bool

    /** The last line taken was an inject directive: the nested session it started on
        the file `awaited` has not yet called back, so no line is taken meanwhile. */
    ghost var waiting: bool
    ghost var awaited: string
    /** The stream has emitted `end`. */
    ghost var ended: bool
    /** Every line the stream has delivered, and those taken from the queue. */
    ghost var received: seq<string>
    ghost var consumed: seq<string>
    /** The sink's content when the session began. */
    ghost const start: seq<string>

    /** What the session has done with the lines it has taken. */
    ghost function Progress(): Trace
      reads this
    {
      Run(env, dir, fuel, false, consumed)
    }

    /** The lines taken before the last one. */
    ghost function Before(): seq<string>
      reads this
      requires consumed != []
    {
      consumed[..|consumed| - 1]
    }

    /** The last line taken starts a nested session on `awaited`: the session had not
        failed before it, the line is an inject directive under the omit flag it
        left, its target resolves to a readable file, and nesting may go deeper. */
    ghost predicate Suspended()
      reads this
    {
      consumed != [] &&
      var t := Run(env, dir, fuel, false, Before());
      var action := env.rule(t.omitting, consumed[|consumed| - 1]);
      !t.failed && ignoring == t.omitting &&
      action.Inject? && env.fs.resolve(dir, action.target) == awaited &&
      fuel > 0 && awaited in env.fs.files
    }

    /** The state agrees with `Progress`, whether or not lines are being taken; while
        a nested session runs, the sink is that session's to write to. */
    ghost predicate Consistent()
      reads this, sink
    {
      received == consumed + queue &&
      (failed ==> completed && doneReading) &&
      if waiting then Suspended() && busy && !completed && !failed
      else
        var t := Progress();
        sink.written == start + t.out && ignoring == t.omitting && failed == t.failed
    }

    /** The state between two events: idle with an empty queue, waiting for a nested
        session while later lines queue up, completed after the end of the stream, or
        stopped by a read error. */
    ghost predicate Valid()
      reads this, sink
    {
      Consistent() &&
      (waiting ==> doneReading == ended) &&
      (!waiting && !failed ==>
         queue == [] && busy == completed && completed == doneReading && doneReading == ended)
    }

    /** `c` is the nested session this one has just started: it reads the file
        `awaited`, one level deeper, into the same sink, from a fresh state, and the
        sink holds what this session wrote before the inject directive. */
    ghost predicate Launched(c: Session)
      reads this, sink, c, c.sink
    {
      waiting && Suspended() && c != this &&
      c.env == env && c.sink == sink && c.path == awaited &&
      c.dir == env.fs.dirname(awaited) && c.fuel == fuel - 1 &&
      c.Valid() && c.received == [] && !c.ended && !c.waiting && c.start == sink.written &&
      sink.written == start + Run(env, dir, fuel, false, Before()).out
    }

    constructor (env: Env, path: string, dir: string, sink: Sink, fuel: nat)
      ensures this.env == env && this.path == path && this.dir == dir
      ensures this.sink == sink && this.fuel == fuel
      ensures start == sink.written && received == [] && !ended && !waiting
      ensures Valid()
    {
      this.env := env;
      this.path := path;
      this.dir := dir;
      this.sink := sink;
      this.fuel := fuel;
      queue := [];
      busy := false;
      doneReading := false;
      completed := false;
      ignoring := false;
      failed := false;
      waiting := false;
      awaited := [];
      ended := false;
      received := [];
      consumed := [];
      start := sink.written;
    }

    /** Outside a wait, everything the session has written is what `Run` makes of
        all the lines it has received, and it has failed exactly when `Run` says so. */
    lemma Outcome()
      requires Valid() && !waiting
      ensures sink.written == start + Run(env, dir, fuel, false, received).out
      ensures failed == Run(env, dir, fuel, false, received).failed
    {
      if failed {
        FailureIgnoresLaterLines(env, dir, fuel, false, consumed, queue);
      } else {
        assert received == consumed + queue == consumed;
      }
    }

    /** While waiting, what the session has done with the lines it has taken is what
        it did before the inject directive, followed by the nested session's whole
        trace; the omit flag is left as it was. */
    lemma NestedOutcome()
      requires Suspended()
      ensures Progress() ==
              Join(Run(env, dir, fuel, false, Before()),
                   Trace(LinkFile(env, awaited, fuel - 1).out, ignoring,
                         LinkFile(env, awaited, fuel - 1).failed))
    {
      var line := consumed[|consumed| - 1];
      assert consumed == Before() + [line];
      RunSnoc(env, dir, fuel, Before(), line);
    }

    /** The stream's `data` handler (index.js:62-67): queue the line, and take lines
        unless they are already being taken, a nested session is awaited, or the
        session has completed. The callback cannot fire before the stream's end. */
    method OnData(line: string) returns (fired: bool, started: Session?)
      requires Valid() && !ended
      modifies this, sink
      ensures Valid() && received == old(received) + [line] && !ended && !fired
      ensures completed == old(completed) || failed
      ensures old(waiting) ==>
                started == null && waiting && queue == old(queue) + [line] &&
                sink.written == old(sink.written) && consumed == old(consumed) &&
                awaited == old(awaited) && ignoring == old(ignoring) &&
                busy && !completed && doneReading == old(doneReading)
      ensures !old(waiting) && started == null ==> !waiting
      ensures started != null ==> fresh(started) && Launched(started)
      ensures started != null <==>
                !old(waiting) && !old(failed) && StartsNested(env, dir, fuel, old(ignoring), line)
      ensures !waiting ==> sink.written == start + Run(env, dir, fuel, false, received).out
    {
      queue := queue + [line];
      received := received + [line];
      fired, started := false, null;
      if !busy && !completed {
        assert queue == [line] && queue[1..] == [];
        fired, started := ReadFromBuffer();
      }
      if !waiting {
        Outcome();
      }
    }

    /** The stream's `end` handler (index.js:68-73): record that reading is done. An
        idle session then completes at once, its queue being empty, firing its
        callback unless a read error stopped it; a waiting one completes later, when
        its queue has drained. */
    method OnEnd() returns (fired: bool)
      requires Valid() && !ended
      modifies this, sink
      ensures Valid() && ended && doneReading && received == old(received)
      ensures sink.written == old(sink.written)
      ensures old(waiting) ==>
                !fired && waiting && queue == old(queue) && consumed == old(consumed) &&
                awaited == old(awaited) && ignoring == old(ignoring) && busy && !completed
      ensures !old(waiting) ==> !waiting && completed && fired == !failed
    {
      doneReading := true;
      ended := true;
      fired := false;
      if !busy && !completed {
        var started;
        fired, started := ReadFromBuffer();
      }
    }

    /** The nested session's `onCompleted`, which is this session's `finishBufferRead`
        (index.js:121, 157-171): the nested session has written all it produces, so
        the wait is over and lines are taken again. Its precondition is what the
        nested session's completion establishes. */
    method OnNestedCompleted() returns (fired: bool, started: Session?)
      requires Valid() && waiting
      requires !Progress().failed && sink.written == start + Progress().out
      modifies this, sink
      ensures Valid() && received == old(received) && ended == old(ended)
      ensures fired <==> completed && !failed
      ensures fired ==> doneReading && queue == []
      ensures |queue| <= |old(queue)|
      ensures started == null ==> !waiting
      ensures started != null ==> fresh(started) && Launched(started) && |queue| < |old(queue)|
      ensures started != null <==> ReachesNested(env, dir, fuel, old(ignoring), old(queue))
      ensures !waiting ==> sink.written == start + Run(env, dir, fuel, false, received).out
    {
      NestedOutcome();
      waiting := false;
      fired, started := Drain();
      if !waiting {
        Outcome();
      }
    }

    /** The nested session's `onError`, which is this session's `errorHandler`
        (index.js:78-84, passed on at index.js:121), as it is meant to work: the
        nested session hit a read error, so this one stops for good without firing
        its callback. */
    method ErrorHandler()
      requires Valid() && waiting
      requires Progress().failed && sink.written == start + Progress().out
      modifies this
      ensures Valid() && !waiting && failed && completed && doneReading
      ensures queue == old(queue) && received == old(received) && ended == old(ended)
      ensures sink.written == start + Run(env, dir, fuel, false, received).out
    {
      NestedOutcome();
      doneReading := true;
      completed := true;
      failed := true;
      waiting := false;
      Outcome();
    }

    /** `readFromBuffer` entered from a stream handler (index.js:90-93). */
    method ReadFromBuffer() returns (fired: bool, started: Session?)
      requires Consistent() && !waiting && !busy && !completed && (!failed ==> doneReading == ended)
      modifies this, sink
      ensures Valid() && received == old(received) && ended == old(ended)
      ensures doneReading == (old(doneReading) || failed)
      ensures fired <==> completed && !failed
      ensures fired ==> doneReading && queue == []
      ensures started == null ==> !waiting
      ensures started != null ==> fresh(started) && Launched(started)
      ensures started != null <==> ReachesNested(env, dir, fuel, old(ignoring), old(queue))
      ensures old(queue) == [] ==> sink.written == old(sink.written) && started == null
    {
      busy := true;
      fired, started := Drain();
    }

    /** `readFromBuffer` and `finishBufferRead` calling each other (index.js:90-171):
        take lines until the queue is empty, a read error stops the session, or an
        inject directive starts a nested session (the drain then waits for its
        callback, with `bufferBusy` still set); otherwise complete, firing
        `onCompleted`, if the stream has ended, and go idle if not. */
    method Drain() returns (fired: bool, started: Session?)
      requires Consistent() && busy && !waiting && !completed && (!failed ==> doneReading == ended)
      modifies this, sink
      ensures Valid() && received == old(received) && ended == old(ended)
      ensures doneReading == (old(doneReading) || failed)
      ensures fired <==> completed && !failed
      ensures fired ==> doneReading && queue == []
      ensures |queue| <= |old(queue)|
      ensures started == null ==> !waiting
      ensures started != null ==> fresh(started) && Launched(started) && |queue| < |old(queue)|
      ensures started != null <==> ReachesNested(env, dir, fuel, old(ignoring), old(queue))
      ensures old(queue) == [] ==> sink.written == old(sink.written) && started == null
    {
      fired, started := false, null;
      while queue != [] && !completed && started == null
        invariant Consistent() && busy
        invariant received == old(received) && ended == old(ended)
        invariant doneReading == (old(doneReading) || failed)
        invariant completed ==> failed
        invariant |queue| <= |old(queue)|
        invariant started == null ==> !waiting
        invariant started != null ==> fresh(started) && Launched(started) && |queue| < |old(queue)|
        invariant old(queue) == [] ==> queue == [] && sink.written == old(sink.written)
        invariant started == null ==>
                    (ReachesNested(env, dir, fuel, old(ignoring), old(queue)) <==>
                     !failed && ReachesNested(env, dir, fuel, ignoring, queue))
        invariant started != null ==> ReachesNested(env, dir, fuel, old(ignoring), old(queue))
        decreases |queue|
      {
        started := HandleLine();
      }
      if started == null && !completed {
        if doneReading {
          fired := true;
          completed := true;
        } else {
          busy := false;
        }
      }
    }

    /** One pass of `readFromBuffer` that takes a line (index.js:99-101): shift it
        off the queue and act on it. */
    method HandleLine() returns (started: Session?)
      requires Consistent() && busy && !waiting && !completed && queue != []
      modifies this, sink
      ensures Consistent() && busy
      ensures queue == old(queue)[1..] && received == old(received) && ended == old(ended)
      ensures completed == failed && doneReading == (old(doneReading) || failed)
      ensures started != null <==> StartsNested(env, dir, fuel, old(ignoring), old(queue)[0])
      ensures started == null ==>
                !waiting &&
                ignoring == Step(env, dir, fuel, old(ignoring), old(queue)[0]).omitting &&
                failed == Step(env, dir, fuel, old(ignoring), old(queue)[0]).failed
      ensures started != null ==> fresh(started) && Launched(started)
    {
      ghost var before := consumed;
      ghost var t := Run(env, dir, fuel, false, before);
      var line := queue[0];
      assert before + [line] + queue[1..] == before + queue;
      queue := queue[1..];
      consumed := consumed + [line];
      started := Apply(line);
      if started != null {
        assert Before() == before;
        assert Suspended();
      } else {
        RunSnoc(env, dir, fuel, before, line);
        var u := Step(env, dir, fuel, t.omitting, line);
        assert start + (t.out + u.out) == (start + t.out) + u.out;
      }
    }

    /** What `readFromBuffer` does with the line it took (index.js:101-153): write
        it, drop it, or move the omit flag; or, for an inject directive, start the
        nested session on the resolved file (index.js:112-121) and wait for it. A
        file that cannot be read, or nesting beyond the bound, stops the session at
        once, as the nested session's read error is meant to through this
        session's `errorHandler` (index.js:78-84, 121). */
    method Apply(line: string) returns (started: Session?)
      requires !failed && !completed && !waiting
      modifies this, sink
      ensures queue == old(queue) && busy == old(busy) && ended == old(ended)
      ensures received == old(received) && consumed == old(consumed)
      ensures completed == failed && doneReading == (old(doneReading) || failed)
      ensures started != null <==> StartsNested(env, dir, fuel, old(ignoring), line)
      ensures started == null ==>
                !waiting &&
                sink.written == old(sink.written) + Step(env, dir, fuel, old(ignoring), line).out &&
                ignoring == Step(env, dir, fuel, old(ignoring), line).omitting &&
                failed == Step(env, dir, fuel, old(ignoring), line).failed
      ensures started != null ==>
                fresh(started) && waiting && !failed && ignoring == old(ignoring) &&
                sink.written == old(sink.written) &&
                env.rule(old(ignoring), line).Inject? &&
                awaited == env.fs.resolve(dir, env.rule(old(ignoring), line).target) &&
                fuel > 0 && awaited in env.fs.files &&
                started.env == env && started.sink == sink && started.path == awaited &&
                started.dir == env.fs.dirname(awaited) && started.fuel == fuel - 1 &&
                started.Valid() && started.received == [] && !started.ended &&
                !started.waiting && started.start == sink.written
    {
      started := null;
      match env.rule(ignoring, line)
      case Write(text) =>
        sink.Write(text + env.newLine);
      case Drop =>
      case SetOmit(on) =>
        ignoring := on;
      case Inject(target) =>
        var file := env.fs.resolve(dir, target);
        if fuel > 0 && file in env.fs.files {
          started := new Session(env, file, env.fs.dirname(file), sink, fuel - 1);
          waiting := true;
          awaited := file;
        } else {
          doneReading := true;
          completed := true;
          failed := true;
        }
    }
  }

  /** One run of the event loop for the fresh session `s` on a file of `lines`: the
      stream delivers every line and then its end, while a nested session that `s`
      starts waits its turn, so that lines delivered meanwhile only queue up; then
      the nested sessions run (`AwaitNested`). `completions` counts the calls of
      `s`'s own `onCompleted`. */
  method Link(s: Session, lines: seq<string>) returns (ok: bool, completions: nat)
    requires s.Valid() && s.received == [] && !s.ended && !s.waiting
    requires s.start == s.sink.written
    modifies s, s.sink
    decreases s.fuel, 2
    ensures s.sink.written == old(s.sink.written) + Run(s.env, s.dir, s.fuel, false, lines).out
    ensures ok == !Run(s.env, s.dir, s.fuel, false, lines).failed
    ensures s.Valid() && s.ended && s.completed && !s.waiting
    ensures completions == if ok then 1 else 0
  {
    var pending: Session? := null;
    var i := 0;
    while i < |lines|
      invariant 0 <= i <= |lines|
      invariant s.Valid() && !s.ended && s.received == lines[..i]
      invariant !s.completed || s.failed
      invariant pending == null ==> !s.waiting
      invariant pending != null ==> fresh(pending) && s.Launched(pending)
      decreases |lines| - i
    {
      var fired, started := s.OnData(lines[i]);
      if started != null {
        pending := started;
      }
      i := i + 1;
    }
    assert lines[..i] == lines;
    var firedAtEnd := s.OnEnd();
    var firedLater := AwaitNested(s, pending);
    s.Outcome();
    ok := !s.failed;
    completions := (if firedAtEnd then 1 else 0) + (if firedLater then 1 else 0);
  }

  /** The nested sessions `s` waits for, one after another from `pending`, until
      none is awaited. `fired` says whether `s`'s `onCompleted` was called meanwhile. */
  method AwaitNested(s: Session, pending: Session?) returns (fired: bool)
    requires s.Valid()
    requires pending == null ==> !s.waiting
    requires pending != null ==> s.Launched(pending)
    modifies s, s.sink, pending
    decreases s.fuel, 1
    ensures s.Valid() && !s.waiting
    ensures s.received == old(s.received) && s.ended == old(s.ended)
    ensures fired <==> s.completed && !s.failed && !old(s.completed)
    ensures pending == null ==> s.completed == old(s.completed) && s.failed == old(s.failed)
  {
    fired := false;
    var next := pending;
    while next != null
      invariant s.Valid() && s.received == old(s.received) && s.ended == old(s.ended)
      invariant fired <==> s.completed && !s.failed && !old(s.completed)
      invariant pending == null ==> s.completed == old(s.completed) && s.failed == old(s.failed)
      invariant next == null ==> !s.waiting
      invariant next != null ==> s.Launched(next) && (next == pending || fresh(next))
      decreases |s.queue| + if next == null then 0 else 1
    {
      fired, next := Nested(s, next);
    }
  }

  /** The nested session `c` that `s` waits for runs on its own file (`Link`), then
      calls back `s`: `onCompleted` if it completed, `onError` if a read error
      stopped it. The drain of `s` may then start the next nested session. */
  method Nested(s: Session, c: Session) returns (fired: bool, next: Session?)
    requires s.Valid() && s.Launched(c)
    modifies s, s.sink, c
    decreases s.fuel, 0
    ensures s.Valid() && s.received == old(s.received) && s.ended == old(s.ended)
    ensures fired <==> s.completed && !s.failed
    ensures |s.queue| <= |old(s.queue)|
    ensures next == null ==> !s.waiting
    ensures next != null ==> fresh(next) && s.Launched(next) && |s.queue| < |old(s.queue)|
  {
    s.NestedOutcome();
    ghost var t := s.Progress();
    var nestedOk, _ := Link(c, c.env.fs.files[c.path]);
    assert s.Valid() && s.sink.written == s.start + t.out && nestedOk == !t.failed;
    if nestedOk {
      fired, next := s.OnNestedCompleted();
    } else {
      s.ErrorHandler();
      fired, next := false, null;
    }
  }
}
