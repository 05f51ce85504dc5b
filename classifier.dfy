/** The line classifier of `readFromBuffer` (index.js:101-153): the eight regular
    expressions of `rx`, written token by token for `Patterns.Match`, and the
    if/else chain that maps the omit flag, the configuration and one line to
    what the session does with it. */
module Classifier {
  import opened Js
  import opened Configuration
  import opened Patterns

  // ----- the regular expressions -----

  /** `^\s*` followed by the characters `lead`, then `rest`: the shape every
      expression of `rx` has. */
  function Anchored(lead: string, rest: Pattern): Pattern {
    Then(Spaces, Then(Text(lead), rest))
  }

  /** `^\s*\/\/\s*@tslink\s*:\s*`, the directive marker, then `rest`. */
  function Marked(rest: Pattern): Pattern {
    Anchored("//", Then(Spaces, Then(Word("@tslink"), Then(Spaces, Then(Text(":"), Then(Spaces, rest))))))
  }

  /** The directive marker alone. */
  const Marker: Pattern := Marked(End)

  /** The directive marker, the lower-case `keyword` in any case, then `after`. */
  function Directive(keyword: string, after: Token): Pattern {
    Marked(Then(Word(keyword), Then(after, End)))
  }

  /** `rx.inject`, `/^\s*\/\/\s*@tslink\s*:\s*inject\s+/i` */
  const InjectRx: Pattern := Directive("inject", SomeSpaces)
  /** `rx.emit`, `/^\s*\/\/\s*@tslink\s*:\s*emit\s/i` */
  const EmitRx: Pattern := Directive("emit", OneSpace)
  /** `rx.startOmit`, `/^\s*\/\/\s*@tslink\s*:\s*startomit($|\s.*)/i` */
  const StartOmitRx: Pattern := Directive("startomit", EndOrSpace)
  /** `rx.endOmit`, `/^\s*\/\/\s*@tslink\s*:\s*endomit($|\s.*)/i` */
  const EndOmitRx: Pattern := Directive("endomit", EndOrSpace)
  /** `rx.export`, `/^\s*export\s*\{\s*[^}\s]+\s*\}/`: braces around ONE run of
      characters without white space, so `export { a, b }` does not match. */
  const ExportRx: Pattern :=
    Anchored("export", Then(Spaces, Then(Text("{"), Then(Spaces, Then(Name, Then(Spaces, Then(Text("}"), End)))))))
  /** `rx.starExport`, `export`, white space, then `*` */
  const StarExportRx: Pattern := Anchored("export", Then(SomeSpaces, Then(Text("*"), End)))
  /** `rx.exportObj`, `/^\s*export\s+/` */
  const ExportObjRx: Pattern := Anchored("export", Then(SomeSpaces, End))
  /** `rx.import`, `/^\s*import\s+/` */
  const ImportRx: Pattern := Anchored("import", Then(SomeSpaces, End))

  /** The directive marker keeps a separated pattern separated when that pattern
      starts with a literal or a word. */
  lemma MarkedSeparated(rest: Pattern)
    requires Separated(rest) && StartsSolid(rest)
    ensures Separated(Marked(rest))
  {
    var m := Then(Spaces, rest);
    assert Separated(m);
    m := Then(Text(":"), m);
    assert Separated(Then(Spaces, m));
    m := Then(Word("@tslink"), Then(Spaces, m));
    assert Separated(Then(Spaces, m));
  }

  /** A directive is separated: its keyword starts with a letter and ends the
      expression with `\s+`, `\s` or `($|\s.*)`. */
  lemma DirectiveSeparated(keyword: string, after: Token)
    requires keyword != [] && 'a' <= keyword[0] <= 'z'
    requires after == SomeSpaces || after == OneSpace || after == EndOrSpace
    ensures Separated(Directive(keyword, after))
  {
    MarkedSeparated(Then(Word(keyword), Then(after, End)));
  }

  /** Every expression of `rx` is one on which greedy matching is exact
      (`GreedyMatchIsExact`): a `\s*` or `\s+` is followed by a literal, a word or
      the end, `[^}\s]+` by `\s*}`, and `($|\s.*)` ends its expression. */
  lemma RegexesSeparated()
    ensures Separated(InjectRx) && Separated(EmitRx)
    ensures Separated(StartOmitRx) && Separated(EndOmitRx)
    ensures Separated(ExportRx) && Separated(StarExportRx)
    ensures Separated(ExportObjRx) && Separated(ImportRx)
  {
    DirectiveSeparated("inject", SomeSpaces);
    DirectiveSeparated("emit", OneSpace);
    DirectiveSeparated("startomit", EndOrSpace);
    DirectiveSeparated("endomit", EndOrSpace);
    StatementsSeparated();
  }

  lemma StatementsSeparated()
    ensures Separated(ExportRx) && Separated(StarExportRx)
    ensures Separated(ExportObjRx) && Separated(ImportRx)
  {
    var close := Then(Spaces, Then(Text("}"), End));
    assert Separated(close) && StopsName(close);
    var inner := Then(Spaces, Then(Name, close));
    assert Separated(inner);
    assert Separated(Then(Spaces, Then(Text("{"), inner)));
  }

  /** `line.replace(rx.inject, '')` when `rx.inject.test(line)`: the path fragment.
      `test` succeeds exactly when the expression matches at all, and what is left
      is the line with the longest match removed, the one `replace` takes. */
  function InjectTarget(line: string): (r: Option<string>)
    ensures r.Some? <==> exists rest :: Leaves(InjectRx, line, rest)
    ensures r.Some? ==>
              Leaves(InjectRx, line, r.value) &&
              forall rest :: Leaves(InjectRx, line, rest) ==> |r.value| <= |rest|
  {
    DirectiveSeparated("inject", SomeSpaces);
    GreedyMatchIsExact(InjectRx, line);
    Match(InjectRx, line)
  }

  /** `line.replace(rx.emit, '')` when `rx.emit.test(line)`: the text to emit. */
  function EmitText(line: string): (r: Option<string>)
    ensures r.Some? <==> exists rest :: Leaves(EmitRx, line, rest)
    ensures r.Some? ==>
              Leaves(EmitRx, line, r.value) &&
              forall rest :: Leaves(EmitRx, line, rest) ==> |r.value| <= |rest|
  {
    DirectiveSeparated("emit", OneSpace);
    GreedyMatchIsExact(EmitRx, line);
    Match(EmitRx, line)
  }

  /** `line.replace(rx.exportObj, '')` when `rx.exportObj.test(line)`: the declaration. */
  function ExportTail(line: string): (r: Option<string>)
    ensures r.Some? <==> exists rest :: Leaves(ExportObjRx, line, rest)
    ensures r.Some? ==>
              Leaves(ExportObjRx, line, r.value) &&
              forall rest :: Leaves(ExportObjRx, line, rest) ==> |r.value| <= |rest|
  {
    StatementsSeparated();
    GreedyMatchIsExact(ExportObjRx, line);
    Match(ExportObjRx, line)
  }

  // `rx.<name>.test(line)`: each succeeds exactly when its expression matches the
  // line in the backtracking semantics.

  /** `rx.startOmit.test(line)` */
  predicate IsStartOmit(line: string)
    ensures IsStartOmit(line) <==> exists rest :: Leaves(StartOmitRx, line, rest)
  {
    DirectiveSeparated("startomit", EndOrSpace);
    GreedyMatchIsExact(StartOmitRx, line);
    Match(StartOmitRx, line).Some?
  }

  /** `rx.endOmit.test(line)` */
  predicate IsEndOmit(line: string)
    ensures IsEndOmit(line) <==> exists rest :: Leaves(EndOmitRx, line, rest)
  {
    DirectiveSeparated("endomit", EndOrSpace);
    GreedyMatchIsExact(EndOmitRx, line);
    Match(EndOmitRx, line).Some?
  }

  /** `rx.export.test(line)` */
  predicate IsSingleExport(line: string)
    ensures IsSingleExport(line) <==> exists rest :: Leaves(ExportRx, line, rest)
  {
    StatementsSeparated();
    GreedyMatchIsExact(ExportRx, line);
    Match(ExportRx, line).Some?
  }

  /** `rx.starExport.test(line)` */
  predicate IsStarExport(line: string)
    ensures IsStarExport(line) <==> exists rest :: Leaves(StarExportRx, line, rest)
  {
    StatementsSeparated();
    GreedyMatchIsExact(StarExportRx, line);
    Match(StarExportRx, line).Some?
  }

  /** `rx.import.test(line)` */
  predicate IsImport(line: string)
    ensures IsImport(line) <==> exists rest :: Leaves(ImportRx, line, rest)
  {
    StatementsSeparated();
    GreedyMatchIsExact(ImportRx, line);
    Match(ImportRx, line).Some?
  }

  // ----- the chain -----

  /** What the session does with one line. */
  datatype Action =
    | Write(text: string)     // `writeLine(text)`: the text followed by `newLine`
    | Drop                    // nothing
    | SetOmit(on: bool)       // `ignoringLines := on`
    | Inject(target: string)  // link the file `target` names, then resume

  /** The if/else chain of `readFromBuffer` (index.js:112-151), in its order. A
      line is injected exactly when it is an inject directive outside an omit
      region; only `startOmit` sets and only `endOmit` clears the omit flag; and
      inside an omit region nothing is written or injected. */
  function Classify(cfg: Config, omitting: bool, line: string): (a: Action)
    ensures a.Inject? <==> !omitting && InjectTarget(line).Some?
    ensures a.Inject? ==> a.target == InjectTarget(line).value
    ensures a.SetOmit? ==> if a.on then IsStartOmit(line) else IsEndOmit(line)
    ensures omitting ==> a.Drop? || a.SetOmit?
  {
    var inject := InjectTarget(line);
    var declaration := ExportTail(line);
    var emit := EmitText(line);
    var statement := IsSingleExport(line) || IsStarExport(line);
    if !omitting && inject.Some? then Inject(inject.value)
    else if !cfg.preserveImport && IsImport(line) then Drop
    else if !cfg.preserveExport && statement then Drop
    else if !omitting && declaration.Some? && !statement then Write(declaration.value)
    else if !omitting && emit.Some? then Write(emit.value)
    else if IsStartOmit(line) then SetOmit(true)
    else if IsEndOmit(line) then SetOmit(false)
    else if !omitting then Write(line)
    else Drop
  }

  /** A line no rule of the chain recognises. */
  predicate IsPlain(line: string) {
    InjectTarget(line).None? && EmitText(line).None? && !IsStartOmit(line) && !IsEndOmit(line) &&
    !IsImport(line) && ExportTail(line).None? && !IsSingleExport(line) && !IsStarExport(line)
  }

  lemma MarkedIsConcat(rest: Pattern)
    ensures Marked(rest) == Concat(Marker, rest)
  {
    var m := Then(Spaces, End);
    assert Concat(m, rest) == Then(Spaces, rest);
    m := Then(Text(":"), m);
    assert Concat(m, rest) == Then(Text(":"), Then(Spaces, rest));
    m := Then(Spaces, m);
    assert Concat(m, rest) == Then(Spaces, Then(Text(":"), Then(Spaces, rest)));
    m := Then(Word("@tslink"), m);
    assert Concat(m, rest) == Then(Word("@tslink"), Then(Spaces, Then(Text(":"), Then(Spaces, rest))));
    m := Then(Spaces, m);
    assert Concat(m, rest) == Then(Spaces, Then(Word("@tslink"), Then(Spaces, Then(Text(":"), Then(Spaces, rest)))));
    assert Concat(Anchored("//", m), rest) == Anchored("//", Concat(m, rest));
  }

  // ----- which expressions can match the same line -----

  /** The first character after the leading white space, or `' '` for a blank line. */
  function Lead(line: string): (c: char) {
    var a := TrimStart(line);
    if a == [] then ' ' else a[0]
  }

  /** A line an anchored expression matches starts, after white space, with its lead. */
  lemma AnchoredLead(lead: string, rest: Pattern, line: string)
    requires lead != [] && Match(Anchored(lead, rest), line).Some?
    ensures Lead(line) == lead[0]
  {
    var a := TrimStart(line);
    assert StartsWith(a, lead);
    assert a[..|lead|][0] == a[0];
  }

  /** A line a directive expression matches carries the marker, then the keyword. */
  lemma DirectiveParts(keyword: string, after: Token, line: string)
    requires Match(Directive(keyword, after), line).Some?
    ensures Match(Marker, line).Some? && StartsWithIgnoreCase(Match(Marker, line).value, keyword)
  {
    MarkedIsConcat(Then(Word(keyword), Then(after, End)));
    MatchConcat(Marker, Then(Word(keyword), Then(after, End)), line);
  }

  lemma LeadingCharacter(line: string)
    ensures Match(Marker, line).Some? ==> Lead(line) == '/'
    ensures IsImport(line) ==> Lead(line) == 'i'
    ensures ExportTail(line).Some? || IsSingleExport(line) || IsStarExport(line) ==> Lead(line) == 'e'
  {
    if Match(Marker, line).Some? {
      AnchoredLead("//", Then(Spaces, Then(Word("@tslink"), Then(Spaces, Then(Text(":"), Then(Spaces, End))))), line);
    }
    if IsImport(line) { AnchoredLead("import", Then(SomeSpaces, End), line); }
    if ExportTail(line).Some? { AnchoredLead("export", Then(SomeSpaces, End), line); }
    if IsSingleExport(line) {
      AnchoredLead("export", Then(Spaces, Then(Text("{"), Then(Spaces, Then(Name, Then(Spaces, Then(Text("}"), End)))))), line);
    }
    if IsStarExport(line) { AnchoredLead("export", Then(SomeSpaces, Then(Text("*"), End)), line); }
  }

  /** A directive starts with `//`, a statement with a keyword: no line is both. */
  lemma DirectiveIsNoStatement(keyword: string, after: Token, line: string)
    requires Match(Directive(keyword, after), line).Some?
    ensures !IsImport(line) && ExportTail(line).None? && !IsSingleExport(line) && !IsStarExport(line)
  {
    DirectiveParts(keyword, after, line);
    LeadingCharacter(line);
  }

  /** An import line is no export. */
  lemma ImportIsNoExport(line: string)
    requires IsImport(line)
    ensures ExportTail(line).None? && !IsSingleExport(line) && !IsStarExport(line)
  {
    LeadingCharacter(line);
  }

  /** Two directive keywords whose lower-case spellings differ at a position both
      have never match the same line. */
  lemma KeywordsExclusive(line: string, k1: string, a1: Token, k2: string, a2: Token, i: nat)
    requires i < |k1| && i < |k2| && k1[i] != k2[i]
    requires Match(Directive(k1, a1), line).Some?
    ensures Match(Directive(k2, a2), line).None?
  {
    DirectiveParts(k1, a1, line);
    var t := Match(Marker, line).value;
    assert ToLower(t[..|k1|])[i] == LowerChar(t[i]);
    if Match(Directive(k2, a2), line).Some? {
      DirectiveParts(k2, a2, line);
    }
  }

  /** Each line is at most one kind of directive. */
  lemma DirectivesExclusive(line: string)
    ensures InjectTarget(line).Some? ==> EmitText(line).None? && !IsStartOmit(line) && !IsEndOmit(line)
    ensures EmitText(line).Some? ==> !IsStartOmit(line) && !IsEndOmit(line)
    ensures IsStartOmit(line) ==> !IsEndOmit(line)
  {
    if InjectTarget(line).Some? {
      KeywordsExclusive(line, "inject", SomeSpaces, "emit", OneSpace, 0);
      KeywordsExclusive(line, "inject", SomeSpaces, "startomit", EndOrSpace, 0);
      KeywordsExclusive(line, "inject", SomeSpaces, "endomit", EndOrSpace, 0);
    }
    if EmitText(line).Some? {
      KeywordsExclusive(line, "emit", OneSpace, "startomit", EndOrSpace, 0);
      KeywordsExclusive(line, "emit", OneSpace, "endomit", EndOrSpace, 1);
    }
    if IsStartOmit(line) {
      KeywordsExclusive(line, "startomit", EndOrSpace, "endomit", EndOrSpace, 0);
    }
  }

  /** A directive of any kind is no import and no export. */
  lemma DirectivesAreNoStatements(line: string)
    requires InjectTarget(line).Some? || EmitText(line).Some? || IsStartOmit(line) || IsEndOmit(line)
    ensures !IsImport(line) && ExportTail(line).None? && !IsSingleExport(line) && !IsStarExport(line)
  {
    if InjectTarget(line).Some? { DirectiveIsNoStatement("inject", SomeSpaces, line); }
    if EmitText(line).Some? { DirectiveIsNoStatement("emit", OneSpace, line); }
    if IsStartOmit(line) { DirectiveIsNoStatement("startomit", EndOrSpace, line); }
    if IsEndOmit(line) { DirectiveIsNoStatement("endomit", EndOrSpace, line); }
  }

  // ----- the rules, one per kind of line -----

  /** A line that matches no rule is written unchanged outside an omit region and
      dropped inside one, whatever the configuration says. */
  lemma PlainLineRule(cfg: Config, omitting: bool, line: string)
    requires IsPlain(line)
    ensures Classify(cfg, omitting, line) == if omitting then Drop else Write(line)
  {
  }

  /** An `import` line is dropped unless imports are preserved; a preserved one is
      written unchanged outside omit regions. */
  lemma ImportRule(cfg: Config, omitting: bool, line: string)
    requires IsImport(line)
    ensures Classify(cfg, omitting, line) ==
            if cfg.preserveImport && !omitting then Write(line) else Drop
  {
    ImportIsNoExport(line);
    if InjectTarget(line).Some? || EmitText(line).Some? || IsStartOmit(line) || IsEndOmit(line) {
      DirectivesAreNoStatements(line);
    }
  }

  /** A one-name `export { x }` or an `export *` line is dropped unless exports are
      preserved; a preserved one is written unchanged outside omit regions. */
  lemma ExportStatementRule(cfg: Config, omitting: bool, line: string)
    requires IsSingleExport(line) || IsStarExport(line)
    ensures Classify(cfg, omitting, line) ==
            if cfg.preserveExport && !omitting then Write(line) else Drop
  {
    LeadingCharacter(line);
    if InjectTarget(line).Some? || EmitText(line).Some? || IsStartOmit(line) || IsEndOmit(line) {
      DirectivesAreNoStatements(line);
    }
  }

  /** Any other `export` line outside an omit region is written without its leading
      `export` and the white space around it, whatever `preserveExport` says. */
  lemma ExportDeclarationRule(cfg: Config, omitting: bool, line: string)
    requires ExportTail(line).Some? && !IsSingleExport(line) && !IsStarExport(line)
    ensures Classify(cfg, omitting, line) ==
            if omitting then Drop else Write(ExportTail(line).value)
  {
    LeadingCharacter(line);
    if InjectTarget(line).Some? || EmitText(line).Some? || IsStartOmit(line) || IsEndOmit(line) {
      DirectivesAreNoStatements(line);
    }
  }

  /** An emit directive outside an omit region writes only what follows the marker
      and its one white-space character; inside a region it is dropped. */
  lemma EmitRule(cfg: Config, omitting: bool, line: string)
    requires EmitText(line).Some?
    ensures Classify(cfg, omitting, line) == if omitting then Drop else Write(EmitText(line).value)
  {
    DirectivesAreNoStatements(line);
    DirectivesExclusive(line);
  }

  /** `startOmit` sets the omit flag and `endOmit` clears it, inside a region or not,
      and neither line is written. */
  lemma OmitDirectiveRule(cfg: Config, omitting: bool, line: string)
    requires IsStartOmit(line) || IsEndOmit(line)
    ensures Classify(cfg, omitting, line) == SetOmit(IsStartOmit(line))
  {
    DirectivesAreNoStatements(line);
    DirectivesExclusive(line);
  }

  /** An inject directive outside an omit region injects the fragment after it. */
  lemma InjectRule(cfg: Config, line: string)
    requires InjectTarget(line).Some?
    ensures Classify(cfg, false, line) == Inject(InjectTarget(line).value)
  {
  }

  /** Inside an omit region nothing is written and nothing is injected: every line
      is dropped or moves the omit flag, and only an `endOmit` line clears it. */
  lemma OmittedLinesAreSilent(cfg: Config, line: string)
    ensures Classify(cfg, true, line).Drop? || Classify(cfg, true, line).SetOmit?
    ensures Classify(cfg, true, line) == SetOmit(false) ==> IsEndOmit(line)
  {
  }

  // ----- lines as written in sources -----

  /** After `//`: `@tslink`, white space, `:`, white space. */
  const MarkerTail: Pattern := Then(Word("@tslink"), Then(Spaces, Then(Text(":"), Then(Spaces, End))))

  lemma MarkerShape()
    ensures Marker == Then(Spaces, Then(Text("//"), Then(Spaces, MarkerTail)))
  {
  }

  lemma CanonicalMarkerTail(rest: string)
    requires rest == [] || !IsSpace(rest[0])
    ensures Match(MarkerTail, "@tslink" + (":" + rest)) == Some(rest)
  {
    SpacesStep(End, [], rest);
    assert [] + rest == rest;
    TextStep(":", Then(Spaces, End), rest);
    SpacesStep(Then(Text(":"), Then(Spaces, End)), [], ":" + rest);
    assert [] + (":" + rest) == ":" + rest;
    assert ToLower("@tslink") == "@tslink";
    WordStep("@tslink", Then(Spaces, Then(Text(":"), Then(Spaces, End))), "@tslink", ":" + rest);
  }

  lemma CanonicalMarkerAfterSlashes(rest: string)
    requires rest == [] || !IsSpace(rest[0])
    ensures Match(Then(Text("//"), Then(Spaces, MarkerTail)), "//" + (" " + ("@tslink" + (":" + rest)))) == Some(rest)
  {
    var t := "@tslink" + (":" + rest);
    CanonicalMarkerTail(rest);
    SpacesStep(MarkerTail, " ", t);
    TextStep("//", Then(Spaces, MarkerTail), " " + t);
  }

  /** The canonical spelling of a directive, `// @tslink:` and the rest (the
      literal split at the marker's tokens). */
  lemma CanonicalMarker(rest: string)
    requires rest == [] || !IsSpace(rest[0])
    ensures Match(Marker, "//" + (" " + ("@tslink" + (":" + rest)))) == Some(rest)
  {
    var line := "//" + (" " + ("@tslink" + (":" + rest)));
    MarkerShape();
    CanonicalMarkerAfterSlashes(rest);
    SpacesStep(Then(Text("//"), Then(Spaces, MarkerTail)), [], line);
    assert [] + line == line;
  }

  /** A directive in its canonical spelling is decided by what follows `// @tslink:`. */
  lemma CanonicalDirective(keyword: string, after: Token, rest: string)
    requires rest == [] || !IsSpace(rest[0])
    ensures Match(Directive(keyword, after), "//" + (" " + ("@tslink" + (":" + rest)))) ==
            Match(Then(Word(keyword), Then(after, End)), rest)
  {
    CanonicalMarker(rest);
    MarkedIsConcat(Then(Word(keyword), Then(after, End)));
    MatchConcat(Marker, Then(Word(keyword), Then(after, End)), "//" + (" " + ("@tslink" + (":" + rest))));
  }

  lemma EmitDirectiveText(text: string)
    ensures EmitText("//" + (" " + ("@tslink" + (":" + ("emit" + ([' '] + text)))))) == Some(text)
  {
    var rest := "emit" + ([' '] + text);
    CanonicalDirective("emit", OneSpace, rest);
    assert ToLower("emit") == "emit";
    WordStep("emit", Then(OneSpace, End), "emit", [' '] + text);
    OneSpaceStep(End, ' ', text);
  }

  /** `// @tslink:emit <text>` outside an omit region writes exactly `<text>`. */
  lemma EmitCanonical(cfg: Config, text: string)
    ensures Classify(cfg, false, "// @tslink:emit " + text) == Write(text)
  {
    var line := "//" + (" " + ("@tslink" + (":" + ("emit" + ([' '] + text)))));
    assert line == "// @tslink:emit " + text;
    EmitDirectiveText(text);
    EmitRule(cfg, false, line);
  }

  lemma InjectDirectiveTarget(path: string)
    requires path == [] || !IsSpace(path[0])
    ensures InjectTarget("//" + (" " + ("@tslink" + (":" + ("inject" + ([' '] + path)))))) == Some(path)
  {
    var rest := "inject" + ([' '] + path);
    CanonicalDirective("inject", SomeSpaces, rest);
    assert ToLower("inject") == "inject";
    WordStep("inject", Then(SomeSpaces, End), "inject", [' '] + path);
    SpacesStep(End, [' '], path);
  }

  /** `// @tslink:inject <path>` outside an omit region injects `<path>`. */
  lemma InjectCanonical(cfg: Config, path: string)
    requires path == [] || !IsSpace(path[0])
    ensures Classify(cfg, false, "// @tslink:inject " + path) == Inject(path)
  {
    var line := "//" + (" " + ("@tslink" + (":" + ("inject" + ([' '] + path)))));
    assert line == "// @tslink:inject " + path;
    InjectDirectiveTarget(path);
    InjectRule(cfg, line);
  }

  lemma OmitKeyword(word: string, keyword: string, tail: string)
    requires word == "startomit" || word == "endomit"
    requires ToLower(keyword) == word
    ensures Match(Directive(word, EndOrSpace), "//" + (" " + ("@tslink" + (":" + (keyword + tail))))).Some?
            <==> tail == [] || IsSpace(tail[0])
  {
    var rest := keyword + tail;
    assert rest[0] == keyword[0] && LowerChar(keyword[0]) == ToLower(keyword)[0];
    CanonicalDirective(word, EndOrSpace, rest);
    WordStep(word, Then(EndOrSpace, End), keyword, tail);
  }

  /** The directive marker written out as one literal. */
  lemma SpelledMarker(rest: string)
    ensures "//" + (" " + ("@tslink" + (":" + rest))) == "// @tslink:" + rest
  {
    assert "//" + (" " + ("@tslink" + ":")) == "// @tslink:";
  }

  /** An omit keyword is matched in any case, and must be followed by the end of
      the line or white space. */
  lemma OmitKeywordBoundary(keyword: string, tail: string)
    requires ToLower(keyword) == "startomit"
    ensures IsStartOmit("// @tslink:" + keyword + tail) <==> tail == [] || IsSpace(tail[0])
  {
    OmitKeyword("startomit", keyword, tail);
    assert "// @tslink:" + keyword + tail == "// @tslink:" + (keyword + tail);
    SpelledMarker(keyword + tail);
  }

  /** The same boundary for `endOmit`: `// @tslink:endomitx` does not close a region. */
  lemma EndOmitKeywordBoundary(keyword: string, tail: string)
    requires ToLower(keyword) == "endomit"
    ensures IsEndOmit("// @tslink:" + keyword + tail) <==> tail == [] || IsSpace(tail[0])
  {
    OmitKeyword("endomit", keyword, tail);
    assert "// @tslink:" + keyword + tail == "// @tslink:" + (keyword + tail);
    SpelledMarker(keyword + tail);
  }

  /** `export <decl>` where `<decl>` starts with `{`: `rx.exportObj` matches, and what
      it leaves is `<decl>`; `rx.starExport` does not match. */
  lemma BraceExportTail(decl: string)
    requires decl != [] && decl[0] == '{'
    ensures ExportTail("export" + ([' '] + decl)) == Some(decl)
    ensures !IsStarExport("export" + ([' '] + decl))
  {
    var line := "export" + ([' '] + decl);
    SpacesStep(End, [' '], decl);
    SpacesStep(Then(Text("*"), End), [' '], decl);
    assert decl[..1] != "*" by { assert decl[..1][0] == '{'; }
    TextStep("export", Then(SomeSpaces, End), [' '] + decl);
    TextStep("export", Then(SomeSpaces, Then(Text("*"), End)), [' '] + decl);
    SpacesStep(Then(Text("export"), Then(SomeSpaces, End)), [], line);
    SpacesStep(Then(Text("export"), Then(SomeSpaces, Then(Text("*"), End))), [], line);
    assert [] + line == line;
  }

  /** After `export {`, `rx.export` reads ` x, y };` as a name cut short by white
      space and then no `}`. */
  lemma ListAfterBrace(x: string, y: string)
    requires x != [] && IsBindingText(x)
    requires y != [] && !IsSpace(y[0]) && y[0] != '}'
    ensures Match(Then(Spaces, Then(Name, Then(Spaces, Then(Text("}"), End)))),
                  [' '] + (x + ("," + ([' '] + (y + ([' '] + "};")))))) == None
  {
    var tail := y + ([' '] + "};");
    var r := [' '] + tail;
    assert tail[..1] != "}" by { assert tail[..1][0] == y[0]; }
    SpacesStep(Then(Text("}"), End), [' '], tail);
    assert IsBindingText(x + ",");
    NameStep(Then(Spaces, Then(Text("}"), End)), x + ",", r);
    assert (x + ",") + r == x + ("," + r);
    SpacesStep(Then(Name, Then(Spaces, Then(Text("}"), End))), [' '], x + ("," + r));
  }

  /** The binding list of `export { x, y };` is not a single name. */
  lemma ListIsNoSingleExport(x: string, y: string)
    requires x != [] && IsBindingText(x)
    requires y != [] && !IsSpace(y[0]) && y[0] != '}'
    ensures !IsSingleExport("export" + ([' '] + ("{" + ([' '] + (x + ("," + ([' '] + (y + ([' '] + "};")))))))))
  {
    var inner := [' '] + (x + ("," + ([' '] + (y + ([' '] + "};")))));
    var line := "export" + ([' '] + ("{" + inner));
    var p4 := Then(Spaces, Then(Name, Then(Spaces, Then(Text("}"), End))));
    ListAfterBrace(x, y);
    TextStep("{", p4, inner);
    SpacesStep(Then(Text("{"), p4), [' '], "{" + inner);
    TextStep("export", Then(Spaces, Then(Text("{"), p4)), [' '] + ("{" + inner));
    SpacesStep(Then(Text("export"), Then(Spaces, Then(Text("{"), p4))), [], line);
    assert [] + line == line;
  }

  /** `rx.export` takes a single name only: `export { x, y };` falls through to the
      declaration rule and is written as `{ x, y };`, whatever `preserveExport` says. */
  lemma ExportListQuirk(cfg: Config, x: string, y: string)
    requires x != [] && IsBindingText(x)
    requires y != [] && !IsSpace(y[0]) && y[0] != '}'
    ensures Classify(cfg, false, "export { " + x + ", " + y + " };") == Write("{ " + x + ", " + y + " };")
  {
    var decl := "{" + ([' '] + (x + ("," + ([' '] + (y + ([' '] + "};"))))));
    var line := "export" + ([' '] + decl);
    assert line == "export { " + x + ", " + y + " };";
    assert decl == "{ " + x + ", " + y + " };";
    ListIsNoSingleExport(x, y);
    BraceExportTail(decl);
    ExportDeclarationRule(cfg, false, line);
  }

  /** With no white space inside the braces, `rx.export` takes the whole list for
      one name: `export {x}` is an export statement, dropped unless exports are
      preserved, even when `x` is `a,b`. */
  lemma PackedExportIsSingle(x: string)
    requires x != [] && IsBindingText(x)
    ensures IsSingleExport("export {" + x + "}")
  {
    PackedExportMatches(x);
    assert "export" + ([' '] + ("{" + (x + "}"))) == "export {" + x + "}";
  }

  lemma PackedBinding(x: string)
    requires x != [] && IsBindingText(x)
    ensures Match(Then(Spaces, Then(Name, Then(Spaces, Then(Text("}"), End)))), x + "}") == Some([])
  {
    TextStep("}", End, []);
    SpacesStep(Then(Text("}"), End), [], "}" + []);
    NameStep(Then(Spaces, Then(Text("}"), End)), x, [] + ("}" + []));
    SpacesStep(Then(Name, Then(Spaces, Then(Text("}"), End))), [], x + ([] + ("}" + [])));
    assert [] + (x + ([] + ("}" + []))) == x + "}";
  }

  lemma PackedExportMatches(x: string)
    requires x != [] && IsBindingText(x)
    ensures IsSingleExport("export" + ([' '] + ("{" + (x + "}"))))
  {
    var p4 := Then(Spaces, Then(Name, Then(Spaces, Then(Text("}"), End))));
    var inner := x + "}";
    var line := "export" + ([' '] + ("{" + inner));
    assert ExportRx == Then(Spaces, Then(Text("export"), Then(Spaces, Then(Text("{"), p4))));
    PackedBinding(x);
    TextStep("{", p4, inner);
    SpacesStep(Then(Text("{"), p4), [' '], "{" + inner);
    TextStep("export", Then(Spaces, Then(Text("{"), p4)), [' '] + ("{" + inner));
    SpacesStep(Then(Text("export"), Then(Spaces, Then(Text("{"), p4))), [], line);
    assert [] + line == line;
  }

  /** `export { x };`, with white space inside the braces and a semicolon after,
      is a single-name export: dropped unless exports are preserved, and written
      unchanged outside omit regions when they are. */
  lemma SpacedExportRule(cfg: Config, omitting: bool, x: string)
    requires x != [] && IsBindingText(x)
    ensures IsSingleExport("export { " + x + " };")
    ensures Classify(cfg, omitting, "export { " + x + " };") ==
            if cfg.preserveExport && !omitting then Write("export { " + x + " };") else Drop
  {
    SpacedExportMatches(x);
    assert "export" + ([' '] + ("{" + ([' '] + (x + ([' '] + ("}" + ";"))))))
        == "export { " + x + " };";
    ExportStatementRule(cfg, omitting, "export { " + x + " };");
  }

  lemma SpacedBinding(x: string)
    requires x != [] && IsBindingText(x)
    ensures Match(Then(Spaces, Then(Name, Then(Spaces, Then(Text("}"), End)))),
                  [' '] + (x + ([' '] + ("}" + ";")))) == Some(";")
  {
    TextStep("}", End, ";");
    SpacesStep(Then(Text("}"), End), [' '], "}" + ";");
    NameStep(Then(Spaces, Then(Text("}"), End)), x, [' '] + ("}" + ";"));
    SpacesStep(Then(Name, Then(Spaces, Then(Text("}"), End))), [' '], x + ([' '] + ("}" + ";")));
  }

  lemma SpacedExportMatches(x: string)
    requires x != [] && IsBindingText(x)
    ensures IsSingleExport("export" + ([' '] + ("{" + ([' '] + (x + ([' '] + ("}" + ";")))))))
  {
    var p4 := Then(Spaces, Then(Name, Then(Spaces, Then(Text("}"), End))));
    var inner := [' '] + (x + ([' '] + ("}" + ";")));
    var line := "export" + ([' '] + ("{" + inner));
    SpacedBinding(x);
    TextStep("{", p4, inner);
    SpacesStep(Then(Text("{"), p4), [' '], "{" + inner);
    TextStep("export", Then(Spaces, Then(Text("{"), p4)), [' '] + ("{" + inner));
    SpacesStep(Then(Text("export"), Then(Spaces, Then(Text("{"), p4))), [], line);
    assert [] + line == line;
  }
}
