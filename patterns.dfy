/** Anchored regular expressions of the shapes `readFromBuffer` uses (index.js:101-110),
    as sequences of tokens; a greedy matcher that never backtracks; and, beside it,
    the backtracking semantics of ECMAScript regular expressions, against which the
    matcher is proved exact on every pattern in which a repetition is followed by
    something it could not have taken. */
module Patterns {
  import opened Js

  /** One piece of an anchored regular expression. */
  datatype Token =
    | Spaces               // `\s*`
    | SomeSpaces           // `\s+`
    | OneSpace             // `\s`
    | Text(chars: string)  // these characters, exactly
    | Word(lower: string)  // these lower-case letters in any case, as under `/i`
    | Name                 // `[^}\s]+`
    | EndOrSpace           // `($|\s.*)`

  /** An expression: its tokens in order, anchored at the start of the input. */
  datatype Pattern = End | Then(head: Token, tail: Pattern)

  /** The characters `.` does not match. */
  predicate IsLineTerminator(c: char) {
    c == '\n' || c == '\r' || c == '\U{2028}' || c == '\U{2029}'
  }

  /** The characters `[^}\s]` matches. */
  predicate NameChar(c: char) {
    !IsSpace(c) && c != '}'
  }

  /** The length of the longest prefix of `s` of characters `[^}\s]` accepts
      (what a greedy `[^}\s]+` takes). */
  function BindingLength(s: string): (n: nat)
    ensures n <= |s|
    ensures forall i :: 0 <= i < n ==> NameChar(s[i])
    ensures n < |s| ==> !NameChar(s[n])
  {
    if s != [] && NameChar(s[0]) then 1 + BindingLength(s[1..]) else 0
  }

  /** The length of the longest prefix of `s` without a line terminator (what a
      greedy `.*` takes). */
  function LineLength(s: string): (n: nat)
    ensures n <= |s|
    ensures forall i :: 0 <= i < n ==> !IsLineTerminator(s[i])
    ensures n < |s| ==> IsLineTerminator(s[n])
  {
    if s != [] && !IsLineTerminator(s[0]) then 1 + LineLength(s[1..]) else 0
  }

  /** The text left after a match of `p` at the start of `s`, or `None` when `p`
      does not match there. Every repetition takes as much as it can and never gives
      any back; `GreedyMatchIsExact` shows that this is what `test` and `replace`
      find, for the patterns `Separated` describes. */
  function Match(p: Pattern, s: string): (r: Option<string>)
    ensures r.Some? ==> |r.value| <= |s|
  {
    match p
    case End => Some(s)
    case Then(t, rest) =>
      match t
      case Spaces => Match(rest, TrimStart(s))
      case SomeSpaces => if s != [] && IsSpace(s[0]) then Match(rest, TrimStart(s)) else None
      case OneSpace => if s != [] && IsSpace(s[0]) then Match(rest, s[1..]) else None
      case Text(chars) => if StartsWith(s, chars) then Match(rest, s[|chars|..]) else None
      case Word(lower) => if StartsWithIgnoreCase(s, lower) then Match(rest, s[|lower|..]) else None
      case Name =>
        var n := BindingLength(s);
        if n > 0 then Match(rest, s[n..]) else None
      case EndOrSpace =>
        if s == [] then Match(rest, s)
        else if IsSpace(s[0]) then Match(rest, s[1 + LineLength(s[1..])..])
        else None
  }

  /** `p`, then `q`. */
  function Concat(p: Pattern, q: Pattern): Pattern {
    match p
    case End => q
    case Then(t, rest) => Then(t, Concat(rest, q))
  }

  /** Matching `p` then `q` is matching `p`, then `q` on what `p` leaves. */
  lemma {:induction false} MatchConcat(p: Pattern, q: Pattern, s: string)
    ensures Match(Concat(p, q), s) == if Match(p, s).None? then None else Match(q, Match(p, s).value)
  {
    match p
    case End =>
    case Then(t, rest) =>
      match t
      case Spaces => MatchConcat(rest, q, TrimStart(s));
      case SomeSpaces => if s != [] && IsSpace(s[0]) { MatchConcat(rest, q, TrimStart(s)); }
      case OneSpace => if s != [] && IsSpace(s[0]) { MatchConcat(rest, q, s[1..]); }
      case Text(chars) => if StartsWith(s, chars) { MatchConcat(rest, q, s[|chars|..]); }
      case Word(lower) => if StartsWithIgnoreCase(s, lower) { MatchConcat(rest, q, s[|lower|..]); }
      case Name => if BindingLength(s) > 0 { MatchConcat(rest, q, s[BindingLength(s)..]); }
      case EndOrSpace =>
        if s == [] {
          MatchConcat(rest, q, s);
        } else if IsSpace(s[0]) {
          MatchConcat(rest, q, s[1 + LineLength(s[1..])..]);
        }
  }

  // ----- the backtracking semantics -----

  /** `p` can match at the start of `s` and leave `r`, for some choice of how often
      each repetition repeats and which alternative is taken: the matches a
      backtracking ECMAScript matcher can find. */
  ghost predicate Leaves(p: Pattern, s: string, r: string)
    decreases p, |s|, 0
  {
    match p
    case End => r == s
    case Then(t, rest) =>
      match t
      case Spaces => Leaves(rest, s, r) || (s != [] && IsSpace(s[0]) && Leaves(p, s[1..], r))
      case SomeSpaces => s != [] && IsSpace(s[0]) && (Leaves(rest, s[1..], r) || Leaves(p, s[1..], r))
      case OneSpace => s != [] && IsSpace(s[0]) && Leaves(rest, s[1..], r)
      case Text(chars) => StartsWith(s, chars) && Leaves(rest, s[|chars|..], r)
      case Word(lower) => StartsWithIgnoreCase(s, lower) && Leaves(rest, s[|lower|..], r)
      case Name => s != [] && NameChar(s[0]) && (Leaves(rest, s[1..], r) || Leaves(p, s[1..], r))
      case EndOrSpace => (s == [] && Leaves(rest, s, r)) || (s != [] && IsSpace(s[0]) && AnyLine(rest, s[1..], r))
  }

  /** `.*`, then `rest`, can match at the start of `s` and leave `r`. */
  ghost predicate AnyLine(rest: Pattern, s: string, r: string)
    decreases rest, |s|, 1
  {
    Leaves(rest, s, r) || (s != [] && !IsLineTerminator(s[0]) && AnyLine(rest, s[1..], r))
  }

  /** Every string `p` matches starts with a character that is not white space. */
  predicate StartsSolid(p: Pattern) {
    p.Then? &&
    match p.head
    case Text(chars) => chars != [] && !IsSpace(chars[0])
    case Word(lower) => lower != [] && !IsSpace(lower[0])
    case Name => true
    case _ => false
  }

  /** Every string `p` matches starts with a character `[^}\s]` rejects. */
  predicate StopsName(p: Pattern) {
    p.Then? &&
    match p.head
    case Spaces => p.tail.Then? && p.tail.head.Text? && p.tail.head.chars != [] && !NameChar(p.tail.head.chars[0])
    case SomeSpaces => true
    case OneSpace => true
    case Text(chars) => chars != [] && !NameChar(chars[0])
    case _ => false
  }

  /** No repetition of `p` could take what follows it, and `($|\s.*)` only ends an
      expression: the only choice left to a backtracking matcher is how far the
      final repetition goes. */
  predicate Separated(p: Pattern) {
    match p
    case End => true
    case Then(t, rest) =>
      Separated(rest) &&
      ((t.Spaces? || t.SomeSpaces?) ==> rest == End || StartsSolid(rest)) &&
      (t.Name? ==> StopsName(rest)) &&
      (t.EndOrSpace? ==> rest == End)
  }

  /** On a separated pattern the greedy matcher is exact: it matches exactly when
      some match exists (what `test` answers), and what it leaves is what the
      longest match leaves, which is the match `replace` removes, since greedy
      repetitions are tried longest first. */
  lemma GreedyMatchIsExact(p: Pattern, s: string)
    requires Separated(p)
    ensures Match(p, s).Some? <==> exists r :: Leaves(p, s, r)
    ensures Match(p, s).Some? ==>
              Leaves(p, s, Match(p, s).value) &&
              forall r :: Leaves(p, s, r) ==> |Match(p, s).value| <= |r|
  {
    if Match(p, s).Some? {
      MatchSound(p, s);
      var r := Match(p, s).value;
      assert Leaves(p, s, r);
      assert exists r :: Leaves(p, s, r);
    }
    if exists r :: Leaves(p, s, r) {
      var r :| Leaves(p, s, r);
      MatchGreedy(p, s, r);
    }
    forall r | Leaves(p, s, r) ensures Match(p, s).Some? && |Match(p, s).value| <= |r| {
      MatchGreedy(p, s, r);
    }
  }

  // ----- soundness: the greedy match is a match -----

  lemma {:induction false} MatchSound(p: Pattern, s: string)
    requires Match(p, s).Some?
    ensures Leaves(p, s, Match(p, s).value)
    decreases p
  {
    var r := Match(p, s).value;
    match p
    case End =>
    case Then(t, rest) =>
      match t
      case Spaces =>
        MatchSound(rest, TrimStart(s));
        SpacesSound(rest, s, r);
      case SomeSpaces =>
        MatchSound(rest, TrimStart(s));
        SpacesSound(rest, s[1..], r);
        SomeSpacesSound(rest, s, r);
      case OneSpace => MatchSound(rest, s[1..]);
      case Text(chars) => MatchSound(rest, s[|chars|..]);
      case Word(lower) => MatchSound(rest, s[|lower|..]);
      case Name =>
        MatchSound(rest, s[BindingLength(s)..]);
        NameSound(rest, s, BindingLength(s), r);
      case EndOrSpace =>
        if s == [] {
          MatchSound(rest, s);
        } else {
          MatchSound(rest, s[1 + LineLength(s[1..])..]);
          assert s[1..][LineLength(s[1..])..] == s[1 + LineLength(s[1..])..];
          AnyLineSound(rest, s[1..], LineLength(s[1..]), r);
        }
  }

  /** `\s*` can stop after all of the leading white space. */
  lemma {:induction false} SpacesSound(rest: Pattern, s: string, r: string)
    requires Leaves(rest, TrimStart(s), r)
    ensures Leaves(Then(Spaces, rest), s, r)
    decreases |s|
  {
    if s != [] && IsSpace(s[0]) {
      SpacesSound(rest, s[1..], r);
    }
  }

  /** `\s+` is one white-space character, then `\s*`. */
  lemma {:induction false} SomeSpacesSound(rest: Pattern, s: string, r: string)
    requires s != [] && IsSpace(s[0]) && Leaves(Then(Spaces, rest), s[1..], r)
    ensures Leaves(Then(SomeSpaces, rest), s, r)
    decreases |s|
  {
    if !Leaves(rest, s[1..], r) {
      SomeSpacesSound(rest, s[1..], r);
    }
  }

  /** `[^}\s]+` can stop after any of its first `k` characters. */
  lemma {:induction false} NameSound(rest: Pattern, s: string, k: nat, r: string)
    requires 1 <= k <= BindingLength(s) && Leaves(rest, s[k..], r)
    ensures Leaves(Then(Name, rest), s, r)
    decreases k
  {
    if k > 1 {
      assert s[1..][k - 1..] == s[k..];
      NameSound(rest, s[1..], k - 1, r);
    }
  }

  /** `.*` can stop after any of its first `k` characters. */
  lemma {:induction false} AnyLineSound(rest: Pattern, s: string, k: nat, r: string)
    requires k <= LineLength(s) && Leaves(rest, s[k..], r)
    ensures AnyLine(rest, s, r)
    decreases k
  {
    if k > 0 {
      assert s[1..][k - 1..] == s[k..];
      AnyLineSound(rest, s[1..], k - 1, r);
    }
  }

  // ----- greed: no match leaves less -----

  lemma {:induction false} MatchGreedy(p: Pattern, s: string, r: string)
    requires Separated(p) && Leaves(p, s, r)
    ensures Match(p, s).Some? && |Match(p, s).value| <= |r|
    decreases p, 0
  {
    match p
    case End =>
    case Then(t, rest) =>
      match t
      case Spaces => SpacesGreedy(rest, s, r);
      case SomeSpaces =>
        SomeIsMany(rest, s, r);
        SpacesGreedy(rest, s, r);
      case OneSpace => MatchGreedy(rest, s[1..], r);
      case Text(chars) => MatchGreedy(rest, s[|chars|..], r);
      case Word(lower) => MatchGreedy(rest, s[|lower|..], r);
      case Name =>
        NameForced(rest, s, r);
        MatchGreedy(rest, s[BindingLength(s)..], r);
      case EndOrSpace =>
        if s != [] {
          AnyLineEnd(s[1..], r);
          assert s[1..][LineLength(s[1..])..] == s[1 + LineLength(s[1..])..];
        }
  }

  lemma SpacesGreedy(rest: Pattern, s: string, r: string)
    requires Separated(Then(Spaces, rest)) && Leaves(Then(Spaces, rest), s, r)
    ensures Match(Then(Spaces, rest), s).Some? && |Match(Then(Spaces, rest), s).value| <= |r|
    decreases rest, 1
  {
    if rest == End {
      SpacesEnd(s, r);
    } else {
      SpacesForced(rest, s, r);
      MatchGreedy(rest, TrimStart(s), r);
    }
  }

  /** A trailing `\s*` takes at most the leading white space. */
  lemma {:induction false} SpacesEnd(s: string, r: string)
    requires Leaves(Then(Spaces, End), s, r)
    ensures |TrimStart(s)| <= |r|
    decreases |s|
  {
    if !Leaves(End, s, r) {
      SpacesEnd(s[1..], r);
    }
  }

  /** Before a pattern that cannot start with white space, `\s*` takes all of it. */
  lemma {:induction false} SpacesForced(rest: Pattern, s: string, r: string)
    requires StartsSolid(rest) && Leaves(Then(Spaces, rest), s, r)
    ensures Leaves(rest, TrimStart(s), r)
    decreases |s|
  {
    if s != [] && IsSpace(s[0]) {
      if Leaves(rest, s, r) {
        SolidStart(rest, s, r);
      }
      SpacesForced(rest, s[1..], r);
    }
  }

  /** `\s+` matches nothing `\s*` does not. */
  lemma {:induction false} SomeIsMany(rest: Pattern, s: string, r: string)
    requires Leaves(Then(SomeSpaces, rest), s, r)
    ensures Leaves(Then(Spaces, rest), s, r) && s != [] && IsSpace(s[0])
    decreases |s|
  {
    if !Leaves(rest, s[1..], r) {
      SomeIsMany(rest, s[1..], r);
    }
  }

  /** Before a pattern that starts with white space or `}`, `[^}\s]+` takes the whole run. */
  lemma {:induction false} NameForced(rest: Pattern, s: string, r: string)
    requires StopsName(rest) && Leaves(Then(Name, rest), s, r)
    ensures BindingLength(s) > 0 && Leaves(rest, s[BindingLength(s)..], r)
    decreases |s|
  {
    if Leaves(rest, s[1..], r) {
      if s[1..] != [] && NameChar(s[1..][0]) {
        NameStop(rest, s[1..], r);
      }
      assert s[1..][BindingLength(s[1..])..] == s[BindingLength(s)..];
    } else {
      NameForced(rest, s[1..], r);
      assert s[1..][BindingLength(s[1..])..] == s[BindingLength(s)..];
    }
  }

  /** A trailing `.*` takes at most the rest of the line. */
  lemma {:induction false} AnyLineEnd(s: string, r: string)
    requires AnyLine(End, s, r)
    ensures |s| - LineLength(s) <= |r|
    decreases |s|
  {
    if !Leaves(End, s, r) {
      AnyLineEnd(s[1..], r);
    }
  }

  lemma SolidStart(p: Pattern, s: string, r: string)
    requires StartsSolid(p) && Leaves(p, s, r)
    ensures s != [] && !IsSpace(s[0])
  {
    match p.head
    case Text(chars) => assert s[..|chars|][0] == s[0];
    case Word(lower) =>
      assert ToLower(s[..|lower|])[0] == LowerChar(s[0]);
    case Name =>
  }

  lemma NameStop(p: Pattern, s: string, r: string)
    requires StopsName(p) && Leaves(p, s, r)
    ensures s != [] && !NameChar(s[0])
  {
    match p.head
    case Spaces =>
      var chars := p.tail.head.chars;
      if !(s != [] && IsSpace(s[0])) {
        assert Leaves(p.tail, s, r);
        assert s[..|chars|][0] == s[0];
      }
    case SomeSpaces =>
    case OneSpace =>
    case Text(chars) => assert s[..|chars|][0] == s[0];
  }

  // ----- steps of the greedy matcher on text of a known shape -----

  lemma {:induction false} TrimStartSpaces(sp: string, tail: string)
    requires AllSpace(sp) && (tail == [] || !IsSpace(tail[0]))
    ensures TrimStart(sp + tail) == tail
  {
    if sp == [] {
      assert sp + tail == tail;
    } else {
      assert (sp + tail)[0] == sp[0];
      assert (sp + tail)[1..] == sp[1..] + tail;
      TrimStartSpaces(sp[1..], tail);
    }
  }

  /** `\s*` takes all of the white space `sp`, up to a character that is not. */
  lemma SpacesStep(rest: Pattern, sp: string, tail: string)
    requires AllSpace(sp) && (tail == [] || !IsSpace(tail[0]))
    ensures Match(Then(Spaces, rest), sp + tail) == Match(rest, tail)
    ensures sp != [] ==> Match(Then(SomeSpaces, rest), sp + tail) == Match(rest, tail)
  {
    TrimStartSpaces(sp, tail);
    if sp != [] {
      assert (sp + tail)[0] == sp[0];
    }
  }

  /** A literal takes exactly its own characters. */
  lemma TextStep(chars: string, rest: Pattern, tail: string)
    ensures Match(Then(Text(chars), rest), chars + tail) == Match(rest, tail)
  {
    assert (chars + tail)[..|chars|] == chars && (chars + tail)[|chars|..] == tail;
  }

  /** A word under `/i` takes any spelling `w` of it. */
  lemma WordStep(lower: string, rest: Pattern, w: string, tail: string)
    requires ToLower(w) == lower
    ensures Match(Then(Word(lower), rest), w + tail) == Match(rest, tail)
  {
    assert (w + tail)[..|w|] == w && (w + tail)[|w|..] == tail;
  }

  /** `\s` takes one white-space character. */
  lemma OneSpaceStep(rest: Pattern, c: char, tail: string)
    requires IsSpace(c)
    ensures Match(Then(OneSpace, rest), [c] + tail) == Match(rest, tail)
  {
    assert ([c] + tail)[0] == c && ([c] + tail)[1..] == tail;
  }

  /** A run of characters that `[^}\s]` accepts. */
  predicate IsBindingText(x: string) {
    forall i :: 0 <= i < |x| ==> NameChar(x[i])
  }

  lemma {:induction false} BindingLengthAppend(x: string, rest: string)
    requires IsBindingText(x)
    ensures BindingLength(x + rest) == |x| + BindingLength(rest)
  {
    if x == [] {
      assert x + rest == rest;
    } else {
      assert (x + rest)[0] == x[0];
      assert (x + rest)[1..] == x[1..] + rest;
      BindingLengthAppend(x[1..], rest);
    }
  }

  /** `[^}\s]+` takes the whole run `x`, up to white space or `}`. */
  lemma NameStep(rest: Pattern, x: string, tail: string)
    requires x != [] && IsBindingText(x)
    requires tail == [] || !NameChar(tail[0])
    ensures Match(Then(Name, rest), x + tail) == Match(rest, tail)
  {
    BindingLengthAppend(x, tail);
    assert (x + tail)[|x|..] == tail;
  }
}
