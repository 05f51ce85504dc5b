/** The few JavaScript primitives the plugin leans on: the `\s` character class
    (which `String.prototype.trim` shares), `trim`, `toLowerCase` as far as the
    plugin's comparisons can observe it, `isString` and truthiness (`!!x`). */
module Js {

  datatype Option<+T> = None | Some(value: T)

  /** A character matched by JavaScript's `\s` and removed by `trim`:
      WhiteSpace (TAB, VT, FF, SP, NBSP, ZWNBSP and category Zs) and
      LineTerminator (LF, CR, LS, PS). */
  predicate IsSpace(c: char) {
    c == '\t' || c == '\n' || c == '\U{000B}' || c == '\U{000C}' || c == '\r' || c == ' ' ||
    c == '\U{00A0}' || c == '\U{1680}' || ('\U{2000}' <= c <= '\U{200A}') ||
    c == '\U{2028}' || c == '\U{2029}' || c == '\U{202F}' || c == '\U{205F}' ||
    c == '\U{3000}' || c == '\U{FEFF}'
  }

  predicate AllSpace(s: string) {
    forall i :: 0 <= i < |s| ==> IsSpace(s[i])
  }

  /** `s` with its leading white space removed (what a leading `\s*` consumes). */
  function TrimStart(s: string): (r: string)
    ensures |r| <= |s|
    ensures r == [] || !IsSpace(r[0])
  {
    if s != [] && IsSpace(s[0]) then TrimStart(s[1..]) else s
  }

  /** `TrimStart` removes a prefix, and that prefix is white space. */
  lemma {:induction false} TrimStartRemovesSpace(s: string)
    ensures TrimStart(s) == s[|s| - |TrimStart(s)|..]
    ensures AllSpace(s[..|s| - |TrimStart(s)|])
  {
    if s != [] && IsSpace(s[0]) {
      TrimStartRemovesSpace(s[1..]);
      assert s[..|s| - |TrimStart(s)|] == [s[0]] + s[1..][..|s| - 1 - |TrimStart(s[1..])|];
    }
  }

  /** `s` with its trailing white space removed. */
  function TrimEnd(s: string): (r: string)
    ensures |r| <= |s|
    ensures r == [] || !IsSpace(r[|r| - 1])
  {
    if s != [] && IsSpace(s[|s| - 1]) then TrimEnd(s[..|s| - 1]) else s
  }

  /** `TrimEnd` removes a suffix, and that suffix is white space. */
  lemma {:induction false} TrimEndRemovesSpace(s: string)
    ensures TrimEnd(s) == s[..|TrimEnd(s)|]
    ensures AllSpace(s[|TrimEnd(s)|..])
  {
    if s != [] && IsSpace(s[|s| - 1]) {
      TrimEndRemovesSpace(s[..|s| - 1]);
      assert s[|TrimEnd(s)|..] == s[..|s| - 1][|TrimEnd(s[..|s| - 1])|..] + [s[|s| - 1]];
    }
  }

  /** What `TrimEnd(TrimStart(s))` keeps is a slice of `s` with only white space
      before and after it. */
  lemma TrimIsSlice(s: string)
    ensures var i := |s| - |TrimStart(s)|;
            var j := i + |TrimEnd(TrimStart(s))|;
            j <= |s| && TrimEnd(TrimStart(s)) == s[i..j] && AllSpace(s[..i]) && AllSpace(s[j..])
  {
    TrimStartRemovesSpace(s);
    TrimEndRemovesSpace(TrimStart(s));
    SpaceAround(s, TrimStart(s), TrimEnd(TrimStart(s)));
  }

  /** A white-space prefix cut from `s`, then a white-space suffix cut from what
      is left, leave a slice of `s`. */
  lemma SpaceAround(s: string, t: string, u: string)
    requires |t| <= |s| && t == s[|s| - |t|..] && AllSpace(s[..|s| - |t|])
    requires |u| <= |t| && u == t[..|u|] && AllSpace(t[|u|..])
    ensures var i := |s| - |t|;
            u == s[i..i + |u|] && AllSpace(s[..i]) && AllSpace(s[i + |u|..])
  {
    var i := |s| - |t|;
    assert s[i..i + |u|] == t[..|u|];
    assert s[i + |u|..] == t[|u|..];
  }

  /** `String.prototype.trim`: the slice of `s` between its leading and trailing
      white space, empty exactly when `s` holds nothing but white space. */
  function Trim(s: string): (r: string)
    ensures r == [] <==> AllSpace(s)
    ensures r == [] || (!IsSpace(r[0]) && !IsSpace(r[|r| - 1]))
    ensures exists i, j :: 0 <= i <= j <= |s| && r == s[i..j] && AllSpace(s[..i]) && AllSpace(s[j..])
  {
    TrimIsSlice(s);
    var i := |s| - |TrimStart(s)|;
    var j := i + |TrimEnd(TrimStart(s))|;
    var t := TrimStart(s);
    TrimEndRemovesSpace(t);
    assert TrimEnd(t) != [] ==> TrimEnd(t)[0] == t[0];
    assert TrimEnd(t) == [] ==> s == s[..i] + s[j..];
    TrimEnd(t)
  }

  /** Case folding of one character, for ASCII letters only. For the `/i`
      regular expressions of the linker this is exact: without the `u` flag,
      the Canonicalize operation of ECMA-262 upper-cases a character but never
      maps one at or above 128 to one below it, so a character matches an ASCII
      letter of the pattern exactly when it is that letter in either case.
      `toLowerCase` does map two other characters to ASCII: U+212A KELVIN SIGN to
      `k`, and U+0130 to `i` followed by U+0307. Neither can make a string
      lower-case and trim to `input`, `buffer` or `stream`: none of them holds a
      `k`, and the U+0307 left behind is not white space, so it stays. */
  function LowerChar(c: char): (l: char) {
    if 'A' <= c <= 'Z' then (c as int + 32) as char else c
  }

  function ToLower(s: string): (r: string)
    ensures |r| == |s|
    ensures forall i :: 0 <= i < |r| ==> !('A' <= r[i] <= 'Z')
    ensures forall i :: 0 <= i < |s| ==>
              r[i] == s[i] || ('A' <= s[i] <= 'Z' && r[i] as int == s[i] as int + 32)
  {
    seq(|s|, i requires 0 <= i < |s| => LowerChar(s[i]))
  }

  predicate StartsWith(s: string, prefix: string) {
    |prefix| <= |s| && s[..|prefix|] == prefix
  }

  /** A `/i` regular-expression match of the lower-case word `word` at the start of `s`. */
  predicate StartsWithIgnoreCase(s: string, word: string) {
    |word| <= |s| && ToLower(s[..|word|]) == word
  }

  /** The JavaScript values an option can hold, as far as the plugin tells them
      apart: numbers, objects and functions only through their truthiness. */
  datatype Value = Undefined | Null | Bool(b: bool) | Str(s: string) | Other(truthy: bool)

  /** `!!v`: false exactly for the falsy values `undefined`, `null`, `false`, the
      empty string, and the falsy values of other types (`0`, `NaN`). */
  predicate Truthy(v: Value)
    ensures !Truthy(v) <==> v in {Undefined, Null, Bool(false), Str(""), Other(false)}
  {
    match v
    case Undefined => false
    case Null => false
    case Bool(b) => b
    case Str(s) => s != []
    case Other(t) => t
  }
}
