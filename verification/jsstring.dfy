/**
 * The parts of JavaScript's `String.prototype` and of the regular expression
 * `/^[0-9]+$/` that the modelled code relies on: `trim`, `split` on one
 * character, `join`, `includes`, and the digit test.
 */
module JsString {

  /** The characters `String.prototype.trim` removes: WhiteSpace and LineTerminator of ECMAScript. */
  predicate IsWhitespace(c: char) {
    || c == '\t' || c == '\n' || c == '\U{000B}' || c == '\U{000C}' || c == '\r' || c == ' '
    || c == '\U{00A0}' || c == '\U{1680}' || ('\U{2000}' <= c <= '\U{200A}')
    || c == '\U{2028}' || c == '\U{2029}' || c == '\U{202F}' || c == '\U{205F}'
    || c == '\U{3000}' || c == '\U{FEFF}'
  }

  predicate AllWhitespace(s: string) {
    forall i :: 0 <= i < |s| ==> IsWhitespace(s[i])
  }

  /** Neither end of `s` is whitespace (vacuous for the empty string). */
  predicate IsTrimmed(s: string) {
    s == [] || (!IsWhitespace(s[0]) && !IsWhitespace(s[|s| - 1]))
  }

  /** Drops the leading whitespace: the result is the suffix that starts at the first other character. */
  function TrimStart(s: string): (r: string)
    ensures |r| <= |s| && r == s[|s| - |r|..]
    ensures r == [] || !IsWhitespace(r[0])
  {
    if |s| > 0 && IsWhitespace(s[0]) then TrimStart(s[1..]) else s
  }

  /** What `TrimStart` drops is whitespace. */
  lemma {:induction false} TrimStartDropsWhitespace(s: string)
    ensures AllWhitespace(s[..|s| - |TrimStart(s)|])
  {
    if |s| > 0 && IsWhitespace(s[0]) {
      var r := TrimStart(s[1..]);
      TrimStartDropsWhitespace(s[1..]);
      var dropped, rest := s[..|s| - |r|], s[1..][..|s| - 1 - |r|];
      forall i | 0 <= i < |dropped| ensures IsWhitespace(dropped[i]) {
        if i > 0 { assert dropped[i] == rest[i - 1]; }
      }
    }
  }

  /** Drops the trailing whitespace: the result is the prefix that ends at the last other character. */
  function TrimEnd(s: string): (r: string)
    ensures |r| <= |s| && r == s[..|r|]
    ensures r == [] || !IsWhitespace(r[|r| - 1])
  {
    if |s| > 0 && IsWhitespace(s[|s| - 1]) then TrimEnd(s[..|s| - 1]) else s
  }

  /** What `TrimEnd` drops is whitespace. */
  lemma {:induction false} TrimEndDropsWhitespace(s: string)
    ensures AllWhitespace(s[|TrimEnd(s)|..])
  {
    if |s| > 0 && IsWhitespace(s[|s| - 1]) {
      var r := TrimEnd(s[..|s| - 1]);
      TrimEndDropsWhitespace(s[..|s| - 1]);
      var dropped, rest := s[|r|..], s[..|s| - 1][|r|..];
      forall i | 0 <= i < |dropped| ensures IsWhitespace(dropped[i]) {
        if i < |rest| { assert dropped[i] == rest[i]; }
      }
    }
  }

  /** `s.trim()`. */
  function Trim(s: string): (r: string)
    ensures |r| <= |s|
    ensures IsTrimmed(r)
    ensures r == [] <==> AllWhitespace(s)
  {
    TrimEndOfTrimStart(s);
    TrimEnd(TrimStart(s))
  }

  /** Trimming both ends leaves neither end whitespace, and leaves nothing exactly when all was whitespace. */
  lemma TrimEndOfTrimStart(s: string)
    ensures var r := TrimEnd(TrimStart(s));
            && IsTrimmed(r)
            && (r == [] <==> AllWhitespace(s))
  {
    if TrimEnd(TrimStart(s)) == [] {
      TrimmedToNothing(s);
    } else {
      TrimmedToSomething(s);
    }
  }

  lemma TrimmedToNothing(s: string)
    requires TrimEnd(TrimStart(s)) == []
    ensures AllWhitespace(s)
  {
    var t := TrimStart(s);
    assert t == [] by {
      TrimEndDropsWhitespace(t);
      assert t[0..] == t;
    }
    TrimStartDropsWhitespace(s);
    assert s[..|s|] == s;
  }

  lemma TrimmedToSomething(s: string)
    requires TrimEnd(TrimStart(s)) != []
    ensures IsTrimmed(TrimEnd(TrimStart(s)))
    ensures !AllWhitespace(s)
  {
    var t := TrimStart(s);
    var r := TrimEnd(t);
    assert r[0] == t[0] == s[|s| - |t|];
  }

  /** Whitespace on either side of a trimmed core is exactly what `trim` removes. */
  lemma {:induction false} TrimPadded(p: string, d: string, q: string)
    requires AllWhitespace(p) && AllWhitespace(q) && IsTrimmed(d)
    ensures Trim(p + d + q) == d
  {
    var s := p + d + q;
    if d == [] {
      assert s == p + q;
      assert AllWhitespace(s) by {
        forall i | 0 <= i < |s| ensures IsWhitespace(s[i]) {
          if i < |p| { assert s[i] == p[i]; } else { assert s[i] == q[i - |p|]; }
        }
      }
    } else {
      assert s == p + (d + q);
      assert (d + q)[0] == d[0];
      TrimStartPadded(p, d + q);
      TrimEndPadded(d, q);
    }
  }

  lemma {:induction false} TrimStartPadded(p: string, s: string)
    requires AllWhitespace(p) && (s == [] || !IsWhitespace(s[0]))
    ensures TrimStart(p + s) == s
  {
    if p != [] {
      assert (p + s)[1..] == p[1..] + s;
      TrimStartPadded(p[1..], s);
    }
  }

  lemma {:induction false} TrimEndPadded(s: string, q: string)
    requires AllWhitespace(q) && (s == [] || !IsWhitespace(s[|s| - 1]))
    ensures TrimEnd(s + q) == s
  {
    if q != [] {
      assert (s + q)[..|s + q| - 1] == s + q[..|q| - 1];
      TrimEndPadded(s, q[..|q| - 1]);
    }
  }

  /** A trimmed string is its own `trim`. */
  lemma TrimOfTrimmed(d: string)
    requires IsTrimmed(d)
    ensures Trim(d) == d
  {
    assert TrimStart(d) == d;
    assert TrimEnd(d) == d;
  }

  /** `trim` is idempotent. */
  lemma TrimIdempotent(s: string)
    ensures Trim(Trim(s)) == Trim(s)
  {
    TrimOfTrimmed(Trim(s));
  }

  predicate IsAsciiDigit(c: char) {
    '0' <= c <= '9'
  }

  /** `/^[0-9]+$/.test(s)`: at least one character, every one an ASCII digit. */
  predicate DigitsRegex(s: string) {
    |s| >= 1 && forall i :: 0 <= i < |s| ==> IsAsciiDigit(s[i])
  }

  /** A string of ASCII digits has no whitespace at either end. */
  lemma DigitsAreTrimmed(s: string)
    requires DigitsRegex(s)
    ensures IsTrimmed(s)
  {
  }

  /** The first index of `c` in `s`, or `|s|` when there is none. */
  function IndexOf(s: string, c: char): (i: nat)
    ensures i <= |s|
    ensures i < |s| ==> s[i] == c
    ensures forall j :: 0 <= j < i ==> s[j] != c
  {
    if s == [] then 0
    else if s[0] == c then 0
    else 1 + IndexOf(s[1..], c)
  }

  /** `s.split(sep)` for a one-character separator: the pieces between the separators, empty ones included. */
  function Split(s: string, sep: char): (parts: seq<string>)
    ensures |parts| >= 1
    ensures forall k :: 0 <= k < |parts| ==> sep !in parts[k]
    decreases |s|
  {
    var i := IndexOf(s, sep);
    if i == |s| then [s] else [s[..i]] + Split(s[i + 1..], sep)
  }

  /** `parts.join(sep)`. */
  function Join(parts: seq<string>, sep: string): string
  {
    if |parts| == 0 then ""
    else if |parts| == 1 then parts[0]
    else parts[0] + sep + Join(parts[1..], sep)
  }

  /** `s.includes(t)`. */
  predicate Includes(s: string, t: string) {
    exists i :: 0 <= i <= |s| - |t| && OccursAt(s, t, i)
  }

  predicate OccursAt(s: string, t: string, i: int)
    requires 0 <= i <= |s| - |t|
  {
    s[i..i + |t|] == t
  }

  /** `t` prepended to every element of `parts`. */
  function PrependEach(t: string, parts: seq<string>): (r: seq<string>)
    ensures |r| == |parts|
    ensures forall k :: 0 <= k < |parts| ==> r[k] == t + parts[k]
  {
    if parts == [] then [] else [t + parts[0]] + PrependEach(t, parts[1..])
  }

  lemma SplitNoSeparator(s: string, sep: char)
    requires sep !in s
    ensures Split(s, sep) == [s]
  {
  }

  lemma SplitAtSeparator(a: string, b: string, sep: char)
    requires sep !in a
    ensures Split(a + [sep] + b, sep) == [a] + Split(b, sep)
  {
    var s := a + [sep] + b;
    assert s[|a|] == sep;
    assert IndexOf(s, sep) == |a|;
    assert s[..|a|] == a && s[|a| + 1..] == b;
  }

  /**
   * Splitting what `join` built with the separator `[sep] + t` gives back the
   * parts, each after the first carrying the filler `t`.
   */
  lemma {:induction false} SplitJoin(u: string, parts: seq<string>, sep: char, t: string)
    requires |parts| >= 1
    requires sep !in u && sep !in t
    requires forall k :: 0 <= k < |parts| ==> sep !in parts[k]
    ensures Split(u + Join(parts, [sep] + t), sep) == [u + parts[0]] + PrependEach(t, parts[1..])
    decreases |parts|
  {
    if |parts| == 1 {
      SplitNoSeparator(u + parts[0], sep);
    } else {
      var rest := Join(parts[1..], [sep] + t);
      assert u + Join(parts, [sep] + t) == (u + parts[0]) + [sep] + (t + rest);
      SplitAtSeparator(u + parts[0], t + rest, sep);
      SplitJoin(t, parts[1..], sep, t);
      assert PrependEach(t, parts[1..]) == [t + parts[1]] + PrependEach(t, parts[2..]);
    }
  }

  /** The same with no prefix before the first part. */
  lemma SplitJoinParts(parts: seq<string>, sep: char, t: string)
    requires |parts| >= 1
    requires sep !in t
    requires forall k :: 0 <= k < |parts| ==> sep !in parts[k]
    ensures Split(Join(parts, [sep] + t), sep) == [parts[0]] + PrependEach(t, parts[1..])
  {
    SplitJoin([], parts, sep, t);
    assert [] + Join(parts, [sep] + t) == Join(parts, [sep] + t);
    assert [] + parts[0] == parts[0];
  }
}
