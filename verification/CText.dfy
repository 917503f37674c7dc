/** The parts of the C library's string handling that the evaluator relies on:
    character classes of the "C" locale, decimal numerals, substring search,
    lines, and strtoull. A C string is a sequence of characters without its
    terminating NUL; a pointer into it is an index, and the index |t| is where
    the NUL is. */
module CText {

  datatype Option<+T> = None | Some(value: T)

  const THINK_CLOSE := "</think>"

  // ---- character classes ----

  predicate IsDigit(c: char) { '0' <= c <= '9' }

  predicate IsSpace(c: char) { c == ' ' || '\t' <= c <= '\r' }

  predicate IsAlpha(c: char) { 'a' <= c <= 'z' || 'A' <= c <= 'Z' }

  function ToLower(c: char): char {
    if 'A' <= c <= 'Z' then (c as int + 32) as char else c
  }

  function ToUpper(c: char): char {
    if 'a' <= c <= 'z' then (c as int - 32) as char else c
  }

  // ---- substrings ----

  /** `s` occurs in `t` at index `p`. */
  predicate At(t: string, p: nat, s: string) {
    p + |s| <= |t| && t[p..p + |s|] == s
  }

  lemma {:induction false} AtSplit(t: string, p: nat, a: string, b: string)
    requires At(t, p, a + b)
    ensures At(t, p, a) && At(t, p + |a|, b)
  {
    var ab := t[p..p + |a + b|];
    assert ab[..|a|] == a && ab[|a|..] == b;
    assert t[p..p + |a|] == ab[..|a|];
    assert t[p + |a|..p + |a| + |b|] == ab[|a|..];
  }

  lemma {:induction false} AtJoin(t: string, p: nat, a: string, b: string)
    requires At(t, p, a) && At(t, p + |a|, b)
    ensures At(t, p, a + b)
  {
    assert t[p..p + |a + b|] == t[p..p + |a|] + t[p + |a|..p + |a| + |b|];
  }

  lemma {:induction false} AtIndex(t: string, p: nat, s: string, i: nat)
    requires At(t, p, s) && i < |s|
    ensures t[p + i] == s[i]
  {
    assert t[p..p + |s|][i] == s[i];
  }

  lemma {:induction false} NotAt(t: string, p: nat, s: string, i: nat)
    requires i < |s| && (p + i < |t| ==> t[p + i] != s[i])
    ensures !At(t, p, s)
  {
  }

  lemma {:induction false} AtConcat(a: string, b: string, c: string)
    ensures At(a + b + c, |a|, b)
  {
  }

  lemma {:induction false} AtWithin(t: string, p: nat, s: string)
    requires At(t, p, s)
    ensures p + |s| <= |t|
  {
  }

  lemma {:induction false} SliceAt(t: string, p: nat, s: string)
    requires At(t, p, s)
    ensures p + |s| <= |t| && t[p..p + |s|] == s
  {
  }

  /** First occurrence of `needle` that lies within [from, to). */
  function FindIn(t: string, from: nat, to: nat, needle: string): (r: Option<nat>)
    requires to <= |t|
    ensures r.Some? ==> from <= r.value && r.value + |needle| <= to
    decreases if to < from then 0 else to - from + 1
  {
    if from + |needle| > to then None
    else if t[from..from + |needle|] == needle then Some(from)
    else FindIn(t, from + 1, to, needle)
  }

  lemma {:induction false} FindInFirst(t: string, from: nat, to: nat, needle: string)
    requires to <= |t|
    ensures var r := FindIn(t, from, to, needle);
            if r.Some? then At(t, r.value, needle) && forall j: nat :: from <= j < r.value ==> !At(t, j, needle)
            else forall j: nat :: from <= j && j + |needle| <= to ==> !At(t, j, needle)
    decreases if to < from then 0 else to - from + 1
  {
    if from + |needle| <= to && t[from..from + |needle|] != needle {
      FindInFirst(t, from + 1, to, needle);
    }
  }

  /** bounded_strstr: the pointer walk over [start, end). */
  method BoundedStrstr(t: string, start: nat, end: nat, needle: string) returns (r: Option<nat>)
    requires start <= end <= |t|
    ensures r == FindIn(t, start, end, needle)
  {
    var p := start;
    while p + |needle| <= end
      invariant start <= p
      invariant FindIn(t, start, end, needle) == FindIn(t, p, end, needle)
      decreases end - p
    {
      if t[p..p + |needle|] == needle {
        return Some(p);
      }
      p := p + 1;
    }
    return None;
  }

  // ---- buffers ----

  /** What a buffer of `size` characters holds of a string, the last one being the NUL. */
  function Held(s: string, size: nat): (r: string)
    ensures r <= s && (size > 0 ==> |r| < size)
  {
    if |s| < size then s else if size == 0 then "" else s[..size - 1]
  }

  // ---- escapes ----

  /** Backslash, quote and line feed as a C literal or a label value writes them. */
  function EscapedChar(c: char): (r: string)
    ensures |r| == 1 || |r| == 2
  {
    if c == '\\' then "\\\\" else if c == '"' then "\\\"" else if c == '\n' then "\\n" else [c]
  }

  function Escaped(s: string): string {
    if s == "" then "" else EscapedChar(s[0]) + Escaped(s[1..])
  }

  // ---- lines ----

  /** memchr(p, '\n', end - p), or `end` when there is none. */
  function LineEnd(t: string, p: nat, end: nat): (e: nat)
    requires p <= end <= |t|
    ensures p <= e <= end
    decreases end - p
  {
    if p < end && t[p] != '\n' then LineEnd(t, p + 1, end) else p
  }

  /** Where the line after the one at `p` starts. */
  function NextLine(t: string, p: nat, end: nat): (n: nat)
    requires p <= end <= |t|
    ensures p <= n <= end
    ensures p < end ==> p < n
  {
    var e := LineEnd(t, p, end);
    if e < end then e + 1 else end
  }

  lemma {:induction false} LineEndAt(t: string, p: nat, end: nat, e: nat)
    requires p <= e <= end <= |t| && forall i :: p <= i < e ==> t[i] != '\n'
    requires e < end ==> t[e] == '\n'
    ensures LineEnd(t, p, end) == e
    decreases e - p
  {
    if p < e {
      LineEndAt(t, p + 1, end, e);
    }
  }

  lemma {:induction false} LineEndIs(t: string, p: nat, end: nat, line: string)
    requires At(t, p, line + "\n") && p + |line| < end <= |t|
    requires '\n' !in line
    ensures LineEnd(t, p, end) == p + |line|
    ensures NextLine(t, p, end) == p + |line| + 1
  {
    AtSplit(t, p, line, "\n");
    AtIndex(t, p + |line|, "\n", 0);
    forall i | p <= i < p + |line|
      ensures t[i] != '\n'
    {
      AtIndex(t, p, line, i - p);
    }
    LineEndAt(t, p, end, p + |line|);
  }

  // ---- decimal numerals ----

  predicate AllDigits(s: string) { forall i :: 0 <= i < |s| ==> IsDigit(s[i]) }

  function DigitOf(c: char): nat
    requires IsDigit(c)
  { c as int - '0' as int }

  function DigitChar(d: nat): (c: char)
    requires d < 10
    ensures IsDigit(c) && DigitOf(c) == d
  { ('0' as int + d) as char }

  /** The decimal numeral printed by %d and %zu. */
  function Dec(n: nat): (s: string)
    ensures |s| > 0 && AllDigits(s)
    ensures s[0] == '0' ==> n == 0 && |s| == 1
  {
    if n < 10 then [DigitChar(n)] else Dec(n / 10) + [DigitChar(n % 10)]
  }

  /** The number a digit string denotes. */
  function Value(s: string): nat
    requires AllDigits(s)
  {
    if s == "" then 0 else Value(s[..|s| - 1]) * 10 + DigitOf(s[|s| - 1])
  }

  lemma {:induction false} ValueOfDec(n: nat)
    ensures Value(Dec(n)) == n
  {
    var s := Dec(n);
    if n < 10 {
      assert Value(s[..0]) == 0;
    } else {
      ValueOfDec(n / 10);
      assert s[..|s| - 1] == Dec(n / 10);
    }
  }

  /** Where the run of digits that starts at `p` stops. */
  function DigitsEnd(t: string, p: nat, end: nat): (e: nat)
    requires p <= end <= |t|
    ensures p <= e <= end
    ensures p < end && IsDigit(t[p]) ==> p < e
    decreases end - p
  {
    if p < end && IsDigit(t[p]) then DigitsEnd(t, p + 1, end) else p
  }

  /** Where the run of white space that starts at `p` stops. */
  function SpacesEnd(t: string, p: nat, end: nat): (e: nat)
    requires p <= end <= |t|
    ensures p <= e <= end
    decreases end - p
  {
    if p < end && IsSpace(t[p]) then SpacesEnd(t, p + 1, end) else p
  }

  lemma {:induction false} DigitsEndAll(t: string, p: nat, end: nat)
    requires p <= end <= |t|
    ensures AllDigits(t[p..DigitsEnd(t, p, end)])
    ensures DigitsEnd(t, p, end) < end ==> !IsDigit(t[DigitsEnd(t, p, end)])
    decreases end - p
  {
    if p < end && IsDigit(t[p]) {
      DigitsEndAll(t, p + 1, end);
      assert t[p..DigitsEnd(t, p, end)] == [t[p]] + t[p + 1..DigitsEnd(t, p, end)];
    }
  }

  lemma {:induction false} DigitsEndAt(t: string, p: nat, end: nat, e: nat)
    requires p <= e <= end <= |t| && forall i :: p <= i < e ==> IsDigit(t[i])
    requires e < end ==> !IsDigit(t[e])
    ensures DigitsEnd(t, p, end) == e
    decreases e - p
  {
    if p < e {
      DigitsEndAt(t, p + 1, end, e);
    }
  }

  lemma {:induction false} DigitsEndIs(t: string, p: nat, end: nat, digits: string)
    requires At(t, p, digits) && AllDigits(digits) && p + |digits| <= end <= |t|
    requires p + |digits| < end ==> !IsDigit(t[p + |digits|])
    ensures DigitsEnd(t, p, end) == p + |digits|
  {
    forall i | p <= i < p + |digits|
      ensures IsDigit(t[i])
    {
      AtIndex(t, p, digits, i - p);
    }
    DigitsEndAt(t, p, end, p + |digits|);
  }

  const ULLONG_MAX: nat := 0xFFFF_FFFF_FFFF_FFFF

  /** strtoull(t + p, &end, 10): the value, and where the number ends; that is
      `p` when no digits follow the optional white space and sign. */
  function StrToUll(t: string, p: nat): (r: (nat, nat))
    requires p <= |t|
    ensures p <= r.1 <= |t| && r.0 <= ULLONG_MAX
  {
    var q := SpacesEnd(t, p, |t|);
    var minus := q < |t| && t[q] == '-';
    var d := if q < |t| && (t[q] == '+' || t[q] == '-') then q + 1 else q;
    var e := DigitsEnd(t, d, |t|);
    if e == d then (0, p)
    else
      DigitsEndAll(t, d, |t|);
      var v := Value(t[d..e]);
      (if v > ULLONG_MAX then ULLONG_MAX else if minus && v > 0 then ULLONG_MAX + 1 - v else v, e)
  }

  lemma {:induction false} StrToUllOfDec(t: string, p: nat, n: nat)
    requires n <= ULLONG_MAX
    requires At(t, p, Dec(n))
    requires p + |Dec(n)| < |t| ==> !IsDigit(t[p + |Dec(n)|])
    ensures StrToUll(t, p) == (n, p + |Dec(n)|)
  {
    hide Dec, Value, DigitsEnd;
    AtIndex(t, p, Dec(n), 0);
    DigitsEndIs(t, p, |t|, Dec(n));
    ValueOfDec(n);
  }
}
