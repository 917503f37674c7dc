/** Line specifications such as "3,13-15": the compact form that the evaluator
    copies out of an answer line into a fixed buffer, and the set of line numbers
    that a specification denotes. Numbers saturate as strtol saturates. */
module LineSpec {
  import opened CText

  // ---- normalising into a destination buffer ----

  /** Appends as much of `s` as a buffer with room for `cap` characters takes. */
  function Push(acc: string, s: string, cap: nat): (r: string)
    requires |acc| <= cap
    ensures |r| <= cap && acc <= r
  {
    if |acc| + |s| <= cap then acc + s else acc + s[..cap - |acc|]
  }

  /** The scan of normalize_compsec_line_spec from `p` on, with `acc` already written. */
  function SpecScan(v: string, p: nat, end: nat, acc: string, cap: nat): (r: string)
    requires end <= |v| && |acc| <= cap
    ensures |r| <= cap
    decreases |v| + 1 - p
  {
    if p >= end then acc
    else if !IsDigit(v[p]) then SpecScan(v, p + 1, end, acc, cap)
    else
      var (next, item) := SpecItem(v, p, end, acc, cap);
      if next >= end then item else SpecScan(v, next + 1, end, item, cap)
  }

  /** One number or range: where it stops and what has been written then. */
  function SpecItem(v: string, p: nat, end: nat, acc: string, cap: nat): (r: (nat, string))
    requires p <= end <= |v| && |acc| <= cap
    ensures p <= r.0 <= end && |r.1| <= cap
  {
    var q := DigitsEnd(v, p, end);
    var number := Push(if acc != "" then Push(acc, ",", cap) else acc, v[p..q], cap);
    var dash := SpacesEnd(v, q, end);
    if dash < end && v[dash] == '-' then
      var from := SpacesEnd(v, dash + 1, end);
      var to := DigitsEnd(v, from, end);
      (to, Push(Push(number, "-", cap), v[from..to], cap))
    else (dash, number)
  }

  function TrimSpec(s: string): (r: string)
    ensures |r| <= |s| && r <= s
  {
    if s != "" && (s[|s| - 1] == ',' || s[|s| - 1] == '-') then TrimSpec(s[..|s| - 1]) else s
  }

  /** normalize_compsec_line_spec over [p, end), into a buffer of `dstlen` characters. */
  function NormalizeSpec(v: string, p: nat, end: nat, dstlen: nat): (r: string)
    requires p <= end <= |v|
    ensures dstlen > 0 ==> |r| < dstlen
    ensures dstlen > 1 ==> r != ""
  {
    if dstlen == 0 then ""
    else
      var s := TrimSpec(SpecScan(v, p, end, "", dstlen - 1));
      if s == "" then Held("?", dstlen) else s
  }

  lemma {:induction false} PushSplit(acc: string, a: string, b: string, cap: nat)
    requires |acc| <= cap
    ensures Push(Push(acc, a, cap), b, cap) == Push(acc, a + b, cap)
  {
    if |acc| + |a| > cap {
      PushFull(acc, a, b, cap);
    } else if |acc| + |a| + |b| > cap {
      PushPart(acc, a, b, cap);
    } else {
      assert acc + a + b == acc + (a + b);
    }
  }

  lemma {:induction false} PushFull(acc: string, a: string, b: string, cap: nat)
    requires |acc| <= cap < |acc| + |a|
    ensures Push(Push(acc, a, cap), b, cap) == Push(acc, a + b, cap)
  {
    var room := cap - |acc|;
    assert (a + b)[..room] == a[..room];
    var full := acc + a[..room];
    assert b[..0] == "" && full + "" == full;
  }

  lemma {:induction false} PushPart(acc: string, a: string, b: string, cap: nat)
    requires |acc| + |a| <= cap < |acc| + |a| + |b|
    ensures Push(Push(acc, a, cap), b, cap) == Push(acc, a + b, cap)
  {
    var room := cap - |acc| - |a|;
    assert (a + b)[..room + |a|] == a + b[..room];
    assert acc + a + b[..room] == acc + (a + b[..room]);
  }

  /** `if (n + 1 < dstlen) dst[n++] = c`: the last cell is kept for the NUL. */
  method PutChar(c: char, dst: array<char>, n: nat) returns (m: nat)
    requires n < dst.Length
    modifies dst
    ensures n <= m < dst.Length && dst[..m] == Push(old(dst[..n]), [c], dst.Length - 1)
  {
    m := n;
    if n + 1 < dst.Length {
      dst[n] := c;
      m := n + 1;
      assert dst[..m] == dst[..n] + [c];
    }
  }

  /** Copies the digits at `p` into the buffer; the index never passes its last cell. */
  method CopyDigits(v: string, p: nat, end: nat, dst: array<char>, n: nat) returns (q: nat, m: nat)
    requires p <= end <= |v| && n < dst.Length
    modifies dst
    ensures q == DigitsEnd(v, p, end)
    ensures n <= m < dst.Length && dst[..m] == Push(old(dst[..n]), v[p..q], dst.Length - 1)
  {
    q, m := p, n;
    ghost var cap := dst.Length - 1;
    assert Push(dst[..n], v[p..p], cap) == dst[..n];
    hide Push, DigitsEnd;
    while q < end && IsDigit(v[q])
      invariant p <= q <= end && (forall i :: p <= i < q ==> IsDigit(v[i]))
      invariant n <= m < dst.Length
      invariant dst[..m] == Push(old(dst[..n]), v[p..q], cap)
    {
      PushSplit(old(dst[..n]), v[p..q], [v[q]], cap);
      assert v[p..q] + [v[q]] == v[p..q + 1];
      m := PutChar(v[q], dst, m);
      q := q + 1;
    }
    DigitsEndAt(v, p, end, q);
  }

  method SkipSpaces(v: string, p: nat, end: nat) returns (q: nat)
    requires p <= end <= |v|
    ensures q == SpacesEnd(v, p, end)
  {
    q := p;
    while q < end && IsSpace(v[q])
      invariant p <= q <= end && SpacesEnd(v, p, end) == SpacesEnd(v, q, end)
    {
      q := q + 1;
    }
  }

  method CopyItem(v: string, start: nat, end: nat, dst: array<char>, written: nat) returns (p: nat, n: nat)
    requires start < end <= |v| && IsDigit(v[start]) && written < dst.Length
    modifies dst
    ensures n < dst.Length && (p, dst[..n]) == SpecItem(v, start, end, old(dst[..written]), dst.Length - 1)
    ensures start < p
  {
    hide DigitsEnd, SpacesEnd, Push;
    p, n := start, written;
    assert dst[..n] != "" <==> n > 0;
    if n > 0 {
      n := PutChar(',', dst, n);
    }
    p, n := CopyDigits(v, p, end, dst, n);
    p := SkipSpaces(v, p, end);
    if p < end && v[p] == '-' {
      n := PutChar('-', dst, n);
      p := p + 1;
      p := SkipSpaces(v, p, end);
      p, n := CopyDigits(v, p, end, dst, n);
    }
  }

  /** normalize_compsec_line_spec, in the buffer; `dst[..n]` is the C string left there. */
  method NormalizeInto(v: string, start: nat, end: nat, dst: array<char>) returns (n: nat)
    requires start <= end <= |v|
    modifies dst
    ensures n <= dst.Length && (dst.Length > 0 ==> n < dst.Length && dst[n] == '\0')
    ensures dst[..n] == NormalizeSpec(v, start, end, dst.Length)
  {
    if dst.Length == 0 {
      return 0;
    }
    n := ScanInto(v, start, end, dst);
    ghost var scanned := dst[..n];
    while n > 0 && (dst[n - 1] == ',' || dst[n - 1] == '-')
      invariant n < dst.Length && TrimSpec(scanned) == TrimSpec(dst[..n])
    {
      assert dst[..n][..n - 1] == dst[..n - 1];
      n := n - 1;
    }
    assert TrimSpec(dst[..n]) == dst[..n];
    dst[n] := '\0';
    if n == 0 && dst.Length > 1 {
      dst[0], dst[1] := '?', '\0';
      n := 1;
    }
  }

  method ScanInto(v: string, start: nat, end: nat, dst: array<char>) returns (n: nat)
    requires start <= end <= |v| && dst.Length > 0
    modifies dst
    ensures n < dst.Length && dst[..n] == SpecScan(v, start, end, "", dst.Length - 1)
  {
    hide SpecItem;
    n := 0;
    ghost var cap := dst.Length - 1;
    var p := start;
    while p < end
      invariant start <= p && n <= cap
      invariant SpecScan(v, start, end, "", cap) == SpecScan(v, p, end, dst[..n], cap)
      decreases end - p
    {
      if !IsDigit(v[p]) {
        p := p + 1;
        continue;
      }
      p, n := CopyItem(v, p, end, dst, n);
      if p >= end {
        break;
      }
      p := p + 1;
    }
  }

  // ---- the lines a specification denotes ----

  const LONG_MAX: int := 0x7FFF_FFFF_FFFF_FFFF

  /** strtol(t + p, &end, 10): 0 and `p` when there is no number. */
  function StrToL(t: string, p: nat): (r: (int, nat))
    requires p <= |t|
    ensures p <= r.1 <= |t|
    ensures p < |t| && IsDigit(t[p]) ==> p < r.1 && r.0 >= 0
  {
    var q := SpacesEnd(t, p, |t|);
    var minus := q < |t| && t[q] == '-';
    var d := if q < |t| && (t[q] == '+' || t[q] == '-') then q + 1 else q;
    var e := DigitsEnd(t, d, |t|);
    if e == d then (0, p)
    else
      DigitsEndAll(t, d, |t|);
      var v := Value(t[d..e]);
      var n: int := if v > LONG_MAX then LONG_MAX + (if minus then 1 else 0) else v;
      (if minus then -n else n, e)
  }

  /** The lines from one bound to the other, in either order, below `setlen`. */
  function Span(a: int, b: int, setlen: nat): (s: set<nat>)
    ensures forall i: nat :: i in s <==> i < setlen && (a <= i <= b || b <= i <= a)
  {
    var lo, hi := if a <= b then a else b, if a <= b then b else a;
    set i: nat | i < setlen && Between(lo, i, hi)
  }

  predicate Between(lo: int, i: int, hi: int) { lo <= i <= hi }

  /** The number or range at `p`: its bounds and where it stops. */
  function RangeAt(spec: string, p: nat): (r: (int, int, nat))
    requires p < |spec| && IsDigit(spec[p])
    ensures p < r.2 <= |spec|
  {
    var (a, e) := StrToL(spec, p);
    if e < |spec| && spec[e] == '-' then
      var (b, f) := StrToL(spec, e + 1);
      (a, b, f)
    else (a, a, e)
  }

  /** The cells that parse_line_spec sets from `p` on. */
  function LineSet(spec: string, p: nat, setlen: nat): set<nat>
    requires p <= |spec|
    decreases |spec| - p
  {
    if p == |spec| then {}
    else if !IsDigit(spec[p]) then LineSet(spec, p + 1, setlen)
    else
      var (a, b, next) := RangeAt(spec, p);
      Span(a, b, setlen) + LineSet(spec, next, setlen)
  }

  method ReadRange(spec: string, start: nat) returns (a: int, b: int, p: nat)
    requires start < |spec| && IsDigit(spec[start])
    ensures (a, b, p) == RangeAt(spec, start)
  {
    var first := StrToL(spec, start);
    a, b, p := first.0, first.0, first.1;
    if p < |spec| && spec[p] == '-' {
      p := p + 1;
      var second := StrToL(spec, p);
      b, p := second.0, second.1;
    }
  }

  /** The loop that marks one range in the boolean array. */
  method MarkRange(first: int, last: int, lines: array<bool>) returns (any: bool)
    modifies lines
    ensures forall i :: 0 <= i < lines.Length ==> lines[i] == (old(lines[i]) || i in Span(first, last, lines.Length))
    ensures any <==> Span(first, last, lines.Length) != {}
  {
    var a, b := first, last;
    if a > b {
      a, b := b, a;
    }
    if a < 0 {
      a := 0;
    }
    if b >= lines.Length {
      b := lines.Length - 1;
    }
    any := false;
    var i := a;
    while i <= b
      invariant a <= i && (i <= b + 1 || i == a)
      invariant forall k :: 0 <= k < lines.Length ==> lines[k] == (old(lines[k]) || a <= k < i)
      invariant any <==> i > a
      decreases b + 1 - i
    {
      lines[i] := true;
      any := true;
      i := i + 1;
    }
    ghost var span := Span(first, last, lines.Length);
    assert forall k: nat :: k in span <==> a <= k <= b;
    assert any ==> (a as nat) in span;
  }

  method ParseLineSpec(spec: string, lines: array<bool>) returns (any: bool)
    modifies lines
    ensures forall i :: 0 <= i < lines.Length ==> lines[i] == (old(lines[i]) || i in LineSet(spec, 0, lines.Length))
    ensures any <==> LineSet(spec, 0, lines.Length) != {}
  {
    any := false;
    var p := 0;
    ghost var done: set<nat> := {};
    while p < |spec|
      invariant p <= |spec|
      invariant LineSet(spec, 0, lines.Length) == done + LineSet(spec, p, lines.Length)
      invariant any <==> done != {}
      invariant forall i :: 0 <= i < lines.Length ==> lines[i] == (old(lines[i]) || i in done)
      decreases |spec| - p
    {
      if !IsDigit(spec[p]) {
        p := p + 1;
        continue;
      }
      var a, b, next := ReadRange(spec, p);
      var marked := MarkRange(a, b, lines);
      any := any || marked;
      done := done + Span(a, b, lines.Length);
      p := next;
    }
  }

  const MAX_LINES := 256

  /** compsec_answer_matches, on sets. */
  predicate SpecMatches(expected: string, got: string) {
    var e, g := LineSet(expected, 0, MAX_LINES), LineSet(got, 0, MAX_LINES);
    e != {} && g != {} && g <= e
  }

  method CompsecAnswerMatches(expectedSpec: string, gotSpec: string) returns (ok: bool)
    ensures ok == SpecMatches(expectedSpec, gotSpec)
  {
    var expected := new bool[MAX_LINES](_ => false);
    var got := new bool[MAX_LINES](_ => false);
    ghost var e, g := LineSet(expectedSpec, 0, MAX_LINES), LineSet(gotSpec, 0, MAX_LINES);
    LineSetBound(gotSpec, 0, MAX_LINES);
    var any := ParseLineSpec(expectedSpec, expected);
    if !any {
      return false;
    }
    any := ParseLineSpec(gotSpec, got);
    if !any {
      return false;
    }
    var hit := false;
    for i := 0 to MAX_LINES
      invariant forall k :: 0 <= k < i && k in g ==> k in e
      invariant hit <==> exists k :: 0 <= k < i && k in g
    {
      if got[i] {
        if !expected[i] {
          return false;
        }
        hit := true;
      }
    }
    ghost var k :| k in g;
    return hit;
  }

  lemma {:induction false} LineSetBound(spec: string, p: nat, setlen: nat)
    requires p <= |spec|
    ensures forall i :: i in LineSet(spec, p, setlen) ==> i < setlen
    decreases |spec| - p
  {
    if p < |spec| {
      LineSetBound(spec, if IsDigit(spec[p]) then RangeAt(spec, p).2 else p + 1, setlen);
    }
  }
}
