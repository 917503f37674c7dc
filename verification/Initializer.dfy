/** The API runner's parser for the evaluator's table of cases: C designated
    initializers, read without a C compiler. `None` stands for a raised exception.
    Each scan is a function of a position and its method is the loop. */
module Initializer {
  import opened CText
  import Py = PyGrader

  // ---- braces, outside string literals ----

  datatype Mode = Code | Text | Escape

  /** How one character changes the scanner's mode. */
  function Next(m: Mode, c: char): Mode {
    match m
    case Code => if c == '"' then Text else Code
    case Text => if c == '\\' then Escape else if c == '"' then Code else Text
    case Escape => Text
  }

  /** _find_matching_brace from `i` on. */
  function Brace(t: string, i: nat, depth: int, m: Mode): (r: Option<nat>)
    requires i <= |t|
    ensures r.Some? ==> i <= r.value < |t|
    decreases |t| - i
  {
    if i == |t| then None
    else if m == Code && t[i] == '}' && depth == 1 then Some(i)
    else
      var change := if m == Code && t[i] == '{' then 1 else if m == Code && t[i] == '}' then -1 else 0;
      Brace(t, i + 1, depth + change, Next(m, t[i]))
  }

  method FindMatchingBrace(t: string, start: nat) returns (r: Option<nat>)
    requires start <= |t|
    ensures r == Brace(t, start, 0, Code)
  {
    var depth := 0;
    var inString, escape := false, false;
    for i := start to |t|
      invariant !(escape && !inString)
      invariant Brace(t, start, 0, Code) == Brace(t, i, depth, if escape then Escape else if inString then Text else Code)
    {
      var ch := t[i];
      if inString {
        if escape {
          escape := false;
        } else if ch == '\\' {
          escape := true;
        } else if ch == '"' {
          inString := false;
        }
        continue;
      }
      if ch == '"' {
        inString := true;
      } else if ch == '{' {
        depth := depth + 1;
      } else if ch == '}' {
        depth := depth - 1;
        if depth == 0 {
          return Some(i);
        }
      }
    }
    return None;
  }

  /** _split_case_entries from `i` on: the text inside each top-level pair of braces. */
  function Entries(body: string, i: nat): Option<seq<string>>
    requires i <= |body|
    decreases |body| - i
  {
    if i == |body| then Some([])
    else if body[i] != '{' then Entries(body, i + 1)
    else
      var end := Brace(body, i, 0, Code);
      BraceAfterOpen(body, i);
      if end.None? then None
      else
        Prepend([body[i + 1..end.value]], Entries(body, end.value + 1))
  }

  function Prepend<T>(a: seq<T>, o: Option<seq<T>>): Option<seq<T>> {
    if o.None? then None else Some(a + o.value)
  }

  lemma {:induction false} PrependTwice<T>(a: seq<T>, b: seq<T>, o: Option<seq<T>>)
    ensures Prepend(a, Prepend(b, o)) == Prepend(a + b, o)
    ensures Prepend([], o) == o
  {
    if o.Some? {
      assert a + (b + o.value) == a + b + o.value;
      assert [] + o.value == o.value;
    }
  }

  lemma {:induction false} BraceAfterOpen(t: string, i: nat)
    requires i < |t| && t[i] == '{'
    ensures Brace(t, i, 0, Code) == Brace(t, i + 1, 1, Code)
  {
  }

  method SplitCaseEntries(body: string) returns (r: Option<seq<string>>)
    ensures r == Entries(body, 0)
  {
    hide Brace;
    var entries: seq<string> := [];
    var i := 0;
    PrependTwice([], [], Entries(body, 0));
    while i < |body|
      invariant i <= |body|
      invariant Entries(body, 0) == Prepend(entries, Entries(body, i))
      decreases |body| - i
    {
      if body[i] != '{' {
        i := i + 1;
        continue;
      }
      BraceAfterOpen(body, i);
      var end := FindMatchingBrace(body, i);
      if end.None? {
        return None;
      }
      PrependTwice(entries, [body[i + 1..end.value]], Entries(body, end.value + 1));
      entries := entries + [body[i + 1..end.value]];
      i := end.value + 1;
    }
    assert entries + [] == entries;
    return Some(entries);
  }

  // ---- string literals ----

  /** The closing quote of a literal whose text starts at `p`. */
  function QuoteEnd(v: string, p: nat): (r: Option<nat>)
    requires p <= |v|
    ensures r.Some? ==> p <= r.value < |v|
    decreases |v| - p
  {
    if p == |v| then None
    else if v[p] == '"' then Some(p)
    else if v[p] == '\\' then (if p + 2 <= |v| then QuoteEnd(v, p + 2) else None)
    else QuoteEnd(v, p + 1)
  }

  predicate Ascii(s: string) { forall i :: 0 <= i < |s| ==> s[i] as int < 128 }

  /** The UTF-8 bytes of a character, each read as one character of its own. */
  function Bytes(c: char): (r: string)
    ensures r != "" && (|r| == 1 <==> c as int < 128) && (|r| == 1 ==> r == [c])
  {
    var n := c as int;
    if n < 0x80 then [c]
    else if n < 0x800 then [(0xC0 + n / 64) as char, (0x80 + n % 64) as char]
    else if n < 0x10000 then [(0xE0 + n / 4096) as char, (0x80 + n / 64 % 64) as char, (0x80 + n % 64) as char]
    else [(0xF0 + n / 262144) as char, (0x80 + n / 4096 % 64) as char, (0x80 + n / 64 % 64) as char, (0x80 + n % 64) as char]
  }

  /** A string as it comes out when its UTF-8 bytes are taken for Latin-1. */
  function AsLatin(s: string): string { if s == "" then "" else Bytes(s[0]) + AsLatin(s[1..]) }

  function HexDigit(c: char): Option<nat> {
    if IsDigit(c) then Some(c as int - '0' as int)
    else if 'a' <= c <= 'f' then Some(c as int - 'a' as int + 10)
    else if 'A' <= c <= 'F' then Some(c as int - 'A' as int + 10)
    else None
  }

  function Hex(s: string): Option<nat> {
    if s == "" then Some(0)
    else
      var high, low := Hex(s[..|s| - 1]), HexDigit(s[|s| - 1]);
      if high.None? || low.None? then None else Some(high.value * 16 + low.value)
  }

  predicate IsOctal(c: char) { '0' <= c <= '7' }

  function Octal(s: string): nat
    requires forall i :: 0 <= i < |s| ==> IsOctal(s[i])
  {
    if s == "" then 0
    else
      assert IsOctal(s[|s| - 1]);
      Octal(s[..|s| - 1]) * 8 + (s[|s| - 1] as int - '0' as int)
  }

  /** How many of the first three characters are octal digits. */
  function OctalRun(s: string): (n: nat)
    ensures n <= |s| && n <= 3 && forall i :: 0 <= i < n ==> IsOctal(s[i])
  {
    if |s| < 1 || !IsOctal(s[0]) then 0
    else if |s| < 2 || !IsOctal(s[1]) then 1
    else if |s| < 3 || !IsOctal(s[2]) then 2
    else 3
  }

  /** A code point as text; code points that are not characters are not modelled. */
  function CodePoint(n: Option<nat>): Option<string> {
    if n.None? || n.value >= 0x110000 || 0xD800 <= n.value < 0xE000 then None else Some([n.value as char])
  }

  /** The text of an escape and how many characters after the backslash belong to it; a
      backslash before any other character stands for itself. Named escapes are not modelled. */
  function EscapeText(s: string): (Option<string>, nat)
    requires s != ""
  {
    match s[0]
    case '\\' => (Some("\\"), 1)
    case '"' => (Some("\""), 1)
    case '\'' => (Some("'"), 1)
    case 'n' => (Some("\n"), 1)
    case 't' => (Some("\t"), 1)
    case 'r' => (Some("\r"), 1)
    case 'a' => (Some([7 as char]), 1)
    case 'b' => (Some([8 as char]), 1)
    case 'f' => (Some([12 as char]), 1)
    case 'v' => (Some([11 as char]), 1)
    case '\n' => (Some(""), 1)
    case 'x' => (NumericEscape(s, 2), 3)
    case 'u' => (NumericEscape(s, 4), 5)
    case 'U' => (NumericEscape(s, 8), 9)
    case 'N' => (None, 1)
    case _ => if IsOctal(s[0]) then (CodePoint(Some(Octal(s[..OctalRun(s)]))), OctalRun(s)) else (Some("\\"), 0)
  }

  function NumericEscape(s: string, digits: nat): Option<string> {
    if |s| < 1 + digits then None else CodePoint(Hex(s[1..1 + digits]))
  }

  /** bytes(raw, "utf-8").decode("unicode_escape") */
  function Unescape(raw: string): Option<string>
    decreases |raw|
  {
    if raw == "" then Some("")
    else if raw[0] != '\\' then
      var rest := Unescape(raw[1..]);
      if rest.None? then None else Some(Bytes(raw[0]) + rest.value)
    else if |raw| < 2 then None
    else
      var (text, used) := EscapeText(raw[1..]);
      if text.None? || 1 + used > |raw| then None
      else
        var rest := Unescape(raw[1 + used..]);
        if rest.None? then None else Some(text.value + rest.value)
  }

  /** _decode_c_strings from `p` on: the adjacent literals, joined. */
  function Decode(v: string, p: nat): Option<string>
    requires p <= |v|
    decreases |v| - p
  {
    if p == |v| then Some("")
    else if v[p] != '"' then Decode(v, p + 1)
    else
      var e := QuoteEnd(v, p + 1);
      if e.None? then Decode(v, p + 1)
      else
        var text, rest := Unescape(v[p + 1..e.value]), Decode(v, e.value + 1);
        if text.None? || rest.None? then None else Some(text.value + rest.value)
  }

  // ---- fields ----

  datatype Head = Head(name: string, index: Option<nat>, valueStart: nat)

  predicate IdentStart(c: char) { IsAlpha(c) || c == '_' }

  predicate IdentChar(c: char) { IsAlpha(c) || IsDigit(c) || c == '_' }

  function IdentEnd(t: string, p: nat): (e: nat)
    requires p <= |t|
    ensures p <= e <= |t|
    decreases |t| - p
  {
    if p < |t| && IdentChar(t[p]) then IdentEnd(t, p + 1) else p
  }

  /** An optional "[digits]" at `e`: the index and where it stops. */
  function IndexAt(t: string, e: nat): (r: (Option<nat>, nat))
    requires e <= |t|
    ensures e <= r.1 <= |t|
  {
    if e < |t| && t[e] == '[' then
      var d := DigitsEnd(t, e + 1, |t|);
      if d > e + 1 && d < |t| && t[d] == ']' then
        DigitsEndAll(t, e + 1, |t|);
        (Some(Value(t[e + 1..d])), d + 1)
      else (None, e)
    else (None, e)
  }

  /** The field pattern matched at `p`: ".name[index] = ". */
  function HeadAt(t: string, p: nat): (r: Option<Head>)
    requires p <= |t|
    ensures r.Some? ==> p < r.value.valueStart <= |t|
  {
    if p + 1 < |t| && t[p] == '.' && IdentStart(t[p + 1]) then
      var e := IdentEnd(t, p + 1);
      var (index, q) := IndexAt(t, e);
      var eq := Py.PySpacesEnd(t, q);
      if eq < |t| && t[eq] == '=' then Some(Head(t[p + 1..e], index, Py.PySpacesEnd(t, eq + 1))) else None
    else None
  }

  /** pattern.search from `p` on. */
  function Search(t: string, p: nat): (r: Option<Head>)
    requires p <= |t|
    ensures r.Some? ==> p < r.value.valueStart <= |t|
    decreases |t| - p
  {
    if p == |t| then None
    else if HeadAt(t, p).Some? then HeadAt(t, p)
    else Search(t, p + 1)
  }

  /** Where a value stops: at the first comma outside literals. */
  function ValueEnd(t: string, i: nat, m: Mode): (e: nat)
    requires i <= |t|
    ensures i <= e <= |t|
    decreases |t| - i
  {
    if i == |t| || (m == Code && t[i] == ',') then i else ValueEnd(t, i + 1, Next(m, t[i]))
  }

  datatype Fields = Fields(named: map<string, string>, choices: seq<string>)

  function PadTo(choices: seq<string>, n: nat): (r: seq<string>)
    ensures |r| >= n && |r| >= |choices|
    decreases n - |choices|
  {
    if |choices| >= n then choices else PadTo(choices + [""], n)
  }

  /** One field stored. A "choice" without index replaces the list, which the
      assertions on it then reject. */
  function Store(f: Fields, name: string, index: Option<nat>, value: string): Option<Fields> {
    if name == "choice" then
      if index.None? then None
      else Some(f.(choices := PadTo(f.choices, index.value + 1)[index.value := value]))
    else Some(f.(named := f.named[name := value]))
  }

  /** The loop of _field_values from `pos` on. */
  function Collect(t: string, pos: nat, f: Fields): Option<Fields>
    requires pos <= |t|
    decreases |t| - pos
  {
    var head := Search(t, pos);
    if head.None? then Some(f)
    else
      var start := head.value.valueStart;
      var end := ValueEnd(t, start, Code);
      var value := Decode(t[start..end], 0);
      if value.None? then None
      else
        var g := Store(f, head.value.name, head.value.index, value.value);
        if g.None? then None
        else if end < |t| then Collect(t, end + 1, g.value)
        else g
  }

  function DropEmpty(choices: seq<string>): seq<string> {
    if choices != [] && choices[|choices| - 1] == "" then DropEmpty(choices[..|choices| - 1]) else choices
  }

  /** _field_values */
  function FieldValues(entry: string): Option<Fields> {
    var f := Collect(entry, 0, Fields(map[], []));
    if f.None? then None else Some(f.value.(choices := DropEmpty(f.value.choices)))
  }

  method ScanValueEnd(t: string, start: nat) returns (e: nat)
    requires start <= |t|
    ensures e == ValueEnd(t, start, Code)
  {
    var inString, escape := false, false;
    e := start;
    while e < |t|
      invariant start <= e <= |t| && !(escape && !inString)
      invariant ValueEnd(t, start, Code) == ValueEnd(t, e, if escape then Escape else if inString then Text else Code)
    {
      var ch := t[e];
      if inString {
        if escape {
          escape := false;
        } else if ch == '\\' {
          escape := true;
        } else if ch == '"' {
          inString := false;
        }
      } else if ch == '"' {
        inString := true;
      } else if ch == ',' {
        break;
      }
      e := e + 1;
    }
  }

  method ReadFields(entry: string) returns (r: Option<Fields>)
    ensures r == FieldValues(entry)
  {
    hide Search, ValueEnd, Decode, PadTo;
    var fields := Fields(map[], []);
    var pos := 0;
    while true
      invariant pos <= |entry|
      invariant Collect(entry, 0, Fields(map[], [])) == Collect(entry, pos, fields)
      decreases |entry| - pos
    {
      var head := Search(entry, pos);
      if head.None? {
        break;
      }
      var start := head.value.valueStart;
      var end := ScanValueEnd(entry, start);
      var value := Decode(entry[start..end], 0);
      if value.None? {
        return None;
      }
      var stored := Store(fields, head.value.name, head.value.index, value.value);
      if stored.None? {
        return None;
      }
      fields := stored.value;
      if end >= |entry| {
        break;
      }
      pos := end + 1;
    }
    var choices := fields.choices;
    while choices != [] && choices[|choices| - 1] == ""
      invariant DropEmpty(fields.choices) == DropEmpty(choices)
    {
      choices := choices[..|choices| - 1];
    }
    return Some(fields.(choices := choices));
  }

  // ---- cases ----

  datatype Case = Case(index: nat, source: string, id: string, domain: string, title: string,
                       question: string, choices: seq<string>, answer: string)

  function Get(f: Fields, name: string): string { if name in f.named then f.named[name] else "" }

  function NonEmpty(choices: seq<string>): seq<string> {
    if choices == [] then [] else (if choices[0] == "" then [] else [choices[0]]) + NonEmpty(choices[1..])
  }

  predicate Complete(f: Fields) {
    "source" in f.named && "id" in f.named && "question" in f.named && "answer" in f.named
  }

  function ToCase(idx: nat, f: Fields): Case {
    Case(idx, Get(f, "source"), Get(f, "id"), Get(f, "domain"), Get(f, "title"), Get(f, "question"),
         NonEmpty(f.choices), Get(f, "answer"))
  }

  /** The cases of the entries from index `idx` on; incomplete entries are skipped. */
  function CasesOf(entries: seq<string>, idx: nat): Option<seq<Case>> {
    if entries == [] then Some([])
    else
      var f := FieldValues(entries[0]);
      if f.None? then None else Prepend(CaseOf(idx, f.value), CasesOf(entries[1..], idx + 1))
  }

  function CaseOf(idx: nat, f: Fields): seq<Case> { if Complete(f) then [ToCase(idx, f)] else [] }

  const MARKER := "static const eval_case eval_cases[] ="

  /** parse_eval_cases on the text of the source file. */
  function ParseEvalCases(t: string): Option<seq<Case>> {
    var start := FindIn(t, 0, |t|, MARKER);
    if start.None? then None
    else
      var open := FindIn(t, start.value, |t|, "{");
      if open.None? then None
      else
        var close := Brace(t, open.value, 0, Code);
        FindInFirst(t, start.value, |t|, "{");
        AtIndex(t, open.value, "{", 0);
        BraceAfterOpen(t, open.value);
        if close.None? then None
        else
          var entries := Entries(t[open.value + 1..close.value], 0);
          if entries.None? then None else CasesOf(entries.value, 0)
  }

  method ReadEvalCases(t: string) returns (r: Option<seq<Case>>)
    ensures r == ParseEvalCases(t)
  {
    hide Brace, Entries, FieldValues, FindIn, ToCase, Complete;
    var start := BoundedStrstr(t, 0, |t|, MARKER);
    if start.None? {
      return None;
    }
    var open := BoundedStrstr(t, start.value, |t|, "{");
    if open.None? {
      return None;
    }
    var close := FindMatchingBrace(t, open.value);
    FindInFirst(t, start.value, |t|, "{");
    AtIndex(t, open.value, "{", 0);
    BraceAfterOpen(t, open.value);
    if close.None? {
      return None;
    }
    var entries := SplitCaseEntries(t[open.value + 1..close.value]);
    if entries.None? {
      return None;
    }
    var cases: seq<Case> := [];
    PrependTwice([], [], CasesOf(entries.value, 0));
    for idx := 0 to |entries.value|
      invariant CasesOf(entries.value, 0) == Prepend(cases, CasesOf(entries.value[idx..], idx))
    {
      assert entries.value[idx..][1..] == entries.value[idx + 1..];
      var f := ReadFields(entries.value[idx]);
      if f.None? {
        return None;
      }
      PrependTwice(cases, CaseOf(idx, f.value), CasesOf(entries.value[idx + 1..], idx + 1));
      if Complete(f.value) {
        cases := cases + [ToCase(idx, f.value)];
      } else {
        assert cases + [] == cases;
      }
    }
    assert cases + [] == cases;
    return Some(cases);
  }
}
