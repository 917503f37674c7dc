/** The API runner's answer extractors and grader, on ASCII text. An extractor
    yields None where the runner goes on to its looser phrase patterns, which are
    not modelled. Regular expressions are spelled out as scans from the position
    where a match would start. */
module PyGrader {
  import opened CText


  // ---- Python's character classes and regular expressions, on ASCII ----

  predicate PySpace(c: char) { IsSpace(c) || 28 <= c as int <= 31 }

  predicate PyWord(c: char) { IsAlpha(c) || IsDigit(c) || c == '_' }

  predicate PyLineBreak(c: char) { '\n' <= c <= '\r' || 28 <= c as int <= 30 }

  function PySpacesEnd(v: string, p: nat): (e: nat)
    requires p <= |v|
    ensures p <= e <= |v|
    decreases |v| - p
  {
    if p < |v| && PySpace(v[p]) then PySpacesEnd(v, p + 1) else p
  }

  /** \b between the characters before and at `p`. */
  predicate WordBoundary(v: string, p: nat)
    requires p <= |v|
  {
    (p > 0 && PyWord(v[p - 1])) != (p < |v| && PyWord(v[p]))
  }

  predicate AnswerAt(v: string, p: nat)
    ensures AnswerAt(v, p) ==> p + 6 <= |v|
  {
    && p + 6 <= |v|
    && ToLower(v[p]) == 'a' && ToLower(v[p + 1]) == 'n' && ToLower(v[p + 2]) == 's'
    && ToLower(v[p + 3]) == 'w' && ToLower(v[p + 4]) == 'e' && ToLower(v[p + 5]) == 'r'
  }

  /** A match of (?i)\banswer\b\s*: at `p`. */
  predicate ColonMarkerAt(v: string, p: nat)
    ensures ColonMarkerAt(v, p) ==> p + 6 <= |v|
  {
    && AnswerAt(v, p)
    && WordBoundary(v, p) && WordBoundary(v, p + 6)
    && var e := PySpacesEnd(v, p + 6);
       e < |v| && v[e] == ':'
  }

  function MarkerEnd(v: string, p: nat): (e: nat)
    requires ColonMarkerAt(v, p)
    ensures p < e <= |v|
  { PySpacesEnd(v, p + 6) + 1 }

  /** The start of the last match that finditer yields from `p` on, else `last`. */
  function LastMatch(v: string, p: nat, last: Option<nat>): Option<nat>
    requires p <= |v|
    decreases |v| - p
  {
    if p == |v| then last
    else if ColonMarkerAt(v, p) then LastMatch(v, MarkerEnd(v, p), Some(p))
    else LastMatch(v, p + 1, last)
  }

  // ---- the marker and its value ----

  function AnswerRegion(text: string): string {
    var i := FindIn(text, 0, |text|, THINK_CLOSE);
    if i.Some? then text[i.value + 8..] else text
  }

  function LastColonMarker(v: string): Option<nat> { LastMatch(v, 0, None) }

  /** splitlines()[0] of a span, as an index. */
  function FirstBreak(v: string, p: nat, end: nat): (e: nat)
    requires p <= end <= |v|
    ensures p <= e <= end
    decreases end - p
  {
    if p < end && !PyLineBreak(v[p]) then FirstBreak(v, p + 1, end) else p
  }

  function MarkerValueSpan(v: string, start: nat, limit: nat): string {
    var colon := FindIn(v, start, |v|, ":");
    if colon.None? then ""
    else
      var p := colon.value + 1;
      v[p..FirstBreak(v, p, if p + limit < |v| then p + limit else |v|)]
  }

  // ---- letters ----

  function Upper(s: string): (u: string)
    ensures |u| == |s|
  { seq(|s|, i requires 0 <= i < |s| => ToUpper(s[i])) }

  /** A match of \b[A-Z]\b at `p`. */
  predicate LetterAt(u: string, p: nat)
    requires p < |u|
  {
    'A' <= u[p] <= 'Z' && WordBoundary(u, p) && WordBoundary(u, p + 1)
  }

  /** The letters within range that stand alone in `u`, from `p` on. */
  function LetterMatches(u: string, p: nat, nchoices: nat): seq<char>
    requires p <= |u|
    decreases |u| - p
  {
    if p == |u| then []
    else if LetterAt(u, p) && u[p] as int - 'A' as int < nchoices then [u[p]] + LetterMatches(u, p + 1, nchoices)
    else LetterMatches(u, p + 1, nchoices)
  }

  function LetterAnswer(text: string, nchoices: nat): Option<string> {
    var v := AnswerRegion(text);
    var start := LastColonMarker(v);
    if start.None? then None
    else
      var letters := LetterMatches(Upper(MarkerValueSpan(v, start.value, 96)), 0, nchoices);
      if letters == [] then None else Some([letters[0]])
  }

  // ---- integers ----

  /** str(int(raw)) */
  function NormalizeInteger(raw: string): string
    requires AllDigits(raw)
  { Dec(Value(raw)) }

  /** Where the first run of digits starts, or |v|. */
  function FirstDigit(v: string, p: nat): (i: nat)
    requires p <= |v|
    ensures p <= i <= |v|
    decreases |v| - p
  {
    if p < |v| && !IsDigit(v[p]) then FirstDigit(v, p + 1) else p
  }

  function FirstInteger(v: string): Option<string> {
    var p := FirstDigit(v, 0);
    if p == |v| then None
    else
      DigitsEndAll(v, p, |v|);
      Some(NormalizeInteger(v[p..DigitsEnd(v, p, |v|)]))
  }

  function IntegerAnswer(text: string): Option<string> {
    var v := AnswerRegion(text);
    var start := LastColonMarker(v);
    if start.None? then None else FirstInteger(MarkerValueSpan(v, start.value, 160))
  }

  // ---- line specifications ----

  /** Where the match of \d+(?:-\d+)? at `p` stops; with `loose`, of \d+(?:\s*-\s*\d+)?. */
  function PieceEnd(v: string, p: nat, loose: bool): (e: nat)
    requires p < |v| && IsDigit(v[p])
    ensures p < e <= |v|
  {
    var q := DigitsEnd(v, p, |v|);
    var dash := if loose then PySpacesEnd(v, q) else q;
    if dash < |v| && v[dash] == '-' then
      var from := if loose then PySpacesEnd(v, dash + 1) else dash + 1;
      var e := DigitsEnd(v, from, |v|);
      if e > from then e else q
    else q
  }

  /** findall */
  function Pieces(v: string, p: nat, loose: bool): seq<string>
    requires p <= |v|
    decreases |v| - p
  {
    if p == |v| then []
    else if IsDigit(v[p]) then [v[p..PieceEnd(v, p, loose)]] + Pieces(v, PieceEnd(v, p, loose), loose)
    else Pieces(v, p + 1, loose)
  }

  function RemoveBlanks(s: string): string {
    if s == "" then "" else (if s[0] == ' ' then "" else [s[0]]) + RemoveBlanks(s[1..])
  }

  function JoinPieces(pieces: seq<string>): string {
    if pieces == [] then ""
    else if |pieces| == 1 then RemoveBlanks(pieces[0])
    else RemoveBlanks(pieces[0]) + "," + JoinPieces(pieces[1..])
  }

  function LineSpecAnswer(text: string): Option<string> {
    var v := AnswerRegion(text);
    var start := LastColonMarker(v);
    if start.None? then IntegerAnswer(text)
    else
      var pieces := Pieces(MarkerValueSpan(v, start.value, 160), 0, true);
      if pieces == [] then IntegerAnswer(text) else Some(JoinPieces(pieces))
  }

  /** The index of the dash in a piece, or its length. */
  function DashAt(item: string, p: nat): (i: nat)
    requires p <= |item|
    ensures p <= i <= |item|
    decreases |item| - p
  {
    if p < |item| && item[p] != '-' then DashAt(item, p + 1) else p
  }

  /** int(part) of a digit string; other parts do not occur in a piece. */
  function ToInt(s: string): nat { if AllDigits(s) then Value(s) else 0 }

  /** The numbers that one piece adds. */
  function PieceLines(item: string): (s: set<nat>)
  {
    var i := DashAt(item, 0);
    if i < |item| then
      var a, b := ToInt(item[..i]), ToInt(item[i + 1..]);
      Between(if a <= b then a else b, if a <= b then b else a)
    else {ToInt(item)}
  }

  /** range(lo, hi + 1) as a set */
  function Between(lo: nat, hi: nat): (s: set<nat>)
    ensures forall i: nat :: i in s <==> lo <= i <= hi
  {
    set i: nat | i < hi + 1 && AtLeast(i, lo)
  }

  predicate AtLeast(i: nat, lo: nat) { lo <= i }

  function PiecesLines(pieces: seq<string>): set<nat> {
    if pieces == [] then {} else PieceLines(pieces[0]) + PiecesLines(pieces[1..])
  }

  /** _parse_line_spec, as a function of the specification. */
  function SpecLines(spec: string): set<nat> { PiecesLines(Pieces(spec, 0, false)) }

  method ParseLineSpec(spec: string) returns (out: set<nat>)
    ensures out == SpecLines(spec)
  {
    hide PieceLines;
    out := {};
    var items := Pieces(spec, 0, false);
    for k := 0 to |items|
      invariant SpecLines(spec) == out + PiecesLines(items[k..])
    {
      assert items[k..][0] == items[k] && items[k..][1..] == items[k + 1..];
      out := out + PieceLines(items[k]);
    }
  }

  // ---- grading ----

  /** What a request carries about its case. */
  datatype Meta = Meta(source: string, choices: seq<string>, answer: string)

  predicate SpecAccepts(expected: string, got: string) {
    var g, e := SpecLines(got), SpecLines(expected);
    g != {} && e != {} && g <= e
  }

  /** The comparison in _grade_one for an extracted answer. */
  predicate Accepts(meta: Meta, got: string) {
    if meta.choices != [] then got == (if meta.answer == "" then "" else [meta.answer[0]])
    else if meta.source == "COMPSEC" then SpecAccepts(meta.answer, got)
    else got == (if meta.answer != "" && AllDigits(meta.answer) then Dec(Value(meta.answer)) else meta.answer)
  }

  /** The extraction in _grade_one. */
  function Extract(meta: Meta, text: string): Option<string> {
    if meta.choices != [] then LetterAnswer(text, |meta.choices|)
    else if meta.source == "COMPSEC" then LineSpecAnswer(text)
    else IntegerAnswer(text)
  }
}
