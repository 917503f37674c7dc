/** The label parser for Prometheus series, and when it reads back what the text
    exposition format writes. */
module PrometheusLabels {
  import opened CText

  /** str.isspace */
  predicate IsWhite(c: char) {
    var n := c as int;
    9 <= n <= 13 || 28 <= n <= 32 || n == 0x85 || n == 0xA0 || n == 0x1680 || 0x2000 <= n <= 0x200A ||
    n == 0x2028 || n == 0x2029 || n == 0x202F || n == 0x205F || n == 0x3000
  }

  /** str.find of one character, or the length. */
  function FindChar(s: string, c: char, i: nat): (j: nat)
    requires i <= |s|
    ensures i <= j <= |s| && (j < |s| ==> s[j] == c)
    decreases |s| - i
  {
    if i == |s| || s[i] == c then i else FindChar(s, c, i + 1)
  }

  function WhiteEnd(s: string, i: nat): (j: nat)
    requires i <= |s|
    ensures i <= j <= |s|
    decreases |s| - i
  {
    if i < |s| && IsWhite(s[i]) then WhiteEnd(s, i + 1) else i
  }

  function WhiteStart(s: string, i: nat): (j: nat)
    requires i <= |s|
    ensures j <= i
  {
    if i > 0 && IsWhite(s[i - 1]) then WhiteStart(s, i - 1) else i
  }

  /** str.strip */
  function Strip(s: string): string {
    var i, j := WhiteEnd(s, 0), WhiteStart(s, |s|);
    if i < j then s[i..j] else ""
  }

  // ---- the parser ----

  /** The characters of a quoted value from i on, and the position after its closing quote. */
  function Quoted(s: string, i: nat): (r: (string, nat))
    requires i <= |s|
    ensures i <= r.1 <= |s|
    decreases |s| - i
  {
    if i == |s| then ("", i)
    else if s[i] == '\\' && i + 1 < |s| then
      var (chars, end) := Quoted(s, i + 2);
      ([s[i + 1]] + chars, end)
    else if s[i] == '"' then ("", i + 1)
    else
      var (chars, end) := Quoted(s, i + 1);
      ([s[i]] + chars, end)
  }

  function Labels(s: string, i: nat, labels: map<string, string>): map<string, string>
    requires i <= |s|
    decreases |s| - i
  {
    if i == |s| then labels
    else
      var equals := FindChar(s, '=', i);
      if equals == |s| then labels
      else if equals + 1 == |s| || s[equals + 1] != '"' then
        var comma := FindChar(s, ',', equals + 1);
        if comma == |s| then labels else Labels(s, comma + 1, labels)
      else
        var (chars, end) := Quoted(s, equals + 2);
        Labels(s, SkipComma(s, end), Put(labels, Strip(s[i..equals]), chars))
  }

  function SkipComma(s: string, i: nat): (j: nat)
    requires i <= |s|
    ensures i <= j <= |s|
  {
    if i < |s| && s[i] == ',' then i + 1 else i
  }

  function Put(labels: map<string, string>, key: string, value: string): map<string, string> {
    if key == "" then labels else labels[key := value]
  }

  /** _prometheus_metric_head */
  function MetricHead(head: string): (string, map<string, string>) {
    var open := FindChar(head, '{', 0);
    if open < |head| && head[|head| - 1] == '}' then
      var text := head[open + 1..];
      (WithoutPrefix(head[..open]), Labels(text[..|text| - 1], 0, map[]))
    else (WithoutPrefix(head), map[])
  }

  function WithoutPrefix(metric: string): string { if "vllm:" <= metric then metric[5..] else metric }

  /** The head of a series line: everything before the first white space. */
  function SeriesHead(line: string): string { line[..WhiteFind(line, 0)] }

  function WhiteFind(s: string, i: nat): (j: nat)
    requires i <= |s|
    ensures i <= j <= |s|
    decreases |s| - i
  {
    if i == |s| || IsWhite(s[i]) then i else WhiteFind(s, i + 1)
  }

  /** _parse_prometheus_labels: the index only moves forward, so the scan ends on every input. */
  method ParsePrometheusLabels(s: string) returns (labels: map<string, string>)
    ensures labels == Labels(s, 0, map[])
  {
    hide Quoted, Strip, FindChar, IsWhite, Labels, Put, SkipComma;
    labels := map[];
    var index := 0;
    while index < |s|
      invariant index <= |s|
      invariant Labels(s, 0, map[]) == Labels(s, index, labels)
      decreases |s| - index
    {
      var equals := FindChar(s, '=', index);
      LabelsStops(s, index, labels);
      if equals == |s| {
        break;
      }
      var key := Strip(s[index..equals]);
      if equals + 1 >= |s| || s[equals + 1] != '"' {
        var comma := FindChar(s, ',', equals + 1);
        if comma == |s| {
          break;
        }
        index := comma + 1;
        continue;
      }
      var chars, end := ReadQuoted(s, equals + 2);
      LabelsStep(s, index, labels, equals, chars, end);
      PutIs(labels, key, chars);
      SkipCommaIs(s, end);
      index := end;
      if key != "" {
        labels := labels[key := chars];
      }
      if index < |s| && s[index] == ',' {
        index := index + 1;
      }
    }
    LabelsStops(s, index, labels);
  }

  lemma {:induction false} PutIs(labels: map<string, string>, key: string, value: string)
    ensures Put(labels, key, value) == if key == "" then labels else labels[key := value]
  {
  }

  lemma {:induction false} SkipCommaIs(s: string, i: nat)
    requires i <= |s|
    ensures SkipComma(s, i) == if i < |s| && s[i] == ',' then i + 1 else i
  {
  }

  /** Where no quoted value follows, the labels so far are returned or an entry is skipped. */
  lemma {:induction false} LabelsStops(s: string, i: nat, labels: map<string, string>)
    requires i <= |s|
    ensures
      var equals := FindChar(s, '=', i);
      if i == |s| || equals == |s| then Labels(s, i, labels) == labels
      else if equals + 1 == |s| || s[equals + 1] != '"' then
        var comma := FindChar(s, ',', equals + 1);
        Labels(s, i, labels) == if comma == |s| then labels else Labels(s, comma + 1, labels)
      else true
  {
    hide Quoted, Strip, FindChar, Put, SkipComma;
  }

  method ReadQuoted(s: string, start: nat) returns (chars: string, index: nat)
    requires start <= |s|
    ensures (chars, index) == Quoted(s, start)
  {
    chars, index := "", start;
    assert "" + Quoted(s, start).0 == Quoted(s, start).0;
    while index < |s|
      invariant start <= index <= |s|
      invariant Quoted(s, start) == (chars + Quoted(s, index).0, Quoted(s, index).1)
      decreases |s| - index
    {
      ghost var had := chars;
      var c := s[index];
      if c == '\\' && index + 1 < |s| {
        chars := chars + [s[index + 1]];
        assert had + ([s[index + 1]] + Quoted(s, index + 2).0) == chars + Quoted(s, index + 2).0;
        index := index + 2;
        continue;
      }
      if c == '"' {
        assert chars + "" == chars;
        index := index + 1;
        return;
      }
      chars := chars + [c];
      assert had + ([c] + Quoted(s, index + 1).0) == chars + Quoted(s, index + 1).0;
      index := index + 1;
    }
    assert chars + "" == chars;
  }

  // ---- the exposition format ----

  datatype Pair = Pair(name: string, value: string)

  function Quote(pair: Pair): string { pair.name + ("=\"" + (Escaped(pair.value) + "\"")) }

  /** Pairs separated by commas, with an optional comma at the end. */
  function List(pairs: seq<Pair>, trailing: bool): string {
    if pairs == [] then ""
    else Quote(pairs[0]) + (Comma(pairs, trailing) + List(pairs[1..], trailing))
  }

  function Printed(metric: string, pairs: seq<Pair>, trailing: bool): string {
    metric + ("{" + (List(pairs, trailing) + "}"))
  }

  predicate NameChar(c: char) { c == '_' || IsAlpha(c) || IsDigit(c) }

  predicate LabelName(name: string) { name != "" && forall i :: 0 <= i < |name| ==> NameChar(name[i]) }

  predicate MetricName(name: string) { forall i :: 0 <= i < |name| ==> NameChar(name[i]) || name[i] == ':' }

  predicate AllNamed(pairs: seq<Pair>) { pairs == [] || (LabelName(pairs[0].name) && AllNamed(pairs[1..])) }

  /** What the parser makes of a value: a line feed comes back as the letter n. */
  function Seen(value: string): string {
    if value == "" then "" else [if value[0] == '\n' then 'n' else value[0]] + Seen(value[1..])
  }

  function Fold(labels: map<string, string>, pairs: seq<Pair>): map<string, string>
    decreases |pairs|
  {
    if pairs == [] then labels else Fold(labels[pairs[0].name := pairs[0].value], pairs[1..])
  }

  function SeenPairs(pairs: seq<Pair>): seq<Pair> {
    if pairs == [] then [] else [Pair(pairs[0].name, Seen(pairs[0].value))] + SeenPairs(pairs[1..])
  }

  lemma {:induction false} QuotedReads(s: string, i: nat, value: string)
    requires At(s, i, Escaped(value) + "\"")
    ensures Quoted(s, i) == (Seen(value), i + |Escaped(value)| + 1)
    decreases |value|
  {
    hide At, Quoted, EscapedChar;
    var all := Escaped(value) + "\"";
    if value == "" {
      assert all == "\"";
      ClosingQuote(s, i);
    } else {
      var first, rest := EscapedChar(value[0]), Escaped(value[1..]) + "\"";
      assert all == first + rest;
      AtSplit(s, i, first, rest);
      AtWithin(s, i + |first|, rest);
      EscapedCharReads(s, i, value[0]);
      QuotedReads(s, i + |first|, value[1..]);
    }
  }

  lemma {:induction false} ClosingQuote(s: string, i: nat)
    requires At(s, i, "\"")
    ensures i < |s| && Quoted(s, i) == ("", i + 1)
  {
    AtIndex(s, i, "\"", 0);
  }

  lemma {:induction false} EscapedCharReads(s: string, i: nat, c: char)
    requires At(s, i, EscapedChar(c)) && i + |EscapedChar(c)| <= |s|
    ensures
      var (chars, end) := Quoted(s, i + |EscapedChar(c)|);
      Quoted(s, i) == ([if c == '\n' then 'n' else c] + chars, end)
  {
    AtIndex(s, i, EscapedChar(c), 0);
    AtIndex(s, i, EscapedChar(c), |EscapedChar(c)| - 1);
    hide At;
  }

  lemma {:induction false} FindCharAt(s: string, c: char, i: nat, j: nat)
    requires i <= j < |s| && s[j] == c && forall k :: i <= k < j ==> s[k] != c
    ensures FindChar(s, c, i) == j
    decreases j - i
  {
    if i < j {
      FindCharAt(s, c, i + 1, j);
    }
  }

  lemma {:induction false} StripName(name: string)
    requires LabelName(name)
    ensures Strip(name) == name
  {
    assert NameChar(name[0]) && NameChar(name[|name| - 1]);
  }

  /** Where the parts of a printed pair lie. */
  lemma {:induction false} PairParts(s: string, i: nat, pair: Pair, rest: string)
    requires LabelName(pair.name) && At(s, i, Quote(pair) + rest)
    ensures
      var equals := i + |pair.name|;
      equals + 2 <= |s| && s[equals] == '=' && s[equals + 1] == '"' && s[i..equals] == pair.name &&
      FindChar(s, '=', i) == equals && At(s, equals + 2, Escaped(pair.value) + "\"")
  {
    hide FindChar, Escaped;
    var tail := Escaped(pair.value) + "\"";
    var equals := i + |pair.name|;
    AtSplit(s, i, Quote(pair), rest);
    AtSplit(s, i, pair.name, "=\"" + tail);
    AtSplit(s, equals, "=\"", tail);
    AtIndex(s, equals, "=\"", 0);
    AtIndex(s, equals, "=\"", 1);
    forall k | i <= k < equals ensures s[k] != '=' {
      AtIndex(s, i, pair.name, k - i);
      assert NameChar(pair.name[k - i]);
    }
    FindCharAt(s, '=', i, equals);
  }

  lemma {:induction false} LabelsStep(s: string, i: nat, labels: map<string, string>, equals: nat, value: string, end: nat)
    requires i <= equals && equals + 2 <= end <= |s| && FindChar(s, '=', i) == equals && s[equals + 1] == '"'
    requires Quoted(s, equals + 2) == (value, end)
    ensures Labels(s, i, labels) == Labels(s, SkipComma(s, end), Put(labels, Strip(s[i..equals]), value))
  {
    hide FindChar, Quoted, Strip, Put, SkipComma;
  }

  lemma {:induction false} PairReads(s: string, i: nat, pair: Pair, rest: string, labels: map<string, string>)
    requires LabelName(pair.name) && At(s, i, Quote(pair) + rest)
    ensures var end := i + |Quote(pair)|;
      end <= |s| && Labels(s, i, labels) == Labels(s, SkipComma(s, end), labels[pair.name := Seen(pair.value)])
  {
    hide Quoted, FindChar, Strip, Escaped, Seen, Labels, SkipComma, At, NameChar;
    PairParts(s, i, pair, rest);
    var equals := i + |pair.name|;
    QuotedReads(s, equals + 2, pair.value);
    StripName(pair.name);
    LabelsStep(s, i, labels, equals, Seen(pair.value), equals + 2 + |Escaped(pair.value)| + 1);
  }

  function Comma(pairs: seq<Pair>, trailing: bool): string { if |pairs| > 1 || trailing then "," else "" }

  lemma {:induction false} ListParts(s: string, i: nat, pairs: seq<Pair>, trailing: bool)
    requires pairs != [] && At(s, i, List(pairs, trailing)) && i + |List(pairs, trailing)| == |s|
    ensures
      var comma, rest, end := Comma(pairs, trailing), List(pairs[1..], trailing), i + |Quote(pairs[0])|;
      At(s, i, Quote(pairs[0]) + (comma + rest)) && At(s, end + |comma|, rest) && end + |comma| + |rest| == |s| &&
      SkipComma(s, end) == end + |comma|
  {
    hide Quote, SkipComma, At;
    var comma, rest, end := Comma(pairs, trailing), List(pairs[1..], trailing), i + |Quote(pairs[0])|;
    AtSplit(s, i, Quote(pairs[0]), comma + rest);
    AtSplit(s, end, comma, rest);
    CommaSkipped(s, end, comma);
  }

  lemma {:induction false} NoLabels(s: string, labels: map<string, string>)
    ensures Labels(s, |s|, labels) == labels
  {
  }

  lemma {:induction false} ListReads(s: string, i: nat, pairs: seq<Pair>, trailing: bool, labels: map<string, string>)
    requires AllNamed(pairs) && At(s, i, List(pairs, trailing)) && i + |List(pairs, trailing)| == |s|
    ensures Labels(s, i, labels) == Fold(labels, SeenPairs(pairs))
    decreases |pairs|
  {
    hide Seen, Quote, Labels, LabelName, SkipComma, At, Comma;
    if pairs == [] {
      NoLabels(s, labels);
    } else {
      hide List, Fold;
      var comma, rest := Comma(pairs, trailing), List(pairs[1..], trailing);
      ListParts(s, i, pairs, trailing);
      PairReads(s, i, pairs[0], comma + rest, labels);
      ListReads(s, i + |Quote(pairs[0])| + |comma|, pairs[1..], trailing, labels[pairs[0].name := Seen(pairs[0].value)]);
      FoldSeen(labels, pairs);
    }
  }

  lemma {:induction false} CommaSkipped(s: string, i: nat, comma: string)
    requires comma == "," || (comma == "" && i == |s|)
    requires At(s, i, comma)
    ensures SkipComma(s, i) == i + |comma|
  {
    if comma != "" {
      AtIndex(s, i, comma, 0);
    }
  }

  lemma {:induction false} FoldSeen(labels: map<string, string>, pairs: seq<Pair>)
    requires pairs != []
    ensures Fold(labels, SeenPairs(pairs)) == Fold(labels[pairs[0].name := Seen(pairs[0].value)], SeenPairs(pairs[1..]))
  {
    hide Seen;
    assert SeenPairs(pairs)[1..] == SeenPairs(pairs[1..]);
  }

  /** Whatever the label values hold, the printed series is read back with its metric
      name (less a vllm: prefix) and each value with its line feeds turned into n. */
  lemma {:induction false} PrintedReads(metric: string, pairs: seq<Pair>, trailing: bool)
    requires MetricName(metric) && AllNamed(pairs)
    ensures MetricHead(Printed(metric, pairs, trailing)) == (WithoutPrefix(metric), Fold(map[], SeenPairs(pairs)))
  {
    hide List, Labels, Fold, SeenPairs, WithoutPrefix, MetricName, AllNamed, FindChar;
    var list := List(pairs, trailing);
    PrintedParts(metric, list);
    WholeList(pairs, trailing);
  }

  lemma {:induction false} WholeList(pairs: seq<Pair>, trailing: bool)
    requires AllNamed(pairs)
    ensures Labels(List(pairs, trailing), 0, map[]) == Fold(map[], SeenPairs(pairs))
  {
    var list := List(pairs, trailing);
    assert At(list, 0, list);
    hide *;
    ListReads(list, 0, pairs, trailing, map[]);
  }

  lemma {:induction false} PrintedParts(metric: string, list: string)
    requires MetricName(metric)
    ensures
      var head := metric + ("{" + (list + "}"));
      var text := head[|metric| + 1..];
      FindChar(head, '{', 0) == |metric| && head[..|metric|] == metric && head[|head| - 1] == '}' && text[..|text| - 1] == list
  {
    hide FindChar;
    var head := metric + ("{" + (list + "}"));
    assert head[|metric| + 1..] == list + "}";
    forall k | 0 <= k < |metric| ensures head[k] != '{' { assert head[k] == metric[k]; }
    FindCharAt(head, '{', 0, |metric|);
  }

  // ---- when the labels come back unchanged ----

  predicate DistinctNames(pairs: seq<Pair>) {
    pairs == [] || ((forall i :: 1 <= i < |pairs| ==> pairs[i].name != pairs[0].name) && DistinctNames(pairs[1..]))
  }

  lemma {:induction false} SeenSame(value: string)
    ensures Seen(value) == value <==> forall i :: 0 <= i < |value| ==> value[i] != '\n'
  {
    if value != "" {
      SeenSame(value[1..]);
      assert Seen(value)[0] != '\n' && Seen(value)[1..] == Seen(value[1..]);
      assert value == [value[0]] + value[1..];
      if forall i :: 0 <= i < |value[1..]| ==> value[1..][i] != '\n' {
        assert forall i :: 1 <= i < |value| ==> value[i] == value[1..][i - 1];
      } else {
        var i :| 0 <= i < |value[1..]| && value[1..][i] == '\n';
        assert value[i + 1] == '\n';
      }
    }
  }

  lemma {:induction false} FoldKeeps(labels: map<string, string>, pairs: seq<Pair>, name: string)
    requires name in labels && forall i :: 0 <= i < |pairs| ==> pairs[i].name != name
    ensures name in Fold(labels, pairs) && Fold(labels, pairs)[name] == labels[name]
    decreases |pairs|
  {
    if pairs != [] {
      FoldKeeps(labels[pairs[0].name := pairs[0].value], pairs[1..], name);
    }
  }

  lemma {:induction false} FoldHas(labels: map<string, string>, pairs: seq<Pair>, i: nat)
    requires DistinctNames(pairs) && i < |pairs|
    ensures pairs[i].name in Fold(labels, pairs) && Fold(labels, pairs)[pairs[i].name] == pairs[i].value
    decreases |pairs|
  {
    var next := labels[pairs[0].name := pairs[0].value];
    if i == 0 {
      FoldKeeps(next, pairs[1..], pairs[0].name);
    } else {
      FoldHas(next, pairs[1..], i - 1);
    }
  }

  lemma {:induction false} SeenPairsAt(pairs: seq<Pair>)
    ensures |SeenPairs(pairs)| == |pairs|
    ensures forall i :: 0 <= i < |pairs| ==> SeenPairs(pairs)[i] == Pair(pairs[i].name, Seen(pairs[i].value))
    ensures DistinctNames(pairs) ==> DistinctNames(SeenPairs(pairs))
  {
    hide Seen;
    if pairs != [] {
      SeenPairsAt(pairs[1..]);
      assert SeenPairs(pairs)[1..] == SeenPairs(pairs[1..]);
      assert forall i :: 1 <= i < |pairs| ==> SeenPairs(pairs)[i] == SeenPairs(pairs[1..])[i - 1] && pairs[i] == pairs[1..][i - 1];
    }
  }

  predicate ValuesKept(pairs: seq<Pair>) { forall i :: 0 <= i < |pairs| ==> Seen(pairs[i].value) == pairs[i].value }

  lemma {:induction false} FoldSameIff(pairs: seq<Pair>)
    requires DistinctNames(pairs)
    ensures Fold(map[], SeenPairs(pairs)) == Fold(map[], pairs) <==> ValuesKept(pairs)
  {
    hide Seen, Fold, SeenPairs, DistinctNames;
    SeenPairsAt(pairs);
    if ValuesKept(pairs) {
      assert SeenPairs(pairs) == pairs;
    } else {
      var i :| 0 <= i < |pairs| && Seen(pairs[i].value) != pairs[i].value;
      FoldHas(map[], pairs, i);
      FoldHas(map[], SeenPairs(pairs), i);
    }
  }

  predicate HasLineFeed(value: string) { exists i :: 0 <= i < |value| && value[i] == '\n' }

  /** Head and labels are read back exactly when no value contains a line feed. */
  lemma {:induction false} HeadRoundTrips(metric: string, pairs: seq<Pair>, trailing: bool)
    requires MetricName(metric) && AllNamed(pairs) && DistinctNames(pairs)
    ensures
      MetricHead(Printed(metric, pairs, trailing)) == (WithoutPrefix(metric), Fold(map[], pairs)) <==>
      forall i :: 0 <= i < |pairs| ==> !HasLineFeed(pairs[i].value)
  {
    hide MetricHead, Printed, Fold, SeenPairs, Seen, MetricName, AllNamed, DistinctNames, WithoutPrefix;
    PrintedReads(metric, pairs, trailing);
    FoldSameIff(pairs);
    forall i | 0 <= i < |pairs| ensures Seen(pairs[i].value) == pairs[i].value <==> !HasLineFeed(pairs[i].value) {
      SeenSame(pairs[i].value);
    }
  }

  // ---- whole series lines ----

  predicate NoWhite(s: string) { forall i :: 0 <= i < |s| ==> !IsWhite(s[i]) }

  predicate ValuesNoWhite(labels: map<string, string>) { forall name :: name in labels ==> NoWhite(labels[name]) }

  lemma {:induction false} HeadNoWhite(line: string, i: nat)
    requires i <= |line|
    ensures NoWhite(line[i..WhiteFind(line, i)])
    decreases |line| - i
  {
    hide IsWhite;
    if i < |line| && !IsWhite(line[i]) {
      HeadNoWhite(line, i + 1);
      var j := WhiteFind(line, i + 1);
      assert line[i..j] == [line[i]] + line[i + 1..j];
    }
  }

  lemma {:induction false} QuotedNoWhite(s: string, i: nat)
    requires i <= |s| && NoWhite(s)
    ensures NoWhite(Quoted(s, i).0)
    decreases |s| - i
  {
    hide IsWhite;
    if i == |s| {
    } else if s[i] == '\\' && i + 1 < |s| {
      QuotedNoWhite(s, i + 2);
    } else if s[i] != '"' {
      QuotedNoWhite(s, i + 1);
    }
  }

  /** Text without white space yields no label value with white space. */
  lemma {:induction false} LabelsNoWhite(s: string, i: nat, labels: map<string, string>)
    requires i <= |s| && NoWhite(s) && ValuesNoWhite(labels)
    ensures ValuesNoWhite(Labels(s, i, labels))
    decreases |s| - i
  {
    hide NoWhite, Quoted, Strip, FindChar, SkipComma, IsWhite;
    if i < |s| {
      var equals := FindChar(s, '=', i);
      if equals == |s| {
      } else if equals + 1 == |s| || s[equals + 1] != '"' {
        var comma := FindChar(s, ',', equals + 1);
        if comma < |s| {
          LabelsNoWhite(s, comma + 1, labels);
        }
      } else {
        QuotedNoWhite(s, equals + 2);
        var (chars, end) := Quoted(s, equals + 2);
        LabelsNoWhite(s, SkipComma(s, end), Put(labels, Strip(s[i..equals]), chars));
      }
    }
  }

  lemma {:induction false} MetricHeadNoWhite(head: string)
    requires NoWhite(head)
    ensures ValuesNoWhite(MetricHead(head).1)
  {
    hide IsWhite, Labels, FindChar, WithoutPrefix;
    var open := FindChar(head, '{', 0);
    if open < |head| && head[|head| - 1] == '}' {
      var text := head[open + 1..];
      assert NoWhite(text[..|text| - 1]);
      LabelsNoWhite(text[..|text| - 1], 0, map[]);
    }
  }

  lemma {:induction false} NoWhiteConcat(a: string, b: string)
    ensures NoWhite(a + b) <==> NoWhite(a) && NoWhite(b)
  {
    hide IsWhite;
    if NoWhite(a + b) {
      assert forall i :: 0 <= i < |a| ==> (a + b)[i] == a[i];
      assert forall i :: 0 <= i < |b| ==> (a + b)[|a| + i] == b[i];
    }
  }

  lemma {:induction false} EscapedNoWhite(value: string)
    requires NoWhite(value)
    ensures NoWhite(Escaped(value))
  {
    if value != "" {
      EscapedNoWhite(value[1..]);
      NoWhiteConcat(EscapedChar(value[0]), Escaped(value[1..]));
    }
  }

  lemma {:induction false} NameNoWhite(name: string)
    requires MetricName(name)
    ensures NoWhite(name)
  {
  }

  predicate NoneWhite(pairs: seq<Pair>) { pairs == [] || (NoWhite(pairs[0].value) && NoneWhite(pairs[1..])) }

  lemma {:induction false} QuoteNoWhite(pair: Pair)
    requires LabelName(pair.name) && NoWhite(pair.value)
    ensures NoWhite(Quote(pair))
  {
    EscapedNoWhite(pair.value);
    NameNoWhite(pair.name);
    hide Escaped;
    NoWhiteConcat(Escaped(pair.value), "\"");
    NoWhiteConcat("=\"", Escaped(pair.value) + "\"");
    NoWhiteConcat(pair.name, "=\"" + (Escaped(pair.value) + "\""));
  }

  lemma {:induction false} ListNoWhite(pairs: seq<Pair>, trailing: bool)
    requires AllNamed(pairs) && NoneWhite(pairs)
    ensures NoWhite(List(pairs, trailing))
  {
    if pairs != [] {
      QuoteNoWhite(pairs[0]);
      ListNoWhite(pairs[1..], trailing);
      assert NoWhite(Comma(pairs, trailing));
      hide NoWhite, Quote;
      NoWhiteConcat(Comma(pairs, trailing), List(pairs[1..], trailing));
      NoWhiteConcat(Quote(pairs[0]), Comma(pairs, trailing) + List(pairs[1..], trailing));
    }
  }

  lemma {:induction false} PrintedNoWhite(metric: string, pairs: seq<Pair>, trailing: bool)
    requires MetricName(metric) && AllNamed(pairs) && NoneWhite(pairs)
    ensures NoWhite(Printed(metric, pairs, trailing))
  {
    NameNoWhite(metric);
    ListNoWhite(pairs, trailing);
    var list := List(pairs, trailing);
    assert NoWhite("{") && NoWhite("}");
    hide NoWhite, List;
    NoWhiteConcat(list, "}");
    NoWhiteConcat("{", list + "}");
    NoWhiteConcat(metric, "{" + (list + "}"));
  }

  lemma {:induction false} WhiteFindAt(s: string, i: nat, j: nat)
    requires i <= j < |s| && IsWhite(s[j]) && forall k :: i <= k < j ==> !IsWhite(s[k])
    ensures WhiteFind(s, i) == j
    decreases j - i
  {
    if i < j {
      WhiteFindAt(s, i + 1, j);
    }
  }

  lemma {:induction false} NoneWhiteIs(pairs: seq<Pair>)
    ensures NoneWhite(pairs) <==> forall i :: 0 <= i < |pairs| ==> NoWhite(pairs[i].value)
  {
    hide NoWhite;
    if pairs != [] {
      NoneWhiteIs(pairs[1..]);
      if NoneWhite(pairs) {
        assert forall i :: 1 <= i < |pairs| ==> pairs[i] == pairs[1..][i - 1];
      } else if NoWhite(pairs[0].value) {
        var i :| 0 <= i < |pairs[1..]| && !NoWhite(pairs[1..][i].value);
        assert pairs[i + 1] == pairs[1..][i];
      }
    }
  }

  lemma {:induction false} NoWhiteNoFeed(value: string)
    requires NoWhite(value)
    ensures !HasLineFeed(value)
  {
  }

  lemma {:induction false} HeadOfLine(head: string, rest: string)
    requires NoWhite(head)
    ensures SeriesHead(head + " " + rest) == head
  {
    var line := head + " " + rest;
    assert line[|head|] == ' ' && forall k :: 0 <= k < |head| ==> line[k] == head[k];
    WhiteFindAt(line, 0, |head|);
  }

  /** A whole series line, cut at its first white space before parsing, gives the
      metric and the labels exactly when no label value contains white space. */
  lemma {:induction false} SeriesLineRoundTrips(metric: string, pairs: seq<Pair>, trailing: bool, rest: string)
    requires MetricName(metric) && AllNamed(pairs) && DistinctNames(pairs)
    ensures
      MetricHead(SeriesHead(Printed(metric, pairs, trailing) + " " + rest)) == (WithoutPrefix(metric), Fold(map[], pairs)) <==>
      forall i :: 0 <= i < |pairs| ==> NoWhite(pairs[i].value)
  {
    var line := Printed(metric, pairs, trailing) + " " + rest;
    NoneWhiteIs(pairs);
    HeadNoWhite(line, 0);
    MetricHeadNoWhite(SeriesHead(line));
    hide NoWhite, MetricHead, Printed, Fold, MetricName, AllNamed, DistinctNames, WithoutPrefix, NoneWhite, HasLineFeed, SeriesHead;
    if NoneWhite(pairs) {
      PrintedNoWhite(metric, pairs, trailing);
      HeadOfLine(Printed(metric, pairs, trailing), rest);
      forall i | 0 <= i < |pairs| ensures !HasLineFeed(pairs[i].value) { NoWhiteNoFeed(pairs[i].value); }
      HeadRoundTrips(metric, pairs, trailing);
    } else {
      var i :| 0 <= i < |pairs| && !NoWhite(pairs[i].value);
      FoldHas(map[], pairs, i);
    }
  }
}
