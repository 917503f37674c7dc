/** Series heads that are not printed the usual way: no labels, blanks around names,
    nameless values, entries without a quoted value, a value that is not closed. */
module PrometheusForeign {
  import opened CText
  import opened PrometheusLabels

  // ---- heads ----

  /** A head without a brace, or without a closing one, has no labels: it is the metric's
      name, less a "vllm:" in front. */
  lemma {:induction false} BareHead(head: string)
    requires (forall i :: 0 <= i < |head| ==> head[i] != '{') || (head != "" && head[|head| - 1] != '}')
    ensures "vllm:" <= head ==> MetricHead(head) == (head[5..], map[])
    ensures !("vllm:" <= head) ==> MetricHead(head) == (head, map[])
  {
    var open := FindChar(head, '{', 0);
    hide Labels, FindChar;
  }

  /** The prefix is dropped once, and the labels are those between the braces. */
  lemma {:induction false} PrefixDropped(metric: string, list: string)
    requires MetricName(metric)
    ensures MetricHead("vllm:" + metric + ("{" + (list + "}"))) == (metric, Labels(list, 0, map[]))
    ensures !("vllm:" <= metric) ==> MetricHead(metric + ("{" + (list + "}"))) == (metric, Labels(list, 0, map[]))
  {
    var full := "vllm:" + metric;
    assert MetricName(full);
    hide Labels, FindChar, MetricName;
    PrintedParts(full, list);
    PrintedParts(metric, list);
    assert full[5..] == metric;
  }

  // ---- entries ----

  datatype Entry =
    | Named(left: string, name: string, right: string, value: string)
    | Bare(key: string, text: string)

  predicate Blanks(s: string) { forall i :: 0 <= i < |s| ==> s[i] == ' ' || s[i] == '\t' }

  predicate Trimmed(s: string) { s != "" ==> !IsWhite(s[0]) && !IsWhite(s[|s| - 1]) }

  /** Blanks may surround a name; a bare text is not quoted and has no comma. */
  predicate Proper(e: Entry) {
    match e
    case Named(left, name, right, value) => Blanks(left) && Blanks(right) && Trimmed(name) && '=' !in name
    case Bare(key, text) => '=' !in key && (text != "" ==> text[0] != '"') && ',' !in text
  }

  predicate AllProper(es: seq<Entry>) { es == [] || (Proper(es[0]) && AllProper(es[1..])) }

  function Key(e: Entry): string { if e.Bare? then e.key else e.left + (e.name + e.right) }

  function Text(e: Entry): string { if e.Bare? then e.text else "\"" + (Escaped(e.value) + "\"") }

  function Joined(es: seq<Entry>): string {
    if es == [] then ""
    else Key(es[0]) + ("=" + (Text(es[0]) + (if |es| > 1 then "," else ""))) + Joined(es[1..])
  }

  /** The labels of the named entries, later ones over earlier ones. */
  function Meant(labels: map<string, string>, es: seq<Entry>): map<string, string>
    decreases |es|
  {
    if es == [] then labels
    else if es[0].Named? && es[0].name != "" then Meant(labels[es[0].name := Seen(es[0].value)], es[1..])
    else Meant(labels, es[1..])
  }

  lemma {:induction false} WhiteEndIs(s: string, i: nat, j: nat)
    requires i <= j <= |s| && (forall k :: i <= k < j ==> IsWhite(s[k])) && (j < |s| ==> !IsWhite(s[j]))
    ensures WhiteEnd(s, i) == j
    decreases j - i
  {
    hide IsWhite;
    if i < j {
      WhiteEndIs(s, i + 1, j);
    }
  }

  lemma {:induction false} WhiteStartIs(s: string, i: nat, j: nat)
    requires j <= i <= |s| && (forall k :: j <= k < i ==> IsWhite(s[k])) && (j > 0 ==> !IsWhite(s[j - 1]))
    ensures WhiteStart(s, i) == j
  {
    hide IsWhite;
    if j < i {
      WhiteStartIs(s, i - 1, j);
    }
  }

  /** Blanks around a name are stripped, and nothing else. */
  lemma {:induction false} StripPadded(left: string, name: string, right: string)
    requires Blanks(left) && Blanks(right) && Trimmed(name)
    ensures Strip(left + (name + right)) == name
  {
    var s := left + (name + right);
    var a, b := |left|, |left| + |name|;
    forall k | 0 <= k < a ensures IsWhite(s[k]) { assert s[k] == left[k]; }
    forall k | b <= k < |s| ensures IsWhite(s[k]) { assert s[k] == right[k - b]; }
    if name == "" {
      hide IsWhite;
      WhiteEndIs(s, 0, |s|);
    } else {
      assert s[a] == name[0] && s[b - 1] == name[|name| - 1];
      hide IsWhite;
      WhiteEndIs(s, 0, a);
      WhiteStartIs(s, |s|, b);
      assert s[a..b] == name;
    }
  }

  lemma {:induction false} KeyIs(e: Entry)
    requires Proper(e)
    ensures '=' !in Key(e)
    ensures e.Named? ==> Strip(Key(e)) == e.name
  {
    if e.Named? {
      StripPadded(e.left, e.name, e.right);
      var key := Key(e);
      forall c | c in key ensures c != '=' {
        assert c in e.left || c in e.name || c in e.right;
      }
    }
  }

  /** Where the key and the text of an entry lie. */
  lemma {:induction false} EntryParts(s: string, i: nat, key: string, text: string)
    requires At(s, i, key + ("=" + text)) && '=' !in key
    ensures var equals := i + |key|;
      equals < |s| && FindChar(s, '=', i) == equals && s[i..equals] == key && At(s, equals + 1, text)
  {
    hide FindChar;
    AtSplit(s, i, key, "=" + text);
    AtSplit(s, i + |key|, "=", text);
    AtIndex(s, i + |key|, "=", 0);
    forall k | i <= k < i + |key| ensures s[k] != '=' {
      AtIndex(s, i, key, k - i);
      assert key[k - i] in key;
    }
    FindCharAt(s, '=', i, i + |key|);
  }

  /** Where a quoted value and its comma lie. */
  lemma {:induction false} ValueParts(s: string, p: nat, value: string, comma: string)
    requires At(s, p, "\"" + (Escaped(value) + "\"") + comma)
    requires comma == "," || (comma == "" && p + |Escaped(value)| + 2 == |s|)
    ensures var end := p + |Escaped(value)| + 2;
      p + 1 <= end <= |s| && s[p] == '"' && Quoted(s, p + 1) == (Seen(value), end) &&
      end + |comma| <= |s| && SkipComma(s, end) == end + |comma|
  {
    hide Quoted, Escaped, Seen, SkipComma, At;
    var body := Escaped(value) + "\"";
    AtSplit(s, p, "\"" + body, comma);
    AtSplit(s, p, "\"", body);
    AtIndex(s, p, "\"", 0);
    AtWithin(s, p + 1, body);
    QuotedReads(s, p + 1, value);
    CommaSkipped(s, p + 1 + |body|, comma);
    AtWithin(s, p + 1 + |body|, comma);
  }

  /** A named entry adds its label; a nameless one nothing. */
  lemma {:induction false} NamedReads(s: string, i: nat, e: Entry, comma: string, labels: map<string, string>)
    requires e.Named? && Proper(e) && At(s, i, Key(e) + ("=" + (Text(e) + comma)))
    requires comma == "," || (comma == "" && i + |Key(e) + ("=" + (Text(e) + comma))| == |s|)
    ensures var end := i + |Key(e) + ("=" + (Text(e) + comma))|;
      end <= |s| &&
      Labels(s, i, labels) == Labels(s, end, if e.name == "" then labels else labels[e.name := Seen(e.value)])
  {
    hide Quoted, FindChar, Strip, Escaped, Seen, Labels, SkipComma, At, Key, Proper;
    KeyIs(e);
    EntryParts(s, i, Key(e), Text(e) + comma);
    var equals := i + |Key(e)|;
    ValueParts(s, equals + 1, e.value, comma);
    LabelsStep(s, i, labels, equals, Seen(e.value), equals + |Escaped(e.value)| + 3);
    PutIs(labels, e.name, Seen(e.value));
  }

  /** Where a bare text and its comma lie. */
  lemma {:induction false} BareParts(s: string, p: nat, text: string, comma: string)
    requires At(s, p, text + comma) && ',' !in text && (text != "" ==> text[0] != '"')
    requires comma == "," || (comma == "" && p + |text| == |s|)
    ensures p + |text + comma| <= |s| && (p < |s| ==> s[p] != '"')
    ensures FindChar(s, ',', p) == if comma == "," then p + |text| else |s|
  {
    hide FindChar;
    AtSplit(s, p, text, comma);
    AtWithin(s, p, text + comma);
    forall k | p <= k < p + |text| ensures s[k] != ',' {
      AtIndex(s, p, text, k - p);
      assert text[k - p] in text;
    }
    if text != "" {
      AtIndex(s, p, text, 0);
    }
    if comma == "," {
      AtIndex(s, p + |text|, ",", 0);
      FindCharAt(s, ',', p, p + |text|);
    } else {
      FindCharNone(s, ',', p);
    }
  }

  /** An entry without a quoted value is skipped up to its comma. */
  lemma {:induction false} BareSkipped(s: string, i: nat, e: Entry, comma: string, labels: map<string, string>)
    requires e.Bare? && Proper(e) && At(s, i, Key(e) + ("=" + (Text(e) + comma)))
    requires comma == "," || (comma == "" && i + |Key(e) + ("=" + (Text(e) + comma))| == |s|)
    ensures var end := i + |Key(e) + ("=" + (Text(e) + comma))|;
      end <= |s| && Labels(s, i, labels) == Labels(s, end, labels)
  {
    hide Quoted, FindChar, Strip, Labels, At;
    EntryParts(s, i, e.key, e.text + comma);
    BareParts(s, i + |e.key| + 1, e.text, comma);
    NoLabels(s, labels);
    LabelsStops(s, i, labels);
  }

  lemma {:induction false} FindCharNone(s: string, c: char, i: nat)
    requires i <= |s| && forall k :: i <= k < |s| ==> s[k] != c
    ensures FindChar(s, c, i) == |s|
    decreases |s| - i
  {
    if i < |s| {
      FindCharNone(s, c, i + 1);
    }
  }

  lemma {:induction false} JoinedReads(s: string, i: nat, es: seq<Entry>, labels: map<string, string>)
    requires AllProper(es) && At(s, i, Joined(es)) && i + |Joined(es)| == |s|
    ensures Labels(s, i, labels) == Meant(labels, es)
    decreases |es|
  {
    hide Labels, At, Key, Text, Proper, Seen;
    if es == [] {
      NoLabels(s, labels);
    } else {
      var comma := if |es| > 1 then "," else "";
      var head := Key(es[0]) + ("=" + (Text(es[0]) + comma));
      AtSplit(s, i, head, Joined(es[1..]));
      if |es| == 1 {
        assert Joined(es[1..]) == "";
      }
      if es[0].Named? {
        NamedReads(s, i, es[0], comma, labels);
      } else {
        BareSkipped(s, i, es[0], comma, labels);
      }
      JoinedReads(s, i + |head|, es[1..],
                  if es[0].Named? && es[0].name != "" then labels[es[0].name := Seen(es[0].value)] else labels);
    }
  }

  /** Named entries give their labels wherever blanks stand around the names; nameless
      entries and entries without a quoted value are passed over, and nothing after them
      is lost. */
  lemma {:induction false} EntriesRead(es: seq<Entry>)
    requires AllProper(es)
    ensures Labels(Joined(es), 0, map[]) == Meant(map[], es)
  {
    hide Labels, Joined, AllProper, Meant;
    assert At(Joined(es), 0, Joined(es));
    JoinedReads(Joined(es), 0, es, map[]);
  }

  // ---- values that are not closed ----

  /** A value without its closing quote extends to the end of the text. */
  lemma {:induction false} UnclosedReads(s: string, i: nat, value: string)
    requires At(s, i, Escaped(value)) && i + |Escaped(value)| == |s|
    ensures Quoted(s, i) == (Seen(value), |s|)
    decreases |value|
  {
    hide At, Quoted, EscapedChar;
    if value == "" {
      NothingQuoted(s);
    } else {
      var first, rest := EscapedChar(value[0]), Escaped(value[1..]);
      AtSplit(s, i, first, rest);
      EscapedCharReads(s, i, value[0]);
      UnclosedReads(s, i + |first|, value[1..]);
    }
  }

  lemma {:induction false} NothingQuoted(s: string)
    ensures Quoted(s, |s|) == ("", |s|)
  {
  }
}
