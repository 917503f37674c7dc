/** What the stream filter shows: the characters outside tags, each in the style of
    the mode it is in, and a line feed for every close tag. */
module StreamMeaning {
  import opened CText
  import opened StreamFilter

  /** A text read as characters and tags. */
  datatype Part = Char(c: char) | OpenTag | CloseTag

  function Spelled(parts: seq<Part>): string {
    if parts == [] then ""
    else
      (match parts[0]
       case Char(c) => [c]
       case OpenTag => "<think>"
       case CloseTag => "</think>") + Spelled(parts[1..])
  }

  /** No character starts a tag: every tag is read as one. */
  predicate TagsRead(parts: seq<Part>) {
    parts == [] ||
    (TagsRead(parts[1..]) &&
     (parts[0].Char? ==> !("<think>" <= Spelled(parts)) && !("</think>" <= Spelled(parts))))
  }

  function ShownText(parts: seq<Part>): string {
    if parts == [] then ""
    else
      (match parts[0]
       case Char(c) => [c]
       case OpenTag => ""
       case CloseTag => "\n") + ShownText(parts[1..])
  }

  /** 1 for what is shown while thinking; the line feed of a close tag is not. */
  function ShownStyles(parts: seq<Part>, thinking: bool): seq<int> {
    if parts == [] then []
    else
      match parts[0]
      case Char(c) => [if thinking then 1 else 0] + ShownStyles(parts[1..], thinking)
      case OpenTag => ShownStyles(parts[1..], true)
      case CloseTag => [0] + ShownStyles(parts[1..], false)
  }

  /** The mode after the last tag. */
  function EndsThinking(parts: seq<Part>, thinking: bool): bool {
    if parts == [] then thinking
    else
      var last := parts[|parts| - 1];
      if last.Char? then EndsThinking(parts[..|parts| - 1], thinking) else last.OpenTag?
  }

  lemma {:induction false} EndsThinkingHead(parts: seq<Part>, thinking: bool)
    requires parts != []
    ensures EndsThinking(parts, thinking)
         == EndsThinking(parts[1..], if parts[0].Char? then thinking else parts[0].OpenTag?)
  {
    if |parts| > 1 {
      assert parts[..|parts| - 1][1..] == parts[1..][..|parts| - 2];
      EndsThinkingHead(parts[..|parts| - 1], thinking);
    }
  }

  /** The finishing filter shows the meaning of the text. */
  lemma {:induction false} FilterMeans(parts: seq<Part>, st: Stream)
    requires TagsRead(parts) && st.pending == ""
    ensures Filter(Spelled(parts), true, st)
         == Stream(st.visible + ShownText(parts), st.styles + ShownStyles(parts, st.inThink),
                   EndsThinking(parts, st.inThink), "")
    decreases |parts|
  {
    var s := Spelled(parts);
    FilterStep(s, true, st);
    hide Filter, Shown;
    if parts == [] {
      assert st.visible + "" == st.visible && st.styles + [] == st.styles;
    } else {
      EndsThinkingHead(parts, st.inThink);
      var rest := Spelled(parts[1..]);
      match parts[0]
      case Char(c) =>
        assert s[1..] == rest && s[0] == c;
        ShownIs(st, c);
        FilterMeans(parts[1..], Shown(st, c));
        JoinShown(st, [c], parts[1..], [if st.inThink then 1 else 0], st.inThink);
      case OpenTag =>
        assert OPEN <= s && s[|OPEN|..] == rest;
        FilterMeans(parts[1..], st.(inThink := true));
        assert "" + ShownText(parts[1..]) == ShownText(parts[1..]);
      case CloseTag =>
        assert CLOSE <= s && s[|CLOSE|..] == rest && s[1] == '/' != OPEN[1];
        FilterMeans(parts[1..], st.(inThink := false, visible := st.visible + "\n", styles := st.styles + [0]));
        JoinShown(st, "\n", parts[1..], [0], false);
    }
  }

  lemma {:induction false} JoinShown(st: Stream, text: string, parts: seq<Part>, styles: seq<int>, thinking: bool)
    ensures st.visible + text + ShownText(parts) == st.visible + (text + ShownText(parts))
    ensures st.styles + styles + ShownStyles(parts, thinking) == st.styles + (styles + ShownStyles(parts, thinking))
  {
  }

  /** Every text has such a reading. */
  lemma {:induction false} ReadingOf(s: string) returns (parts: seq<Part>)
    ensures Spelled(parts) == s && TagsRead(parts)
    decreases |s|
  {
    if s == "" {
      parts := [];
    } else {
      var head, size := if "<think>" <= s then OpenTag else if "</think>" <= s then CloseTag else Char(s[0]),
                        if "<think>" <= s then 7 else if "</think>" <= s then 8 else 1;
      var rest := ReadingOf(s[size..]);
      parts := [head] + rest;
      assert parts[1..] == rest;
      assert s == s[..size] + s[size..];
    }
  }

  // ---- a thinking block ----

  function Repeated(style: int, n: nat): seq<int> { seq(n, _ => style) }

  lemma {:induction false} PlainShown(a: string, rest: string, finish: bool, st: Stream)
    requires '<' !in a && st.pending == ""
    ensures Filter(a + rest, finish, st)
         == Filter(rest, finish, Stream(st.visible + a, st.styles + Repeated(if st.inThink then 1 else 0, |a|), st.inThink, ""))
    decreases |a|
  {
    var style := if st.inThink then 1 else 0;
    hide Filter, Shown;
    if a == "" {
      assert a + rest == rest && st.visible + a == st.visible && st.styles + Repeated(style, 0) == st.styles;
    } else {
      FilterStep(a + rest, finish, st);
      assert (a + rest)[0] == a[0] && a[0] in a;
      assert (a + rest)[1..] == a[1..] + rest;
      ShownIs(st, a[0]);
      PlainShown(a[1..], rest, finish, Shown(st, a[0]));
      assert st.visible + [a[0]] + a[1..] == st.visible + a;
      assert st.styles + [style] + Repeated(style, |a| - 1) == st.styles + Repeated(style, |a|);
    }
  }

  /** A thinking block and the answer after it: the thoughts are shown in the thinking
      style, a line feed stands for the close tag, and the answer is shown plain. */
  lemma {:induction false} ThinkBlockShown(a: string, b: string, finish: bool, thinking: bool)
    requires '<' !in a && '<' !in b
    ensures Filter("<think>" + a + "</think>" + b, finish, Stream("", [], thinking, ""))
         == Stream(a + "\n" + b, Repeated(1, |a|) + [0] + Repeated(0, |b|), false, "")
  {
    var st := Stream("", [], thinking, "");
    var s := "<think>" + a + "</think>" + b;
    hide Filter, Repeated;
    FilterStep(s, finish, st);
    assert OPEN <= s && s[|OPEN|..] == a + ("</think>" + b);
    PlainShown(a, "</think>" + b, finish, st.(inThink := true));
    assert "" + a == a && [] + Repeated(1, |a|) == Repeated(1, |a|);
    var inner := Stream(a, Repeated(1, |a|), true, "");
    CloseShown(b, finish, inner);
    var after := Stream(a + "\n", Repeated(1, |a|) + [0], false, "");
    assert b + "" == b;
    PlainShown(b, "", finish, after);
    FilterStep("", finish, Stream(a + "\n" + b, Repeated(1, |a|) + [0] + Repeated(0, |b|), false, ""));
  }

  lemma {:induction false} CloseShown(b: string, finish: bool, st: Stream)
    requires st.pending == ""
    ensures Filter("</think>" + b, finish, st)
         == Filter(b, finish, Stream(st.visible + "\n", st.styles + [0], false, ""))
  {
    var s := "</think>" + b;
    FilterStep(s, finish, st);
    hide Filter;
    assert s[1] == '/' != OPEN[1];
    assert CLOSE <= s && s[|CLOSE|..] == b;
  }

  /** A beginning of a tag at the end of what has arrived is held back, and the finishing
      call shows it. */
  lemma {:induction false} HeldBack(a: string, part: string, st: Stream)
    requires '<' !in a && st.pending == "" && part != ""
    requires part < "<think>" || part < "</think>"
    ensures var shown := Stream(st.visible + a, st.styles + Repeated(if st.inThink then 1 else 0, |a|), st.inThink, part);
      Filter(a + part, false, st) == shown &&
      Feed(shown, "", true).visible == st.visible + a + part
  {
    var now := Stream(st.visible + a, st.styles + Repeated(if st.inThink then 1 else 0, |a|), st.inThink, "");
    NoTagYet(part);
    PlainShown(a, part, false, st);
    FilterStep(part, false, now);
    hide Filter, Repeated;
    assert part + "" == part && now.(pending := part).(pending := "") == now;
    FinishShows(part, now);
  }

  lemma {:induction false} FinishShows(part: string, st: Stream)
    requires part != "" && (part < "<think>" || part < "</think>") && st.pending == ""
    ensures Filter(part, true, st).visible == st.visible + part
  {
    NoTagYet(part);
    FilterStep(part, true, st);
    ShownIs(st, part[0]);
    hide Filter, Shown, Repeated;
    var next, tail := Shown(st, part[0]), part[1..];
    assert st.visible + [part[0]] + tail == st.visible + part && tail + "" == tail;
    PlainShown(tail, "", true, next);
    FilterStep("", true, Stream(next.visible + tail, next.styles + Repeated(if st.inThink then 1 else 0, |tail|), st.inThink, ""));
  }

  lemma {:induction false} NoTagYet(part: string)
    requires part != "" && (part < "<think>" || part < "</think>")
    ensures part[0] == '<' && '<' !in part[1..] && !(OPEN <= part) && !(CLOSE <= part)
    ensures Partial(part, OPEN) || Partial(part, CLOSE)
  {
    if part < "</think>" && |part| > 1 {
      assert part[1] == '/';
    }
  }

  /** Only the beginning of a tag is ever held back. */
  lemma {:induction false} OnlyTagsHeldBack(s: string, finish: bool, st: Stream)
    requires st.pending == ""
    ensures var held := Filter(s, finish, st).pending;
      held == "" || (!finish && (held < "<think>" || held < "</think>"))
    decreases |s|
  {
    FilterStep(s, finish, st);
    hide Filter, Shown;
    if s != "" {
      if OPEN <= s {
        OnlyTagsHeldBack(s[|OPEN|..], finish, st.(inThink := true));
      } else if CLOSE <= s {
        OnlyTagsHeldBack(s[|CLOSE|..], finish,
                         st.(inThink := false, visible := st.visible + "\n", styles := st.styles + [0]));
      } else {
        ShownIs(st, s[0]);
        OnlyTagsHeldBack(s[1..], finish, Shown(st, s[0]));
      }
    }
  }
}
