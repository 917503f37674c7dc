/** The terminal stream filter takes <think> tags out of text that arrives in
    pieces. */
module StreamFilter {
  import opened CText

  const OPEN := "<think>"
  const CLOSE := THINK_CLOSE
  const PENDING_MAX := 16

  /** Visible characters, the style of each (1 while thinking), the thinking flag,
      and the characters held back. */
  datatype Stream = Stream(visible: string, styles: seq<int>, inThink: bool, pending: string)

  predicate Partial(s: string, tag: string) { |s| < |tag| && s <= tag }

  /** Everything the filter does with `s`, on top of what it has shown before. */
  function Filter(s: string, finish: bool, st: Stream): (r: Stream)
    requires st.pending == ""
    ensures |st.visible| == |st.styles| ==> |r.visible| == |r.styles|
    ensures r.pending == "" || Partial(r.pending, OPEN) || Partial(r.pending, CLOSE)
    ensures |r.pending| < |CLOSE| && (finish ==> r.pending == "")
    decreases |s|
  {
    if s == "" then st
    else if OPEN <= s then Filter(s[|OPEN|..], finish, st.(inThink := true))
    else if CLOSE <= s then
      Filter(s[|CLOSE|..], finish, st.(inThink := false, visible := st.visible + "\n", styles := st.styles + [0]))
    else if !finish && s[0] == '<' && (Partial(s, OPEN) || Partial(s, CLOSE)) then st.(pending := s)
    else Filter(s[1..], finish, Shown(st, s[0]))
  }

  lemma {:induction false} FilterStep(s: string, finish: bool, st: Stream)
    requires st.pending == ""
    ensures Filter(s, finish, st) ==
      if s == "" then st
      else if OPEN <= s then Filter(s[|OPEN|..], finish, st.(inThink := true))
      else if CLOSE <= s then
        Filter(s[|CLOSE|..], finish, st.(inThink := false, visible := st.visible + "\n", styles := st.styles + [0]))
      else if !finish && s[0] == '<' && (Partial(s, OPEN) || Partial(s, CLOSE)) then st.(pending := s)
      else Filter(s[1..], finish, Shown(st, s[0]))
  {
  }

  lemma {:induction false} PartialShort(s: string)
    requires Partial(s, OPEN) || Partial(s, CLOSE)
    ensures |s| < |CLOSE|
  {
  }

  function Shown(st: Stream, c: char): Stream {
    st.(visible := st.visible + [c], styles := st.styles + [if st.inThink then 1 else 0])
  }

  lemma {:induction false} ShownIs(st: Stream, c: char)
    ensures Shown(st, c) == Stream(st.visible + [c], st.styles + [if st.inThink then 1 else 0], st.inThink, st.pending)
  {
  }

  lemma {:induction false} DropTwice(s: string, i: nat, k: nat)
    requires i + k <= |s|
    ensures s[i..][k..] == s[i + k..]
  {
  }

  /** One call of stream_append_token_text. */
  function Feed(st: Stream, text: string, finish: bool): Stream {
    Filter(st.pending + text, finish, st.(pending := ""))
  }

  function FeedAll(st: Stream, tokens: seq<string>): Stream
    decreases |tokens|
  {
    if tokens == [] then st else FeedAll(Feed(st, tokens[0], false), tokens[1..])
  }

  function Concat(tokens: seq<string>): string {
    if tokens == [] then "" else tokens[0] + Concat(tokens[1..])
  }

  // ---- the filter does not depend on how the text is cut ----

  lemma {:induction false} PrefixExtends(a: string, b: string, tag: string)
    requires a != "" && !(tag <= a) && !Partial(a, tag)
    ensures !(tag <= a + b) && !Partial(a + b, tag)
  {
    if |a| < |tag| {
      if i :| 0 <= i < |a| && a[i] != tag[i] {
        assert (a + b)[i] != tag[i];
      }
    } else {
      assert (a + b)[..|tag|] == a[..|tag|];
    }
  }

  /** Filtering a then b is filtering a, then what a left pending followed by b. */
  lemma {:induction false} FilterSplit(a: string, b: string, finish: bool, st: Stream)
    requires st.pending == ""
    ensures Filter(a + b, finish, st) == Feed(Filter(a, false, st), b, finish)
    decreases |a|
  {
    if a == "" {
      assert a + b == b && "" + b == b;
    } else if OPEN <= a {
      assert OPEN <= a + b && (a + b)[|OPEN|..] == a[|OPEN|..] + b;
      FilterSplit(a[|OPEN|..], b, finish, st.(inThink := true));
    } else if CLOSE <= a {
      assert !(OPEN <= a + b) by { assert (a + b)[1] == '/'; }
      assert CLOSE <= a + b && (a + b)[|CLOSE|..] == a[|CLOSE|..] + b;
      FilterSplit(a[|CLOSE|..], b, finish,
                  st.(inThink := false, visible := st.visible + "\n", styles := st.styles + [0]));
    } else if a[0] == '<' && (Partial(a, OPEN) || Partial(a, CLOSE)) {
      assert st.(pending := a).(pending := "") == st;
    } else {
      assert (a + b)[1..] == a[1..] + b && (a + b)[0] == a[0];
      StaysOrdinary(a, b, OPEN);
      StaysOrdinary(a, b, CLOSE);
      FilterSplit(a[1..], b, finish, Shown(st, a[0]));
    }
  }

  /** Text that neither is nor may become a tag stays so when more text arrives. */
  lemma {:induction false} StaysOrdinary(a: string, b: string, tag: string)
    requires a != "" && tag != "" && tag[0] == '<' && !(tag <= a) && (a[0] == '<' ==> !Partial(a, tag))
    ensures !(tag <= a + b) && !(a[0] == '<' && Partial(a + b, tag))
  {
    if a[0] == '<' {
      PrefixExtends(a, b, tag);
    } else {
      assert (a + b)[0] == a[0];
    }
  }

  lemma {:induction false} FeedAllIsOneFeed(st: Stream, tokens: seq<string>, rest: string, finish: bool)
    ensures Feed(FeedAll(st, tokens), rest, finish) == Feed(st, Concat(tokens) + rest, finish)
    decreases |tokens|
  {
    hide Filter;
    if tokens == [] {
      assert Concat(tokens) + rest == rest;
    } else {
      var head, more := st.pending + tokens[0], Concat(tokens[1..]) + rest;
      FeedAllIsOneFeed(Feed(st, tokens[0], false), tokens[1..], rest, finish);
      FilterSplit(head, more, finish, st.(pending := ""));
      Regroup(st.pending, tokens[0], Concat(tokens[1..]), rest);
    }
  }

  lemma {:induction false} Regroup(a: string, b: string, c: string, d: string)
    ensures (a + b) + (c + d) == a + ((b + c) + d)
  {
  }

  /** Any way of cutting a text into tokens shows the same characters in the same
      styles and ends in the same thinking mode as one finishing call on all of it. */
  lemma {:induction false} ChunkingIrrelevant(inThink: bool, tokens: seq<string>)
    ensures Feed(FeedAll(Stream("", [], inThink, ""), tokens), "", true)
            == Filter(Concat(tokens), true, Stream("", [], inThink, ""))
  {
    var st := Stream("", [], inThink, "");
    FeedAllIsOneFeed(st, tokens, "", true);
    assert "" + (Concat(tokens) + "") == Concat(tokens);
  }

  // ---- the filter itself ----

  class EvalStream {
    var stream: string
    var styles: seq<int>
    var inThink: bool
    var pendingTag: array<char>
    var pendingLen: nat

    ghost predicate Valid()
      reads this, pendingTag
    {
      pendingTag.Length == PENDING_MAX && pendingLen < |CLOSE| && |stream| == |styles| &&
      (pendingLen == 0 || Partial(pendingTag[..pendingLen], OPEN) || Partial(pendingTag[..pendingLen], CLOSE))
    }

    ghost function State(): Stream
      reads this, pendingTag
      requires Valid()
    {
      Stream(stream, styles, inThink, pendingTag[..pendingLen])
    }

    constructor (thinking: bool)
      ensures Valid() && fresh(pendingTag) && State() == Stream("", [], thinking, "")
    {
      stream, styles, inThink := "", [], thinking;
      pendingTag := new char[PENDING_MAX](_ => '\0');
      pendingLen := 0;
    }

    method AppendVisible(c: char, style: int)
      modifies `stream, `styles
      ensures stream == old(stream) + [c] && styles == old(styles) + [style]
    {
      stream := stream + [c];
      styles := styles + [style];
    }

    method AppendTokenText(text: string, finish: bool)
      requires Valid()
      modifies this, pendingTag
      ensures Valid() && pendingTag == old(pendingTag)
      ensures State() == Feed(old(State()), text, finish)
    {
      hide Filter, Partial, Shown;
      var tmp := pendingTag[..pendingLen] + text;
      var total := |tmp|;
      ghost var result := Filter(tmp, finish, Stream(stream, styles, inThink, ""));
      pendingLen := 0;
      var i := 0;
      ghost var now := Stream(stream, styles, inThink, "");
      assert tmp[0..] == tmp;
      while i < total
        invariant i <= total && pendingLen == 0 && pendingTag == old(pendingTag)
        invariant |stream| == |styles| && Shows(now)
        invariant Filter(tmp[i..], finish, now) == result
        decreases total - i
      {
        var cur := tmp[i..];
        FilterStep(cur, finish, now);
        if OPEN <= cur {
          DropTwice(tmp, i, |OPEN|);
          inThink := true;
          now := now.(inThink := true);
          i := i + |OPEN|;
          continue;
        }
        if CLOSE <= cur {
          DropTwice(tmp, i, |CLOSE|);
          inThink := false;
          AppendVisible('\n', 0);
          now := now.(inThink := false, visible := now.visible + "\n", styles := now.styles + [0]);
          i := i + |CLOSE|;
          continue;
        }
        if !finish && tmp[i] == '<' && (Partial(cur, OPEN) || Partial(cur, CLOSE)) {
          PartialShort(cur);
          if |cur| < PENDING_MAX {
            HoldBack(cur);
          }
          return;
        }
        DropTwice(tmp, i, 1);
        AppendVisible(tmp[i], if inThink then 1 else 0);
        ShownIs(now, tmp[i]);
        now := Shown(now, tmp[i]);
        i := i + 1;
      }
      FilterStep(tmp[i..], finish, now);
    }

    /** Nothing is pending and the buffers and the mode are those of the stream. */
    ghost predicate Shows(now: Stream)
      reads this
    { now.visible == stream && now.styles == styles && now.inThink == inThink && now.pending == "" }

    method HoldBack(cur: string)
      requires pendingTag.Length == PENDING_MAX && |cur| < PENDING_MAX
      modifies `pendingLen, pendingTag
      ensures pendingLen == |cur| && pendingTag[..pendingLen] == cur
    {
      forall k | 0 <= k < |cur| {
        pendingTag[k] := cur[k];
      }
      pendingLen := |cur|;
    }

    /** A whole generation: the tokens as they come, then the finishing call. */
    method ShowAll(tokens: seq<string>)
      requires Valid() && State() == Stream("", [], inThink, "")
      modifies this, pendingTag
      ensures Valid() && State() == Filter(Concat(tokens), true, Stream("", [], old(inThink), ""))
    {
      ghost var start := State();
      for i := 0 to |tokens|
        invariant Valid() && pendingTag == old(pendingTag)
        invariant FeedAll(start, tokens) == FeedAll(State(), tokens[i..])
      {
        assert tokens[i..][1..] == tokens[i + 1..];
        AppendTokenText(tokens[i], false);
      }
      AppendTokenText("", true);
      ChunkingIrrelevant(start.inThink, tokens);
    }
  }
}
