/** Regrading text that is not a complete trace: nothing is counted twice or not at
    all, and a case without its blocks is an unknown case or a parse error. */
module RegradeDamaged {
  import opened CText
  import opened Trace
  import opened TraceReader
  import opened TraceRoundTrip
  import opened Answers
  import opened Regrade
  import opened RegradeNoOp

  // ---- every case is counted once ----

  predicate Balanced(tot: Totals) {
    && tot.total == tot.passed + tot.failed + tot.unknown + tot.parseErrors
    && tot.changed <= tot.passed + tot.failed
  }

  lemma {:induction false} SpanBalanced(table: seq<EvalCase>, t: string, c: nat, e: nat, tot: Totals)
    requires c <= e <= |t| && Balanced(tot)
    ensures Balanced(RegradeSpan(table, t, c, e, tot)) && RegradeSpan(table, t, c, e, tot).total == tot.total + 1
  {
    hide LineField, ModelOutput, FindCase, CaseAnswer, AnswerMatches;
  }

  lemma {:induction false} SpansBalanced(table: seq<EvalCase>, t: string, spans: seq<(nat, nat)>, tot: Totals)
    requires InRange(spans, |t|) && Balanced(tot)
    ensures var r := RegradeSpans(table, t, spans, tot);
            Balanced(r) && r.total == tot.total + |spans|
    decreases |spans|
  {
    hide RegradeSpan;
    if spans != [] {
      SpanBalanced(table, t, spans[0].0, spans[0].1, tot);
      SpansBalanced(table, t, spans[1..], RegradeSpan(table, t, spans[0].0, spans[0].1, tot));
    }
  }

  /** Whatever the file holds, every case header is counted exactly once, as passed,
      failed, unknown or unreadable, and only graded cases can have changed. */
  lemma {:induction false} TotalsBalance(table: seq<EvalCase>, t: string)
    ensures var r := Regraded(table, t);
            Balanced(r) && r.total == |CaseSpans(t, 0)|
  {
    hide RegradeSpans, CaseSpans;
    SpansInRange(t, 0);
    SpansBalanced(table, t, CaseSpans(t, 0), Totals(0, 0, 0, 0, 0, 0));
  }

  // ---- fields of lines ----

  /** A line's text without its trailing carriage returns. */
  function Chomp(s: string): (r: string)
    ensures r <= s && (r == "" || r[|r| - 1] != '\r')
    ensures forall i :: |r| <= i < |s| ==> s[i] == '\r'
  {
    if s != "" && s[|s| - 1] == '\r' then Chomp(s[..|s| - 1]) else s
  }

  /** What a buffer of `size` characters gets of the first line with the key. */
  function FirstWith(ls: seq<string>, key: string, size: nat): Option<string> {
    if ls == [] then None
    else if key <= ls[0] then Some(Held(Chomp(ls[0][|key|..]), size))
    else FirstWith(ls[1..], key, size)
  }

  lemma {:induction false} SpanCopied(t: string, start: nat, s: string, size: nat)
    requires At(t, start, s) && '\n' !in s && start + |s| <= |t|
    ensures CopySpan(t, start, start + |s|, size) == Held(Chomp(s), size)
    decreases |s|
  {
    hide At, Held;
    if s == "" {
    } else {
      AtIndex(t, start, s, |s| - 1);
      assert s[|s| - 1] in s;
      if s[|s| - 1] == '\r' {
        assert s == s[..|s| - 1] + [s[|s| - 1]];
        AtSplit(t, start, s[..|s| - 1], [s[|s| - 1]]);
        SpanCopied(t, start, s[..|s| - 1], size);
      } else {
        SliceAt(t, start, s);
      }
    }
  }

  lemma {:induction false} KeyLineRead(t: string, p: nat, end: nat, line: string, key: string, size: nat)
    requires At(t, p, line + "\n") && p + |line| < end <= |t| && '\n' !in line
    requires key <= line
    ensures LineField(t, p, end, key, size) == Some(Held(Chomp(line[|key|..]), size))
  {
    hide LineEnd, At, CopySpan;
    LineEndIs(t, p, end, line);
    AtSplit(t, p, line, "\n");
    StartsAt(t, p, end, line, key);
    assert line == key + line[|key|..];
    AtSplit(t, p, key, line[|key|..]);
    SpanCopied(t, p + |key|, line[|key|..], size);
  }

  predicate OneLiners(ls: seq<string>) { forall i :: 0 <= i < |ls| ==> '\n' !in ls[i] }

  /** The field of a key is that of the first line that starts with it; without such
      a line there is none. */
  lemma {:induction false} LineFieldIs(t: string, p: nat, ls: seq<string>, key: string, size: nat)
    requires OneLiners(ls) && At(t, p, Lines(ls)) && p + |Lines(ls)| == |t| && size > 0
    ensures LineField(t, p, |t|, key, size) == FirstWith(ls, key, size)
    decreases |ls|
  {
    hide At, LineField, Chomp, Held;
    if ls == [] {
      NoField(t, p, key, size);
    } else {
      AtSplit(t, p, ls[0] + "\n", Lines(ls[1..]));
      if key <= ls[0] {
        KeyLineRead(t, p, |t|, ls[0], key, size);
      } else {
        FieldSkip(t, p, |t|, ls[0], key, size);
        LineFieldIs(t, p + |ls[0]| + 1, ls[1..], key, size);
      }
    }
  }

  lemma {:induction false} NoField(t: string, p: nat, key: string, size: nat)
    requires p == |t|
    ensures LineField(t, p, |t|, key, size) == None
  {
  }

  // ---- a case without blocks ----

  predicate HeaderLine(line: string) { CASE_MARKER <= line && CleanLine(line) }

  /** A file that ends within the metadata of its only case. */
  function Headless(pre: seq<string>, header: string, ls: seq<string>): string {
    Lines(pre) + Lines([header] + ls)
  }

  lemma {:induction false} HeadlessParts(pre: seq<string>, header: string, ls: seq<string>)
    ensures var t, p := Headless(pre, header, ls), |Lines(pre)|;
            At(t, 0, Lines(pre)) && At(t, p, Lines([header] + ls)) && At(t, p, header + "\n")
            && At(t, p + |header| + 1, Lines(ls)) && p + |header| + 1 + |Lines(ls)| == |t|
            && p + |Lines([header] + ls)| == |t|
  {
    var t, p := Headless(pre, header, ls), |Lines(pre)|;
    assert ([header] + ls)[1..] == ls;
    assert Lines([header] + ls) == header + "\n" + Lines(ls);
    AtConcat(Lines(pre), Lines([header] + ls), "");
    assert t + "" == t;
    AtSplit(t, p, header + "\n", Lines(ls));
  }

  lemma {:induction false} HeadlessSpan(pre: seq<string>, header: string, ls: seq<string>)
    requires Plain(pre) && HeaderLine(header) && Plain(ls)
    ensures var t, p := Headless(pre, header, ls), |Lines(pre)|;
            p <= |t| && CaseSpans(t, 0) == [(p, |t|)] && ModelOutput(t, p, |t|) == None
  {
    hide Lines, At, LineEnd, NextCase, SkipBlock, Plain, BlockBegin;
    var t, p := Headless(pre, header, ls), |Lines(pre)|;
    HeadlessParts(pre, header, ls);
    WalkLines(t, 0, |t|, pre);
    HeaderWalk(t, p, header);
    WalkLines(t, p + |header| + 1, |t|, ls);
    NothingLeft(t, |t|);
    NoOutputLeft(t);
  }

  lemma {:induction false} HeaderWalk(t: string, p: nat, header: string)
    requires HeaderLine(header) && At(t, p, header + "\n") && p + |header| < |t|
    ensures NextCase(t, p, |t|) == Some(p)
    ensures NextLine(t, p, |t|) == p + |header| + 1
    ensures BlockBegin(t, p, |t|, OUTPUT_BEGIN) == BlockBegin(t, p + |header| + 1, |t|, OUTPUT_BEGIN)
  {
    hide LineEnd, SkipBlock, LineStarts, At;
    CleanLineAt(t, p, |t|, header);
    StartsAt(t, p, |t|, header, CASE_MARKER);
    StartsAt(t, p, |t|, header, OUTPUT_BEGIN);
    NotPrefix(OUTPUT_BEGIN, header, 0);
  }

  lemma {:induction false} NoOutputLeft(t: string)
    ensures BlockBegin(t, |t|, |t|, OUTPUT_BEGIN).None?
  {
  }

  /** Such a case is unknown when it names its source and id and the table has no
      such entry; otherwise it is a parse error. */
  lemma {:induction false} HeadlessCase(table: seq<EvalCase>, pre: seq<string>, header: string, ls: seq<string>)
    requires Plain(pre) && HeaderLine(header) && Plain(ls)
    ensures var source := FirstWith(ls, "source: ", 64);
            var id := FirstWith(ls, "id: ", 128);
            var unknown := source.Some? && id.Some?
                           && forall k :: 0 <= k < |table| ==> !KeyOf(table[k], source.value, id.value);
            Regraded(table, Headless(pre, header, ls))
            == if unknown then Totals(1, 0, 0, 0, 1, 0) else Totals(1, 0, 0, 0, 0, 1)
  {
    hide Lines, At, CaseSpans, LineField, ModelOutput, FindCase, Chomp, Headless, CleanLine, Regraded;
    var t, p := Headless(pre, header, ls), |Lines(pre)|;
    HeadlessParts(pre, header, ls);
    HeadlessSpan(pre, header, ls);
    OneLinersOf(header, ls);
    assert ([header] + ls)[1..] == ls;
    NotPrefix("source: ", header, 0);
    NotPrefix("id: ", header, 0);
    LineFieldIs(t, p, [header] + ls, "source: ", SOURCE_MAX);
    LineFieldIs(t, p, [header] + ls, "id: ", ID_MAX);
    var source := FirstWith(ls, "source: ", SOURCE_MAX);
    var id := FirstWith(ls, "id: ", ID_MAX);
    if source.Some? && id.Some? {
      FirstEntry(table, source.value, id.value);
    }
    OneSpan(table, t, p);
  }

  lemma {:induction false} OneSpan(table: seq<EvalCase>, t: string, p: nat)
    requires p <= |t| && CaseSpans(t, 0) == [(p, |t|)]
    ensures Regraded(table, t) == RegradeSpan(table, t, p, |t|, Totals(0, 0, 0, 0, 0, 0))
  {
    hide RegradeSpan, CaseSpans;
    SpansInRange(t, 0);
    var spans, tot := CaseSpans(t, 0), Totals(0, 0, 0, 0, 0, 0);
    assert spans[1..] == [];
    assert RegradeSpans(table, t, spans, tot)
        == RegradeSpans(table, t, spans[1..], RegradeSpan(table, t, p, |t|, tot));
  }

  lemma {:induction false} OneLinersOf(header: string, ls: seq<string>)
    requires HeaderLine(header) && Plain(ls)
    ensures OneLiners([header] + ls)
  {
    hide FindIn;
    forall i | 0 <= i < |[header] + ls|
      ensures '\n' !in ([header] + ls)[i]
    {
      if i > 0 {
        assert PlainLine(ls[i - 1]);
      }
    }
  }
}
