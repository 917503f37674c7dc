/** Both graders read the same lines out of a specification, and when they accept
    the same answers. */
module SpecAgreement {
  import opened CText
  import opened LineSpec
  import opened SpecItems
  import Py = PyGrader

  // ---- the evaluator's array ----

  /** Where the parts of a compact range stand. */
  lemma {:induction false} CompactRangeParts(v: string, p: nat, it: Item)
    requires it.Range? && GoodItem(it) && At(v, p, Compact(it))
    ensures var dash := p + |it.a|;
            At(v, p, it.a) && At(v, dash + 1, it.b) && dash + 1 + |it.b| == p + |Compact(it)| <= |v|
            && v[dash] == '-' && IsDigit(v[dash + 1]) && IsDigit(v[p])
  {
    hide At;
    AtSplit(v, p, it.a + "-", it.b);
    AtSplit(v, p, it.a, "-");
    AtIndex(v, p + |it.a|, "-", 0);
    AtIndex(v, p, it.a, 0);
    AtIndex(v, p + |it.a| + 1, it.b, 0);
    AtWithin(v, p + |it.a| + 1, it.b);
  }

  /** strtol on a number of a specification; long numbers saturate. */
  lemma {:induction false} NumberRead(v: string, p: nat, a: string)
    requires a != "" && AllDigits(a) && At(v, p, a) && (p + |a| < |v| ==> !IsDigit(v[p + |a|]))
    ensures StrToL(v, p) == (if Value(a) > LONG_MAX then LONG_MAX else Value(a), p + |a|)
    ensures p < |v| && IsDigit(v[p])
  {
    AtIndex(v, p, a, 0);
    hide DigitsEnd, Value;
    DigitsEndIs(v, p, |v|, a);
    SpacesEndAt(v, p, |v|, p);
  }

  function Saturated(n: nat): int { if n > LONG_MAX then LONG_MAX else n }

  lemma {:induction false} ItemRead(v: string, p: nat, it: Item)
    requires GoodItem(it) && At(v, p, Compact(it))
    requires p + |Compact(it)| < |v| ==> v[p + |Compact(it)|] == ','
    ensures p < |v| && IsDigit(v[p])
    ensures RangeAt(v, p) == (Saturated(Value(it.a)), Saturated(Value(if it.One? then it.a else it.b)), p + |Compact(it)|)
  {
    hide StrToL, At, Value;
    if it.One? {
      NumberRead(v, p, it.a);
    } else {
      CompactRangeParts(v, p, it);
      NumberRead(v, p, it.a);
      NumberRead(v, p + |it.a| + 1, it.b);
    }
  }

  lemma {:induction false} ItemSpan(it: Item, line: nat, setlen: nat)
    requires GoodItem(it) && setlen <= LONG_MAX
    ensures line in Span(Saturated(Value(it.a)), Saturated(Value(if it.One? then it.a else it.b)), setlen)
            <==> line < setlen && Denotes(it, line)
  {
    hide Value;
  }

  /** Where the first item of a compact specification stops. */
  lemma {:induction false} CompactParts(v: string, p: nat, items: seq<Item>)
    requires GoodItems(items) && items != []
    requires At(v, p, CompactAll(items)) && p + |CompactAll(items)| == |v|
    ensures var stop := p + |Compact(items[0])|;
            At(v, p, Compact(items[0])) && stop <= |v| && (stop < |v| ==> v[stop] == ',')
            && (|items| == 1 ==> stop == |v|)
            && (|items| > 1 ==> stop < |v| && v[stop] == ',' && At(v, stop + 1, CompactAll(items[1..]))
                                && stop + 1 + |CompactAll(items[1..])| == |v|)
  {
    hide At, Compact, GoodItem;
    if |items| > 1 {
      var stop := p + |Compact(items[0])|;
      AtSplit(v, p, Compact(items[0]) + ",", CompactAll(items[1..]));
      AtSplit(v, p, Compact(items[0]), ",");
      AtIndex(v, stop, ",", 0);
      AtWithin(v, stop, ",");
    }
  }

  /** The array gets exactly the lines that the specification means, below its length. */
  lemma {:induction false} LinesMarked(v: string, p: nat, items: seq<Item>, setlen: nat, line: nat)
    requires GoodItems(items) && items != [] && setlen <= LONG_MAX
    requires At(v, p, CompactAll(items)) && p + |CompactAll(items)| == |v|
    ensures line in LineSet(v, p, setlen) <==> line < setlen && Means(items, line)
    decreases |items|
  {
    hide At, Compact, GoodItem, RangeAt, Denotes, Saturated, Span;
    CompactParts(v, p, items);
    ItemRead(v, p, items[0]);
    ItemSpan(items[0], line, setlen);
    if |items| > 1 {
      LinesMarked(v, p + |Compact(items[0])| + 1, items[1..], setlen, line);
    }
  }

  // ---- the runner's set ----

  function CompactPieces(items: seq<Item>): seq<string> {
    if items == [] then [] else [Compact(items[0])] + CompactPieces(items[1..])
  }

  lemma {:induction false} PieceRead(v: string, p: nat, it: Item)
    requires GoodItem(it) && At(v, p, Compact(it))
    requires p + |Compact(it)| < |v| ==> v[p + |Compact(it)|] == ','
    ensures p < |v| && IsDigit(v[p]) && Py.PieceEnd(v, p, false) == p + |Compact(it)|
    ensures v[p..p + |Compact(it)|] == Compact(it)
  {
    SliceAt(v, p, Compact(it));
    if it.One? {
      AtIndex(v, p, it.a, 0);
      DigitsEndIs(v, p, |v|, it.a);
    } else {
      CompactRangeParts(v, p, it);
      hide DigitsEnd, At, Compact;
      DigitsEndIs(v, p, |v|, it.a);
      DigitsEndIs(v, p + |it.a| + 1, |v|, it.b);
    }
  }

  lemma {:induction false} PiecesFound(v: string, p: nat, items: seq<Item>)
    requires GoodItems(items) && items != []
    requires At(v, p, CompactAll(items)) && p + |CompactAll(items)| == |v|
    ensures Py.Pieces(v, p, false) == CompactPieces(items)
    decreases |items|
  {
    hide At, Compact, GoodItem, Py.PieceEnd;
    CompactParts(v, p, items);
    PieceRead(v, p, items[0]);
    if |items| > 1 {
      PiecesFound(v, p + |Compact(items[0])| + 1, items[1..]);
    }
  }

  lemma {:induction false} DashFound(item: string, p: nat, e: nat)
    requires p <= e <= |item| && (forall i :: p <= i < e ==> item[i] != '-') && (e < |item| ==> item[e] == '-')
    ensures Py.DashAt(item, p) == e
    decreases e - p
  {
    if p < e {
      DashFound(item, p + 1, e);
    }
  }

  lemma {:induction false} PieceMeans(it: Item, line: nat)
    requires GoodItem(it)
    ensures line in Py.PieceLines(Compact(it)) <==> Denotes(it, line)
  {
    var c := Compact(it);
    assert forall i :: 0 <= i < |it.a| ==> c[i] == it.a[i];
    DashFound(c, 0, |it.a|);
    if it.Range? {
      assert c[..|it.a|] == it.a && c[|it.a| + 1..] == it.b;
    }
  }

  lemma {:induction false} PiecesMean(items: seq<Item>, line: nat)
    requires GoodItems(items)
    ensures line in Py.PiecesLines(CompactPieces(items)) <==> Means(items, line)
  {
    hide GoodItem, Denotes, Py.PieceLines, Compact;
    if items != [] {
      PieceMeans(items[0], line);
      PiecesMean(items[1..], line);
    }
  }

  /** The runner's set is exactly what the specification means. */
  lemma {:induction false} LinesCollected(items: seq<Item>, line: nat)
    requires GoodItems(items) && items != []
    ensures line in Py.SpecLines(CompactAll(items)) <==> Means(items, line)
  {
    PiecesFound(CompactAll(items), 0, items);
    PiecesMean(items, line);
  }

  // ---- accepting an answer ----

  /** No line of the answer lies beyond the evaluator's array. */
  predicate InArray(got: string) { forall line :: line in Py.SpecLines(got) ==> line < MAX_LINES }

  /** The evaluator's array comparison is set inclusion on the lines below 256. */
  lemma {:induction false} ArrayIsInclusion(expected: seq<Item>, got: seq<Item>)
    requires GoodItems(expected) && expected != [] && GoodItems(got) && got != []
    ensures var e, g := Py.SpecLines(CompactAll(expected)), Py.SpecLines(CompactAll(got));
            SpecMatches(CompactAll(expected), CompactAll(got))
            <==> (exists line :: line in g && line < MAX_LINES)
                 && (forall line :: line in g && line < MAX_LINES ==> line in e)
  {
    var ce, cg := CompactAll(expected), CompactAll(got);
    forall line: nat
      ensures line in LineSet(ce, 0, MAX_LINES) <==> line < MAX_LINES && line in Py.SpecLines(ce)
      ensures line in LineSet(cg, 0, MAX_LINES) <==> line < MAX_LINES && line in Py.SpecLines(cg)
    {
      LinesMarked(ce, 0, expected, MAX_LINES, line);
      LinesMarked(cg, 0, got, MAX_LINES, line);
      LinesCollected(expected, line);
      LinesCollected(got, line);
    }
    hide LineSet, Py.SpecLines, CompactAll, GoodItems;
    var e, g := LineSet(ce, 0, MAX_LINES), LineSet(cg, 0, MAX_LINES);
    LineSetBound(cg, 0, MAX_LINES);
    if line :| line in g {
      assert line in Py.SpecLines(cg);
    }
  }

  lemma {:induction false} GradersAgree(expected: seq<Item>, got: seq<Item>)
    requires GoodItems(expected) && expected != [] && GoodItems(got) && got != []
    requires InArray(CompactAll(got))
    ensures SpecMatches(CompactAll(expected), CompactAll(got)) == Py.SpecAccepts(CompactAll(expected), CompactAll(got))
  {
    ArrayIsInclusion(expected, got);
    SomeLine(got);
    hide Py.SpecLines, CompactAll, SpecMatches;
  }

  /** Every specification means at least one line. */
  lemma {:induction false} SomeLine(items: seq<Item>)
    requires GoodItems(items) && items != []
    ensures Py.SpecLines(CompactAll(items)) != {}
  {
    assert Denotes(items[0], Value(items[0].a));
    LinesCollected(items, Value(items[0].a));
  }

  /** "0-255": every line that the array holds. */
  function WholeArray(): seq<Item> { [Range(0, "0", 0, 0, "255")] }

  lemma {:induction false} WholeArrayLines(line: nat)
    ensures GoodItems(WholeArray()) && (line in Py.SpecLines(CompactAll(WholeArray())) <==> line < MAX_LINES)
  {
    var items := WholeArray();
    assert items[1..] == [];
    assert GoodItem(items[0]);
    assert Value("0") == 0 && Value("255") == 255 by {
      assert "0"[..0] == "" && "255"[..2] == "25" && "25"[..1] == "2" && "2"[..0] == "";
    }
    LinesCollected(items, line);
  }

  predicate SameVerdict(expected: seq<Item>, got: seq<Item>) {
    SpecMatches(CompactAll(expected), CompactAll(got)) == Py.SpecAccepts(CompactAll(expected), CompactAll(got))
  }

  /** The graders agree on an answer for every answer key exactly when the answer
      stays within the array: otherwise either the key "0-255" or the answer
      itself as key tells them apart. */
  lemma {:induction false} AgreeForAllKeysIff(got: seq<Item>)
    requires GoodItems(got) && got != []
    ensures InArray(CompactAll(got))
            <==> forall expected :: GoodItems(expected) && expected != [] ==> SameVerdict(expected, got)
  {
    if InArray(CompactAll(got)) {
      forall expected | GoodItems(expected) && expected != []
        ensures SameVerdict(expected, got)
      {
        GradersAgree(expected, got);
      }
    } else {
      forall line: nat
        ensures line in Py.SpecLines(CompactAll(WholeArray())) <==> line < MAX_LINES
      {
        WholeArrayLines(line);
      }
      WholeArrayLines(0);
      ArrayIsInclusion(got, got);
      ArrayIsInclusion(WholeArray(), got);
      SomeLine(got);
      hide Py.SpecLines, CompactAll, SpecMatches, WholeArray, GoodItems;
      assert !SameVerdict(got, got) || !SameVerdict(WholeArray(), got);
    }
  }
}
