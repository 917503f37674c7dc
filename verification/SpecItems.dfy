/** Comma-separated line specifications as an answer line may spell them, with
    blanks, and what the evaluator makes of them. An item is a number or a range;
    it has the spelling of the answer and the compact one, and it means a set of
    lines. */
module SpecItems {
  import opened CText
  import opened LineSpec

  /** A number, or a range in either order; `lead`, `gap1`, `gap2` count blanks. */
  datatype Item =
    | One(lead: nat, a: string)
    | Range(lead: nat, a: string, gap1: nat, gap2: nat, b: string)

  predicate GoodItem(it: Item) {
    && it.a != "" && AllDigits(it.a)
    && (it.Range? ==> it.b != "" && AllDigits(it.b))
  }

  predicate GoodItems(items: seq<Item>) {
    items == [] || (GoodItem(items[0]) && GoodItems(items[1..]))
  }

  function Blanks(n: nat): (s: string)
    ensures |s| == n && forall i :: 0 <= i < n ==> s[i] == ' '
  { seq(n, _ => ' ') }

  /** As written: "9, 15 - 17". */
  function Spelled(it: Item): string {
    Blanks(it.lead) + SpelledBody(it)
  }

  function SpelledBody(it: Item): string {
    match it
    case One(_, a) => a
    case Range(_, a, gap1, gap2, b) => a + Blanks(gap1) + "-" + Blanks(gap2) + b
  }

  function SpelledAll(items: seq<Item>): string {
    if items == [] then ""
    else if |items| == 1 then Spelled(items[0])
    else Spelled(items[0]) + "," + SpelledAll(items[1..])
  }

  /** Without blanks: "9,15-17". */
  function Compact(it: Item): string {
    match it
    case One(_, a) => a
    case Range(_, a, _, _, b) => a + "-" + b
  }

  function CompactAll(items: seq<Item>): string {
    if items == [] then ""
    else if |items| == 1 then Compact(items[0])
    else Compact(items[0]) + "," + CompactAll(items[1..])
  }

  /** The line numbers meant. */
  ghost predicate Denotes(it: Item, line: nat)
    requires GoodItem(it)
  {
    match it
    case One(_, a) => line == Value(a)
    case Range(_, a, _, _, b) => Value(a) <= line <= Value(b) || Value(b) <= line <= Value(a)
  }

  ghost predicate Means(items: seq<Item>, line: nat)
    requires GoodItems(items)
  {
    items != [] && (Denotes(items[0], line) || Means(items[1..], line))
  }

  // ---- normalising ----

  /** What may follow an item: a comma, or no more digits up to the end. */
  predicate Ends(v: string, p: nat, end: nat)
    requires p <= end <= |v|
  {
    p == end || v[p] == ',' || NoDigitIn(v, p, end)
  }

  predicate NoDigitIn(v: string, p: nat, end: nat)
    requires end <= |v|
  {
    forall i :: p <= i < end ==> !IsDigit(v[i])
  }

  lemma {:induction false} SkipNonDigits(v: string, p: nat, q: nat, end: nat, acc: string, cap: nat)
    requires p <= q <= end <= |v| && |acc| <= cap
    requires forall i :: p <= i < q ==> !IsDigit(v[i])
    ensures SpecScan(v, p, end, acc, cap) == SpecScan(v, q, end, acc, cap)
    decreases q - p
  {
    if p < q {
      SkipNonDigits(v, p + 1, q, end, acc, cap);
    }
  }

  lemma {:induction false} SpacesEndAt(v: string, p: nat, end: nat, e: nat)
    requires p <= e <= end <= |v| && forall i :: p <= i < e ==> IsSpace(v[i])
    requires e < end ==> !IsSpace(v[e])
    ensures SpacesEnd(v, p, end) == e
    decreases e - p
  {
    if p < e {
      SpacesEndAt(v, p + 1, end, e);
    }
  }

  lemma {:induction false} BlanksAt(v: string, p: nat, n: nat)
    requires At(v, p, Blanks(n))
    ensures forall i :: p <= i < p + n ==> v[i] == ' '
  {
    forall i | p <= i < p + n
      ensures v[i] == ' '
    {
      AtIndex(v, p, Blanks(n), i - p);
    }
  }

  /** Where the parts of a range stand. */
  lemma {:induction false} RangeParts(v: string, p: nat, it: Item)
    requires it.Range? && GoodItem(it) && At(v, p, SpelledBody(it))
    ensures var dash := p + |it.a| + it.gap1;
            var from := dash + 1 + it.gap2;
            At(v, p, it.a) && At(v, from, it.b) && from + |it.b| == p + |SpelledBody(it)| <= |v|
            && v[dash] == '-' && (forall i :: p + |it.a| <= i < dash ==> v[i] == ' ')
            && (forall i :: dash + 1 <= i < from ==> v[i] == ' ') && IsDigit(v[from])
            && !IsDigit(v[p + |it.a|])
  {
    RangeBody(it);
    hide Blanks, At, SpelledBody, AllDigits;
    var a, g1, g2, b := it.a, Blanks(it.gap1), Blanks(it.gap2), it.b;
    RangeSplit(v, p, a, g1, g2, b);
    var dash := p + |a| + it.gap1;
    BlanksAt(v, p + |a|, it.gap1);
    BlanksAt(v, dash + 1, it.gap2);
    RangeEdges(v, p + |a|, dash, dash + 1 + it.gap2, b);
  }

  lemma {:induction false} RangeBody(it: Item)
    requires it.Range? && GoodItem(it)
    ensures SpelledBody(it) == it.a + Blanks(it.gap1) + "-" + Blanks(it.gap2) + it.b
    ensures it.b != "" && IsDigit(it.b[0]) && |Blanks(it.gap1)| == it.gap1 && |Blanks(it.gap2)| == it.gap2
  {
  }

  lemma {:induction false} RangeSplit(v: string, p: nat, a: string, g1: string, g2: string, b: string)
    requires At(v, p, a + g1 + "-" + g2 + b)
    ensures At(v, p, a) && At(v, p + |a|, g1) && At(v, p + |a| + |g1|, "-") && At(v, p + |a| + |g1| + 1, g2)
    ensures At(v, p + |a| + |g1| + 1 + |g2|, b)
  {
    hide At;
    AtSplit(v, p, a + g1 + "-" + g2, b);
    AtSplit(v, p, a + g1 + "-", g2);
    AtSplit(v, p, a + g1, "-");
    AtSplit(v, p, a, g1);
  }

  lemma {:induction false} RangeEdges(v: string, gap: nat, dash: nat, from: nat, b: string)
    requires gap <= dash && At(v, dash, "-") && At(v, from, b) && b != "" && IsDigit(b[0])
    requires forall i :: gap <= i < dash && i < |v| ==> v[i] == ' '
    ensures from + |b| <= |v| && dash < |v| && v[dash] == '-' && IsDigit(v[from]) && !IsDigit(v[gap])
  {
    AtIndex(v, dash, "-", 0);
    AtIndex(v, from, b, 0);
  }

  /** What a scanned item adds to the buffer: its compact form, and a dash when one
      follows without a second number. */
  predicate Copied(item: string, acc: string, c: string, cap: nat)
    requires |acc| <= cap
  {
    var comma := if acc != "" then Push(acc, ",", cap) else acc;
    item == Push(comma, c, cap) || item == Push(Push(comma, c, cap), "-", cap)
  }

  /** One item is copied without its blanks. */
  lemma {:induction false} ItemCopied(v: string, p: nat, end: nat, it: Item, acc: string, cap: nat)
    requires GoodItem(it) && At(v, p, SpelledBody(it)) && p + |SpelledBody(it)| <= end <= |v| && |acc| <= cap
    requires Ends(v, p + |SpelledBody(it)|, end)
    ensures var (next, item) := SpecItem(v, p, end, acc, cap);
            var stop := p + |SpelledBody(it)|;
            Copied(item, acc, Compact(it), cap) && stop <= next && NoDigitIn(v, stop, next)
            && (stop < end && v[stop] == ',' ==>
                  next == stop && item == Push(if acc != "" then Push(acc, ",", cap) else acc, Compact(it), cap))
  {
    if it.One? {
      NumberCopied(v, p, end, it.a, acc, cap);
    } else {
      RangeCopied(v, p, end, it, acc, cap);
    }
  }

  lemma {:induction false} NumberCopied(v: string, p: nat, end: nat, a: string, acc: string, cap: nat)
    requires a != "" && AllDigits(a) && At(v, p, a) && p + |a| <= end <= |v| && |acc| <= cap
    requires Ends(v, p + |a|, end)
    ensures var (next, item) := SpecItem(v, p, end, acc, cap);
            var stop := p + |a|;
            Copied(item, acc, a, cap) && stop <= next && NoDigitIn(v, stop, next)
            && (stop < end && v[stop] == ',' ==>
                  next == stop && item == Push(if acc != "" then Push(acc, ",", cap) else acc, a, cap))
  {
    hide Push, DigitsEnd, SpacesEnd, SpecItem, At, AllDigits;
    var stop := p + |a|;
    NotDigitAtEnd(v, stop, end);
    DigitsEndIs(v, p, end, a);
    SliceAt(v, p, a);
    var dash := SpacesEnd(v, stop, end);
    SpacesEndSpaces(v, stop, end);
    if dash < end && v[dash] == '-' {
      NoSecondNumber(v, stop, end, dash);
      var from := SpacesEnd(v, dash + 1, end);
      RangeItem(v, p, end, acc, cap, dash, from);
      assert v[from..from] == "";
      PushNothing(Push(Push(if acc != "" then Push(acc, ",", cap) else acc, a, cap), "-", cap), cap);
    } else {
      NumberItem(v, p, end, acc, cap);
    }
  }

  lemma {:induction false} PushNothing(acc: string, cap: nat)
    requires |acc| <= cap
    ensures Push(acc, "", cap) == acc
  {
  }

  lemma {:induction false} SpacesEndSpaces(v: string, p: nat, end: nat)
    requires p <= end <= |v|
    ensures forall i :: p <= i < SpacesEnd(v, p, end) ==> IsSpace(v[i])
    ensures p < end && v[p] == ',' ==> SpacesEnd(v, p, end) == p
    decreases end - p
  {
    if p < end && IsSpace(v[p]) {
      SpacesEndSpaces(v, p + 1, end);
    }
  }

  /** A dash after the last number is not followed by another one. */
  lemma {:induction false} NoSecondNumber(v: string, stop: nat, end: nat, dash: nat)
    requires stop <= dash < end <= |v| && Ends(v, stop, end) && v[dash] == '-'
    requires forall i :: stop <= i < dash ==> IsSpace(v[i])
    ensures NoDigitIn(v, stop, end)
    ensures var from := SpacesEnd(v, dash + 1, end); DigitsEnd(v, from, end) == from
  {
  }

  lemma {:induction false} NumberItem(v: string, p: nat, end: nat, acc: string, cap: nat)
    requires p <= end <= |v| && |acc| <= cap
    requires var dash := SpacesEnd(v, DigitsEnd(v, p, end), end); dash < end ==> v[dash] != '-'
    ensures var comma := if acc != "" then Push(acc, ",", cap) else acc;
            var q := DigitsEnd(v, p, end);
            SpecItem(v, p, end, acc, cap) == (SpacesEnd(v, q, end), Push(comma, v[p..q], cap))
  {
    hide Push, DigitsEnd, SpacesEnd;
  }

  lemma {:induction false} RangeCopied(v: string, p: nat, end: nat, it: Item, acc: string, cap: nat)
    requires it.Range? && GoodItem(it) && At(v, p, SpelledBody(it)) && p + |SpelledBody(it)| <= end <= |v| && |acc| <= cap
    requires Ends(v, p + |SpelledBody(it)|, end)
    ensures SpecItem(v, p, end, acc, cap)
            == (p + |SpelledBody(it)|, Push(if acc != "" then Push(acc, ",", cap) else acc, Compact(it), cap))
  {
    hide Push, Ends, DigitsEnd, SpacesEnd, SpelledBody, AllDigits, At, SpecItem;
    NotDigitAtEnd(v, p + |SpelledBody(it)|, end);
    RangeParts(v, p, it);
    var comma := if acc != "" then Push(acc, ",", cap) else acc;
    var dash := p + |it.a| + it.gap1;
    var from := dash + 1 + it.gap2;
    DigitsEndIs(v, p, end, it.a);
    SpacesEndAt(v, p + |it.a|, end, dash);
    SpacesEndAt(v, dash + 1, end, from);
    DigitsEndIs(v, from, end, it.b);
    SliceAt(v, p, it.a);
    SliceAt(v, from, it.b);
    RangeItem(v, p, end, acc, cap, dash, from);
    PushSplit(comma, it.a, "-", cap);
    PushSplit(comma, it.a + "-", it.b, cap);
  }

  lemma {:induction false} RangeItem(v: string, p: nat, end: nat, acc: string, cap: nat, dash: nat, from: nat)
    requires p <= end <= |v| && |acc| <= cap
    requires dash == SpacesEnd(v, DigitsEnd(v, p, end), end) && dash < end && v[dash] == '-'
    requires from == SpacesEnd(v, dash + 1, end)
    ensures var comma := if acc != "" then Push(acc, ",", cap) else acc;
            var to := DigitsEnd(v, from, end);
            SpecItem(v, p, end, acc, cap)
            == (to, Push(Push(Push(comma, v[p..DigitsEnd(v, p, end)], cap), "-", cap), v[from..to], cap))
  {
    hide Push, DigitsEnd, SpacesEnd;
  }

  lemma {:induction false} NotDigitAtEnd(v: string, p: nat, end: nat)
    requires p <= end <= |v| && Ends(v, p, end)
    ensures p < end ==> !IsDigit(v[p])
  {
  }

  /** What follows the first item. */
  function Following(items: seq<Item>): string
    requires items != []
  { if |items| == 1 then "" else "," + SpelledAll(items[1..]) }

  lemma {:induction false} SpelledParts(v: string, p: nat, end: nat, items: seq<Item>)
    requires GoodItems(items) && items != []
    requires At(v, p, SpelledAll(items)) && p + |SpelledAll(items)| <= end <= |v|
    requires NoDigitIn(v, p + |SpelledAll(items)|, end)
    ensures var s := p + items[0].lead;
            var stop := s + |SpelledBody(items[0])|;
            At(v, s, SpelledBody(items[0])) && stop <= end && Ends(v, stop, end)
            && (forall i :: p <= i < s ==> v[i] == ' ')
            && (|items| == 1 ==> stop == p + |SpelledAll(items)|)
            && (|items| > 1 ==> stop < end && v[stop] == ',' && At(v, stop + 1, SpelledAll(items[1..]))
                                && stop + 1 + |SpelledAll(items[1..])| == p + |SpelledAll(items)|)
  {
    hide At, Blanks, SpelledBody, GoodItem;
    var it, more := items[0], Following(items);
    assert SpelledAll(items) == Blanks(it.lead) + SpelledBody(it) + more;
    AtSplit(v, p, Blanks(it.lead) + SpelledBody(it), more);
    AtSplit(v, p, Blanks(it.lead), SpelledBody(it));
    BlanksAt(v, p, it.lead);
    if |items| > 1 {
      var stop := p + it.lead + |SpelledBody(it)|;
      AtSplit(v, stop, ",", SpelledAll(items[1..]));
      AtIndex(v, stop, ",", 0);
    }
  }

  /** The whole specification is copied compactly, cut to the buffer. */
  lemma {:induction false} ItemsCopied(v: string, p: nat, end: nat, items: seq<Item>, acc: string, cap: nat)
    requires GoodItems(items) && items != [] && |acc| <= cap && 0 < cap
    requires At(v, p, SpelledAll(items)) && p + |SpelledAll(items)| <= end <= |v|
    requires NoDigitIn(v, p + |SpelledAll(items)|, end)
    ensures Copied(SpecScan(v, p, end, acc, cap), acc, CompactAll(items), cap)
    decreases |items|
  {
    hide Push, SpecItem, At, Blanks, SpelledBody, SpelledAll, Compact, GoodItem, Ends;
    var it := items[0];
    var s := p + it.lead;
    SpelledParts(v, p, end, items);
    SkipNonDigits(v, p, s, end, acc, cap);
    BodyStarts(v, s, it);
    ItemCopied(v, s, end, it, acc, cap);
    var (next, item) := SpecItem(v, s, end, acc, cap);
    if |items| == 1 {
      SkipRest(v, next, end, item, cap);
    } else {
      ItemNonEmpty(acc, it, cap);
      ItemsCopied(v, next + 1, end, items[1..], item, cap);
      CompactJoined(acc, items, cap);
    }
  }

  lemma {:induction false} CompactJoined(acc: string, items: seq<Item>, cap: nat)
    requires |items| > 1 && |acc| <= cap
    ensures var comma := if acc != "" then Push(acc, ",", cap) else acc;
            Push(Push(Push(comma, Compact(items[0]), cap), ",", cap), CompactAll(items[1..]), cap)
            == Push(comma, CompactAll(items), cap)
  {
    hide Push, Compact;
    var comma := if acc != "" then Push(acc, ",", cap) else acc;
    PushSplit(comma, Compact(items[0]), ",", cap);
    PushSplit(comma, Compact(items[0]) + ",", CompactAll(items[1..]), cap);
  }

  lemma {:induction false} SkipRest(v: string, next: nat, end: nat, item: string, cap: nat)
    requires next <= end <= |v| && |item| <= cap && NoDigitIn(v, next, end)
    ensures next < end ==> SpecScan(v, next + 1, end, item, cap) == item
  {
    if next < end {
      SkipNonDigits(v, next + 1, end, end, item, cap);
    }
  }

  lemma {:induction false} BodyStarts(v: string, p: nat, it: Item)
    requires GoodItem(it) && At(v, p, SpelledBody(it))
    ensures SpelledBody(it) != "" && p < |v| && IsDigit(v[p])
  {
    assert SpelledBody(it)[0] == it.a[0];
    AtIndex(v, p, SpelledBody(it), 0);
  }

  lemma {:induction false} ItemNonEmpty(acc: string, it: Item, cap: nat)
    requires GoodItem(it) && |acc| <= cap && 0 < cap
    ensures Push(if acc != "" then Push(acc, ",", cap) else acc, Compact(it), cap) != ""
  {
  }
}
