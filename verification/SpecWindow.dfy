/** Line specifications cut off by a window: what is left of the items, and how many
    digits. Both graders read an answer line through a window of fixed length, so that
    of a long specification each of them sees a prefix, which may end inside a number,
    inside the blanks of a range, or after a comma. */
module SpecWindow {
  import opened CText
  import opened SpecItems

  /** The first n characters, or all. */
  function First(s: string, n: nat): (r: string)
    ensures r <= s && |r| <= n
  {
    if |s| <= n then s else s[..n]
  }

  predicate NoDigits(s: string) { forall i :: 0 <= i < |s| ==> !IsDigit(s[i]) }

  lemma {:induction false} NoDigitsJoin(a: string, b: string)
    ensures NoDigits(a + b) <==> NoDigits(a) && NoDigits(b)
  {
    if NoDigits(a + b) {
      assert forall i :: 0 <= i < |a| ==> (a + b)[i] == a[i];
      assert forall i :: 0 <= i < |b| ==> (a + b)[|a| + i] == b[i];
    }
  }

  // ---- cutting ----

  lemma {:induction false} SpelledMore(it: Item, more: seq<Item>)
    ensures SpelledAll([it] + more) == if more == [] then Spelled(it) else Spelled(it) + "," + SpelledAll(more)
  {
    assert ([it] + more)[1..] == more;
  }

  lemma {:induction false} GoodMore(it: Item, more: seq<Item>)
    requires GoodItem(it) && GoodItems(more)
    ensures GoodItems([it] + more)
  {
    assert ([it] + more)[1..] == more;
  }

  lemma {:induction false} DigitsPrefix(a: string, k: nat)
    requires AllDigits(a) && 0 < k <= |a|
    ensures AllDigits(a[..k]) && a[..k] != ""
  {
  }

  lemma {:induction false} BlanksPrefix(n: nat, k: nat)
    requires k <= n
    ensures Blanks(n)[..k] == Blanks(k) && NoDigits(Blanks(k))
  {
  }

  lemma {:induction false} PrefixOfJoin(a: string, b: string, k: nat)
    requires k <= |a| + |b|
    ensures (a + b)[..k] == if k <= |a| then a[..k] else a + b[..k - |a|]
  {
  }

  /** The written body of an item, cut. */
  lemma {:induction false} CutBody(it: Item, k: nat) returns (kept: Item, junk: string)
    requires GoodItem(it) && 0 < k <= |SpelledBody(it)|
    ensures GoodItem(kept) && kept.lead == it.lead && NoDigits(junk)
    ensures SpelledBody(it)[..k] == SpelledBody(kept) + junk
  {
    junk := "";
    match it
    case One(lead, a) =>
      DigitsPrefix(a, k);
      kept := One(lead, a[..k]);
    case Range(lead, a, gap1, gap2, b) =>
      var g1, g2 := Blanks(gap1), Blanks(gap2);
      hide Blanks, AllDigits;
      var front := a + g1 + "-" + g2;
      PrefixOfJoin(front, b, k);
      if k > |front| {
        DigitsPrefix(b, k - |front|);
        kept := Range(lead, a, gap1, gap2, b[..k - |front|]);
      } else if k > |a| {
        kept := One(lead, a);
        junk := CutGaps(a, gap1, gap2, k);
      } else {
        DigitsPrefix(a, k);
        kept := One(lead, a[..k]);
        assert front[..k] == a[..k];
      }
  }

  /** Cut between the two numbers of a range. */
  lemma {:induction false} CutGaps(a: string, gap1: nat, gap2: nat, k: nat) returns (junk: string)
    requires |a| < k <= |a + Blanks(gap1) + "-" + Blanks(gap2)|
    ensures (a + Blanks(gap1) + "-" + Blanks(gap2))[..k] == a + junk && NoDigits(junk)
  {
    var rest := Blanks(gap1) + ("-" + Blanks(gap2));
    BlanksPrefix(gap1, gap1);
    BlanksPrefix(gap2, gap2);
    assert Blanks(gap1)[..gap1] == Blanks(gap1) && Blanks(gap2)[..gap2] == Blanks(gap2);
    hide Blanks;
    NoDigitsJoin("-", Blanks(gap2));
    NoDigitsJoin(Blanks(gap1), "-" + Blanks(gap2));
    assert a + Blanks(gap1) + "-" + Blanks(gap2) == a + rest;
    PrefixOfJoin(a, rest, k);
    junk := rest[..k - |a|];
  }

  /** The items of a cut specification, the last one possibly shortened, and what
      follows them without a digit. */
  lemma {:induction false} CutItems(items: seq<Item>, n: nat) returns (kept: seq<Item>, junk: string)
    requires GoodItems(items) && n <= |SpelledAll(items)|
    ensures GoodItems(kept) && NoDigits(junk)
    ensures SpelledAll(items)[..n] == SpelledAll(kept) + junk
    ensures items != [] && n > items[0].lead ==> kept != []
    decreases |items|, 0
  {
    if items == [] {
      kept, junk := [], "";
    } else {
      var it, more := items[0], items[1..];
      assert items == [it] + more;
      SpelledMore(it, more);
      hide SpelledAll, SpelledBody, GoodItem;
      if n <= it.lead {
        kept, junk := [], Blanks(n);
        BlanksPrefix(it.lead, n);
        NoItems();
        assert SpelledAll(items)[..n] == Spelled(it)[..n] == Blanks(it.lead)[..n];
      } else if n <= |Spelled(it)| {
        kept, junk := CutWithin(it, n);
        assert SpelledAll(items)[..n] == Spelled(it)[..n];
      } else {
        kept, junk := CutAfter(it, more, n);
      }
    }
  }

  lemma {:induction false} CutWithin(it: Item, n: nat) returns (kept: seq<Item>, junk: string)
    requires GoodItem(it) && it.lead < n <= |Spelled(it)|
    ensures GoodItems(kept) && NoDigits(junk) && kept != []
    ensures Spelled(it)[..n] == SpelledAll(kept) + junk
  {
    hide SpelledAll, SpelledBody, GoodItem;
    var one;
    one, junk := CutBody(it, n - it.lead);
    kept := [one];
    GoodMore(one, []);
    SpelledMore(one, []);
    assert [one] + [] == [one];
    PrefixOfJoin(Blanks(it.lead), SpelledBody(it), n);
    assert Blanks(it.lead) + (SpelledBody(one) + junk) == Spelled(one) + junk;
  }

  lemma {:induction false} NoItems()
    ensures SpelledAll([]) == "" && GoodItems([])
  {
  }

  lemma {:induction false} CutAfter(it: Item, more: seq<Item>, n: nat) returns (kept: seq<Item>, junk: string)
    requires GoodItem(it) && GoodItems(more) && more != []
    requires |Spelled(it)| < n <= |Spelled(it) + "," + SpelledAll(more)|
    ensures GoodItems(kept) && NoDigits(junk) && kept != []
    ensures (Spelled(it) + "," + SpelledAll(more))[..n] == SpelledAll(kept) + junk
    decreases |more|, 1
  {
    hide SpelledBody, Spelled;
    var m := n - |Spelled(it)| - 1;
    var rest;
    rest, junk := CutItems(more, m);
    GoodMore(it, rest);
    SpelledMore(it, rest);
    hide SpelledAll;
    kept := [it] + rest;
    PrefixOfJoin(Spelled(it) + ",", SpelledAll(more), n);
    if rest == [] {
      NoItems();
      NoDigitsJoin(",", junk);
      assert Spelled(it) + "," + ("" + junk) == Spelled(it) + ("," + junk);
      junk := "," + junk;
    } else {
      assert Spelled(it) + "," + (SpelledAll(rest) + junk) == Spelled(it) + "," + SpelledAll(rest) + junk;
    }
  }

  // ---- counting digits ----

  function DigitCount(s: string): nat {
    if s == "" then 0 else DigitCount(s[..|s| - 1]) + (if IsDigit(s[|s| - 1]) then 1 else 0)
  }

  lemma {:induction false} DigitCountJoin(a: string, b: string)
    ensures DigitCount(a + b) == DigitCount(a) + DigitCount(b)
  {
    if b == "" {
      assert a + b == a;
    } else {
      var k := |b| - 1;
      DigitCountJoin(a, b[..k]);
      assert (a + b)[..|a + b| - 1] == a + b[..k];
    }
  }

  lemma {:induction false} DigitCountNone(s: string)
    ensures NoDigits(s) <==> DigitCount(s) == 0
  {
    if s != "" {
      var k := |s| - 1;
      DigitCountNone(s[..k]);
      assert s == s[..k] + [s[k]];
      NoDigitsJoin(s[..k], [s[k]]);
    }
  }

  lemma {:induction false} DigitCountPrefix(a: string, b: string)
    requires a <= b
    ensures DigitCount(a) <= DigitCount(b)
  {
    assert b == a + b[|a|..];
    DigitCountJoin(a, b[|a|..]);
  }

  lemma {:induction false} BodyCount(it: Item)
    requires GoodItem(it)
    ensures DigitCount(Spelled(it)) == DigitCount(Compact(it))
  {
    BlanksPrefix(it.lead, it.lead);
    assert Blanks(it.lead)[..it.lead] == Blanks(it.lead);
    DigitCountNone(Blanks(it.lead));
    DigitCountJoin(Blanks(it.lead), SpelledBody(it));
    if it.Range? {
      var a, g1, g2 := it.a, Blanks(it.gap1), Blanks(it.gap2);
      BlanksPrefix(it.gap1, it.gap1);
      BlanksPrefix(it.gap2, it.gap2);
      assert g1[..it.gap1] == g1 && g2[..it.gap2] == g2;
      hide Blanks, DigitCount, AllDigits;
      DigitCountNone(g1);
      DigitCountNone(g2);
      DigitCountJoin(a, g1);
      DigitCountJoin(a + g1, "-");
      DigitCountJoin(a + g1 + "-", g2);
      DigitCountJoin(a + g1 + "-" + g2, it.b);
      DigitCountJoin(a, "-");
      DigitCountJoin(a + "-", it.b);
    }
  }

  /** Compacting keeps every digit. */
  lemma {:induction false} CompactCount(items: seq<Item>)
    requires GoodItems(items)
    ensures DigitCount(SpelledAll(items)) == DigitCount(CompactAll(items))
  {
    hide Spelled, Compact, DigitCount, GoodItem;
    if items != [] {
      BodyCount(items[0]);
      if |items| > 1 {
        CompactCount(items[1..]);
        DigitCountJoin(Spelled(items[0]) + ",", SpelledAll(items[1..]));
        DigitCountJoin(Spelled(items[0]), ",");
        DigitCountJoin(Compact(items[0]) + ",", CompactAll(items[1..]));
        DigitCountJoin(Compact(items[0]), ",");
      }
    }
  }
}
