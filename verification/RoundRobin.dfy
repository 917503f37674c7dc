/** Benchmark requests generated from a mix of shapes: shape after shape, or one of
    each shape in turn until all counts are used up. A shape is its position in the
    mix, and asks for max(1, count) requests. */
module RoundRobin {
  /** A generated request: its index in the batch and the shape it has. */
  datatype Request = Request(index: nat, shape: nat)

  /** max(1, int(count or 1)) */
  function Times(count: int): (n: nat)
    ensures (count >= 1 ==> n == count) && (count < 1 ==> n == 1)
  {
    if count > 1 then count else 1
  }

  function Shapes(requests: seq<Request>): seq<nat> { if requests == [] then [] else Shapes(requests[..|requests| - 1]) + [requests[|requests| - 1].shape] }

  predicate Numbered(requests: seq<Request>) { forall i :: 0 <= i < |requests| ==> requests[i].index == i }

  // ---- the two orders ----

  /** The shapes below m that still have a request in round r. */
  function Round(counts: seq<int>, r: nat, m: nat): seq<nat>
    requires m <= |counts|
  {
    if m == 0 then [] else Round(counts, r, m - 1) + (if Times(counts[m - 1]) > r then [m - 1] else [])
  }

  /** The first n rounds. */
  function Rounds(counts: seq<int>, n: nat): seq<nat> { if n == 0 then [] else Rounds(counts, n - 1) + Round(counts, n - 1, |counts|) }

  function Most(counts: seq<int>): nat {
    if counts == [] then 0
    else
      var rest, last := Most(counts[..|counts| - 1]), Times(counts[|counts| - 1]);
      if last > rest then last else rest
  }

  function Repeated(shape: nat, n: nat): seq<nat> { if n == 0 then [] else Repeated(shape, n - 1) + [shape] }

  function Grouped(counts: seq<int>, m: nat): seq<nat>
    requires m <= |counts|
  {
    if m == 0 then [] else Grouped(counts, m - 1) + Repeated(m - 1, Times(counts[m - 1]))
  }

  // ---- the generators ----

  lemma {:induction false} ShapesAppend(requests: seq<Request>, request: Request)
    ensures Shapes(requests + [request]) == Shapes(requests) + [request.shape]
  {
    assert (requests + [request])[..|requests|] == requests;
  }

  method GenerateGrouped(counts: seq<int>) returns (requests: seq<Request>)
    ensures Shapes(requests) == Grouped(counts, |counts|) && Numbered(requests)
  {
    requests := [];
    for shape := 0 to |counts|
      invariant Shapes(requests) == Grouped(counts, shape) && Numbered(requests)
    {
      ghost var had := Shapes(requests);
      for n := 0 to Times(counts[shape])
        invariant Shapes(requests) == had + Repeated(shape, n) && Numbered(requests)
      {
        ShapesAppend(requests, Request(|requests|, shape));
        requests := requests + [Request(|requests|, shape)];
      }
    }
  }

  lemma {:induction false} MostIs(counts: seq<int>, r: nat)
    ensures (exists s :: 0 <= s < |counts| && Times(counts[s]) > r) <==> Most(counts) > r
  {
    hide Times;
    if counts != [] {
      var n := |counts| - 1;
      MostIs(counts[..n], r);
      if s :| 0 <= s < n && Times(counts[s]) > r {
        assert Times(counts[..n][s]) > r;
      }
    }
  }

  /** remaining[s] is what shape s still has to give after r rounds and part of the next. */
  predicate Left(counts: seq<int>, remaining: seq<int>, r: nat, m: nat) {
    |remaining| == |counts| && m <= |counts| &&
    forall s :: 0 <= s < |counts| ==> remaining[s] == Rest(Times(counts[s]), if s < m then r + 1 else r)
  }

  function Rest(times: nat, done: nat): int { if times > done then times - done else 0 }

  /** _generated_round_robin_shape_requests */
  method GenerateRoundRobin(counts: seq<int>) returns (requests: seq<Request>)
    ensures Shapes(requests) == Rounds(counts, Most(counts)) && Numbered(requests)
  {
    hide Rounds, Most, Shapes, Times, Round, Left;
    requests := [];
    var remaining := new int[|counts|](i requires 0 <= i < |counts| => Times(counts[i]));
    ghost var r: nat := 0;
    NoRounds(counts, remaining[..]);
    while true
      invariant remaining.Length == |counts| && Left(counts, remaining[..], r, 0)
      invariant Shapes(requests) == Rounds(counts, r) && Numbered(requests) && r <= Most(counts)
      decreases Most(counts) - r
    {
      var any := false;
      for i := 0 to remaining.Length
        invariant any <==> exists s :: 0 <= s < i && remaining[s] > 0
      {
        any := any || remaining[i] > 0;
      }
      MoreRounds(counts, remaining[..], r);
      if !any {
        break;
      }
      NoneYet(counts, r);
      for shape := 0 to |counts|
        invariant remaining.Length == |counts|
        invariant Left(counts, remaining[..], r, shape)
        invariant Shapes(requests) == Rounds(counts, r) + Round(counts, r, shape) && Numbered(requests)
      {
        LeftStep(counts, remaining[..], r, shape);
        RoundGrows(counts, r, shape);
        if remaining[shape] <= 0 {
          assert Rounds(counts, r) + Round(counts, r, shape + 1) == Rounds(counts, r) + Round(counts, r, shape);
          continue;
        }
        assert Rounds(counts, r) + Round(counts, r, shape + 1) == Rounds(counts, r) + Round(counts, r, shape) + [shape];
        ShapesAppend(requests, Request(|requests|, shape));
        requests := requests + [Request(|requests|, shape)];
        ghost var had := remaining[..];
        remaining[shape] := remaining[shape] - 1;
        assert remaining[..] == had[shape := had[shape] - 1];
      }
      AllLeft(counts, remaining[..], r);
      RoundsGrow(counts, r);
      r := r + 1;
    }
  }

  lemma {:induction false} LeftStep(counts: seq<int>, remaining: seq<int>, r: nat, s: nat)
    requires Left(counts, remaining, r, s) && s < |counts|
    ensures remaining[s] > 0 <==> Times(counts[s]) > r
    ensures remaining[s] > 0 ==> Left(counts, remaining[s := remaining[s] - 1], r, s + 1)
    ensures remaining[s] <= 0 ==> Left(counts, remaining, r, s + 1)
  {
    hide Times;
  }

  lemma {:induction false} AllLeft(counts: seq<int>, remaining: seq<int>, r: nat)
    requires Left(counts, remaining, r, |counts|)
    ensures Left(counts, remaining, r + 1, 0)
  {
    hide Times;
  }

  lemma {:induction false} NoneYet(counts: seq<int>, r: nat)
    ensures Round(counts, r, 0) == [] && Rounds(counts, r) + [] == Rounds(counts, r)
  {
  }

  lemma {:induction false} RoundGrows(counts: seq<int>, r: nat, s: nat)
    requires s < |counts|
    ensures Round(counts, r, s + 1) == Round(counts, r, s) + (if Times(counts[s]) > r then [s] else [])
  {
    hide Times;
  }

  lemma {:induction false} NoRounds(counts: seq<int>, remaining: seq<int>)
    requires |remaining| == |counts| && forall s :: 0 <= s < |counts| ==> remaining[s] == Times(counts[s])
    ensures Shapes([]) == Rounds(counts, 0) && Left(counts, remaining, 0, 0)
  {
  }

  lemma {:induction false} RoundsGrow(counts: seq<int>, r: nat)
    ensures Rounds(counts, r + 1) == Rounds(counts, r) + Round(counts, r, |counts|)
  {
  }

  lemma {:induction false} MoreRounds(counts: seq<int>, remaining: seq<int>, r: nat)
    requires Left(counts, remaining, r, 0)
    ensures (exists s :: 0 <= s < |counts| && remaining[s] > 0) <==> Most(counts) > r
  {
    hide Most, Times;
    MostIs(counts, r);
    if s :| 0 <= s < |counts| && Times(counts[s]) > r {
      assert remaining[s] > 0;
    }
  }

  // ---- how often each shape comes ----

  function CountOf(shapes: seq<nat>, s: nat): nat {
    if shapes == [] then 0 else CountOf(shapes[..|shapes| - 1], s) + (if shapes[|shapes| - 1] == s then 1 else 0)
  }

  lemma {:induction false} CountConcat(a: seq<nat>, b: seq<nat>, s: nat)
    ensures CountOf(a + b, s) == CountOf(a, s) + CountOf(b, s)
  {
    if b == [] {
      assert a + b == a;
    } else {
      CountConcat(a, b[..|b| - 1], s);
      assert (a + b)[..|a + b| - 1] == a + b[..|b| - 1];
    }
  }

  lemma {:induction false} CountSingle(x: nat, s: nat)
    ensures CountOf([x], s) == if x == s then 1 else 0
  {
    assert [x][..0] == [];
  }

  lemma {:induction false} CountNothing(s: nat)
    ensures CountOf([], s) == 0
  {
  }

  lemma {:induction false} CountIsMultiplicity(shapes: seq<nat>, s: nat)
    ensures multiset(shapes)[s] == CountOf(shapes, s)
  {
    if shapes != [] {
      CountIsMultiplicity(shapes[..|shapes| - 1], s);
      assert shapes == shapes[..|shapes| - 1] + [shapes[|shapes| - 1]];
    }
  }

  lemma {:induction false} SameCounts(a: seq<nat>, b: seq<nat>)
    requires forall s: nat :: CountOf(a, s) == CountOf(b, s)
    ensures multiset(a) == multiset(b)
  {
    forall s: nat ensures multiset(a)[s] == multiset(b)[s] {
      CountIsMultiplicity(a, s);
      CountIsMultiplicity(b, s);
      assert CountOf(a, s) == CountOf(b, s);
    }
  }

  function Min(a: nat, b: nat): nat { if a < b then a else b }

  lemma {:induction false} RoundCount(counts: seq<int>, r: nat, m: nat, s: nat)
    requires m <= |counts|
    ensures CountOf(Round(counts, r, m), s) == if s < m && Times(counts[s]) > r then 1 else 0
  {
    hide Times;
    if m > 0 {
      hide Round, CountOf;
      RoundCount(counts, r, m - 1, s);
      RoundGrows(counts, r, m - 1);
      if Times(counts[m - 1]) > r {
        CountConcat(Round(counts, r, m - 1), [m - 1], s);
        CountSingle(m - 1, s);
      } else {
        CountConcat(Round(counts, r, m - 1), [], s);
        CountNothing(s);
      }
    } else {
      CountNothing(s);
    }
  }

  lemma {:induction false} RoundsCount(counts: seq<int>, n: nat, s: nat)
    ensures CountOf(Rounds(counts, n), s) == if s < |counts| then Min(n, Times(counts[s])) else 0
  {
    hide Times, Round;
    if n > 0 {
      RoundsCount(counts, n - 1, s);
      RoundCount(counts, n - 1, |counts|, s);
      CountConcat(Rounds(counts, n - 1), Round(counts, n - 1, |counts|), s);
    }
  }

  lemma {:induction false} RepeatedCount(shape: nat, n: nat, s: nat)
    ensures CountOf(Repeated(shape, n), s) == if s == shape then n else 0
  {
    if n > 0 {
      RepeatedCount(shape, n - 1, s);
      CountConcat(Repeated(shape, n - 1), [shape], s);
    }
  }

  lemma {:induction false} GroupedCount(counts: seq<int>, m: nat, s: nat)
    requires m <= |counts|
    ensures CountOf(Grouped(counts, m), s) == if s < m then Times(counts[s]) else 0
  {
    hide Times, Repeated;
    if m > 0 {
      GroupedCount(counts, m - 1, s);
      RepeatedCount(m - 1, Times(counts[m - 1]), s);
      CountConcat(Grouped(counts, m - 1), Repeated(m - 1, Times(counts[m - 1])), s);
    }
  }

  /** Every shape is emitted as often as its count asks, and the two orders emit the same shapes. */
  lemma {:induction false} SameShapes(counts: seq<int>)
    ensures multiset(Rounds(counts, Most(counts))) == multiset(Grouped(counts, |counts|))
    ensures forall s: nat :: CountOf(Rounds(counts, Most(counts)), s) == if s < |counts| then Times(counts[s]) else 0
  {
    hide Times, Rounds, Grouped, Most, CountOf;
    forall s: nat
      ensures CountOf(Rounds(counts, Most(counts)), s) == if s < |counts| then Times(counts[s]) else 0
      ensures CountOf(Grouped(counts, |counts|), s) == if s < |counts| then Times(counts[s]) else 0
    {
      RoundsCount(counts, Most(counts), s);
      GroupedCount(counts, |counts|, s);
      if s < |counts| {
        AtMostMost(counts, s);
      }
    }
    SameCounts(Rounds(counts, Most(counts)), Grouped(counts, |counts|));
  }

  lemma {:induction false} AtMostMost(counts: seq<int>, s: nat)
    requires s < |counts|
    ensures Times(counts[s]) <= Most(counts)
  {
    if s < |counts| - 1 {
      AtMostMost(counts[..|counts| - 1], s);
    }
  }

  // ---- fairness at every prefix ----

  /** A prefix of the rounds is some whole rounds and the start of one more. */
  lemma {:induction false} RoundsPrefix(counts: seq<int>, n: nat, p: nat) returns (r: nat, m: nat)
    requires p <= |Rounds(counts, n)|
    ensures m <= |counts| && Rounds(counts, n)[..p] == Rounds(counts, r) + Round(counts, r, m)
  {
    if n == 0 {
      r, m := 0, 0;
    } else {
      var before := Rounds(counts, n - 1);
      if p <= |before| {
        r, m := RoundsPrefix(counts, n - 1, p);
        assert Rounds(counts, n)[..p] == before[..p];
      } else {
        r := n - 1;
        m := RoundPrefix(counts, r, |counts|, p - |before|);
        assert Rounds(counts, n)[..p] == before + Round(counts, r, |counts|)[..p - |before|];
      }
    }
  }

  lemma {:induction false} RoundPrefix(counts: seq<int>, r: nat, m: nat, p: nat) returns (q: nat)
    requires m <= |counts| && p <= |Round(counts, r, m)|
    ensures q <= m && Round(counts, r, m)[..p] == Round(counts, r, q)
  {
    if p == |Round(counts, r, m)| {
      q := m;
      assert Round(counts, r, m)[..p] == Round(counts, r, m);
    } else {
      q := RoundPrefix(counts, r, m - 1, p);
      assert Round(counts, r, m)[..p] == Round(counts, r, m - 1)[..p];
    }
  }

  /** At every prefix of the round-robin order, of two shapes with requests still to
      come the earlier one is level with the later one or one request ahead. */
  lemma {:induction false} PrefixFair(counts: seq<int>, p: nat, s: nat, t: nat)
    requires p <= |Rounds(counts, Most(counts))| && s < t < |counts|
    ensures
      var prefix := Rounds(counts, Most(counts))[..p];
      CountOf(prefix, s) < Times(counts[s]) && CountOf(prefix, t) < Times(counts[t]) ==>
      CountOf(prefix, t) <= CountOf(prefix, s) <= CountOf(prefix, t) + 1
  {
    hide Times, Rounds, Round, Most, CountOf;
    var r, m := RoundsPrefix(counts, Most(counts), p);
    RoundsCount(counts, r, s);
    RoundsCount(counts, r, t);
    RoundCount(counts, r, m, s);
    RoundCount(counts, r, m, t);
    CountConcat(Rounds(counts, r), Round(counts, r, m), s);
    CountConcat(Rounds(counts, r), Round(counts, r, m), t);
  }
}
