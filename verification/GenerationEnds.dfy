/** Where a run of the generation loop stops and what it has then said, from the
    sampler alone wherever no token is forced. */
module GenerationEnds {
  import opened CText
  import opened Generation
  import opened AnswerReserve

  // ---- what ends a run that is left to the sampler ----

  /** At step `i` the user interrupts, the model ends, or decoding fails. */
  predicate Stops(w: World, eos: int, i: nat) { w.user(i) != Go || w.sample(i) == eos || w.fails(i) }

  /** The first stop at or after `i`; `end` when there is none before it. */
  function FirstStop(w: World, eos: int, i: nat, end: nat): (n: nat)
    requires i <= end
    ensures i <= n <= end && (n < end ==> Stops(w, eos, n))
    ensures forall j :: i <= j < n ==> !Stops(w, eos, j)
    decreases end - i
  {
    if i == end || Stops(w, eos, i) then i else FirstStop(w, eos, i + 1, end)
  }

  /** The text of the samples i, ..., n - 1. */
  function Sampled(w: World, i: nat, n: nat): string
    requires i <= n
    decreases n - i
  {
    if i == n then "" else w.text(w.sample(i)) + Sampled(w, i + 1, n)
  }

  /** At step `i` the controller leaves a thinking run alone. */
  predicate Free(cfg: Config, w: World, i: nat) {
    && Limit(cfg) - i > cfg.hard
    && !(|cfg.closeTokens| == 1 && Limit(cfg) - i <= cfg.soft && w.rank(i) > 0)
  }

  /** No token is forced at the steps from `g` up to `n`. */
  predicate Unforced(cfg: Config, w: World, g: Gen, n: nat) {
    || !g.inThink
    || cfg.closeTokens == []
    || (!(0 <= g.forcedPos < |cfg.closeTokens|) && forall i :: g.generated <= i < n ==> Free(cfg, w, i))
  }

  /** One unforced step. */
  lemma {:induction false} SampledStep(cfg: Config, w: World, g: Gen)
    requires g.generated < Limit(cfg) && Unforced(cfg, w, g, g.generated + 1)
    ensures var i, s := g.generated, Step(cfg, w, g);
            !s.Skipped?
            && (s.Interrupted? <==> w.user(i) != Go) && (s.Interrupted? ==> s.signal == w.user(i))
            && (s.Ended? <==> w.user(i) == Go && w.sample(i) == cfg.eos)
            && (s.Failed? <==> w.user(i) == Go && w.sample(i) != cfg.eos && w.fails(i))
            && (!s.Spent? ==> s.g == g)
            && (s.Spent? ==>
                  s.g.generated == i + 1 && s.g.raw == g.raw + w.text(w.sample(i)) && s.g.forcedPos == g.forcedPos
                  && (s.g.inThink <==> g.inThink && !Contains(s.g.raw))
                  && s.g.close == if g.inThink && Contains(s.g.raw) && g.close.kind == NotClosed
                                  then CloseInfo(Natural, i + 1, Limit(cfg) - i, 0) else g.close)
  {
    hide Contains;
    assert !(g.inThink && cfg.closeTokens != []) || Free(cfg, w, g.generated);
  }

  /** What a run says when it stops at step `n` by itself. */
  predicate StopsThere(r: Outcome, w: World, eos: int, n: nat, raw: string) {
    && !r.Skipped? && r.g.generated == n && r.g.raw == raw
    && (if w.user(n) != Go then r.Interrupted? && r.signal == w.user(n)
        else if w.sample(n) == eos then r.Ended?
        else w.fails(n) && r.Failed?)
  }

  /** While no token is forced, the sampler alone decides: the loop says the sampled
      text up to the first stop, and stops there for that reason. */
  lemma {:induction false} SamplerDecides(cfg: Config, w: World, g: Gen)
    requires g.generated <= Limit(cfg)
    requires var n := FirstStop(w, cfg.eos, g.generated, Limit(cfg));
             Unforced(cfg, w, g, if n < Limit(cfg) then n + 1 else n)
    ensures var n := FirstStop(w, cfg.eos, g.generated, Limit(cfg));
            var raw := g.raw + Sampled(w, g.generated, n);
            var r := Loop(cfg, w, g);
            if n < Limit(cfg) then StopsThere(r, w, cfg.eos, n, raw)
            else r.Spent? && r.g.generated == n && r.g.raw == raw
    decreases Limit(cfg) - g.generated
  {
    hide Contains, Step, Free;
    var i := g.generated;
    assert g.raw + "" == g.raw;
    if i < Limit(cfg) {
      SampledStep(cfg, w, g);
      var s := Step(cfg, w, g);
      if s.Spent? {
        SamplerDecides(cfg, w, s.g);
        var n := FirstStop(w, cfg.eos, i + 1, Limit(cfg));
        assert g.raw + (w.text(w.sample(i)) + Sampled(w, i + 1, n)) == s.g.raw + Sampled(w, i + 1, n);
      }
    }
  }

  /** A run without thinking ends at the first end-of-sequence sample, failure or
      interruption, having said the samples before it; it spends its budget exactly
      when there is none. */
  lemma {:induction false} RunEnds(cfg: Config, w: World)
    requires !cfg.thinking && Limit(cfg) >= 1
    ensures var n := FirstStop(w, cfg.eos, 0, Limit(cfg));
            var r := Run(cfg, w);
            if n < Limit(cfg) then StopsThere(r, w, cfg.eos, n, Sampled(w, 0, n))
            else r.Spent? && r.g.generated == Limit(cfg) && r.g.raw == Sampled(w, 0, n)
  {
    hide Loop;
    SamplerDecides(cfg, w, Start(cfg));
    var n := FirstStop(w, cfg.eos, 0, Limit(cfg));
    assert "" + Sampled(w, 0, n) == Sampled(w, 0, n);
  }

  /** A thinking run that stops before the controller steps in ends the same way. */
  lemma {:induction false} ThinkingRunEnds(cfg: Config, w: World)
    requires cfg.thinking
    requires 1 <= Limit(cfg) && FirstStop(w, cfg.eos, 0, Limit(cfg)) < Limit(cfg)
    requires forall i :: 0 <= i <= FirstStop(w, cfg.eos, 0, Limit(cfg)) ==> Free(cfg, w, i)
    ensures var n := FirstStop(w, cfg.eos, 0, Limit(cfg));
            StopsThere(Run(cfg, w), w, cfg.eos, n, Sampled(w, 0, n))
  {
    hide Loop;
    SamplerDecides(cfg, w, Start(cfg));
    var n := FirstStop(w, cfg.eos, 0, Limit(cfg));
    assert "" + Sampled(w, 0, n) == Sampled(w, 0, n);
  }

  /** A run is skipped exactly when there is no room for a token, and a budget that
      is spent is the smaller of the two bounds. */
  lemma {:induction false} SkippedOrSpent(cfg: Config, w: World)
    ensures var r := Run(cfg, w);
            (r.Skipped? <==> cfg.maxTokens < 1 || cfg.ctx <= cfg.promptTokens)
            && (r.Spent? ==> r.g.generated == cfg.maxTokens || cfg.promptTokens + r.g.generated == cfg.ctx)
  {
    if Limit(cfg) >= 1 {
      LoopKeeps(cfg, w, Start(cfg));
    }
  }

  // ---- a close that the model makes itself ----

  /** The first step by which the samples complete a close tag. */
  predicate ClosesAt(w: World, g: Gen, n: nat) {
    && g.generated < n && Contains(g.raw + Sampled(w, g.generated, n))
    && forall j :: g.generated < j < n ==> !Contains(g.raw + Sampled(w, g.generated, j))
  }

  /** Thinking goes on until the samples complete a tag; that close is recorded as
      natural, at the token that completes it. */
  lemma {:induction false} NaturalClose(cfg: Config, w: World, g: Gen, n: nat)
    requires g.inThink && g.close.kind == NotClosed && g.generated < n <= Limit(cfg)
    requires ClosesAt(w, g, n) && Unforced(cfg, w, g, n)
    requires forall i :: g.generated <= i < n ==> !Stops(w, cfg.eos, i)
    ensures var a := After(cfg, w, g, n - g.generated);
            a.Spent? && a.g.generated == n && a.g.raw == g.raw + Sampled(w, g.generated, n)
            && !a.g.inThink && a.g.close == CloseInfo(Natural, n, Limit(cfg) - n + 1, 0)
    decreases n - g.generated
  {
    hide Contains, Step, Free;
    var i := g.generated;
    SampledStep(cfg, w, g);
    var s := Step(cfg, w, g);
    OneSample(w, g.raw, i);
    assert !Stops(w, cfg.eos, i);
    if n == i + 1 {
      assert After(cfg, w, s.g, 0) == Spent(s.g);
    } else {
      assert !Contains(g.raw + Sampled(w, i, i + 1));
      ClosesLater(w, g, s.g, n);
      NaturalClose(cfg, w, s.g, n);
    }
  }

  lemma {:induction false} ClosesLater(w: World, g: Gen, next: Gen, n: nat)
    requires ClosesAt(w, g, n) && g.generated + 1 < n
    requires next.generated == g.generated + 1 && next.raw == g.raw + w.text(w.sample(g.generated))
    ensures ClosesAt(w, next, n) && next.raw + Sampled(w, next.generated, n) == g.raw + Sampled(w, g.generated, n)
  {
    hide Contains;
    forall j | next.generated <= j <= n
      ensures next.raw + Sampled(w, next.generated, j) == g.raw + Sampled(w, g.generated, j)
    {
      var piece := w.text(w.sample(g.generated));
      assert g.raw + (piece + Sampled(w, next.generated, j)) == next.raw + Sampled(w, next.generated, j);
    }
  }

  lemma {:induction false} OneSample(w: World, raw: string, i: nat)
    ensures raw + Sampled(w, i, i + 1) == raw + w.text(w.sample(i))
  {
    assert Sampled(w, i, i + 1) == w.text(w.sample(i)) + "";
  }

  // ---- a close within the soft limit ----

  /** A single close token that is likely enough is taken at once within the soft
      limit: the tag is completed, and the close recorded with its rank. */
  lemma {:induction false} SoftClose(cfg: Config, w: World, g: Gen)
    requires CloseSpelled(cfg, w.text) && |cfg.closeTokens| == 1
    requires g.inThink && g.forcedPos == -1 && g.close.kind == NotClosed && !Contains(g.raw)
    requires g.generated < Limit(cfg) && cfg.hard < Limit(cfg) - g.generated <= cfg.soft && w.rank(g.generated) > 0
    requires w.user(g.generated) == Go && !w.fails(g.generated)
    ensures Step(cfg, w, g)
            == Spent(Gen(g.generated + 1, g.raw + THINK_CLOSE, false, -1,
                         CloseInfo(Soft, g.generated + 1, Limit(cfg) - g.generated, w.rank(g.generated))))
  {
    TrailsNone(cfg, w.text, g.raw);
    TrailsNext(cfg, w.text, g.raw, 0);
    EmptyForced(cfg, w.text);
    ForcedNext(cfg, w.text, 0);
    assert cfg.closeTokens[..1] == cfg.closeTokens;
    hide Contains, Spell, Trails;
  }

  /** A step of a thinking run at which a close token is due stops only for the user
      or for a failure. */
  lemma {:induction false} ForcedStep(cfg: Config, w: World, g: Gen)
    requires CloseSpelled(cfg, w.text) && g.inThink && g.generated < Limit(cfg)
    requires 0 <= g.forcedPos < |cfg.closeTokens| || Limit(cfg) - g.generated <= cfg.hard
    ensures var i, s := g.generated, Step(cfg, w, g);
            var j := if 0 <= g.forcedPos < |cfg.closeTokens| then g.forcedPos else 0;
            if w.user(i) != Go then s == Interrupted(g, w.user(i))
            else if w.fails(i) then s.Failed? && s.g.generated == i && s.g.raw == g.raw
            else s.Spent? && s.g.generated == i + 1 && s.g.raw == g.raw + w.text(cfg.closeTokens[j])
  {
    hide Contains, Spell;
  }
}
