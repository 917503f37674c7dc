/** A thinking run that spends its budget was closed in time, exactly when the close
    tokens fit. */
module AnswerReserve {
  import opened CText
  import opened Generation

  /** The text of a token sequence. */
  function Spell(text: int -> string, tokens: seq<int>): string {
    if tokens == [] then "" else text(tokens[0]) + Spell(text, tokens[1..])
  }

  lemma {:induction false} SpellSnoc(text: int -> string, tokens: seq<int>, t: int)
    ensures Spell(text, tokens + [t]) == Spell(text, tokens) + text(t)
  {
    if tokens == [] {
      assert [t][1..] == [] && Spell(text, [t]) == text(t) + "";
    } else {
      assert (tokens + [t])[1..] == tokens[1..] + [t];
      SpellSnoc(text, tokens[1..], t);
    }
  }

  /** A tokenization of "</think>": real tokens, none of them the end token. */
  predicate CloseSpelled(cfg: Config, text: int -> string) {
    && cfg.closeTokens != [] && Spell(text, cfg.closeTokens) == THINK_CLOSE
    && forall i :: 0 <= i < |cfg.closeTokens| ==>
         cfg.closeTokens[i] >= 0 && cfg.closeTokens[i] != cfg.eos && text(cfg.closeTokens[i]) != ""
  }

  function Forced(cfg: Config, text: int -> string, j: nat): string
    requires j <= |cfg.closeTokens|
  { Spell(text, cfg.closeTokens[..j]) }

  lemma {:induction false} ForcedNext(cfg: Config, text: int -> string, j: nat)
    requires j < |cfg.closeTokens|
    ensures Forced(cfg, text, j + 1) == Forced(cfg, text, j) + text(cfg.closeTokens[j])
  {
    assert cfg.closeTokens[..j + 1] == cfg.closeTokens[..j] + [cfg.closeTokens[j]];
    SpellSnoc(text, cfg.closeTokens[..j], cfg.closeTokens[j]);
  }

  /** A part of the close tokens spells a proper prefix of the tag. */
  lemma {:induction false} ForcedPrefix(cfg: Config, text: int -> string, j: nat)
    requires CloseSpelled(cfg, text) && j <= |cfg.closeTokens|
    ensures Forced(cfg, text, j) <= THINK_CLOSE
    ensures j < |cfg.closeTokens| ==> |Forced(cfg, text, j)| < |THINK_CLOSE|
    decreases |cfg.closeTokens| - j
  {
    if j == |cfg.closeTokens| {
      assert cfg.closeTokens[..j] == cfg.closeTokens;
    } else {
      ForcedNext(cfg, text, j);
      ForcedPrefix(cfg, text, j + 1);
    }
  }

  /** Unfinished forcing does not complete a tag: "</think>" has no proper border. */
  lemma {:induction false} NotYetClosed(raw: string, part: string)
    requires !Contains(raw) && part <= THINK_CLOSE && |part| < |THINK_CLOSE|
    ensures !Contains(raw + part)
  {
    var all := raw + part;
    FindInFirst(raw, 0, |raw|, THINK_CLOSE);
    FindInFirst(all, 0, |all|, THINK_CLOSE);
    forall q: nat | q + |THINK_CLOSE| <= |all|
      ensures !At(all, q, THINK_CLOSE)
    {
      if q + |THINK_CLOSE| <= |raw| {
        assert all[q..q + |THINK_CLOSE|] == raw[q..q + |THINK_CLOSE|];
        assert !At(raw, q, THINK_CLOSE);
      } else {
        assert all[|raw|] == part[0] == '<';
        NotAt(all, q, THINK_CLOSE, |raw| - q);
      }
    }
  }

  lemma {:induction false} ClosedAtEnd(raw: string)
    ensures Contains(raw + THINK_CLOSE)
  {
    var all := raw + THINK_CLOSE;
    FindInFirst(all, 0, |all|, THINK_CLOSE);
    assert At(all, |raw|, THINK_CLOSE);
  }

  /** The tokens before which forcing has to start. */
  function Reserve(cfg: Config): int { if cfg.hard < Limit(cfg) then cfg.hard else Limit(cfg) }

  /** Thinking on its own, with the reserve untouched; or forcing, with exactly the
      forced tokens taken from the reserve. */
  ghost predicate Phase(cfg: Config, text: int -> string, g: Gen) {
    var remaining := Limit(cfg) - g.generated;
    g.inThink ==>
      && !Contains(g.raw)
      && (if g.forcedPos == -1 then remaining >= Reserve(cfg) && g.close.kind == NotClosed
          else 1 <= g.forcedPos < |cfg.closeTokens| && remaining == Reserve(cfg) - g.forcedPos
               && Trails(cfg, text, g.raw, g.forcedPos))
  }

  /** `raw` ends with the first `j` close tokens, and had no tag before them. */
  ghost predicate Trails(cfg: Config, text: int -> string, raw: string, j: nat)
    requires j <= |cfg.closeTokens|
  {
    exists before :: raw == before + Forced(cfg, text, j) && !Contains(before)
  }

  lemma {:induction false} TrailsNext(cfg: Config, text: int -> string, raw: string, j: nat)
    requires CloseSpelled(cfg, text) && j < |cfg.closeTokens| && Trails(cfg, text, raw, j)
    ensures var next := raw + text(cfg.closeTokens[j]);
            Trails(cfg, text, next, j + 1) && (Contains(next) <==> j + 1 == |cfg.closeTokens|)
  {
    var before :| raw == before + Forced(cfg, text, j) && !Contains(before);
    hide Contains, Spell;
    ForcedNext(cfg, text, j);
    ForcedPrefix(cfg, text, j + 1);
    var part := Forced(cfg, text, j + 1);
    assert raw + text(cfg.closeTokens[j]) == before + part;
    if j + 1 == |cfg.closeTokens| {
      assert cfg.closeTokens[..j + 1] == cfg.closeTokens;
      ClosedAtEnd(before);
    } else {
      NotYetClosed(before, part);
    }
  }

  lemma {:induction false} TrailsNone(cfg: Config, text: int -> string, raw: string)
    requires !Contains(raw)
    ensures Trails(cfg, text, raw, 0)
  {
    assert cfg.closeTokens[..0] == [] && raw == raw + "";
    assert raw == raw + Forced(cfg, text, 0);
  }

  lemma {:induction false} StepKeepsPhase(cfg: Config, w: World, g: Gen)
    requires CloseSpelled(cfg, w.text) && |cfg.closeTokens| <= Reserve(cfg)
    requires g.generated < Limit(cfg) && Phase(cfg, w.text, g)
    ensures var s := Step(cfg, w, g); s.Spent? ==> Phase(cfg, w.text, s.g)
  {
    var s := Step(cfg, w, g);
    if s.Spent? && g.inThink {
      var (chosen, kind, rank, forcedPos) := Control(cfg, w, g);
      hide Contains, Spell;
      if g.forcedPos >= 0 {
        TrailsNext(cfg, w.text, g.raw, g.forcedPos);
      } else if kind != NotClosed {
        TrailsNone(cfg, w.text, g.raw);
        TrailsNext(cfg, w.text, g.raw, 0);
      }
    }
  }

  lemma {:induction false} SpentIsClosed(cfg: Config, w: World, g: Gen)
    requires CloseSpelled(cfg, w.text) && |cfg.closeTokens| <= Reserve(cfg)
    requires g.generated <= Limit(cfg) && Phase(cfg, w.text, g)
    ensures var r := Loop(cfg, w, g); r.Spent? ==> !r.g.inThink
    decreases Limit(cfg) - g.generated
  {
    assert |cfg.closeTokens| > 0;
    hide Contains, CloseSpelled, Trails;
    if g.generated < Limit(cfg) {
      var s := Step(cfg, w, g);
      if s.Spent? {
        StepKeepsPhase(cfg, w, g);
        StepGenerates(cfg, w, g);
        SpentIsClosed(cfg, w, s.g);
      }
    }
  }

  lemma {:induction false} StepGenerates(cfg: Config, w: World, g: Gen)
    ensures var s := Step(cfg, w, g); s.Spent? ==> s.g.generated == g.generated + 1
  {
  }

  lemma {:induction false} StartPhase(cfg: Config, text: int -> string)
    requires Limit(cfg) >= 1
    ensures Phase(cfg, text, Start(cfg))
  {
    assert !Contains("");
  }

  /** A run that ends by spending its budget ends outside thinking. */
  predicate EndsOutside(cfg: Config, w: World) {
    var r := Run(cfg, w);
    r.Spent? ==> !r.g.inThink
  }

  lemma {:induction false} ReserveKept(cfg: Config, w: World)
    requires CloseSpelled(cfg, w.text) && |cfg.closeTokens| <= cfg.hard && |cfg.closeTokens| <= Limit(cfg)
    ensures EndsOutside(cfg, w)
  {
    if Limit(cfg) >= 1 {
      StartPhase(cfg, w.text);
      SpentIsClosed(cfg, w, Start(cfg));
    }
  }

  // ---- exactly when the reserve is kept ----

  /** A world whose model only ever samples `filler`, and nothing else happens. */
  function Rambling(text: int -> string, filler: int): World {
    World(text, _ => filler, _ => 0, _ => false, _ => Go)
  }

  /** A token that may be sampled and has no part in a tag. */
  predicate Filler(cfg: Config, text: int -> string, filler: int) {
    filler >= 0 && filler != cfg.eos && '<' !in text(filler)
  }

  /** Rambling goes on thinking: only filler, then forced tokens that never complete the tag. */
  ghost predicate RamblingOn(cfg: Config, text: int -> string, g: Gen) {
    var remaining := Limit(cfg) - g.generated;
    && g.inThink
    && (if g.forcedPos == -1 then remaining >= Reserve(cfg) && '<' !in g.raw
        else 1 <= g.forcedPos < |cfg.closeTokens| && remaining == Reserve(cfg) - g.forcedPos
             && TrailsFiller(cfg, text, g.raw, g.forcedPos))
  }

  ghost predicate TrailsFiller(cfg: Config, text: int -> string, raw: string, j: nat)
    requires j <= |cfg.closeTokens|
  {
    exists before :: raw == before + Forced(cfg, text, j) && '<' !in before
  }

  lemma {:induction false} NoTagNoClose(raw: string)
    requires '<' !in raw
    ensures !Contains(raw)
  {
    FindInFirst(raw, 0, |raw|, THINK_CLOSE);
    forall q: nat | q + |THINK_CLOSE| <= |raw|
      ensures !At(raw, q, THINK_CLOSE)
    {
      assert raw[q] in raw;
      NotAt(raw, q, THINK_CLOSE, 0);
    }
  }

  lemma {:induction false} FillerNext(cfg: Config, text: int -> string, raw: string, j: nat)
    requires CloseSpelled(cfg, text) && j + 1 < |cfg.closeTokens| && TrailsFiller(cfg, text, raw, j)
    ensures var next := raw + text(cfg.closeTokens[j]); TrailsFiller(cfg, text, next, j + 1) && !Contains(next)
  {
    var before :| raw == before + Forced(cfg, text, j) && '<' !in before;
    hide Contains, Spell;
    ForcedNext(cfg, text, j);
    ForcedPrefix(cfg, text, j + 1);
    NoTagNoClose(before);
    NotYetClosed(before, Forced(cfg, text, j + 1));
    assert raw + text(cfg.closeTokens[j]) == before + Forced(cfg, text, j + 1);
  }

  lemma {:induction false} RamblingStep(cfg: Config, text: int -> string, filler: int, g: Gen)
    requires CloseSpelled(cfg, text) && Filler(cfg, text, filler)
    requires Reserve(cfg) < |cfg.closeTokens| && g.generated < Limit(cfg) && RamblingOn(cfg, text, g)
    ensures var s := Step(cfg, Rambling(text, filler), g); s.Spent? && RamblingOn(cfg, text, s.g)
  {
    var w := Rambling(text, filler);
    var remaining := Limit(cfg) - g.generated;
    var j := if g.forcedPos >= 0 then g.forcedPos else 0;
    hide Contains, Spell;
    if g.forcedPos >= 0 {
      FillerNext(cfg, text, g.raw, j);
    } else if remaining <= cfg.hard {
      assert cfg.closeTokens[..0] == [] && g.raw == g.raw + Forced(cfg, text, 0) by { EmptyForced(cfg, text); }
      FillerNext(cfg, text, g.raw, 0);
    } else {
      NoTagNoClose(g.raw + text(filler));
    }
  }

  lemma {:induction false} EmptyForced(cfg: Config, text: int -> string)
    ensures Forced(cfg, text, 0) == ""
  {
    assert cfg.closeTokens[..0] == [];
  }

  lemma {:induction false} RamblingNeverCloses(cfg: Config, text: int -> string, filler: int, g: Gen)
    requires CloseSpelled(cfg, text) && Filler(cfg, text, filler)
    requires Reserve(cfg) < |cfg.closeTokens| && g.generated <= Limit(cfg) && RamblingOn(cfg, text, g)
    ensures var r := Loop(cfg, Rambling(text, filler), g); r.Spent? && r.g.inThink
    decreases Limit(cfg) - g.generated
  {
    hide Step, CloseSpelled, Rambling, Filler;
    if g.generated < Limit(cfg) {
      RamblingStep(cfg, text, filler, g);
      StepGenerates(cfg, Rambling(text, filler), g);
      RamblingNeverCloses(cfg, text, filler, Step(cfg, Rambling(text, filler), g).g);
    }
  }

  /** Whatever the model does, spending the budget ends outside thinking, if and
      only if the close tokens fit the hard limit and the generation limit. */
  lemma {:induction false} ReserveIff(cfg: Config, text: int -> string, filler: int)
    requires cfg.thinking && Limit(cfg) >= 1 && CloseSpelled(cfg, text) && Filler(cfg, text, filler)
    ensures |cfg.closeTokens| <= cfg.hard && |cfg.closeTokens| <= Limit(cfg)
            <==> forall w: World :: w.text == text ==> EndsOutside(cfg, w)
  {
    if |cfg.closeTokens| <= cfg.hard && |cfg.closeTokens| <= Limit(cfg) {
      forall w: World | w.text == text
        ensures EndsOutside(cfg, w)
      {
        ReserveKept(cfg, w);
      }
    } else {
      RamblingNeverCloses(cfg, text, filler, Start(cfg));
      assert !EndsOutside(cfg, Rambling(text, filler));
    }
  }

  // ---- where forcing starts and what it leaves ----

  /** The loop after `n` more iterations, if it gets that far. */
  function After(cfg: Config, w: World, g: Gen, n: nat): Outcome
    decreases n
  {
    if n == 0 then Spent(g)
    else
      var s := Step(cfg, w, g);
      if s.Spent? then After(cfg, w, s.g, n - 1) else s
  }

  /** The loop is these iterations, then the rest of the loop. */
  lemma {:induction false} LoopAfter(cfg: Config, w: World, g: Gen, n: nat)
    requires g.generated + n <= Limit(cfg)
    ensures var a := After(cfg, w, g, n);
            (a.Spent? ==> a.g.generated == g.generated + n && Loop(cfg, w, g) == Loop(cfg, w, a.g))
            && (!a.Spent? ==> Loop(cfg, w, g) == a)
    decreases n
  {
    hide Step;
    if n > 0 {
      StepGenerates(cfg, w, g);
      var s := Step(cfg, w, g);
      if s.Spent? {
        LoopAfter(cfg, w, s.g, n - 1);
      }
    }
  }

  lemma {:induction false} PhaseAfter(cfg: Config, w: World, g: Gen, n: nat)
    requires CloseSpelled(cfg, w.text) && |cfg.closeTokens| <= Reserve(cfg)
    requires g.generated + n <= Limit(cfg) && Phase(cfg, w.text, g)
    ensures var a := After(cfg, w, g, n); a.Spent? ==> Phase(cfg, w.text, a.g)
    decreases n
  {
    hide Step, Phase, CloseSpelled;
    if n > 0 {
      StepGenerates(cfg, w, g);
      StepKeepsPhase(cfg, w, g);
      var s := Step(cfg, w, g);
      if s.Spent? {
        PhaseAfter(cfg, w, s.g, n - 1);
      }
    }
  }

  /** Forcing, once started with `j` tokens done, emits the other close tokens in
      order and closes with the last one. */
  lemma {:induction false} ForcingRuns(cfg: Config, w: World, g: Gen, j: nat, n: nat)
    requires CloseSpelled(cfg, w.text) && |cfg.closeTokens| <= Reserve(cfg)
    requires 1 <= j < |cfg.closeTokens| && n <= |cfg.closeTokens| - j
    requires g.inThink && g.forcedPos == j && Phase(cfg, w.text, g)
    ensures Forced(cfg, w.text, j) <= Forced(cfg, w.text, j + n)
    ensures var a := After(cfg, w, g, n);
            a.Spent? ==>
              g.raw + Forced(cfg, w.text, j + n)[|Forced(cfg, w.text, j)|..] == a.g.raw
              && (a.g.inThink <==> j + n < |cfg.closeTokens|)
              && (g.close.kind != NotClosed ==> a.g.close == g.close)
    decreases n
  {
    ForcedGrows(cfg, w.text, j, n);
    if n == 0 {
      assert g.raw + "" == g.raw;
    } else {
      var s := Step(cfg, w, g);
      if s.Spent? {
        StepKeepsPhase(cfg, w, g);
        TrailsNext(cfg, w.text, g.raw, j);
        ForcedNext(cfg, w.text, j);
        ForcedGrows(cfg, w.text, j + 1, n - 1);
        hide Contains, Spell, CloseSpelled, Trails, Phase, Control;
        if j + 1 < |cfg.closeTokens| {
          ForcingRuns(cfg, w, s.g, j + 1, n - 1);
          RawGrows(g.raw, Forced(cfg, w.text, j), w.text(cfg.closeTokens[j]), Forced(cfg, w.text, j + n));
        } else {
          assert Forced(cfg, w.text, j + n)[|Forced(cfg, w.text, j)|..] == w.text(cfg.closeTokens[j]);
        }
      }
    }
  }

  lemma {:induction false} RawGrows(raw: string, done: string, piece: string, all: string)
    requires done + piece <= all
    ensures raw + piece + all[|done + piece|..] == raw + all[|done|..]
  {
    assert all[|done|..] == piece + all[|done + piece|..];
  }

  lemma {:induction false} ForcedGrows(cfg: Config, text: int -> string, j: nat, n: nat)
    requires j + n <= |cfg.closeTokens|
    ensures Forced(cfg, text, j) <= Forced(cfg, text, j + n)
  {
    if n > 0 {
      ForcedGrows(cfg, text, j, n - 1);
      ForcedNext(cfg, text, j + n - 1);
    }
  }

  /** With a budget of at least the hard limit H and no earlier close, forcing starts
      when exactly H tokens remain: it is recorded as such, the next k tokens spell
      the tag, and thinking ends with the k-th, leaving H - k. */
  lemma {:induction false} ForcedAtHardLimit(cfg: Config, w: World, n: nat)
    requires cfg.thinking && CloseSpelled(cfg, w.text) && |cfg.closeTokens| <= cfg.hard <= Limit(cfg)
    requires 1 <= n <= |cfg.closeTokens|
    ensures var before := After(cfg, w, Start(cfg), Limit(cfg) - cfg.hard);
            before.Spent? && before.g.inThink ==>
              var a := After(cfg, w, before.g, n);
              a.Spent? ==>
                a.g.raw == before.g.raw + Forced(cfg, w.text, n)
                && (a.g.inThink <==> n < |cfg.closeTokens|)
                && a.g.close == CloseInfo(Hard, Limit(cfg) - cfg.hard + 1, cfg.hard, 0)
                && Limit(cfg) - a.g.generated == cfg.hard - n
  {
    var before := After(cfg, w, Start(cfg), Limit(cfg) - cfg.hard);
    StartPhase(cfg, w.text);
    PhaseAfter(cfg, w, Start(cfg), Limit(cfg) - cfg.hard);
    LoopAfter(cfg, w, Start(cfg), Limit(cfg) - cfg.hard);
    if before.Spent? && before.g.inThink {
      FirstForced(cfg, w, before.g, n);
    }
  }

  lemma {:induction false} FirstForced(cfg: Config, w: World, g: Gen, n: nat)
    requires CloseSpelled(cfg, w.text) && |cfg.closeTokens| <= cfg.hard <= Limit(cfg)
    requires 1 <= n <= |cfg.closeTokens|
    requires g.inThink && Limit(cfg) - g.generated == cfg.hard && Phase(cfg, w.text, g)
    ensures var a := After(cfg, w, g, n);
            a.Spent? ==>
              a.g.raw == g.raw + Forced(cfg, w.text, n)
              && (a.g.inThink <==> n < |cfg.closeTokens|)
              && a.g.close == CloseInfo(Hard, g.generated + 1, cfg.hard, 0)
              && Limit(cfg) - a.g.generated == cfg.hard - n
  {
    assert g.forcedPos == -1;
    LoopAfter(cfg, w, g, n);
    var s := Step(cfg, w, g);
    if s.Spent? {
      StepKeepsPhase(cfg, w, g);
      TrailsNone(cfg, w.text, g.raw);
      TrailsNext(cfg, w.text, g.raw, 0);
      EmptyForced(cfg, w.text);
      ForcedNext(cfg, w.text, 0);
      hide Contains, Spell, Trails;
      if |cfg.closeTokens| > 1 {
        ForcingRuns(cfg, w, s.g, 1, n - 1);
        ForcedGrows(cfg, w.text, 1, n - 1);
        RawGrows(g.raw, "", w.text(cfg.closeTokens[0]), Forced(cfg, w.text, n));
      }
    }
  }
}
