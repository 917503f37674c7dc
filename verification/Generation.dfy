/** The generation loop of one case: sampling under a token budget, and the
    controller that closes a run of thinking in time to leave room for an answer. */
module Generation {
  import opened CText


  datatype Signal = Go | Quit | Switch

  /** What the loop cannot foresee, step by step: the sampled token, the rank of
      the close token among the likeliest (0: not among them), a decode failure,
      and what the user asks for. `text` is the tokenizer. */
  datatype World = World(text: int -> string, sample: nat -> int, rank: nat -> nat,
                         fails: nat -> bool, user: nat -> Signal)

  datatype Config = Config(maxTokens: int, ctx: int, promptTokens: nat, hard: int, soft: int,
                           thinking: bool, closeTokens: seq<int>, eos: int)

  datatype Kind = NotClosed | Natural | Soft | Hard

  datatype CloseInfo = CloseInfo(kind: Kind, tokenIndex: int, remaining: int, rank: int)

  /** `forcedPos` is the next close token to force, or -1. */
  datatype Gen = Gen(generated: nat, raw: string, inThink: bool, forcedPos: int, close: CloseInfo)

  datatype Outcome =
    | Skipped
    | Spent(g: Gen)
    | Ended(g: Gen)
    | Failed(g: Gen)
    | Interrupted(g: Gen, signal: Signal)

  /** generation_limit: the budget, or what the context leaves. */
  function Limit(cfg: Config): int {
    if cfg.ctx - cfg.promptTokens < cfg.maxTokens then cfg.ctx - cfg.promptTokens else cfg.maxTokens
  }

  function Start(cfg: Config): Gen { Gen(0, "", cfg.thinking, -1, CloseInfo(NotClosed, 0, 0, 0)) }

  // ---- one step ----

  /** The controller's choice: the token (-1: sample one), the close it records, the
      close token's rank, and the next forced position. */
  function Control(cfg: Config, w: World, g: Gen): (int, Kind, int, int) {
    var remaining := Limit(cfg) - g.generated;
    var k := |cfg.closeTokens|;
    if !g.inThink || k == 0 then (-1, NotClosed, 0, g.forcedPos)
    else if 0 <= g.forcedPos < k then
      (cfg.closeTokens[g.forcedPos], NotClosed, 0, if g.forcedPos + 1 >= k then -1 else g.forcedPos + 1)
    else if remaining <= cfg.hard then (cfg.closeTokens[0], Hard, 0, if k > 1 then 1 else -1)
    else if remaining <= cfg.soft && k == 1 && w.rank(g.generated) > 0 then
      (cfg.closeTokens[0], Soft, w.rank(g.generated), g.forcedPos)
    else (-1, NotClosed, 0, g.forcedPos)
  }

  function Contains(raw: string): bool { FindIn(raw, 0, |raw|, THINK_CLOSE).Some? }

  /** The state after a token has been decoded. */
  function Decoded(g: Gen, piece: string, remaining: int): Gen {
    var raw := g.raw + piece;
    var next := g.(generated := g.generated + 1, raw := raw);
    if g.inThink && Contains(raw) then
      next.(inThink := false,
            close := if g.close.kind == NotClosed then CloseInfo(Natural, g.generated + 1, remaining, 0) else g.close)
    else next
  }

  /** One iteration; `Spent` here only means that the loop goes on. */
  function Step(cfg: Config, w: World, g: Gen): Outcome {
    var i := g.generated;
    if w.user(i) != Go then Interrupted(g, w.user(i))
    else
      var remaining := Limit(cfg) - g.generated;
      var (chosen, kind, rank, forcedPos) := Control(cfg, w, g);
      var token := if chosen < 0 then w.sample(i) else chosen;
      var g1 := g.(forcedPos := forcedPos);
      if token == cfg.eos then Ended(g1)
      else
        var g2 := if kind != NotClosed && g1.close.kind == NotClosed then
                    g1.(close := CloseInfo(kind, g.generated + 1, remaining, rank))
                  else g1;
        if w.fails(i) then Failed(g2) else Spent(Decoded(g2, w.text(token), remaining))
  }

  /** The loop from `g` on. */
  function Loop(cfg: Config, w: World, g: Gen): Outcome
    decreases Limit(cfg) - g.generated
  {
    if g.generated >= Limit(cfg) then Spent(g)
    else
      var s := Step(cfg, w, g);
      if s.Spent? then Loop(cfg, w, s.g) else s
  }

  /** run_one_case, from prompt to the end of the generation loop. */
  function Run(cfg: Config, w: World): Outcome {
    if Limit(cfg) < 1 then Skipped else Loop(cfg, w, Start(cfg))
  }

  method Controller(cfg: Config, w: World, g: Gen) returns (token: int, kind: Kind, closeRank: int, forcedPos: int)
    ensures (token, kind, closeRank, forcedPos) == Control(cfg, w, g)
    // a close is started only while thinking and not already forcing: at the hard limit, or
    // within the soft limit by a single token that is likely enough
    ensures var due := g.inThink && cfg.closeTokens != [] && !(0 <= g.forcedPos < |cfg.closeTokens|);
            var remaining := Limit(cfg) - g.generated;
            && (kind == Hard <==> due && remaining <= cfg.hard)
            && (kind == Soft <==> due && cfg.hard < remaining <= cfg.soft && |cfg.closeTokens| == 1 && w.rank(g.generated) > 0)
            && kind != Natural
    ensures kind != NotClosed ==> token == cfg.closeTokens[0] && closeRank == if kind == Soft then w.rank(g.generated) else 0
    // once started it goes on with the next close token; otherwise the choice is the sampler's
    ensures kind == NotClosed ==>
              token == if g.inThink && 0 <= g.forcedPos < |cfg.closeTokens| then cfg.closeTokens[g.forcedPos] else -1
    // within the hard limit no token is left to the sampler while thinking goes on
    ensures g.inThink && cfg.closeTokens != [] && Limit(cfg) - g.generated <= cfg.hard ==> token in cfg.closeTokens
  {
    token, kind, closeRank, forcedPos := -1, NotClosed, 0, g.forcedPos;
    var remaining := Limit(cfg) - g.generated;
    if g.inThink && |cfg.closeTokens| > 0 {
      if 0 <= forcedPos < |cfg.closeTokens| {
        token := cfg.closeTokens[forcedPos];
        forcedPos := forcedPos + 1;
        if forcedPos >= |cfg.closeTokens| {
          forcedPos := -1;
        }
      } else if remaining <= cfg.hard {
        kind := Hard;
        token := cfg.closeTokens[0];
        forcedPos := if |cfg.closeTokens| > 1 then 1 else -1;
      } else if remaining <= cfg.soft && |cfg.closeTokens| == 1 {
        var rank := w.rank(g.generated);
        if rank > 0 {
          kind := Soft;
          closeRank := rank;
          token := cfg.closeTokens[0];
        }
      }
    }
  }

  method RunOneCase(cfg: Config, w: World) returns (r: Outcome)
    ensures r == Run(cfg, w)
  {
    hide Contains, Control;
    if cfg.promptTokens >= cfg.ctx {
      return Skipped;
    }
    var limit := cfg.maxTokens;
    var room := cfg.ctx - cfg.promptTokens;
    if room < limit {
      limit := room;
    }
    if limit < 1 {
      return Skipped;
    }
    var generated: nat, raw, inThink := 0, "", cfg.thinking;
    var close := CloseInfo(NotClosed, 0, 0, 0);
    var forcedPos := -1;
    var i := 0;
    while i < limit
      invariant 0 <= i == generated <= limit == Limit(cfg)
      invariant Run(cfg, w) == Loop(cfg, w, Gen(generated, raw, inThink, forcedPos, close))
    {
      var g := Gen(generated, raw, inThink, forcedPos, close);
      var signal := w.user(i);
      if signal != Go {
        return Interrupted(Gen(generated, raw, inThink, forcedPos, close), signal);
      }
      var remaining := limit - generated;
      var token, kind, closeRank;
      token, kind, closeRank, forcedPos := Controller(cfg, w, g);
      if token < 0 {
        token := w.sample(i);
      }
      if token == cfg.eos {
        return Ended(Gen(generated, raw, inThink, forcedPos, close));
      }
      if kind != NotClosed && close.kind == NotClosed {
        close := CloseInfo(kind, generated + 1, remaining, closeRank);
      }
      if w.fails(i) {
        return Failed(Gen(generated, raw, inThink, forcedPos, close));
      }
      raw := raw + w.text(token);
      generated := generated + 1;
      if inThink && Contains(raw) {
        inThink := false;
        if close.kind == NotClosed {
          close := CloseInfo(Natural, generated, remaining, 0);
        }
      }
      i := i + 1;
    }
    return Spent(Gen(generated, raw, inThink, forcedPos, close));
  }

  // ---- budget and the recorded close ----

  /** The record of the close is made at most once, and truthful about the budget. */
  predicate CloseRecorded(cfg: Config, c: CloseInfo) {
    match c.kind
    case NotClosed => c == CloseInfo(NotClosed, 0, 0, 0)
    case Natural => 1 <= c.tokenIndex && c.remaining == Limit(cfg) - c.tokenIndex + 1 && c.rank == 0
    case Soft => c.rank > 0 && cfg.hard < c.remaining <= cfg.soft && c.remaining == Limit(cfg) - c.tokenIndex + 1
    case Hard => c.remaining <= cfg.hard && c.remaining == Limit(cfg) - c.tokenIndex + 1 && c.rank == 0
  }

  lemma {:induction false} LoopKeeps(cfg: Config, w: World, g: Gen)
    requires g.generated <= Limit(cfg) && CloseRecorded(cfg, g.close)
    ensures var r := Loop(cfg, w, g);
            !r.Skipped? && g.generated <= r.g.generated <= Limit(cfg) && CloseRecorded(cfg, r.g.close)
            && (g.close.kind != NotClosed ==> r.g.close == g.close)
            && (r.Spent? ==> r.g.generated == Limit(cfg))
    decreases Limit(cfg) - g.generated
  {
    hide Contains;
    if g.generated < Limit(cfg) {
      var s := Step(cfg, w, g);
      if s.Spent? {
        LoopKeeps(cfg, w, s.g);
      }
    }
  }

  /** Prompt and generated tokens never exceed the context, whatever happens; one
      close at most is recorded, with the budget it claims. */
  lemma {:induction false} RunWithinContext(cfg: Config, w: World)
    ensures var r := Run(cfg, w);
            !r.Skipped? ==>
              cfg.promptTokens + r.g.generated <= cfg.ctx && r.g.generated <= cfg.maxTokens
              && CloseRecorded(cfg, r.g.close)
  {
    if Limit(cfg) >= 1 {
      LoopKeeps(cfg, w, Start(cfg));
    }
  }
}
