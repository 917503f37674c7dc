/** The evaluator's trace file: what it writes for each case. Metadata are plain
    lines; the two prompts and the model output are blocks that declare their
    length, so that they may hold any text. A record has every field that the
    evaluator prints, already formatted. */
module Trace {
  import opened CText

  const CASE_MARKER := "===== CASE "
  const BEGIN_BYTES := "_BEGIN bytes="
  const OUTPUT_BEGIN := "MODEL_OUTPUT_BEGIN"
  const OUTPUT_END := "MODEL_OUTPUT_END"
  const MAX_CHOICES := 10

  /** One entry of the embedded question table; `choices` holds the non-null ones. */
  datatype EvalCase = EvalCase(source: string, id: string, domain: string, title: string,
                               question: string, choices: seq<string>, answer: string)

  /** The arguments of trace_write_case. Numbers that only pass through printf
      (times, sampling parameters, token counts) are given as printed. */
  datatype Record = Record(idx: nat, ncases: nat, tc: EvalCase, status: string, error: string,
                           system: string, question: string, output: string, picked: string,
                           timestamp: string, promptTokens: string, generatedTokens: string,
                           elapsed: string, temperature: string, topP: string, minP: string,
                           thinkMode: string, close: Close)

  datatype Close = NoClose | Closed(kind: string, tokenIndex: string, remaining: string, rank: string)

  // ---- writing ----

  function Block(tag: string, text: string): string {
    tag + BEGIN_BYTES + Dec(|text|) + "\n" + Framed(text) + tag + "_END\n"
  }

  /** The counted text, with a line feed added when it does not end in one. */
  function Framed(text: string): string {
    if text != "" && text[|text| - 1] != '\n' then text + "\n" else text
  }

  function Header(r: Record): string {
    CASE_MARKER + Dec(r.idx + 1) + "/" + Dec(r.ncases) + " " + r.tc.source + "/" + r.tc.id + " ====="
  }

  function HeadLines(r: Record): seq<string> {
    ["timestamp_unix: " + r.timestamp,
     "source: " + r.tc.source,
     "id: " + r.tc.id,
     "domain: " + r.tc.domain,
     "title: " + r.tc.title,
     "status: " + r.status,
     "picked: " + (if r.picked == "" then "?" else r.picked),
     "expected: " + r.tc.answer,
     "prompt_tokens: " + r.promptTokens,
     "generated_tokens: " + r.generatedTokens,
     "elapsed_sec: " + r.elapsed,
     "temperature: " + r.temperature,
     "top_p: " + r.topP,
     "min_p: " + r.minP,
     "think_mode_effective: " + r.thinkMode]
  }

  function CloseLines(c: Close): seq<string> {
    match c
    case NoClose => ["think_close: none"]
    case Closed(kind, tokenIndex, remaining, rank) =>
      ["think_close: " + kind,
       "think_close_token_index: " + tokenIndex,
       "think_close_remaining_budget: " + remaining,
       "think_close_rank: " + rank]
  }

  function ChoiceLine(choices: seq<string>, i: nat): string
    requires i < |choices| <= MAX_CHOICES
  { "  " + [('A' as int + i) as char] + ". " + choices[i] }

  function ChoiceLines(choices: seq<string>): seq<string>
    requires |choices| <= MAX_CHOICES
  { seq(|choices|, i requires 0 <= i < |choices| => ChoiceLine(choices, i)) }

  function ChoicePart(choices: seq<string>): seq<string>
    requires |choices| <= MAX_CHOICES
  { if choices != [] then ["choices:"] + ChoiceLines(choices) else ["answer_kind: exact_integer"] }

  function ErrorPart(error: string): seq<string> {
    if error == "" then [] else ["error: " + error]
  }

  function MetaLines(r: Record): seq<string>
    requires |r.tc.choices| <= MAX_CHOICES
  { HeadLines(r) + CloseLines(r.close) + ErrorPart(r.error) + ChoicePart(r.tc.choices) }

  /** Each line followed by a line feed. */
  function Lines(ls: seq<string>): string {
    if ls == [] then "" else ls[0] + "\n" + Lines(ls[1..])
  }

  function Blocks(r: Record): string {
    Block("SYSTEM_PROMPT", r.system) + Block("QUESTION_PROMPT", r.question) + Block("MODEL_OUTPUT", r.output)
  }

  function CaseText(r: Record): string
    requires |r.tc.choices| <= MAX_CHOICES
  { (Header(r) + "\n" + Lines(MetaLines(r))) + (Blocks(r) + "\n") }

  lemma {:induction false} LinesAppend(a: seq<string>, b: seq<string>)
    ensures Lines(a + b) == Lines(a) + Lines(b)
  {
    if a == [] {
      assert a + b == b;
    } else {
      assert (a + b)[1..] == a[1..] + b;
      LinesAppend(a[1..], b);
    }
  }

  lemma {:induction false} Regroup(a: string, b: string, c: string, d: string, e: string)
    ensures a + b + c + d + e == a + (b + c + d + e)
    ensures a + b + c == a + (b + c)
  {
  }

  lemma {:induction false} LinesSnoc(ls: seq<string>, l: string)
    ensures Lines(ls + [l]) == Lines(ls) + (l + "\n")
  {
    LinesAppend(ls, [l]);
    assert Lines([l]) == l + "\n" + Lines([]);
  }

  /** The open trace file. */
  class TraceFile {
    var out: string

    constructor ()
      ensures out == ""
    {
      out := "";
    }

    method WriteBlock(tag: string, text: string)
      modifies this
      ensures out == old(out) + Block(tag, text)
    {
      var len := |text|;
      var line := tag + BEGIN_BYTES + Dec(len) + "\n";
      var body := "";
      if len != 0 {
        body := text;
        if text[len - 1] != '\n' {
          body := body + "\n";
        }
      }
      out := out + (line + body + tag + "_END\n");
    }

    /** The "choices:" list, or the answer kind when there are no choices. */
    method WriteChoices(choices: seq<string>)
      requires |choices| <= MAX_CHOICES
      modifies this
      ensures out == old(out) + Lines(ChoicePart(choices))
    {
      var nchoices := |choices|;
      if nchoices > 0 {
        out := out + "choices:\n";
        ghost var cl := ChoiceLines(choices);
        assert Lines(["choices:"]) == "choices:" + "\n" + Lines([]);
        for i := 0 to nchoices
          invariant out == old(out) + Lines(["choices:"] + cl[..i])
        {
          assert ["choices:"] + cl[..i + 1] == (["choices:"] + cl[..i]) + [cl[i]];
          LinesSnoc(["choices:"] + cl[..i], cl[i]);
          out := out + ("  " + [('A' as int + i) as char] + ". " + choices[i] + "\n");
        }
        assert cl[..nchoices] == cl;
      } else {
        out := out + "answer_kind: exact_integer\n";
        assert Lines(["answer_kind: exact_integer"]) == "answer_kind: exact_integer" + "\n" + Lines([]);
      }
    }

    /** The unframed lines of a case: its header and metadata. */
    method WriteMeta(header: string, head: seq<string>, error: string, choices: seq<string>)
      requires |choices| <= MAX_CHOICES
      modifies this
      ensures out == old(out) + (header + "\n" + Lines(head + ErrorPart(error) + ChoicePart(choices)))
    {
      hide Lines, ChoicePart;
      var before := header + "\n";
      out := out + (before + Lines(head));
      ghost var meta := head + ErrorPart(error);
      if error != "" {
        var line := "error: " + error;
        LinesSnoc(head, line);
        Regroup(before, Lines(head), line + "\n", "", "");
        Regroup(old(out), before + Lines(head), line + "\n", "", "");
        out := out + (line + "\n");
      } else {
        assert meta == head;
      }
      assert out == old(out) + (before + Lines(meta));
      LinesAppend(meta, ChoicePart(choices));
      Regroup(before, Lines(meta), Lines(ChoicePart(choices)), "", "");
      Regroup(old(out), before + Lines(meta), Lines(ChoicePart(choices)), "", "");
      WriteChoices(choices);
    }

    method WriteBlocks(system: string, question: string, output: string)
      modifies this
      ensures out == old(out) + (Block("SYSTEM_PROMPT", system) + Block("QUESTION_PROMPT", question)
                                 + Block("MODEL_OUTPUT", output) + "\n")
    {
      WriteBlock("SYSTEM_PROMPT", system);
      WriteBlock("QUESTION_PROMPT", question);
      WriteBlock("MODEL_OUTPUT", output);
      out := out + "\n";
      Regroup(old(out), Block("SYSTEM_PROMPT", system), Block("QUESTION_PROMPT", question),
              Block("MODEL_OUTPUT", output), "\n");
    }

    method WriteCase(r: Record)
      requires |r.tc.choices| <= MAX_CHOICES
      modifies this
      ensures out == old(out) + CaseText(r)
    {
      WriteMeta(Header(r), HeadLines(r) + CloseLines(r.close), r.error, r.tc.choices);
      WriteBlocks(r.system, r.question, r.output);
      Regroup(old(out), Header(r) + "\n" + Lines(MetaLines(r)), Blocks(r) + "\n", "", "");
    }
  }
}
