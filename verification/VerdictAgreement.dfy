/** The two graders give a compliant answer line the same verdict. */
module VerdictAgreement {
  import opened CText
  import opened LineSpec
  import opened SpecItems
  import opened Trace
  import opened Answers
  import opened AnswerAgreement
  import opened SpecAgreement
  import Py = PyGrader

  /** The case as the runner's request carries it. */
  function MetaOf(tc: EvalCase): Py.Meta { Py.Meta(tc.source, tc.choices, tc.answer) }

  /** Both extract an answer from the text, the same one, and judge it alike. */
  predicate SameGrade(tc: EvalCase, text: string) {
    var meta := MetaOf(tc);
    && Py.Extract(meta, text) == Some(CaseAnswer(tc, text))
    && AnswerMatches(tc, CaseAnswer(tc, text)) == Py.Accepts(meta, CaseAnswer(tc, text))
  }

  lemma {:induction false} LetterVerdict(tc: EvalCase, pre: string, c: char, tail: string)
    requires tc.choices != [] && |tc.choices| <= MAX_CHOICES
    requires EndsLine(pre) && Blank(tail) && Choice(c, |tc.choices|)
    ensures SameGrade(tc, Output(pre, [c], tail))
  {
    LetterLineDecides(pre, c, tail, |tc.choices|);
    hide Output, LetterAnswer, Py.LetterAnswer;
  }

  /** The key of an integer case: digits that fit the buffer once normalised. */
  predicate IntegerKey(key: string) { key != "" && AllDigits(key) && |Dec(Value(key))| < ANSWER_MAX }

  lemma {:induction false} IntegerVerdict(tc: EvalCase, pre: string, digits: string, tail: string)
    requires tc.choices == [] && tc.source != COMPSEC && IntegerKey(tc.answer)
    requires EndsLine(pre) && Blank(tail) && |digits| <= 152 && IntegerKey(digits)
    ensures SameGrade(tc, Output(pre, digits, tail))
  {
    IntegerLineDecides(pre, digits, tail);
    StripIsDec(tc.answer);
    hide Output, IntegerAnswer, Py.IntegerAnswer, StripZeros, Dec, Value;
  }

  lemma {:induction false} SpecVerdict(tc: EvalCase, key: seq<Item>, pre: string, items: seq<Item>, tail: string)
    requires tc.choices == [] && tc.source == COMPSEC
    requires GoodItems(key) && key != [] && tc.answer == CompactAll(key)
    requires EndsLine(pre) && Blank(tail) && GoodItems(items) && items != [] && |SpelledAll(items)| <= 152
    requires |CompactAll(items)| < ANSWER_MAX && InArray(CompactAll(items))
    ensures SameGrade(tc, Output(pre, SpelledAll(items), tail))
  {
    SpecLineDecides(pre, items, tail);
    GradersAgree(key, items);
    hide Output, CompsecAnswer, Py.LineSpecAnswer, SpelledAll, CompactAll, SpecMatches, Py.SpecAccepts, GoodItems, InArray;
  }
}
