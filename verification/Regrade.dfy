/** Regrading a trace file: every case is found again, its model output is graded
    afresh, and the verdict is compared with the one in the trace. */
module Regrade {
  import opened CText
  import opened Trace
  import opened TraceReader
  import opened TraceRoundTrip
  import opened Answers

  const SOURCE_MAX := 64
  const ID_MAX := 128
  const STATUS_MAX := 32

  datatype Totals = Totals(total: nat, passed: nat, failed: nat, changed: nat, unknown: nat, parseErrors: nat)

  // ---- what regrading computes ----

  /** find_eval_case_by_source_id: the first entry with this source and id. */
  function FindCase(table: seq<EvalCase>, source: string, id: string): Option<EvalCase> {
    if table == [] then None
    else if table[0].source == source && table[0].id == id then Some(table[0])
    else FindCase(table[1..], source, id)
  }

  /** The fresh verdict on a case, counted, and compared with the traced one. */
  function Judge(tc: EvalCase, output: string, status: string, pick: string, tot: Totals): Totals {
    var got := CaseAnswer(tc, output);
    var ok := AnswerMatches(tc, got);
    var differs := (status != "" && ok != (status == "PASSED")) || (pick != "" && got != pick);
    tot.(passed := tot.passed + (if ok then 1 else 0), failed := tot.failed + (if ok then 0 else 1),
         changed := tot.changed + (if differs then 1 else 0))
  }

  function FieldOr(f: Option<string>): string { if f.Some? then f.value else "" }

  /** What one case span adds to the totals. */
  function RegradeSpan(table: seq<EvalCase>, t: string, c: nat, e: nat, before: Totals): Totals
    requires c <= e <= |t|
  {
    var tot := before.(total := before.total + 1);
    var source := LineField(t, c, e, "source: ", SOURCE_MAX);
    var id := LineField(t, c, e, "id: ", ID_MAX);
    if source.None? || id.None? then tot.(parseErrors := tot.parseErrors + 1)
    else
      var tc := FindCase(table, source.value, id.value);
      var output := ModelOutput(t, c, e);
      if tc.None? then tot.(unknown := tot.unknown + 1)
      else if output.None? then tot.(parseErrors := tot.parseErrors + 1)
      else
        var status := FieldOr(LineField(t, c, e, "status: ", STATUS_MAX));
        var pick := FieldOr(LineField(t, c, e, "picked: ", ANSWER_MAX));
        Judge(tc.value, output.value, status, pick, tot)
  }

  predicate InRange(spans: seq<(nat, nat)>, end: nat) {
    spans == [] || (spans[0].0 <= spans[0].1 <= end && InRange(spans[1..], end))
  }

  function RegradeSpans(table: seq<EvalCase>, t: string, spans: seq<(nat, nat)>, tot: Totals): Totals
    requires InRange(spans, |t|)
  {
    if spans == [] then tot
    else RegradeSpans(table, t, spans[1..], RegradeSpan(table, t, spans[0].0, spans[0].1, tot))
  }

  lemma {:induction false} SpansInRange(t: string, p: nat)
    requires p <= |t|
    ensures InRange(CaseSpans(t, p), |t|)
    decreases |t| - p
  {
    var c := NextCase(t, p, |t|);
    if c.Some? {
      var next := NextCase(t, NextLine(t, c.value, |t|), |t|);
      var e := if next.Some? then next.value else |t|;
      SpansInRange(t, e);
      assert CaseSpans(t, p)[1..] == CaseSpans(t, e);
    }
  }

  /** regrade_trace_file on the text of the file. */
  function Regraded(table: seq<EvalCase>, t: string): Totals {
    SpansInRange(t, 0);
    RegradeSpans(table, t, CaseSpans(t, 0), Totals(0, 0, 0, 0, 0, 0))
  }

  // ---- the loop ----

  method FindEvalCase(table: seq<EvalCase>, source: string, id: string) returns (r: Option<EvalCase>)
    ensures r == FindCase(table, source, id)
  {
    for i := 0 to |table|
      invariant FindCase(table, source, id) == FindCase(table[i..], source, id)
    {
      if table[i].source == source && table[i].id == id {
        return Some(table[i]);
      }
      assert table[i..][1..] == table[i + 1..];
    }
    return None;
  }

  method RegradeOne(table: seq<EvalCase>, t: string, c: nat, e: nat, before: Totals) returns (tot: Totals)
    requires c <= e <= |t|
    ensures tot == RegradeSpan(table, t, c, e, before)
  {
    hide LineField, ModelOutput, CaseAnswer, AnswerMatches, FindCase;
    tot := before.(total := before.total + 1);
    var source := GetLineField(t, c, e, "source: ", SOURCE_MAX);
    var id := GetLineField(t, c, e, "id: ", ID_MAX);
    if source.None? || id.None? {
      return tot.(parseErrors := tot.parseErrors + 1);
    }
    var status := GetLineField(t, c, e, "status: ", STATUS_MAX);
    var pick := GetLineField(t, c, e, "picked: ", ANSWER_MAX);
    var tc := FindEvalCase(table, source.value, id.value);
    if tc.None? {
      return tot.(unknown := tot.unknown + 1);
    }
    var output := CopyModelOutput(t, c, e);
    if output.None? {
      return tot.(parseErrors := tot.parseErrors + 1);
    }
    var got, ok := GradeCase(tc.value, output.value);
    if ok {
      tot := tot.(passed := tot.passed + 1);
    } else {
      tot := tot.(failed := tot.failed + 1);
    }
    var tracedStatus, tracedPick := FieldOr(status), FieldOr(pick);
    var tracedOk := tracedStatus == "PASSED";
    if (tracedStatus != "" && ok != tracedOk) || (tracedPick != "" && got != tracedPick) {
      tot := tot.(changed := tot.changed + 1);
    }
  }

  method RegradeTraceFile(table: seq<EvalCase>, t: string) returns (tot: Totals, exitCode: int)
    ensures tot == Regraded(table, t)
    ensures exitCode == 0 || exitCode == 1
    ensures exitCode == 0 <==> tot.unknown == 0 && tot.parseErrors == 0 && tot.total > 0
  {
    hide RegradeSpan, NextCase, NextLine;
    tot := Totals(0, 0, 0, 0, 0, 0);
    var start := 0;
    SpansInRange(t, 0);
    while true
      invariant start <= |t|
      invariant InRange(CaseSpans(t, start), |t|)
      invariant RegradeSpans(table, t, CaseSpans(t, start), tot) == Regraded(table, t)
      decreases |t| - start
    {
      var caseStart := FindNextCase(t, start, |t|);
      if caseStart.None? {
        break;
      }
      var c := caseStart.value;
      var next := FindNextCase(t, NextLine(t, c, |t|), |t|);
      var caseEnd := if next.Some? then next.value else |t|;
      SpansInRange(t, caseEnd);
      assert CaseSpans(t, start)[1..] == CaseSpans(t, caseEnd);
      tot := RegradeOne(table, t, c, caseEnd, tot);
      start := caseEnd;
    }
    exitCode := if tot.unknown > 0 || tot.parseErrors > 0 || tot.total == 0 then 1 else 0;
  }
}
