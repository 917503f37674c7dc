/** Live grading of a queued batch: answers are recorded as poll events announce
    them, and the rest is filled in from the final collect. */
module LiveGrading {
  /** One row of a collect reply: the id it carries ("" when it has none, and whether its
      result then lacks the field altogether), the output text, the token count. */
  datatype Row = Row(id: string, absent: bool, text: string, tokens: int)

  /** A poll event, with the row a collect for its id would return at that moment. */
  datatype Event = Event(id: string, isDelta: bool, terminal: bool, reply: Row)

  /** One poll reply, and what the status check after it finds. */
  datatype Poll = Poll(events: seq<Event>, batchDone: bool, timedOut: bool)

  /** A recorded answer with the running totals attached to it. */
  datatype Record = Record(id: string, passed: bool, tokens: int,
                           cumCompleted: nat, cumPassed: nat, cumTokens: int)

  /** How a text is graded for a request id, and when low accuracy stops the run. */
  datatype World = World(passes: (string, string) -> bool, abort: (nat, nat) -> bool)

  datatype Live = Live(pending: set<string>, answers: seq<Record>, answered: set<string>, passed: nat, tokens: int)

  /** Done: nothing is pending any more. BatchEnded: the status check found the batch
      terminal first. Polling: the replies of this run are used up. */
  datatype Outcome = Done | BatchEnded | Aborted | TimedOut | Polling

  // ---- the bookkeeping as functions ----

  function NewLive(requests: set<string>): Live { Live(requests, [], {}, 0, 0) }

  /** _answer_record: graded with the metadata of the id asked for, labelled with the id of the row. */
  function Graded(w: World, asked: string, row: Row): Record {
    Record(row.id, w.passes(asked, row.text), row.tokens, 0, 0, 0)
  }

  function Append(s: Live, rec: Record): Live {
    var passed := s.passed + (if rec.passed then 1 else 0);
    var tokens := s.tokens + rec.tokens;
    var kept := rec.(cumCompleted := |s.answers| + 1, cumPassed := passed, cumTokens := tokens);
    Live(s.pending - {rec.id}, s.answers + [kept], s.answered + {rec.id}, passed, tokens)
  }

  /** An event that records an answer. */
  predicate Counts(s: Live, e: Event) { e.id in s.pending && !e.isDelta && e.terminal }

  function Handle(w: World, s: Live, events: seq<Event>): (Live, Outcome)
    decreases |events|
  {
    if events == [] then (s, Done)
    else if !Counts(s, events[0]) then Handle(w, s, events[1..])
    else
      var next := Append(s, Graded(w, events[0].id, events[0].reply));
      if w.abort(|next.answers|, next.passed) then (next, Aborted) else Handle(w, next, events[1..])
  }

  /** _poll_live_answers over the polls of one run. */
  function PollAll(w: World, s: Live, polls: seq<Poll>): (Live, Outcome)
    decreases |polls|
  {
    if s.pending == {} then (s, Done)
    else if polls == [] then (s, Polling)
    else
      var (next, out) := Handle(w, s, polls[0].events);
      if out != Done then (next, out)
      else if next.pending != {} && polls[0].batchDone then (next.(pending := {}), BatchEnded)
      else if next.pending != {} && polls[0].timedOut then (next, TimedOut)
      else PollAll(w, next, polls[1..])
  }

  /** The rows of a collect by id: a dict keeps the place of the first row and the
      value of the last one. */
  function IdsOf(rows: seq<Row>): seq<string> {
    if rows == [] then []
    else
      var ids, last := IdsOf(rows[..|rows| - 1]), rows[|rows| - 1].id;
      if last == "" || last in ids then ids else ids + [last]
  }

  function RowOf(rows: seq<Row>): map<string, Row> {
    if rows == [] then map[]
    else
      var m, last := RowOf(rows[..|rows| - 1]), rows[|rows| - 1];
      if last.id == "" then m else m[last.id := last]
  }

  function FillFrom(w: World, s: Live, ids: seq<string>, row: map<string, Row>): Live
    requires forall i :: 0 <= i < |ids| ==> ids[i] in row
    decreases |ids|
  {
    if ids == [] then s
    else if ids[0] in s.answered then FillFrom(w, s, ids[1..], row)
    else FillFrom(w, Append(s, Graded(w, ids[0], row[ids[0]])), ids[1..], row)
  }

  lemma {:induction false} IdsHaveRows(rows: seq<Row>)
    ensures forall i :: 0 <= i < |IdsOf(rows)| ==> IdsOf(rows)[i] in RowOf(rows)
    ensures forall id :: id in RowOf(rows) <==> id in IdsOf(rows)
    ensures forall id :: id in RowOf(rows) ==> RowOf(rows)[id].id == id && id != ""
  {
    if rows != [] {
      IdsHaveRows(rows[..|rows| - 1]);
    }
  }

  /** _backfill_state: the totals recomputed from the answers. */
  function BackfillStart(s: Live): Live { s.(pending := {}, passed := CountPassed(s.answers), tokens := SumTokens(s.answers)) }

  function Backfill(w: World, s: Live, rows: seq<Row>): Live {
    IdsHaveRows(rows);
    FillFrom(w, BackfillStart(s), IdsOf(rows), RowOf(rows))
  }

  function CountPassed(answers: seq<Record>): nat {
    if answers == [] then 0
    else CountPassed(answers[..|answers| - 1]) + (if answers[|answers| - 1].passed then 1 else 0)
  }

  function SumTokens(answers: seq<Record>): int {
    if answers == [] then 0 else SumTokens(answers[..|answers| - 1]) + answers[|answers| - 1].tokens
  }

  datatype Grade = Grade(total: nat, passed: nat, tokens: int)

  /** A row whose result lacks the id is looked up under the text of Python's None. */
  function LookupId(row: Row): string { if row.id == "" && row.absent then "None" else row.id }

  /** grade_collect */
  function GradeCollect(w: World, rows: seq<Row>): Grade {
    if rows == [] then Grade(0, 0, 0)
    else
      var g, last := GradeCollect(w, rows[..|rows| - 1]), rows[|rows| - 1];
      Grade(g.total + 1, g.passed + (if w.passes(LookupId(last), last.text) then 1 else 0), g.tokens + last.tokens)
  }

  // ---- the runner's state ----

  class LiveState {
    var pending: set<string>
    var answers: seq<Record>
    var answeredIds: set<string>
    var passed: nat
    var tokens: int

    ghost function State(): Live
      reads this
    { Live(pending, answers, answeredIds, passed, tokens) }

    constructor (requests: set<string>)
      ensures State() == NewLive(requests)
    {
      pending, answers, answeredIds, passed, tokens := requests, [], {}, 0, 0;
    }

    method AppendAnswer(rec: Record)
      modifies this
      ensures State() == Append(old(State()), rec)
    {
      var kept := rec;
      answeredIds := answeredIds + {rec.id};
      pending := pending - {rec.id};
      passed := passed + (if rec.passed then 1 else 0);
      tokens := tokens + rec.tokens;
      kept := kept.(cumCompleted := |answers| + 1, cumPassed := passed, cumTokens := tokens);
      answers := answers + [kept];
    }

    method HandlePollEvents(w: World, events: seq<Event>) returns (out: Outcome)
      modifies this
      ensures (State(), out) == Handle(w, old(State()), events)
    {
      for i := 0 to |events|
        invariant Handle(w, old(State()), events) == Handle(w, State(), events[i..])
      {
        var event := events[i];
        assert events[i..][0] == event && events[i..][1..] == events[i + 1..];
        if event.id !in pending || event.isDelta || !event.terminal {
          continue;
        }
        AppendAnswer(Graded(w, event.id, event.reply));
        if w.abort(|answers|, passed) {
          return Aborted;
        }
      }
      return Done;
    }

    method PollLiveAnswers(w: World, polls: seq<Poll>) returns (out: Outcome)
      modifies this
      ensures (State(), out) == PollAll(w, old(State()), polls)
    {
      var i := 0;
      while pending != {} && i < |polls|
        invariant i <= |polls|
        invariant PollAll(w, old(State()), polls) == PollAll(w, State(), polls[i..])
        decreases |polls| - i
      {
        var poll := polls[i];
        assert polls[i..][0] == poll && polls[i..][1..] == polls[i + 1..];
        var handled := HandlePollEvents(w, poll.events);
        if handled != Done {
          return handled;
        }
        if pending != {} {
          if poll.batchDone {
            pending := {};
            return BatchEnded;
          }
          if poll.timedOut {
            return TimedOut;
          }
        }
        i := i + 1;
      }
      return if pending == {} then Done else Polling;
    }

    method BackfillAnswers(w: World, rows: seq<Row>)
      modifies this
      ensures State() == Backfill(w, old(State()), rows)
    {
      pending := {};
      passed := SumPassed(answers);
      tokens := AddTokens(answers);
      var ids, row := CollectItems(rows);
      IdsHaveRows(rows);
      for i := 0 to |ids|
        invariant forall k :: 0 <= k < |ids[i..]| ==> ids[i..][k] in row
        invariant FillFrom(w, BackfillStart(old(State())), ids, row) == FillFrom(w, State(), ids[i..], row)
      {
        assert ids[i..][0] == ids[i] && ids[i..][1..] == ids[i + 1..];
        if ids[i] in answeredIds {
          continue;
        }
        AppendAnswer(Graded(w, ids[i], row[ids[i]]));
      }
    }
  }

  method SumPassed(answers: seq<Record>) returns (n: nat)
    ensures n == CountPassed(answers)
  {
    n := 0;
    for i := 0 to |answers|
      invariant n == CountPassed(answers[..i])
    {
      assert answers[..i + 1][..i] == answers[..i];
      n := n + (if answers[i].passed then 1 else 0);
    }
    assert answers[..|answers|] == answers;
  }

  method AddTokens(answers: seq<Record>) returns (n: int)
    ensures n == SumTokens(answers)
  {
    n := 0;
    for i := 0 to |answers|
      invariant n == SumTokens(answers[..i])
    {
      assert answers[..i + 1][..i] == answers[..i];
      n := n + answers[i].tokens;
    }
    assert answers[..|answers|] == answers;
  }

  /** _collect_items_by_request_id */
  method CollectItems(rows: seq<Row>) returns (ids: seq<string>, row: map<string, Row>)
    ensures ids == IdsOf(rows) && row == RowOf(rows)
  {
    ids, row := [], map[];
    for i := 0 to |rows|
      invariant ids == IdsOf(rows[..i]) && row == RowOf(rows[..i])
    {
      assert rows[..i + 1][..i] == rows[..i];
      if rows[i].id != "" {
        if rows[i].id !in ids {
          ids := ids + [rows[i].id];
        }
        row := row[rows[i].id := rows[i]];
      }
    }
    assert rows[..|rows|] == rows;
  }

  method GradeRows(w: World, rows: seq<Row>) returns (g: Grade)
    ensures g == GradeCollect(w, rows)
  {
    g := Grade(0, 0, 0);
    for i := 0 to |rows|
      invariant g == GradeCollect(w, rows[..i])
    {
      assert rows[..i + 1][..i] == rows[..i];
      var ok := w.passes(LookupId(rows[i]), rows[i].text);
      g := Grade(g.total + 1, g.passed + (if ok then 1 else 0), g.tokens + rows[i].tokens);
    }
    assert rows[..|rows|] == rows;
  }
}
