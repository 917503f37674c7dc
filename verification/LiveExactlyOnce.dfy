/** Live grading counts every request once, whatever poll events repeat and wherever
    polling stops. */
module LiveExactlyOnce {
  import opened LiveGrading

  // ---- the counters are folds over the answers, unconditionally ----

  function Ids(answers: seq<Record>): seq<string> {
    if answers == [] then [] else Ids(answers[..|answers| - 1]) + [answers[|answers| - 1].id]
  }

  function SetOf(ids: seq<string>): set<string> { set id | id in ids }

  /** Every record carries the totals of the answers up to itself. */
  predicate Running(answers: seq<Record>) {
    answers == [] ||
    (var last := answers[|answers| - 1];
     Running(answers[..|answers| - 1]) && last.cumCompleted == |answers| &&
     last.cumPassed == CountPassed(answers) && last.cumTokens == SumTokens(answers))
  }

  predicate Consistent(s: Live) {
    s.passed == CountPassed(s.answers) && s.tokens == SumTokens(s.answers) &&
    s.answered == SetOf(Ids(s.answers)) && Running(s.answers)
  }

  lemma {:induction false} AppendKeeps(s: Live, rec: Record)
    requires Consistent(s)
    ensures Consistent(Append(s, rec))
  {
    var next := Append(s, rec);
    assert next.answers[..|next.answers| - 1] == s.answers;
  }

  lemma {:induction false} HandleKeeps(w: World, s: Live, events: seq<Event>)
    requires Consistent(s)
    ensures Consistent(Handle(w, s, events).0)
    decreases |events|
  {
    hide Consistent;
    if events != [] {
      if Counts(s, events[0]) {
        var rec := Graded(w, events[0].id, events[0].reply);
        AppendKeeps(s, rec);
        HandleKeeps(w, Append(s, rec), events[1..]);
      } else {
        HandleKeeps(w, s, events[1..]);
      }
    }
  }

  lemma {:induction false} PollKeeps(w: World, s: Live, polls: seq<Poll>)
    requires Consistent(s)
    ensures Consistent(PollAll(w, s, polls).0)
    decreases |polls|
  {
    if s.pending != {} && polls != [] {
      HandleKeeps(w, s, polls[0].events);
      PollKeeps(w, Handle(w, s, polls[0].events).0, polls[1..]);
    }
  }

  lemma {:induction false} FillKeeps(w: World, s: Live, ids: seq<string>, row: map<string, Row>)
    requires forall i :: 0 <= i < |ids| ==> ids[i] in row
    requires Consistent(s)
    ensures Consistent(FillFrom(w, s, ids, row))
    decreases |ids|
  {
    hide Consistent;
    if ids != [] {
      if ids[0] in s.answered {
        FillKeeps(w, s, ids[1..], row);
      } else {
        AppendKeeps(s, Graded(w, ids[0], row[ids[0]]));
        FillKeeps(w, Append(s, Graded(w, ids[0], row[ids[0]])), ids[1..], row);
      }
    }
  }

  /** From the first poll to the last backfilled row, and for arbitrary replies,
      the counters equal the fold over the recorded answers. */
  lemma {:induction false} CountersAreFolds(w: World, requests: set<string>, polls: seq<Poll>, rows: seq<Row>)
    ensures Consistent(PollAll(w, NewLive(requests), polls).0)
    ensures Consistent(Backfill(w, PollAll(w, NewLive(requests), polls).0, rows))
  {
    PollKeeps(w, NewLive(requests), polls);
    var s := PollAll(w, NewLive(requests), polls).0;
    assert BackfillStart(s).answers == s.answers && BackfillStart(s).answered == s.answered;
    IdsHaveRows(rows);
    FillKeeps(w, BackfillStart(s), IdsOf(rows), RowOf(rows));
  }

  // ---- no id twice, when a reply carries the id it was asked for ----

  predicate Distinct(ids: seq<string>) {
    ids == [] || (ids[|ids| - 1] !in ids[..|ids| - 1] && Distinct(ids[..|ids| - 1]))
  }

  /** An event that ends one of the requests; events of other batches come in the same polls. */
  predicate EndsRequest(e: Event, requests: set<string>) { e.id in requests && !e.isDelta && e.terminal }

  /** The reply to an event that ends a request carries the id asked for. */
  predicate Echoes(events: seq<Event>, requests: set<string>) {
    events == [] ||
    ((EndsRequest(events[0], requests) ==> events[0].reply.id == events[0].id) && Echoes(events[1..], requests))
  }

  predicate AllEcho(polls: seq<Poll>, requests: set<string>) {
    polls == [] || (Echoes(polls[0].events, requests) && AllEcho(polls[1..], requests))
  }

  /** Each request is either still pending or recorded, and recorded once. */
  predicate Once(s: Live, requests: set<string>) {
    Distinct(Ids(s.answers)) && s.answered == SetOf(Ids(s.answers)) &&
    s.pending == requests - s.answered && s.answered <= requests
  }

  lemma {:induction false} IdsOfAppend(answers: seq<Record>, rec: Record)
    ensures Ids(answers + [rec]) == Ids(answers) + [rec.id]
    ensures SetOf(Ids(answers + [rec])) == SetOf(Ids(answers)) + {rec.id}
  {
    assert (answers + [rec])[..|answers|] == answers;
  }

  lemma {:induction false} DistinctAppend(ids: seq<string>, id: string)
    requires Distinct(ids) && id !in ids
    ensures Distinct(ids + [id])
  {
    assert (ids + [id])[..|ids|] == ids;
  }

  lemma {:induction false} AppendOnce(s: Live, rec: Record, requests: set<string>)
    requires Once(s, requests) && rec.id in s.pending
    ensures Once(Append(s, rec), requests)
  {
    hide Distinct;
    var next := Append(s, rec);
    var kept := next.answers[|s.answers|];
    IdsOfAppend(s.answers, kept);
    DistinctAppend(Ids(s.answers), kept.id);
  }

  lemma {:induction false} HandleOnce(w: World, s: Live, events: seq<Event>, requests: set<string>)
    requires Once(s, requests) && Echoes(events, requests)
    ensures Once(Handle(w, s, events).0, requests)
    decreases |events|
  {
    PendingAreRequests(s, requests);
    hide Once, Append;
    if events != [] {
      if Counts(s, events[0]) {
        var rec := Graded(w, events[0].id, events[0].reply);
        AppendOnce(s, rec, requests);
        HandleOnce(w, Append(s, rec), events[1..], requests);
      } else {
        HandleOnce(w, s, events[1..], requests);
      }
    }
  }

  lemma {:induction false} PendingAreRequests(s: Live, requests: set<string>)
    requires Once(s, requests)
    ensures s.pending <= requests
  {
  }

  /** What polling leaves: distinct requests recorded, every other request still pending
      unless the batch ended first, and no other request when it is done. */
  predicate Recorded(s: Live, out: Outcome, requests: set<string>) {
    Distinct(Ids(s.answers)) && s.answered == SetOf(Ids(s.answers)) && s.answered <= requests &&
    s.pending == (if out == BatchEnded then {} else requests - s.answered) &&
    (out == Done ==> s.answered == requests)
  }

  lemma {:induction false} PollFrom(w: World, s: Live, polls: seq<Poll>, requests: set<string>)
    requires Once(s, requests) && AllEcho(polls, requests)
    ensures Recorded(PollAll(w, s, polls).0, PollAll(w, s, polls).1, requests)
    decreases |polls|
  {
    hide Distinct, Ids, Handle, Echoes;
    NonePending(s.pending, s.answered, requests);
    if s.pending != {} && polls != [] {
      HandleOnce(w, s, polls[0].events, requests);
      var (next, out) := Handle(w, s, polls[0].events);
      HandleOutcome(w, s, polls[0].events);
      PollFrom(w, next, polls[1..], requests);
    }
  }

  lemma {:induction false} NonePending(pending: set<string>, answered: set<string>, requests: set<string>)
    requires pending == requests - answered && answered <= requests
    ensures pending == {} ==> answered == requests
  {
    if pending == {} {
      forall id | id in requests ensures id in answered { assert id !in requests - answered; }
    }
  }

  lemma {:induction false} HandleOutcome(w: World, s: Live, events: seq<Event>)
    ensures Handle(w, s, events).1 in {Done, Aborted}
    decreases |events|
  {
    hide Append;
    if events != [] {
      HandleOutcome(w, s, events[1..]);
      HandleOutcome(w, Append(s, Graded(w, events[0].id, events[0].reply)), events[1..]);
    }
  }

  /** However events repeat or reorder, polling records no request twice and
      records only requests; it is done just when all of them are recorded. */
  lemma {:induction false} PolledOnce(w: World, requests: set<string>, polls: seq<Poll>)
    requires AllEcho(polls, requests)
    ensures Recorded(PollAll(w, NewLive(requests), polls).0, PollAll(w, NewLive(requests), polls).1, requests)
  {
    PollFrom(w, NewLive(requests), polls, requests);
  }

  // ---- exactly when no id is recorded twice ----

  /** Collecting a request id always gives the same row. */
  predicate RepliesFrom(events: seq<Event>, reply: string -> Row) {
    forall e :: e in events ==> e.reply == reply(e.id)
  }

  predicate AllRepliesFrom(polls: seq<Poll>, reply: string -> Row) { forall p :: p in polls ==> RepliesFrom(p.events, reply) }

  lemma {:induction false} RepliesEcho(events: seq<Event>, reply: string -> Row, requests: set<string>)
    requires RepliesFrom(events, reply) && forall id :: id in requests ==> reply(id).id == id
    ensures Echoes(events, requests)
  {
    if events != [] {
      RepliesEcho(events[1..], reply, requests);
    }
  }

  lemma {:induction false} AllRepliesEcho(polls: seq<Poll>, reply: string -> Row, requests: set<string>)
    requires AllRepliesFrom(polls, reply) && forall id :: id in requests ==> reply(id).id == id
    ensures AllEcho(polls, requests)
  {
    hide RepliesFrom, Echoes;
    if polls != [] {
      RepliesEcho(polls[0].events, reply, requests);
      AllRepliesEcho(polls[1..], reply, requests);
    }
  }

  /** Two terminal events for a request whose reply carries another id. */
  function Twice(id: string, reply: Row): seq<Poll> {
    [Poll([Event(id, false, true, reply), Event(id, false, true, reply)], false, false)]
  }

  lemma {:induction false} StrayStep(w: World, s: Live, id: string, reply: Row, rest: seq<Event>)
    requires id in s.pending && reply.id != id
    ensures
      var next := Append(s, Graded(w, id, reply));
      id in next.pending && Ids(next.answers) == Ids(s.answers) + [reply.id] && |next.answers| == |s.answers| + 1 &&
      Handle(w, s, [Event(id, false, true, reply)] + rest) ==
        if w.abort(|next.answers|, next.passed) then (next, Aborted) else Handle(w, next, rest)
  {
    var next := Append(s, Graded(w, id, reply));
    IdsOfAppend(s.answers, next.answers[|s.answers|]);
    hide Append, Ids;
    assert ([Event(id, false, true, reply)] + rest)[1..] == rest;
  }

  /** When one record does not stop the run, the id of the reply is recorded twice. */
  lemma {:induction false} StrayRepeats(w: World, requests: set<string>, id: string, reply: Row)
    requires id in requests && reply.id != id && !w.abort(1, 0) && !w.abort(1, 1)
    ensures Ids(PollAll(w, NewLive(requests), Twice(id, reply)).0.answers) == [reply.id, reply.id]
  {
    var e := Event(id, false, true, reply);
    var s0 := NewLive(requests);
    var s1 := Append(s0, Graded(w, id, reply));
    assert Ids(s0.answers) == [];
    StrayStep(w, s0, id, reply, [e]);
    StrayStep(w, s1, id, reply, []);
    assert [e] + [e] == [e, e] && [e] + [] == [e] && [] + [reply.id] == [reply.id];
    assert s1.passed == 0 || s1.passed == 1;
    hide Append, Ids, Handle, NewLive, Graded;
    assert [reply.id] + [reply.id] == [reply.id, reply.id];
    HandleNothing(w, Append(s1, Graded(w, id, reply)));
    var handled := Handle(w, s0, [e, e]);
    assert Ids(handled.0.answers) == [reply.id, reply.id];
    OnePoll(w, s0, [e, e]);
  }

  lemma {:induction false} HandleNothing(w: World, s: Live)
    ensures Handle(w, s, []) == (s, Done)
  {
  }

  lemma {:induction false} OnePoll(w: World, s: Live, events: seq<Event>)
    requires s.pending != {}
    ensures PollAll(w, s, [Poll(events, false, false)]).0 == Handle(w, s, events).0
  {
    hide Handle;
    var polls := [Poll(events, false, false)];
    assert polls[1..] == [];
  }

  /** For a run that one record does not abort: no sequence of polls records an id twice
      exactly when collecting a request always echoes its id. */
  lemma {:induction false} NoRepeatUnaborted(w: World, requests: set<string>, reply: string -> Row)
    requires !w.abort(1, 0) && !w.abort(1, 1)
    ensures (forall polls :: AllRepliesFrom(polls, reply) ==> Distinct(Ids(PollAll(w, NewLive(requests), polls).0.answers))) <==>
      forall id :: id in requests ==> reply(id).id == id
  {
    hide Ids, PollAll;
    if forall id :: id in requests ==> reply(id).id == id {
      forall polls | AllRepliesFrom(polls, reply) ensures Distinct(Ids(PollAll(w, NewLive(requests), polls).0.answers)) {
        AllRepliesEcho(polls, reply, requests);
        PolledOnce(w, requests, polls);
      }
    } else {
      var id :| id in requests && reply(id).id != id;
      StrayRepeats(w, requests, id, reply(id));
      var twice := [reply(id).id, reply(id).id];
      assert twice[..1] == [reply(id).id] && twice[1] in twice[..1];
      assert !Distinct(twice);
      assert AllRepliesFrom(Twice(id, reply(id)), reply);
    }
  }

  /** Whatever the polls and the accuracy threshold, no id is recorded twice: that is so
      exactly when collecting a request always echoes its id. */
  lemma {:induction false} NoRepeatIff(passes: (string, string) -> bool, requests: set<string>, reply: string -> Row)
    ensures
      (forall polls, abort: (nat, nat) -> bool :: AllRepliesFrom(polls, reply) ==>
         Distinct(Ids(PollAll(World(passes, abort), NewLive(requests), polls).0.answers))) <==>
      forall id :: id in requests ==> reply(id).id == id
  {
    hide Ids, PollAll, Distinct, AllRepliesFrom;
    if forall id :: id in requests ==> reply(id).id == id {
      forall polls, abort: (nat, nat) -> bool | AllRepliesFrom(polls, reply)
        ensures Distinct(Ids(PollAll(World(passes, abort), NewLive(requests), polls).0.answers))
      {
        AllRepliesEcho(polls, reply, requests);
        PolledOnce(World(passes, abort), requests, polls);
      }
    } else {
      var never := (n: nat, m: nat) => false;
      NoRepeatUnaborted(World(passes, never), requests, reply);
      var polls :| AllRepliesFrom(polls, reply) && !Distinct(Ids(PollAll(World(passes, never), NewLive(requests), polls).0.answers));
    }
  }

  // ---- backfill ----

  lemma {:induction false} FillOnce(w: World, s: Live, ids: seq<string>, row: map<string, Row>)
    requires forall i :: 0 <= i < |ids| ==> ids[i] in row && row[ids[i]].id == ids[i]
    requires Distinct(Ids(s.answers)) && s.answered == SetOf(Ids(s.answers))
    ensures
      var t := FillFrom(w, s, ids, row);
      Distinct(Ids(t.answers)) && t.answered == SetOf(Ids(t.answers)) && t.answered == s.answered + SetOf(ids)
    decreases |ids|
  {
    hide Distinct, Ids;
    if ids != [] {
      assert SetOf(ids) == {ids[0]} + SetOf(ids[1..]);
      if ids[0] in s.answered {
        FillOnce(w, s, ids[1..], row);
      } else {
        var next := Append(s, Graded(w, ids[0], row[ids[0]]));
        IdsOfAppend(s.answers, next.answers[|s.answers|]);
        DistinctAppend(Ids(s.answers), ids[0]);
        FillOnce(w, next, ids[1..], row);
      }
    } else {
      assert SetOf(ids) == {};
    }
  }

  /** Whatever the collect holds, backfill records no id twice and adds exactly the
      ids of the collect that were missing. */
  lemma {:induction false} BackfilledOnce(w: World, s: Live, rows: seq<Row>)
    requires Distinct(Ids(s.answers)) && s.answered == SetOf(Ids(s.answers))
    ensures
      var t := Backfill(w, s, rows);
      Distinct(Ids(t.answers)) && SetOf(Ids(t.answers)) == SetOf(Ids(s.answers)) + SetOf(IdsOf(rows)) &&
      t.answered == SetOf(Ids(t.answers)) && t.pending == {}
  {
    hide Distinct, Ids, IdsOf, RowOf;
    IdsHaveRows(rows);
    FillOnce(w, BackfillStart(s), IdsOf(rows), RowOf(rows));
    FillPending(w, BackfillStart(s), IdsOf(rows), RowOf(rows));
  }

  lemma {:induction false} FillPending(w: World, s: Live, ids: seq<string>, row: map<string, Row>)
    requires forall i :: 0 <= i < |ids| ==> ids[i] in row
    requires s.pending == {}
    ensures FillFrom(w, s, ids, row).pending == {}
    decreases |ids|
  {
    if ids != [] {
      FillPending(w, s, ids[1..], row);
      FillPending(w, Append(s, Graded(w, ids[0], row[ids[0]])), ids[1..], row);
    }
  }

  // ---- the totals ----

  /** The record is the one the collect row of its id gives. */
  predicate FromRow(w: World, row: map<string, Row>, rec: Record) {
    rec.id in row && rec.passed == w.passes(rec.id, row[rec.id].text) && rec.tokens == row[rec.id].tokens
  }

  predicate AllFromRows(w: World, row: map<string, Row>, answers: seq<Record>) {
    answers == [] || (FromRow(w, row, answers[|answers| - 1]) && AllFromRows(w, row, answers[..|answers| - 1]))
  }

  /** Terminal results do not change: an event that ends a request replies with the
      row the final collect has for it. Nothing is asked of other events. */
  predicate Settled(events: seq<Event>, row: map<string, Row>, requests: set<string>) {
    events == [] ||
    ((EndsRequest(events[0], requests) ==> events[0].id in row && row[events[0].id] == events[0].reply) &&
     Settled(events[1..], row, requests))
  }

  predicate AllSettled(polls: seq<Poll>, row: map<string, Row>, requests: set<string>) {
    polls == [] || (Settled(polls[0].events, row, requests) && AllSettled(polls[1..], row, requests))
  }

  predicate Keyed(row: map<string, Row>) { forall id :: id in row ==> row[id].id == id }

  lemma {:induction false} SettledEchoes(events: seq<Event>, row: map<string, Row>, requests: set<string>)
    requires Settled(events, row, requests) && Keyed(row)
    ensures Echoes(events, requests)
  {
    if events != [] {
      SettledEchoes(events[1..], row, requests);
    }
  }

  lemma {:induction false} AllSettledEcho(polls: seq<Poll>, row: map<string, Row>, requests: set<string>)
    requires AllSettled(polls, row, requests) && Keyed(row)
    ensures AllEcho(polls, requests)
  {
    if polls != [] {
      SettledEchoes(polls[0].events, row, requests);
      AllSettledEcho(polls[1..], row, requests);
    }
  }

  lemma {:induction false} AppendPends(s: Live, rec: Record)
    ensures Append(s, rec).pending <= s.pending
  {
  }

  lemma {:induction false} AppendFromRow(w: World, s: Live, id: string, row: map<string, Row>)
    requires AllFromRows(w, row, s.answers) && id in row && row[id].id == id
    ensures AllFromRows(w, row, Append(s, Graded(w, id, row[id])).answers)
  {
    var next := Append(s, Graded(w, id, row[id]));
    assert next.answers[..|next.answers| - 1] == s.answers;
  }

  lemma {:induction false} HandleFromRows(w: World, s: Live, events: seq<Event>, row: map<string, Row>, requests: set<string>)
    requires AllFromRows(w, row, s.answers) && Settled(events, row, requests) && Keyed(row) && s.pending <= requests
    ensures AllFromRows(w, row, Handle(w, s, events).0.answers) && Handle(w, s, events).0.pending <= requests
    decreases |events|
  {
    hide AllFromRows, Append;
    if events != [] {
      if Counts(s, events[0]) {
        AppendFromRow(w, s, events[0].id, row);
        AppendPends(s, Graded(w, events[0].id, events[0].reply));
        HandleFromRows(w, Append(s, Graded(w, events[0].id, events[0].reply)), events[1..], row, requests);
      } else {
        HandleFromRows(w, s, events[1..], row, requests);
      }
    }
  }

  lemma {:induction false} PollFromRows(w: World, s: Live, polls: seq<Poll>, row: map<string, Row>, requests: set<string>)
    requires AllFromRows(w, row, s.answers) && AllSettled(polls, row, requests) && Keyed(row) && s.pending <= requests
    ensures AllFromRows(w, row, PollAll(w, s, polls).0.answers)
    decreases |polls|
  {
    hide AllFromRows, Handle, Settled, Keyed;
    if s.pending != {} && polls != [] {
      HandleFromRows(w, s, polls[0].events, row, requests);
      PollFromRows(w, Handle(w, s, polls[0].events).0, polls[1..], row, requests);
    }
  }

  lemma {:induction false} FillFromRows(w: World, s: Live, ids: seq<string>, row: map<string, Row>)
    requires forall i :: 0 <= i < |ids| ==> ids[i] in row && row[ids[i]].id == ids[i]
    requires AllFromRows(w, row, s.answers)
    ensures AllFromRows(w, row, FillFrom(w, s, ids, row).answers)
    decreases |ids|
  {
    hide AllFromRows, Append;
    if ids != [] {
      if ids[0] in s.answered {
        FillFromRows(w, s, ids[1..], row);
      } else {
        AppendFromRow(w, s, ids[0], row);
        FillFromRows(w, Append(s, Graded(w, ids[0], row[ids[0]])), ids[1..], row);
      }
    }
  }

  /** The totals of a list of ids, each graded on its row. */
  function Tally(w: World, row: map<string, Row>, ids: seq<string>): Grade
    requires forall id :: id in ids ==> id in row
  {
    if ids == [] then Grade(0, 0, 0) else Plus(w, Tally(w, row, ids[..|ids| - 1]), row, ids[|ids| - 1])
  }

  function Plus(w: World, g: Grade, row: map<string, Row>, id: string): Grade
    requires id in row
  {
    Grade(g.total + 1, g.passed + (if w.passes(id, row[id].text) then 1 else 0), g.tokens + row[id].tokens)
  }

  lemma {:induction false} TallyRemove(w: World, row: map<string, Row>, ids: seq<string>, k: nat)
    requires forall id :: id in ids ==> id in row
    requires k < |ids|
    ensures Tally(w, row, ids) == Plus(w, Tally(w, row, ids[..k] + ids[k + 1..]), row, ids[k])
  {
    var n := |ids| - 1;
    if k == n {
      assert ids[..k] + ids[k + 1..] == ids[..n];
    } else {
      var front, without := ids[..n], ids[..k] + ids[k + 1..];
      TallyRemove(w, row, front, k);
      assert without[..n - 1] == front[..k] + front[k + 1..];
      assert without[n - 1] == ids[n];
    }
  }

  lemma {:induction false} DistinctRemove(ids: seq<string>, k: nat)
    requires k < |ids| && Distinct(ids)
    ensures Distinct(ids[..k] + ids[k + 1..])
    ensures ids[k] !in ids[..k] + ids[k + 1..]
  {
    var n := |ids| - 1;
    var without := ids[..k] + ids[k + 1..];
    if k == n {
      assert without == ids[..n];
    } else {
      DistinctRemove(ids[..n], k);
      assert without == (ids[..n][..k] + ids[..n][k + 1..]) + [ids[n]];
      DistinctAppend(ids[..n][..k] + ids[..n][k + 1..], ids[n]);
    }
  }

  /** Distinct ids tally the same in any order. */
  lemma {:induction false} TallyOrder(w: World, row: map<string, Row>, a: seq<string>, b: seq<string>)
    requires forall id :: id in a ==> id in row
    requires forall id :: id in b ==> id in row
    requires Distinct(a) && Distinct(b) && SetOf(a) == SetOf(b)
    ensures Tally(w, row, a) == Tally(w, row, b)
  {
    if a == [] {
      SameSetSameLength(a, b);
    } else {
      var n := |a| - 1;
      assert a[n] in SetOf(b);
      var k :| 0 <= k < |b| && b[k] == a[n];
      var rest := b[..k] + b[k + 1..];
      DistinctRemove(b, k);
      TallyRemove(w, row, b, k);
      SameWithout(a, b, k);
      TallyOrder(w, row, a[..n], rest);
    }
  }

  lemma {:induction false} SameWithout(a: seq<string>, b: seq<string>, k: nat)
    requires |a| > 0 && k < |b| && b[k] == a[|a| - 1]
    requires Distinct(a) && b[k] !in b[..k] + b[k + 1..] && SetOf(a) == SetOf(b)
    ensures SetOf(a[..|a| - 1]) == SetOf(b[..k] + b[k + 1..])
  {
    var front, rest := a[..|a| - 1], b[..k] + b[k + 1..];
    assert SetOf(a) == SetOf(front) + {b[k]} by { assert a == front + [b[k]]; }
    assert SetOf(b) == SetOf(rest) + {b[k]};
  }

  lemma {:induction false} AnswersTally(w: World, row: map<string, Row>, answers: seq<Record>)
    requires AllFromRows(w, row, answers)
    ensures forall id :: id in Ids(answers) ==> id in row
    ensures Tally(w, row, Ids(answers)) == Grade(|answers|, CountPassed(answers), SumTokens(answers))
  {
    if answers != [] {
      var front := answers[..|answers| - 1];
      AnswersTally(w, row, front);
      assert Ids(answers)[..|Ids(answers)| - 1] == Ids(front);
    }
  }

  lemma {:induction false} TallyFrame(w: World, row: map<string, Row>, more: map<string, Row>, ids: seq<string>)
    requires forall id :: id in ids ==> id in row && id in more && row[id] == more[id]
    ensures Tally(w, row, ids) == Tally(w, more, ids)
  {
    if ids != [] {
      TallyFrame(w, row, more, ids[..|ids| - 1]);
    }
  }

  lemma {:induction false} IdsAtMostRows(rows: seq<Row>)
    ensures |IdsOf(rows)| <= |rows|
    ensures Distinct(IdsOf(rows))
  {
    if rows != [] {
      var front, last := rows[..|rows| - 1], rows[|rows| - 1].id;
      IdsAtMostRows(front);
      if last !in IdsOf(front) {
        DistinctAppend(IdsOf(front), last);
      }
    }
  }

  /** One row per id, none without an id. */
  predicate OneRowEach(rows: seq<Row>) { |IdsOf(rows)| == |rows| }

  lemma {:induction false} OneRowEachIs(rows: seq<Row>)
    ensures OneRowEach(rows) <==>
      (forall i :: 0 <= i < |rows| ==> rows[i].id != "") &&
      (forall i, j :: 0 <= i < j < |rows| ==> rows[i].id != rows[j].id)
  {
    if rows != [] {
      var n := |rows| - 1;
      var front := rows[..n];
      OneRowEachIs(front);
      IdsAtMostRows(front);
      IdsAre(front);
      assert forall i :: 0 <= i < n ==> front[i] == rows[i];
      if rows[n].id in IdsOf(front) {
        var i :| 0 <= i < |front| && front[i].id == rows[n].id;
        assert rows[i].id == rows[n].id;
      }
    }
  }

  lemma {:induction false} IdsAre(rows: seq<Row>)
    ensures forall id :: id in IdsOf(rows) <==> id != "" && exists i :: 0 <= i < |rows| && rows[i].id == id
  {
    if rows != [] {
      var n := |rows| - 1;
      IdsAre(rows[..n]);
      assert rows == rows[..n] + [rows[n]];
      forall id ensures id in IdsOf(rows) <==> id != "" && exists i :: 0 <= i < |rows| && rows[i].id == id {
        if i :| 0 <= i < |rows| && rows[i].id == id {
          assert i == n || rows[..n][i].id == id;
        }
      }
    }
  }

  lemma {:induction false} CollectTally(w: World, rows: seq<Row>)
    requires OneRowEach(rows)
    ensures forall id :: id in IdsOf(rows) ==> id in RowOf(rows)
    ensures GradeCollect(w, rows) == Tally(w, RowOf(rows), IdsOf(rows))
  {
    IdsHaveRows(rows);
    if rows != [] {
      var front, last := rows[..|rows| - 1], rows[|rows| - 1];
      IdsAtMostRows(front);
      CollectTally(w, front);
      IdsHaveRows(front);
      assert IdsOf(rows) == IdsOf(front) + [last.id];
      assert IdsOf(rows)[..|front|] == IdsOf(front);
      TallyFrame(w, RowOf(front), RowOf(rows), IdsOf(front));
    }
  }

  lemma {:induction false} CollectTotal(w: World, rows: seq<Row>)
    ensures GradeCollect(w, rows).total == |rows|
  {
    if rows != [] {
      CollectTotal(w, rows[..|rows| - 1]);
    }
  }

  lemma {:induction false} SameSetSameLength(a: seq<string>, b: seq<string>)
    requires Distinct(a) && Distinct(b) && SetOf(a) == SetOf(b)
    ensures |a| == |b|
  {
    LengthIsSize(a);
    LengthIsSize(b);
  }

  lemma {:induction false} LengthIsSize(ids: seq<string>)
    requires Distinct(ids)
    ensures |SetOf(ids)| == |ids|
  {
    if ids == [] {
      assert SetOf(ids) == {};
    } else {
      var n := |ids| - 1;
      LengthIsSize(ids[..n]);
      assert ids == ids[..n] + [ids[n]];
      assert SetOf(ids) == SetOf(ids[..n]) + {ids[n]};
    }
  }

  /** After any polling that stops early or late, the backfilled totals equal those
      of grading the whole collect exactly when the collect has one row per id:
      with a repeated or nameless row the two disagree on the number of answers. */
  lemma {:induction false} BackfillMatchesCollect(w: World, requests: set<string>, polls: seq<Poll>, rows: seq<Row>)
    requires AllSettled(polls, RowOf(rows), requests)
    ensures
      var t := Backfill(w, PollAll(w, NewLive(requests), polls).0, rows);
      Distinct(Ids(t.answers)) && SetOf(Ids(t.answers)) == SetOf(IdsOf(rows)) &&
      (Grade(|t.answers|, t.passed, t.tokens) == GradeCollect(w, rows) <==> OneRowEach(rows))
  {
    hide Distinct, PollAll, FillFrom, IdsOf, RowOf, GradeCollect, AllEcho, AllSettled, Recorded, AllFromRows, Running, SetOf, Ids,
      Tally, CountPassed, SumTokens;
    var s, row := PollAll(w, NewLive(requests), polls).0, RowOf(rows);
    IdsHaveRows(rows);
    AllSettledEcho(polls, row, requests);
    RecordedOnly(w, requests, polls);
    BackfilledOnce(w, s, rows);
    var t := Backfill(w, s, rows);
    RecordedHaveRows(w, requests, polls, rows);
    assert SetOf(Ids(t.answers)) == SetOf(IdsOf(rows));
    CountersAreFolds(w, requests, polls, rows);
    TotalsAreTally(w, requests, polls, rows);
    CollectTotal(w, rows);
    IdsAtMostRows(rows);
    IdsLength(t.answers);
    SameSetSameLength(Ids(t.answers), IdsOf(rows));
    if OneRowEach(rows) {
      CollectTally(w, rows);
      TallyOrder(w, row, Ids(t.answers), IdsOf(rows));
    }
  }

  /** What polling recorded has a row in the collect. */
  lemma {:induction false} RecordedHaveRows(w: World, requests: set<string>, polls: seq<Poll>, rows: seq<Row>)
    requires AllSettled(polls, RowOf(rows), requests)
    ensures SetOf(Ids(PollAll(w, NewLive(requests), polls).0.answers)) <= SetOf(IdsOf(rows))
  {
    hide PollAll, IdsOf, RowOf, AllSettled, Ids, Tally, CountPassed, SumTokens, AllFromRows;
    IdsHaveRows(rows);
    assert AllFromRows(w, RowOf(rows), NewLive(requests).answers) by { NothingRecorded(w, RowOf(rows)); }
    PollFromRows(w, NewLive(requests), polls, RowOf(rows), requests);
    AnswersTally(w, RowOf(rows), PollAll(w, NewLive(requests), polls).0.answers);
  }

  lemma {:induction false} NothingRecorded(w: World, row: map<string, Row>)
    ensures AllFromRows(w, row, [])
  {
  }

  lemma {:induction false} IdsLength(answers: seq<Record>)
    ensures |Ids(answers)| == |answers|
  {
    if answers != [] {
      IdsLength(answers[..|answers| - 1]);
    }
  }

  lemma {:induction false} RecordedOnly(w: World, requests: set<string>, polls: seq<Poll>)
    requires AllEcho(polls, requests)
    ensures
      var s := PollAll(w, NewLive(requests), polls).0;
      Distinct(Ids(s.answers)) && s.answered == SetOf(Ids(s.answers)) && SetOf(Ids(s.answers)) <= requests
  {
    hide Distinct, PollAll, Ids;
    PolledOnce(w, requests, polls);
  }

  lemma {:induction false} TotalsAreTally(w: World, requests: set<string>, polls: seq<Poll>, rows: seq<Row>)
    requires AllSettled(polls, RowOf(rows), requests)
    ensures
      var t := Backfill(w, PollAll(w, NewLive(requests), polls).0, rows);
      (forall id :: id in Ids(t.answers) ==> id in RowOf(rows)) &&
      Tally(w, RowOf(rows), Ids(t.answers)) == Grade(|t.answers|, CountPassed(t.answers), SumTokens(t.answers))
  {
    hide PollAll, FillFrom, IdsOf, RowOf, AllSettled, Ids, Tally, CountPassed, SumTokens;
    var row := RowOf(rows);
    IdsHaveRows(rows);
    PollFromRows(w, NewLive(requests), polls, row, requests);
    var s := PollAll(w, NewLive(requests), polls).0;
    FillFromRows(w, BackfillStart(s), IdsOf(rows), row);
    AnswersTally(w, row, Backfill(w, s, rows).answers);
  }
}
