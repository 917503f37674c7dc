/** Where live polling stops: the replies alone decide the outcome, and nothing that
    comes after the stop matters. */
module LiveStops {
  import opened LiveGrading
  import opened LiveExactlyOnce

  // ---- what events record while nothing stops the run ----

  /** The state after an event. */
  function Took(w: World, s: Live, e: Event): Live {
    if e.id in s.pending && !e.isDelta && e.terminal then Append(s, Graded(w, e.id, e.reply)) else s
  }

  function Taken(w: World, s: Live, events: seq<Event>): Live
    decreases |events|
  {
    if events == [] then s else Taken(w, Took(w, s, events[0]), events[1..])
  }

  /** Event `k` records an answer whose counts are too low. */
  predicate AbortsAt(w: World, s: Live, events: seq<Event>, k: nat)
    requires k < |events|
  {
    var before, after := Taken(w, s, events[..k]), Taken(w, s, events[..k + 1]);
    |after.answers| > |before.answers| && w.abort(|after.answers|, after.passed)
  }

  predicate NoneAborts(w: World, s: Live, events: seq<Event>) {
    forall k :: 0 <= k < |events| ==> !AbortsAt(w, s, events, k)
  }

  predicate FirstAbort(w: World, s: Live, events: seq<Event>, k: nat) {
    k < |events| && AbortsAt(w, s, events, k) && forall j :: 0 <= j < k ==> !AbortsAt(w, s, events, j)
  }

  lemma {:induction false} AbortsHead(w: World, s: Live, events: seq<Event>)
    requires events != []
    ensures AbortsAt(w, s, events, 0) <==>
              Counts(s, events[0])
              && w.abort(|Took(w, s, events[0]).answers|, Took(w, s, events[0]).passed)
  {
    assert events[..0] == [] && events[1..][..0] == [];
    TakenHead(w, s, events, 1);
  }

  lemma {:induction false} AbortsTail(w: World, s: Live, events: seq<Event>, k: nat)
    requires k + 1 < |events|
    ensures AbortsAt(w, s, events, k + 1) <==> AbortsAt(w, Took(w, s, events[0]), events[1..], k)
  {
    hide Took;
    assert events[..k + 1][1..] == events[1..][..k];
    assert events[..k + 2][1..] == events[1..][..k + 1];
  }

  lemma {:induction false} HandleEvents(w: World, s: Live, events: seq<Event>)
    ensures NoneAborts(w, s, events) ==> Handle(w, s, events) == (Taken(w, s, events), Done)
    ensures forall k: nat :: FirstAbort(w, s, events, k) ==>
                          Handle(w, s, events) == (Taken(w, s, events[..k + 1]), Aborted)
    decreases |events|
  {
    if events != [] {
      var rest, next := events[1..], Took(w, s, events[0]);
      AbortsHead(w, s, events);
      HandleEvents(w, next, rest);
      hide Append, Graded, AbortsAt, Taken;
      if NoneAborts(w, s, events) {
        forall j | 0 <= j < |rest| ensures !AbortsAt(w, next, rest, j) { AbortsTail(w, s, events, j); }
        TakenHead(w, s, events, |events|);
      }
      forall k: nat | FirstAbort(w, s, events, k)
        ensures Handle(w, s, events) == (Taken(w, s, events[..k + 1]), Aborted)
      {
        TakenHead(w, s, events, k + 1);
        if k == 0 {
          TakenNone(w, next, events[1..][..0]);
        } else {
          AbortsTail(w, s, events, k - 1);
          forall j | 0 <= j < k - 1 ensures !AbortsAt(w, next, rest, j) { AbortsTail(w, s, events, j); }
          assert FirstAbort(w, next, rest, k - 1);
        }
      }
    }
  }

  lemma {:induction false} TakenHead(w: World, s: Live, events: seq<Event>, k: nat)
    requires 0 < k <= |events|
    ensures Taken(w, s, events[..k]) == Taken(w, Took(w, s, events[0]), events[1..][..k - 1])
    ensures k == |events| ==> Taken(w, s, events) == Taken(w, Took(w, s, events[0]), events[1..])
  {
    hide Took;
    assert events[..k][1..] == events[1..][..k - 1];
  }

  lemma {:induction false} TakenNone(w: World, s: Live, events: seq<Event>)
    requires events == []
    ensures Taken(w, s, events) == s
  {
  }

  // ---- where polling stops ----

  /** The state before poll `j`, when the polls before it did not stop the run. */
  function Before(w: World, s: Live, polls: seq<Poll>, j: nat): Live
    requires j <= |polls|
    decreases j
  {
    if j == 0 then s else Before(w, Taken(w, s, polls[0].events), polls[1..], j - 1)
  }

  /** Poll `j` is made and does not stop the run. */
  predicate GoesOn(w: World, s: Live, polls: seq<Poll>, j: nat)
    requires j < |polls|
  {
    var b, a := Before(w, s, polls, j), Before(w, s, polls, j + 1);
    && b.pending != {}
    && NoneAborts(w, b, polls[j].events)
    && (a.pending == {} || (!polls[j].batchDone && !polls[j].timedOut))
  }

  lemma {:induction false} BeforeNext(w: World, s: Live, polls: seq<Poll>, j: nat)
    requires j < |polls|
    ensures Before(w, s, polls, j + 1) == Taken(w, Before(w, s, polls, j), polls[j].events)
    decreases j
  {
    hide Taken;
    if j == 0 {
      assert Before(w, s, polls, 1) == Before(w, Taken(w, s, polls[0].events), polls[1..], 0);
    } else {
      BeforeNext(w, Taken(w, s, polls[0].events), polls[1..], j - 1);
    }
  }

  lemma {:induction false} PollGoesOn(w: World, s: Live, polls: seq<Poll>, j: nat)
    requires j <= |polls| && forall i :: 0 <= i < j ==> GoesOn(w, s, polls, i)
    ensures PollAll(w, s, polls) == PollAll(w, Before(w, s, polls, j), polls[j..])
    decreases j
  {
    hide Taken, Handle, NoneAborts;
    if j == 0 {
      assert polls[0..] == polls;
    } else {
      assert GoesOn(w, s, polls, 0);
      BeforeNext(w, s, polls, 0);
      HandleEvents(w, s, polls[0].events);
      var next := Taken(w, s, polls[0].events);
      forall i | 0 <= i < j - 1
        ensures GoesOn(w, next, polls[1..], i)
      {
        assert GoesOn(w, s, polls, i + 1);
      }
      PollGoesOn(w, next, polls[1..], j - 1);
      assert polls[1..][j - 1..] == polls[j..];
      if next.pending == {} && j < |polls| {
        assert PollAll(w, next, polls[1..]) == (next, Done);
      }
    }
  }

  /** The first poll that stops the run fixes its outcome, whatever the later polls
      are: nothing left to wait for; low accuracy, at the first record whose counts
      are too low; the end of the batch; the timeout. */
  lemma {:induction false} PollStops(w: World, s: Live, polls: seq<Poll>, j: nat)
    requires j <= |polls| && forall i :: 0 <= i < j ==> GoesOn(w, s, polls, i)
    ensures var b, r := Before(w, s, polls, j), PollAll(w, s, polls);
            if b.pending == {} then r == (b, Done)
            else if j == |polls| then r == (b, Polling)
            else
              var a := Before(w, s, polls, j + 1);
              && (forall k: nat :: FirstAbort(w, b, polls[j].events, k) ==>
                                r == (Taken(w, b, polls[j].events[..k + 1]), Aborted))
              && (NoneAborts(w, b, polls[j].events) && a.pending != {} ==>
                    && (polls[j].batchDone ==> r == (a.(pending := {}), BatchEnded))
                    && (!polls[j].batchDone && polls[j].timedOut ==> r == (a, TimedOut)))
  {
    hide Taken, Handle, NoneAborts, FirstAbort;
    PollGoesOn(w, s, polls, j);
    if j < |polls| {
      BeforeNext(w, s, polls, j);
      HandleEvents(w, Before(w, s, polls, j), polls[j].events);
      assert polls[j..][0] == polls[j];
    }
  }

  /** A reply that finds the batch ended, or the time used up, ends a run in which
      nothing is aborted, and the polls after it change nothing. */
  lemma {:induction false} LaterPollsIgnored(w: World, s: Live, polls: seq<Poll>, more: seq<Poll>, j: nat)
    requires j < |polls| && (forall i :: 0 <= i < j ==> GoesOn(w, s, polls, i)) && !GoesOn(w, s, polls, j)
    ensures PollAll(w, s, polls + more) == PollAll(w, s, polls)
  {
    hide Taken, Handle, NoneAborts, GoesOn;
    PollPrefix(w, s, polls, more, j);
  }

  lemma {:induction false} BeforePrefix(w: World, s: Live, polls: seq<Poll>, more: seq<Poll>, j: nat)
    requires j <= |polls|
    ensures Before(w, s, polls + more, j) == Before(w, s, polls, j)
    decreases j
  {
    hide Taken;
    if j > 0 {
      assert (polls + more)[1..] == polls[1..] + more;
      BeforePrefix(w, Taken(w, s, polls[0].events), polls[1..], more, j - 1);
    }
  }

  lemma {:induction false} PollPrefix(w: World, s: Live, polls: seq<Poll>, more: seq<Poll>, j: nat)
    requires j < |polls| && (forall i :: 0 <= i < j ==> GoesOn(w, s, polls, i)) && !GoesOn(w, s, polls, j)
    ensures PollAll(w, s, polls + more) == PollAll(w, s, polls)
  {
    hide Taken, Handle, NoneAborts;
    var all := polls + more;
    forall i | 0 <= i < j
      ensures GoesOn(w, s, all, i)
    {
      BeforePrefix(w, s, polls, more, i);
      BeforePrefix(w, s, polls, more, i + 1);
      assert GoesOn(w, s, polls, i);
    }
    BeforePrefix(w, s, polls, more, j);
    BeforePrefix(w, s, polls, more, j + 1);
    PollGoesOn(w, s, polls, j);
    PollGoesOn(w, s, all, j);
    BeforeNext(w, s, polls, j);
    StopsHere(w, Before(w, s, polls, j), polls[j..], all[j..], Before(w, s, polls, j + 1));
  }

  lemma {:induction false} StopsHere(w: World, b: Live, polls: seq<Poll>, all: seq<Poll>, a: Live)
    requires polls != [] && all != [] && polls[0] == all[0] && a == Taken(w, b, polls[0].events)
    requires b.pending == {} || !NoneAborts(w, b, polls[0].events)
             || (a.pending != {} && (polls[0].batchDone || polls[0].timedOut))
    ensures PollAll(w, b, polls) == PollAll(w, b, all)
  {
    hide Taken, Handle, AbortsAt;
    var events := polls[0].events;
    HandleEvents(w, b, events);
    if !NoneAborts(w, b, events) {
      FirstExists(w, b, events);
    }
  }

  lemma {:induction false} FirstExists(w: World, s: Live, events: seq<Event>)
    requires !NoneAborts(w, s, events)
    ensures exists k: nat :: FirstAbort(w, s, events, k)
  {
    hide AbortsAt;
    var k :| 0 <= k < |events| && AbortsAt(w, s, events, k);
    FirstUpTo(w, s, events, k);
  }

  lemma {:induction false} FirstUpTo(w: World, s: Live, events: seq<Event>, k: nat)
    requires k < |events| && AbortsAt(w, s, events, k)
    ensures exists j: nat :: FirstAbort(w, s, events, j)
    decreases k
  {
    hide AbortsAt;
    if j: nat :| j < k && AbortsAt(w, s, events, j) {
      FirstUpTo(w, s, events, j);
    } else {
      assert FirstAbort(w, s, events, k);
    }
  }

  // ---- low accuracy ----

  /** The counts of the first `n` answers stop the run. */
  predicate TooLow(w: World, answers: seq<Record>, n: nat)
    requires n <= |answers|
  { w.abort(n, CountPassed(answers[..n])) }

  /** After the first `m` answers, no counts but those of the last one stop the run,
      and they do exactly when it was aborted. */
  predicate AbortedAtLast(w: World, answers: seq<Record>, m: nat, aborted: bool) {
    && m <= |answers|
    && (forall n :: m < n < |answers| ==> !TooLow(w, answers, n))
    && (aborted <==> m < |answers| && TooLow(w, answers, |answers|))
  }

  /** Records are only ever added at the end. */
  predicate Extends(before: Live, after: Live) { before.answers <= after.answers }

  lemma {:induction false} TooLowExtends(w: World, a: seq<Record>, b: seq<Record>, n: nat)
    requires a <= b && n <= |a|
    ensures TooLow(w, a, n) <==> TooLow(w, b, n)
  {
    assert a[..n] == b[..n];
  }

  lemma {:induction false} AbortedJoin(w: World, a: seq<Record>, b: seq<Record>, m: nat, aborted: bool)
    requires a <= b && AbortedAtLast(w, a, m, false) && AbortedAtLast(w, b, |a|, aborted)
    ensures AbortedAtLast(w, b, m, aborted)
  {
    hide TooLow;
    forall n | m < n < |b|
      ensures !TooLow(w, b, n)
    {
      if n <= |a| {
        TooLowExtends(w, a, b, n);
      }
    }
    TooLowExtends(w, a, b, |a|);
  }

  lemma {:induction false} NothingNew(w: World, answers: seq<Record>)
    ensures AbortedAtLast(w, answers, |answers|, false)
  {
  }

  lemma {:induction false} AppendAborts(w: World, s: Live, rec: Record)
    requires Consistent(s)
    ensures var next := Append(s, rec);
            Consistent(next) && Extends(s, next)
            && AbortedAtLast(w, next.answers, |s.answers|, w.abort(|next.answers|, next.passed))
  {
    hide Running, CountPassed;
    AppendKeeps(s, rec);
    var next := Append(s, rec);
    assert next.answers[..|next.answers|] == next.answers;
  }

  lemma {:induction false} HandleAborts(w: World, s: Live, events: seq<Event>)
    requires Consistent(s)
    ensures var (t, out) := Handle(w, s, events);
            Consistent(t) && Extends(s, t) && AbortedAtLast(w, t.answers, |s.answers|, out == Aborted)
    decreases |events|
  {
    hide Consistent, AbortedAtLast, Append, Graded;
    NothingNew(w, s.answers);
    if events != [] {
      if Counts(s, events[0]) {
        var rec := Graded(w, events[0].id, events[0].reply);
        AppendAborts(w, s, rec);
        var next := Append(s, rec);
        if !w.abort(|next.answers|, next.passed) {
          HandleAborts(w, next, events[1..]);
          AbortedJoin(w, next.answers, Handle(w, next, events[1..]).0.answers, |s.answers|,
                      Handle(w, next, events[1..]).1 == Aborted);
        }
      } else {
        HandleAborts(w, s, events[1..]);
      }
    }
  }

  lemma {:induction false} PollAborts(w: World, s: Live, polls: seq<Poll>)
    requires Consistent(s)
    ensures var (t, out) := PollAll(w, s, polls);
            Consistent(t) && Extends(s, t) && AbortedAtLast(w, t.answers, |s.answers|, out == Aborted)
    decreases |polls|
  {
    hide Handle, AbortedAtLast, Running, Ids, SetOf;
    NothingNew(w, s.answers);
    if s.pending != {} && polls != [] {
      HandleAborts(w, s, polls[0].events);
      HandleOutcome(w, s, polls[0].events);
      var next := Handle(w, s, polls[0].events).0;
      PollAborts(w, next, polls[1..]);
      if Handle(w, s, polls[0].events).1 == Done {
        AbortedJoin(w, next.answers, PollAll(w, next, polls[1..]).0.answers, |s.answers|,
                    PollAll(w, next, polls[1..]).1 == Aborted);
      }
    }
  }

  /** A run is aborted exactly at the first record whose counts are too low: that
      record is the last answer, and no answer before it had such counts. */
  lemma {:induction false} AbortExactly(w: World, requests: set<string>, polls: seq<Poll>)
    ensures var (s, out) := PollAll(w, NewLive(requests), polls);
            (forall n :: 0 < n < |s.answers| ==> !w.abort(n, CountPassed(s.answers[..n])))
            && (out == Aborted <==> s.answers != [] && w.abort(|s.answers|, CountPassed(s.answers)))
  {
    assert Consistent(NewLive(requests));
    hide PollAll, CountPassed, Consistent;
    PollAborts(w, NewLive(requests), polls);
    var answers := PollAll(w, NewLive(requests), polls).0.answers;
    assert answers[..|answers|] == answers;
    forall n | 0 < n < |answers|
      ensures !w.abort(n, CountPassed(answers[..n]))
    {
      assert !TooLow(w, answers, n);
    }
  }

  // ---- what is recorded ----

  /** The requests that the events end. */
  function Ends(events: seq<Event>, requests: set<string>): set<string> {
    set e | e in events && EndsRequest(e, requests) :: e.id
  }

  /** Events that are all handled record exactly the pending requests that they end. */
  lemma {:induction false} TakenAnswers(w: World, s: Live, events: seq<Event>, requests: set<string>)
    requires Once(s, requests) && Echoes(events, requests)
    ensures var t := Taken(w, s, events);
            Once(t, requests) && t.answered == s.answered + Ends(events, requests)
    decreases |events|
  {
    hide Distinct, Ids, Append;
    if events == [] {
      assert Ends(events, requests) == {};
    } else {
      var e, next := events[0], Took(w, s, events[0]);
      EndsHead(events, requests);
      if Counts(s, e) {
        AppendOnce(s, Graded(w, e.id, e.reply), requests);
        AppendAnswers(s, Graded(w, e.id, e.reply));
      }
      TakenAnswers(w, next, events[1..], requests);
    }
  }

  lemma {:induction false} AppendAnswers(s: Live, rec: Record)
    ensures Append(s, rec).answered == s.answered + {rec.id}
  {
  }

  lemma {:induction false} EndsHead(events: seq<Event>, requests: set<string>)
    requires events != []
    ensures Ends(events, requests)
            == (if EndsRequest(events[0], requests) then {events[0].id} else {}) + Ends(events[1..], requests)
  {
    assert events == [events[0]] + events[1..];
  }

  /** A run that nothing stops has recorded exactly the requests ended by its polls. */
  lemma {:induction false} BeforeAnswers(w: World, s: Live, polls: seq<Poll>, j: nat, requests: set<string>)
    requires j <= |polls| && Once(s, requests) && AllEcho(polls, requests)
    ensures var b := Before(w, s, polls, j);
            Once(b, requests)
            && b.answered == s.answered + set i, e | 0 <= i < j && e in polls[i].events && EndsRequest(e, requests) :: e.id
    decreases j
  {
    hide Once, Taken, Echoes;
    if j > 0 {
      var next := Taken(w, s, polls[0].events);
      TakenAnswers(w, s, polls[0].events, requests);
      BeforeAnswers(w, next, polls[1..], j - 1, requests);
      EndedHead(polls, j, requests);
    }
  }

  lemma {:induction false} EndedHead(polls: seq<Poll>, j: nat, requests: set<string>)
    requires 0 < j <= |polls|
    ensures (set i, e | 0 <= i < j && e in polls[i].events && EndsRequest(e, requests) :: e.id)
            == Ends(polls[0].events, requests)
               + set i, e | 0 <= i < j - 1 && e in polls[1..][i].events && EndsRequest(e, requests) :: e.id
  {
    var all := set i, e | 0 <= i < j && e in polls[i].events && EndsRequest(e, requests) :: e.id;
    var rest := set i, e | 0 <= i < j - 1 && e in polls[1..][i].events && EndsRequest(e, requests) :: e.id;
    forall id | id in all
      ensures id in Ends(polls[0].events, requests) + rest
    {
      var i, e :| 0 <= i < j && e in polls[i].events && EndsRequest(e, requests) && e.id == id;
      if i > 0 {
        assert e in polls[1..][i - 1].events;
      }
    }
    forall id | id in rest
      ensures id in all
    {
      var i, e :| 0 <= i < j - 1 && e in polls[1..][i].events && EndsRequest(e, requests) && e.id == id;
      assert e in polls[i + 1].events;
    }
  }

  // ---- grading the collect ----

  /** The row is graded under its id, or under the text "None" when its result has no id at all. */
  predicate Approves(w: World, row: Row) {
    w.passes(if row.id == "" && row.absent then "None" else row.id, row.text)
  }

  /** The places of the rows that pass. */
  function Approved(w: World, rows: seq<Row>): set<nat> { set i: nat | i < |rows| && Approves(w, rows[i]) }

  function TokensOf(rows: seq<Row>): int { if rows == [] then 0 else rows[0].tokens + TokensOf(rows[1..]) }

  lemma {:induction false} TokensAppend(rows: seq<Row>)
    requires rows != []
    ensures TokensOf(rows) == TokensOf(rows[..|rows| - 1]) + rows[|rows| - 1].tokens
  {
    if |rows| > 1 {
      TokensAppend(rows[1..]);
      assert rows[1..][..|rows| - 2] == rows[..|rows| - 1][1..];
    }
  }

  lemma {:induction false} ApprovedAppend(w: World, rows: seq<Row>)
    requires rows != []
    ensures var n := |rows| - 1;
            |Approved(w, rows)| == |Approved(w, rows[..n])| + if Approves(w, rows[n]) then 1 else 0
  {
    hide Approves;
    var n := |rows| - 1;
    var front := Approved(w, rows[..n]);
    assert Approved(w, rows) == if Approves(w, rows[n]) then front + {n} else front;
  }

  /** Grading a collect counts its rows, those approved of, and their tokens. */
  lemma {:induction false} CollectGraded(w: World, rows: seq<Row>)
    ensures GradeCollect(w, rows) == Grade(|rows|, |Approved(w, rows)|, TokensOf(rows))
  {
    hide Approved;
    if rows == [] {
      NoneApproved(w, rows);
    } else {
      var n := |rows| - 1;
      CollectGraded(w, rows[..n]);
      TokensAppend(rows);
      ApprovedAppend(w, rows);
    }
  }

  lemma {:induction false} NoneApproved(w: World, rows: seq<Row>)
    requires rows == []
    ensures Approved(w, rows) == {}
  {
  }
}
