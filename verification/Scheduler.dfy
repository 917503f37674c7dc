/** The evaluator's case loop: it runs the pending cases in cyclic order, and the user
    may select another case or quit at any look at the keyboard. */
module Scheduler {
  datatype Status = Pending | Prefill | Thinking | Skipped | Stopped | Passed | Failed

  /** What was typed between two looks at the keyboard. */
  datatype Input = Input(move: int, enter: bool, quit: bool, pause: bool)

  /** RunWaiting: the program is paused and nothing more is typed. */
  datatype RunResult = RunOk | RunError | RunSwitch | RunQuit | RunWaiting

  /** What a run cannot foresee. Cases whose prompt leaves no room are skipped; the n-th
      run looks at the keyboard so often while reading the prompt and while generating,
      may fail at either, and is graded. */
  datatype World = World(skips: nat -> bool, promptFails: nat -> bool, prefillLooks: nat -> nat, prefillFails: nat -> bool,
                         looks: nat -> nat, decodeFails: nat -> bool, passes: nat -> bool)

  /** The user's selection: the highlighted case, the requested one (-1: none), quit, pause. */
  datatype Choice = Choice(active: bool, selected: int, requested: int, quit: bool, paused: bool)

  predicate Running(s: Status) { s == Prefill || s == Thinking }

  predicate Settled(s: Status) { s == Skipped || s == Passed || s == Failed }

  // ---- the keyboard ----

  function Clamp(i: int, n: nat): int { if i < 0 then 0 else if i >= n then n - 1 else i }

  function Activated(c: Choice, current: nat): Choice { if c.active then c else c.(active := true, selected := current) }

  function Moved(c: Choice, move: int, current: nat, n: nat): Choice {
    if move == 0 then c
    else
      var a := Activated(c, current);
      a.(selected := Clamp(a.selected + move, n))
  }

  function Entered(c: Choice, enter: bool, current: nat, running: bool): Choice {
    if !enter then c
    else
      var a := Activated(c, current);
      if a.selected != current || !running then a.(requested := a.selected) else a
  }

  /** tui_consume_input on the selection, with `current` the active case. */
  function Typed(c: Choice, input: Input, current: nat, running: bool, n: nat): Choice {
    if input.quit then c.(quit := true, paused := false)
    else
      var p := if input.pause then c.(paused := !c.paused) else c;
      Entered(Moved(p, input.move, current, n), input.enter, current, running)
  }

  /** A request names an existing case, and while a case runs never that case. */
  lemma {:induction false} RequestsOtherCase(c: Choice, input: Input, current: nat, running: bool, n: nat)
    requires 0 <= c.selected < n && -1 <= c.requested < n && current < n
    ensures var d := Typed(c, input, current, running, n);
      0 <= d.selected < n && -1 <= d.requested < n &&
      (running && c.requested != current ==> d.requested != current) &&
      (d.requested != c.requested ==> input.enter && !input.quit && d.requested == d.selected) &&
      (d.paused <==> !input.quit && (c.paused <==> !input.pause))
  {
  }

  /** What the keys do, without a quit: the arrows move the highlight from the active
      case within the table, and enter requests the highlighted case unless it runs. */
  lemma {:induction false} KeysSelect(c: Choice, input: Input, current: nat, running: bool, n: nat)
    requires 0 <= c.selected < n && current < n && !input.quit
    ensures
      var d := Typed(c, input, current, running, n);
      var highlighted := if c.active then c.selected else current;
      var target := if input.move == 0 then highlighted else highlighted + input.move;
      var kept := if target < 0 then 0 else if target >= n then n - 1 else target;
      d.active == (c.active || input.move != 0 || input.enter) &&
      (d.active ==> d.selected == kept) && (!d.active ==> d.selected == c.selected) &&
      d.requested == (if input.enter && !(running && kept == current) then kept else c.requested) && d.quit == c.quit
  {
  }

  /** A quit changes nothing but the quit flag and the pause, and no key takes it back. */
  lemma {:induction false} QuitStays(c: Choice, input: Input, current: nat, running: bool, n: nat)
    ensures var d := Typed(c, input, current, running, n);
      (d.quit <==> c.quit || input.quit) && (input.quit ==> d == c.(quit := true, paused := false))
  {
  }

  /** The choice after everything in `inputs` was typed, while the active case stays the same. */
  function TypedAll(c: Choice, inputs: seq<Input>, current: nat, running: bool, n: nat): Choice {
    if inputs == [] then c
    else Typed(TypedAll(c, inputs[..|inputs| - 1], current, running, n), inputs[|inputs| - 1], current, running, n)
  }

  /** After each of the first `from` to `to - 1` inputs the program is paused. */
  predicate PausedAll(c: Choice, inputs: seq<Input>, from: nat, to: nat, current: nat, running: bool, n: nat)
    requires to <= |inputs|
  { forall k :: from <= k < to ==> TypedAll(c, inputs[..k], current, running, n).paused }

  lemma {:induction false} PausedPart(c: Choice, inputs: seq<Input>, m: nat, current: nat, running: bool, n: nat)
    requires m <= |inputs| && PausedAll(c, inputs, 1, m, current, running, n)
    ensures PausedAll(c, inputs[..m], 1, m, current, running, n)
  {
    assert forall k :: 1 <= k < m ==> inputs[..m][..k] == inputs[..k];
  }

  lemma {:induction false} TypedNext(c: Choice, inputs: seq<Input>, k: nat, current: nat, running: bool, n: nat)
    requires k < |inputs|
    ensures TypedAll(c, inputs[..k + 1], current, running, n)
         == Typed(TypedAll(c, inputs[..k], current, running, n), inputs[k], current, running, n)
  {
    assert inputs[..k + 1][..k] == inputs[..k];
  }

  /** Requests and quits come from what is typed; without a selection or a quit there is
      none, and without a pause key no pause. */
  lemma {:induction false} TypedFacts(c: Choice, inputs: seq<Input>, current: nat, running: bool, n: nat)
    requires 0 <= c.selected < n && -1 <= c.requested < n && current < n
    ensures var d := TypedAll(c, inputs, current, running, n);
      0 <= d.selected < n && -1 <= d.requested < n &&
      (running && c.requested != current ==> d.requested != current) &&
      (Passive(inputs) ==> d.requested == c.requested && d.quit == c.quit) &&
      (Calm(inputs) && !c.paused ==> !d.paused)
  {
    hide Passive, Calm, Typed;
    if inputs != [] {
      var last := |inputs| - 1;
      TypedFacts(c, inputs[..last], current, running, n);
      var before := TypedAll(c, inputs[..last], current, running, n);
      LastFacts(before, inputs, current, running, n);
    }
  }

  lemma {:induction false} LastFacts(before: Choice, inputs: seq<Input>, current: nat, running: bool, n: nat)
    requires inputs != [] && 0 <= before.selected < n && -1 <= before.requested < n && current < n
    ensures
      var d := Typed(before, inputs[|inputs| - 1], current, running, n);
      0 <= d.selected < n && -1 <= d.requested < n &&
      (running && before.requested != current ==> d.requested != current) &&
      (Passive(inputs) ==> Passive(inputs[..|inputs| - 1]) && d.requested == before.requested && d.quit == before.quit) &&
      (Calm(inputs) ==> Calm(inputs[..|inputs| - 1]) && (!before.paused ==> !d.paused))
  {
    var last := inputs[|inputs| - 1];
    RequestsOtherCase(before, last, current, running, n);
    assert Calm(inputs) ==> !last.pause;
    assert Passive(inputs) ==> !last.enter && !last.quit;
  }

  // ---- the looks of a run ----

  function Left(m: nat, k: nat): nat { if k < m then m - k else 0 }

  /** The inputs that the first `j` looks of a run have read when nothing pauses it. */
  function Seen(enabled: bool, given: seq<Input>, j: nat): seq<Input> {
    if !enabled then [] else if j < |given| then given[..j] else given
  }

  /** A quit, or a request for a case. */
  predicate Asks(c: Choice) { c.quit || c.requested >= 0 }

  function ResultOf(c: Choice): RunResult { if c.quit then RunQuit else if c.requested >= 0 then RunSwitch else RunOk }

  predicate Unpaused(start: Choice, given: seq<Input>) { Calm(given) && !start.paused }

  /** At the looks from `from` up to `to`, when nothing pauses the run, nothing is asked for. */
  predicate Unasked(enabled: bool, n: nat, idx: nat, start: Choice, given: seq<Input>, from: nat, to: nat) {
    forall j :: from <= j < to ==> !Asks(TypedAll(start, Seen(enabled, given, j), idx, true, n))
  }

  /** After the `a`-th and before the `b`-th input, a quit or a request stands only when the
      program was already paused one input earlier. */
  predicate AskedWhilePaused(start: Choice, given: seq<Input>, a: nat, b: nat, idx: nat, n: nat)
    requires b <= |given|
  {
    forall k :: a < k < b && ResultOf(TypedAll(start, given[..k], idx, true, n)) != RunOk ==>
      TypedAll(start, given[..k - 1], idx, true, n).paused
  }

  lemma {:induction false} NothingAskedYet(start: Choice, given: seq<Input>, a: nat, idx: nat, n: nat)
    requires a <= |given|
    ensures AskedWhilePaused(start, given, a, a, idx, n)
  {
  }

  lemma {:induction false} AskedJoins(start: Choice, given: seq<Input>, a: nat, k: nat, b: nat, idx: nat, n: nat)
    requires a <= k <= b <= |given| && AskedWhilePaused(start, given, a, k, idx, n) && AskedWhilePaused(start, given, k, b, idx, n)
    requires ResultOf(TypedAll(start, given[..k], idx, true, n)) == RunOk
    ensures AskedWhilePaused(start, given, a, b, idx, n)
  {
    hide TypedAll, ResultOf;
  }

  /** One more input, read when nothing is asked for. */
  lemma {:induction false} NotYetAsked(start: Choice, given: seq<Input>, a: nat, k: nat, j: nat, idx: nat, n: nat)
    requires a <= k <= j <= k + 1 && j <= |given| && AskedWhilePaused(start, given, a, k, idx, n)
    requires ResultOf(TypedAll(start, given[..k], idx, true, n)) == RunOk
    ensures AskedWhilePaused(start, given, a, j, idx, n)
  {
  }

  /** A wait goes on while the program is paused. */
  lemma {:induction false} WaitedAsked(start: Choice, given: seq<Input>, a: nat, j: nat, b: nat, idx: nat, n: nat)
    requires a <= j <= b <= |given| && AskedWhilePaused(start, given, a, j, idx, n)
    requires ResultOf(TypedAll(start, given[..j], idx, true, n)) == RunOk && PausedAll(start, given, j, b, idx, true, n)
    ensures AskedWhilePaused(start, given, a, b, idx, n)
  {
    hide TypedAll, ResultOf;
  }

  /** `read` is what was read by the first look, from `from` to `to`, at which the user asked for something. */
  predicate AskedFirst(enabled: bool, n: nat, idx: nat, start: Choice, given: seq<Input>, read: seq<Input>, from: nat, to: nat) {
    exists j :: from <= j <= to && read == Seen(enabled, given, j) && Unasked(enabled, n, idx, start, given, from, j)
  }

  lemma {:induction false} AskedJust(enabled: bool, n: nat, idx: nat, start: Choice, given: seq<Input>,
                                     read: seq<Input>, from: nat, j: nat, to: nat)
    requires read == Seen(enabled, given, j) && from <= j <= to && Unasked(enabled, n, idx, start, given, from, j)
    ensures AskedFirst(enabled, n, idx, start, given, read, from, to)
  {
  }

  lemma {:induction false} AskedAtOnce(enabled: bool, n: nat, idx: nat, start: Choice, given: seq<Input>,
                                       read: seq<Input>, from: nat, to: nat)
    requires read == Seen(enabled, given, from) && from <= to
    ensures AskedFirst(enabled, n, idx, start, given, read, from, to)
  {
    NoneYet(enabled, n, idx, start, given, from);
  }

  lemma {:induction false} NoneYet(enabled: bool, n: nat, idx: nat, start: Choice, given: seq<Input>, from: nat)
    ensures Unasked(enabled, n, idx, start, given, from, from)
  {
  }

  // ---- the next pending case ----

  function Cyclic(start: nat, off: nat, n: nat): (i: nat)
    requires n > 0
    ensures i < n
  {
    (start + off) % n
  }

  /** Nothing typed selects a case or quits. */
  predicate Passive(inputs: seq<Input>) { forall i :: 0 <= i < |inputs| ==> !inputs[i].enter && !inputs[i].quit }

  /** Nothing typed pauses. */
  predicate Calm(inputs: seq<Input>) { forall i :: 0 <= i < |inputs| ==> !inputs[i].pause }

  lemma {:induction false} PassivePart(given: seq<Input>, k: nat)
    requires k <= |given|
    ensures Passive(given) ==> Passive(given[..k]) && Passive(given[k..])
    ensures Calm(given) ==> Calm(given[..k])
  {
  }

  /** The first pending case from start on, cyclically; -1 when none is pending. */
  predicate IsNextPending(status: seq<Status>, start: nat, i: int) {
    if i < 0 then i == -1 && forall k :: 0 <= k < |status| ==> status[k] != Pending
    else i < |status| && status[i] == Pending && exists off: nat :: off < |status| && FirstAt(status, start, off, i)
  }

  predicate FirstAt(status: seq<Status>, start: nat, off: nat, i: int)
    requires |status| > 0
  {
    Cyclic(start, off, |status|) == i && NoneBefore(status, start, off)
  }

  predicate NoneBefore(status: seq<Status>, start: nat, off: nat)
    requires |status| > 0
  {
    forall k: nat :: k < off ==> status[Cyclic(start, k, |status|)] != Pending
  }

  method NextPendingCase(status: array<Status>, start: nat) returns (i: int)
    ensures IsNextPending(status[..], start, i)
  {
    hide Cyclic;
    if status.Length == 0 {
      return -1;
    }
    for off: nat := 0 to status.Length
      invariant NoneBefore(status[..], start, off)
    {
      i := Cyclic(start, off, status.Length);
      if status[i] == Pending {
        assert FirstAt(status[..], start, off, i);
        return;
      }
    }
    forall k | 0 <= k < status.Length ensures status[..][k] != Pending {
      var off := CyclicCover(start, status.Length, k);
      assert status[..][Cyclic(start, off, status.Length)] != Pending;
    }
    return -1;
  }

  lemma {:induction false} CyclicCover(start: nat, n: nat, k: nat) returns (off: nat)
    requires k < n
    ensures off < n && Cyclic(start, off, n) == k
  {
    var q, r := start / n, start % n;
    if k >= r {
      off := k - r;
      RemainderIs(start + off, n, q, k);
    } else {
      off := k + n - r;
      assert (q + 1) * n == q * n + n;
      RemainderIs(start + off, n, q + 1, k);
    }
  }

  lemma {:induction false} RemainderIs(a: int, n: nat, q: int, k: nat)
    requires k < n && a == q * n + k
    ensures a % n == k
  {
    var d := a / n - q;
    assert d * n == (a / n) * n - q * n;
    Multiples(d, n);
  }

  lemma {:induction false} Multiples(d: int, n: nat)
    ensures d >= 1 ==> d * n >= n
    ensures d <= -1 ==> d * n <= -(n as int)
  {
    if d >= 1 {
      assert d * n == (d - 1) * n + n && (d - 1) * n >= 0;
    } else if d <= -1 {
      assert d * n == (d + 1) * n - n && (d + 1) * n <= 0;
    }
  }

  function PendingCount(status: seq<Status>): nat {
    if status == [] then 0 else PendingCount(status[..|status| - 1]) + (if status[|status| - 1] == Pending then 1 else 0)
  }

  lemma {:induction false} PendingCountSet(status: seq<Status>, i: nat, s: Status)
    requires i < |status|
    ensures PendingCount(status[i := s]) ==
      PendingCount(status) - (if status[i] == Pending then 1 else 0) + (if s == Pending then 1 else 0)
  {
    var n := |status| - 1;
    if i < n {
      PendingCountSet(status[..n], i, s);
      assert status[i := s][..n] == status[..n][i := s];
    } else {
      assert status[i := s][..n] == status[..n];
    }
  }

  // ---- the evaluator's state ----

  class EvalUi {
    const enabled: bool
    const status: array<Status>
    var activeCase: nat
    var choice: Choice
    var queue: seq<Input>

    predicate Valid()
      reads this
    {
      status.Length > 0 && activeCase < status.Length &&
      0 <= choice.selected < status.Length && -1 <= choice.requested < status.Length
    }

    constructor (ncases: nat, enabled: bool, inputs: seq<Input>)
      requires ncases > 0
      ensures Valid() && fresh(status) && status[..] == seq(ncases, _ => Pending) && queue == inputs
      ensures choice == Choice(false, 0, -1, false, false) && this.enabled == enabled && activeCase == 0
    {
      this.enabled := enabled;
      status := new Status[ncases](_ => Pending);
      activeCase, choice, queue := 0, Choice(false, 0, -1, false, false), inputs;
      new;
      assert status[..] == seq(ncases, _ => Pending);
    }

    /** tui_consume_input */
    method ConsumeInput()
      requires Valid()
      modifies this`choice, this`queue
      ensures Valid()
      ensures !enabled || old(queue) == [] ==> choice == old(choice) && queue == old(queue)
      ensures enabled && old(queue) != [] ==> queue == old(queue)[1..]
      ensures enabled && old(queue) != [] ==>
        choice == Typed(old(choice), old(queue)[0], activeCase, Running(status[activeCase]), status.Length)
    {
      if !enabled || queue == [] {
        return;
      }
      var input := queue[0];
      queue := queue[1..];
      if input.quit {
        choice := choice.(quit := true, paused := false);
        return;
      }
      if input.pause {
        choice := choice.(paused := !choice.paused);
      }
      Move(input.move);
      Enter(input.enter);
    }

    method Move(move: int)
      requires Valid()
      modifies this`choice
      ensures Valid() && choice == Moved(old(choice), move, activeCase, status.Length)
    {
      if move != 0 {
        if !choice.active {
          choice := choice.(active := true, selected := activeCase);
        }
        var selected := choice.selected + move;
        if selected < 0 {
          selected := 0;
        }
        if selected >= status.Length {
          selected := status.Length - 1;
        }
        choice := choice.(selected := selected);
      }
    }

    method Enter(enter: bool)
      requires Valid()
      modifies this`choice
      ensures Valid() && choice == Entered(old(choice), enter, activeCase, Running(status[activeCase]))
    {
      if enter {
        if !choice.active {
          choice := choice.(active := true, selected := activeCase);
        }
        if choice.selected != activeCase || !Running(status[activeCase]) {
          choice := choice.(requested := choice.selected);
        }
      }
    }

    predicate HasQuit()
      reads this
    { enabled && choice.quit }

    predicate HasSwitch(running: nat)
      reads this
    { enabled && 0 <= choice.requested < status.Length && choice.requested != running }

    /** What has been read of `given`. */
    function ReadOf(given: seq<Input>): seq<Input>
      requires |queue| <= |given|
      reads this
    { given[..|given| - |queue|] }

    /** Since the choice was `start`, exactly the inputs read of `given` have been typed. */
    predicate Follows(idx: nat, running: bool, start: Choice, given: seq<Input>)
      reads this, status
    {
      Valid() && activeCase == idx && Running(status[idx]) == running &&
      |queue| <= |given| && queue == given[|given| - |queue|..] && (!enabled ==> queue == given) &&
      choice == TypedAll(start, ReadOf(given), idx, running, status.Length)
    }

    method Look(idx: nat, ghost running: bool, ghost start: Choice, ghost given: seq<Input>)
      requires Follows(idx, running, start, given)
      modifies this`choice, this`queue
      ensures Follows(idx, running, start, given)
      ensures |queue| == if enabled && old(queue) != [] then |old(queue)| - 1 else |old(queue)|
      ensures !enabled || old(queue) == [] ==> choice == old(choice)
    {
      hide Typed, TypedAll, Running;
      ghost var k := |given| - |queue|;
      if queue != [] {
        TypedNext(start, given, k, idx, running, status.Length);
        assert queue[0] == given[k] && queue[1..] == given[k + 1..];
      }
      ConsumeInput();
    }

    /** tui_wait_if_paused: looks again until the pause is lifted; false when it never is. */
    method WaitIfPaused(idx: nat, ghost running: bool, ghost start: Choice, ghost given: seq<Input>) returns (ready: bool)
      requires Follows(idx, running, start, given)
      modifies this`choice, this`queue
      ensures Follows(idx, running, start, given) && |queue| <= |old(queue)|
      ensures ready <==> !(enabled && choice.paused)
      ensures !ready ==> queue == []
      // nothing is read without a pause, and nothing after the pause is lifted
      ensures !(enabled && old(choice).paused) ==> queue == old(queue) && choice == old(choice)
      ensures PausedAll(start, given, |given| - |old(queue)|, |given| - |queue|, idx, running, status.Length)
    {
      while enabled && choice.paused
        invariant Follows(idx, running, start, given) && |queue| <= |old(queue)|
        invariant !(enabled && old(choice).paused) ==> queue == old(queue) && choice == old(choice)
        invariant PausedAll(start, given, |given| - |old(queue)|, |given| - |queue|, idx, running, status.Length)
        decreases |queue|
      {
        if queue == [] {
          return false;
        }
        Look(idx, running, start, given);
      }
      return true;
    }

    /** A choice that a run may start from: in range, nothing requested. */
    predicate StartsRun(start: Choice) { 0 <= start.selected < status.Length && start.requested == -1 && !start.quit }

    lemma {:induction false} FollowsIs(idx: nat, running: bool, start: Choice, given: seq<Input>)
      requires Follows(idx, running, start, given)
      ensures Valid() && activeCase == idx && idx < status.Length && Running(status[idx]) == running
      ensures |queue| <= |given| && given == ReadOf(given) + queue && (!enabled ==> ReadOf(given) == [] && queue == given)
      ensures choice == TypedAll(start, ReadOf(given), idx, running, status.Length)
    {
      hide TypedAll, Running;
      assert given == given[..|given| - |queue|] + given[|given| - |queue|..];
    }

    lemma {:induction false} StaysUnpaused(idx: nat, start: Choice, given: seq<Input>)
      requires Follows(idx, true, start, given) && StartsRun(start)
      ensures Unpaused(start, given) ==> !choice.paused
      ensures choice.requested != idx && -1 <= choice.requested < status.Length
    {
      PassivePart(given, |given| - |queue|);
      TypedFacts(start, ReadOf(given), idx, true, status.Length);
    }

    lemma {:induction false} ReadExactly(idx: nat, running: bool, start: Choice, given: seq<Input>, j: nat)
      requires Follows(idx, running, start, given)
      requires |queue| == if enabled then Left(|given|, j) else |given|
      ensures ReadOf(given) == Seen(enabled, given, j)
    {
    }

    /** The looks at the keyboard while the prompt is read. */
    method ReadPrompt(looks: nat, idx: nat, ghost start: Choice, ghost given: seq<Input>) returns (ready: bool)
      requires Follows(idx, true, start, given) && StartsRun(start) && queue == given
      modifies this`choice, this`queue
      ensures Follows(idx, true, start, given) && |queue| <= |given|
      ensures !ready ==> enabled && choice.paused && queue == []
      ensures ready && enabled ==> |queue| <= Left(|given|, looks)
      ensures Unpaused(start, given) ==> ready && (enabled ==> |queue| == Left(|given|, looks))
    {
      hide Follows, StartsRun, Unpaused;
      for n := 0 to looks
        invariant Follows(idx, true, start, given) && |queue| <= |given|
        invariant enabled ==> |queue| <= Left(|given|, n)
        invariant Unpaused(start, given) && enabled ==> |queue| == Left(|given|, n)
      {
        ready := LookAndWait(idx, start, given);
        if !ready {
          return;
        }
      }
      return true;
    }

    /** One look during a run, and the wait while paused. */
    method LookAndWait(idx: nat, ghost start: Choice, ghost given: seq<Input>) returns (ready: bool)
      requires Follows(idx, true, start, given) && StartsRun(start)
      modifies this`choice, this`queue
      ensures Follows(idx, true, start, given)
      ensures ready <==> !(enabled && choice.paused)
      ensures !ready ==> queue == []
      ensures |queue| <= if enabled then Left(|old(queue)|, 1) else |old(queue)|
      ensures Unpaused(start, given) ==> ready && (enabled ==> |queue| == Left(|old(queue)|, 1))
    {
      hide Follows, StartsRun, Unpaused;
      Look(idx, true, start, given);
      StaysUnpaused(idx, start, given);
      ready := WaitIfPaused(idx, true, start, given);
    }

    /** What the user asked for, to be obeyed before the next token. */
    function Asked(idx: nat): RunResult
      reads this
    { if HasQuit() then RunQuit else if HasSwitch(idx) then RunSwitch else RunOk }

    lemma {:induction false} AskedIs(idx: nat, start: Choice, given: seq<Input>)
      requires Follows(idx, true, start, given) && StartsRun(start)
      ensures Asked(idx) == ResultOf(choice) && choice.requested != idx
      ensures -1 <= choice.requested < status.Length
    {
      StaysUnpaused(idx, start, given);
      if !enabled {
        NothingTyped(start, idx, true, status.Length);
        assert ReadOf(given) == [];
      }
    }

    /** The look before a token: a quit or a request is obeyed at once, and again after a pause. */
    method TokenLook(idx: nat, ghost start: Choice, ghost given: seq<Input>) returns (r: RunResult)
      requires Follows(idx, true, start, given) && StartsRun(start)
      requires ResultOf(choice) == RunOk && !(enabled && choice.paused) && |queue| <= |given|
      modifies this`choice, this`queue
      ensures Follows(idx, true, start, given)
      ensures |queue| <= if enabled then Left(|old(queue)|, 1) else |old(queue)|
      ensures r == RunWaiting ==> enabled && choice.paused && queue == []
      ensures r != RunWaiting ==> r == ResultOf(choice)
      ensures r == RunOk ==> !(enabled && choice.paused)
      ensures AskedWhilePaused(start, given, |given| - |old(queue)|, |given| - |queue|, idx, status.Length)
      ensures Unpaused(start, given) ==> r != RunWaiting && (enabled ==> |queue| == Left(|old(queue)|, 1))
    {
      hide Follows, StartsRun, Unpaused, AskedWhilePaused, TypedAll, Typed, Running, Asked, Left;
      ghost var k, n := |given| - |queue|, status.Length;
      LookOnce(idx, start, given);
      AskedIs(idx, start, given);
      r := Asked(idx);
      if r == RunOk {
        ghost var j := |given| - |queue|;
        assert ResultOf(TypedAll(start, given[..j], idx, true, n)) == RunOk;
        r := WaitAndAsk(idx, start, given);
        ghost var b := |given| - |queue|;
        assert AskedWhilePaused(start, given, k, j, idx, n) && AskedWhilePaused(start, given, j, b, idx, n);
        AskedJoins(start, given, k, j, b, idx, n);
      }
    }

    method LookOnce(idx: nat, ghost start: Choice, ghost given: seq<Input>)
      requires Follows(idx, true, start, given) && StartsRun(start) && ResultOf(choice) == RunOk && |queue| <= |given|
      modifies this`choice, this`queue
      ensures Follows(idx, true, start, given) && |queue| <= |given|
      ensures |queue| == (if enabled then Left(|old(queue)|, 1) else |old(queue)|) && |queue| <= |old(queue)|
      ensures choice == TypedAll(start, given[..|given| - |queue|], idx, true, status.Length)
      ensures AskedWhilePaused(start, given, |given| - |old(queue)|, |given| - |queue|, idx, status.Length)
      ensures Unpaused(start, given) ==> !choice.paused
    {
      hide Follows, StartsRun, Unpaused, AskedWhilePaused, TypedAll, Typed, Running;
      ghost var k := |given| - |queue|;
      FollowsIs(idx, true, start, given);
      NothingAskedYet(start, given, k, idx, status.Length);
      Look(idx, true, start, given);
      FollowsIs(idx, true, start, given);
      NotYetAsked(start, given, k, k, |given| - |queue|, idx, status.Length);
      StaysUnpaused(idx, start, given);
    }

    method WaitAndAsk(idx: nat, ghost start: Choice, ghost given: seq<Input>) returns (r: RunResult)
      requires Follows(idx, true, start, given) && StartsRun(start) && ResultOf(choice) == RunOk && |queue| <= |given|
      modifies this`choice, this`queue
      ensures Follows(idx, true, start, given) && |queue| <= |old(queue)|
      ensures r == RunWaiting ==> enabled && choice.paused && queue == []
      ensures r != RunWaiting ==> r == ResultOf(choice)
      ensures r == RunOk ==> !(enabled && choice.paused)
      ensures !old(choice).paused ==> r != RunWaiting && queue == old(queue)
      ensures AskedWhilePaused(start, given, |given| - |old(queue)|, |given| - |queue|, idx, status.Length)
    {
      hide Follows, StartsRun, AskedWhilePaused, PausedAll, TypedAll, Typed, Running, Asked;
      ghost var j := |given| - |queue|;
      FollowsIs(idx, true, start, given);
      NothingAskedYet(start, given, j, idx, status.Length);
      var ready := WaitIfPaused(idx, true, start, given);
      FollowsIs(idx, true, start, given);
      WaitedAsked(start, given, j, j, |given| - |queue|, idx, status.Length);
      AskedIs(idx, start, given);
      r := if ready then Asked(idx) else RunWaiting;
    }

    method Generate(looks: nat, idx: nat, ghost from: nat, ghost start: Choice, ghost given: seq<Input>) returns (r: RunResult)
      requires Follows(idx, true, start, given) && StartsRun(start) && ResultOf(choice) == RunOk
      requires !(enabled && choice.paused)
      requires |queue| <= if enabled then Left(|given|, from) else |given|
      requires Unpaused(start, given) && enabled ==> |queue| == Left(|given|, from)
      modifies this`choice, this`queue
      ensures Follows(idx, true, start, given)
      ensures r == RunWaiting ==> enabled && choice.paused && queue == []
      ensures r != RunWaiting ==> r == ResultOf(choice)
      ensures r == RunOk ==> !(enabled && choice.paused)
      // with pauses, more is read after a quit or a request only when the program was paused before it
      ensures |queue| <= |old(queue)| <= |given| &&
        AskedWhilePaused(start, given, |given| - |old(queue)|, |given| - |queue|, idx, status.Length)
      ensures r == RunOk && enabled ==> |queue| <= Left(|given|, from + looks)
      ensures Unpaused(start, given) ==> r != RunWaiting
      ensures Unpaused(start, given) && r == RunOk ==>
        Unasked(enabled, status.Length, idx, start, given, from, from + looks + 1)
      ensures Unpaused(start, given) && r != RunOk ==>
        |queue| <= |given| && AskedFirst(enabled, status.Length, idx, start, given, ReadOf(given), from, from + looks)
    {
      hide Follows, StartsRun, Unpaused, Unasked, Seen, Asks, AskedWhilePaused, PausedAll, AskedFirst, TypedAll, Typed, Running;
      NoneYet(enabled, status.Length, idx, start, given, from);
      FollowsIs(idx, true, start, given);
      NothingAskedYet(start, given, |given| - |queue|, idx, status.Length);
      ghost var a := |given| - |queue|;
      for n := 0 to looks
        invariant Follows(idx, true, start, given) && ResultOf(choice) == RunOk && !(enabled && choice.paused)
        invariant |queue| <= |given| - a && AskedWhilePaused(start, given, a, |given| - |queue|, idx, status.Length)
        invariant |queue| <= if enabled then Left(|given|, from + n) else |given|
        invariant Unpaused(start, given) && enabled ==> |queue| == Left(|given|, from + n)
        invariant Unpaused(start, given) ==> Unasked(enabled, status.Length, idx, start, given, from, from + n)
      {
        FollowsIs(idx, true, start, given);
        if Unpaused(start, given) {
          StillUnasked(idx, start, given, from, from + n);
        }
        ghost var k := |given| - |queue|;
        r := TokenLook(idx, start, given);
        FollowsIs(idx, true, start, given);
        AskedJoins(start, given, a, k, |given| - |queue|, idx, status.Length);
        if r != RunOk {
          if Unpaused(start, given) {
            ReadExactly(idx, true, start, given, from + n + 1);
            AskedJust(enabled, status.Length, idx, start, given, ReadOf(given), from, from + n + 1, from + looks);
          }
          return;
        }
      }
      FollowsIs(idx, true, start, given);
      if Unpaused(start, given) {
        StillUnasked(idx, start, given, from, from + looks);
      }
      return RunOk;
    }

    lemma {:induction false} StillUnasked(idx: nat, start: Choice, given: seq<Input>, from: nat, j: nat)
      requires Follows(idx, true, start, given) && ResultOf(choice) == RunOk && from <= j
      requires |queue| == if enabled then Left(|given|, j) else |given|
      requires Unasked(enabled, status.Length, idx, start, given, from, j)
      ensures Unasked(enabled, status.Length, idx, start, given, from, j + 1)
    {
      hide TypedAll;
      ReadExactly(idx, true, start, given, j);
    }

    /** The prompt is read, with the looks that takes and one more. */
    method ReadWholePrompt(w: World, run: nat, idx: nat, ghost start: Choice, ghost given: seq<Input>) returns (r: RunResult)
      requires Follows(idx, true, start, given) && StartsRun(start) && queue == given
      modifies this`choice, this`queue
      ensures Follows(idx, true, start, given)
      ensures r == RunWaiting ==> enabled && choice.paused && queue == []
      ensures r == RunError ==> w.prefillFails(run)
      ensures r != RunWaiting && r != RunError ==> r == ResultOf(choice) && !(enabled && choice.paused) && !w.prefillFails(run)
      ensures r == RunOk ==> |queue| <= if enabled then Left(|given|, w.prefillLooks(run) + 1) else |given|
      ensures Unpaused(start, given) ==> r != RunWaiting && (r == RunError <==> w.prefillFails(run))
      ensures Unpaused(start, given) && enabled && r != RunError ==> |queue| == Left(|given|, w.prefillLooks(run) + 1)
    {
      hide Follows, StartsRun, Unpaused;
      var ready := ReadPrompt(w.prefillLooks(run), idx, start, given);
      if !ready {
        return RunWaiting;
      }
      if w.prefillFails(run) {
        return RunError;
      }
      ready := LookAndWait(idx, start, given);
      if !ready {
        return RunWaiting;
      }
      AskedIs(idx, start, given);
      r := Asked(idx);
    }

    /** How a run may end, whatever status it leaves. */
    predicate EndsWith(w: World, run: nat, idx: nat, given: seq<Input>, r: RunResult)
      reads this
    {
      choice.requested != idx && -1 <= choice.requested < status.Length &&
      (r == RunOk || r == RunQuit || r == RunSwitch ==> r == ResultOf(choice)) &&
      (r == RunWaiting ==> enabled && choice.paused && queue == []) &&
      (r == RunOk ==> !(enabled && choice.paused) && !w.prefillFails(run) && !w.decodeFails(run)) &&
      (r == RunError ==> w.prefillFails(run) || w.decodeFails(run)) &&
      (r == RunOk && enabled ==> |queue| <= Left(|given|, w.prefillLooks(run) + 1 + w.looks(run)))
    }

    /** The generation of a run whose prompt has been read. */
    method Answer(w: World, run: nat, idx: nat, ghost start: Choice, ghost given: seq<Input>) returns (r: RunResult)
      requires Follows(idx, true, start, given) && StartsRun(start) && ResultOf(choice) == RunOk && !w.prefillFails(run)
      requires !(enabled && choice.paused)
      requires |queue| <= if enabled then Left(|given|, w.prefillLooks(run) + 1) else |given|
      requires Unpaused(start, given) && enabled ==> |queue| == Left(|given|, w.prefillLooks(run) + 1)
      modifies this`choice, this`queue
      ensures Follows(idx, true, start, given) && EndsWith(w, run, idx, given, r)
      ensures Unpaused(start, given) ==> |queue| <= |given| && Exactly(w, run, idx, start, given, ReadOf(given), r)
    {
      hide TypedAll, Follows, StartsRun, Unpaused, Unasked, AskedFirst, Left, Exactly;
      r := Generate(w.looks(run), idx, w.prefillLooks(run) + 1, start, given);
      FollowsIs(idx, true, start, given);
      AskedIs(idx, start, given);
      if r == RunOk && w.decodeFails(run) {
        r := RunError;
      }
      if Unpaused(start, given) {
        GenerateExactly(w, run, idx, start, given, ReadOf(given), r);
      }
    }

    /** Prompt and generation: everything of a run but the status it leaves. */
    method Attempt(w: World, run: nat, idx: nat, ghost start: Choice, ghost given: seq<Input>) returns (r: RunResult)
      requires Follows(idx, true, start, given) && StartsRun(start) && queue == given
      modifies this`choice, this`queue, status
      ensures Follows(idx, true, start, given) && EndsWith(w, run, idx, given, r)
      ensures status[..] == old(status[..])[idx := status[idx]] && (r == RunOk ==> status[idx] == Thinking)
      ensures Unpaused(start, given) ==> |queue| <= |given| && Exactly(w, run, idx, start, given, ReadOf(given), r)
    {
      hide TypedAll, Follows, StartsRun, Unpaused, Left, Seen, Exactly, EndsWith;
      FollowsIs(idx, true, start, given);
      r := ReadWholePrompt(w, run, idx, start, given);
      FollowsIs(idx, true, start, given);
      if r == RunOk {
        status[idx] := Thinking;
        FollowsThinking(idx, start, given);
        r := Answer(w, run, idx, start, given);
        FollowsIs(idx, true, start, given);
      } else {
        PromptEnds(w, run, idx, start, given, r);
      }
    }

    lemma {:induction false} PromptEnds(w: World, run: nat, idx: nat, start: Choice, given: seq<Input>, r: RunResult)
      requires Follows(idx, true, start, given) && StartsRun(start) && r != RunOk
      requires r == RunWaiting ==> enabled && choice.paused && queue == []
      requires r == RunError ==> w.prefillFails(run)
      requires r != RunWaiting && r != RunError ==> r == ResultOf(choice) && !w.prefillFails(run)
      requires Unpaused(start, given) ==> r != RunWaiting && (r == RunError <==> w.prefillFails(run))
      requires Unpaused(start, given) && enabled && r != RunError ==> |queue| == Left(|given|, w.prefillLooks(run) + 1)
      ensures EndsWith(w, run, idx, given, r)
      ensures Unpaused(start, given) ==> |queue| <= |given| && Exactly(w, run, idx, start, given, ReadOf(given), r)
    {
      hide TypedAll, Follows, StartsRun, Unpaused, Left, Seen, Exactly;
      FollowsIs(idx, true, start, given);
      AskedIs(idx, start, given);
      if Unpaused(start, given) {
        if r != RunError {
          ReadExactly(idx, true, start, given, w.prefillLooks(run) + 1);
        }
        PromptExactly(w, run, idx, start, given, ReadOf(given), r);
      }
    }

    /** A run without pauses fails at the prompt if that fails; otherwise the first look
        after the prompt that finds a quit or a request ends it, and without one it runs on. */
    predicate Exactly(w: World, run: nat, idx: nat, start: Choice, given: seq<Input>, read: seq<Input>, r: RunResult) {
      var from := w.prefillLooks(run) + 1;
      r != RunWaiting &&
      if w.prefillFails(run) then r == RunError
      else if r == RunQuit || r == RunSwitch then
        AskedFirst(enabled, status.Length, idx, start, given, read, from, from + w.looks(run))
      else
        (r == RunError <==> w.decodeFails(run)) &&
        Unasked(enabled, status.Length, idx, start, given, from, from + w.looks(run) + 1)
    }

    lemma {:induction false} PromptExactly(w: World, run: nat, idx: nat, start: Choice, given: seq<Input>,
                                           read: seq<Input>, r: RunResult)
      requires r == RunError || r == RunQuit || r == RunSwitch
      requires r == RunError <==> w.prefillFails(run)
      requires r != RunError ==> read == Seen(enabled, given, w.prefillLooks(run) + 1)
      ensures Exactly(w, run, idx, start, given, read, r)
    {
      hide Seen, Unasked, AskedFirst;
      if r != RunError {
        var from := w.prefillLooks(run) + 1;
        AskedAtOnce(enabled, status.Length, idx, start, given, read, from, from + w.looks(run));
      }
    }

    lemma {:induction false} GenerateExactly(w: World, run: nat, idx: nat, start: Choice, given: seq<Input>,
                                             read: seq<Input>, r: RunResult)
      requires !w.prefillFails(run) && r != RunWaiting
      requires var from := w.prefillLooks(run) + 1;
        if r == RunQuit || r == RunSwitch then
          AskedFirst(enabled, status.Length, idx, start, given, read, from, from + w.looks(run))
        else
          (r == RunError <==> w.decodeFails(run)) &&
          Unasked(enabled, status.Length, idx, start, given, from, from + w.looks(run) + 1)
      ensures Exactly(w, run, idx, start, given, read, r)
    {
    }

    /** run_one_case from the start of the prompt on. */
    method RunActive(w: World, run: nat, idx: nat) returns (r: RunResult, ghost read: seq<Input>)
      requires Valid() && activeCase == idx && choice.requested == -1 && !choice.quit
      modifies this, status
      ensures Valid() && activeCase == idx && status[..] == old(status[..])[idx := status[idx]]
      ensures old(queue) == read + queue && (!enabled ==> read == [])
      ensures choice == TypedAll(old(choice), read, idx, true, status.Length)
      // how the case is left
      ensures r == RunOk ==> status[idx] == if w.passes(run) then Passed else Failed
      ensures r == RunSwitch ==> status[idx] == Pending
      ensures r == RunQuit ==> status[idx] == Stopped
      ensures r == RunError || r == RunWaiting ==> Running(status[idx])
      // a quit or a request that came in is the result of the run
      ensures r == RunQuit ==> choice.quit
      ensures r == RunSwitch ==> !choice.quit && 0 <= choice.requested != idx
      ensures r == RunOk ==> !choice.quit && choice.requested == -1
      ensures r == RunWaiting ==> enabled && choice.paused && queue == []
      // a run that is not stopped looks at everything typed, and fails only when it has to
      ensures r == RunOk ==> !(enabled && choice.paused) && !w.prefillFails(run) && !w.decodeFails(run)
      ensures r == RunError ==> w.prefillFails(run) || w.decodeFails(run)
      ensures r == RunOk && enabled ==> |queue| <= Left(|old(queue)|, w.prefillLooks(run) + 1 + w.looks(run))
      ensures Unpaused(old(choice), old(queue)) ==> Exactly(w, run, idx, old(choice), old(queue), read, r)
    {
      hide TypedAll, Follows, Unpaused, Exactly, Left;
      ghost var start, given := choice, queue;
      status[idx] := Prefill;
      BeginsRun(idx);
      r := Attempt(w, run, idx, start, given);
      FollowsIs(idx, true, start, given);
      read := ReadOf(given);
      if r == RunQuit {
        status[idx] := Stopped;
      } else if r == RunSwitch {
        status[idx] := Pending;
      } else if r == RunOk {
        status[idx] := if w.passes(run) then Passed else Failed;
      }
    }

    lemma {:induction false} BeginsRun(idx: nat)
      requires Valid() && activeCase == idx && Running(status[idx])
      ensures Follows(idx, true, choice, queue)
    {
      NothingTyped(choice, idx, true, status.Length);
      assert ReadOf(queue) == [];
    }

    lemma {:induction false} FollowsThinking(idx: nat, start: Choice, given: seq<Input>)
      requires idx < status.Length && Running(status[idx]) && Valid() && activeCase == idx
      requires |queue| <= |given| && given == ReadOf(given) + queue && (!enabled ==> queue == given)
      requires choice == TypedAll(start, ReadOf(given), idx, true, status.Length)
      ensures Follows(idx, true, start, given)
    {
    }

    lemma {:induction false} NothingTyped(c: Choice, current: nat, running: bool, n: nat)
      ensures TypedAll(c, [], current, running, n) == c
    {
    }

    /** run_one_case as the case loop sees it: which status the case is left with, and
        that the choice found afterwards was typed during the run. */
    method RunOneCase(w: World, run: nat, idx: nat) returns (r: RunResult, ghost read: seq<Input>)
      requires Valid() && idx < status.Length && choice.requested == -1 && !choice.quit
      modifies this, status
      ensures Valid() && status[..] == old(status[..])[idx := status[idx]]
      ensures old(queue) == read + queue && (!enabled ==> read == [])
      ensures w.promptFails(run) ==> choice == old(choice) && read == [] && status[idx] == old(status[idx])
      ensures !w.promptFails(run) ==>
        activeCase == idx &&
        choice == TypedAll(Started(old(choice), idx), read, idx, true, status.Length)
      ensures w.promptFails(run) ==> r == RunError
      ensures !w.promptFails(run) && w.skips(idx) ==> r == RunOk && read == []
      ensures r == RunOk ==> Settled(status[idx]) && (status[idx] == Skipped <==> w.skips(idx))
      ensures r == RunOk && status[idx] != Skipped ==> (status[idx] == Passed <==> w.passes(run))
      ensures r == RunSwitch ==> status[idx] == Pending && !choice.quit && 0 <= choice.requested != idx
      ensures r == RunQuit ==> status[idx] == Stopped && choice.quit
      ensures r == RunOk ==> !choice.quit && choice.requested == -1
      ensures r == RunError || r == RunWaiting ==> status[idx] == old(status[idx]) || Running(status[idx])
      ensures r == RunError ==> Fails(w, run)
      ensures r == RunOk && status[idx] != Skipped ==> !w.prefillFails(run) && !w.decodeFails(run)
      ensures r == RunOk && status[idx] != Skipped && enabled ==>
        |queue| <= Left(|old(queue)|, w.prefillLooks(run) + 1 + w.looks(run))
      ensures r == RunWaiting ==> enabled && choice.paused && queue == []
    {
      hide TypedAll, Typed, Passive, Calm;
      if w.promptFails(run) {
        return RunError, [];
      }
      activeCase := idx;
      if !choice.active {
        choice := choice.(selected := idx);
      }
      if w.skips(idx) {
        status[idx] := Skipped;
        NothingTyped(choice, idx, true, status.Length);
        return RunOk, [];
      }
      choice := choice.(requested := -1);
      r, read := RunActive(w, run, idx);
    }

    method TakeRequest() returns (next: nat)
      requires Valid() && choice.requested >= 0
      modifies this`choice
      ensures Valid() && next == old(choice.requested) && next < status.Length && choice == Granted(old(choice))
    {
      next := choice.requested;
      choice := choice.(requested := -1, active := false, selected := next);
    }

    /** The look at the keyboard between two runs, and the wait while paused. */
    method Idle() returns (ready: bool, ghost idle: seq<Input>)
      requires Valid() && choice.requested == -1 && !choice.quit
      modifies this`choice, this`queue
      ensures old(queue) == idle + queue && (!enabled ==> idle == [])
      ensures choice == TypedAll(old(choice), idle, activeCase, Running(status[activeCase]), status.Length)
      ensures Valid() && (ready <==> !(enabled && choice.paused))
      ensures !ready ==> queue == []
      // one input is read, and more only while paused
      ensures enabled && old(queue) != [] ==> idle != []
      ensures PausedAll(old(choice), idle, 1, |idle|, activeCase, Running(status[activeCase]), status.Length)
    {
      hide TypedAll;
      ghost var start, given, running := choice, queue, Running(status[activeCase]);
      NothingTyped(start, activeCase, running, status.Length);
      assert ReadOf(given) == [];
      Look(activeCase, running, start, given);
      ready := WaitIfPaused(activeCase, running, start, given);
      FollowsIs(activeCase, running, start, given);
      idle := ReadOf(given);
      PausedPart(start, given, |idle|, activeCase, running, status.Length);
    }

    /** One round of the case loop: `ran` is the case run, if any; `after` the next one;
        `round` says what was read and typed. */
    method RunNext(w: World, run: nat, next: nat) returns (ending: Ending, ran: seq<nat>, after: int, ghost round: Round)
      requires Valid() && next < status.Length && choice.requested == -1 && !choice.quit
      modifies this, status
      ensures Valid() && |ran| <= 1 && -1 <= after < status.Length
      ensures RoundOf(old(choice), old(activeCase), old(status[..]), next, status.Length, round) && round.left == status[..]
      ensures old(queue) == round.idle + round.during + queue && (!enabled ==> round.idle == round.during == [])
      // between runs one look is made, and more only while paused
      ensures enabled && old(queue) != [] ==> round.idle != []
      ensures PausedAll(round.before, round.idle, 1, |round.idle|, round.active, round.running, status.Length)
      // a quit between runs ends the loop, a request is obeyed, otherwise the given case is run
      ensures
        var idle := AtIdle(round, status.Length);
        if enabled && idle.paused then ran == [] && ending == Waiting && queue == []
        else if idle.quit then ran == [] && ending == QuitIdle
        else ran == [if idle.requested >= 0 then idle.requested else next] && round.ran == ran[0]
      ensures ran == [] ==> status[..] == old(status[..]) && round.during == []
      ensures ending == QuitIdle ==> ran == []
      ensures ran != [] && ending == QuitRun ==> status[ran[0]] == Stopped && AtEnd(round, status.Length).quit
      ensures ending == Errored ==> Fails(w, run)
      ensures ending == Waiting ==> enabled && queue == []
      // after the run a request made during it is obeyed; otherwise the case is settled and
      // the next pending one follows
      ensures ending == Finished ==>
        ran != [] && activeCase == ran[0] && choice.requested == -1 && !choice.quit && !w.promptFails(run) &&
        GoesOn(choice, round, after, status.Length)
    {
      hide Typed, TypedAll, IsNextPending, Started, Granted, Fails, Settled;
      ghost var start, given, active := choice, queue, activeCase;
      ghost var running := Running(status[activeCase]);
      var proceed, idx;
      ghost var idle;
      proceed, idx, idle := Choose(next);
      round := Round(start, active, running, next, idle, next, [], status[..]);
      if !proceed {
        ending := if enabled && choice.paused then Waiting else QuitIdle;
        ran, after := [], -1;
        return;
      }
      ghost var waiting, during := queue, [];
      ending, after, during := RunChosen(w, run, idx);
      ran := [idx];
      round := Round(start, active, running, next, idle, idx, during, status[..]);
      SplitRead(given, idle, waiting, during, queue);
    }

    /** The chosen case is run, and the case that comes next found. */
    method RunChosen(w: World, run: nat, idx: nat) returns (ending: Ending, after: int, ghost during: seq<Input>)
      requires Valid() && idx < status.Length && choice.requested == -1 && !choice.quit
      modifies this, status
      ensures Valid() && -1 <= after < status.Length && status[..] == old(status[..])[idx := status[idx]]
      ensures old(queue) == during + queue && (!enabled ==> during == [])
      ensures ending != QuitIdle
      ensures ending == QuitRun ==>
        status[idx] == Stopped && TypedAll(Started(old(choice), idx), during, idx, true, status.Length).quit
      ensures ending == Errored ==> Fails(w, run)
      ensures ending == Waiting ==> enabled && queue == []
      ensures ending == Finished ==>
        var end := TypedAll(Started(old(choice), idx), during, idx, true, status.Length);
        !end.quit && activeCase == idx && !w.promptFails(run) && choice.requested == -1 && !choice.quit &&
        (if end.requested >= 0 then after == end.requested && after != idx && status[idx] == Pending
         else Settled(status[idx]) && IsNextPending(status[..], idx + 1, after)) &&
        (after >= 0 ==> choice == end.(requested := -1, active := false, selected := after))
    {
      hide Typed, TypedAll, IsNextPending, Started, Fails, Settled, Left;
      after := -1;
      var result;
      result, during := RunOneCase(w, run, idx);
      if result == RunWaiting {
        ending := Waiting;
      } else if result == RunError {
        ending := Errored;
      } else if result == RunQuit {
        ending := QuitRun;
      } else {
        ending := Finished;
        choice := choice.(quit := false);
        after := Advance(idx);
      }
    }

    /** Before a run: the look between runs, and the case to run next unless the user quit
        or left the program paused. */
    method Choose(next: nat) returns (proceed: bool, idx: nat, ghost idle: seq<Input>)
      requires Valid() && next < status.Length && choice.requested == -1 && !choice.quit
      modifies this`choice, this`queue
      ensures Valid() && idx < status.Length && old(queue) == idle + queue && (!enabled ==> idle == [])
      ensures enabled && old(queue) != [] ==> idle != []
      ensures PausedAll(old(choice), idle, 1, |idle|, activeCase, Running(status[activeCase]), status.Length)
      ensures
        var c := TypedAll(old(choice), idle, activeCase, Running(status[activeCase]), status.Length);
        (proceed <==> !(enabled && c.paused) && !c.quit) &&
        (!proceed ==> choice == c && (enabled && c.paused ==> queue == [])) &&
        (proceed ==> choice == Granted(c) && idx == (if c.requested >= 0 then c.requested else next) &&
                     choice.requested == -1 && !choice.quit)
    {
      hide Typed, TypedAll;
      ghost var start, given := choice, queue;
      idx := next;
      var ready;
      ready, idle := Idle();
      ghost var running := Running(status[activeCase]);
      TypedFacts(start, idle, activeCase, running, status.Length);
      proceed := ready && !choice.quit;
      if proceed && choice.requested >= 0 {
        idx := TakeRequest();
      }
    }

    /** After a run that went to its end or was switched: the case that comes next. */
    method Advance(idx: nat) returns (after: int)
      requires Valid() && idx < status.Length
      modifies this`choice
      ensures Valid() && -1 <= after < status.Length
      ensures old(choice).requested >= 0 ==> after == old(choice).requested
      ensures old(choice).requested < 0 ==> IsNextPending(status[..], idx + 1, after)
      ensures after >= 0 ==> choice == old(choice).(requested := -1, active := false, selected := after)
      ensures after < 0 ==> choice == old(choice)
    {
      hide IsNextPending;
      if choice.requested >= 0 {
        after := TakeRequest();
        return;
      }
      after := NextPendingCase(status, idx + 1);
      NextPendingRange(status[..], idx + 1, after);
      if after >= 0 {
        choice := choice.(selected := after, active := false);
      }
    }

    lemma {:induction false} SplitRead(given: seq<Input>, idle: seq<Input>, waiting: seq<Input>,
                                       during: seq<Input>, rest: seq<Input>)
      requires given == idle + waiting && waiting == during + rest
      ensures given == idle + during + rest
    {
    }
  }

  /** A run fails: while its prompt is built or read, or while it generates. */
  predicate Fails(w: World, run: nat) { w.promptFails(run) || w.prefillFails(run) || w.decodeFails(run) }

  /** The choice with which a run of `idx` starts. */
  function Started(c: Choice, idx: nat): Choice { if c.active then c else c.(selected := idx) }

  /** A request, once obeyed, is forgotten together with the highlight. */
  function Granted(c: Choice): Choice {
    if c.requested >= 0 then c.(requested := -1, active := false, selected := c.requested) else c
  }

  lemma {:induction false} GrantedIs(c: Choice)
    ensures c.requested < 0 ==> Granted(c) == c
    ensures c.requested >= 0 ==> Granted(c) == c.(requested := -1, active := false, selected := c.requested)
  {
  }

  /** One round of the case loop: the choice, the active case and the case expected when it
      began, what was typed before and during the run, the case run, and what it left. */
  datatype Round = Round(before: Choice, active: nat, running: bool, expected: nat,
                         idle: seq<Input>, ran: nat, during: seq<Input>, left: seq<Status>)

  function AtIdle(r: Round, n: nat): Choice { TypedAll(r.before, r.idle, r.active, r.running, n) }

  function AtEnd(r: Round, n: nat): Choice { TypedAll(Started(Granted(AtIdle(r, n)), r.ran), r.during, r.ran, true, n) }

  /** The round began in the given state, and changed the status of its case at most. */
  predicate RoundOf(c: Choice, active: nat, status: seq<Status>, next: nat, n: nat, r: Round) {
    active < n && next < n && r.ran < n && |status| == |r.left| == n &&
    r.before == c && r.active == active && r.running == Running(status[active]) && r.expected == next &&
    r.left == status[r.ran := r.left[r.ran]]
  }

  /** After a round the loop goes on: with the case requested during the run, which is then
      pending again; without a request the case is settled and the next pending one follows.
      Either way the request and the highlight are forgotten. */
  predicate GoesOn(c: Choice, r: Round, after: int, n: nat)
    requires r.ran < |r.left|
  {
    var end := AtEnd(r, n);
    !end.quit && (after >= 0 ==> c == end.(requested := -1, active := false, selected := after)) &&
    if end.requested >= 0 then after == end.requested && after != r.ran && r.left[r.ran] == Pending
    else Settled(r.left[r.ran]) && IsNextPending(r.left, r.ran + 1, after)
  }

  /** The case run is the one requested before the run, if any, else the expected one. */
  predicate Obeys(r: Round, n: nat) {
    var idle := AtIdle(r, n);
    !idle.quit && r.ran == if idle.requested >= 0 then idle.requested else r.expected
  }

  /** The round after `a` expects the case requested during the run of `a`, which is then
      pending again; without a request that run settled its case and the next pending one
      follows. No other status changes. */
  predicate Sequel(a: Round, b: Round, n: nat) {
    var end := AtEnd(a, n);
    !end.quit && b.active == a.ran < |a.left| && !b.running && b.ran < |a.left| == |b.left| &&
    b.before == end.(requested := -1, active := false, selected := b.expected) &&
    (if end.requested >= 0 then b.expected == end.requested && a.left[a.ran] == Pending
     else Settled(a.left[a.ran]) && IsNextPending(a.left, a.ran + 1, b.expected)) &&
    b.left == a.left[b.ran := b.left[b.ran]]
  }

  /** What the rounds have read. */
  function AllRead(rounds: seq<Round>): seq<Input> {
    if rounds == [] then []
    else AllRead(rounds[..|rounds| - 1]) + (rounds[|rounds| - 1].idle + rounds[|rounds| - 1].during)
  }

  /** Passive input asks for nothing. */
  lemma {:induction false} PassiveRound(r: Round, n: nat)
    requires 0 <= r.before.selected < n && r.before.requested == -1 && !r.before.quit && r.active < n && r.ran < n
    ensures Passive(r.idle) ==> AtIdle(r, n).requested == -1 && !AtIdle(r, n).quit
    ensures Passive(r.idle) && Passive(r.during) ==> AtEnd(r, n).requested == -1 && !AtEnd(r, n).quit
  {
    hide Passive, TypedAll;
    TypedFacts(r.before, r.idle, r.active, r.running, n);
    GrantedIs(AtIdle(r, n));
    TypedFacts(Started(Granted(AtIdle(r, n)), r.ran), r.during, r.ran, true, n);
  }

  lemma {:induction false} PassiveParts(a: seq<Input>, b: seq<Input>, c: seq<Input>)
    ensures Passive(a + b + c) ==> Passive(a) && Passive(b) && Passive(c)
  {
    if Passive(a + b + c) {
      var all := a + b + c;
      assert forall i :: 0 <= i < |a| ==> a[i] == all[i];
      assert forall i :: 0 <= i < |b| ==> b[i] == all[|a| + i];
      assert forall i :: 0 <= i < |c| ==> c[i] == all[|a| + |b| + i];
    }
  }
  lemma {:induction false} NextPendingRange(status: seq<Status>, start: nat, i: int)
    requires IsNextPending(status, start, i)
    ensures -1 <= i < |status|
  {
  }

  lemma {:induction false} NextPendingIs(status: seq<Status>, start: nat, i: int)
    requires IsNextPending(status, start, i)
    ensures i >= 0 ==> i < |status| && status[i] == Pending
    ensures i < 0 ==> forall k :: 0 <= k < |status| ==> status[k] != Pending
  {
  }

  // ---- the case loop ----

  /** Waiting: paused, with nothing more typed. */
  datatype Ending = Finished | Errored | QuitRun | QuitIdle | Waiting

  /** Between two runs every case is pending or settled. */
  predicate Between(status: seq<Status>) { forall i :: 0 <= i < |status| ==> status[i] == Pending || Settled(status[i]) }

  predicate InOrder(runs: seq<nat>) { forall k :: 0 <= k < |runs| ==> runs[k] == k }

  /** Without input the cases run so far are the first ones, in order, and the rest is pending. */
  predicate Unattended(status: seq<Status>, runs: seq<nat>, next: int) {
    InOrder(runs) && |runs| <= |status| && next == (if |runs| < |status| then |runs| else -1) &&
    (forall i :: 0 <= i < |runs| ==> Settled(status[i])) &&
    (forall i :: |runs| <= i < |status| ==> status[i] == Pending)
  }

  lemma {:induction false} NextInOrder(status: seq<Status>, runs: seq<nat>, idx: nat, next: int)
    requires idx < |status| && InOrder(runs) && |runs| == idx + 1
    requires forall i :: 0 <= i <= idx ==> Settled(status[i])
    requires forall i :: idx < i < |status| ==> status[i] == Pending
    requires IsNextPending(status, idx + 1, next)
    ensures Unattended(status, runs, next)
  {
    if idx + 1 < |status| {
      assert status[idx + 1] == Pending;
      var off: nat :| off < |status| && FirstAt(status, idx + 1, off, next);
      assert Cyclic(idx + 1, 0, |status|) == idx + 1 by { RemainderIs(idx + 1, |status|, 0, idx + 1); }
    }
  }

  /** Every case that is no longer pending has been run. */
  predicate Visited(status: seq<Status>, runs: seq<nat>) {
    (forall k :: 0 <= k < |runs| ==> runs[k] < |status|) && forall i :: 0 <= i < |status| && status[i] != Pending ==> i in runs
  }

  lemma {:induction false} VisitedSet(status: seq<Status>, runs: seq<nat>, i: nat, s: Status)
    requires Visited(status, runs) && i < |status|
    ensures Visited(status[i := s], runs + [i])
  {
    assert (runs + [i])[|runs|] == i;
    forall k | 0 <= k < |status| && status[i := s][k] != Pending ensures k in runs + [i] {
      if k != i {
        assert status[k] != Pending;
      }
    }
  }

  /** Pending cases, and one more when the next run repeats a case that is done. */
  function Work(status: seq<Status>, next: int): nat {
    PendingCount(status) + (if 0 <= next < |status| && status[next] != Pending then 1 else 0)
  }

  lemma {:induction false} WorkShrinks(status: seq<Status>, next: nat, s: Status, after: int)
    requires next < |status| && Settled(s) && IsNextPending(status[next := s], next + 1, after)
    ensures Work(status[next := s], after) < Work(status, next)
  {
    PendingCountSet(status, next, s);
  }

  lemma {:induction false} UnattendedStep(status: seq<Status>, runs: seq<nat>, next: nat, s: Status, after: int)
    requires Unattended(status, runs, next) && next < |status|
    ensures InOrder(runs + [next])
    ensures Settled(s) && IsNextPending(status[next := s], next + 1, after) ==> Unattended(status[next := s], runs + [next], after)
  {
    if Settled(s) && IsNextPending(status[next := s], next + 1, after) {
      NextInOrder(status[next := s], runs + [next], next, after);
    }
  }

  lemma {:induction false} UnattendedIs(status: seq<Status>, runs: seq<nat>, next: int)
    requires Unattended(status, runs, next)
    ensures InOrder(runs) && (next == -1 ==> |runs| == |status|)
  {
  }

  lemma {:induction false} VisitedIs(status: seq<Status>, runs: seq<nat>)
    requires Visited(status, runs)
    ensures forall k :: 0 <= k < |runs| ==> runs[k] < |status|
    ensures forall i :: 0 <= i < |status| && status[i] != Pending ==> i in runs
  {
  }

  lemma {:induction false} AllPending(status: seq<Status>)
    requires |status| > 0 && forall i :: 0 <= i < |status| ==> status[i] == Pending
    ensures Between(status) && Visited(status, []) && Unattended(status, [], 0) && InOrder([])
  {
  }

  lemma {:induction false} AllSettled(status: seq<Status>)
    requires Between(status) && forall i :: 0 <= i < |status| ==> status[i] != Pending
    ensures forall i :: 0 <= i < |status| ==> Settled(status[i])
  {
  }

  lemma {:induction false} BetweenSet(status: seq<Status>, i: nat, s: Status)
    requires Between(status) && i < |status|
    ensures s == Pending || Settled(s) ==> Between(status[i := s])
    ensures Between(status[i := s][i := Pending])
  {
  }

  /** The rounds of a run of the case loop, with the cases run in them. */
  predicate Played(rounds: seq<Round>, runs: seq<nat>, n: nat) {
    |rounds| == |runs| &&
    (forall k :: 0 <= k < |runs| ==> runs[k] == rounds[k].ran && Obeys(rounds[k], n)) &&
    (forall k :: 0 < k < |runs| ==> Sequel(rounds[k - 1], rounds[k], n)) &&
    (runs != [] ==> First(rounds[0], n))
  }

  /** The first round begins with nothing typed, the first case, and every case pending. */
  predicate First(r: Round, n: nat) {
    r.before == Choice(false, 0, -1, false, false) && r.active == 0 && !r.running && r.expected == 0 && r.ran < n &&
    |r.left| == n && forall i :: 0 <= i < n && i != r.ran ==> r.left[i] == Pending
  }

  lemma {:induction false} PlayedNext(rounds: seq<Round>, runs: seq<nat>, r: Round, n: nat)
    requires Played(rounds, runs, n) && Obeys(r, n)
    requires if rounds == [] then First(r, n) else Sequel(rounds[|rounds| - 1], r, n)
    ensures Played(rounds + [r], runs + [r.ran], n)
    ensures AllRead(rounds + [r]) == AllRead(rounds) + (r.idle + r.during)
  {
    hide Obeys, First, Sequel;
    assert (rounds + [r])[..|rounds|] == rounds;
  }

  /** The state between two rounds. */
  predicate Reached(c: Choice, active: nat, status: seq<Status>, rounds: seq<Round>, next: int, n: nat) {
    |status| == n &&
    if rounds == [] then
      c == Choice(false, 0, -1, false, false) && active == next == 0 && forall i :: 0 <= i < n ==> status[i] == Pending
    else
      var a := rounds[|rounds| - 1];
      var end := AtEnd(a, n);
      !end.quit && active == a.ran < n && a.left == status &&
      (next >= 0 ==> c == end.(requested := -1, active := false, selected := next)) &&
      if end.requested >= 0 then next == end.requested && status[a.ran] == Pending
      else Settled(status[a.ran]) && IsNextPending(status, a.ran + 1, next)
  }

  lemma {:induction false} NothingReached(status: seq<Status>)
    requires forall i :: 0 <= i < |status| ==> status[i] == Pending
    ensures Reached(Choice(false, 0, -1, false, false), 0, status, [], 0, |status|)
    ensures Played([], [], |status|) && AllRead([]) == []
  {
  }

  lemma {:induction false} RoundFollows(c: Choice, active: nat, status: seq<Status>, rounds: seq<Round>, next: nat, n: nat, r: Round)
    requires Reached(c, active, status, rounds, next, n) && Between(status) && active < n && next < n
    requires r.before == c && r.active == active && r.running == Running(status[active]) && r.expected == next
    requires r.ran < n && |r.left| == n && r.left == status[r.ran := r.left[r.ran]]
    ensures if rounds == [] then First(r, n) else Sequel(rounds[|rounds| - 1], r, n)
  {
    hide IsNextPending, AtEnd;
  }

  lemma {:induction false} ReachedNext(c: Choice, active: nat, status: seq<Status>, rounds: seq<Round>, r: Round, after: int, n: nat)
    requires |status| == n && r.left == status && active == r.ran < n
    requires var end := AtEnd(r, n);
      !end.quit && (after >= 0 ==> c == end.(requested := -1, active := false, selected := after)) &&
      if end.requested >= 0 then after == end.requested && status[r.ran] == Pending
      else Settled(status[r.ran]) && IsNextPending(status, r.ran + 1, after)
    ensures Reached(c, active, status, rounds + [r], after, n)
  {
    hide IsNextPending, AtEnd;
  }

  lemma {:induction false} AllAsked(c: Choice, active: nat, status: seq<Status>, rounds: seq<Round>, n: nat)
    requires Reached(c, active, status, rounds, -1, n)
    ensures rounds != [] && AtEnd(rounds[|rounds| - 1], n).requested < 0
    ensures forall k :: 0 <= k < n ==> status[k] != Pending
  {
    hide AtEnd;
  }

  lemma {:induction false} LeftIs(c: Choice, active: nat, status: seq<Status>, rounds: seq<Round>, next: int, n: nat)
    requires Reached(c, active, status, rounds, next, n)
    ensures rounds != [] ==> rounds[|rounds| - 1].left == status
  {
  }

  /** What every round of the case loop keeps. */
  predicate Sound(c: Choice, active: nat, status: seq<Status>, runs: seq<nat>, rounds: seq<Round>, next: int, n: nat, passive: bool) {
    Between(status) && Visited(status, runs) && (passive ==> Unattended(status, runs, next) && InOrder(runs)) &&
    Played(rounds, runs, n) && Reached(c, active, status, rounds, next, n)
  }

  lemma {:induction false} RoundKeeps(c: Choice, active: nat, status: seq<Status>, runs: seq<nat>, rounds: seq<Round>,
                                      next: nat, n: nat, passive: bool, r: Round)
    requires Sound(c, active, status, runs, rounds, next, n, passive) && RoundOf(c, active, status, next, n, r) && Obeys(r, n)
    ensures Visited(r.left, runs + [r.ran]) && Played(rounds + [r], runs + [r.ran], n)
    ensures AllRead(rounds + [r]) == AllRead(rounds) + (r.idle + r.during)
    ensures Between(r.left[r.ran := Pending]) && (r.left[r.ran] == Pending || Settled(r.left[r.ran]) ==> Between(r.left))
    ensures passive && AtIdle(r, n).requested < 0 ==> InOrder(runs + [r.ran])
  {
    hide Settled, Unattended, IsNextPending, Between, InOrder, Visited, Played, Sequel, First, AllRead, AtIdle, AtEnd, Reached;
    RoundFollows(c, active, status, rounds, next, n, r);
    PlayedNext(rounds, runs, r, n);
    BetweenSet(status, r.ran, r.left[r.ran]);
    VisitedSet(status, runs, r.ran, r.left[r.ran]);
    if passive && AtIdle(r, n).requested < 0 {
      UnattendedStep(status, runs, next, r.left[r.ran], -1);
    }
  }

  lemma {:induction false} RoundGoesOn(c: Choice, active: nat, status: seq<Status>, runs: seq<nat>, rounds: seq<Round>,
                                       next: nat, n: nat, passive: bool, r: Round, c2: Choice, after: int)
    requires Sound(c, active, status, runs, rounds, next, n, passive) && RoundOf(c, active, status, next, n, r) && Obeys(r, n)
    requires GoesOn(c2, r, after, n) && (passive ==> AtIdle(r, n).requested < 0 && AtEnd(r, n).requested < 0)
    ensures Sound(c2, r.ran, r.left, runs + [r.ran], rounds + [r], after, n, passive)
  {
    hide Settled, Unattended, IsNextPending, Between, InOrder, Visited, Played, Sequel, First, AllRead, AtIdle, AtEnd, Reached;
    RoundKeeps(c, active, status, runs, rounds, next, n, passive, r);
    ReachedNext(c2, r.ran, r.left, rounds, r, after, n);
    hide Running;
    if passive {
      assert r.ran == next;
      UnattendedStep(status, runs, next, r.left[r.ran], after);
    }
  }

  lemma {:induction false} SoundIs(c: Choice, active: nat, status: seq<Status>, runs: seq<nat>, rounds: seq<Round>,
                                   next: int, n: nat, passive: bool)
    requires Sound(c, active, status, runs, rounds, next, n, passive)
    ensures Between(status) && Visited(status, runs) && Played(rounds, runs, n) && |rounds| == |runs|
    ensures passive ==> InOrder(runs)
    ensures rounds != [] ==> rounds[|rounds| - 1].left == status
    ensures next == -1 ==>
      rounds != [] && AtEnd(rounds[|rounds| - 1], n).requested < 0 && (passive ==> |runs| == |status|) &&
      forall k :: 0 <= k < |status| ==> Settled(status[k])
  {
    hide AtEnd, Settled, IsNextPending, Visited, Sequel, First, Obeys;
    LeftIs(c, active, status, rounds, next, n);
    if next == -1 {
      AllAsked(c, active, status, rounds, n);
      AllSettled(status);
    }
  }

  /** How the case loop leaves the cases. */
  predicate LeftBy(ending: Ending, status: seq<Status>, runs: seq<nat>) {
    (forall k :: 0 <= k < |runs| ==> runs[k] < |status|) &&
    (forall i :: 0 <= i < |status| && status[i] != Pending ==> i in runs) &&
    (ending == Finished ==> forall i :: 0 <= i < |status| ==> Settled(status[i])) &&
    (ending == QuitIdle ==> Between(status)) &&
    (ending == QuitRun ==> runs != [] && status[runs[|runs| - 1]] == Stopped) &&
    (ending != Finished && runs != [] ==> Between(status) || Between(status[runs[|runs| - 1] := Pending]))
  }

  lemma {:induction false} LeftBetween(ending: Ending, status: seq<Status>, runs: seq<nat>)
    requires Between(status) && Visited(status, runs)
    requires ending == Waiting || ending == QuitIdle || (ending == Finished && forall i :: 0 <= i < |status| ==> Settled(status[i]))
    ensures LeftBy(ending, status, runs)
  {
    VisitedIs(status, runs);
    hide Between, Visited, Settled;
  }

  lemma {:induction false} LeftInRun(ending: Ending, status: seq<Status>, runs: seq<nat>, idx: nat)
    requires idx < |status| && Between(status[idx := Pending]) && Visited(status, runs + [idx])
    requires ending == Errored || ending == Waiting || (ending == QuitRun && status[idx] == Stopped)
    ensures LeftBy(ending, status, runs + [idx])
  {
    VisitedIs(status, runs + [idx]);
    hide Between, Visited, Settled;
  }

  lemma {:induction false} SoundAtStart(status: seq<Status>, passive: bool)
    requires |status| > 0 && forall i :: 0 <= i < |status| ==> status[i] == Pending
    ensures Sound(Choice(false, 0, -1, false, false), 0, status, [], [], 0, |status|, passive) && AllRead([]) == []
  {
    AllPending(status);
    NothingReached(status);
  }

  /** The case loop of main. It ends for every finite input, unless a pause is left on;
      when it neither waits, quits nor fails, every case is settled. Quitting during a
      run leaves just that case stopped. Every request is obeyed: the run that follows it
      is the requested case. Without a selection or a quit the cases are run in index
      order, each once. */
  method RunCases(ncases: nat, enabled: bool, inputs: seq<Input>, w: World)
    returns (ending: Ending, status: seq<Status>, runs: seq<nat>, ghost rounds: seq<Round>)
    requires ncases > 0
    ensures |status| == ncases && LeftBy(ending, status, runs)
    ensures ending == Errored ==> runs != [] && Fails(w, |runs| - 1)
    ensures ending == QuitIdle || ending == QuitRun ==> enabled && !Passive(inputs)
    ensures ending == Waiting ==> enabled
    ensures Played(rounds, runs, ncases) && AllRead(rounds) <= inputs
    ensures runs != [] ==> |rounds| == |runs| && status == rounds[|rounds| - 1].left
    ensures ending == Finished ==> runs != [] && AtEnd(rounds[|rounds| - 1], ncases).requested < 0
    ensures !enabled || Passive(inputs) ==> InOrder(runs)
    ensures (!enabled || Passive(inputs)) && ending == Finished ==> |runs| == ncases
  {
    hide Settled, PendingCount, IsNextPending, Between, InOrder, Work, Visited, Passive,
      Played, AllRead, AtIdle, AtEnd, Fails, Sound, Typed, TypedAll, Reached, Running, PausedAll, Unattended, LeftBy, GoesOn, RoundOf;
    var ui := new EvalUi(ncases, enabled, inputs);
    ending, runs, rounds := Finished, [], [];
    var next: int := 0;
    ghost var passive, read := !enabled || Passive(inputs), [];
    SoundAtStart(ui.status[..], passive);
    while next >= 0
      invariant fresh(ui) && fresh(ui.status) && ui.Valid() && ui.status.Length == ncases && ui.enabled == enabled
      invariant ending == Finished && -1 <= next < ncases && ui.choice.requested == -1 && !ui.choice.quit
      invariant Sound(ui.choice, ui.activeCase, ui.status[..], runs, rounds, next, ncases, passive)
      invariant AllRead(rounds) == read && inputs == read + ui.queue && (Passive(inputs) ==> Passive(ui.queue))
      decreases |ui.queue|, Work(ui.status[..], next), next >= 0
    {
      ghost var before, waiting, c, active := ui.status[..], ui.queue, ui.choice, ui.activeCase;
      SoundIs(c, active, before, runs, rounds, next, ncases, passive);
      var ran, after;
      ghost var round;
      ending, ran, after, round := ui.RunNext(w, |runs|, next);
      RoundIs(c, active, before, next, ncases, round);
      AsksNothing(round, ncases, enabled, inputs, waiting, ui.queue);
      if ran == [] {
        LeftBetween(ending, before, runs);
        break;
      }
      RoundKeeps(c, active, before, runs, rounds, next, ncases, passive, round);
      assert inputs == (read + (round.idle + round.during)) + ui.queue;
      read := read + (round.idle + round.during);
      if ending == Finished {
        RoundGoesOn(c, active, before, runs, rounds, next, ncases, passive, round, ui.choice, after);
      }
      if ending != Finished {
        LeftInRun(ending, ui.status[..], runs, round.ran);
        runs, rounds := runs + ran, rounds + [round];
        break;
      }
      runs, rounds := runs + ran, rounds + [round];
      if |ui.queue| == |waiting| {
        SettlesNext(ui.choice, round, after, ncases);
        WorkShrinks(before, next, round.left[next], after);
      }
      next := after;
    }
    status := ui.status[..];
    if ending == Finished {
      SoundIs(ui.choice, ui.activeCase, status, runs, rounds, next, ncases, passive);
      LeftBetween(ending, status, runs);
    }
  }

  lemma {:induction false} RoundIs(c: Choice, active: nat, status: seq<Status>, next: nat, n: nat, r: Round)
    requires RoundOf(c, active, status, next, n, r)
    ensures r.before == c && r.active == active && r.expected == next && r.ran < n && |r.left| == n
    ensures r.left == status[r.ran := r.left[r.ran]]
  {
  }

  lemma {:induction false} SettlesNext(c: Choice, r: Round, after: int, n: nat)
    requires r.ran < |r.left| && GoesOn(c, r, after, n) && AtEnd(r, n).requested < 0
    ensures Settled(r.left[r.ran]) && IsNextPending(r.left, r.ran + 1, after)
  {
  }

  lemma {:induction false} PlayedIs(rounds: seq<Round>, runs: seq<nat>, n: nat)
    requires Played(rounds, runs, n)
    ensures |rounds| == |runs|
  {
  }

  /** A round in which nothing is read, or nothing but passive input, asks for nothing. */
  lemma {:induction false} AsksNothing(r: Round, n: nat, enabled: bool, inputs: seq<Input>, given: seq<Input>, rest: seq<Input>)
    requires 0 <= r.before.selected < n && r.before.requested == -1 && !r.before.quit && r.active < n && r.ran < n
    requires given == r.idle + r.during + rest && (Passive(inputs) ==> Passive(given))
    requires !enabled ==> r.idle == r.during == []
    ensures Passive(inputs) ==> Passive(rest)
    ensures !enabled || Passive(inputs) || |rest| == |given| ==>
      AtIdle(r, n).requested == -1 && !AtIdle(r, n).quit && AtEnd(r, n).requested == -1 && !AtEnd(r, n).quit
  {
    hide AtIdle, AtEnd;
    PassiveParts(r.idle, r.during, rest);
    PassiveRound(r, n);
  }
}
