/** Two ways to collect a process tree from one process table: the stop script grows
    a set until nothing changes, the remote kill routine works off a stack. */
module ProcessClosure {
  datatype ProcessRow = ProcessRow(pid: int, ppid: int, command: string)

  // ---- reachability through parent links ----

  /** pid is a root, or within n links below one. */
  ghost predicate Below(rows: seq<ProcessRow>, roots: set<int>, pid: int, n: nat)
    decreases n
  {
    if n == 0 then pid in roots
    else Below(rows, roots, pid, n - 1) || exists row :: row in rows && row.pid == pid && Below(rows, roots, row.ppid, n - 1)
  }

  ghost predicate Reachable(rows: seq<ProcessRow>, roots: set<int>, pid: int) { exists n: nat :: Below(rows, roots, pid, n) }

  predicate Closed(rows: seq<ProcessRow>, pids: set<int>) {
    forall row :: row in rows && row.ppid in pids ==> row.pid in pids
  }

  function Pids(rows: seq<ProcessRow>): set<int> { set row | row in rows :: row.pid }

  lemma {:induction false} RootReachable(rows: seq<ProcessRow>, roots: set<int>, pid: int)
    requires pid in roots
    ensures Reachable(rows, roots, pid)
  {
    assert Below(rows, roots, pid, 0);
  }

  lemma {:induction false} ChildReachable(rows: seq<ProcessRow>, roots: set<int>, row: ProcessRow)
    requires row in rows && Reachable(rows, roots, row.ppid)
    ensures Reachable(rows, roots, row.pid)
  {
    var n: nat :| Below(rows, roots, row.ppid, n);
    assert Below(rows, roots, row.pid, n + 1);
  }

  lemma {:induction false} BelowInClosed(rows: seq<ProcessRow>, roots: set<int>, pid: int, n: nat, pids: set<int>)
    requires Closed(rows, pids) && roots <= pids && Below(rows, roots, pid, n)
    ensures pid in pids
    decreases n
  {
    if n > 0 && !Below(rows, roots, pid, n - 1) {
      var row :| row in rows && row.pid == pid && Below(rows, roots, row.ppid, n - 1);
      BelowInClosed(rows, roots, row.ppid, n - 1, pids);
    } else if n > 0 {
      BelowInClosed(rows, roots, pid, n - 1, pids);
    }
  }

  /** A closed set that holds the roots and nothing unreachable is the reachable set. */
  lemma {:induction false} ClosedIsReachable(rows: seq<ProcessRow>, roots: set<int>, pids: set<int>)
    requires Closed(rows, pids) && roots <= pids
    requires forall p :: p in pids ==> Reachable(rows, roots, p)
    ensures forall p :: p in pids <==> Reachable(rows, roots, p)
  {
    forall p | Reachable(rows, roots, p) ensures p in pids {
      var n: nat :| Below(rows, roots, p, n);
      BelowInClosed(rows, roots, p, n, pids);
    }
  }

  // ---- the changed-flag fixpoint ----

  method GrowTargets(rows: seq<ProcessRow>, roots: set<int>) returns (targets: set<int>)
    ensures forall p :: p in targets <==> Reachable(rows, roots, p)
    ensures roots <= targets <= roots + Pids(rows)
  {
    targets := roots;
    ghost var everyone := roots + Pids(rows);
    forall p | p in roots ensures Reachable(rows, roots, p) { RootReachable(rows, roots, p); }
    var changed := true;
    while changed
      invariant roots <= targets <= everyone
      invariant forall p :: p in targets ==> Reachable(rows, roots, p)
      invariant !changed ==> Closed(rows, targets)
      decreases |everyone - targets|, changed
    {
      changed := false;
      ghost var before := targets;
      for i := 0 to |rows|
        invariant before <= targets <= everyone
        invariant forall p :: p in targets ==> Reachable(rows, roots, p)
        invariant changed ==> exists p :: p in targets && p !in before
        invariant !changed ==> targets == before && forall k :: 0 <= k < i && rows[k].ppid in targets ==> rows[k].pid in targets
      {
        var row := rows[i];
        if row.pid !in targets && row.ppid in targets {
          ChildReachable(rows, roots, row);
          targets := targets + {row.pid};
          changed := true;
        }
      }
      FewerLeft(everyone, before, targets);
    }
    ClosedIsReachable(rows, roots, targets);
  }

  lemma {:induction false} FewerLeft(everyone: set<int>, before: set<int>, after: set<int>)
    requires before <= after <= everyone
    ensures |everyone - after| <= |everyone - before|
    ensures (exists p :: p in after && p !in before) ==> |everyone - after| < |everyone - before|
  {
    SubsetSize(everyone - after, everyone - before);
    if p :| p in after && p !in before {
      SubsetSize(everyone - after, everyone - before - {p});
    }
  }

  lemma {:induction false} HasMember(a: set<int>)
    ensures a == {} || exists x :: x in a
  {
    if forall x :: x !in a {
      assert a == {};
    }
  }

  lemma {:induction false} SubsetSize(a: set<int>, b: set<int>)
    requires a <= b
    ensures |a| <= |b|
  {
    if a != {} {
      HasMember(a);
      var x :| x in a;
      SubsetSize(a - {x}, b - {x});
    }
  }

  // ---- the coordinator's targets ----

  predicate PartAt(text: string, part: string, i: nat) { i + |part| <= |text| && text[i..i + |part|] == part }

  predicate Contains(text: string, part: string) { exists i :: 0 <= i <= |text| && PartAt(text, part, i) }

  /** _is_coordinator_command */
  predicate IsCoordinator(command: string) {
    !Contains(command, "ds4_stop_coordinator_api.py") && !Contains(command, "ds4_relaunch_coordinator_api.py") &&
    ((Contains(command, "ds4_infer.api") && Contains(" " + command + " ", " -m ")) ||
     (Contains(command, "ds4_coordinator_api.sh") && Contains(command, "scripts/")))
  }

  // ---- which commands are coordinators ----

  /** The part stands somewhere in the text. */
  ghost predicate Occurs(text: string, part: string) { exists before, after :: text == before + part + after }

  lemma {:induction false} ContainsIs(text: string, part: string)
    ensures Contains(text, part) <==> Occurs(text, part)
  {
    if Contains(text, part) {
      var i :| 0 <= i <= |text| && PartAt(text, part, i);
      assert text == text[..i] + part + text[i + |part|..];
    }
    if Occurs(text, part) {
      var before, after :| text == before + part + after;
      assert PartAt(text, part, |before|);
    }
  }

  /** "-m" as a word of its own: all of the command, its beginning, its end, or between blanks. */
  ghost predicate HasModuleFlag(command: string) {
    || command == "-m"
    || "-m " <= command
    || (exists before :: command == before + " -m")
    || Occurs(command, " -m ")
  }

  lemma {:induction false} ModuleFlagIs(command: string)
    ensures Contains(" " + command + " ", " -m ") <==> HasModuleFlag(command)
  {
    var text := " " + command + " ";
    if Contains(text, " -m ") {
      var i :| 0 <= i <= |text| && PartAt(text, " -m ", i);
      FlagFound(command, i);
    }
    if HasModuleFlag(command) {
      FlagPlaced(command);
    }
  }

  lemma {:induction false} FlagFound(command: string, i: nat)
    requires PartAt(" " + command + " ", " -m ", i)
    ensures HasModuleFlag(command)
  {
    var text, n := " " + command + " ", |command|;
    assert text[i..i + 4] == " -m ";
    assert text[i] == ' ' && text[i + 1] == '-' && text[i + 2] == 'm' && text[i + 3] == ' ';
    if i == 0 {
      assert command[0] == '-' && command[1] == 'm';
      if n == 2 {
        assert command == "-m";
      } else {
        assert command[..3] == "-m ";
      }
    } else if i + 3 == n + 1 {
      assert command == command[..n - 3] + " -m";
    } else {
      assert command == command[..i - 1] + " -m " + command[i + 3..];
    }
  }

  lemma {:induction false} FlagPlaced(command: string)
    requires HasModuleFlag(command)
    ensures Contains(" " + command + " ", " -m ")
  {
    var text := " " + command + " ";
    if command == "-m" || "-m " <= command {
      assert text[0..4] == " -m ";
      assert PartAt(text, " -m ", 0);
    } else if before :| command == before + " -m" {
      var i := |before| + 1;
      assert text[i..i + 4] == " -m ";
      assert PartAt(text, " -m ", i);
    } else {
      var before, after :| command == before + " -m " + after;
      var i := |before| + 1;
      assert text[i..i + 4] == " -m ";
      assert PartAt(text, " -m ", i);
    }
  }

  /** A coordinator runs the API module with -m, or the coordinator script from the
      scripts directory; the stop and relaunch scripts are never taken for one. */
  lemma {:induction false} CoordinatorIs(command: string)
    ensures IsCoordinator(command) <==>
      !Occurs(command, "ds4_stop_coordinator_api.py") && !Occurs(command, "ds4_relaunch_coordinator_api.py") &&
      ((Occurs(command, "ds4_infer.api") && HasModuleFlag(command)) ||
       (Occurs(command, "ds4_coordinator_api.sh") && Occurs(command, "scripts/")))
  {
    hide Contains, Occurs, HasModuleFlag;
    ContainsIs(command, "ds4_stop_coordinator_api.py");
    ContainsIs(command, "ds4_relaunch_coordinator_api.py");
    ContainsIs(command, "ds4_infer.api");
    ModuleFlagIs(command);
    ContainsIs(command, "ds4_coordinator_api.sh");
    ContainsIs(command, "scripts/");
  }

  function Direct(rows: seq<ProcessRow>, self: int): set<int> {
    set row | row in rows && row.pid != self && IsCoordinator(row.command) :: row.pid
  }

  /** rows_by_pid: the last row of a pid. */
  function RowByPid(rows: seq<ProcessRow>): map<int, ProcessRow> {
    if rows == [] then map[]
    else RowByPid(rows[..|rows| - 1])[rows[|rows| - 1].pid := rows[|rows| - 1]]
  }

  /** The row is in the table and no later row has its pid. */
  predicate IsLastRow(rows: seq<ProcessRow>, row: ProcessRow) { exists i :: 0 <= i < |rows| && IsLastAt(rows, row, i) }

  predicate IsLastAt(rows: seq<ProcessRow>, row: ProcessRow, i: nat)
    requires i < |rows|
  {
    rows[i] == row && forall j :: i < j < |rows| ==> rows[j].pid != row.pid
  }

  lemma {:induction false} RowByPidHas(rows: seq<ProcessRow>)
    ensures RowByPid(rows).Keys == Pids(rows)
    ensures forall p :: p in RowByPid(rows) ==> RowByPid(rows)[p].pid == p && IsLastRow(rows, RowByPid(rows)[p])
  {
    if rows != [] {
      var n := |rows| - 1;
      RowByPidHas(rows[..n]);
      assert rows == rows[..n] + [rows[n]];
      assert IsLastAt(rows, rows[n], n);
      forall p | p in RowByPid(rows) && p != rows[n].pid ensures IsLastRow(rows, RowByPid(rows)[p]) {
        var row := RowByPid(rows[..n])[p];
        var i :| 0 <= i < n && IsLastAt(rows[..n], row, i);
        assert IsLastAt(rows, row, i);
      }
      assert Pids(rows) == Pids(rows[..n]) + {rows[n].pid} by {
        forall p ensures p in Pids(rows) <==> p in Pids(rows[..n]) + {rows[n].pid} {
          if p in Pids(rows) {
            var row :| row in rows && row.pid == p;
            assert row in rows[..n] || row == rows[n];
          }
        }
      }
    }
  }

  lemma {:induction false} LargestExists(pids: set<int>)
    requires pids != {}
    ensures exists m :: m in pids && forall p :: p in pids ==> p <= m
  {
    HasMember(pids);
    var x :| x in pids;
    if pids != {x} {
      LargestExists(pids - {x});
      var m :| m in pids - {x} && forall p :: p in pids - {x} ==> p <= m;
      var top := if x < m then m else x;
      forall p | p in pids ensures p <= top { assert p == x || p in pids - {x}; }
    }
  }

  predicate Descending(rows: seq<ProcessRow>) { forall i, j :: 0 <= i < j < |rows| ==> rows[i].pid > rows[j].pid }

  /** _coordinator_targets: the reachable processes, each once, highest pid first,
      each with the row of the table. No target lacks a row. */
  method CoordinatorTargets(rows: seq<ProcessRow>, self: int) returns (targets: seq<ProcessRow>)
    ensures Descending(targets)
    ensures forall p :: Lists(targets, p) <==> Reachable(rows, Direct(rows, self), p)
    ensures forall i :: 0 <= i < |targets| ==> IsLastRow(rows, targets[i])
  {
    RowByPidHas(rows);
    var pids := GrowTargets(rows, Direct(rows, self));
    assert pids <= Pids(rows) by {
      forall p | p in pids ensures p in Pids(rows) {
        if p in Direct(rows, self) {
          var row :| row in rows && row.pid == p;
        }
      }
    }
    targets := Sorted(rows, pids);
  }

  predicate Lists(targets: seq<ProcessRow>, p: int) { exists i :: 0 <= i < |targets| && targets[i].pid == p }

  /** The rows of the pids taken out of the set so far, highest first. */
  predicate SortedPart(rows: seq<ProcessRow>, pids: set<int>, left: set<int>, targets: seq<ProcessRow>) {
    left <= pids && Descending(targets) &&
    (forall i, p :: 0 <= i < |targets| && p in left ==> targets[i].pid > p) &&
    (forall i :: 0 <= i < |targets| ==> targets[i].pid in pids && IsLastRow(rows, targets[i])) &&
    (forall p :: p in pids && p !in left ==> Lists(targets, p))
  }

  lemma {:induction false} SortStep(rows: seq<ProcessRow>, pids: set<int>, left: set<int>, targets: seq<ProcessRow>, row: ProcessRow)
    requires SortedPart(rows, pids, left, targets) && IsLastRow(rows, row)
    requires row.pid in left && forall p :: p in left ==> p <= row.pid
    ensures SortedPart(rows, pids, left - {row.pid}, targets + [row])
  {
    hide IsLastRow;
    var next := targets + [row];
    assert next[|targets|].pid == row.pid;
    forall p | p in pids && p !in left - {row.pid} ensures Lists(next, p) {
      if p != row.pid {
        assert Lists(targets, p);
        var i :| 0 <= i < |targets| && targets[i].pid == p;
        assert next[i].pid == p;
      }
    }
  }

  method Sorted(rows: seq<ProcessRow>, pids: set<int>) returns (targets: seq<ProcessRow>)
    requires pids <= Pids(rows)
    ensures Descending(targets)
    ensures forall p :: p in pids <==> Lists(targets, p)
    ensures forall i :: 0 <= i < |targets| ==> IsLastRow(rows, targets[i])
  {
    hide IsLastRow, Descending, IsLastAt;
    RowByPidHas(rows);
    var left := pids;
    targets := [];
    assert SortedPart(rows, pids, left, targets) by { assert Descending([]) by { NoneDescending(); } }
    while left != {}
      invariant SortedPart(rows, pids, left, targets)
      decreases |left|
    {
      LargestExists(left);
      var m :| m in left && forall p :: p in left ==> p <= m;
      SortStep(rows, pids, left, targets, RowByPid(rows)[m]);
      targets := targets + [RowByPid(rows)[m]];
      left := left - {m};
    }
  }

  lemma {:induction false} NoneDescending()
    ensures Descending([])
  {
  }

  /** The stop script lists itself just when its own parent is a target. */
  lemma {:induction false} SelfListedOnlyBelowTarget(rows: seq<ProcessRow>, self: int)
    ensures
      var roots := Direct(rows, self);
      Reachable(rows, roots, self) <==> exists row :: row in rows && row.pid == self && Reachable(rows, roots, row.ppid)
  {
    var roots := Direct(rows, self);
    if Reachable(rows, roots, self) {
      var n: nat :| Below(rows, roots, self, n);
      ReachedThroughRow(rows, roots, self, n);
    }
    if row :| row in rows && row.pid == self && Reachable(rows, roots, row.ppid) {
      ChildReachable(rows, roots, row);
    }
  }

  lemma {:induction false} ReachedThroughRow(rows: seq<ProcessRow>, roots: set<int>, pid: int, n: nat)
    requires Below(rows, roots, pid, n) && pid !in roots
    ensures exists row :: row in rows && row.pid == pid && Reachable(rows, roots, row.ppid)
  {
    if Below(rows, roots, pid, n - 1) {
      ReachedThroughRow(rows, roots, pid, n - 1);
    } else {
      var row :| row in rows && row.pid == pid && Below(rows, roots, row.ppid, n - 1);
      assert Reachable(rows, roots, row.ppid);
    }
  }

  // ---- the stack worklist ----

  function ChildrenOf(rows: seq<ProcessRow>, p: int): seq<int> {
    if rows == [] then []
    else
      var last := rows[|rows| - 1];
      ChildrenOf(rows[..|rows| - 1], p) + (if last.ppid == p then [last.pid] else [])
  }

  lemma {:induction false} ChildrenOfAre(rows: seq<ProcessRow>, p: int)
    ensures forall c :: c in ChildrenOf(rows, p) <==> ProcessRowExists(rows, c, p)
  {
    if rows != [] {
      var n := |rows| - 1;
      ChildrenOfAre(rows[..n], p);
      assert rows == rows[..n] + [rows[n]];
      forall c ensures ProcessRowExists(rows, c, p) <==>
          ProcessRowExists(rows[..n], c, p) || (rows[n].pid == c && rows[n].ppid == p) {
        if ProcessRowExists(rows, c, p) {
          var row :| row in rows && row.pid == c && row.ppid == p;
          assert row in rows[..n] || row == rows[n];
        }
      }
    }
  }

  predicate ProcessRowExists(rows: seq<ProcessRow>, c: int, p: int) { exists row :: row in rows && row.pid == c && row.ppid == p }

  function Lookup(children: map<int, seq<int>>, p: int): seq<int> { if p in children then children[p] else [] }

  method BuildChildren(rows: seq<ProcessRow>) returns (children: map<int, seq<int>>)
    ensures forall p :: Lookup(children, p) == ChildrenOf(rows, p)
  {
    children := map[];
    for i := 0 to |rows|
      invariant forall p :: Lookup(children, p) == ChildrenOf(rows[..i], p)
    {
      assert rows[..i + 1][..i] == rows[..i];
      var row := rows[i];
      ghost var had := children;
      children := children[row.ppid := Lookup(children, row.ppid) + [row.pid]];
      forall p ensures Lookup(children, p) == ChildrenOf(rows[..i + 1], p) {
        assert Lookup(had, p) == ChildrenOf(rows[..i], p);
      }
    }
    assert rows[..|rows|] == rows;
  }

  predicate NoRepeat(pids: seq<int>) { forall i, j :: 0 <= i < j < |pids| ==> pids[i] != pids[j] }

  function SetOf(pids: seq<int>): set<int> { set p | p in pids }

  /** pids[k] is a root, or the child of a pid listed before it. */
  predicate AfterParent(rows: seq<ProcessRow>, parents: seq<int>, pids: seq<int>, k: nat)
    requires k < |pids|
  {
    pids[k] in parents || exists j :: 0 <= j < k && ProcessRowExists(rows, pids[k], pids[j])
  }

  /** What the stack routine maintains about the pids taken and the stack. */
  ghost predicate Working(rows: seq<ProcessRow>, parents: seq<int>, taken: seq<int>, stack: seq<int>) {
    NoRepeat(taken) &&
    (forall k :: 0 <= k < |taken| ==> AfterParent(rows, parents, taken, k)) &&
    (forall p :: p in stack ==> p in parents || exists j :: 0 <= j < |taken| && ProcessRowExists(rows, p, taken[j])) &&
    (forall p :: p in parents ==> p in taken || p in stack) &&
    (forall row :: row in rows && row.ppid in taken ==> row.pid in taken || row.pid in stack)
  }

  lemma {:induction false} TakeKeeps(rows: seq<ProcessRow>, parents: seq<int>, taken: seq<int>, stack: seq<int>, children: seq<int>)
    requires Working(rows, parents, taken, stack) && |stack| > 0
    requires stack[|stack| - 1] !in taken
    requires forall c :: c in children <==> ProcessRowExists(rows, c, stack[|stack| - 1])
    ensures Working(rows, parents, taken + [stack[|stack| - 1]], stack[..|stack| - 1] + children)
  {
    hide ProcessRowExists;
    var n := |stack| - 1;
    var pid := stack[n];
    var next, left := taken + [pid], stack[..n] + children;
    assert stack == stack[..n] + [pid];
    forall k | 0 <= k < |next| ensures AfterParent(rows, parents, next, k) {
      if k < |taken| {
        assert AfterParent(rows, parents, taken, k);
        if taken[k] !in parents {
          var j :| 0 <= j < k && ProcessRowExists(rows, taken[k], taken[j]);
          assert next[j] == taken[j] && next[k] == taken[k];
        }
      } else if pid !in parents {
        var j :| 0 <= j < |taken| && ProcessRowExists(rows, pid, taken[j]);
        assert next[j] == taken[j];
      }
    }
    forall p | p in left && p !in parents ensures exists j :: 0 <= j < |next| && ProcessRowExists(rows, p, next[j]) {
      if p in children {
        assert ProcessRowExists(rows, p, next[|taken|]);
      } else {
        assert p in stack;
        var j :| 0 <= j < |taken| && ProcessRowExists(rows, p, taken[j]);
        assert ProcessRowExists(rows, p, next[j]);
      }
    }
    forall row | row in rows && row.ppid in next ensures row.pid in next || row.pid in left {
      if row.ppid == pid {
        RowExists(rows, row);
      } else {
        assert row.ppid in taken;
      }
    }
  }

  lemma {:induction false} RowExists(rows: seq<ProcessRow>, row: ProcessRow)
    requires row in rows
    ensures ProcessRowExists(rows, row.pid, row.ppid)
  {
  }

  lemma {:induction false} SkipKeeps(rows: seq<ProcessRow>, parents: seq<int>, taken: seq<int>, stack: seq<int>)
    requires Working(rows, parents, taken, stack) && |stack| > 0
    requires stack[|stack| - 1] in taken
    ensures Working(rows, parents, taken, stack[..|stack| - 1])
  {
    assert stack == stack[..|stack| - 1] + [stack[|stack| - 1]];
  }

  lemma {:induction false} TakenReachable(rows: seq<ProcessRow>, parents: seq<int>, taken: seq<int>, k: nat)
    requires k < |taken| && forall i :: 0 <= i <= k ==> AfterParent(rows, parents, taken, i)
    ensures Reachable(rows, SetOf(parents), taken[k])
  {
    if taken[k] in parents {
      RootReachable(rows, SetOf(parents), taken[k]);
    } else {
      assert AfterParent(rows, parents, taken, k);
      var j :| 0 <= j < k && ProcessRowExists(rows, taken[k], taken[j]);
      TakenReachable(rows, parents, taken, j);
      var row :| row in rows && row.pid == taken[k] && row.ppid == taken[j];
      ChildReachable(rows, SetOf(parents), row);
    }
  }

  lemma {:induction false} TakenInTable(rows: seq<ProcessRow>, parents: seq<int>, taken: seq<int>, stack: seq<int>)
    requires Working(rows, parents, taken, stack)
    ensures SetOf(taken) <= SetOf(parents) + Pids(rows)
    ensures SetOf(stack) <= SetOf(parents) + Pids(rows)
  {
    forall p | p in stack ensures p in SetOf(parents) + Pids(rows) {
      if p !in parents {
        var j :| 0 <= j < |taken| && ProcessRowExists(rows, p, taken[j]);
        var row :| row in rows && row.pid == p && row.ppid == taken[j];
        assert row.pid in Pids(rows);
      }
    }
    forall p | p in taken ensures p in SetOf(parents) + Pids(rows) {
      var k :| 0 <= k < |taken| && taken[k] == p;
      assert AfterParent(rows, parents, taken, k);
      if p !in parents {
        var j :| 0 <= j < k && ProcessRowExists(rows, p, taken[j]);
        var row :| row in rows && row.pid == p && row.ppid == taken[j];
        assert row.pid in Pids(rows);
      }
    }
  }

  /** The kill routine's list: the reachable pids, none twice, each after a parent
      of its own or a root; the loop ends even when parent links form a cycle. */
  method CollectTree(rows: seq<ProcessRow>, parents: seq<int>) returns (taken: seq<int>)
    ensures forall p :: p in taken <==> Reachable(rows, SetOf(parents), p)
    ensures NoRepeat(taken)
    ensures forall k :: 0 <= k < |taken| ==> AfterParent(rows, parents, taken, k)
  {
    hide Reachable, Below, Pids, NoRepeat, AfterParent, Working, ProcessRowExists, ChildrenOf, SetOf;
    var children := BuildChildren(rows);
    ghost var everyone := SetOf(parents) + Pids(rows);
    taken := [];
    var stack := parents;
    StartWorking(rows, parents);
    while stack != []
      invariant Working(rows, parents, taken, stack)
      decreases |everyone - SetOf(taken)|, |stack|
    {
      var pid := stack[|stack| - 1];
      TakenInTable(rows, parents, taken, stack);
      if pid in taken {
        SkipKeeps(rows, parents, taken, stack);
        stack := stack[..|stack| - 1];
        continue;
      }
      ChildrenOfAre(rows, pid);
      TakeKeeps(rows, parents, taken, stack, Lookup(children, pid));
      TakeInTable(everyone, taken, pid, stack);
      FewerLeft(everyone, SetOf(taken), SetOf(taken + [pid]));
      taken := taken + [pid];
      stack := stack[..|stack| - 1] + Lookup(children, pid);
    }
    WorkDone(rows, parents, taken);
  }

  lemma {:induction false} StartWorking(rows: seq<ProcessRow>, parents: seq<int>)
    ensures Working(rows, parents, [], parents)
  {
  }

  lemma {:induction false} TakeInTable(everyone: set<int>, taken: seq<int>, pid: int, stack: seq<int>)
    requires SetOf(taken) <= everyone && SetOf(stack) <= everyone && pid in stack && pid !in taken
    ensures SetOf(taken) <= SetOf(taken + [pid]) <= everyone
    ensures pid in SetOf(taken + [pid]) && pid !in SetOf(taken)
  {
  }

  lemma {:induction false} WorkDone(rows: seq<ProcessRow>, parents: seq<int>, taken: seq<int>)
    requires Working(rows, parents, taken, [])
    ensures forall p :: p in taken <==> Reachable(rows, SetOf(parents), p)
    ensures NoRepeat(taken) && forall k :: 0 <= k < |taken| ==> AfterParent(rows, parents, taken, k)
  {
    forall p | p in taken ensures Reachable(rows, SetOf(parents), p) {
      var k :| 0 <= k < |taken| && taken[k] == p;
      TakenReachable(rows, parents, taken, k);
    }
    assert SetOf(parents) <= SetOf(taken) by {
      forall p | p in SetOf(parents) ensures p in SetOf(taken) { assert p in parents; }
    }
    ClosedIsReachable(rows, SetOf(parents), SetOf(taken));
  }

  /** Same roots, same table: whatever the two routines return names the same processes. */
  method BothClosures(rows: seq<ProcessRow>, parents: seq<int>) returns (grown: set<int>, taken: seq<int>)
    ensures SetOf(taken) == grown && |taken| == |grown|
  {
    grown := GrowTargets(rows, SetOf(parents));
    taken := CollectTree(rows, parents);
    NoRepeatSize(taken);
  }

  lemma {:induction false} NoRepeatSize(pids: seq<int>)
    requires NoRepeat(pids)
    ensures |SetOf(pids)| == |pids|
  {
    if pids == [] {
      assert SetOf(pids) == {};
    } else {
      var n := |pids| - 1;
      NoRepeatSize(pids[..n]);
      assert pids == pids[..n] + [pids[n]];
      assert SetOf(pids) == SetOf(pids[..n]) + {pids[n]};
    }
  }
}
