/** With several workers, when a timer can hurt a round that is not timed out: the exact
    conditions, over every reachable state of a connection, and runs that show them met. */
module StaleTimers {
  import opened Prelude
  import opened ConnectionProtocol

  ghost predicate Leads(s: State, s': State) { exists run :: Exec(s, run) == Some(s') }

  ghost predicate Reachable(s: State) { Leads(START, s) }

  lemma LeadsNowhere(s: State)
    ensures Leads(s, s)
  {
    assert Exec(s, []) == Some(s);
  }

  lemma LeadsStep(s: State, s': State, a: Action, s'': State)
    requires Leads(s, s') && Step(s', a) == Some(s'')
    ensures Leads(s, s'')
  {
    var run :| Exec(s, run) == Some(s');
    ExecAppend(s, run, [a]);
    Then(s', a, s'', []);
    assert [a] + [] == [a];
    assert Exec(s, run + [a]) == Some(s'');
  }

  lemma LeadsOn(s: State, s': State, s'': State)
    requires Leads(s, s') && Leads(s', s'')
    ensures Leads(s, s'')
  {
    var a :| Exec(s, a) == Some(s');
    var b :| Exec(s', b) == Some(s'');
    ExecAppend(s, a, b);
    assert Exec(s, a + b) == Some(s'');
  }

  lemma ReachableInv(s: State)
    requires Reachable(s)
    ensures Inv(s)
  {
    var run :| Exec(START, run) == Some(s);
    StartInv();
    InvOverRun(START, run);
  }

  /** A predicate every step keeps holds wherever a state leads. */
  lemma {:induction false} KeptOverRun(s: State, run: seq<Action>, p: State -> bool)
    requires p(s) && Inv(s) && Exec(s, run).Some?
    requires forall u, a :: Inv(u) && p(u) && Step(u, a).Some? ==> p(Step(u, a).value)
    ensures p(Exec(s, run).value)
    decreases |run|
  {
    if run != [] {
      StepKeeps(s, run[0]);
      KeptOverRun(Step(s, run[0]).value, run[1..], p);
    }
  }

  lemma OnlyCycleTask(ts: seq<Task>, t: Task, u: Task)
    requires Sum(ts, InCycle) <= 1 && t in ts && u in ts && InCycle(t) == 1 && InCycle(u) == 1
    ensures t == u
  {
    var i :| 0 <= i < |ts| && ts[i] == t;
    var j :| 0 <= j < |ts| && ts[j] == u;
    if i < j { AtMostOneInCycle(ts, i, j); } else if j < i { AtMostOneInCycle(ts, j, i); }
  }

  // --------------------------------------------- what one step leaves in the bag

  /** Every task after a step was put there by it or was there before, perhaps cancelled. */
  lemma AfterStep(s: State, a: Action, u: Task)
    requires Step(s, a).Some? && u in Step(s, a).value.tasks
    ensures var m := Effect(s.tasks[a.index], s.flag, a);
      u in m.put || exists j :: 0 <= j < |s.tasks| && j != a.index && u == Cancelled(s.tasks, m.cancel)[j]
  {
    var m := Effect(s.tasks[a.index], s.flag, a);
    var ts := Cancelled(s.tasks, m.cancel);
    var k :| 0 <= k < |Replace(ts, a.index, m.put)| && Replace(ts, a.index, m.put)[k] == u;
    if k < a.index {
      assert u == ts[k];
    } else if k < a.index + |m.put| {
      assert u == m.put[k - a.index];
    } else {
      assert u == ts[k - |m.put| + 1];
    }
  }

  // ------------------------------------------------------- timers of earlier rounds

  /** The timer may still find the flag clear and cancel the socket. */
  predicate Live(t: Task) {
    t.ArmExpiry? || t.ArmWait? || t.TimerWait? || (t.TimerReady? && !t.failed) || t.TimerPassed?
  }

  ghost predicate EarlierSet(ts: seq<Task>, r: nat) { exists t :: t in ts && t.TimerSet? && t.round < r }

  ghost predicate EarlierLive(ts: seq<Task>, r: nat) { exists t :: t in ts && Live(t) && t.round < r }

  /** A handler of round `j`'s timer is about to cancel the socket while read `r` is out. */
  predicate AboutToAbort(s: State, j: nat, r: nat) {
    j < |s.tasks| && s.tasks[j].TimerPassed? && s.tasks[j].round < r && ReadOp(r) in s.tasks
  }

  lemma AbortsRead(s: State, j: nat, r: nat)
    requires AboutToAbort(s, j, r)
    ensures Step(s, Go(j)).Some? && ReadReady(r, Aborted) in Step(s, Go(j)).value.tasks
  {
    var i :| 0 <= i < |s.tasks| && s.tasks[i] == ReadOp(r);
    var ts := Each(s.tasks, SocketCancelled);
    assert ts[i] == ReadReady(r, Aborted);
    var s' := Step(s, Go(j)).value;
    assert s'.tasks == Replace(ts, j, [TimerSet(s.tasks[j].round)]) && s'.tasks[i] == ts[i];
  }

  ghost predicate SomeRunAborts(s: State, r: nat) {
    exists s', j :: Leads(s, s') && AboutToAbort(s', j, r)
  }

  /** Cycle and live timer tasks, and with `setting` those about to set the flag, belong to
      round `r` or a later one. */
  predicate NotBefore(t: Task, r: nat, setting: bool) {
    InCycle(t) == 1 || Live(t) || (setting && t.TimerSet?) ==> t.round >= r
  }

  ghost predicate NoneBefore(s: State, r: nat, setting: bool) {
    forall t :: t in s.tasks ==> NotBefore(t, r, setting)
  }

  lemma MoveNotBefore(t: Task, flag: bool, a: Action, r: nat, setting: bool, u: Task)
    requires Matches(t, a) && NotBefore(t, r, setting) && u in Effect(t, flag, a).put
    ensures NotBefore(u, r, setting)
  {
  }

  lemma StepNoneBefore(s: State, a: Action, r: nat, setting: bool)
    requires NoneBefore(s, r, setting) && Step(s, a).Some?
    ensures NoneBefore(Step(s, a).value, r, setting)
  {
    var t := s.tasks[a.index];
    forall u | u in Step(s, a).value.tasks ensures NotBefore(u, r, setting) {
      AfterStep(s, a, u);
      if u in Effect(t, s.flag, a).put {
        MoveNotBefore(t, s.flag, a, r, setting, u);
      } else {
        var j :| 0 <= j < |s.tasks| && u == Cancelled(s.tasks, Effect(t, s.flag, a).cancel)[j];
        assert NotBefore(s.tasks[j], r, setting);
      }
    }
  }

  lemma NoneBeforeLasts(s: State, s': State, r: nat, setting: bool)
    requires Inv(s) && NoneBefore(s, r, setting) && Leads(s, s')
    ensures NoneBefore(s', r, setting)
  {
    var run :| Exec(s, run) == Some(s');
    forall u, a | NoneBefore(u, r, setting) && Step(u, a).Some? ensures NoneBefore(Step(u, a).value, r, setting) {
      StepNoneBefore(u, a, r, setting);
    }
    KeptOverRun(s, run, (u: State) => NoneBefore(u, r, setting));
  }

  lemma OnlyCycleNotBefore(s: State, r: nat, setting: bool)
    requires Inv(s) && ClearFlag(r) in s.tasks && !EarlierLive(s.tasks, r)
    requires setting ==> !EarlierSet(s.tasks, r)
    ensures NoneBefore(s, r, setting)
  {
    forall t | t in s.tasks ensures NotBefore(t, r, setting) {
      if InCycle(t) == 1 { OnlyCycleTask(s.tasks, t, ClearFlag(r)); }
    }
  }

  // -------------------------------------------------- bringing a timer to the point

  /** One task replaced by one other, nothing cancelled that is not a wait. */
  lemma StepAt(s: State, i: nat, j: nat, a: Action, y: Task)
    requires i < |s.tasks| && j < |s.tasks| && i != j && a.index == j && Matches(s.tasks[j], a)
    requires Effect(s.tasks[j], s.flag, a).put == [y] && WaitCancelled(s.tasks[i]) == s.tasks[i]
    requires Effect(s.tasks[j], s.flag, a).cancel != Socket
    ensures Step(s, a).Some?
    ensures var s' := Step(s, a).value;
      |s'.tasks| == |s.tasks| && s'.tasks[i] == s.tasks[i] && s'.tasks[j] == y
      && s'.flag == Effect(s.tasks[j], s.flag, a).flag
  {
  }

  predicate Armed(t: Task, m: nat) { t == TimerReady(m, false) || t == TimerPassed(m) }

  /** Whatever stage a live timer is at, it can get as far as its handler. */
  lemma ReachHandler(s: State, i: nat, j: nat, r: nat) returns (s': State)
    requires i < |s.tasks| && j < |s.tasks| && i != j && s.tasks[i] == ClearFlag(r) && Live(s.tasks[j])
    ensures Leads(s, s') && |s'.tasks| == |s.tasks|
    ensures s'.tasks[i] == ClearFlag(r) && Armed(s'.tasks[j], s.tasks[j].round)
  {
    var m := s.tasks[j].round;
    s' := s;
    LeadsNowhere(s);
    if s'.tasks[j].ArmExpiry? {
      StepAt(s', i, j, Go(j), ArmWait(m));
      LeadsStep(s, s', Go(j), Step(s', Go(j)).value);
      s' := Step(s', Go(j)).value;
    }
    if s'.tasks[j].ArmWait? {
      StepAt(s', i, j, Go(j), TimerWait(m));
      LeadsStep(s, s', Go(j), Step(s', Go(j)).value);
      s' := Step(s', Go(j)).value;
    }
    if s'.tasks[j].TimerWait? {
      StepAt(s', i, j, Complete(j, Ok), TimerReady(m, false));
      LeadsStep(s, s', Complete(j, Ok), Step(s', Complete(j, Ok)).value);
      s' := Step(s', Complete(j, Ok)).value;
    }
  }

  /** The flag is cleared for round `r`, and the handler tests it only then. */
  lemma PassTheTest(s: State, i: nat, j: nat, r: nat, m: nat) returns (s': State)
    requires i < |s.tasks| && j < |s.tasks| && i != j && s.tasks[i] == ClearFlag(r) && Armed(s.tasks[j], m)
    ensures Leads(s, s') && |s'.tasks| == |s.tasks|
    ensures s'.tasks[i] == IssueRead(r) && s'.tasks[j] == TimerPassed(m)
  {
    LeadsNowhere(s);
    StepAt(s, j, i, Go(i), IssueRead(r));
    s' := Step(s, Go(i)).value;
    LeadsStep(s, s, Go(i), s');
    if s'.tasks[j].TimerReady? {
      StepAt(s', i, j, Go(j), TimerPassed(m));
      LeadsStep(s, s', Go(j), Step(s', Go(j)).value);
      s' := Step(s', Go(j)).value;
    }
  }

  lemma ReadIssued(s: State, i: nat, j: nat, r: nat) returns (s': State, k: nat)
    requires i < |s.tasks| && j < |s.tasks| && i != j && s.tasks[i] == IssueRead(r)
    ensures Leads(s, s') && ReadOp(r) in s'.tasks
    ensures k < |s'.tasks| && s'.tasks[k] == s.tasks[j]
  {
    k := SplitKeeps(s.tasks, i, j, ReadOp(r), ArmExpiry(r));
    LeadsNowhere(s);
    s' := Step(s, Go(i)).value;
    assert s'.tasks == Replace(s.tasks, i, [ReadOp(r), ArmExpiry(r)]);
    LeadsStep(s, s, Go(i), s');
  }

  lemma SplitKeeps(ts: seq<Task>, i: nat, j: nat, x: Task, y: Task) returns (k: nat)
    requires i < |ts| && j < |ts| && i != j
    ensures var r := Replace(ts, i, [x, y]); x in r && k < |r| && r[k] == ts[j]
  {
    k := if j < i then j else j + 1;
    var r := Replace(ts, i, [x, y]);
    assert r == ts[..i] + [x, y] + ts[i + 1..];
    assert r[i] == x;
  }

  /** With read `r` about to be set up, some continuation lets the timer of an earlier round
      abort it if and only if a timer task of an earlier round is still live. */
  lemma StaleTimerExactly(s: State, r: nat)
    requires Reachable(s) && ClearFlag(r) in s.tasks
    ensures SomeRunAborts(s, r) <==> EarlierLive(s.tasks, r)
  {
    ReachableInv(s);
    if EarlierLive(s.tasks, r) {
      StaleTimerCan(s, r);
    } else {
      OnlyCycleNotBefore(s, r, false);
      forall s', j: nat | Leads(s, s') ensures !AboutToAbort(s', j, r) {
        NoneBeforeLasts(s, s', r, false);
        assert j < |s'.tasks| ==> NotBefore(s'.tasks[j], r, false);
      }
    }
  }

  lemma StaleTimerCan(s: State, r: nat)
    requires ClearFlag(r) in s.tasks && EarlierLive(s.tasks, r)
    ensures SomeRunAborts(s, r)
  {
    var t :| t in s.tasks && Live(t) && t.round < r;
    var j :| 0 <= j < |s.tasks| && s.tasks[j] == t;
    var i :| 0 <= i < |s.tasks| && s.tasks[i] == ClearFlag(r);
    var s1 := ReachHandler(s, i, j, r);
    var s2 := PassTheTest(s1, i, j, r, t.round);
    var s3, k := ReadIssued(s2, i, j, r);
    LeadsOn(s, s1, s2);
    LeadsOn(s, s2, s3);
    assert AboutToAbort(s3, k, r);
  }

  // ----------------------------------------------------- a flag set for the next round

  /** A handler of an earlier round's timer is about to set the flag while read `r` is out. */
  predicate AboutToFlag(s: State, j: nat, r: nat) {
    j < |s.tasks| && s.tasks[j].TimerSet? && s.tasks[j].round < r && ReadOp(r) in s.tasks
  }

  ghost predicate SomeRunFlags(s: State, r: nat) {
    exists s', j :: Leads(s, s') && AboutToFlag(s', j, r)
  }

  /** A task replaced by one other, nothing cancelled. */
  lemma StepOne(s: State, s0: State, k: nat, a: Action, y: Task) returns (s': State)
    requires Leads(s0, s) && k < |s.tasks| && a.index == k && Matches(s.tasks[k], a)
    requires Effect(s.tasks[k], s.flag, a).put == [y] && Effect(s.tasks[k], s.flag, a).cancel == Nothing
    ensures Leads(s0, s') && s'.flag == Effect(s.tasks[k], s.flag, a).flag
    ensures |s'.tasks| == |s.tasks| && s'.tasks[k] == y
  {
    s' := Step(s, a).value;
    LeadsStep(s0, s, a, s');
  }

  lemma RemovedKeeps(ts: seq<Task>, i: nat, j: nat) returns (k: nat)
    requires i < |ts| && j < |ts| && i != j
    ensures k < |Replace(ts, j, [])| && Replace(ts, j, [])[k] == ts[i]
  {
    k := if i < j then i else i - 1;
    assert Replace(ts, j, []) == ts[..j] + ts[j + 1..];
  }

  lemma FlagSet(s: State, j: nat, r: nat) returns (s': State, k: nat)
    requires AboutToFlag(s, j, r)
    ensures Leads(s, s') && s'.flag && k < |s'.tasks| && s'.tasks[k] == ReadOp(r)
  {
    var i :| 0 <= i < |s.tasks| && s.tasks[i] == ReadOp(r);
    k := RemovedKeeps(s.tasks, i, j);
    s' := SetSteps(s, j);
  }

  lemma SetSteps(s: State, j: nat) returns (s': State)
    requires j < |s.tasks| && s.tasks[j].TimerSet?
    ensures Leads(s, s') && s'.flag && s'.tasks == Replace(s.tasks, j, [])
  {
    LeadsNowhere(s);
    s' := Applied(s, j, To([], true));
    assert Effect(s.tasks[j], s.flag, Go(j)) == To([], true);
    LeadsStep(s, s, Go(j), s');
  }

  /** Then even a read that succeeds is taken for a timeout. */
  lemma FlaggedReadEnds(s: State, j: nat, r: nat) returns (s': State)
    requires AboutToFlag(s, j, r)
    ensures Leads(s, s') && ReadTested(r, Ok, true) in s'.tasks
  {
    var s1, k := FlagSet(s, j, r);
    var s2 := StepOne(s1, s, k, Complete(k, Ok), ReadReady(r, Ok));
    s' := StepOne(s2, s, k, Go(k), ReadTested(r, Ok, true));
  }

  lemma SocketLeaves(ts: seq<Task>, i: nat, j: nat, y: Task)
    requires i < |ts| && j < |ts| && i != j && SocketCancelled(ts[i]) == ts[i]
    ensures var r := Replace(Each(ts, SocketCancelled), j, [y]); |r| == |ts| && r[i] == ts[i] && r[j] == y
  {
  }

  lemma PassedSets(s: State, i: nat, j: nat, r: nat, m: nat) returns (s': State)
    requires i < |s.tasks| && j < |s.tasks| && i != j && s.tasks[i] == IssueRead(r) && s.tasks[j] == TimerPassed(m)
    ensures Leads(s, s') && |s'.tasks| == |s.tasks| && s'.tasks[i] == IssueRead(r) && s'.tasks[j] == TimerSet(m)
  {
    LeadsNowhere(s);
    s' := Step(s, Go(j)).value;
    SocketLeaves(s.tasks, i, j, TimerSet(m));
    LeadsStep(s, s, Go(j), s');
  }

  lemma LateSetCan(s: State, i: nat, j: nat, r: nat)
    requires i < |s.tasks| && j < |s.tasks| && i != j && s.tasks[i] == IssueRead(r)
    requires s.tasks[j].TimerSet? && s.tasks[j].round < r
    ensures SomeRunFlags(s, r)
  {
    var s', k := ReadIssued(s, i, j, r);
    assert AboutToFlag(s', k, r);
  }

  lemma FlagsFrom(s: State, s': State, r: nat)
    requires Leads(s, s') && SomeRunFlags(s', r)
    ensures SomeRunFlags(s, r)
  {
    var s'', j :| Leads(s', s'') && AboutToFlag(s'', j, r);
    LeadsOn(s, s', s'');
  }

  lemma LateFlagCan(s: State, r: nat)
    requires ClearFlag(r) in s.tasks && (EarlierLive(s.tasks, r) || EarlierSet(s.tasks, r))
    ensures SomeRunFlags(s, r)
  {
    var t :| t in s.tasks && (Live(t) || t.TimerSet?) && t.round < r;
    var j :| 0 <= j < |s.tasks| && s.tasks[j] == t;
    var i :| 0 <= i < |s.tasks| && s.tasks[i] == ClearFlag(r);
    if Live(t) {
      var s1 := ReachHandler(s, i, j, r);
      var s2 := PassTheTest(s1, i, j, r, t.round);
      var s3 := PassedSets(s2, i, j, r, t.round);
      LeadsOn(s, s1, s2);
      LeadsOn(s, s2, s3);
      LateSetCan(s3, i, j, r);
      FlagsFrom(s, s3, r);
    } else {
      StepAt(s, j, i, Go(i), IssueRead(r));
      LeadsNowhere(s);
      LeadsStep(s, s, Go(i), Step(s, Go(i)).value);
      LateSetCan(Step(s, Go(i)).value, i, j, r);
      FlagsFrom(s, Step(s, Go(i)).value, r);
    }
  }

  /** With read `r` about to be set up, some continuation lets the timer of an earlier round
      set the flag under it if and only if a timer task of an earlier round is still live or
      about to set the flag. */
  lemma LateFlagExactly(s: State, r: nat)
    requires Reachable(s) && ClearFlag(r) in s.tasks
    ensures SomeRunFlags(s, r) <==> EarlierLive(s.tasks, r) || EarlierSet(s.tasks, r)
  {
    ReachableInv(s);
    if EarlierLive(s.tasks, r) || EarlierSet(s.tasks, r) {
      LateFlagCan(s, r);
    } else {
      OnlyCycleNotBefore(s, r, true);
      forall s', j: nat | Leads(s, s') ensures !AboutToFlag(s', j, r) {
        NoneBeforeLasts(s, s', r, true);
        assert j < |s'.tasks| ==> NotBefore(s'.tasks[j], r, true);
      }
    }
  }

  // ------------------------------------------------------------ aborted writes

  /** From test_and_set in the read handler to the next clear the flag is set. */
  predicate Handling(t: Task) {
    t.ReadTested? || t.Extract? || t.Process? || t.WriteOp? || t.WriteReady? || t.BeginRead? || t.ClearFlag?
  }

  ghost predicate FlagWhileHandling(s: State) {
    forall t :: t in s.tasks && Handling(t) && (t.BeginRead? || t.ClearFlag? ==> t.round > 0) ==> s.flag
  }

  lemma HandlingMove(t: Task, flag: bool, a: Action, u: Task)
    requires Matches(t, a) && u in Effect(t, flag, a).put
    requires Handling(t) && (t.BeginRead? || t.ClearFlag? ==> t.round > 0) ==> flag
    ensures Handling(u) && (u.BeginRead? || u.ClearFlag? ==> u.round > 0) ==> Effect(t, flag, a).flag
  {
  }

  lemma FlagStays(t: Task, flag: bool, a: Action)
    requires Matches(t, a) && flag && !t.ClearFlag?
    ensures Effect(t, flag, a).flag
  {
  }

  lemma StepFlag(s: State, a: Action)
    requires Inv(s) && FlagWhileHandling(s) && Step(s, a).Some?
    ensures FlagWhileHandling(Step(s, a).value)
  {
    var t := s.tasks[a.index];
    var m := Effect(t, s.flag, a);
    forall u | u in Step(s, a).value.tasks && Handling(u) && (u.BeginRead? || u.ClearFlag? ==> u.round > 0)
      ensures m.flag
    {
      AfterStep(s, a, u);
      if u in m.put {
        HandlingMove(t, s.flag, a, u);
      } else {
        var j :| 0 <= j < |s.tasks| && j != a.index && u == Cancelled(s.tasks, m.cancel)[j];
        assert InCycle(s.tasks[j]) == 1 && Handling(u);
        OtherIsTimer(s, a.index, j);
        KeptOrAborted(s.tasks[j], m.cancel, u);
        FlagStays(t, s.flag, a);
      }
    }
  }

  lemma OtherIsTimer(s: State, i: nat, j: nat)
    requires Inv(s) && i < |s.tasks| && j < |s.tasks| && i != j && InCycle(s.tasks[j]) == 1
    ensures InCycle(s.tasks[i]) == 0
  {
    if i < j { AtMostOneInCycle(s.tasks, i, j); } else { AtMostOneInCycle(s.tasks, j, i); }
  }

  lemma KeptOrAborted(t: Task, c: Cancel, u: Task)
    requires InCycle(t) == 1 && u == Cancelled([t], c)[0]
    ensures InCycle(u) == 1 && u.round == t.round && (Handling(u) ==> Handling(t))
    ensures u.BeginRead? || u.ClearFlag? ==> u == t
  {
  }

  lemma ReachableFlag(s: State)
    requires Reachable(s)
    ensures Inv(s) && FlagWhileHandling(s)
  {
    var run :| Exec(START, run) == Some(s);
    StartInv();
    forall u, a | Inv(u) && FlagWhileHandling(u) && Step(u, a).Some? ensures FlagWhileHandling(Step(u, a).value) {
      StepFlag(u, a);
    }
    KeptOverRun(START, run, FlagWhileHandling);
    InvOverRun(START, run);
  }

  /** A timer's handler, of whatever round, is about to cancel the socket while the write
      of round `k` is out. */
  predicate AboutToAbortWrite(s: State, j: nat, k: nat, request: string) {
    j < |s.tasks| && s.tasks[j].TimerPassed? && WriteOp(k, request) in s.tasks
  }

  ghost predicate SomeRunAbortsWrite(s: State, k: nat, request: string) {
    exists s', j :: Leads(s, s') && AboutToAbortWrite(s', j, k, request)
  }

  ghost predicate PastTest(ts: seq<Task>) { exists t :: t in ts && t.TimerPassed? }

  predicate Responding(t: Task, k: nat) { t.round == k && (t.Process? || t.WriteOp? || t.WriteReady?) }

  /** Round `k` is responding with no handler past its test, or is over. */
  ghost predicate WriteSafe(s: State, k: nat) {
    forall t :: t in s.tasks && InCycle(t) == 1 ==> t.round > k || (Responding(t, k) && s.flag && !PastTest(s.tasks))
  }

  lemma CycleMoveSafe(t: Task, flag: bool, a: Action, k: nat, u: Task)
    requires Matches(t, a) && InCycle(t) == 1 && (t.round > k || Responding(t, k)) && u in Effect(t, flag, a).put
    requires InCycle(u) == 1
    ensures u.round > k || (Responding(u, k) && Responding(t, k) && Effect(t, flag, a).flag == flag)
    ensures Responding(t, k) ==> Effect(t, flag, a).cancel == Nothing
  {
  }

  lemma CancelledPassed(ts: seq<Task>, c: Cancel, j: nat)
    requires j < |ts| && Cancelled(ts, c)[j].TimerPassed?
    ensures ts[j].TimerPassed?
  {
  }

  /** With the flag set, no handler gets past its test. */
  lemma NobodyPasses(s: State, a: Action)
    requires Step(s, a).Some? && s.flag && !PastTest(s.tasks)
    ensures !PastTest(Step(s, a).value.tasks)
  {
    var t := s.tasks[a.index];
    forall u | u in Step(s, a).value.tasks ensures !u.TimerPassed? {
      AfterStep(s, a, u);
      if u in Effect(t, s.flag, a).put {
      } else {
        var c := Effect(t, s.flag, a).cancel;
        var j :| 0 <= j < |s.tasks| && u == Cancelled(s.tasks, c)[j];
        if u.TimerPassed? { CancelledPassed(s.tasks, c, j); }
      }
    }
  }

  lemma StepWriteSafe(s: State, a: Action, k: nat)
    requires Inv(s) && WriteSafe(s, k) && Step(s, a).Some?
    ensures WriteSafe(Step(s, a).value, k)
  {
    var s' := Step(s, a).value;
    var t := s.tasks[a.index];
    var m := Effect(t, s.flag, a);
    if s.flag && !PastTest(s.tasks) { NobodyPasses(s, a); }
    forall u | u in s'.tasks && InCycle(u) == 1
      ensures u.round > k || (Responding(u, k) && s'.flag && !PastTest(s'.tasks))
    {
      AfterStep(s, a, u);
      if u in m.put {
        PutBySame(t, s.flag, a, u);
        CycleMoveSafe(t, s.flag, a, k, u);
      } else {
        var j :| 0 <= j < |s.tasks| && j != a.index && u == Cancelled(s.tasks, m.cancel)[j];
        CancelKeepsCycleTask(s.tasks, m.cancel, j);
        OtherIsTimer(s, a.index, j);
        if s.flag { FlagStays(t, s.flag, a); }
        assert s.tasks[j] in s.tasks;
      }
    }
  }

  lemma PutBySame(t: Task, flag: bool, a: Action, u: Task)
    requires Matches(t, a) && u in Effect(t, flag, a).put && InCycle(u) == 1
    ensures InCycle(t) == 1
  {
  }

  lemma CancelKeepsCycleTask(ts: seq<Task>, c: Cancel, j: nat)
    requires j < |ts| && InCycle(Cancelled(ts, c)[j]) == 1
    ensures InCycle(ts[j]) == 1 && Cancelled(ts, c)[j].round == ts[j].round
    ensures forall k :: Responding(ts[j], k) ==> Responding(Cancelled(ts, c)[j], k)
  {
  }

  lemma NobodyPastNoAbort(s: State, s': State, k: nat, j: nat, request: string)
    requires Inv(s) && WriteSafe(s, k) && Leads(s, s')
    ensures !AboutToAbortWrite(s', j, k, request)
  {
    var run :| Exec(s, run) == Some(s');
    forall u, a | Inv(u) && WriteSafe(u, k) && Step(u, a).Some? ensures WriteSafe(Step(u, a).value, k) {
      StepWriteSafe(u, a, k);
    }
    KeptOverRun(s, run, (u: State) => WriteSafe(u, k));
    assert InCycle(WriteOp(k, request)) == 1 && (j < |s'.tasks| ==> s'.tasks[j] in s'.tasks);
  }

  lemma WriteIssued(s: State, i: nat, j: nat)
    requires i < |s.tasks| && j < |s.tasks| && i != j && s.tasks[i].Process?
    ensures Step(s, Go(i)).Some?
    ensures var s' := Step(s, Go(i)).value;
      && |s'.tasks| == |s.tasks|
      && s'.tasks[i] == WriteOp(s.tasks[i].round, s.tasks[i].request) && s'.tasks[j] == s.tasks[j]
  {
  }

  /** With a request of round `k` about to be answered, some continuation lets a timer abort
      the write if and only if some timer's handler is already past its test of the flag. */
  lemma AbortedWriteExactly(s: State, k: nat, request: string)
    requires Reachable(s) && Process(k, request) in s.tasks
    ensures SomeRunAbortsWrite(s, k, request) <==> PastTest(s.tasks)
  {
    ReachableFlag(s);
    if PastTest(s.tasks) {
      var t :| t in s.tasks && t.TimerPassed?;
      var j :| 0 <= j < |s.tasks| && s.tasks[j] == t;
      var i :| 0 <= i < |s.tasks| && s.tasks[i] == Process(k, request);
      WriteIssued(s, i, j);
      LeadsNowhere(s);
      LeadsStep(s, s, Go(i), Step(s, Go(i)).value);
      assert AboutToAbortWrite(Step(s, Go(i)).value, j, k, request);
    } else {
      forall t | t in s.tasks && InCycle(t) == 1 ensures Responding(t, k) && s.flag {
        OnlyCycleTask(s.tasks, t, Process(k, request));
      }
      forall s', j: nat | Leads(s, s') ensures !AboutToAbortWrite(s', j, k, request) {
        NobodyPastNoAbort(s, s', k, j, request);
      }
    }
  }

  // -------------------------------------------------------------- both happen

  lemma Reach(s: State, a: Action, s': State)
    requires Reachable(s) && Becomes(s, a, s')
    ensures Reachable(s')
  {
    BecomesIsStep(s, a, s');
    LeadsStep(START, s, a, s');
  }

  /** Of two tasks, one is replaced by one other and the rest of the state is as it was. */
  lemma Advance(s: State, j: nat, a: Action, y: Task)
    requires Reachable(s) && |s.tasks| == 2 && j < 2 && a.index == j && Matches(s.tasks[j], a)
    requires var m := Effect(s.tasks[j], s.flag, a);
      m == To([y], s.flag).(cancel := m.cancel) && Cancelled(s.tasks, m.cancel) == s.tasks
    ensures Reachable(s.(tasks := if j == 0 then [y, s.tasks[1]] else [s.tasks[0], y]))
  {
    Reach(s, a, s.(tasks := if j == 0 then [y, s.tasks[1]] else [s.tasks[0], y]));
  }

  /** Round 0 reading, with its timer's wait completed and the handler not yet run. */
  const WAITED: State := State([ReadOp(0), TimerReady(0, false)], false, [], [], [], [], false, 1)

  lemma ReachReading()
    ensures Reachable(WAITED.(tasks := [ReadOp(0), ArmExpiry(0)]))
  {
    LeadsNowhere(START);
    Reach(START, Go(0), START.(tasks := [ClearFlag(0)]));
    Reach(START.(tasks := [ClearFlag(0)]), Go(0), START.(tasks := [IssueRead(0)]));
    Reach(START.(tasks := [IssueRead(0)]), Go(0), WAITED.(tasks := [ReadOp(0), ArmExpiry(0)]));
  }

  lemma ReachWaited()
    ensures Reachable(WAITED)
  {
    ReachReading();
    Advance(WAITED.(tasks := [ReadOp(0), ArmExpiry(0)]), 1, Go(1), ArmWait(0));
    Advance(WAITED.(tasks := [ReadOp(0), ArmWait(0)]), 1, Go(1), TimerWait(0));
    Advance(WAITED.(tasks := [ReadOp(0), TimerWait(0)]), 1, Complete(1, Ok), TimerReady(0, false));
  }

  function Taking(late: Task): State {
    State([Process(0, "request"), late], true, ["request"], [], [], [], false, 1)
  }

  function Answering(late: Task): State {
    State([WriteOp(0, "request"), late], true, ["request"], ["request"], [], [], false, 2)
  }

  /** The read of round 0 succeeds and its request is taken, whatever the timer's handler
      has got to. */
  lemma TakesRequest(late: Task)
    requires late == TimerReady(0, false) || late == TimerPassed(0)
    requires Reachable(WAITED.(tasks := [ReadOp(0), late]))
    ensures Reachable(Taking(late)) && Reachable(Answering(late))
  {
    var extract := WAITED.(tasks := [Extract(0), late], flag := true);
    ReadTaken(late, extract);
    Taken(late, extract);
    Answered(late);
  }

  lemma Taken(late: Task, extract: State)
    requires Reachable(extract) && extract == WAITED.(tasks := [Extract(0), late], flag := true)
    ensures Reachable(Taking(late))
  {
    Reach(extract, Take(0, "request"), Taking(late));
  }

  lemma Answered(late: Task)
    requires Reachable(Taking(late))
    ensures Reachable(Answering(late))
  {
    Reach(Taking(late), Go(0), Answering(late));
  }

  lemma ReadTaken(late: Task, extract: State)
    requires late == TimerReady(0, false) || late == TimerPassed(0)
    requires Reachable(WAITED.(tasks := [ReadOp(0), late]))
    requires extract == WAITED.(tasks := [Extract(0), late], flag := true)
    ensures Reachable(extract)
  {
    var ready := WAITED.(tasks := [ReadReady(0, Ok), late]);
    var tested := extract.(tasks := [ReadTested(0, Ok, false), late]);
    Advance(WAITED.(tasks := [ReadOp(0), late]), 0, Complete(0, Ok), ReadReady(0, Ok));
    Reach(ready, Go(0), tested);
    Advance(tested, 0, Go(0), Extract(0));
  }

  /** Round 0 goes well, round 1 is about to read, and round 0's timer, still unheard, can
      abort that read. */
  lemma StaleTimerCancelsNextRead()
    ensures var s := State([ClearFlag(1), TimerReady(0, false)], true,
                           ["request"], ["request"], ["request"], [], false, 2);
      Reachable(s) && SomeRunAborts(s, 1)
  {
    var late := TimerReady(0, false);
    ReachWaited();
    TakesRequest(late);
    var written := Answering(late).(tasks := [WriteReady(0, "request", false), late]);
    var again := written.(tasks := [BeginRead(1), late], delivered := ["request"]);
    Advance(Answering(late), 0, Complete(0, Ok), WriteReady(0, "request", false));
    NextRound(written, again);
    var s := again.(tasks := [ClearFlag(1), late]);
    assert s.tasks[0] == ClearFlag(1) && s.tasks[1] == late && Live(late);
    StaleTimerExactly(s, 1);
  }

  lemma NextRound(written: State, again: State)
    requires Reachable(written) && |written.tasks| == 2 && written.tasks[0] == WriteReady(0, "request", false)
    requires written.tasks[1] == TimerReady(0, false) && written.delivered == []
    requires again == written.(tasks := [BeginRead(1), TimerReady(0, false)], delivered := ["request"])
    ensures Reachable(again.(tasks := [ClearFlag(1), TimerReady(0, false)]))
  {
    Reach(written, Go(0), again);
    Advance(again, 0, Go(0), ClearFlag(1));
  }

  /** A round whose read succeeded in time can lose its own response: its timer's handler
      tested the flag before the read's handler set it, and cancels after the write began. */
  lemma OwnTimerAbortsWrite()
    ensures Reachable(Taking(TimerPassed(0))) && SomeRunAbortsWrite(Taking(TimerPassed(0)), 0, "request")
    ensures Reachable(State([TimerSet(0)], true, ["request"], ["request"], [], ["request"], true, 2))
  {
    var late := TimerPassed(0);
    ReachWaited();
    Advance(WAITED, 1, Go(1), late);
    TakesRequest(late);
    assert Taking(late).tasks[0] == Process(0, "request") && Taking(late).tasks[1] == late;
    AbortedWriteExactly(Taking(late), 0, "request");
    WriteLost(late);
  }

  lemma WriteLost(late: Task)
    requires late == TimerPassed(0) && Reachable(Answering(late))
    ensures Reachable(State([TimerSet(0)], true, ["request"], ["request"], [], ["request"], true, 2))
  {
    var aborted := Answering(late).(tasks := [WriteReady(0, "request", true), TimerSet(0)]);
    Reach(Answering(late), Go(1), aborted);
    Reach(aborted, Go(0), aborted.(tasks := [TimerSet(0)], lost := ["request"], ended := true));
  }
}
