/** One server connection with any number of workers: outstanding operations and
    running handlers as a bag of tasks, each handler cut at every access to what the
    workers share (the flag, the timer, the socket, the two buffers). */
module ConnectionProtocol {
  import opened Prelude

  datatype Code = Ok | Eof | Aborted | OtherError

  datatype Task =
    | BeginRead(round: nat)                              // ReadRequest: consume input_buf
    | ClearFlag(round: nat)
    | IssueRead(round: nat)                              // async_read_until
    | ReadOp(round: nat)                                 // the read is outstanding
    | ReadReady(round: nat, code: Code)                  // its handler may run: test_and_set
    | ReadTested(round: nat, code: Code, prev: bool)     // the branch on the old flag and the code
    | Extract(round: nat)                                // getline from input_buf
    | Process(round: nat, request: string)               // fill output_str, then async_write
    | WriteOp(round: nat, request: string)               // the write is outstanding
    | WriteReady(round: nat, request: string, failed: bool)
    | ArmExpiry(round: nat)                              // ReadRequest goes on: timer.expires_after
    | ArmWait(round: nat)                                // timer.async_wait
    | TimerWait(round: nat)                              // the wait is outstanding
    | TimerReady(round: nat, failed: bool)               // its handler may run: test the flag
    | TimerPassed(round: nat)                            // socket.cancel
    | TimerSet(round: nat)                               // test_and_set

  /** Requests taken, given to a write, written, and lost with a failed write; `started`
      counts reads and writes issued; `ended` is set by every branch that does not go on:
      timeout, read failure, write failure. */
  datatype State = State(tasks: seq<Task>, flag: bool, accepted: seq<string>, answered: seq<string>,
                         delivered: seq<string>, lost: seq<string>, ended: bool, started: nat)

  const START: State := State([BeginRead(0)], false, [], [], [], [], false, 0)

  // ------------------------------------------------------------------ steps

  /** Cancelling the timer fails every outstanding wait, not one that already fired. */
  function WaitCancelled(t: Task): Task { if t.TimerWait? then TimerReady(t.round, true) else t }

  /** Cancelling the socket aborts what is outstanding on it. */
  function SocketCancelled(t: Task): Task {
    match t case ReadOp(k) => ReadReady(k, Aborted) case WriteOp(k, r) => WriteReady(k, r, true) case _ => t
  }

  function Each(ts: seq<Task>, f: Task -> Task): (r: seq<Task>)
    ensures |r| == |ts| && forall i :: 0 <= i < |ts| ==> r[i] == f(ts[i])
  {
    seq(|ts|, i requires 0 <= i < |ts| => f(ts[i]))
  }

  function Replace(ts: seq<Task>, i: nat, put: seq<Task>): seq<Task>
    requires i < |ts|
  {
    ts[..i] + put + ts[i + 1..]
  }

  /** Some worker, or the operating system, advances task `index`. */
  datatype Action = Go(index: nat) | Complete(index: nat, code: Code) | Take(index: nat, request: string)

  datatype Cancel = Nothing | Waits | Socket

  /** What advancing one task does: tasks put in its place, what it cancels, the flag, a
      request taken, answered, delivered or lost, an operation started, the connection ended. */
  datatype Move = Move(put: seq<Task>, cancel: Cancel, flag: bool, taken: seq<string>, answered: seq<string>,
                       delivered: seq<string>, lost: seq<string>, starts: bool, ends: bool)

  function To(put: seq<Task>, flag: bool): Move { Move(put, Nothing, flag, [], [], [], [], false, false) }

  /** The operating system completes an operation, `Extract` takes a request, and a
      worker runs everything else. */
  predicate Matches(t: Task, a: Action) {
    match t
    case ReadOp(_) => a.Complete? && a.code != Aborted
    case WriteOp(_, _) => a.Complete? && a.code != Aborted
    case TimerWait(_) => a.Complete? && a.code == Ok
    case Extract(_) => a.Take?
    case _ => a.Go?
  }

  function Effect(t: Task, flag: bool, a: Action): Move
    requires Matches(t, a)
  {
    match t
    case BeginRead(k) => To([ClearFlag(k)], flag)
    case ClearFlag(k) => To([IssueRead(k)], false)
    case IssueRead(k) => To([ReadOp(k), ArmExpiry(k)], flag).(starts := true)
    case ReadOp(k) => To([ReadReady(k, a.code)], flag)
    case ReadReady(k, code) => To([ReadTested(k, code, flag)], true)
    case ReadTested(k, code, prev) =>
      if prev || code == Aborted then To([], flag).(ends := true)
      else if code != Ok then To([], flag).(cancel := Waits, ends := true)
      else To([Extract(k)], flag).(cancel := Waits)
    case Extract(k) => To([Process(k, a.request)], flag).(taken := [a.request])
    case Process(k, r) => To([WriteOp(k, r)], flag).(answered := [r], starts := true)
    case WriteOp(k, r) => To([WriteReady(k, r, a.code != Ok)], flag)
    case WriteReady(k, r, failed) =>
      if failed then To([], flag).(lost := [r], ends := true) else To([BeginRead(k + 1)], flag).(delivered := [r])
    case ArmExpiry(k) => To([ArmWait(k)], flag).(cancel := Waits)
    case ArmWait(k) => To([TimerWait(k)], flag)
    case TimerWait(k) => To([TimerReady(k, false)], flag)
    case TimerReady(k, failed) => To(if !failed && !flag then [TimerPassed(k)] else [], flag)
    case TimerPassed(k) => To([TimerSet(k)], flag).(cancel := Socket)
    case TimerSet(_) => To([], true)
  }

  function Cancelled(ts: seq<Task>, c: Cancel): (r: seq<Task>)
    ensures |r| == |ts|
  {
    match c case Nothing => ts case Waits => Each(ts, WaitCancelled) case Socket => Each(ts, SocketCancelled)
  }

  function Applied(s: State, i: nat, m: Move): State
    requires i < |s.tasks|
  {
    State(Replace(Cancelled(s.tasks, m.cancel), i, m.put), m.flag,
      s.accepted + m.taken, s.answered + m.answered, s.delivered + m.delivered, s.lost + m.lost,
      s.ended || m.ends, if m.starts then s.started + 1 else s.started)
  }

  function Step(s: State, a: Action): Option<State> {
    if a.index >= |s.tasks| || !Matches(s.tasks[a.index], a) then None
    else Some(Applied(s, a.index, Effect(s.tasks[a.index], s.flag, a)))
  }

  function Exec(s: State, run: seq<Action>): Option<State>
    decreases |run|
  {
    if run == [] then Some(s)
    else match Step(s, run[0]) case None => None case Some(s') => Exec(s', run[1..])
  }

  // -------------------------------------------------------------- invariant

  /** Tasks of the read-process-write cycle, as opposed to the timer's. */
  function InCycle(t: Task): int {
    match t
    case ArmExpiry(_) => 0
    case ArmWait(_) => 0
    case TimerWait(_) => 0
    case TimerReady(_, _) => 0
    case TimerPassed(_) => 0
    case TimerSet(_) => 0
    case _ => 1
  }

  /** Requests held by tasks, in the order of the tasks. */
  function Held(ts: seq<Task>, f: Task -> seq<string>): seq<string> {
    if ts == [] then [] else f(ts[0]) + Held(ts[1..], f)
  }

  /** A request taken and not yet given to a write, and one being written. */
  function Pending(t: Task): seq<string> { if t.Process? then [t.request] else [] }
  function Writing(t: Task): seq<string> { if t.WriteOp? || t.WriteReady? then [t.request] else [] }

  ghost predicate Inv(s: State) {
    && Sum(s.tasks, InCycle) == (if s.ended then 0 else 1)
    && s.accepted == s.answered + Held(s.tasks, Pending)
    && s.answered == s.delivered + Held(s.tasks, Writing) + s.lost
    && (s.lost != [] ==> s.ended && |s.lost| == 1)
  }

  ghost predicate OfCycle(f: Task -> seq<string>) { forall t :: f(t) != [] ==> InCycle(t) == 1 }

  lemma {:induction false} HeldAppend(a: seq<Task>, b: seq<Task>, f: Task -> seq<string>)
    ensures Held(a + b, f) == Held(a, f) + Held(b, f)
  {
    if a == [] {
      assert a + b == b;
    } else {
      assert (a + b)[1..] == a[1..] + b;
      HeldAppend(a[1..], b, f);
      Assoc(f(a[0]), Held(a[1..], f), Held(b, f));
    }
  }

  lemma {:induction false} CycleNonNegative(ts: seq<Task>)
    ensures Sum(ts, InCycle) >= 0
    ensures Sum(ts, InCycle) == 0 ==> forall i :: 0 <= i < |ts| ==> InCycle(ts[i]) == 0
  {
    if ts != [] {
      CycleNonNegative(ts[1..]);
    }
  }

  lemma {:induction false} NoCycleHoldsNothing(ts: seq<Task>, f: Task -> seq<string>)
    requires OfCycle(f) && Sum(ts, InCycle) == 0
    ensures Held(ts, f) == []
  {
    CycleNonNegative(ts);
    if ts != [] {
      assert InCycle(ts[0]) == 0;
      NoCycleHoldsNothing(ts[1..], f);
    }
  }

  lemma {:induction false} EachKeeps(ts: seq<Task>, g: Task -> Task, f: Task -> seq<string>)
    requires forall t :: InCycle(g(t)) == InCycle(t) && f(g(t)) == f(t)
    ensures Sum(Each(ts, g), InCycle) == Sum(ts, InCycle) && Held(Each(ts, g), f) == Held(ts, f)
  {
    if ts != [] {
      assert Each(ts, g)[1..] == Each(ts[1..], g);
      EachKeeps(ts[1..], g, f);
    }
  }

  lemma One(t: Task, f: Task -> seq<string>)
    ensures Sum([t], InCycle) == InCycle(t) && Held([t], f) == f(t)
  {
    assert [t][1..] == [] && f(t) + [] == f(t);
  }

  lemma CycleReplaced(ts: seq<Task>, i: nat, put: seq<Task>)
    requires i < |ts|
    ensures Sum(Replace(ts, i, put), InCycle) == Sum(ts, InCycle) - InCycle(ts[i]) + Sum(put, InCycle)
  {
    var a, b := ts[..i], ts[i + 1..];
    assert ts == a + ([ts[i]] + b) && Replace(ts, i, put) == a + (put + b);
    SumAppend(a, [ts[i]] + b, InCycle);
    SumAppend([ts[i]], b, InCycle);
    SumAppend(a, put + b, InCycle);
    SumAppend(put, b, InCycle);
    One(ts[i], Pending);
  }

  /** What replacing one task does to the requests held. */
  lemma HeldReplaced(ts: seq<Task>, i: nat, put: seq<Task>, f: Task -> seq<string>)
    requires i < |ts| && OfCycle(f) && Sum(ts, InCycle) <= 1
    ensures InCycle(ts[i]) == 1 ==> Held(Replace(ts, i, put), f) == Held(put, f) && Held(ts, f) == f(ts[i])
    ensures InCycle(ts[i]) == 0 && Held(put, f) == [] ==> Held(Replace(ts, i, put), f) == Held(ts, f)
  {
    var a, b := ts[..i], ts[i + 1..];
    assert ts == a + ([ts[i]] + b) && Replace(ts, i, put) == a + (put + b);
    HeldAppend(a, [ts[i]] + b, f);
    HeldAppend([ts[i]], b, f);
    HeldAppend(a, put + b, f);
    HeldAppend(put, b, f);
    One(ts[i], f);
    if InCycle(ts[i]) == 1 {
      SumAppend(a, [ts[i]] + b, InCycle);
      SumAppend([ts[i]], b, InCycle);
      CycleNonNegative(a);
      CycleNonNegative(b);
      NoCycleHoldsNothing(a, f);
      NoCycleHoldsNothing(b, f);
    }
  }

  lemma CancelKeeps(ts: seq<Task>, c: Cancel)
    ensures Sum(Cancelled(ts, c), InCycle) == Sum(ts, InCycle)
    ensures Held(Cancelled(ts, c), Pending) == Held(ts, Pending)
    ensures Held(Cancelled(ts, c), Writing) == Held(ts, Writing)
  {
    EachKeeps(ts, WaitCancelled, Pending);
    EachKeeps(ts, WaitCancelled, Writing);
    EachKeeps(ts, SocketCancelled, Pending);
    EachKeeps(ts, SocketCancelled, Writing);
  }

  lemma UpToTwo(ts: seq<Task>, f: Task -> seq<string>)
    requires |ts| <= 2
    ensures Sum(ts, InCycle) == (if |ts| > 0 then InCycle(ts[0]) else 0) + (if |ts| > 1 then InCycle(ts[1]) else 0)
    ensures Held(ts, f) == (if |ts| > 0 then f(ts[0]) else []) + (if |ts| > 1 then f(ts[1]) else [])
  {
    if |ts| == 1 {
      assert ts == [ts[0]];
      One(ts[0], f);
    } else if |ts| == 2 {
      assert ts[1..] == [ts[1]];
      One(ts[1], f);
    }
  }

  /** Advancing a task of the cycle keeps the cycle going or ends it. */
  lemma MoveKeepsCycle(t: Task, flag: bool, a: Action)
    requires Matches(t, a)
    ensures var m := Effect(t, flag, a); Sum(m.put, InCycle) == (if m.ends then InCycle(t) - 1 else InCycle(t))
  {
    UpToTwo(Effect(t, flag, a).put, Pending);
  }

  /** It accounts for every request: what was pending or is taken is answered or pending. */
  lemma MoveKeepsPending(t: Task, flag: bool, a: Action)
    requires Matches(t, a)
    ensures var m := Effect(t, flag, a); Pending(t) + m.taken == m.answered + Held(m.put, Pending)
  {
    UpToTwo(Effect(t, flag, a).put, Pending);
  }

  /** And what was being written or is answered is delivered, being written, or lost. */
  lemma MoveKeepsWriting(t: Task, flag: bool, a: Action)
    requires Matches(t, a)
    ensures var m := Effect(t, flag, a); Writing(t) + m.answered == m.delivered + Held(m.put, Writing) + m.lost
    ensures Effect(t, flag, a).lost != [] ==> Effect(t, flag, a).ends && |Effect(t, flag, a).lost| == 1
  {
    UpToTwo(Effect(t, flag, a).put, Writing);
  }

  /** Advancing a timer task touches neither the requests nor the operations. */
  lemma TimerMove(t: Task, flag: bool, a: Action)
    requires Matches(t, a) && InCycle(t) == 0
    ensures var m := Effect(t, flag, a);
      && Held(m.put, Pending) == [] && Held(m.put, Writing) == []
      && m.taken == [] && m.answered == [] && m.delivered == [] && m.lost == [] && !m.starts && !m.ends
  {
    UpToTwo(Effect(t, flag, a).put, Pending);
    UpToTwo(Effect(t, flag, a).put, Writing);
  }

  lemma Taken(accepted: seq<string>, answered: seq<string>, pending: seq<string>, later: seq<string>, m: Move)
    requires accepted == answered + pending && pending + m.taken == m.answered + later
    ensures accepted + m.taken == answered + m.answered + later
  {
    assert accepted + m.taken == answered + (pending + m.taken);
  }

  lemma Written(answered: seq<string>, delivered: seq<string>, writing: seq<string>, later: seq<string>,
      lost: seq<string>, m: Move)
    requires answered == delivered + writing + lost && lost == []
    requires writing + m.answered == m.delivered + later + m.lost
    ensures answered + m.answered == delivered + m.delivered + later + (lost + m.lost)
  {
    assert answered + m.answered == delivered + (writing + m.answered);
    assert delivered + (m.delivered + later + m.lost) == delivered + m.delivered + later + (lost + m.lost);
  }

  lemma CancelLeavesIndex(s: State, a: Action)
    requires Step(s, a).Some?
    ensures Cancelled(s.tasks, Effect(s.tasks[a.index], s.flag, a).cancel)[a.index] == s.tasks[a.index]
  {
  }

  /** A move that the two account lemmas allow, applied to a task of the cycle. */
  lemma CycleApplied(s: State, i: nat, m: Move)
    requires Inv(s) && i < |s.tasks| && InCycle(s.tasks[i]) == 1
    requires Cancelled(s.tasks, m.cancel)[i] == s.tasks[i]
    requires Sum(m.put, InCycle) == (if m.ends then 0 else 1)
    requires Pending(s.tasks[i]) + m.taken == m.answered + Held(m.put, Pending)
    requires Writing(s.tasks[i]) + m.answered == m.delivered + Held(m.put, Writing) + m.lost
    requires m.lost != [] ==> m.ends && |m.lost| == 1
    ensures Inv(Applied(s, i, m)) && !s.ended
  {
    var ts := Cancelled(s.tasks, m.cancel);
    var later := Replace(ts, i, m.put);
    CancelKeeps(s.tasks, m.cancel);
    CycleReplaced(ts, i, m.put);
    TaskInCycle(s.tasks, i);
    HeldReplaced(ts, i, m.put, Pending);
    HeldReplaced(ts, i, m.put, Writing);
    Taken(s.accepted, s.answered, Pending(ts[i]), Held(later, Pending), m);
    Written(s.answered, s.delivered, Writing(ts[i]), Held(later, Writing), s.lost, m);
  }

  lemma TaskInCycle(ts: seq<Task>, i: nat)
    requires i < |ts| && InCycle(ts[i]) == 1
    ensures Sum(ts, InCycle) >= 1
  {
    CycleNonNegative(ts);
  }

  /** What advancing a timer task leaves as it was. */
  ghost predicate SameAccount(s: State, s': State) {
    && s'.ended == s.ended && s'.started == s.started
    && s'.accepted == s.accepted && s'.answered == s.answered && s'.delivered == s.delivered && s'.lost == s.lost
  }

  lemma TimerApplied(s: State, i: nat, m: Move)
    requires Inv(s) && i < |s.tasks| && InCycle(s.tasks[i]) == 0
    requires Cancelled(s.tasks, m.cancel)[i] == s.tasks[i]
    requires Sum(m.put, InCycle) == 0 && Held(m.put, Pending) == [] && Held(m.put, Writing) == []
    requires m.taken == [] && m.answered == [] && m.delivered == [] && m.lost == [] && !m.starts && !m.ends
    ensures Inv(Applied(s, i, m)) && SameAccount(s, Applied(s, i, m))
  {
    var ts := Cancelled(s.tasks, m.cancel);
    CancelKeeps(s.tasks, m.cancel);
    CycleReplaced(ts, i, m.put);
    CycleNonNegative(s.tasks);
    HeldReplaced(ts, i, m.put, Pending);
    HeldReplaced(ts, i, m.put, Writing);
  }

  lemma StepKeeps(s: State, a: Action)
    requires Inv(s) && Step(s, a).Some?
    ensures Inv(Step(s, a).value)
    ensures s.ended ==> var s' := Step(s, a).value;
      s'.ended && s'.started == s.started && s'.answered == s.answered && s'.delivered == s.delivered
  {
    var t := s.tasks[a.index];
    var m := Effect(t, s.flag, a);
    CancelLeavesIndex(s, a);
    MoveKeepsCycle(t, s.flag, a);
    if InCycle(t) == 1 {
      MoveKeepsPending(t, s.flag, a);
      MoveKeepsWriting(t, s.flag, a);
      CycleApplied(s, a.index, m);
    } else {
      TimerMove(t, s.flag, a);
      TimerApplied(s, a.index, m);
    }
  }

  lemma {:induction false} InvOverRun(s: State, run: seq<Action>)
    requires Inv(s) && Exec(s, run).Some?
    ensures Inv(Exec(s, run).value)
    ensures s.ended ==> var e := Exec(s, run).value;
      e.ended && e.started == s.started && e.answered == s.answered && e.delivered == s.delivered
    decreases |run|
  {
    if run != [] {
      StepKeeps(s, run[0]);
      InvOverRun(Step(s, run[0]).value, run[1..]);
    }
  }

  lemma StartInv()
    ensures Inv(START)
  {
    One(BeginRead(0), Pending);
    One(BeginRead(0), Writing);
    assert [] + Held(START.tasks, Pending) == [] && [] + Held(START.tasks, Writing) + [] == [];
  }

  // ----------------------------------------------------------- what follows

  predicate UsesInputBuffer(t: Task) { t.BeginRead? || t.ReadOp? || t.Extract? }
  predicate UsesOutputBuffer(t: Task) { t.Process? || t.WriteOp? }
  predicate Outstanding(t: Task) { t.ReadOp? || t.WriteOp? }

  lemma {:induction false} AtMostOneInCycle(ts: seq<Task>, i: nat, j: nat)
    requires Sum(ts, InCycle) <= 1 && i < j < |ts|
    ensures InCycle(ts[i]) == 0 || InCycle(ts[j]) == 0
  {
    CycleNonNegative(ts[1..]);
    if i == 0 {
      if InCycle(ts[0]) == 1 {
        assert ts[1..][j - 1] == ts[j];
      }
    } else {
      AtMostOneInCycle(ts[1..], i - 1, j - 1);
    }
  }

  /** In every interleaving at most one read or write is outstanding and no buffer is
      used by two tasks. */
  lemma OneOperationAtATime(run: seq<Action>, i: nat, j: nat)
    requires Exec(START, run).Some? && i < j < |Exec(START, run).value.tasks|
    ensures var ts := Exec(START, run).value.tasks;
      && !(Outstanding(ts[i]) && Outstanding(ts[j]))
      && !(UsesInputBuffer(ts[i]) && UsesInputBuffer(ts[j]))
      && !(UsesOutputBuffer(ts[i]) && UsesOutputBuffer(ts[j]))
  {
    StartInv();
    InvOverRun(START, run);
    AtMostOneInCycle(Exec(START, run).value.tasks, i, j);
  }

  /** Every accepted request gets exactly one response, in request order: the responses
      are the accepted requests, the last one possibly still being processed; those written
      are the responses, the last one possibly still being written, or lost with the write
      whose failure ended the connection. */
  lemma ResponsesInOrder(run: seq<Action>)
    requires Exec(START, run).Some?
    ensures var s := Exec(START, run).value;
      && s.delivered <= s.answered <= s.accepted
      && |s.accepted| <= |s.answered| + 1 && |s.answered| <= |s.delivered| + 1
      && (|s.accepted| > |s.answered| <==> exists t :: t in s.tasks && Pending(t) != [])
      && (|s.answered| > |s.delivered| <==> s.lost != [] || exists t :: t in s.tasks && Writing(t) != [])
      && (s.lost != [] ==> s.ended && forall t :: t in s.tasks ==> Writing(t) == [])
  {
    StartInv();
    InvOverRun(START, run);
    var s := Exec(START, run).value;
    HeldByOne(s.tasks, Pending);
    HeldByOne(s.tasks, Writing);
    OneBehind(s.accepted, s.answered, Held(s.tasks, Pending));
    Assoc(s.delivered, Held(s.tasks, Writing), s.lost);
    OneBehind(s.answered, s.delivered, Held(s.tasks, Writing) + s.lost);
  }

  lemma OneBehind(all: seq<string>, done: seq<string>, rest: seq<string>)
    requires all == done + rest && |rest| <= 1
    ensures done <= all && |all| <= |done| + 1 && (|all| > |done| <==> rest != [])
  {
  }

  lemma {:induction false} HeldByOne(ts: seq<Task>, f: Task -> seq<string>)
    requires OfCycle(f) && Sum(ts, InCycle) <= 1 && forall t :: |f(t)| <= 1
    ensures |Held(ts, f)| <= 1 && (Held(ts, f) != [] <==> exists t :: t in ts && f(t) != [])
    ensures Sum(ts, InCycle) == 0 ==> Held(ts, f) == []
    decreases |ts|
  {
    if ts != [] {
      CycleNonNegative(ts[1..]);
      HeldByOne(ts[1..], f);
      assert forall t :: t in ts <==> t == ts[0] || t in ts[1..];
    }
  }

  lemma {:induction false} ExecAppend(s: State, a: seq<Action>, b: seq<Action>)
    ensures Exec(s, a + b) == match Exec(s, a) case None => None case Some(s') => Exec(s', b)
    decreases |a|
  {
    if a == [] {
      assert a + b == b;
    } else {
      assert (a + b)[1..] == a[1..] + b;
      match Step(s, a[0])
      case None =>
      case Some(s') => ExecAppend(s', a[1..], b);
    }
  }

  /** Once a timeout or failure branch is taken, no read or write is ever started again. */
  lemma {:induction false} EndedStartsNothing(before: seq<Action>, after: seq<Action>)
    requires Exec(START, before + after).Some? && Exec(START, before).Some? && Exec(START, before).value.ended
    ensures Exec(START, before + after).value.started == Exec(START, before).value.started
    ensures Exec(START, before + after).value.ended
  {
    ExecAppend(START, before, after);
    StartInv();
    InvOverRun(START, before);
    InvOverRun(Exec(START, before).value, after);
  }

  lemma Then(s: State, a: Action, s': State, rest: seq<Action>)
    requires Step(s, a) == Some(s')
    ensures Exec(s, [a] + rest) == Exec(s', rest)
  {
    assert ([a] + rest)[1..] == rest;
  }

  /** One step, field by field. */
  ghost predicate Becomes(s: State, a: Action, s': State) {
    && a.index < |s.tasks| && Matches(s.tasks[a.index], a)
    && var m := Effect(s.tasks[a.index], s.flag, a);
    && Replace(Cancelled(s.tasks, m.cancel), a.index, m.put) == s'.tasks && m.flag == s'.flag
    && s.accepted + m.taken == s'.accepted && s.answered + m.answered == s'.answered
    && s.delivered + m.delivered == s'.delivered && s.lost + m.lost == s'.lost
    && (s.ended || m.ends) == s'.ended && s'.started == (if m.starts then s.started + 1 else s.started)
  }

  lemma BecomesIsStep(s: State, a: Action, s': State)
    requires Becomes(s, a, s')
    ensures Step(s, a) == Some(s')
  {
  }
}
