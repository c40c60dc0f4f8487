/** What one worker can do, as a schedule of the many-worker protocol: a handler begins only
    when none is part-way, the one longest in the queue, while operations complete at any
    time. Every such run ends where a run of the single worker ends. */
module WorkerSchedule {
  import opened Prelude
  import opened ConnectionProtocol
  import opened OneWorker
  import SingleWorker

  // ------------------------------------------------------------- the schedule

  /** The task of a handler that may begin. */
  predicate Waiting(u: Task) { u.ReadReady? || u.WriteReady? || u.TimerReady? }

  /** The task of a handler part-way, or of Start's own ReadRequest. */
  predicate Midway(u: Task) { !Waiting(u) && !Outstanding(u) && !u.TimerWait? }

  ghost predicate Idle(t: State) { forall u :: u in t.tasks ==> !Midway(u) }

  /** The queue holds the handlers that may begin and nothing else. */
  ghost predicate Queues(t: State, queue: seq<Task>) {
    && (forall u :: u in queue ==> Waiting(u))
    && (forall u :: Waiting(u) ==> multiset(queue)[u] == multiset(t.tasks)[u])
  }

  /** A handler begins when none is part-way and it is at the head of the queue; the request
      taken is the client's for that round. */
  ghost predicate Turn(t: State, queue: seq<Task>, a: Action, ask: Requests)
    requires a.index < |t.tasks|
  {
    var x := t.tasks[a.index];
    && (Waiting(x) ==> Idle(t) && queue != [] && queue[0] == x)
    && (x.Extract? && a.Take? ==> a.request == ask(x.round))
  }

  /** What is left of the queue when `x` moves. */
  function Begun(x: Task, queue: seq<Task>): seq<Task> {
    if Waiting(x) && queue != [] then queue[1..] else queue
  }

  /** A run on one worker, with the queue after each of its steps: a queue only loses its
      head, when that handler begins, and gains handlers at its end. */
  ghost predicate Worked(t: State, queue: seq<Task>, run: seq<Action>, queues: seq<seq<Task>>, ask: Requests)
    decreases |run|
  {
    && |queues| == |run|
    && (run != [] ==>
          && Step(t, run[0]).Some? && Turn(t, queue, run[0], ask)
          && Begun(t.tasks[run[0].index], queue) <= queues[0] && Queues(Step(t, run[0]).value, queues[0])
          && Worked(Step(t, run[0]).value, queues[0], run[1..], queues[1..], ask))
  }

  // --------------------------------------------------- where the worker stands

  /** The server with another operation, armed wait and queue. */
  predicate Has(b: SingleWorker.Server, op: SingleWorker.Op, armed: Option<nat>, queue: seq<SingleWorker.Handler>) {
    b.op == op && b.armed == armed && b.queue == queue
  }

  /** `b` is the server without what the task part-way stands for: the handler at the head
      of the queue until the step by which it counts as run, and from then on the write or
      the wait about to be issued. */
  predicate Fits(s: SingleWorker.Server, x: Option<Task>, b: SingleWorker.Server, flag: bool, ask: Requests) {
    match x
    case None => flag == s.flag && Has(b, s.op, s.armed, s.queue)
    case Some(BeginRead(k)) => HeadFits(s, b) && k > 0 && s.queue[0] == SingleWorker.WriteHandler(k - 1, false)
    case Some(ClearFlag(k)) => HeadFits(s, b) && k > 0 && s.queue[0] == SingleWorker.WriteHandler(k - 1, false)
    case Some(IssueRead(k)) =>
      !flag && HeadFits(s, b) && k > 0 && s.queue[0] == SingleWorker.WriteHandler(k - 1, false)
    case Some(ReadTested(k, code, prev)) =>
      flag && prev == s.flag && HeadFits(s, b) && s.queue[0] == SingleWorker.ReadHandler(k, code)
    case Some(TimerPassed(k)) => !flag && !s.flag && HeadFits(s, b) && s.queue[0] == SingleWorker.TimerHandler(k, false)
    case Some(Extract(k)) =>
      flag == s.flag && s.op == SingleWorker.Writing(k) && Has(b, SingleWorker.NoOp, s.armed, s.queue)
    case Some(Process(k, r)) =>
      flag == s.flag && s.op == SingleWorker.Writing(k) && r == ask(k) && Has(b, SingleWorker.NoOp, s.armed, s.queue)
    case Some(ArmExpiry(k)) => flag == s.flag && s.armed == Some(k) && Has(b, s.op, None, s.queue)
    case Some(ArmWait(k)) => flag == s.flag && s.armed == Some(k) && Has(b, s.op, None, s.queue)
    case Some(TimerSet(_)) => s.flag && Has(b, s.op, s.armed, s.queue)
    case _ => false
  }

  predicate HeadFits(s: SingleWorker.Server, b: SingleWorker.Server) {
    s.queue != [] && Has(b, s.op, s.armed, s.queue[1..])
  }

  function Ready(queue: seq<SingleWorker.Handler>, ask: Requests): (r: seq<Task>)
    ensures |r| == |queue|
  {
    if queue == [] then [] else [ReadyTask(queue[0], ask)] + Ready(queue[1..], ask)
  }

  /** The tasks are the server's own and some more; the queue is its queue. */
  ghost predicate StandsBeside(b: SingleWorker.Server, more: multiset<Task>, t: State, queue: seq<Task>,
                               ask: Requests) {
    multiset(t.tasks) == Bag(b, ask) + more && queue == Ready(b.queue, ask)
  }

  // ------------------------------------------------------------------ the queue

  lemma {:induction false} ReadyBag(queue: seq<SingleWorker.Handler>, ask: Requests)
    ensures multiset(Ready(queue, ask)) == QueueTasks(queue, ask)
    ensures forall u :: u in Ready(queue, ask) ==> Waiting(u)
  {
    if queue != [] {
      ReadyBag(queue[1..], ask);
    }
  }

  lemma {:induction false} ReadyAppend(queue: seq<SingleWorker.Handler>, h: SingleWorker.Handler, ask: Requests)
    ensures Ready(queue + [h], ask) == Ready(queue, ask) + [ReadyTask(h, ask)]
  {
    if queue == [] {
      assert queue + [h] == [h] && [h][1..] == [];
    } else {
      assert (queue + [h])[1..] == queue[1..] + [h];
      ReadyAppend(queue[1..], h, ask);
    }
  }

  lemma BagQueues(b: SingleWorker.Server, t: State, more: multiset<Task>, ask: Requests)
    requires multiset(t.tasks) == Bag(b, ask) + more && forall u :: u in more ==> !Waiting(u)
    ensures Queues(t, Ready(b.queue, ask))
  {
    ReadyBag(b.queue, ask);
    forall u | Waiting(u) ensures multiset(Ready(b.queue, ask))[u] == multiset(t.tasks)[u] {
      assert u !in OpTasks(b.op, ask) && u !in ArmedTasks(b.armed) && u !in more;
    }
  }

  /** At most one handler joins at a time, so the queue is settled by what it holds. */
  lemma OneQueue(t: State, front: seq<Task>, q: seq<Task>, r: seq<Task>)
    requires front <= q && front <= r && |r| <= |front| + 1 && Queues(t, q) && Queues(t, r)
    ensures q == r
  {
    SameHeld(t, q, r);
    OneMore(front, q, r);
  }

  lemma SameHeld(t: State, q: seq<Task>, r: seq<Task>)
    requires Queues(t, q) && Queues(t, r)
    ensures multiset(q) == multiset(r)
  {
    forall u ensures multiset(q)[u] == multiset(r)[u] {
      if !Waiting(u) {
        assert u !in q && u !in r;
      }
    }
  }

  lemma OneMore(front: seq<Task>, q: seq<Task>, r: seq<Task>)
    requires front <= q && front <= r && |r| <= |front| + 1 && multiset(q) == multiset(r)
    ensures q == r
  {
    assert |multiset(q)| == |q| && |multiset(r)| == |r|;
    var n := |front|;
    if |r| > n {
      var later, last := q[n..], r[n..];
      assert q == front + later && r == front + last;
      assert multiset(q) == multiset(front) + multiset(later) && multiset(r) == multiset(front) + multiset(last);
      forall u ensures multiset(later)[u] == multiset(last)[u] {
        assert (multiset(front) + multiset(later))[u] == (multiset(front) + multiset(last))[u];
      }
      assert multiset(later) == multiset(last);
      assert last[0] in multiset(last) && later == [later[0]];
    }
  }

  /** At most one more handler at the end. */
  predicate Grows(front: seq<SingleWorker.Handler>, queue: seq<SingleWorker.Handler>) {
    front <= queue && |queue| <= |front| + 1
  }

  /** So a state whose bag is the server's has the server's queue. */
  lemma QueueSettled(b: SingleWorker.Server, t: State, more: multiset<Task>, front: seq<SingleWorker.Handler>,
      queue: seq<Task>, ask: Requests)
    requires multiset(t.tasks) == Bag(b, ask) + more && forall u :: u in more ==> !Waiting(u)
    requires Grows(front, b.queue)
    requires Ready(front, ask) <= queue && Queues(t, queue)
    ensures queue == Ready(b.queue, ask)
  {
    BagQueues(b, t, more, ask);
    if b.queue != front {
      assert b.queue == front + [b.queue[|front|]];
      ReadyAppend(front, b.queue[|front|], ask);
    }
    OneQueue(t, Ready(front, ask), queue, Ready(b.queue, ask));
  }

  // -------------------------------------------------------- operations complete

  function Completion(y: Task, code: Code): SingleWorker.Event {
    if y.TimerWait? then SingleWorker.TimerExpires else SingleWorker.OperationDone(code)
  }

  /** Completing goes before the handler part-way, or after it, with the same result. */
  lemma CompletionCommutes(s: SingleWorker.Server, x: Option<Task>, b: SingleWorker.Server, flag: bool,
      e: SingleWorker.Event, ask: Requests)
    requires Fits(s, x, b, flag, ask) && !e.Run? && SingleWorker.Next(b, e).Some?
    ensures SingleWorker.Next(s, e).Some?
    ensures Fits(SingleWorker.Next(s, e).value, x, SingleWorker.Next(b, e).value, flag, ask)
  {
    var s' := SingleWorker.Next(s, e).value;
    if s.queue != [] {
      assert s'.queue[0] == s.queue[0] && s'.queue[1..] == s.queue[1..] + s'.queue[|s.queue|..];
    }
  }

  lemma OpMoves(y: Task, r: Task, armed: multiset<Task>, queue: multiset<Task>)
    ensures multiset{} + armed + (queue + multiset{r}) == multiset{y} + armed + queue - multiset{y} + multiset{r}
  {
  }

  lemma WaitMoves(y: Task, r: Task, ops: multiset<Task>, queue: multiset<Task>)
    ensures ops + multiset{} + (queue + multiset{r}) == ops + multiset{y} + queue - multiset{y} + multiset{r}
  {
  }

  /** The task completed is the server's operation or its wait. */
  lemma CompletionOf(b: SingleWorker.Server, y: Task, ask: Requests)
    requires y in Bag(b, ask) && (Outstanding(y) || y.TimerWait?)
    ensures if y.TimerWait? then b.armed == Some(y.round) && ArmedTasks(b.armed) == multiset{y}
            else OpTasks(b.op, ask) == multiset{y}
  {
    InBag(b, ask, y);
    QueueIsReady(b.queue, ask);
  }

  /** The handler an operation or wait completes to. */
  function Handling(y: Task, code: Code): SingleWorker.Handler
    requires Outstanding(y) || y.TimerWait?
  {
    match y
    case ReadOp(k) => SingleWorker.ReadHandler(k, code)
    case WriteOp(k, _) => SingleWorker.WriteHandler(k, code != Ok)
    case TimerWait(k) => SingleWorker.TimerHandler(k, false)
  }

  lemma CompletionNext(b: SingleWorker.Server, y: Task, code: Code, ask: Requests)
    requires y in Bag(b, ask) && (Outstanding(y) || y.TimerWait?) && code != Aborted
    ensures SingleWorker.Next(b, Completion(y, code))
         == Some(if y.TimerWait? then b.(armed := None, queue := b.queue + [Handling(y, code)])
                 else b.(op := SingleWorker.NoOp, queue := b.queue + [Handling(y, code)]))
    ensures y.WriteOp? ==> y.request == ask(y.round)
  {
    CompletionOf(b, y, ask);
    if !y.TimerWait? {
      assert y in OpTasks(b.op, ask);
    }
  }

  lemma CompletionBag(b: SingleWorker.Server, y: Task, code: Code, ask: Requests)
    requires y in Bag(b, ask) && (Outstanding(y) || y.TimerWait?) && code != Aborted
    ensures SingleWorker.Next(b, Completion(y, code)).Some?
    ensures var b' := SingleWorker.Next(b, Completion(y, code)).value;
      && b'.queue == b.queue + [Handling(y, code)]
      && Bag(b', ask) == Bag(b, ask) - multiset{y} + multiset{ReadyTask(Handling(y, code), ask)}
  {
    CompletionOf(b, y, ask);
    CompletionNext(b, y, code, ask);
    var r := ReadyTask(Handling(y, code), ask);
    Enqueued(b.queue, Handling(y, code), ask);
    if y.TimerWait? {
      WaitMoves(y, r, OpTasks(b.op, ask), QueueTasks(b.queue, ask));
    } else {
      OpMoves(y, r, ArmedTasks(b.armed), QueueTasks(b.queue, ask));
    }
  }

  /** Of the server's bag and what is part-way, only the former completes. */
  lemma CompletionTask(bag: multiset<Task>, more: multiset<Task>, t: State, a: Action)
    requires multiset(t.tasks) == bag + more && (forall u :: u in more ==> Midway(u))
    requires Step(t, a).Some? && a.Complete?
    ensures var y := t.tasks[a.index];
      && y in bag && (Outstanding(y) || y.TimerWait?) && a.code != Aborted
      && Effect(y, t.flag, a).cancel == Nothing && Step(t, a).value.flag == t.flag
  {
    var y := t.tasks[a.index];
    assert y in multiset(t.tasks) && y !in more;
  }

  lemma CompletionAfter(bag: multiset<Task>, more: multiset<Task>, t: State, a: Action, r: Task)
    requires multiset(t.tasks) == bag + more && Step(t, a).Some?
    requires var y := t.tasks[a.index];
      y in bag && Effect(y, t.flag, a).cancel == Nothing && Effect(y, t.flag, a).put == [r]
    ensures multiset(Step(t, a).value.tasks) == bag - multiset{t.tasks[a.index]} + multiset{r} + more
  {
    var y := t.tasks[a.index];
    ReplacedBag(t.tasks, a.index, [r]);
    assert multiset([r]) == multiset{r};
    assert bag + more - multiset{y} == bag - multiset{y} + more;
  }

  lemma CompletionPut(y: Task, flag: bool, a: Action, ask: Requests)
    requires a.Complete? && (Outstanding(y) || y.TimerWait?) && Matches(y, a)
    requires y.WriteOp? ==> y.request == ask(y.round)
    ensures Effect(y, flag, a).put == [ReadyTask(Handling(y, a.code), ask)]
  {
  }

  /** An operation completes beside what the worker is doing. */
  lemma CompletedBeside(b: SingleWorker.Server, more: multiset<Task>, t: State, queue: seq<Task>, a: Action,
      queue': seq<Task>, ask: Requests) returns (e: SingleWorker.Event)
    requires StandsBeside(b, more, t, queue, ask) && (forall u :: u in more ==> Midway(u))
    requires Step(t, a).Some? && a.Complete?
    requires queue <= queue' && Queues(Step(t, a).value, queue')
    ensures !e.Run? && SingleWorker.Next(b, e).Some? && Step(t, a).value.flag == t.flag
    ensures StandsBeside(SingleWorker.Next(b, e).value, more, Step(t, a).value, queue', ask)
  {
    var y, t' := t.tasks[a.index], Step(t, a).value;
    CompletionTask(Bag(b, ask), more, t, a);
    e := Completion(y, a.code);
    CompletionNext(b, y, a.code, ask);
    CompletionBag(b, y, a.code, ask);
    CompletionPut(y, t.flag, a, ask);
    var h := Handling(y, a.code);
    CompletionAfter(Bag(b, ask), more, t, a, ReadyTask(h, ask));
    assert SingleWorker.Next(b, e).value.queue == b.queue + [h];
    QueueSettled(SingleWorker.Next(b, e).value, t', more, b.queue, queue', ask);
  }

  // -------------------------------------------------------------- handlers move

  ghost predicate Moves(t: State, queue: seq<Task>, a: Action, queue': seq<Task>) {
    Step(t, a).Some? && !a.Complete? && queue <= queue' && Queues(Step(t, a).value, queue')
  }

  /** A step of a handler, on the server's bag: what it cancels there and what it puts. */
  lemma {:induction false} Goes(b: SingleWorker.Server, x: Task, t: State, queue: seq<Task>, a: Action,
      after: multiset<Task>, b': SingleWorker.Server, more: multiset<Task>, queue': seq<Task>, ask: Requests)
    requires StandsBeside(b, multiset{x}, t, queue, ask) && Moves(t, queue, a, queue') && t.tasks[a.index] == x
    requires var m := Effect(x, t.flag, a);
      && Canceller(m.cancel)(x) == x && Hit(Bag(b, ask), Canceller(m.cancel), after)
      && Bag(b', ask) + more == after + multiset(m.put)
    requires (forall u :: u in more ==> !Waiting(u)) && Grows(b.queue, b'.queue)
    ensures StandsBeside(b', more, Step(t, a).value, queue', ask)
    ensures Step(t, a).value.flag == Effect(x, t.flag, a).flag
  {
    StepBag(t, a.index, x, Bag(b, ask), a, after);
    QueueSettled(b', Step(t, a).value, more, b.queue, queue', ask);
  }

  /** What a handler's step does to the server: what is part-way after it and the server
      without that, the flag, and whether by this step the handler counts as run. */
  datatype Turned = Turned(b: SingleWorker.Server, y: Option<Task>, flag: bool, runs: bool)

  function Turning(b: SingleWorker.Server, x: Task, flag: bool, ask: Requests): Turned {
    match x
    case ReadReady(k, code) => Turned(b, Some(ReadTested(k, code, flag)), true, false)
    case WriteReady(k, _, failed) => Turned(b, if failed then None else Some(BeginRead(k + 1)), flag, failed)
    case TimerReady(k, failed) =>
      Turned(b, if failed || flag then None else Some(TimerPassed(k)), flag, failed || flag)
    case BeginRead(k) => Turned(b, Some(ClearFlag(k)), flag, false)
    case ClearFlag(k) => Turned(b, Some(IssueRead(k)), false, false)
    case IssueRead(k) => Turned(b.(op := SingleWorker.Reading(k)), Some(ArmExpiry(k)), flag, true)
    case ArmExpiry(k) => Turned(SingleWorker.CancelTimer(b), Some(ArmWait(k)), flag, false)
    case ArmWait(k) => Turned(b.(armed := Some(k)), None, flag, false)
    case ReadTested(k, code, prev) =>
      if prev || code == Aborted then Turned(b, None, flag, true)
      else Turned(SingleWorker.CancelTimer(b), if code == Ok then Some(Extract(k)) else None, flag, true)
    case Extract(k) => Turned(b, Some(Process(k, ask(k))), flag, false)
    case Process(k, _) => Turned(b.(op := SingleWorker.Writing(k)), None, flag, false)
    case TimerPassed(k) => Turned(SingleWorker.CancelSocket(b), Some(TimerSet(k)), flag, true)
    case TimerSet(_) => Turned(b, None, true, false)
    case _ => Turned(b, Some(x), flag, false)
  }

  function Held(y: Option<Task>): multiset<Task> { match y case None => multiset{} case Some(u) => multiset{u} }

  /** The move the protocol makes is the server's turn: `after` is what cancelling leaves of
      its bag. */
  ghost predicate Agrees(b: SingleWorker.Server, x: Task, m: Move, n: Turned, after: multiset<Task>, ask: Requests) {
    && m.flag == n.flag && Grows(b.queue, n.b.queue) && (n.y.Some? ==> !Waiting(n.y.value))
    && Canceller(m.cancel)(x) == x && Hit(Bag(b, ask), Canceller(m.cancel), after)
    && Bag(n.b, ask) + Held(n.y) == after + multiset(m.put)
  }

  /** Nothing but operations and waits issued is in the way. */
  predicate Clear(b: SingleWorker.Server, x: Task, a: Action, ask: Requests) {
    && (x.Extract? && a.Take? ==> a.request == ask(x.round))
    && (x.IssueRead? ==> b.op == SingleWorker.NoOp)
    && (x.Process? ==> b.op == SingleWorker.NoOp && x.request == ask(x.round))
    && (x.ArmWait? ==> b.armed.None?)
  }

  function Listed(y: Option<Task>): (r: seq<Task>)
    ensures multiset(r) == Held(y)
  {
    match y case None => [] case Some(u) => [u]
  }

  /** Steps that neither cancel nor issue. */
  predicate Plain(x: Task) {
    || Waiting(x) || x.BeginRead? || x.ClearFlag? || x.TimerSet? || x.Extract?
    || (x.ReadTested? && (x.prev || x.code == Aborted))
  }

  /** The move puts what the turn leaves part-way, and sets the flag the same. */
  predicate Puts(m: Move, n: Turned) {
    m.flag == n.flag && m.put == Listed(n.y) && (n.y.Some? ==> !Waiting(n.y.value))
  }

  lemma {:induction false} BeginMove(b: SingleWorker.Server, x: Task, flag: bool, a: Action, ask: Requests)
    requires Matches(x, a) && Waiting(x)
    ensures var m, n := Effect(x, flag, a), Turning(b, x, flag, ask); Puts(m, n) && m.cancel == Nothing && n.b == b
  {
    match x
    case ReadReady(k, code) => assert Turning(b, x, flag, ask).y == Some(ReadTested(k, code, flag));
    case WriteReady(k, r, failed) => BeginWriteMove(b, k, r, failed, flag, a, ask);
    case TimerReady(k, failed) => BeginTimerMove(b, k, failed, flag, a, ask);
  }

  lemma {:induction false} BeginWriteMove(b: SingleWorker.Server, k: nat, r: string, failed: bool, flag: bool,
      a: Action, ask: Requests)
    requires Matches(WriteReady(k, r, failed), a)
    ensures var m, n := Effect(WriteReady(k, r, failed), flag, a), Turning(b, WriteReady(k, r, failed), flag, ask);
      Puts(m, n) && m.cancel == Nothing && n.b == b
  {
  }

  lemma {:induction false} BeginTimerMove(b: SingleWorker.Server, k: nat, failed: bool, flag: bool, a: Action,
      ask: Requests)
    requires Matches(TimerReady(k, failed), a)
    ensures var m, n := Effect(TimerReady(k, failed), flag, a), Turning(b, TimerReady(k, failed), flag, ask);
      Puts(m, n) && m.cancel == Nothing && n.b == b
  {
  }

  lemma PlainMove(b: SingleWorker.Server, x: Task, flag: bool, a: Action, ask: Requests)
    requires Matches(x, a) && Plain(x) && !Waiting(x) && Clear(b, x, a, ask)
    ensures var m, n := Effect(x, flag, a), Turning(b, x, flag, ask); Puts(m, n) && m.cancel == Nothing && n.b == b
  {
  }

  lemma ExpiryMove(b: SingleWorker.Server, k: nat, flag: bool, a: Action, ask: Requests)
    requires Matches(ArmExpiry(k), a)
    ensures var m, n := Effect(ArmExpiry(k), flag, a), Turning(b, ArmExpiry(k), flag, ask);
      Puts(m, n) && m.cancel == Waits && n.b == SingleWorker.CancelTimer(b)
  {
  }

  lemma TestedMove(b: SingleWorker.Server, x: Task, flag: bool, a: Action, ask: Requests)
    requires Matches(x, a) && x.ReadTested? && !Plain(x)
    ensures var m, n := Effect(x, flag, a), Turning(b, x, flag, ask);
      Puts(m, n) && m.cancel == Waits && n.b == SingleWorker.CancelTimer(b)
  {
  }

  lemma PassedMove(b: SingleWorker.Server, k: nat, flag: bool, a: Action, ask: Requests)
    requires Matches(TimerPassed(k), a)
    ensures var m, n := Effect(TimerPassed(k), flag, a), Turning(b, TimerPassed(k), flag, ask);
      Puts(m, n) && m.cancel == Socket && n.b == SingleWorker.CancelSocket(b)
  {
  }

  /** What a cancel does to the server. */
  function CancelledServer(b: SingleWorker.Server, c: Cancel): SingleWorker.Server {
    match c case Nothing => b case Waits => SingleWorker.CancelTimer(b) case Socket => SingleWorker.CancelSocket(b)
  }

  lemma {:induction false} CancelHits(b: SingleWorker.Server, c: Cancel, ask: Requests)
    ensures Hit(Bag(b, ask), Canceller(c), Bag(CancelledServer(b, c), ask))
  {
    match c
    case Nothing => NoCancel(Bag(b, ask));
    case Waits => WaitsHit(b, ask);
    case Socket => SocketHit(b, ask);
  }

  lemma CancelGrows(b: SingleWorker.Server, c: Cancel)
    ensures Grows(b.queue, CancelledServer(b, c).queue)
  {
  }

  lemma CancelSpares(x: Task, c: Cancel)
    requires !Outstanding(x) && !x.TimerWait?
    ensures Canceller(c)(x) == x
  {
  }

  lemma {:induction false} PutsAgree(b: SingleWorker.Server, x: Task, m: Move, n: Turned, ask: Requests)
    requires Puts(m, n) && Canceller(m.cancel)(x) == x
    requires Hit(Bag(b, ask), Canceller(m.cancel), Bag(n.b, ask)) && Grows(b.queue, n.b.queue)
    ensures Agrees(b, x, m, n, Bag(n.b, ask), ask)
  {
  }

  lemma {:induction false} IssueAgrees(b: SingleWorker.Server, k: nat, flag: bool, a: Action, ask: Requests)
    requires Matches(IssueRead(k), a) && b.op == SingleWorker.NoOp
    ensures var x := IssueRead(k); Agrees(b, x, Effect(x, flag, a), Turning(b, x, flag, ask), Bag(b, ask), ask)
  {
    NoCancel(Bag(b, ask));
    OpAdded(ArmedTasks(b.armed), QueueTasks(b.queue, ask), ReadOp(k));
    assert multiset([ReadOp(k), ArmExpiry(k)]) == multiset{ReadOp(k)} + multiset{ArmExpiry(k)};
  }

  lemma {:induction false} ProcessAgrees(b: SingleWorker.Server, k: nat, flag: bool, a: Action, ask: Requests)
    requires Matches(Process(k, ask(k)), a) && b.op == SingleWorker.NoOp
    ensures var x := Process(k, ask(k)); Agrees(b, x, Effect(x, flag, a), Turning(b, x, flag, ask), Bag(b, ask), ask)
  {
    NoCancel(Bag(b, ask));
    OpAdded(ArmedTasks(b.armed), QueueTasks(b.queue, ask), WriteOp(k, ask(k)));
    assert multiset([WriteOp(k, ask(k))]) == multiset{WriteOp(k, ask(k))};
  }

  lemma {:induction false} WaitAgrees(b: SingleWorker.Server, k: nat, flag: bool, a: Action, ask: Requests)
    requires Matches(ArmWait(k), a) && b.armed.None?
    ensures Agrees(b, ArmWait(k), Effect(ArmWait(k), flag, a), Turning(b, ArmWait(k), flag, ask), Bag(b, ask), ask)
  {
    NoCancel(Bag(b, ask));
    ArmedAdded(OpTasks(b.op, ask), QueueTasks(b.queue, ask), TimerWait(k));
    assert multiset([TimerWait(k)]) == multiset{TimerWait(k)};
  }

  lemma {:induction false} TurnAgrees(b: SingleWorker.Server, x: Task, flag: bool, a: Action, ask: Requests)
    returns (after: multiset<Task>)
    requires Matches(x, a) && Clear(b, x, a, ask) && !a.Complete?
    ensures Agrees(b, x, Effect(x, flag, a), Turning(b, x, flag, ask), after, ask)
  {
    after := Bag(b, ask);
    if x.IssueRead? {
      IssueAgrees(b, x.round, flag, a, ask);
    } else if x.Process? {
      ProcessAgrees(b, x.round, flag, a, ask);
    } else if x.ArmWait? {
      WaitAgrees(b, x.round, flag, a, ask);
    } else {
      after := CancelAgrees(b, x, flag, a, ask);
    }
  }

  lemma {:induction false} CancelAgrees(b: SingleWorker.Server, x: Task, flag: bool, a: Action, ask: Requests)
    returns (after: multiset<Task>)
    requires Matches(x, a) && Clear(b, x, a, ask) && !a.Complete? && !x.IssueRead? && !x.Process? && !x.ArmWait?
    ensures Agrees(b, x, Effect(x, flag, a), Turning(b, x, flag, ask), after, ask)
  {
    var m, n := Effect(x, flag, a), Turning(b, x, flag, ask);
    after := Bag(n.b, ask);
    if Waiting(x) {
      BeginMove(b, x, flag, a, ask);
    } else if Plain(x) {
      PlainMove(b, x, flag, a, ask);
    } else if x.ReadTested? {
      TestedMove(b, x, flag, a, ask);
    } else if x.ArmExpiry? {
      ExpiryMove(b, x.round, flag, a, ask);
    } else {
      PassedMove(b, x.round, flag, a, ask);
    }
    assert n.b == CancelledServer(b, m.cancel);
    CancelHits(b, m.cancel, ask);
    CancelGrows(b, m.cancel);
    CancelSpares(x, m.cancel);
    PutsAgree(b, x, m, n, ask);
  }

  /** So the protocol's step takes what stands for the server to what stands for it after. */
  lemma {:induction false} Turns(b: SingleWorker.Server, x: Task, n: Turned, t: State, queue: seq<Task>, a: Action,
      queue': seq<Task>, ask: Requests)
    requires StandsBeside(b, multiset{x}, t, queue, ask) && Moves(t, queue, a, queue') && t.tasks[a.index] == x
    requires Clear(b, x, a, ask) && n == Turning(b, x, t.flag, ask)
    ensures StandsBeside(n.b, Held(n.y), Step(t, a).value, queue', ask) && Step(t, a).value.flag == n.flag
  {
    var after := TurnAgrees(b, x, t.flag, a, ask);
    Goes(b, x, t, queue, a, after, n.b, Held(n.y), queue', ask);
  }

  // ------------------------------------------------------ the same on the server

  /** The server once its handler counts as run. */
  function Counted(s: SingleWorker.Server, runs: bool): SingleWorker.Server {
    if runs && s.queue != [] then SingleWorker.RunHandler(s) else s
  }

  lemma {:induction false} TurnFits(s: SingleWorker.Server, x: Task, b: SingleWorker.Server, flag: bool, ask: Requests)
    requires SingleWorker.Good(s) && Fits(s, Some(x), b, flag, ask)
    ensures var n := Turning(b, x, flag, ask);
      (n.runs ==> s.queue != []) && Fits(Counted(s, n.runs), n.y, n.b, n.flag, ask)
  {
  }

  lemma {:induction false} HeadTurnFits(s: SingleWorker.Server, b: SingleWorker.Server, flag: bool, ask: Requests)
    requires flag == s.flag && HeadFits(s, b)
    ensures var n := Turning(b, ReadyTask(s.queue[0], ask), flag, ask);
      Fits(Counted(s, n.runs), n.y, n.b, n.flag, ask)
  {
  }

  lemma {:induction false} ClearAtTurn(s: SingleWorker.Server, x: Task, b: SingleWorker.Server, flag: bool, a: Action,
      ask: Requests)
    requires SingleWorker.Good(s) && Fits(s, Some(x), b, flag, ask)
    requires x.Extract? && a.Take? ==> a.request == ask(x.round)
    ensures Clear(b, x, a, ask)
  {
  }

  // -------------------------------------------------------------- whole runs

  /** Where the worker stands: the server, what is part-way, and the server without that. */
  datatype Point = Point(s: SingleWorker.Server, x: Option<Task>, b: SingleWorker.Server)

  ghost predicate Stands(p: Point, t: State, queue: seq<Task>, ask: Requests) {
    SingleWorker.Good(p.s) && Fits(p.s, p.x, p.b, t.flag, ask) && StandsBeside(p.b, Held(p.x), t, queue, ask)
  }

  lemma HeldIsMidway(p: Point, flag: bool, ask: Requests)
    requires Fits(p.s, p.x, p.b, flag, ask)
    ensures forall u :: u in Held(p.x) ==> Midway(u)
  {
  }

  lemma BagIsNotMidway(b: SingleWorker.Server, ask: Requests)
    ensures forall u :: u in Bag(b, ask) ==> !Midway(u)
  {
    QueueIsReady(b.queue, ask);
  }

  lemma AfterOne(s: SingleWorker.Server, e: SingleWorker.Event)
    requires SingleWorker.Good(s) && SingleWorker.Next(s, e).Some?
    ensures SingleWorker.After(s, [e]) == SingleWorker.Next(s, e) && SingleWorker.Good(SingleWorker.Next(s, e).value)
  {
    SingleWorker.NextKeeps(s, e);
    assert [e][1..] == [];
  }

  lemma {:induction false} CountedAfter(s: SingleWorker.Server, runs: bool) returns (es: seq<SingleWorker.Event>)
    requires SingleWorker.Good(s) && (runs ==> s.queue != [])
    ensures SingleWorker.After(s, es) == Some(Counted(s, runs)) && SingleWorker.Good(Counted(s, runs))
  {
    es := if runs then [SingleWorker.Run] else [];
    if runs {
      AfterOne(s, SingleWorker.Run);
    }
  }

  lemma {:induction false} CompletionStands(p: Point, t: State, queue: seq<Task>, a: Action, queue': seq<Task>,
      ask: Requests) returns (es: seq<SingleWorker.Event>, p': Point)
    requires Stands(p, t, queue, ask) && Step(t, a).Some? && a.Complete?
    requires queue <= queue' && Queues(Step(t, a).value, queue')
    ensures SingleWorker.After(p.s, es) == Some(p'.s) && Stands(p', Step(t, a).value, queue', ask)
  {
    HeldIsMidway(p, t.flag, ask);
    var e := CompletedBeside(p.b, Held(p.x), t, queue, a, queue', ask);
    CompletionCommutes(p.s, p.x, p.b, t.flag, e, ask);
    AfterOne(p.s, e);
    es, p' := [e], Point(SingleWorker.Next(p.s, e).value, p.x, SingleWorker.Next(p.b, e).value);
  }

  lemma {:induction false} MidwayStands(p: Point, x: Task, t: State, queue: seq<Task>, a: Action, queue': seq<Task>,
      ask: Requests) returns (es: seq<SingleWorker.Event>, p': Point)
    requires Stands(p, t, queue, ask) && p.x == Some(x) && Moves(t, queue, a, queue') && t.tasks[a.index] == x
    requires x.Extract? && a.Take? ==> a.request == ask(x.round)
    ensures SingleWorker.After(p.s, es) == Some(p'.s) && Stands(p', Step(t, a).value, queue', ask)
  {
    var n := Turning(p.b, x, t.flag, ask);
    ClearAtTurn(p.s, x, p.b, t.flag, a, ask);
    Turns(p.b, x, n, t, queue, a, queue', ask);
    TurnFits(p.s, x, p.b, t.flag, ask);
    es := CountedAfter(p.s, n.runs);
    p' := Point(Counted(p.s, n.runs), n.y, n.b);
  }

  /** The handler at the head of the queue, taken out of it. */
  lemma {:induction false} HeadBeside(b: SingleWorker.Server, b0: SingleWorker.Server, t: State, queue: seq<Task>,
      ask: Requests)
    requires StandsBeside(b, multiset{}, t, queue, ask) && queue != []
    requires b.queue != [] && b0 == Rest(b)
    ensures queue[0] == ReadyTask(b.queue[0], ask) && StandsBeside(b0, multiset{queue[0]}, t, queue[1..], ask)
  {
    var h, parts := ReadyTask(b.queue[0], ask), OpTasks(b.op, ask) + ArmedTasks(b.armed);
    assert parts + (multiset{h} + QueueTasks(b.queue[1..], ask)) + multiset{}
        == parts + QueueTasks(b.queue[1..], ask) + multiset{h};
  }

  lemma {:induction false} BeginStands(p: Point, x: Task, t: State, queue: seq<Task>, a: Action, queue': seq<Task>,
      ask: Requests) returns (es: seq<SingleWorker.Event>, p': Point)
    requires Stands(p, t, queue, ask) && p.x.None? && queue != [] && queue[0] == x && Waiting(x)
    requires Moves(t, queue[1..], a, queue') && t.tasks[a.index] == x
    ensures SingleWorker.After(p.s, es) == Some(p'.s) && Stands(p', Step(t, a).value, queue', ask)
  {
    var b0 := Rest(p.b);
    HeadBeside(p.b, b0, t, queue, ask);
    var n := Turning(b0, x, t.flag, ask);
    Turns(b0, x, n, t, queue[1..], a, queue', ask);
    HeadTurnFits(p.s, b0, t.flag, ask);
    es := CountedAfter(p.s, n.runs);
    p' := Point(Counted(p.s, n.runs), n.y, n.b);
  }

  /** Of the worker's tasks only one can be part-way. */
  lemma {:induction false} WhoMoves(p: Point, t: State, queue: seq<Task>, u: Task, ask: Requests)
    requires Stands(p, t, queue, ask) && u in t.tasks
    ensures Midway(u) ==> p.x == Some(u)
  {
    BagIsNotMidway(p.b, ask);
    assert u in multiset(t.tasks);
  }

  lemma {:induction false} NobodyMoves(p: Point, t: State, queue: seq<Task>, ask: Requests)
    requires Stands(p, t, queue, ask) && Idle(t)
    ensures p.x.None?
  {
    HeldIsMidway(p, t.flag, ask);
    assert forall u :: u in Held(p.x) ==> u in multiset(t.tasks);
    assert forall u :: u in multiset(t.tasks) ==> u in t.tasks;
    assert Held(p.x) == multiset{};
  }

  lemma {:induction false} StepStands(p: Point, t: State, queue: seq<Task>, a: Action, queue': seq<Task>, ask: Requests)
    returns (es: seq<SingleWorker.Event>, p': Point)
    requires Stands(p, t, queue, ask) && Step(t, a).Some? && Turn(t, queue, a, ask)
    requires Begun(t.tasks[a.index], queue) <= queue' && Queues(Step(t, a).value, queue')
    ensures SingleWorker.After(p.s, es) == Some(p'.s) && Stands(p', Step(t, a).value, queue', ask)
  {
    var x := t.tasks[a.index];
    WhoMoves(p, t, queue, x, ask);
    if a.Complete? {
      es, p' := CompletionStands(p, t, queue, a, queue', ask);
    } else if Waiting(x) {
      NobodyMoves(p, t, queue, ask);
      es, p' := BeginStands(p, x, t, queue, a, queue', ask);
    } else {
      es, p' := MidwayStands(p, x, t, queue, a, queue', ask);
    }
  }

  lemma {:induction false} RunStands(p: Point, t: State, queue: seq<Task>, run: seq<Action>, queues: seq<seq<Task>>,
      ask: Requests) returns (es: seq<SingleWorker.Event>, p': Point, last: seq<Task>)
    requires Stands(p, t, queue, ask) && Worked(t, queue, run, queues, ask)
    ensures SingleWorker.After(p.s, es) == Some(p'.s)
    ensures Exec(t, run).Some? && Stands(p', Exec(t, run).value, last, ask)
    decreases |run|
  {
    if run == [] {
      es, p', last := [], p, queue;
    } else {
      var first, p1 := StepStands(p, t, queue, run[0], queues[0], ask);
      var more;
      more, p', last := RunStands(p1, Step(t, run[0]).value, queues[0], run[1..], queues[1..], ask);
      es := first + more;
      AfterAppend(p.s, first, more);
    }
  }

  lemma {:induction false} AfterAppend(s: SingleWorker.Server, es: seq<SingleWorker.Event>,
      more: seq<SingleWorker.Event>)
    requires SingleWorker.After(s, es).Some?
    ensures SingleWorker.After(s, es + more) == SingleWorker.After(SingleWorker.After(s, es).value, more)
    decreases |es|
  {
    if es == [] {
      assert es + more == more;
    } else {
      assert (es + more)[1..] == es[1..] + more;
      AfterAppend(SingleWorker.Next(s, es[0]).value, es[1..], more);
    }
  }

  // ------------------------------------------------------------- from the start

  /** Start's own ReadRequest, before its read is issued. */
  predicate Opening(t: State) {
    !t.flag && |t.tasks| == 1 && t.tasks[0] in [BeginRead(0), ClearFlag(0), IssueRead(0)]
  }

  lemma NothingQueued(t: State, queue: seq<Task>)
    requires Queues(t, queue) && forall u :: u in t.tasks ==> !Waiting(u)
    ensures queue == []
  {
    forall u ensures multiset(queue)[u] == 0 {
      if !Waiting(u) {
        assert u !in queue;
      } else {
        assert u !in multiset(t.tasks);
      }
    }
    assert multiset(queue) == multiset{} && |multiset(queue)| == |queue|;
  }

  function OpeningNext(x: Task): seq<Task> {
    if x == BeginRead(0) then [ClearFlag(0)] else if x == ClearFlag(0) then [IssueRead(0)]
    else [ReadOp(0), ArmExpiry(0)]
  }

  lemma OpeningMove(t: State, a: Action)
    requires Opening(t) && Step(t, a).Some?
    ensures !Step(t, a).value.flag && Step(t, a).value.tasks == OpeningNext(t.tasks[0])
  {
  }

  lemma {:induction false} OpeningStep(x: Task, t: State, queue: seq<Task>, ask: Requests) returns (p: Option<Point>)
    requires x in [BeginRead(0), ClearFlag(0), IssueRead(0)] && t.tasks == OpeningNext(x) && !t.flag && Queues(t, queue)
    ensures queue == []
    ensures match p case None => Opening(t)
      case Some(point) => point.s == SingleWorker.BEGIN && Stands(point, t, [], ask)
  {
    NothingQueued(t, queue);
    if x == IssueRead(0) {
      var begin := SingleWorker.BEGIN;
      p := Some(Point(begin, Some(ArmExpiry(0)), begin.(armed := None)));
      ReadIssued(t, ask);
    } else {
      p := None;
    }
  }

  lemma {:induction false} ReadIssued(t: State, ask: Requests)
    requires t.tasks == [ReadOp(0), ArmExpiry(0)] && !t.flag
    ensures var begin := SingleWorker.BEGIN;
      Stands(Point(begin, Some(ArmExpiry(0)), begin.(armed := None)), t, [], ask)
  {
    assert multiset([ReadOp(0), ArmExpiry(0)])
        == multiset{ReadOp(0)} + multiset{} + multiset{} + multiset{ArmExpiry(0)};
  }

  lemma {:induction false} StartStands(t: State, run: seq<Action>, queues: seq<seq<Task>>, ask: Requests)
    returns (es: seq<SingleWorker.Event>, p: Option<Point>, last: seq<Task>)
    requires Opening(t) && Worked(t, [], run, queues, ask)
    ensures Exec(t, run).Some?
    ensures match p case None => Opening(Exec(t, run).value)
      case Some(point) =>
        SingleWorker.After(SingleWorker.BEGIN, es) == Some(point.s) && Stands(point, Exec(t, run).value, last, ask)
    decreases |run|
  {
    es, p, last := [], None, [];
    if run != [] {
      OpeningMove(t, run[0]);
      var first := OpeningStep(t.tasks[0], Step(t, run[0]).value, queues[0], ask);
      if first.None? {
        es, p, last := StartStands(Step(t, run[0]).value, run[1..], queues[1..], ask);
      } else {
        var point;
        es, point, last := RunStands(first.value, Step(t, run[0]).value, [], run[1..], queues[1..], ask);
        p := Some(point);
      }
    }
  }

  lemma {:induction false} EndStands(t0: State, run: seq<Action>, queues: seq<seq<Task>>, t: State, u: Option<Task>,
      ask: Requests) returns (es: seq<SingleWorker.Event>, p: Point, last: seq<Task>)
    requires Opening(t0) && Worked(t0, [], run, queues, ask) && Exec(t0, run) == Some(t)
    requires Idle(t) || (u.Some? && u.value in t.tasks && u.value.TimerPassed?)
    ensures SingleWorker.After(SingleWorker.BEGIN, es) == Some(p.s) && Stands(p, t, last, ask)
  {
    var end;
    es, end, last := StartStands(t0, run, queues, ask);
    OpeningIsNeither(t, u);
    p := end.value;
  }

  lemma OpeningIsNeither(t: State, u: Option<Task>)
    requires Idle(t) || (u.Some? && u.value in t.tasks && u.value.TimerPassed?)
    ensures !Opening(t)
  {
    if Opening(t) {
      OpeningTasks(t);
      assert false;
    }
  }

  lemma OpeningTasks(t: State)
    requires Opening(t)
    ensures t.tasks[0] in t.tasks && Midway(t.tasks[0]) && forall u :: u in t.tasks ==> !u.TimerPassed?
  {
  }

  /** Every run of one worker that has no handler part-way at its end, whenever its
      operations completed, ends where some run of the single worker ends. */
  lemma {:induction false} EveryWorkedRunIsServed(run: seq<Action>, queues: seq<seq<Task>>, t: State, ask: Requests)
    returns (es: seq<SingleWorker.Event>)
    requires Worked(START, [], run, queues, ask) && Exec(START, run) == Some(t) && Idle(t)
    ensures SingleWorker.After(SingleWorker.BEGIN, es).Some?
    ensures Same(SingleWorker.After(SingleWorker.BEGIN, es).value, t, ask)
  {
    var p, last;
    es, p, last := EndStands(START, run, queues, t, None, ask);
    NobodyMoves(p, t, last, ask);
    IdleIsSame(p, t, last, ask);
  }

  lemma {:induction false} IdleIsSame(p: Point, t: State, queue: seq<Task>, ask: Requests)
    requires Stands(p, t, queue, ask) && p.x.None?
    ensures Same(p.s, t, ask)
  {
  }

  /** So with one worker no timer's handler that has passed its test finds a write
      outstanding, or a read but its own round's. */
  lemma {:induction false} WorkedTimerCutsOwnRead(run: seq<Action>, queues: seq<seq<Task>>, t: State, u: Task,
      ask: Requests)
    requires Worked(START, [], run, queues, ask) && Exec(START, run) == Some(t) && u in t.tasks && u.TimerPassed?
    ensures forall v :: v in t.tasks ==> !v.WriteOp? && (v.ReadOp? ==> v.round == u.round)
  {
    var es, p, last := EndStands(START, run, queues, t, Some(u), ask);
    CutsOwnRead(p, t, last, u, ask);
  }

  lemma {:induction false} CutsOwnRead(p: Point, t: State, queue: seq<Task>, u: Task, ask: Requests)
    requires Stands(p, t, queue, ask) && u in t.tasks && u.TimerPassed?
    ensures forall v :: v in t.tasks ==> !v.WriteOp? && (v.ReadOp? ==> v.round == u.round)
  {
    WhoMoves(p, t, queue, u, ask);
    forall v | v in t.tasks ensures !v.WriteOp? && (v.ReadOp? ==> v.round == u.round) {
      PassedFindsOwn(p, t, queue, u, v, ask);
    }
  }

  lemma {:induction false} PassedFindsOwn(p: Point, t: State, queue: seq<Task>, u: Task, v: Task, ask: Requests)
    requires Stands(p, t, queue, ask) && p.x == Some(u) && u.TimerPassed? && v in t.tasks
    ensures !v.WriteOp? && (v.ReadOp? ==> v.round == u.round)
  {
    assert v in multiset(t.tasks);
    if v.WriteOp? || v.ReadOp? {
      assert v in Bag(p.b, ask);
      OpInBag(p.b, ask, v);
    }
  }
}
