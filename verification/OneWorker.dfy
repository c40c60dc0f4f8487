/** The single worker is the many-worker protocol with a restricted schedule: each of its
    runs is a run there in which handlers come in queue order, each one's accesses together
    and to their end. So what is proved of it holds of that protocol. */
module OneWorker {
  import opened Prelude
  import opened ConnectionProtocol
  import SingleWorker

  /** What the client sends as the request of each round. */
  type Requests = nat -> string

  // ---------------------------------------------------------- the same state

  function OpTasks(op: SingleWorker.Op, ask: Requests): multiset<Task> {
    match op
    case NoOp => multiset{}
    case Reading(k) => multiset{ReadOp(k)}
    case Writing(k) => multiset{WriteOp(k, ask(k))}
  }

  function ArmedTasks(armed: Option<nat>): multiset<Task> {
    match armed case None => multiset{} case Some(k) => multiset{TimerWait(k)}
  }

  /** A queued handler is one that may run. */
  function ReadyTask(h: SingleWorker.Handler, ask: Requests): Task {
    match h
    case ReadHandler(k, code) => ReadReady(k, code)
    case WriteHandler(k, failed) => WriteReady(k, ask(k), failed)
    case TimerHandler(k, failed) => TimerReady(k, failed)
  }

  function QueueTasks(queue: seq<SingleWorker.Handler>, ask: Requests): multiset<Task> {
    if queue == [] then multiset{} else multiset{ReadyTask(queue[0], ask)} + QueueTasks(queue[1..], ask)
  }

  function Bag(s: SingleWorker.Server, ask: Requests): multiset<Task> {
    OpTasks(s.op, ask) + ArmedTasks(s.armed) + QueueTasks(s.queue, ask)
  }

  /** Nothing but outstanding operations, the wait, and handlers not yet begun. */
  ghost predicate Same(s: SingleWorker.Server, t: State, ask: Requests) {
    multiset(t.tasks) == Bag(s, ask) && t.flag == s.flag
  }

  lemma {:induction false} Enqueued(queue: seq<SingleWorker.Handler>, h: SingleWorker.Handler, ask: Requests)
    ensures QueueTasks(queue + [h], ask) == QueueTasks(queue, ask) + multiset{ReadyTask(h, ask)}
  {
    if queue == [] {
      assert [] + [h] == [h] && [h][1..] == [];
    } else {
      assert (queue + [h])[1..] == queue[1..] + [h];
      Enqueued(queue[1..], h, ask);
    }
  }

  // ------------------------------------------------------ one step of the bag

  /** The bag is `rest` and the task at `i`, which is `x`. */
  ghost predicate At(t: State, i: nat, x: Task, rest: multiset<Task>) {
    i < |t.tasks| && t.tasks[i] == x && multiset(t.tasks) == rest + multiset{x}
  }

  lemma Occurs(t: State, x: Task, rest: multiset<Task>) returns (i: nat)
    requires multiset(t.tasks) == rest + multiset{x}
    ensures At(t, i, x, rest)
  {
    assert x in multiset(t.tasks);
    i :| 0 <= i < |t.tasks| && t.tasks[i] == x;
  }

  lemma ReplacedBag(ts: seq<Task>, i: nat, put: seq<Task>)
    requires i < |ts|
    ensures multiset(Replace(ts, i, put)) == multiset(ts) - multiset{ts[i]} + multiset(put)
  {
    assert ts == ts[..i] + [ts[i]] + ts[i + 1..];
  }

  ghost predicate Fixes(rest: multiset<Task>, f: Task -> Task) { forall u :: u in rest ==> f(u) == u }

  /** `f` changes one task of the bag and no other. */
  ghost predicate HitsOne(rest: multiset<Task>, f: Task -> Task, y: Task) {
    rest[y] == 1 && forall u :: u in rest && u != y ==> f(u) == u
  }

  /** What cancelling does to a bag that holds at most one thing to cancel. */
  ghost predicate Hit(rest: multiset<Task>, f: Task -> Task, after: multiset<Task>) {
    || (Fixes(rest, f) && after == rest)
    || exists y :: HitsOne(rest, f, y) && after == rest - multiset{y} + multiset{f(y)}
  }

  lemma FirstAndRest(ts: seq<Task>)
    requires ts != []
    ensures multiset(ts) == multiset{ts[0]} + multiset(ts[1..])
  {
    assert ts == [ts[0]] + ts[1..];
  }

  lemma EachFixed(ts: seq<Task>, f: Task -> Task)
    requires Fixes(multiset(ts), f)
    ensures Each(ts, f) == ts
  {
    forall i | 0 <= i < |ts| ensures Each(ts, f)[i] == ts[i] {
      assert ts[i] in multiset(ts);
    }
  }

  lemma EachFirst(ts: seq<Task>, f: Task -> Task)
    requires ts != []
    ensures multiset(Each(ts, f)) == multiset{f(ts[0])} + multiset(Each(ts[1..], f))
  {
    assert Each(ts, f) == [f(ts[0])] + Each(ts[1..], f);
  }

  lemma Swapped(x: Task, tail: multiset<Task>, y: Task, z: Task)
    requires y in tail
    ensures multiset{x} + (tail - multiset{y} + multiset{z}) == (multiset{x} + tail) - multiset{y} + multiset{z}
  {
  }

  lemma HitsTail(x: Task, tail: multiset<Task>, f: Task -> Task, y: Task)
    requires HitsOne(multiset{x} + tail, f, y)
    ensures if x == y then Fixes(tail, f) else f(x) == x && HitsOne(tail, f, y)
  {
    forall u | u in tail && u != y ensures f(u) == u {
      assert u in multiset{x} + tail;
    }
    assert (multiset{x} + tail)[y] == multiset{x}[y] + tail[y];
    assert x in multiset{x} + tail;
  }

  lemma {:induction false} EachOne(ts: seq<Task>, f: Task -> Task, y: Task)
    requires HitsOne(multiset(ts), f, y)
    ensures multiset(Each(ts, f)) == multiset(ts) - multiset{y} + multiset{f(y)}
  {
    assert ts != [];
    var x, tail := ts[0], ts[1..];
    FirstAndRest(ts);
    EachFirst(ts, f);
    HitsTail(x, multiset(tail), f, y);
    if x == y {
      EachFixed(tail, f);
    } else {
      EachOne(tail, f, y);
      assert y in multiset(tail);
      Swapped(x, multiset(tail), y, f(y));
    }
  }

  lemma EachBag(ts: seq<Task>, f: Task -> Task, after: multiset<Task>)
    requires Hit(multiset(ts), f, after)
    ensures multiset(Each(ts, f)) == after
  {
    if Fixes(multiset(ts), f) && after == multiset(ts) {
      EachFixed(ts, f);
    } else {
      var y :| HitsOne(multiset(ts), f, y) && after == multiset(ts) - multiset{y} + multiset{f(y)};
      EachOne(ts, f, y);
    }
  }

  lemma HitBeside(rest: multiset<Task>, f: Task -> Task, after: multiset<Task>, x: Task)
    requires Hit(rest, f, after) && f(x) == x
    ensures Hit(rest + multiset{x}, f, after + multiset{x})
  {
    if Fixes(rest, f) && after == rest {
      assert Fixes(rest + multiset{x}, f);
    } else {
      var y :| HitsOne(rest, f, y) && after == rest - multiset{y} + multiset{f(y)};
      OneBeside(rest, f, x, y);
    }
  }

  lemma OneBeside(rest: multiset<Task>, f: Task -> Task, x: Task, y: Task)
    requires HitsOne(rest, f, y) && f(x) == x
    ensures Hit(rest + multiset{x}, f, rest - multiset{y} + multiset{f(y)} + multiset{x})
  {
    var all, after := rest + multiset{x}, rest - multiset{y} + multiset{f(y)} + multiset{x};
    if f(y) == y {
      assert after == all && Fixes(all, f);
    } else {
      assert HitsOne(all, f, y);
      assert after == all - multiset{y} + multiset{f(y)};
    }
  }

  function Canceller(c: Cancel): Task -> Task {
    match c case Nothing => (t: Task) => t case Waits => WaitCancelled case Socket => SocketCancelled
  }

  lemma CancelledBag(t: State, i: nat, x: Task, rest: multiset<Task>, c: Cancel, after: multiset<Task>)
    requires At(t, i, x, rest) && Canceller(c)(x) == x && Hit(rest, Canceller(c), after)
    ensures var ts := Cancelled(t.tasks, c);
      ts[i] == x && multiset(ts) == after + multiset{x}
  {
    HitBeside(rest, Canceller(c), after, x);
    if c == Nothing {
      NothingHit(rest, after);
    } else {
      EachBag(t.tasks, Canceller(c), after + multiset{x});
    }
  }

  lemma NothingHit(rest: multiset<Task>, after: multiset<Task>)
    requires Hit(rest, Canceller(Nothing), after)
    ensures after == rest
  {
  }

  lemma PutInPlace(ts: seq<Task>, i: nat, put: seq<Task>)
    requires i < |ts|
    ensures var r := Replace(ts, i, put); i + |put| <= |r| && r[i..i + |put|] == put
  {
  }

  /** Advancing the task at `i` puts its successors in its place, the first at `i` again,
      a second right after it. */
  lemma StepBag(t: State, i: nat, x: Task, rest: multiset<Task>, a: Action, after: multiset<Task>)
    requires At(t, i, x, rest) && a.index == i && Matches(x, a)
    requires var c := Effect(x, t.flag, a).cancel; Canceller(c)(x) == x && Hit(rest, Canceller(c), after)
    ensures Step(t, a).Some?
    ensures var m, t' := Effect(x, t.flag, a), Step(t, a).value;
      && t'.flag == m.flag && multiset(t'.tasks) == after + multiset(m.put)
      && i + |m.put| <= |t'.tasks| && t'.tasks[i..i + |m.put|] == m.put
  {
    MoveBag(t, i, x, rest, Effect(x, t.flag, a), after);
  }

  lemma MoveBag(t: State, i: nat, x: Task, rest: multiset<Task>, m: Move, after: multiset<Task>)
    requires At(t, i, x, rest) && Canceller(m.cancel)(x) == x && Hit(rest, Canceller(m.cancel), after)
    ensures var t' := Applied(t, i, m);
      && multiset(t'.tasks) == after + multiset(m.put)
      && i + |m.put| <= |t'.tasks| && t'.tasks[i..i + |m.put|] == m.put
  {
    CancelledBag(t, i, x, rest, m.cancel, after);
    ReplacedBag(Cancelled(t.tasks, m.cancel), i, m.put);
    PutInPlace(Cancelled(t.tasks, m.cancel), i, m.put);
  }

  lemma NoCancel(rest: multiset<Task>)
    ensures Hit(rest, Canceller(Nothing), rest)
  {
  }

  // -------------------------------------------------------------- runs of steps

  lemma Extend(t: State, run: seq<Action>, t1: State, a: Action, t2: State)
    requires Exec(t, run) == Some(t1) && Step(t1, a) == Some(t2)
    ensures Exec(t, run + [a]) == Some(t2)
  {
    ExecAppend(t, run, [a]);
    Then(t1, a, t2, []);
    assert [a] + [] == [a];
  }

  /** One more step of the handler at `i`, which cancels nothing and goes on as `y`. */
  lemma GoOn(t: State, run: seq<Action>, t1: State, i: nat, x: Task, rest: multiset<Task>, a: Action, y: Task)
    returns (t2: State)
    requires Exec(t, run) == Some(t1) && At(t1, i, x, rest) && a.index == i && Matches(x, a)
    requires Effect(x, t1.flag, a).cancel == Nothing && Effect(x, t1.flag, a).put == [y]
    ensures Exec(t, run + [a]) == Some(t2) && At(t2, i, y, rest) && t2.flag == Effect(x, t1.flag, a).flag
  {
    NoCancel(rest);
    StepBag(t1, i, x, rest, a, rest);
    t2 := Step(t1, a).value;
    Extend(t, run, t1, a, t2);
    assert multiset([y]) == multiset{y};
    assert t2.tasks[i..i + 1][0] == y;
  }

  /** The same when waits are cancelled. */
  lemma GoOnCancelling(t: State, run: seq<Action>, t1: State, i: nat, x: Task, rest: multiset<Task>,
      after: multiset<Task>, a: Action, y: Task)
    returns (t2: State)
    requires Exec(t, run) == Some(t1) && At(t1, i, x, rest) && a.index == i && Matches(x, a)
    requires Effect(x, t1.flag, a).put == [y]
    requires var c := Effect(x, t1.flag, a).cancel; Canceller(c)(x) == x && Hit(rest, Canceller(c), after)
    ensures Exec(t, run + [a]) == Some(t2) && At(t2, i, y, after) && t2.flag == Effect(x, t1.flag, a).flag
  {
    StepBag(t1, i, x, rest, a, after);
    t2 := Step(t1, a).value;
    Extend(t, run, t1, a, t2);
    assert multiset([y]) == multiset{y};
    assert t2.tasks[i..i + 1][0] == y;
  }

  /** The handler's last step. */
  lemma Ends(t: State, run: seq<Action>, t1: State, i: nat, x: Task, rest: multiset<Task>, after: multiset<Task>,
      a: Action)
    returns (t2: State)
    requires Exec(t, run) == Some(t1) && At(t1, i, x, rest) && a.index == i && Matches(x, a)
    requires Effect(x, t1.flag, a).put == []
    requires var c := Effect(x, t1.flag, a).cancel; Canceller(c)(x) == x && Hit(rest, Canceller(c), after)
    ensures Exec(t, run + [a]) == Some(t2) && multiset(t2.tasks) == after && t2.flag == Effect(x, t1.flag, a).flag
  {
    StepBag(t1, i, x, rest, a, after);
    t2 := Step(t1, a).value;
    Extend(t, run, t1, a, t2);
  }

  // ---------------------------------------------------- what a cancel finds to do

  lemma {:induction false} QueueIsReady(queue: seq<SingleWorker.Handler>, ask: Requests)
    ensures forall u :: u in QueueTasks(queue, ask) ==> u.ReadReady? || u.WriteReady? || u.TimerReady?
  {
    if queue != [] {
      QueueIsReady(queue[1..], ask);
    }
  }

  lemma OneToHit(others: multiset<Task>, f: Task -> Task, y: Task)
    requires y !in others && Fixes(others, f)
    ensures Hit(others + multiset{y}, f, others + multiset{f(y)})
  {
    assert HitsOne(others + multiset{y}, f, y);
    assert others + multiset{f(y)} == others + multiset{y} - multiset{y} + multiset{f(y)};
  }

  lemma Swap(a: multiset<Task>, b: multiset<Task>, c: multiset<Task>)
    ensures a + b + c == a + c + b
  {
  }

  lemma Sums(a: multiset<Task>, b: multiset<Task>, c: multiset<Task>)
    ensures a + (b + c) == a + b + c && a + multiset{} == a && multiset{} + a == a
  {
  }

  lemma FixedSum(a: multiset<Task>, b: multiset<Task>, f: Task -> Task)
    requires Fixes(a, f) && Fixes(b, f)
    ensures Fixes(a + b, f)
  {
  }

  lemma QueueFixed(queue: seq<SingleWorker.Handler>, ask: Requests)
    ensures Fixes(QueueTasks(queue, ask), WaitCancelled) && Fixes(QueueTasks(queue, ask), SocketCancelled)
  {
    QueueIsReady(queue, ask);
  }

  lemma Untouched(rest: multiset<Task>, f: Task -> Task)
    requires Fixes(rest, f)
    ensures Hit(rest, f, rest)
  {
  }

  lemma WaitHit(ops: multiset<Task>, k: nat, queue: multiset<Task>)
    requires Fixes(ops + queue, WaitCancelled)
    ensures Hit(ops + multiset{TimerWait(k)} + queue, WaitCancelled,
                ops + multiset{} + (queue + multiset{TimerReady(k, true)}))
  {
    assert WaitCancelled(TimerWait(k)) == TimerReady(k, true);
    OneToHit(ops + queue, WaitCancelled, TimerWait(k));
    Swap(ops, multiset{TimerWait(k)}, queue);
    Sums(ops, queue, multiset{TimerReady(k, true)});
  }

  lemma OpsFixed(op: SingleWorker.Op, ask: Requests)
    ensures Fixes(OpTasks(op, ask), WaitCancelled)
  {
  }

  lemma NoWaitHit(s: SingleWorker.Server, ask: Requests)
    requires s.armed.None?
    ensures Hit(Bag(s, ask), WaitCancelled, Bag(s, ask))
  {
    var ops, queue := OpTasks(s.op, ask), QueueTasks(s.queue, ask);
    OpsFixed(s.op, ask);
    QueueFixed(s.queue, ask);
    FixedSum(ops, queue, WaitCancelled);
    Sums(ops, queue, queue);
    Untouched(ops + queue, WaitCancelled);
  }

  lemma OneWaitHit(s: SingleWorker.Server, k: nat, ask: Requests)
    requires s.armed == Some(k)
    ensures Hit(Bag(s, ask), WaitCancelled,
                OpTasks(s.op, ask) + multiset{} + QueueTasks(s.queue + [SingleWorker.TimerHandler(k, true)], ask))
  {
    var ops, queue := OpTasks(s.op, ask), QueueTasks(s.queue, ask);
    OpsFixed(s.op, ask);
    QueueFixed(s.queue, ask);
    FixedSum(ops, queue, WaitCancelled);
    Enqueued(s.queue, SingleWorker.TimerHandler(k, true), ask);
    WaitHit(ops, k, queue);
  }

  lemma WaitsHit(s: SingleWorker.Server, ask: Requests)
    ensures Hit(Bag(s, ask), WaitCancelled, Bag(SingleWorker.CancelTimer(s), ask))
  {
    match s.armed
    case None => NoWaitHit(s, ask);
    case Some(k) => OneWaitHit(s, k, ask);
  }

  lemma ArmedAndQueueFixed(s: SingleWorker.Server, ask: Requests)
    ensures Fixes(ArmedTasks(s.armed) + QueueTasks(s.queue, ask), SocketCancelled)
  {
    QueueFixed(s.queue, ask);
    FixedSum(ArmedTasks(s.armed), QueueTasks(s.queue, ask), SocketCancelled);
  }

  lemma NoOpHit(s: SingleWorker.Server, ask: Requests)
    requires s.op == SingleWorker.NoOp
    ensures Hit(Bag(s, ask), SocketCancelled, Bag(s, ask))
  {
    var armed, queue := ArmedTasks(s.armed), QueueTasks(s.queue, ask);
    ArmedAndQueueFixed(s, ask);
    Sums(armed, queue, queue);
    Untouched(armed + queue, SocketCancelled);
  }

  lemma SocketHit(s: SingleWorker.Server, ask: Requests)
    ensures Hit(Bag(s, ask), SocketCancelled, Bag(SingleWorker.CancelSocket(s), ask))
  {
    match s.op
    case NoOp => NoOpHit(s, ask);
    case Reading(k) => OperationHit(s, ReadOp(k), SingleWorker.ReadHandler(k, Aborted), ask);
    case Writing(k) => OperationHit(s, WriteOp(k, ask(k)), SingleWorker.WriteHandler(k, true), ask);
  }

  lemma OperationHit(s: SingleWorker.Server, y: Task, h: SingleWorker.Handler, ask: Requests)
    requires OpTasks(s.op, ask) == multiset{y} && (y.ReadOp? || y.WriteOp?)
    requires SocketCancelled(y) == ReadyTask(h, ask)
    requires SingleWorker.CancelSocket(s) == s.(op := SingleWorker.NoOp, queue := s.queue + [h])
    ensures Hit(Bag(s, ask), SocketCancelled, Bag(SingleWorker.CancelSocket(s), ask))
  {
    QueueIsReady(s.queue, ask);
    ArmedAndQueueFixed(s, ask);
    Enqueued(s.queue, h, ask);
    OpHit(y, ArmedTasks(s.armed), QueueTasks(s.queue, ask));
  }

  lemma OpHit(y: Task, armed: multiset<Task>, queue: multiset<Task>)
    requires y !in armed && y !in queue && Fixes(armed + queue, SocketCancelled)
    ensures Hit(multiset{y} + armed + queue, SocketCancelled,
                multiset{} + armed + (queue + multiset{SocketCancelled(y)}))
  {
    OneToHit(armed + queue, SocketCancelled, y);
    assert multiset{y} + armed + queue == armed + queue + multiset{y};
    assert multiset{} + armed + (queue + multiset{SocketCancelled(y)}) == armed + queue + multiset{SocketCancelled(y)};
  }

  // ------------------------------------------------------------ whole handlers

  /** The steps of the handler at the head of the queue, its task being at `i`. */
  function HandlerSteps(s: SingleWorker.Server, i: nat, ask: Requests): seq<Action>
    requires s.queue != []
  {
    match s.queue[0]
    case ReadHandler(k, code) =>
      if s.flag || code != Ok then [Go(i), Go(i)] else [Go(i), Go(i), Take(i, ask(k)), Go(i)]
    case WriteHandler(k, failed) => if failed then [Go(i)] else [Go(i), Go(i), Go(i), Go(i), Go(i + 1), Go(i + 1)]
    case TimerHandler(k, failed) => if !failed && !s.flag then [Go(i), Go(i), Go(i)] else [Go(i)]
  }

  /** The handler at the head of the queue may run: its task is at `i`. */
  ghost predicate HeadAt(s: SingleWorker.Server, t: State, i: nat, ask: Requests) {
    s.queue != [] && t.flag == s.flag && At(t, i, ReadyTask(s.queue[0], ask), Bag(Rest(s), ask))
  }

  function Rest(s: SingleWorker.Server): SingleWorker.Server
    requires s.queue != []
  {
    s.(queue := s.queue[1..])
  }

  // The steps of each handler, on bags.

  lemma ReadEnds(t: State, i: nat, k: nat, code: Code, rest: multiset<Task>, after: multiset<Task>) returns (t': State)
    requires At(t, i, ReadReady(k, code), rest) && (t.flag || code != Ok)
    requires if t.flag || code == Aborted then after == rest else Hit(rest, WaitCancelled, after)
    ensures Exec(t, [Go(i), Go(i)]) == Some(t') && t'.flag && multiset(t'.tasks) == after
  {
    var tested := ReadTested(k, code, t.flag);
    NoCancel(rest);
    var t1 := GoOn(t, [], t, i, ReadReady(k, code), rest, Go(i), tested);
    t' := Ends(t, [] + [Go(i)], t1, i, tested, rest, after, Go(i));
    assert [] + [Go(i)] + [Go(i)] == [Go(i), Go(i)];
  }

  lemma ReadPasses(t: State, i: nat, k: nat, rest: multiset<Task>, cancelled: multiset<Task>) returns (t': State)
    requires At(t, i, ReadReady(k, Ok), rest) && !t.flag && Hit(rest, WaitCancelled, cancelled)
    ensures Exec(t, [Go(i), Go(i)]) == Some(t') && t'.flag && At(t', i, Extract(k), cancelled)
  {
    var t1 := GoOn(t, [], t, i, ReadReady(k, Ok), rest, Go(i), ReadTested(k, Ok, false));
    var run1 := [] + [Go(i)];
    t' := GoOnCancelling(t, run1, t1, i, ReadTested(k, Ok, false), rest, cancelled, Go(i), Extract(k));
    assert run1 + [Go(i)] == [Go(i), Go(i)];
  }

  /** The read succeeded in time: the request is taken and its response sent. */
  lemma Answers(t: State, i: nat, k: nat, rest: multiset<Task>, cancelled: multiset<Task>, ask: Requests)
    returns (t': State)
    requires At(t, i, ReadReady(k, Ok), rest) && !t.flag && Hit(rest, WaitCancelled, cancelled)
    ensures Exec(t, [Go(i), Go(i), Take(i, ask(k)), Go(i)]) == Some(t') && t'.flag
    ensures multiset(t'.tasks) == cancelled + multiset{WriteOp(k, ask(k))}
  {
    var run := [Go(i), Go(i)];
    var t2 := ReadPasses(t, i, k, rest, cancelled);
    t' := Sends(t, run, t2, i, k, cancelled, ask);
    assert run + [Take(i, ask(k))] + [Go(i)] == [Go(i), Go(i), Take(i, ask(k)), Go(i)];
  }

  lemma Sends(t: State, run: seq<Action>, t1: State, i: nat, k: nat, rest: multiset<Task>, ask: Requests)
    returns (t': State)
    requires Exec(t, run) == Some(t1) && At(t1, i, Extract(k), rest)
    ensures Exec(t, run + [Take(i, ask(k))] + [Go(i)]) == Some(t') && t'.flag == t1.flag
    ensures multiset(t'.tasks) == rest + multiset{WriteOp(k, ask(k))}
  {
    var t2 := GoOn(t, run, t1, i, Extract(k), rest, Take(i, ask(k)), Process(k, ask(k)));
    t' := GoOn(t, run + [Take(i, ask(k))], t2, i, Process(k, ask(k)), rest, Go(i), WriteOp(k, ask(k)));
  }

  lemma TimerCuts(t: State, i: nat, k: nat, rest: multiset<Task>, cancelled: multiset<Task>) returns (t': State)
    requires At(t, i, TimerReady(k, false), rest) && !t.flag && Hit(rest, SocketCancelled, cancelled)
    ensures Exec(t, [Go(i), Go(i), Go(i)]) == Some(t') && t'.flag && multiset(t'.tasks) == cancelled
  {
    var run := [Go(i)];
    var t1 := GoOn(t, [], t, i, TimerReady(k, false), rest, Go(i), TimerPassed(k));
    assert [] + [Go(i)] == run;
    t' := Cuts(t, run, t1, i, k, rest, cancelled);
    assert run + [Go(i)] + [Go(i)] == [Go(i), Go(i), Go(i)];
  }

  lemma Cuts(t: State, run: seq<Action>, t1: State, i: nat, k: nat, rest: multiset<Task>, cancelled: multiset<Task>)
    returns (t': State)
    requires Exec(t, run) == Some(t1) && At(t1, i, TimerPassed(k), rest) && Hit(rest, SocketCancelled, cancelled)
    ensures Exec(t, run + [Go(i)] + [Go(i)]) == Some(t') && t'.flag && multiset(t'.tasks) == cancelled
  {
    NoCancel(cancelled);
    var t2 := GoOnCancelling(t, run, t1, i, TimerPassed(k), rest, cancelled, Go(i), TimerSet(k));
    t' := Ends(t, run + [Go(i)], t2, i, TimerSet(k), cancelled, cancelled, Go(i));
  }

  lemma EndsAtOnce(t: State, i: nat, x: Task, rest: multiset<Task>) returns (t': State)
    requires At(t, i, x, rest) && Matches(x, Go(i))
    requires Effect(x, t.flag, Go(i)).put == [] && Effect(x, t.flag, Go(i)).cancel == Nothing
    ensures Exec(t, [Go(i)]) == Some(t') && multiset(t'.tasks) == rest && t'.flag == Effect(x, t.flag, Go(i)).flag
  {
    NoCancel(rest);
    t' := Ends(t, [], t, i, x, rest, rest, Go(i));
    assert [] + [Go(i)] == [Go(i)];
  }

  /** The write succeeded: ReadRequest clears the flag and issues the next read. */
  lemma Issues(t: State, i: nat, k: nat, request: string, rest: multiset<Task>) returns (t': State)
    requires At(t, i, WriteReady(k, request, false), rest)
    ensures Exec(t, [Go(i), Go(i), Go(i), Go(i)]) == Some(t') && !t'.flag
    ensures At(t', i + 1, ArmExpiry(k + 1), rest + multiset{ReadOp(k + 1)})
  {
    var run := [Go(i)];
    var t1 := GoOn(t, [], t, i, WriteReady(k, request, false), rest, Go(i), BeginRead(k + 1));
    assert [] + [Go(i)] == run;
    var t2 := Clears(t, run, t1, i, k + 1, rest);
    t' := Splits(t, run + [Go(i)] + [Go(i)], t2, i, k + 1, rest);
    assert run + [Go(i)] + [Go(i)] + [Go(i)] == [Go(i), Go(i), Go(i), Go(i)];
  }

  lemma Clears(t: State, run: seq<Action>, t1: State, i: nat, k: nat, rest: multiset<Task>) returns (t': State)
    requires Exec(t, run) == Some(t1) && At(t1, i, BeginRead(k), rest)
    ensures Exec(t, run + [Go(i)] + [Go(i)]) == Some(t') && At(t', i, IssueRead(k), rest) && !t'.flag
  {
    var t2 := GoOn(t, run, t1, i, BeginRead(k), rest, Go(i), ClearFlag(k));
    t' := GoOn(t, run + [Go(i)], t2, i, ClearFlag(k), rest, Go(i), IssueRead(k));
  }

  lemma Splits(t: State, run: seq<Action>, t3: State, i: nat, k: nat, rest: multiset<Task>) returns (t': State)
    requires Exec(t, run) == Some(t3) && At(t3, i, IssueRead(k), rest)
    ensures Exec(t, run + [Go(i)]) == Some(t') && t'.flag == t3.flag
    ensures At(t', i + 1, ArmExpiry(k), rest + multiset{ReadOp(k)})
  {
    NoCancel(rest);
    StepBag(t3, i, IssueRead(k), rest, Go(i), rest);
    t' := Step(t3, Go(i)).value;
    Extend(t, run, t3, Go(i), t');
    assert t'.tasks[i..i + 2][1] == ArmExpiry(k);
    assert multiset([ReadOp(k), ArmExpiry(k)]) == multiset{ReadOp(k)} + multiset{ArmExpiry(k)};
  }

  /** And it re-arms the timer. */
  lemma Arms(t: State, run: seq<Action>, t1: State, i: nat, k: nat, rest: multiset<Task>, cancelled: multiset<Task>)
    returns (t': State)
    requires Exec(t, run) == Some(t1) && At(t1, i, ArmExpiry(k), rest) && Hit(rest, WaitCancelled, cancelled)
    ensures Exec(t, run + [Go(i), Go(i)]) == Some(t') && t'.flag == t1.flag
    ensures multiset(t'.tasks) == cancelled + multiset{TimerWait(k)}
  {
    var t2 := GoOnCancelling(t, run, t1, i, ArmExpiry(k), rest, cancelled, Go(i), ArmWait(k));
    var run2 := run + [Go(i)];
    t' := GoOn(t, run2, t2, i, ArmWait(k), cancelled, Go(i), TimerWait(k));
    assert run2 + [Go(i)] == run + [Go(i), Go(i)];
  }

  lemma ReadHandlerRuns(s: SingleWorker.Server, t: State, i: nat, ask: Requests) returns (t': State)
    requires SingleWorker.Good(s) && HeadAt(s, t, i, ask) && s.queue[0].ReadHandler?
    ensures Exec(t, HandlerSteps(s, i, ask)) == Some(t') && Same(SingleWorker.RunHandler(s), t', ask)
  {
    var k, code := s.queue[0].round, s.queue[0].code;
    var rest, cancelled := Bag(Rest(s), ask), Bag(SingleWorker.CancelTimer(Rest(s)), ask);
    NoOpAtHandler(s);
    WaitsHit(Rest(s), ask);
    if s.flag || code != Ok {
      t' := ReadEnds(t, i, k, code, rest, if s.flag || code == Aborted then rest else cancelled);
    } else {
      t' := Answers(t, i, k, rest, cancelled, ask);
    }
    ReadHandlerBag(s, ask);
  }

  lemma NoOpAtHandler(s: SingleWorker.Server)
    requires SingleWorker.Good(s) && s.queue != [] && !s.queue[0].TimerHandler?
    ensures s.op == SingleWorker.NoOp
  {
  }

  /** The bag after the read handler, by its branches. */
  lemma ReadHandlerBag(s: SingleWorker.Server, ask: Requests)
    requires s.queue != [] && s.queue[0].ReadHandler? && s.op == SingleWorker.NoOp
    ensures var k, code := s.queue[0].round, s.queue[0].code; var after := SingleWorker.RunHandler(s);
      && after.flag
      && Bag(after, ask) == if s.flag || code == Aborted then Bag(Rest(s), ask)
           else if code != Ok then Bag(SingleWorker.CancelTimer(Rest(s)), ask)
           else Bag(SingleWorker.CancelTimer(Rest(s)), ask) + multiset{WriteOp(k, ask(k))}
  {
    var k, cancelled := s.queue[0].round, SingleWorker.CancelTimer(Rest(s));
    OpAdded(ArmedTasks(cancelled.armed), QueueTasks(cancelled.queue, ask), WriteOp(k, ask(k)));
  }

  lemma OpAdded(armed: multiset<Task>, queue: multiset<Task>, x: Task)
    ensures multiset{x} + armed + queue == multiset{} + armed + queue + multiset{x}
  {
  }

  lemma ArmedAdded(ops: multiset<Task>, queue: multiset<Task>, x: Task)
    ensures ops + multiset{x} + queue == ops + multiset{} + queue + multiset{x}
  {
  }

  lemma TimerHandlerRuns(s: SingleWorker.Server, t: State, i: nat, ask: Requests) returns (t': State)
    requires HeadAt(s, t, i, ask) && s.queue[0].TimerHandler?
    ensures Exec(t, HandlerSteps(s, i, ask)) == Some(t') && Same(SingleWorker.RunHandler(s), t', ask)
  {
    var k, failed := s.queue[0].round, s.queue[0].failed;
    if !failed && !s.flag {
      SocketHit(Rest(s), ask);
      t' := TimerCuts(t, i, k, Bag(Rest(s), ask), Bag(SingleWorker.CancelSocket(Rest(s)), ask));
    } else {
      t' := EndsAtOnce(t, i, TimerReady(k, failed), Bag(Rest(s), ask));
    }
    TimerHandlerBag(s, ask);
  }

  lemma TimerHandlerBag(s: SingleWorker.Server, ask: Requests)
    requires s.queue != [] && s.queue[0].TimerHandler?
    ensures var after := SingleWorker.RunHandler(s);
      if !s.queue[0].failed && !s.flag
      then after.flag && Bag(after, ask) == Bag(SingleWorker.CancelSocket(Rest(s)), ask)
      else after.flag == s.flag && Bag(after, ask) == Bag(Rest(s), ask)
  {
  }

  lemma WriteHandlerRuns(s: SingleWorker.Server, t: State, i: nat, ask: Requests) returns (t': State)
    requires SingleWorker.Good(s) && HeadAt(s, t, i, ask) && s.queue[0].WriteHandler?
    ensures Exec(t, HandlerSteps(s, i, ask)) == Some(t') && Same(SingleWorker.RunHandler(s), t', ask)
  {
    NoOpAtHandler(s);
    if s.queue[0].failed {
      t' := EndsAtOnce(t, i, ReadyTask(s.queue[0], ask), Bag(Rest(s), ask));
    } else {
      t' := WriteSucceeds(s, t, i, s.queue[0].round, ask);
    }
  }

  lemma WriteSucceeds(s: SingleWorker.Server, t: State, i: nat, k: nat, ask: Requests) returns (t': State)
    requires HeadAt(s, t, i, ask) && s.queue[0] == SingleWorker.WriteHandler(k, false) && s.op == SingleWorker.NoOp
    ensures Exec(t, HandlerSteps(s, i, ask)) == Some(t') && Same(SingleWorker.RunHandler(s), t', ask)
  {
    var rest := Bag(Rest(s), ask);
    var cancelled := CancelledForRead(Rest(s), k + 1, ask);
    t' := Restarts(t, i, k, ask(k), rest, cancelled);
    WriteHandlerBag(s, k, ask);
  }

  lemma Restarts(t: State, i: nat, k: nat, request: string, rest: multiset<Task>, cancelled: multiset<Task>)
    returns (t': State)
    requires At(t, i, WriteReady(k, request, false), rest)
    requires Hit(rest + multiset{ReadOp(k + 1)}, WaitCancelled, cancelled)
    ensures Exec(t, [Go(i), Go(i), Go(i), Go(i), Go(i + 1), Go(i + 1)]) == Some(t') && !t'.flag
    ensures multiset(t'.tasks) == cancelled + multiset{TimerWait(k + 1)}
  {
    var run := [Go(i), Go(i), Go(i), Go(i)];
    var t1 := Issues(t, i, k, request, rest);
    t' := Arms(t, run, t1, i + 1, k + 1, rest + multiset{ReadOp(k + 1)}, cancelled);
    assert run + [Go(i + 1), Go(i + 1)] == [Go(i), Go(i), Go(i), Go(i), Go(i + 1), Go(i + 1)];
  }

  function Reading(s: SingleWorker.Server, k: nat): SingleWorker.Server {
    s.(round := k, flag := false, op := SingleWorker.Reading(k))
  }

  /** What ReadRequest's cancelling leaves, the new read issued. */
  lemma CancelledForRead(rest: SingleWorker.Server, k: nat, ask: Requests) returns (cancelled: multiset<Task>)
    requires rest.op == SingleWorker.NoOp
    ensures cancelled == Bag(SingleWorker.CancelTimer(Reading(rest, k)), ask)
    ensures Hit(Bag(rest, ask) + multiset{ReadOp(k)}, WaitCancelled, cancelled)
  {
    cancelled := Bag(SingleWorker.CancelTimer(Reading(rest, k)), ask);
    WaitsHit(Reading(rest, k), ask);
    OpAdded(ArmedTasks(rest.armed), QueueTasks(rest.queue, ask), ReadOp(k));
  }

  /** The bag after ReadRequest: old waits cancelled and the new wait added. */
  lemma ReadRequestBag(rest: SingleWorker.Server, k: nat, ask: Requests)
    ensures Bag(SingleWorker.ReadRequest(rest, k), ask)
         == Bag(SingleWorker.CancelTimer(Reading(rest, k)), ask) + multiset{TimerWait(k)}
    ensures !SingleWorker.ReadRequest(rest, k).flag
  {
    var cancelled := SingleWorker.CancelTimer(Reading(rest, k));
    assert cancelled.armed.None?;
    ArmedAdded(OpTasks(cancelled.op, ask), QueueTasks(cancelled.queue, ask), TimerWait(k));
  }

  lemma WriteHandlerBag(s: SingleWorker.Server, k: nat, ask: Requests)
    requires s.queue != [] && s.queue[0] == SingleWorker.WriteHandler(k, false)
    ensures var after := SingleWorker.RunHandler(s);
      !after.flag
      && Bag(after, ask) == Bag(SingleWorker.CancelTimer(Reading(Rest(s), k + 1)), ask) + multiset{TimerWait(k + 1)}
  {
    ReadRequestBag(Rest(s), k + 1, ask);
  }

  // ------------------------------------------------------------ whole runs

  /** The steps that make up one event: the operating system completes an operation, or
      the handler at the head of the queue runs to its end. */
  ghost predicate Serves(s: SingleWorker.Server, e: SingleWorker.Event, t: State, block: seq<Action>, ask: Requests) {
    match e
    case OperationDone(code) =>
      exists i: nat :: i < |t.tasks| && Outstanding(t.tasks[i]) && block == [Complete(i, code)]
    case TimerExpires => exists i: nat :: i < |t.tasks| && t.tasks[i].TimerWait? && block == [Complete(i, Ok)]
    case Run => exists i: nat :: HeadAt(s, t, i, ask) && block == HandlerSteps(s, i, ask)
  }

  /** Event by event the blocks take one state to the next, and between blocks no handler
      is part-way. */
  ghost predicate Simulated(s: SingleWorker.Server, es: seq<SingleWorker.Event>, t: State, blocks: seq<seq<Action>>,
                            ask: Requests)
    decreases |es|
  {
    && Same(s, t, ask) && |blocks| == |es|
    && (es != [] ==>
          && SingleWorker.Next(s, es[0]).Some? && Serves(s, es[0], t, blocks[0], ask) && Exec(t, blocks[0]).Some?
          && Simulated(SingleWorker.Next(s, es[0]).value, es[1..], Exec(t, blocks[0]).value, blocks[1..], ask))
  }

  /** An outstanding operation completes: its task becomes its handler's. */
  lemma Completes(s: SingleWorker.Server, t: State, y: Task, a: Action, h: SingleWorker.Handler, rest: multiset<Task>,
      ask: Requests) returns (i: nat, t': State)
    requires t.flag == s.flag && multiset(t.tasks) == rest + multiset{y} && (Outstanding(y) || y.TimerWait?)
    requires a.Complete? && Matches(y, a) && Effect(y, t.flag, a).put == [ReadyTask(h, ask)]
    ensures i < |t.tasks| && t.tasks[i] == y && Exec(t, [Complete(i, a.code)]) == Some(t') && t'.flag == s.flag
    ensures multiset(t'.tasks) == rest + multiset{ReadyTask(h, ask)}
  {
    i := Occurs(t, y, rest);
    t' := GoOn(t, [], t, i, y, rest, Complete(i, a.code), ReadyTask(h, ask));
    assert [] + [Complete(i, a.code)] == [Complete(i, a.code)];
  }

  /** An operation leaves the bag and its handler joins the queue. */
  lemma Rearranged(parts: multiset<Task>, queue: seq<SingleWorker.Handler>, h: SingleWorker.Handler, ask: Requests)
    ensures parts + QueueTasks(queue + [h], ask) == parts + QueueTasks(queue, ask) + multiset{ReadyTask(h, ask)}
  {
    Enqueued(queue, h, ask);
    Sums(parts, QueueTasks(queue, ask), multiset{ReadyTask(h, ask)});
  }

  lemma OperationServed(s: SingleWorker.Server, t: State, code: Code, ask: Requests)
    returns (block: seq<Action>, t': State)
    requires Same(s, t, ask) && SingleWorker.Next(s, SingleWorker.OperationDone(code)).Some?
    ensures Serves(s, SingleWorker.OperationDone(code), t, block, ask) && Exec(t, block) == Some(t')
    ensures Same(SingleWorker.Next(s, SingleWorker.OperationDone(code)).value, t', ask)
  {
    var armed, queue := ArmedTasks(s.armed), QueueTasks(s.queue, ask);
    var i: nat;
    match s.op
    case Reading(k) =>
      var h := SingleWorker.ReadHandler(k, code);
      OpAdded(armed, queue, ReadOp(k));
      Rearranged(multiset{} + armed, s.queue, h, ask);
      i, t' := Completes(s, t, ReadOp(k), Complete(0, code), h, multiset{} + armed + queue, ask);
      block := [Complete(i, code)];
    case Writing(k) =>
      var h := SingleWorker.WriteHandler(k, code != Ok);
      OpAdded(armed, queue, WriteOp(k, ask(k)));
      Rearranged(multiset{} + armed, s.queue, h, ask);
      i, t' := Completes(s, t, WriteOp(k, ask(k)), Complete(0, code), h, multiset{} + armed + queue, ask);
      block := [Complete(i, code)];
  }

  lemma ExpiryServed(s: SingleWorker.Server, t: State, ask: Requests) returns (block: seq<Action>, t': State)
    requires Same(s, t, ask) && s.armed.Some?
    ensures Serves(s, SingleWorker.TimerExpires, t, block, ask) && Exec(t, block) == Some(t')
    ensures Same(SingleWorker.Next(s, SingleWorker.TimerExpires).value, t', ask)
  {
    var ops, queue, k := OpTasks(s.op, ask), QueueTasks(s.queue, ask), s.armed.value;
    var h := SingleWorker.TimerHandler(k, false);
    ArmedAdded(ops, queue, TimerWait(k));
    Rearranged(ops + multiset{}, s.queue, h, ask);
    var i;
    i, t' := Completes(s, t, TimerWait(k), Complete(0, Ok), h, ops + multiset{} + queue, ask);
    block := [Complete(i, Ok)];
  }

  lemma HandlerServed(s: SingleWorker.Server, t: State, ask: Requests) returns (block: seq<Action>, t': State)
    requires SingleWorker.Good(s) && Same(s, t, ask) && s.queue != []
    ensures Serves(s, SingleWorker.Run, t, block, ask) && Exec(t, block) == Some(t')
    ensures Same(SingleWorker.RunHandler(s), t', ask)
  {
    var i := HeadOccurs(s, t, ask);
    block := HandlerSteps(s, i, ask);
    match s.queue[0]
    case ReadHandler(_, _) => t' := ReadHandlerRuns(s, t, i, ask);
    case WriteHandler(_, _) => t' := WriteHandlerRuns(s, t, i, ask);
    case TimerHandler(_, _) => t' := TimerHandlerRuns(s, t, i, ask);
  }

  lemma HeadOccurs(s: SingleWorker.Server, t: State, ask: Requests) returns (i: nat)
    requires Same(s, t, ask) && s.queue != []
    ensures HeadAt(s, t, i, ask)
  {
    var h := ReadyTask(s.queue[0], ask);
    var parts := OpTasks(s.op, ask) + ArmedTasks(s.armed);
    assert parts + (multiset{h} + QueueTasks(s.queue[1..], ask)) == parts + QueueTasks(s.queue[1..], ask) + multiset{h};
    i := Occurs(t, h, Bag(Rest(s), ask));
  }

  lemma EventServed(s: SingleWorker.Server, e: SingleWorker.Event, t: State, ask: Requests)
    returns (block: seq<Action>, t': State)
    requires SingleWorker.Good(s) && Same(s, t, ask) && SingleWorker.Next(s, e).Some?
    ensures Serves(s, e, t, block, ask) && Exec(t, block) == Some(t')
    ensures Same(SingleWorker.Next(s, e).value, t', ask)
  {
    match e
    case OperationDone(code) => block, t' := OperationServed(s, t, code, ask);
    case TimerExpires => block, t' := ExpiryServed(s, t, ask);
    case Run => block, t' := HandlerServed(s, t, ask);
  }

  lemma {:induction false} EventsServed(s: SingleWorker.Server, es: seq<SingleWorker.Event>, t: State, ask: Requests)
    returns (blocks: seq<seq<Action>>)
    requires SingleWorker.Good(s) && Same(s, t, ask) && SingleWorker.After(s, es).Some?
    ensures Simulated(s, es, t, blocks, ask)
    decreases |es|
  {
    if es == [] {
      blocks := [];
    } else {
      var block, t' := EventServed(s, es[0], t, ask);
      SingleWorker.NextKeeps(s, es[0]);
      var more := EventsServed(SingleWorker.Next(s, es[0]).value, es[1..], t', ask);
      blocks := [block] + more;
      assert blocks[1..] == more;
    }
  }

  function Flat(blocks: seq<seq<Action>>): seq<Action> {
    if blocks == [] then [] else blocks[0] + Flat(blocks[1..])
  }

  lemma {:induction false} FlatRuns(s: SingleWorker.Server, es: seq<SingleWorker.Event>, t: State,
      blocks: seq<seq<Action>>, ask: Requests)
    requires Simulated(s, es, t, blocks, ask)
    ensures SingleWorker.After(s, es).Some? && Exec(t, Flat(blocks)).Some?
    ensures Same(SingleWorker.After(s, es).value, Exec(t, Flat(blocks)).value, ask)
    decreases |es|
  {
    if es != [] {
      FlatRuns(SingleWorker.Next(s, es[0]).value, es[1..], Exec(t, blocks[0]).value, blocks[1..], ask);
      ExecAppend(t, blocks[0], Flat(blocks[1..]));
    }
  }

  /** Start's own ReadRequest. */
  const OPENING: seq<Action> := [Go(0), Go(0), Go(0), Go(1), Go(1)]

  const OPENED: State := State([ReadOp(0), TimerWait(0)], false, [], [], [], [], false, 1)

  lemma Opens(ask: Requests)
    ensures Exec(START, OPENING) == Some(OPENED) && Same(SingleWorker.BEGIN, OPENED, ask)
  {
    var s1 := START.(tasks := [ClearFlag(0)]);
    var s2 := START.(tasks := [IssueRead(0)]);
    var s3 := OPENED.(tasks := [ReadOp(0), ArmExpiry(0)]);
    var s4 := OPENED.(tasks := [ReadOp(0), ArmWait(0)]);
    BecomesIsStep(START, Go(0), s1);
    BecomesIsStep(s1, Go(0), s2);
    BecomesIsStep(s2, Go(0), s3);
    BecomesIsStep(s3, Go(1), s4);
    BecomesIsStep(s4, Go(1), OPENED);
    Extend(START, [], START, Go(0), s1);
    Extend(START, [] + [Go(0)], s1, Go(0), s2);
    Extend(START, [] + [Go(0)] + [Go(0)], s2, Go(0), s3);
    Extend(START, [] + [Go(0)] + [Go(0)] + [Go(0)], s3, Go(1), s4);
    Extend(START, [] + [Go(0)] + [Go(0)] + [Go(0)] + [Go(1)], s4, Go(1), OPENED);
    assert [] + [Go(0)] + [Go(0)] + [Go(0)] + [Go(1)] + [Go(1)] == OPENING;
    OpenedBag(ask);
  }

  lemma OpenedBag(ask: Requests)
    ensures Same(SingleWorker.BEGIN, OPENED, ask)
  {
    assert QueueTasks([], ask) == multiset{};
    assert multiset([ReadOp(0), TimerWait(0)]) == multiset{ReadOp(0)} + multiset{TimerWait(0)} + multiset{};
  }

  /** Every run of the single worker is a run of the protocol, handler by handler in queue
      order, none begun before the last has ended, and ends in the same state. */
  lemma EveryRunIsARun(es: seq<SingleWorker.Event>, ask: Requests) returns (blocks: seq<seq<Action>>)
    requires SingleWorker.After(SingleWorker.BEGIN, es).Some?
    ensures Exec(START, OPENING) == Some(OPENED) && Simulated(SingleWorker.BEGIN, es, OPENED, blocks, ask)
    ensures Exec(START, OPENING + Flat(blocks)).Some?
    ensures Same(SingleWorker.After(SingleWorker.BEGIN, es).value, Exec(START, OPENING + Flat(blocks)).value, ask)
  {
    Opens(ask);
    assert SingleWorker.Good(SingleWorker.BEGIN);
    blocks := EventsServed(SingleWorker.BEGIN, es, OPENED, ask);
    FlatRuns(SingleWorker.BEGIN, es, OPENED, blocks, ask);
    ExecAppend(START, OPENING, Flat(blocks));
  }

  /** So on that schedule a timer's handler that passes its test finds no write outstanding
      and no read but its own round's. */
  lemma TimersCutOwnRead(es: seq<SingleWorker.Event>, t: State, i: nat, ask: Requests)
    requires SingleWorker.After(SingleWorker.BEGIN, es).Some?
    requires var s := SingleWorker.After(SingleWorker.BEGIN, es).value;
      Same(s, t, ask) && HeadAt(s, t, i, ask) && t.tasks[i].TimerReady? && !t.tasks[i].failed && !t.flag
    ensures forall u :: u in t.tasks ==> !u.WriteOp? && (u.ReadOp? ==> u.round == t.tasks[i].round)
  {
    var s := SingleWorker.After(SingleWorker.BEGIN, es).value;
    OwnReadOnly(es);
    OpsInBag(s, t, ask);
  }

  lemma OwnReadOnly(es: seq<SingleWorker.Event>)
    requires SingleWorker.After(SingleWorker.BEGIN, es).Some?
    ensures var s := SingleWorker.After(SingleWorker.BEGIN, es).value;
      s.queue != [] && s.queue[0].TimerHandler? && !s.queue[0].failed && !s.flag ==>
        !s.op.Writing? && (s.op.Reading? ==> s.op.round == s.queue[0].round)
  {
    SingleWorker.GoodAfter(SingleWorker.BEGIN, es);
  }

  lemma InBag(s: SingleWorker.Server, ask: Requests, u: Task)
    requires u in Bag(s, ask)
    ensures u in OpTasks(s.op, ask) || u in ArmedTasks(s.armed) || u in QueueTasks(s.queue, ask)
  {
  }

  lemma OpInBag(s: SingleWorker.Server, ask: Requests, u: Task)
    requires u in Bag(s, ask) && (u.ReadOp? || u.WriteOp?)
    ensures if u.ReadOp? then s.op == SingleWorker.Reading(u.round) else s.op == SingleWorker.Writing(u.round)
  {
    InBag(s, ask, u);
    QueueIsReady(s.queue, ask);
  }

  lemma OpsInBag(s: SingleWorker.Server, t: State, ask: Requests)
    requires Same(s, t, ask)
    ensures forall u :: u in t.tasks && u.ReadOp? ==> s.op == SingleWorker.Reading(u.round)
    ensures forall u :: u in t.tasks && u.WriteOp? ==> s.op == SingleWorker.Writing(u.round)
  {
    forall u | u in t.tasks && (u.ReadOp? || u.WriteOp?)
      ensures if u.ReadOp? then s.op == SingleWorker.Reading(u.round) else s.op == SingleWorker.Writing(u.round)
    {
      assert u in multiset(t.tasks);
      OpInBag(s, ask, u);
    }
  }
}
