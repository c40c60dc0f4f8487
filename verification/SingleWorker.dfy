/** One connection on a single worker: completions queue up and their handlers run
    one after another, each to its end. Then a round has exactly one outcome and a
    timer only ever acts on its own round. */
module SingleWorker {
  import opened Prelude
  import opened ConnectionProtocol

  datatype Op = NoOp | Reading(round: nat) | Writing(round: nat)

  datatype Handler =
    | ReadHandler(round: nat, code: Code)
    | WriteHandler(round: nat, failed: bool)
    | TimerHandler(round: nat, failed: bool)

  datatype Outcome = Processed | TimedOut | Failed

  datatype Ending = Ending(round: nat, outcome: Outcome)

  /** A timer handler that found the flag clear: its round, and the round it hit. */
  datatype Cut = Cut(timer: nat, read: nat)

  datatype Server = Server(round: nat, flag: bool, op: Op, armed: Option<nat>, queue: seq<Handler>,
                           endings: seq<Ending>, cuts: seq<Cut>)

  const BEGIN: Server := Server(0, false, Reading(0), Some(0), [], [], [])

  // ------------------------------------------------------------------ steps

  /** timer.cancel(): a pending wait completes with an error. */
  function CancelTimer(s: Server): Server {
    match s.armed case None => s case Some(k) => s.(armed := None, queue := s.queue + [TimerHandler(k, true)])
  }

  /** socket.cancel(): the outstanding operation completes as aborted. */
  function CancelSocket(s: Server): Server {
    match s.op
    case NoOp => s
    case Reading(k) => s.(op := NoOp, queue := s.queue + [ReadHandler(k, Aborted)])
    case Writing(k) => s.(op := NoOp, queue := s.queue + [WriteHandler(k, true)])
  }

  /** ReadRequest: clear the flag, start reading, re-arm the timer. */
  function ReadRequest(s: Server, k: nat): Server {
    CancelTimer(s.(round := k, flag := false, op := Reading(k))).(armed := Some(k))
  }

  /** The handler at the head of the queue, run to its end. */
  function RunHandler(s: Server): Server
    requires s.queue != []
  {
    var rest := s.(queue := s.queue[1..]);
    match s.queue[0]
    case ReadHandler(k, code) =>
      var tested := rest.(flag := true);
      if s.flag then tested.(endings := s.endings + [Ending(k, TimedOut)])
      else if code == Aborted then tested.(endings := s.endings + [Ending(k, Failed)])
      else if code != Ok then CancelTimer(tested.(endings := s.endings + [Ending(k, Failed)]))
      else CancelTimer(tested).(op := Writing(k), endings := s.endings + [Ending(k, Processed)])
    case WriteHandler(k, failed) => if failed then rest else ReadRequest(rest, k + 1)
    case TimerHandler(k, failed) =>
      if !failed && !s.flag then CancelSocket(rest).(flag := true, cuts := s.cuts + [Cut(k, s.round)]) else rest
  }

  /** The operating system completes the outstanding operation or lets the timer expire,
      or the worker runs the next handler. */
  datatype Event = OperationDone(code: Code) | TimerExpires | Run

  function Next(s: Server, e: Event): Option<Server> {
    match e
    case OperationDone(code) =>
      if code == Aborted then None
      else (match s.op
        case NoOp => None
        case Reading(k) => Some(s.(op := NoOp, queue := s.queue + [ReadHandler(k, code)]))
        case Writing(k) => Some(s.(op := NoOp, queue := s.queue + [WriteHandler(k, code != Ok)])))
    case TimerExpires =>
      (match s.armed
       case None => None
       case Some(k) => Some(s.(armed := None, queue := s.queue + [TimerHandler(k, false)])))
    case Run => if s.queue == [] then None else Some(RunHandler(s))
  }

  function After(s: Server, es: seq<Event>): Option<Server>
    decreases |es|
  {
    if es == [] then Some(s)
    else match Next(s, es[0]) case None => None case Some(s') => After(s', es[1..])
  }

  // ------------------------------------------------------- where a round can be

  /** The read is going on; its timer is armed or has expired unheard. */
  predicate IsReading(s: Server) {
    var k := s.round;
    !s.flag &&
    ((s.op == Reading(k) && s.armed == Some(k) && s.queue == [])
     || (s.op == Reading(k) && s.armed == None && s.queue == [TimerHandler(k, false)])
     || (s.op == NoOp && s.armed == Some(k) && |s.queue| == 1 && OwnRead(s.queue[0], k) && s.queue[0].code != Aborted)
     || (s.op == NoOp && s.armed == None && |s.queue| == 2 && OwnRead(s.queue[0], k) && s.queue[0].code != Aborted
         && s.queue[1] == TimerHandler(k, false))
     || (s.op == NoOp && s.armed == None && |s.queue| == 2 && s.queue[0] == TimerHandler(k, false)
         && OwnRead(s.queue[1], k) && s.queue[1].code != Aborted))
  }

  predicate OwnRead(h: Handler, k: nat) { h.ReadHandler? && h.round == k }
  predicate OwnTimer(h: Handler, k: nat) { h.TimerHandler? && h.round == k }
  predicate OwnWrite(h: Handler, k: nat) { h.WriteHandler? && h.round == k }

  /** The timer cut the round; the read handler has yet to notice. */
  predicate IsCut(s: Server) {
    s.flag && s.op == NoOp && s.armed == None && |s.queue| == 1 && OwnRead(s.queue[0], s.round)
  }

  /** The response is being written; the old timer's handler may still be queued, always
      ahead of the write's. */
  predicate IsWriting(s: Server) {
    s.flag && s.armed == None &&
    ((s.op == Writing(s.round) && |s.queue| <= 1 && (|s.queue| == 1 ==> OwnTimer(s.queue[0], s.round)))
     || (s.op == NoOp && |s.queue| == 1 && OwnWrite(s.queue[0], s.round))
     || (s.op == NoOp && |s.queue| == 2 && OwnTimer(s.queue[0], s.round) && OwnWrite(s.queue[1], s.round)))
  }

  predicate IsOver(s: Server) {
    s.flag && s.op == NoOp && s.armed == None && |s.queue| <= 1 && (|s.queue| == 1 ==> OwnTimer(s.queue[0], s.round))
  }

  function LastOutcome(s: Server): Option<Outcome> {
    if |s.endings| == s.round + 1 then Some(s.endings[s.round].outcome) else None
  }

  ghost predicate Phase(s: Server) {
    || (IsReading(s) && |s.endings| == s.round && !WasCut(s, s.round))
    || (IsCut(s) && |s.endings| == s.round && WasCut(s, s.round))
    || (IsWriting(s) && LastOutcome(s) == Some(Processed))
    || (IsOver(s) && LastOutcome(s).Some?)
  }

  ghost predicate WasCut(s: Server, k: nat) { Cut(k, k) in s.cuts }

  ghost predicate Good(s: Server) {
    && Phase(s)
    && (forall i :: 0 <= i < |s.endings| ==> s.endings[i].round == i)
    && (forall i :: 0 <= i < |s.endings| ==> (s.endings[i].outcome == TimedOut <==> WasCut(s, i)))
    && (forall i :: 0 <= i < |s.endings| && i < s.round ==> s.endings[i].outcome == Processed)
    && (forall c :: c in s.cuts ==> c.timer == c.read <= s.round)
  }

  // ------------------------------------------------------------- preservation

  lemma OperationDoneKeeps(s: Server, code: Code)
    requires Good(s) && Next(s, OperationDone(code)).Some?
    ensures Good(Next(s, OperationDone(code)).value)
  {
  }

  lemma TimerExpiresKeeps(s: Server)
    requires Good(s) && Next(s, TimerExpires).Some?
    ensures Good(Next(s, TimerExpires).value)
  {
  }

  lemma ReadHandlerKeeps(s: Server)
    requires Good(s) && s.queue != [] && s.queue[0].ReadHandler?
    ensures Good(RunHandler(s))
  {
    var k := s.queue[0].round;
    assert k == s.round && |s.endings| == k;
    var t := RunHandler(s);
    assert t.cuts == s.cuts && t.round == s.round;
    assert |t.endings| == k + 1 && t.endings[..k] == s.endings;
    assert forall i :: 0 <= i < k ==> t.endings[i] == s.endings[i];
  }

  lemma WriteHandlerKeeps(s: Server)
    requires Good(s) && s.queue != [] && s.queue[0].WriteHandler?
    ensures Good(RunHandler(s))
  {
    assert IsWriting(s) && s.queue == [s.queue[0]];
    assert s.queue[1..] == [];
  }

  lemma TimerHandlerKeeps(s: Server)
    requires Good(s) && s.queue != [] && s.queue[0].TimerHandler?
    ensures Good(RunHandler(s))
  {
    var t := RunHandler(s);
    assert forall c :: c in s.cuts ==> c in t.cuts;
    assert forall c :: c in t.cuts ==> c in s.cuts || c == Cut(s.queue[0].round, s.round);
  }

  lemma NextKeeps(s: Server, e: Event)
    requires Good(s) && Next(s, e).Some?
    ensures Good(Next(s, e).value)
  {
    match e
    case OperationDone(code) => OperationDoneKeeps(s, code);
    case TimerExpires => TimerExpiresKeeps(s);
    case Run =>
      match s.queue[0]
      case ReadHandler(_, _) => ReadHandlerKeeps(s);
      case WriteHandler(_, _) => WriteHandlerKeeps(s);
      case TimerHandler(_, _) => TimerHandlerKeeps(s);
  }

  lemma {:induction false} GoodAfter(s: Server, es: seq<Event>)
    requires Good(s) && After(s, es).Some?
    ensures Good(After(s, es).value)
    decreases |es|
  {
    if es != [] {
      NextKeeps(s, es[0]);
      GoodAfter(Next(s, es[0]).value, es[1..]);
    }
  }

  // ------------------------------------------------------------ main results

  /** Whatever the order of completions, round i has the i-th and only ending; it is
      "timed out" exactly when its own timer cut it, and only the last round can be
      anything but processed. */
  lemma OneEndingPerRound(es: seq<Event>)
    requires After(BEGIN, es).Some?
    ensures var s := After(BEGIN, es).value;
      && |s.endings| <= s.round + 1 && s.round <= |s.endings|
      && (forall i :: 0 <= i < |s.endings| ==> s.endings[i].round == i)
      && (forall i :: 0 <= i < |s.endings| ==> (s.endings[i].outcome == TimedOut <==> WasCut(s, i)))
      && (forall i :: 0 <= i < |s.endings| && i < s.round ==> s.endings[i].outcome == Processed)
  {
    GoodAfter(BEGIN, es);
  }

  /** The timer of one round never cuts another: a timer handler that acts finds its own
      round's read, and never an outstanding write. */
  lemma TimerCutsOwnRound(es: seq<Event>)
    requires After(BEGIN, es).Some?
    ensures var s := After(BEGIN, es).value;
      && (forall c :: c in s.cuts ==> c.timer == c.read)
      && (s.queue != [] && s.queue[0].TimerHandler? && !s.queue[0].failed && !s.flag ==>
            s.queue[0].round == s.round && !s.op.Writing?)
  {
    GoodAfter(BEGIN, es);
  }
}
