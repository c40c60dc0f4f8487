/** Server::Start: workers spin on a flag captured by reference until the property map
    is complete, and Start waits for all of them before its locals go away. */
module StartBarrier {
  import opened Prelude

  /** A worker spins on `start`, has seen it set, or is past its counter increment and
      inside the event loop; it reads the map only there. */
  datatype Worker = Spinning | SawStart | InLoop

  /** Where Start is: creating worker `i` (thread not yet made, made, entry inserted),
      about to set the flag, waiting for the counter, or gone with its locals. */
  datatype Main = Spawn(i: nat) | Insert(i: nat) | Push(i: nat) | SetStart | Waiting | Returned

  /** `count` is the threads' capacity; `threads` how many were pushed; `props` the workers
      with an entry; `mapWrites` how often Start wrote the map. */
  datatype State = State(count: nat, main: Main, workers: seq<Worker>, threads: nat, props: set<nat>, start: bool,
                         execs: nat, mapWrites: nat)

  /** capacity() after reserve(max(1, threads_count)). */
  function Begin(threadsCount: nat): State {
    var n := if threadsCount > 1 then threadsCount else 1;
    State(n, Spawn(0), [], 0, {}, false, 0, 0)
  }

  datatype Action = MainStep | WorkerStep(w: nat)

  function StepMain(s: State): State {
    match s.main
    case Spawn(i) =>
      if i < s.count then s.(main := Insert(i), workers := s.workers + [Spinning]) else s.(main := SetStart)
    case Insert(i) => s.(main := Push(i), props := s.props + {i}, mapWrites := s.mapWrites + 1)
    case Push(i) => s.(main := Spawn(i + 1), threads := s.threads + 1)
    case SetStart => s.(main := Waiting, start := true)
    case Waiting => if s.execs == s.threads then s.(main := Returned) else s
    case Returned => s
  }

  function StepWorker(s: State, w: nat): State
    requires w < |s.workers|
  {
    match s.workers[w]
    case Spinning => if s.start then s.(workers := s.workers[w := SawStart]) else s
    case SawStart => s.(workers := s.workers[w := InLoop], execs := s.execs + 1)
    case InLoop => s
  }

  function Step(s: State, a: Action): State {
    match a
    case MainStep => StepMain(s)
    case WorkerStep(w) => if w < |s.workers| then StepWorker(s, w) else s
  }

  function Run(s: State, acts: seq<Action>): State {
    if acts == [] then s else Step(Run(s, acts[..|acts| - 1]), acts[|acts| - 1])
  }

  // ------------------------------------------------------------- invariant

  function InTheLoop(w: Worker): int { if w.InLoop? then 1 else 0 }

  function UpTo(n: nat): (r: set<nat>)
    ensures forall w: nat :: w in r <==> w < n
  {
    if n == 0 then {} else UpTo(n - 1) + {n - 1}
  }

  /** How many workers Start has created and how far the current one is registered. */
  predicate Progressed(s: State) {
    match s.main
    case Spawn(i) => i <= s.count && |s.workers| == i && s.threads == i && s.props == UpTo(i)
    case Insert(i) => i < s.count && |s.workers| == i + 1 && s.threads == i && s.props == UpTo(i)
    case Push(i) => i < s.count && |s.workers| == i + 1 && s.threads == i && s.props == UpTo(i + 1)
    case _ => |s.workers| == s.count && s.threads == s.count && s.props == UpTo(s.count)
  }

  ghost predicate Inv(s: State) {
    && s.count >= 1 && Progressed(s)
    && (s.start <==> s.main.Waiting? || s.main.Returned?)
    && (!s.start ==> forall w :: 0 <= w < |s.workers| ==> s.workers[w].Spinning?)
    && s.execs == Sum(s.workers, InTheLoop)
    && (s.main.Returned? ==> s.execs == s.count)
    && s.mapWrites == |s.props|
  }

  lemma {:induction false} SumBound(ws: seq<Worker>)
    ensures 0 <= Sum(ws, InTheLoop) <= |ws|
    ensures Sum(ws, InTheLoop) == |ws| ==> forall w :: 0 <= w < |ws| ==> ws[w].InLoop?
  {
    if ws != [] {
      SumBound(ws[1..]);
      if Sum(ws, InTheLoop) == |ws| {
        forall w | 0 <= w < |ws| ensures ws[w].InLoop? {
          if w > 0 { assert ws[w] == ws[1..][w - 1]; }
        }
      }
    }
  }

  lemma SumUpdated(ws: seq<Worker>, w: nat, v: Worker)
    requires w < |ws|
    ensures Sum(ws[w := v], InTheLoop) == Sum(ws, InTheLoop) - InTheLoop(ws[w]) + InTheLoop(v)
  {
    var a, b := ws[..w], ws[w + 1..];
    assert ws == a + ([ws[w]] + b) && ws[w := v] == a + ([v] + b);
    SumAppend(a, [ws[w]] + b, InTheLoop);
    SumAppend([ws[w]], b, InTheLoop);
    SumAppend(a, [v] + b, InTheLoop);
    SumAppend([v], b, InTheLoop);
    assert Sum([ws[w]], InTheLoop) == InTheLoop(ws[w]) && Sum([v], InTheLoop) == InTheLoop(v);
  }

  lemma SpawnKeeps(s: State)
    requires Inv(s) && s.main.Spawn?
    ensures Inv(StepMain(s))
  {
    SumAppend(s.workers, [Spinning], InTheLoop);
    assert Sum([Spinning], InTheLoop) == 0;
  }

  lemma InsertKeeps(s: State)
    requires Inv(s) && s.main.Insert?
    ensures Inv(StepMain(s))
  {
    var i := s.main.i;
    assert UpTo(i + 1) == UpTo(i) + {i};
    assert i !in s.props;
  }

  lemma MainKeeps(s: State)
    requires Inv(s)
    ensures Inv(StepMain(s))
  {
    match s.main
    case Spawn(_) => SpawnKeeps(s);
    case Insert(_) => InsertKeeps(s);
    case _ =>
  }

  lemma WorkerKeeps(s: State, w: nat)
    requires Inv(s) && w < |s.workers|
    ensures Inv(StepWorker(s, w))
  {
    var t := StepWorker(s, w);
    if t != s {
      SumUpdated(s.workers, w, t.workers[w]);
      SumBound(s.workers);
      SumBound(t.workers);
    }
  }

  lemma {:induction false} InvOverRun(n: nat, acts: seq<Action>)
    ensures Inv(Run(Begin(n), acts)) && Run(Begin(n), acts).count == Begin(n).count
  {
    if acts == [] {
    } else {
      var before := Run(Begin(n), acts[..|acts| - 1]);
      InvOverRun(n, acts[..|acts| - 1]);
      match acts[|acts| - 1]
      case MainStep => MainKeeps(before);
      case WorkerStep(w) => if w < |before.workers| { WorkerKeeps(before, w); }
    }
  }

  // ------------------------------------------------------------ main results

  /** The number of workers asked for, but at least one. */
  lemma {:induction false} Workers(n: nat, acts: seq<Action>)
    ensures Run(Begin(n), acts).count == (if n > 1 then n else 1)
  {
    InvOverRun(n, acts);
  }

  /** A worker in the event loop finds an entry for every worker, itself included, so its
      lookups never insert. */
  lemma LoopSeesWholeMap(n: nat, acts: seq<Action>, w: nat)
    requires w < |Run(Begin(n), acts).workers| && !Run(Begin(n), acts).workers[w].Spinning?
    ensures var s, count := Run(Begin(n), acts), if n > 1 then n else 1;
      |s.workers| == count && forall v: nat :: v < count <==> v in s.props
  {
    InvOverRun(n, acts);
    Workers(n, acts);
  }

  lemma {:induction false} RunAppend(s: State, a: seq<Action>, b: seq<Action>)
    ensures Run(s, a + b) == Run(Run(s, a), b)
    decreases |b|
  {
    if b == [] {
      assert a + b == a;
    } else {
      assert (a + b)[..|a + b| - 1] == a + b[..|b| - 1];
      RunAppend(s, a, b[..|b| - 1]);
    }
  }

  /** From the moment some worker leaves the spin loop, Start never writes the map again. */
  lemma {:induction false} NoWriteAfterStart(n: nat, before: seq<Action>, after: seq<Action>, w: nat)
    requires w < |Run(Begin(n), before).workers| && !Run(Begin(n), before).workers[w].Spinning?
    ensures Run(Begin(n), before + after).mapWrites == Run(Begin(n), before).mapWrites
    ensures Run(Begin(n), before + after).props == Run(Begin(n), before).props
  {
    InvOverRun(n, before);
    RunAppend(Begin(n), before, after);
    StartedStaysStarted(Run(Begin(n), before), after);
  }

  lemma {:induction false} StartedStaysStarted(s: State, acts: seq<Action>)
    requires s.main.Waiting? || s.main.Returned?
    ensures var t := Run(s, acts);
      (t.main.Waiting? || t.main.Returned?) && t.mapWrites == s.mapWrites && t.props == s.props
  {
    if acts != [] {
      StartedStaysStarted(s, acts[..|acts| - 1]);
    }
  }

  /** When Start has returned, every worker is past its last access to the flag and the
      counter that lived on Start's stack. */
  lemma ReturnsAfterLastAccess(n: nat, acts: seq<Action>, w: nat)
    requires Run(Begin(n), acts).main.Returned? && w < |Run(Begin(n), acts).workers|
    ensures Run(Begin(n), acts).workers[w].InLoop?
  {
    InvOverRun(n, acts);
    SumBound(Run(Begin(n), acts).workers);
  }

  // ---------------------------------------------------------- and it gets there

  /** Steps left, spinning not counted. */
  function Left(s: State): int {
    var workers := 2 * s.count - Sum(s.workers, Done);
    match s.main
    case Spawn(i) => workers + 3 * (s.count - i) + 3
    case Insert(i) => workers + 3 * (s.count - i) + 2
    case Push(i) => workers + 3 * (s.count - i) + 1
    case SetStart => workers + 2
    case Waiting => workers + 1
    case Returned => workers
  }

  function Done(w: Worker): int { match w case Spinning => 0 case SawStart => 1 case InLoop => 2 }

  lemma DoneUpdated(ws: seq<Worker>, w: nat, v: Worker)
    requires w < |ws|
    ensures Sum(ws[w := v], Done) == Sum(ws, Done) - Done(ws[w]) + Done(v)
  {
    var a, b := ws[..w], ws[w + 1..];
    assert ws == a + ([ws[w]] + b) && ws[w := v] == a + ([v] + b);
    SumAppend(a, [ws[w]] + b, Done);
    SumAppend([ws[w]], b, Done);
    SumAppend(a, [v] + b, Done);
    SumAppend([v], b, Done);
    assert Sum([ws[w]], Done) == Done(ws[w]) && Sum([v], Done) == Done(v);
  }

  /** The barrier cannot lock up: until Start has returned, some step is not mere spinning. */
  lemma NeverStuck(n: nat, acts: seq<Action>) returns (a: Action)
    ensures var s := Run(Begin(n), acts); !s.main.Returned? ==> Step(s, a) != s
  {
    var s := Run(Begin(n), acts);
    InvOverRun(n, acts);
    a := MainStep;
    if s.main.Waiting? && s.execs != s.threads {
      SumBound(s.workers);
      var w := FirstOutside(s.workers);
      a := WorkerStep(w);
      assert Step(s, a).workers[w] != s.workers[w];
    }
  }

  lemma {:induction false} FirstOutside(ws: seq<Worker>) returns (w: nat)
    requires Sum(ws, InTheLoop) != |ws|
    ensures w < |ws| && !ws[w].InLoop?
  {
    if ws[0].InLoop? {
      var v := FirstOutside(ws[1..]);
      w := v + 1;
    } else {
      w := 0;
    }
  }

  /** Every step that is not mere spinning brings the end nearer by one. */
  lemma StepsRunOut(s: State, a: Action)
    requires Inv(s) && Step(s, a) != s
    ensures Left(Step(s, a)) == Left(s) - 1
  {
    match a
    case MainStep =>
      if s.main.Spawn? && s.main.i < s.count {
        SumAppend(s.workers, [Spinning], Done);
        assert Sum([Spinning], Done) == 0;
      }
    case WorkerStep(w) => DoneUpdated(s.workers, w, Step(s, a).workers[w]);
  }

  lemma {:induction false} DoneBound(ws: seq<Worker>)
    ensures 0 <= Sum(ws, Done) <= 2 * |ws|
    ensures Sum(ws, Done) == 2 * |ws| <==> forall w :: 0 <= w < |ws| ==> ws[w].InLoop?
  {
    if ws != [] {
      DoneBound(ws[1..]);
      assert forall w :: 1 <= w < |ws| ==> ws[w] == ws[1..][w - 1];
      assert (forall w :: 0 <= w < |ws[1..]| ==> ws[1..][w].InLoop?) <==>
             (forall w :: 1 <= w < |ws| ==> ws[w].InLoop?);
    }
  }

  /** How many actions of a run changed the state. */
  function Changes(s: State, acts: seq<Action>): nat {
    if acts == [] then 0 else
      var before := Run(s, acts[..|acts| - 1]);
      Changes(s, acts[..|acts| - 1]) + (if Step(before, acts[|acts| - 1]) != before then 1 else 0)
  }

  lemma {:induction false} ChangesCounted(n: nat, acts: seq<Action>)
    ensures Changes(Begin(n), acts) + Left(Run(Begin(n), acts)) == Left(Begin(n))
  {
    if acts != [] {
      var before := Run(Begin(n), acts[..|acts| - 1]);
      ChangesCounted(n, acts[..|acts| - 1]);
      InvOverRun(n, acts[..|acts| - 1]);
      if Step(before, acts[|acts| - 1]) != before {
        StepsRunOut(before, acts[|acts| - 1]);
      }
    }
  }

  lemma NothingLeft(s: State)
    requires Inv(s)
    ensures Left(s) >= 0
    ensures Left(s) == 0 <==> s.main.Returned? && forall w :: 0 <= w < |s.workers| ==> s.workers[w].InLoop?
  {
    DoneBound(s.workers);
  }

  /** Whatever the schedule, a start-up takes at most 5 * count + 3 steps that are not mere
      spinning, and that many exactly when Start has returned with every worker in its loop. */
  lemma BoundedSteps(n: nat, acts: seq<Action>)
    ensures var s, count := Run(Begin(n), acts), if n > 1 then n else 1;
      && Changes(Begin(n), acts) <= 5 * count + 3
      && (Changes(Begin(n), acts) == 5 * count + 3 <==>
            s.main.Returned? && |s.workers| == count && forall w :: 0 <= w < |s.workers| ==> s.workers[w].InLoop?)
  {
    ChangesCounted(n, acts);
    InvOverRun(n, acts);
    Workers(n, acts);
    NothingLeft(Run(Begin(n), acts));
  }

  lemma {:induction false} OneMore(s: State, acts: seq<Action>, a: Action)
    ensures Run(s, acts + [a]) == Step(Run(s, acts), a)
  {
    assert (acts + [a])[..|acts + [a]| - 1] == acts;
  }

  lemma {:induction false} OneStepOn(n: nat, acts: seq<Action>) returns (a: Action)
    requires !Run(Begin(n), acts).main.Returned?
    ensures 0 <= Left(Run(Begin(n), acts + [a])) < Left(Run(Begin(n), acts))
  {
    a := NeverStuck(n, acts);
    InvOverRun(n, acts);
    InvOverRun(n, acts + [a]);
    StepsRunOut(Run(Begin(n), acts), a);
    OneMore(Begin(n), acts, a);
    NothingLeft(Run(Begin(n), acts + [a]));
  }

  /** From wherever a start-up has got to, some schedule brings it to its end. */
  lemma {:induction false} Finishes(n: nat, acts: seq<Action>) returns (more: seq<Action>)
    ensures Run(Begin(n), acts + more).main.Returned?
    decreases Left(Run(Begin(n), acts))
  {
    if Run(Begin(n), acts).main.Returned? {
      more := [];
      assert acts + [] == acts;
    } else {
      var a := OneStepOn(n, acts);
      var rest := Finishes(n, acts + [a]);
      more := [a] + rest;
      Assoc(acts, [a], rest);
    }
  }
}
