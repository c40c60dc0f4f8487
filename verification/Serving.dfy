/** What a connection can do from its start: serve any requests one after another, cut off a
    client that sends nothing, and what each reading comes to. */
module Serving {
  import opened Prelude
  import opened ConnectionProtocol
  import opened StaleTimers

  lemma Goes(s: State, s1: State, a: Action, s2: State)
    requires Leads(s, s1) && Becomes(s1, a, s2)
    ensures Leads(s, s2)
  {
    BecomesIsStep(s1, a, s2);
    LeadsStep(s, s1, a, s2);
  }

  /** Of two tasks one becomes another; nothing else changes but the flag. */
  lemma {:induction false} Turns(s: State, s1: State, j: nat, a: Action, y: Task)
    requires Leads(s, s1) && |s1.tasks| == 2 && j < 2 && a.index == j && Matches(s1.tasks[j], a)
    requires Effect(s1.tasks[j], s1.flag, a) == To([y], Effect(s1.tasks[j], s1.flag, a).flag)
    ensures Leads(s, s1.(tasks := if j == 0 then [y, s1.tasks[1]] else [s1.tasks[0], y],
                         flag := Effect(s1.tasks[j], s1.flag, a).flag))
  {
    Goes(s, s1, a, s1.(tasks := if j == 0 then [y, s1.tasks[1]] else [s1.tasks[0], y],
                       flag := Effect(s1.tasks[j], s1.flag, a).flag));
  }

  // ------------------------------------------------------------ one round

  lemma {:induction false} Issues(s: State, k: nat)
    requires s.tasks == [BeginRead(k)]
    ensures Leads(s, s.(tasks := [ReadOp(k), ArmExpiry(k)], flag := false, started := s.started + 1))
  {
    LeadsNowhere(s);
    var cleared := s.(tasks := [IssueRead(k)], flag := false);
    Goes(s, s, Go(0), s.(tasks := [ClearFlag(k)]));
    Goes(s, s.(tasks := [ClearFlag(k)]), Go(0), cleared);
    Issued(s, cleared, k);
  }

  lemma {:induction false} Issued(s: State, s1: State, k: nat)
    requires Leads(s, s1) && s1.tasks == [IssueRead(k)]
    ensures Leads(s, s1.(tasks := [ReadOp(k), ArmExpiry(k)], started := s1.started + 1))
  {
    Goes(s, s1, Go(0), s1.(tasks := [ReadOp(k), ArmExpiry(k)], started := s1.started + 1));
  }

  lemma {:induction false} Rearmed(s: State, s1: State, k: nat)
    requires Leads(s, s1) && s1.tasks == [ReadOp(k), ArmExpiry(k)]
    ensures Leads(s, s1.(tasks := [ReadOp(k), ArmWait(k)]))
  {
    Goes(s, s1, Go(1), s1.(tasks := [ReadOp(k), ArmWait(k)]));
  }

  /** ReadRequest to its end: the read is issued and the timer armed. */
  lemma {:induction false} Listens(s: State, k: nat)
    requires s.tasks == [BeginRead(k)]
    ensures Leads(s, s.(tasks := [ReadOp(k), TimerWait(k)], flag := false, started := s.started + 1))
  {
    var on := s.(tasks := [ReadOp(k), ArmExpiry(k)], flag := false, started := s.started + 1);
    Issues(s, k);
    Rearmed(s, on, k);
    Turns(s, on.(tasks := [ReadOp(k), ArmWait(k)]), 1, Go(1), TimerWait(k));
  }

  lemma {:induction false} TimerStopped(s: State, s1: State, k: nat)
    requires Leads(s, s1) && s1.tasks == [ReadTested(k, Ok, false), TimerWait(k)]
    ensures Leads(s, s1.(tasks := [Extract(k), TimerReady(k, true)]))
  {
    assert Cancelled(s1.tasks, Waits) == [ReadTested(k, Ok, false), TimerReady(k, true)];
    Goes(s, s1, Go(0), s1.(tasks := [Extract(k), TimerReady(k, true)]));
  }

  lemma {:induction false} Extracted(s: State, s1: State, k: nat, request: string)
    requires Leads(s, s1) && s1.tasks == [Extract(k), TimerReady(k, true)]
    ensures Leads(s, s1.(tasks := [Process(k, request), TimerReady(k, true)], accepted := s1.accepted + [request]))
  {
    Goes(s, s1, Take(0, request),
      s1.(tasks := [Process(k, request), TimerReady(k, true)], accepted := s1.accepted + [request]));
  }

  /** The request comes in time: it is taken, its timer cancelled. */
  lemma {:induction false} Takes(s: State, k: nat, request: string)
    requires s.tasks == [ReadOp(k), TimerWait(k)] && !s.flag
    ensures Leads(s, s.(tasks := [Process(k, request), TimerReady(k, true)], flag := true,
                        accepted := s.accepted + [request]))
  {
    LeadsNowhere(s);
    Turns(s, s, 0, Complete(0, Ok), ReadReady(k, Ok));
    Turns(s, s.(tasks := [ReadReady(k, Ok), TimerWait(k)]), 0, Go(0), ReadTested(k, Ok, false));
    TimerStopped(s, s.(tasks := [ReadTested(k, Ok, false), TimerWait(k)], flag := true), k);
    Extracted(s, s.(tasks := [Extract(k), TimerReady(k, true)], flag := true), k, request);
  }

  lemma {:induction false} WriteIssued(s: State, s1: State, k: nat, request: string)
    requires Leads(s, s1) && s1.tasks == [Process(k, request), TimerReady(k, true)]
    ensures Leads(s, s1.(tasks := [WriteOp(k, request), TimerReady(k, true)], answered := s1.answered + [request],
                         started := s1.started + 1))
  {
    Goes(s, s1, Go(0), s1.(tasks := [WriteOp(k, request), TimerReady(k, true)],
      answered := s1.answered + [request], started := s1.started + 1));
  }

  lemma {:induction false} TimerGone(s: State, s1: State, k: nat, x: Task)
    requires Leads(s, s1) && s1.tasks == [x, TimerReady(k, true)]
    ensures Leads(s, s1.(tasks := [x]))
  {
    Goes(s, s1, Go(1), s1.(tasks := [x]));
  }

  lemma {:induction false} Delivers(s: State, s1: State, k: nat, request: string)
    requires Leads(s, s1) && s1.tasks == [WriteReady(k, request, false)]
    ensures Leads(s, s1.(tasks := [BeginRead(k + 1)], delivered := s1.delivered + [request]))
  {
    Goes(s, s1, Go(0), s1.(tasks := [BeginRead(k + 1)], delivered := s1.delivered + [request]));
  }

  /** Its response is written, and the next round begins. */
  lemma {:induction false} Responds(s: State, k: nat, request: string)
    requires s.tasks == [Process(k, request), TimerReady(k, true)]
    ensures Leads(s, s.(tasks := [BeginRead(k + 1)], answered := s.answered + [request],
                        delivered := s.delivered + [request], started := s.started + 1))
  {
    LeadsNowhere(s);
    var out := s.(answered := s.answered + [request], started := s.started + 1);
    WriteIssued(s, s, k, request);
    Turns(s, out.(tasks := [WriteOp(k, request), TimerReady(k, true)]), 0, Complete(0, Ok),
      WriteReady(k, request, false));
    TimerGone(s, out.(tasks := [WriteReady(k, request, false), TimerReady(k, true)]), k, WriteReady(k, request, false));
    Delivers(s, out.(tasks := [WriteReady(k, request, false)]), k, request);
  }

  /** The three together. */
  lemma {:induction false} Serves(s: State, k: nat, request: string)
    requires s.tasks == [BeginRead(k)]
    ensures Leads(s, s.(tasks := [BeginRead(k + 1)], flag := true, accepted := s.accepted + [request],
                        answered := s.answered + [request], delivered := s.delivered + [request],
                        started := s.started + 2))
  {
    var s1 := s.(tasks := [ReadOp(k), TimerWait(k)], flag := false, started := s.started + 1);
    var s2 := s1.(tasks := [Process(k, request), TimerReady(k, true)], flag := true,
                  accepted := s.accepted + [request]);
    Listens(s, k);
    Takes(s1, k, request);
    Responds(s2, k, request);
    LeadsOn(s, s1, s2);
    LeadsOn(s, s2, s2.(tasks := [BeginRead(k + 1)], answered := s2.answered + [request],
      delivered := s2.delivered + [request], started := s2.started + 1));
  }

  /** Whatever requests come, one after another and each in time, the connection can take
      them all, answer them all and deliver every response, in order. */
  lemma {:induction false} ServesAll(requests: seq<string>) returns (s: State)
    ensures Reachable(s) && s.tasks == [BeginRead(|requests|)] && !s.ended && s.lost == []
    ensures s.accepted == requests && s.answered == requests && s.delivered == requests
    ensures s.started == 2 * |requests|
  {
    if requests == [] {
      s := START;
      LeadsNowhere(START);
    } else {
      var n := |requests| - 1;
      var s0 := ServesAll(requests[..n]);
      var r := requests[n];
      s := s0.(tasks := [BeginRead(n + 1)], flag := true, accepted := s0.accepted + [r],
               answered := s0.answered + [r], delivered := s0.delivered + [r], started := s0.started + 2);
      Serves(s0, n, r);
      LeadsOn(START, s0, s);
      assert requests == requests[..n] + [r];
    }
  }

  lemma {:induction false} ReadAborted(s: State, s1: State, k: nat)
    requires Leads(s, s1) && s1.tasks == [ReadOp(k), TimerPassed(k)]
    ensures Leads(s, s1.(tasks := [ReadReady(k, Aborted), TimerSet(k)]))
  {
    assert Cancelled(s1.tasks, Socket) == [ReadReady(k, Aborted), TimerPassed(k)];
    Goes(s, s1, Go(1), s1.(tasks := [ReadReady(k, Aborted), TimerSet(k)]));
  }

  lemma {:induction false} Ends(s: State, s1: State, k: nat)
    requires Leads(s, s1) && s1.tasks == [ReadReady(k, Aborted), TimerSet(k)]
    ensures Leads(s, s1.(tasks := [], flag := true, ended := true))
  {
    var alone := s1.(tasks := [ReadReady(k, Aborted)], flag := true);
    Goes(s, s1, Go(1), alone);
    Goes(s, alone, Go(0), alone.(tasks := [ReadTested(k, Aborted, true)]));
    Goes(s, alone.(tasks := [ReadTested(k, Aborted, true)]), Go(0), s1.(tasks := [], flag := true, ended := true));
  }

  /** A client that sends nothing more is cut off when the timer expires: the read is
      aborted and nothing is left to do. */
  lemma {:induction false} CutsOff(s: State, k: nat)
    requires s.tasks == [ReadOp(k), TimerWait(k)] && !s.flag
    ensures Leads(s, s.(tasks := [], flag := true, ended := true))
  {
    LeadsNowhere(s);
    Turns(s, s, 1, Complete(1, Ok), TimerReady(k, false));
    Turns(s, s.(tasks := [ReadOp(k), TimerReady(k, false)]), 1, Go(1), TimerPassed(k));
    ReadAborted(s, s.(tasks := [ReadOp(k), TimerPassed(k)]), k);
    Ends(s, s.(tasks := [ReadReady(k, Aborted), TimerSet(k)]), k);
  }

  // ------------------------------------------------------- what single steps do

  /** What a tested read comes to: its request is taken exactly if it succeeded and found the
      flag clear, otherwise the connection ends; and after a read that completed by itself
      in time no wait is outstanding. */
  lemma ReadOutcome(s: State, i: nat, s': State)
    requires i < |s.tasks| && s.tasks[i].ReadTested? && Step(s, Go(i)) == Some(s')
    ensures var k, good := s.tasks[i].round, !s.tasks[i].prev && s.tasks[i].code == Ok;
      && (good ==> |s'.tasks| == |s.tasks| && s'.tasks[i] == Extract(k) && s'.ended == s.ended)
      && (!good ==> |s'.tasks| == |s.tasks| - 1 && s'.ended)
      && (!s.tasks[i].prev && s.tasks[i].code != Aborted ==> forall u :: u in s'.tasks ==> !u.TimerWait?)
  {
  }

  /** Re-arming the timer fails every wait that is outstanding. */
  lemma RearmsAlone(s: State, i: nat, s': State)
    requires i < |s.tasks| && s.tasks[i].ArmExpiry? && Step(s, Go(i)) == Some(s')
    ensures |s'.tasks| == |s.tasks| && s'.tasks[i] == ArmWait(s.tasks[i].round)
    ensures forall j :: 0 <= j < |s.tasks| && j != i ==>
      s'.tasks[j] == if s.tasks[j].TimerWait? then TimerReady(s.tasks[j].round, true) else s.tasks[j]
  {
  }
}
