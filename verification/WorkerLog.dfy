/** What the log of a run tells about RESTART, and what the worker does when it is left alone. */
module WorkerLog {
  import opened Options
  import opened Supervisor
  import opened WorkerTrace
  import opened WorkerRuns
  import opened WorkerPhases

  // ----- RESTART

  /** Right after a RESTART was read its stop has not signalled anybody yet. */
  predicate RestartRead(w: World) {
    w.log != [] && w.log[|w.log| - 1] == Read(Restart) ==>
      w.diPid.Some? && MainOf(w.stack) in {Restarting(ReadPid), Restarting(Term(w.diPid.value))}
  }

  lemma RestartReadStop(w: World)
    requires RestartRead(w) && w.stack.Base? && (w.stack.main.Restarting? || w.stack.main.Stopping?)
    ensures RestartRead(RunMain(w, w.stack.main, true))
  {
    var pc := w.stack.main.pc;
    var w' := RunMain(w, w.stack.main, true);
    if pc == ReadPid {
      assert w'.log == w.log && w'.diPid == w.diPid;
    } else if pc == Finish {
      assert w'.log == w.log || w'.log[|w'.log| - 1] == Left(Stopped);
    } else {
      StopLogs(w, pc);
      assert w'.log == RunStop(w, pc).log;
    }
  }

  /** A step that signals or ignores logs something that is no command. */
  lemma StopLogs(w: World, pc: StopPc)
    requires pc.Ignore? || pc.Term? || pc.Kill?
    ensures var log := RunStop(w, pc).log; log != [] && !log[|log| - 1].Read?
  {
  }

  lemma RestartReadMain(w: World, forkOk: bool)
    requires Keeps(w) && RestartRead(w) && w.stack.Base?
    ensures RestartRead(RunMain(w, w.stack.main, forkOk))
  {
    match w.stack.main
    case Loop => if w.consumed < |w.sent| { CommandIs(w); }
    case Restarting(_) => RestartReadStop(w);
    case Stopping(_) => RestartReadStop(w);
    case _ =>
  }

  lemma RestartReadStep(w: World, e: Step)
    requires Keeps(w) && RestartRead(w)
    ensures RestartRead(Do(w, e))
  {
    if !e.WorkerRuns? {
      OutsideAdds(w, e);
    } else if w.exit.None? {
      match w.stack
      case Base(_) => RestartReadMain(w, e.forkOk);
      case InTerm(pc, _) => StopAdds(w, pc);
      case InChld(chld, below) => ChldAdds(w, chld, below, e.forkOk, e.reap); RestartReadChld(w, e.forkOk, e.reap);
    }
  }

  lemma RestartReadChld(w: World, forkOk: bool, reap: nat)
    requires RestartRead(w) && w.stack.InChld?
    ensures RestartRead(Run(w, forkOk, reap))
  {
  }

  lemma {:induction false} RunRestartRead(oneshot: bool, steps: seq<Step>)
    ensures RestartRead(Exec(Init(oneshot), steps))
  {
    if steps != [] {
      var front := steps[..|steps| - 1];
      RunRestartRead(oneshot, front);
      RunKeeps(oneshot, front);
      RestartReadStep(Exec(Init(oneshot), front), steps[|steps| - 1]);
    }
  }

  /** Some process was sent SIGTERM and SIGKILL since. */
  predicate SentBoth(log: seq<Event>, n: nat) {
    n <= |log| && exists i, j | n <= i < j < |log| :: log[i].Asked? && log[j] == Forced(log[i].pid)
  }

  /** A RESTART was read when the log had length n and c commands were read; it is under way or over. */
  predicate Underway(w: World, n: nat, c: nat) {
    var main := MainOf(w.stack);
    && n <= |w.log| && c <= w.consumed
    && (SentBoth(w.log, n)
        || (w.consumed == c && (main == Restarting(ReadPid) || (main.Restarting? && main.pc.Term?)
                                || (main.Restarting? && main.pc.Kill? && Asked(main.pc.pid) in w.log[n..]))))
  }

  lemma UnderwayAside(w: World, w': World, n: nat, c: nat)
    requires Underway(w, n, c) && w.log <= w'.log && w'.consumed == w.consumed && MainOf(w'.stack) == MainOf(w.stack)
    ensures Underway(w', n, c)
  {
    assert w'.log[n..|w.log|] == w.log[n..];
    assert forall e | e in w.log[n..] :: e in w'.log[n..];
    if SentBoth(w.log, n) {
      var i, j :| n <= i < j < |w.log| && w.log[i].Asked? && w.log[j] == Forced(w.log[i].pid);
      assert w'.log[i] == w.log[i] && w'.log[j] == w.log[j];
    }
  }

  lemma UnderwayStop(w: World, n: nat, c: nat)
    requires Keeps(w) && Underway(w, n, c) && w.stack.Base? && w.stack.main.Restarting?
    ensures Underway(RunMain(w, w.stack.main, true), n, c)
  {
    var pc, w' := w.stack.main.pc, RunMain(w, w.stack.main, true);
    UnderwayAside(w, w'.(stack := w.stack), n, c);
    if pc.Term? {
      assert w'.log[|w.log|] == Asked(pc.pid);
    } else if pc.Kill? && !SentBoth(w.log, n) {
      var i :| n <= i < |w.log| && w.log[i] == Asked(pc.pid);
      assert w'.log[i] == Asked(pc.pid) && w'.log[|w.log|] == Forced(pc.pid);
    }
  }

  lemma MainAdds(w: World, forkOk: bool)
    requires w.stack.Base?
    ensures var w' := RunMain(w, w.stack.main, forkOk); w.log <= w'.log && w.consumed <= w'.consumed
  {
    match w.stack.main
    case Restarting(pc) => StopAdds(w, pc);
    case Stopping(pc) => StopAdds(w, pc);
    case _ =>
  }

  lemma UnderwayStep(w: World, e: Step, n: nat, c: nat)
    requires Keeps(w) && Underway(w, n, c)
    ensures Underway(Do(w, e), n, c)
  {
    if !e.WorkerRuns? {
      OutsideAdds(w, e);
      UnderwayAside(w, Do(w, e), n, c);
    } else if w.exit.None? {
      match w.stack
      case Base(main) => if main.Restarting? { UnderwayStop(w, n, c); } else { UnderwayOver(w, e.forkOk, n, c); }
      case InTerm(pc, _) => StopAdds(w, pc); UnderwayAside(w, Run(w, true, 0), n, c);
      case InChld(chld, below) =>
        ChldAdds(w, chld, below, e.forkOk, e.reap);
        UnderwayAside(w, Run(w, e.forkOk, e.reap), n, c);
    }
  }

  lemma UnderwayOver(w: World, forkOk: bool, n: nat, c: nat)
    requires Underway(w, n, c) && w.stack.Base? && !w.stack.main.Restarting?
    ensures Underway(RunMain(w, w.stack.main, forkOk), n, c)
  {
    var w' := RunMain(w, w.stack.main, forkOk);
    MainAdds(w, forkOk);
    var i, j :| n <= i < j < |w.log| && w.log[i].Asked? && w.log[j] == Forced(w.log[i].pid);
    assert w'.log[i] == w.log[i] && w'.log[j] == w.log[j];
  }

  /** The tincd found by a RESTART dies before the worker goes on to another command. */
  predicate Replaced(w: World, c: nat, p: nat) { Replacing(w, p) && (w.consumed > c ==> p in Deaths(w.log)) }

  lemma ReplacedStep(w: World, e: Step, c: nat, p: nat)
    requires Keeps(w) && Replaced(w, c, p)
    ensures Replaced(Do(w, e), c, p)
  {
    ReplacingStep(w, e, p);
    DeathsStay(w, e);
    if e.WorkerRuns? {
      ReadsWhenIdle(w, e.forkOk, e.reap);
    }
  }

  lemma ReadsWhenIdle(w: World, forkOk: bool, reap: nat)
    ensures Run(w, forkOk, reap).consumed == w.consumed || w.stack == Base(Loop)
  {
    match w.stack
    case Base(main) => if main.Restarting? || main.Stopping? { StopAdds(w, main.pc); }
    case InTerm(pc, _) => StopAdds(w, pc);
    case InChld(chld, below) => ChldAdds(w, chld, below, forkOk, reap);
  }

  lemma {:induction false} DeathsGrow(a: seq<Event>, b: seq<Event>)
    requires a <= b
    ensures Deaths(a) <= Deaths(b)
    decreases |b|
  {
    if |a| < |b| {
      DeathsGrow(a, b[..|b| - 1]);
    } else {
      assert a == b;
    }
  }

  lemma DeathsStay(w: World, e: Step)
    ensures Deaths(w.log) <= Deaths(Do(w, e).log) && w.consumed <= Do(w, e).consumed
  {
    if !e.WorkerRuns? {
      OutsideAdds(w, e);
    } else if w.exit.None? {
      match w.stack
      case Base(_) => MainAdds(w, e.forkOk);
      case InTerm(pc, _) => StopAdds(w, pc);
      case InChld(chld, below) => ChldAdds(w, chld, below, e.forkOk, e.reap);
    }
    DeathsGrow(w.log, Do(w, e).log);
  }

  lemma {:induction false} RestartRun(w: World, more: seq<Step>, n: nat, c: nat, p: nat)
    requires Keeps(w) && Traced(w) && Replaced(w, c, p) && Underway(w, n, c)
    ensures var w' := Exec(w, more); Keeps(w') && Traced(w') && Replaced(w', c, p) && Underway(w', n, c)
  {
    if more != [] {
      var w', e := Exec(w, more[..|more| - 1]), more[|more| - 1];
      RestartRun(w, more[..|more| - 1], n, c, p);
      StepKeeps(w', e);
      StepTraced(w', e);
      ReplacedStep(w', e, c, p);
      UnderwayStep(w', e, n, c);
    }
  }

  /**
    * After a RESTART was read the worker is not back in its loop, and reads nothing else, before the tincd it had is
    * dead and some tincd was sent SIGTERM and then SIGKILL, whatever happens between.
    */
  lemma RestartTakesEffect(oneshot: bool, steps: seq<Step>, more: seq<Step>)
    requires var log := Exec(Init(oneshot), steps).log; log != [] && log[|log| - 1] == Read(Restart)
    ensures var w := Exec(Init(oneshot), steps);
            var w' := Exec(w, more);
            && w.diPid.Some?
            && (w'.stack == Base(Loop) || w'.consumed > w.consumed ==>
                  && w.diPid.value in Deaths(w'.log) && w.diPid.value !in w'.alive
                  && SentBoth(w'.log, |w.log|))
  {
    var w := Exec(Init(oneshot), steps);
    RunKeeps(oneshot, steps);
    RunRestartRead(oneshot, steps);
    RestartBegins(w);
    RestartRun(w, more, |w.log|, w.consumed, w.diPid.value);
    DeadStayDead(Exec(w, more), w.diPid.value);
  }

  lemma RestartBegins(w: World)
    requires Traced(w) && RestartRead(w) && w.log != [] && w.log[|w.log| - 1] == Read(Restart)
    ensures w.diPid.Some? && Replaced(w, w.consumed, w.diPid.value) && Underway(w, |w.log|, w.consumed)
  {
    assert w.diPid.value in Current(w);
  }

  // ----- what the worker does when it is left alone

  /** The worker takes n steps, forks succeed, and reap is the child waitpid finds. */
  function Alone(w: World, reap: nat, n: nat): World
    decreases n
  {
    if n == 0 then w else Alone(Do(w, WorkerRuns(true, reap)), reap, n - 1)
  }

  lemma AloneMore(w: World, reap: nat, n: nat)
    requires n > 0
    ensures Alone(w, reap, n) == Alone(Do(w, WorkerRuns(true, reap)), reap, n - 1)
  {
  }

  /** A signal that ends the worker does so within five steps, wherever it interrupted it. */
  lemma TermEnds(w: World)
    requires w.exit.None?
    ensures Alone(Do(w, TermArrives), 0, 5).exit == Some(Terminated)
  {
    var w0 := Do(w, TermArrives);
    var w1 := Do(w0, WorkerRuns(true, 0));
    assert w1.stack == InTerm(ReadPid, w.stack);
    StopFromRead(w1, w.stack);
    AloneMore(w0, 0, 5);
  }

  lemma StopFromRead(w: World, below: Stack)
    requires w.exit.None? && w.stack == InTerm(ReadPid, below)
    ensures Alone(w, 0, 4).exit == Some(Terminated)
  {
    var w1 := Do(w, WorkerRuns(true, 0));
    AloneMore(w, 0, 4);
    AloneMore(w1, 0, 3);
    var w2 := Do(w1, WorkerRuns(true, 0));
    AloneMore(w2, 0, 2);
    var w3 := Do(w2, WorkerRuns(true, 0));
    AloneMore(w3, 0, 1);
  }

  /** When the parent is gone and everything it sent was read, the worker ends by itself. */
  lemma ParentGoneEnds(w: World)
    requires w.exit.None? && w.stack == Base(Loop) && w.consumed == |w.sent| && w.parent == Closed
    ensures Alone(w, 0, 6).exit == Some(Terminated)
  {
    AloneMore(w, 0, 6);
    assert Do(w, WorkerRuns(true, 0)) == Do(w, TermArrives);
    TermEnds(w);
  }

  /** A STOP that is read ends the worker. */
  lemma StopEnds(w: World)
    requires w.exit.None? && w.stack == Base(Loop) && w.consumed < |w.sent| && w.sent[w.consumed] == Stop && w.diPid.Some?
    ensures Alone(w, 0, 6).exit == Some(Stopped)
  {
    AloneMore(w, 0, 6);
    var w1 := Do(w, WorkerRuns(true, 0));
    AloneMore(w1, 0, 5);
    var w2 := Do(w1, WorkerRuns(true, 0));
    assert w2.stack == Base(Stopping(ReadPid));
    StopDone(w2);
  }

  lemma StopDone(w: World)
    requires w.exit.None? && w.stack == Base(Stopping(ReadPid)) && w.diPid.Some?
    ensures Alone(w, 0, 4).exit == Some(Stopped)
  {
    AloneMore(w, 0, 4);
    var w1 := Do(w, WorkerRuns(true, 0));
    AloneMore(w1, 0, 3);
    var w2 := Do(w1, WorkerRuns(true, 0));
    AloneMore(w2, 0, 2);
    var w3 := Do(w2, WorkerRuns(true, 0));
    AloneMore(w3, 0, 1);
  }

  /** A RESTART brings the worker back to its loop with the same pid on record; SIGCHLD does the rest. */
  lemma RestartReturns(w: World)
    requires w.exit.None? && w.stack == Base(Loop) && w.consumed < |w.sent| && w.sent[w.consumed] == Restart && w.diPid.Some?
    ensures Alone(w, 0, 5).stack == Base(Loop) && Alone(w, 0, 5).exit.None? && Alone(w, 0, 5).diPid == w.diPid
  {
    var w1 := Do(w, WorkerRuns(true, 0));
    AloneMore(w, 0, 5);
    assert w1.stack == Base(Restarting(ReadPid)) && w1.diPid == w.diPid;
    RestartOver(w1);
  }

  lemma RestartOver(w: World)
    requires w.exit.None? && w.stack == Base(Restarting(ReadPid)) && w.diPid.Some?
    ensures Alone(w, 0, 4).stack == Base(Loop) && Alone(w, 0, 4).exit.None? && Alone(w, 0, 4).diPid == w.diPid
  {
    var w1 := Do(w, WorkerRuns(true, 0));
    AloneMore(w, 0, 4);
    var w2 := Do(w1, WorkerRuns(true, 0));
    AloneMore(w1, 0, 3);
    var w3 := Do(w2, WorkerRuns(true, 0));
    AloneMore(w2, 0, 2);
    AloneMore(w3, 0, 1);
  }

  /** tincd p died while the worker was idle, and the worker is told. */
  function Bereaved(w: World, p: nat, status: Status): World {
    Do(Do(w, TincdDies(p, status)), ChldArrives)
  }

  /** A tincd that dies is replaced by a new one, unless it reported a fatal error: then the worker ends. */
  lemma DeathIsAnswered(w: World, p: nat, status: Status)
    requires w.exit.None? && w.stack == Base(Loop) && !w.ignoring && w.diPid == Some(p) && p in w.alive
    ensures var w' := Alone(Bereaved(w, p, status), p, if status == Exited(1) then 1 else 3);
            if status == Exited(1) then w'.exit == Some(Fatal)
            else w'.exit.None? && w'.stack == Base(Loop) && w'.diPid == Some(w.nextPid) && w.nextPid in w'.alive
  {
    var w0 := Bereaved(w, p, status);
    assert p in w0.zombies && w0.zombies[p] == status && w0.stack == InChld(Reap, w.stack);
    var w1 := Do(w0, WorkerRuns(true, p));
    if status == Exited(1) {
      AloneMore(w0, p, 1);
    } else {
      assert w1.stack == InChld(Refork, w.stack) && w1.nextPid == w.nextPid;
      AloneMore(w0, p, 3);
      RestartDone(w1, p);
    }
  }

  lemma RestartDone(w: World, p: nat)
    requires w.exit.None? && w.stack == InChld(Refork, Base(Loop))
    ensures var w' := Alone(w, p, 2);
            w'.exit.None? && w'.stack == Base(Loop) && w'.diPid == Some(w.nextPid) && w.nextPid in w'.alive
  {
    AloneMore(w, p, 2);
    var w1 := Do(w, WorkerRuns(true, p));
    AloneMore(w1, p, 1);
  }

  // ----- why a worker ends

  predicate HasTerm(s: Stack) {
    match s
    case Base(_) => false
    case InTerm(_, _) => true
    case InChld(_, below) => HasTerm(below)
  }

  /** Handlers of SIGTERM run, and the worker ends through one, only for a signal or when the parent is gone. */
  predicate TermHasReason(w: World, steps: seq<Step>) {
    HasTerm(w.stack) || w.exit == Some(Terminated) ==> TermArrives in steps || w.parent == Closed
  }

  lemma ReasonStep(w: World, front: seq<Step>, e: Step)
    requires TermHasReason(w, front)
    ensures TermHasReason(Do(w, e), front + [e])
  {
    if e.WorkerRuns? && w.exit.None? {
      ReasonRun(w, front, e.forkOk, e.reap);
    }
    assert TermArrives in front ==> TermArrives in front + [e];
    assert e == TermArrives ==> (front + [e])[|front|] == TermArrives;
  }

  lemma ReasonRun(w: World, steps: seq<Step>, forkOk: bool, reap: nat)
    requires TermHasReason(w, steps) && w.exit.None?
    ensures TermHasReason(Run(w, forkOk, reap), steps)
  {
    RunPipe(w, forkOk, reap);
    match w.stack
    case Base(_) =>
    case InTerm(pc, _) => StopAdds(w, pc);
    case InChld(chld, below) => ChldAdds(w, chld, below, forkOk, reap);
  }

  lemma {:induction false} RunHasReason(oneshot: bool, steps: seq<Step>)
    ensures TermHasReason(Exec(Init(oneshot), steps), steps)
  {
    if steps != [] {
      var front := steps[..|steps| - 1];
      RunHasReason(oneshot, front);
      ReasonStep(Exec(Init(oneshot), front), front, steps[|steps| - 1]);
      assert steps == front + [steps[|steps| - 1]];
    }
  }

  /** In every run the worker ends as terminated only if a signal told it to or its parent was gone. */
  lemma TerminatedHasReason(oneshot: bool, steps: seq<Step>)
    ensures var w := Exec(Init(oneshot), steps);
            w.exit == Some(Terminated) ==> TermArrives in steps || w.parent == Closed
  {
    RunHasReason(oneshot, steps);
  }
}
