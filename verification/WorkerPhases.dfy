/** What the log of a run tells about the command loop. */
module WorkerPhases {
  import opened Options
  import opened Supervisor
  import opened WorkerTrace
  import opened WorkerRuns

  /** Every b has an a before it. */
  predicate Before(log: seq<Event>, a: Event, b: Event) {
    forall i | 0 <= i < |log| && log[i] == b :: a in log[..i]
  }

  lemma InLonger(log: seq<Event>, log': seq<Event>, a: Event)
    requires log <= log' && a in log
    ensures a in log'
  {
    var k :| 0 <= k < |log| && log[k] == a;
    assert log'[k] == a;
  }

  lemma BeforeExtend(log: seq<Event>, log': seq<Event>, a: Event, b: Event)
    requires Before(log, a, b) && log <= log'
    requires forall k | |log| <= k < |log'| :: log'[k] == b ==> a in log
    ensures Before(log', a, b)
  {
    forall i | 0 <= i < |log'| && log'[i] == b ensures a in log'[..i] {
      if i < |log| {
        assert log'[..i] == log[..i];
      } else {
        assert a in log;
        InLonger(log, log'[..i], a);
      }
    }
  }

  // ----- the command loop

  /** An event of the main program that is not part of a stop or a start. */
  predicate MainEvent(e: Event) { e == OldAsked || e == OldKilled || e.Read? }

  predicate Phased(w: World) {
    var main := MainOf(w.stack);
    && (w.consumed >= 1 ==> OldAsked in w.log || main == OldTerm)
    && (w.consumed >= 1 ==> OldKilled in w.log || main in {OldTerm, OldKill})
    && (main == OldKill ==> OldAsked in w.log)
    && Before(w.log, OldAsked, OldKilled) && Before(w.log, OldKilled, Read(Start))
    && (Read(Stop) in w.log <==> main.Stopping?)
    && (w.exit == Some(Stopped) ==> main.Stopping?)
  }

  /** A step outside the command loop. */
  lemma PhasedAside(w: World, w': World)
    requires Phased(w) && w.log <= w'.log && w'.consumed == w.consumed
    requires forall k | |w.log| <= k < |w'.log| :: !MainEvent(w'.log[k])
    requires MainOf(w'.stack) == MainOf(w.stack) || !(MainOf(w.stack) in {OldTerm, OldKill})
    requires MainOf(w'.stack) == MainOf(w.stack) || MainOf(w'.stack) != OldKill
    requires MainOf(w'.stack).Stopping? <==> MainOf(w.stack).Stopping?
    requires w'.exit == Some(Stopped) ==> w.exit == Some(Stopped) || MainOf(w.stack).Stopping?
    ensures Phased(w')
  {
    BeforeExtend(w.log, w'.log, OldAsked, OldKilled);
    BeforeExtend(w.log, w'.log, OldKilled, Read(Start));
    assert forall e | e in w'.log && MainEvent(e) :: e in w.log;
    assert forall e | e in w.log :: e in w'.log;
  }

  lemma StopAdds(w: World, pc: StopPc)
    ensures var w' := RunStop(w, pc);
            && w.log <= w'.log && w'.consumed == w.consumed && w'.stack == w.stack && w'.exit == w.exit && w'.diPid == w.diPid
            && w'.nextPid == w.nextPid
            && forall k | |w.log| <= k < |w'.log| ::
                 w'.log[k] == Ignoring || w'.log[k] == (if pc.Term? then Asked(pc.pid) else if pc.Kill? then Forced(pc.pid) else Ignoring)
                 || w'.log[k].Died?
  {
  }

  lemma ChldAdds(w: World, chld: ChldPc, below: Stack, forkOk: bool, reap: nat)
    requires w.stack == InChld(chld, below)
    ensures var w' := RunChld(w, chld, below, forkOk, reap);
            && w.log <= w'.log && w'.consumed == w.consumed && MainOf(w'.stack) == MainOf(w.stack) && w'.ignoring == w.ignoring
            && (w'.exit == w.exit || w'.exit in {Some(ForkFailed), Some(Fatal)})
            && forall k | |w.log| <= k < |w'.log| ::
                 w'.log[k].Reaped? || w'.log[k].Started? || w'.log[k].Stored? || w'.log[k] in {Left(ForkFailed), Left(Fatal)}
  {
  }

  /** Reading a command, and the two steps that kill an old tincd. */
  lemma PhasedCommand(w: World)
    requires Keeps(w) && Phased(w) && w.stack.Base? && w.stack.main in {Loop, OldTerm, OldKill} && w.exit.None?
    ensures Phased(RunMain(w, w.stack.main, true))
  {
    var w' := RunMain(w, w.stack.main, true);
    if w.stack.main == Loop && w.consumed < |w.sent| {
      CommandIs(w);
      BeforeExtend(w.log, w'.log, OldKilled, Read(Start));
      BeforeExtend(w.log, w'.log, OldAsked, OldKilled);
    } else if w.stack.main != Loop {
      BeforeExtend(w.log, w'.log, OldKilled, Read(Start));
      BeforeExtend(w.log, w'.log, OldAsked, OldKilled);
    }
  }

  lemma StopEvents(w: World, pc: StopPc)
    ensures var w' := RunStop(w, pc);
            && w'.stack == w.stack && w'.exit == w.exit && w'.consumed == w.consumed
            && w.log <= w'.log && forall k | |w.log| <= k < |w'.log| :: !MainEvent(w'.log[k])
  {
    StopAdds(w, pc);
  }

  lemma PhasedFinish(w: World)
    requires Phased(w) && w.stack.Base? && w.stack.main in {Restarting(Finish), Stopping(Finish)}
    ensures Phased(RunMain(w, w.stack.main, true))
  {
    PhasedAside(w, RunMain(w, w.stack.main, true));
  }

  /** A step of a stop, seen from outside: r is the world after its effect, main the next program counter. */
  lemma PhasedStopped(w: World, r: World, main: MainPc)
    requires Phased(w) && w.stack.Base? && w.stack.main !in {Loop, OldTerm, OldKill}
    requires w.log <= r.log && forall k | |w.log| <= k < |r.log| :: !MainEvent(r.log[k])
    requires r.stack == w.stack && r.exit == w.exit && r.consumed == w.consumed
    requires main !in {OldTerm, OldKill} && (main.Stopping? <==> w.stack.main.Stopping?)
    ensures Phased(r.(stack := Base(main)))
  {
    PhasedAside(w, r.(stack := Base(main)));
  }

  lemma PhasedSame(v: World, w: World)
    requires v == w && Phased(v)
    ensures Phased(w)
  {
  }

  lemma PhasedRestarting(w: World, pc: StopPc)
    requires Phased(w) && w.stack == Base(Restarting(pc)) && pc != Finish
    ensures Phased(RunStop(w, pc).(stack := Base(Restarting(NextPc(w, pc)))))
  {
    StopEvents(w, pc);
    PhasedStopped(w, RunStop(w, pc), Restarting(NextPc(w, pc)));
  }

  lemma PhasedStopping(w: World, pc: StopPc)
    requires Phased(w) && w.stack == Base(Stopping(pc)) && pc != Finish
    ensures Phased(RunStop(w, pc).(stack := Base(Stopping(NextPc(w, pc)))))
  {
    StopEvents(w, pc);
    PhasedStopped(w, RunStop(w, pc), Stopping(NextPc(w, pc)));
  }

  lemma PhasedMainStop(w: World)
    requires Phased(w) && w.stack.Base? && (w.stack.main.Restarting? || w.stack.main.Stopping?)
    ensures Phased(RunMain(w, w.stack.main, true))
  {
    if w.stack.main.pc == Finish {
      PhasedFinish(w);
    } else {
      match w.stack.main
      case Restarting(pc) =>
        PhasedRestarting(w, pc);
        PhasedSame(RunStop(w, pc).(stack := Base(Restarting(NextPc(w, pc)))), RunMain(w, w.stack.main, true));
      case Stopping(pc) =>
        PhasedStopping(w, pc);
        PhasedSame(RunStop(w, pc).(stack := Base(Stopping(NextPc(w, pc)))), RunMain(w, w.stack.main, true));
    }
  }

  lemma PhasedMain(w: World, forkOk: bool)
    requires Keeps(w) && Phased(w) && w.stack.Base? && w.exit.None?
    ensures Phased(RunMain(w, w.stack.main, forkOk))
  {
    var w' := RunMain(w, w.stack.main, forkOk);
    match w.stack.main
    case Restarting(_) => PhasedMainStop(w);
    case Stopping(_) => PhasedMainStop(w);
    case Fork => PhasedAside(w, w');
    case Store(_) => PhasedAside(w, w');
    case Check => PhasedAside(w, w');
    case _ => PhasedCommand(w);
  }

  /** A step of sigterm, seen from outside. */
  lemma PhasedInTerm(w: World, r: World, pc: StopPc, below: Stack)
    requires Phased(w) && w.stack.InTerm? && below == w.stack.below
    requires w.log <= r.log && forall k | |w.log| <= k < |r.log| :: !MainEvent(r.log[k])
    requires r.exit == w.exit && r.consumed == w.consumed
    ensures Phased(r.(stack := InTerm(pc, below)))
  {
    PhasedAside(w, r.(stack := InTerm(pc, below)));
  }

  lemma PhasedTerm(w: World)
    requires Phased(w) && w.stack.InTerm?
    ensures Phased(Run(w, true, 0))
  {
    var pc, below := w.stack.pc, w.stack.below;
    if pc == Finish {
      PhasedAside(w, Leave(w, Terminated));
    } else {
      StopEvents(w, pc);
      PhasedInTerm(w, RunStop(w, pc), NextPc(w, pc), below);
      PhasedSame(RunStop(w, pc).(stack := InTerm(NextPc(w, pc), below)), Run(w, true, 0));
    }
  }

  lemma PhasedChld(w: World, forkOk: bool, reap: nat)
    requires Phased(w) && w.stack.InChld?
    ensures Phased(Run(w, forkOk, reap))
  {
    ChldAdds(w, w.stack.chld, w.stack.below, forkOk, reap);
    PhasedAside(w, Run(w, forkOk, reap));
  }

  /** What a step of anybody but the worker changes. */
  lemma OutsideAdds(w: World, e: Step)
    requires !e.WorkerRuns?
    ensures var w' := Do(w, e);
            && w.log <= w'.log && (forall k | |w.log| <= k < |w'.log| :: w'.log[k].Died?)
            && w'.consumed == w.consumed && w'.exit == w.exit && w'.diPid == w.diPid && w'.nextPid == w.nextPid
            && w'.ignoring == w.ignoring && MainOf(w'.stack) == MainOf(w.stack)
            && (w'.stack == w.stack || w'.stack == InTerm(Ignore, w.stack) || w'.stack == InChld(Reap, w.stack))
  {
  }

  lemma PhasedStep(w: World, e: Step)
    requires Keeps(w) && Phased(w)
    ensures Phased(Do(w, e))
  {
    if !e.WorkerRuns? {
      OutsideAdds(w, e);
      PhasedAside(w, Do(w, e));
    } else if w.exit.None? {
      match w.stack
      case Base(_) => PhasedMain(w, e.forkOk);
      case InTerm(_, _) => PhasedTerm(w);
      case InChld(_, _) => PhasedChld(w, e.forkOk, e.reap);
    }
  }

  lemma {:induction false} RunPhased(oneshot: bool, steps: seq<Step>)
    ensures Phased(Exec(Init(oneshot), steps))
  {
    if steps != [] {
      var front := steps[..|steps| - 1];
      RunPhased(oneshot, front);
      RunKeeps(oneshot, front);
      PhasedStep(Exec(Init(oneshot), front), steps[|steps| - 1]);
    }
  }

  /** In every run an old tincd is asked to end, then killed, and only then START is read. */
  lemma OldGoneBeforeStart(oneshot: bool, steps: seq<Step>)
    ensures var log := Exec(Init(oneshot), steps).log;
            Before(log, OldAsked, OldKilled) && Before(log, OldKilled, Read(Start))
  {
    RunPhased(oneshot, steps);
  }

  /** Once STOP was read the worker never returns to its loop, and it ends as stopped only then. */
  lemma StopIsFinal(oneshot: bool, steps: seq<Step>)
    ensures var w := Exec(Init(oneshot), steps);
            (Read(Stop) in w.log ==> w.stack != Base(Loop)) && (w.exit == Some(Stopped) ==> Read(Stop) in w.log)
  {
    RunPhased(oneshot, steps);
  }
}
