/** What the log of a run tells about signals sent and children recognised. */
module WorkerSignals {
  import opened Options
  import opened Supervisor
  import opened WorkerTrace
  import opened WorkerRuns
  import opened WorkerPhases

  // ----- SIGTERM before SIGKILL

  predicate KillAsked(pc: StopPc, log: seq<Event>) { pc.Kill? ==> Asked(pc.pid) in log }

  predicate KillsAsked(s: Stack, log: seq<Event>) {
    match s
    case Base(main) => main.Restarting? || main.Stopping? ==> KillAsked(main.pc, log)
    case InTerm(pc, below) => KillAsked(pc, log) && KillsAsked(below, log)
    case InChld(_, below) => KillsAsked(below, log)
  }

  lemma {:induction false} KillsAskedGrow(s: Stack, log: seq<Event>, log': seq<Event>)
    requires KillsAsked(s, log) && log <= log'
    ensures KillsAsked(s, log')
  {
    assert forall e | e in log :: e in log';
    match s
    case Base(_) =>
    case InTerm(_, below) => KillsAskedGrow(below, log, log');
    case InChld(_, below) => KillsAskedGrow(below, log, log');
  }

  /** Every SIGKILL follows a SIGTERM to the same process. */
  predicate AskedFirst(log: seq<Event>) {
    forall i | 0 <= i < |log| && log[i].Forced? :: Asked(log[i].pid) in log[..i]
  }

  predicate Graceful(w: World) {
    && KillsAsked(w.stack, w.log) && AskedFirst(w.log)
    && (w.ignoring ==> Ignoring in w.log)
    && Before(w.log, Ignoring, Left(Stopped)) && Before(w.log, Ignoring, Left(Terminated))
  }

  lemma GracefulAside(w: World, w': World)
    requires Graceful(w) && w.log <= w'.log && KillsAsked(w'.stack, w'.log)
    requires forall k | |w.log| <= k < |w'.log| && w'.log[k].Forced? :: Asked(w'.log[k].pid) in w.log
    requires forall k | |w.log| <= k < |w'.log| && w'.log[k] in {Left(Stopped), Left(Terminated)} :: w.ignoring
    requires w'.ignoring ==> w.ignoring || Ignoring in w'.log
    ensures Graceful(w')
  {
    assert forall e | e in w.log :: e in w'.log;
    BeforeExtend(w.log, w'.log, Ignoring, Left(Stopped));
    BeforeExtend(w.log, w'.log, Ignoring, Left(Terminated));
    forall i | 0 <= i < |w'.log| && w'.log[i].Forced? ensures Asked(w'.log[i].pid) in w'.log[..i] {
      if i < |w.log| {
        assert w'.log[..i] == w.log[..i];
      } else {
        InLonger(w.log, w'.log[..i], Asked(w'.log[i].pid));
      }
    }
  }

  /** The steps of a stop. */
  lemma GracefulStop(w: World, pc: StopPc, stack: Stack)
    requires Graceful(w) && KillAsked(pc, w.log)
    requires KillsAsked(stack, w.log) || (pc.Term? && KillsAsked(stack, w.log + [Asked(pc.pid)]))
    ensures Graceful(RunStop(w, pc).(stack := stack))
  {
    var w' := RunStop(w, pc).(stack := stack);
    StopAdds(w, pc);
    if KillsAsked(stack, w.log) {
      KillsAskedGrow(stack, w.log, w'.log);
    }
    GracefulAside(w, w');
  }

  lemma GracefulMainStop(w: World)
    requires Keeps(w) && Graceful(w) && w.stack.Base? && (w.stack.main.Restarting? || w.stack.main.Stopping?)
    ensures Graceful(RunMain(w, w.stack.main, true))
  {
    var pc, w' := w.stack.main.pc, RunMain(w, w.stack.main, true);
    if pc == Finish { GracefulAside(w, w'); } else { GracefulStop(w, pc, w'.stack); }
  }

  lemma GracefulMain(w: World, forkOk: bool)
    requires Keeps(w) && Graceful(w) && w.stack.Base?
    ensures Graceful(RunMain(w, w.stack.main, forkOk))
  {
    var w' := RunMain(w, w.stack.main, forkOk);
    match w.stack.main
    case Restarting(_) => GracefulMainStop(w);
    case Stopping(_) => GracefulMainStop(w);
    case _ => GracefulAside(w, w');
  }

  lemma GracefulTerm(w: World)
    requires Keeps(w) && Graceful(w) && w.stack.InTerm?
    ensures Graceful(Run(w, true, 0))
  {
    var pc, below, w' := w.stack.pc, w.stack.below, Run(w, true, 0);
    if pc == Finish {
      KillsAskedGrow(w.stack, w.log, w'.log);
      GracefulAside(w, w');
    } else {
      if pc.Term? { KillsAskedGrow(below, w.log, w.log + [Asked(pc.pid)]); }
      GracefulStop(w, pc, InTerm(NextPc(w, pc), below));
    }
  }

  lemma GracefulChld(w: World, forkOk: bool, reap: nat)
    requires Graceful(w) && w.stack.InChld?
    ensures Graceful(Run(w, forkOk, reap))
  {
    var w' := Run(w, forkOk, reap);
    ChldAdds(w, w.stack.chld, w.stack.below, forkOk, reap);
    KillsAskedGrow(w.stack.below, w.log, w'.log);
    GracefulAside(w, w');
  }

  lemma GracefulStep(w: World, e: Step)
    requires Keeps(w) && Graceful(w)
    ensures Graceful(Do(w, e))
  {
    if !e.WorkerRuns? {
      OutsideAdds(w, e);
      KillsAskedGrow(w.stack, w.log, Do(w, e).log);
      GracefulAside(w, Do(w, e));
    } else if w.exit.None? {
      match w.stack
      case Base(_) => GracefulMain(w, e.forkOk);
      case InTerm(_, _) => GracefulTerm(w);
      case InChld(_, _) => GracefulChld(w, e.forkOk, e.reap);
    }
  }

  lemma {:induction false} RunGraceful(oneshot: bool, steps: seq<Step>)
    ensures Graceful(Exec(Init(oneshot), steps))
  {
    if steps != [] {
      var front := steps[..|steps| - 1];
      RunGraceful(oneshot, front);
      RunKeeps(oneshot, front);
      GracefulStep(Exec(Init(oneshot), front), steps[|steps| - 1]);
    }
  }

  /** In every run a tincd is sent SIGKILL only after SIGTERM, and a worker that ends by STOP or a signal ignored SIGCHLD before. */
  lemma AskedBeforeForced(oneshot: bool, steps: seq<Step>)
    ensures var log := Exec(Init(oneshot), steps).log;
            AskedFirst(log) && Before(log, Ignoring, Left(Stopped)) && Before(log, Ignoring, Left(Terminated))
  {
    RunGraceful(oneshot, steps);
  }

  // ----- which children are recognised

  /** A reaped child is known exactly if its pid had been stored, and only a pid just forked is stored. */
  predicate KnownIfStored(log: seq<Event>) {
    && (forall i | 0 <= i < |log| && log[i].Reaped? :: log[i].known <==> Stored(log[i].pid) in log[..i])
    && (forall i | 0 <= i < |log| && log[i].Stored? :: Started(log[i].pid) in log[..i])
  }

  predicate Recognised(w: World) {
    && KnownIfStored(w.log)
    && (forall p | p in Current(w) :: Stored(p) in w.log)
    && (forall p | p in Window(w.stack) :: Started(p) in w.log && Stored(p) !in w.log)
    && (forall i | 0 <= i < |w.log| && w.log[i].Stored? :: w.log[i].pid < w.nextPid)
  }

  lemma KnownAppend(log: seq<Event>, e: Event)
    requires KnownIfStored(log)
    requires e.Reaped? ==> (e.known <==> Stored(e.pid) in log)
    requires e.Stored? ==> Started(e.pid) in log
    ensures KnownIfStored(log + [e])
  {
    var log' := log + [e];
    forall i | 0 <= i < |log'|
      ensures log'[i].Reaped? ==> (log'[i].known <==> Stored(log'[i].pid) in log'[..i])
      ensures log'[i].Stored? ==> Started(log'[i].pid) in log'[..i]
    {
      if i < |log| { assert log'[..i] == log[..i]; } else { assert log'[..i] == log; }
    }
  }

  /** Events that have nothing to do with children being started, stored or reaped. */
  predicate Plain(e: Event) { !e.Reaped? && !e.Stored? && !e.Started? }

  lemma {:induction false} KnownPlain(log: seq<Event>, log': seq<Event>)
    requires KnownIfStored(log) && log <= log' && forall k | |log| <= k < |log'| :: Plain(log'[k])
    ensures KnownIfStored(log')
    decreases |log'|
  {
    if |log| < |log'| {
      var front := log'[..|log'| - 1];
      KnownPlain(log, front);
      KnownAppend(front, log'[|log'| - 1]);
      assert front + [log'[|log'| - 1]] == log';
    } else {
      assert log == log';
    }
  }

  lemma RecognisedAside(w: World, w': World)
    requires Recognised(w) && w.log <= w'.log && forall k | |w.log| <= k < |w'.log| :: Plain(w'.log[k])
    requires Current(w') == Current(w) && Window(w'.stack) <= Window(w.stack) && w.nextPid <= w'.nextPid
    ensures Recognised(w')
  {
    KnownPlain(w.log, w'.log);
    assert forall e | e in w.log :: e in w'.log;
    assert forall e | e in w'.log && !Plain(e) :: e in w.log;
  }

  lemma RecognisedFork(w: World, w': World)
    requires Recognised(w) && w'.log == w.log + [Started(w.nextPid)] && w'.nextPid == w.nextPid + 1
    requires Current(w') == Current(w) && Window(w'.stack) <= Window(w.stack) + {w.nextPid}
    ensures Recognised(w')
  {
    KnownAppend(w.log, Started(w.nextPid));
  }

  lemma RecognisedStore(w: World, w': World, p: nat)
    requires Recognised(w) && w'.log == w.log + [Stored(p)] && w'.nextPid == w.nextPid && p < w.nextPid && p in Window(w.stack)
    requires Current(w') == {p} && Window(w'.stack) <= Window(w.stack) - {p}
    ensures Recognised(w')
  {
    KnownAppend(w.log, Stored(p));
  }

  lemma RecognisedMainStop(w: World)
    requires Recognised(w) && w.stack.Base? && (w.stack.main.Restarting? || w.stack.main.Stopping?)
    ensures Recognised(RunMain(w, w.stack.main, true))
  {
    StopPlain(w, w.stack.main.pc);
    RecognisedAside(w, RunMain(w, w.stack.main, true));
  }

  lemma RecognisedMain(w: World, forkOk: bool)
    requires Keeps(w) && Recognised(w) && w.stack.Base?
    ensures Recognised(RunMain(w, w.stack.main, forkOk))
  {
    match w.stack.main
    case Restarting(_) => RecognisedMainStop(w);
    case Stopping(_) => RecognisedMainStop(w);
    case Fork => RecognisedStart(w, forkOk);
    case Store(p) => RecognisedStored(w, p);
    case _ => RecognisedAside(w, RunMain(w, w.stack.main, forkOk));
  }

  lemma RecognisedStored(w: World, p: nat)
    requires Recognised(w) && w.stack == Base(Store(p)) && p < w.nextPid
    ensures Recognised(RunMain(w, Store(p), true))
  {
    RecognisedStore(w, RunMain(w, Store(p), true), p);
  }

  lemma RecognisedStart(w: World, forkOk: bool)
    requires Recognised(w) && w.stack == Base(Fork)
    ensures Recognised(RunMain(w, Fork, forkOk))
  {
    if forkOk { RecognisedFork(w, RunMain(w, Fork, true)); } else { RecognisedAside(w, RunMain(w, Fork, false)); }
  }

  lemma RecognisedReap(w: World, below: Stack, p: nat)
    requires Recognised(w) && w.stack == InChld(Reap, below) && p in w.zombies && p in Current(w) + Window(w.stack)
    ensures Recognised(ReapOne(w, below, p))
  {
    var e, w' := Reaped(p, w.zombies[p], w.diPid == Some(p)), ReapOne(w, below, p);
    KnownAppend(w.log, e);
    var mid := w.(log := w.log + [e]);
    assert Recognised(mid);
    RecognisedAside(mid, w');
  }

  lemma RecognisedChld(w: World, forkOk: bool, reap: nat)
    requires Keeps(w) && Recognised(w) && w.stack.InChld?
    ensures Recognised(Run(w, forkOk, reap))
  {
    var w', below := Run(w, forkOk, reap), w.stack.below;
    match w.stack.chld
    case Reap =>
      if reap in w.zombies {
        assert reap in Live(w);
        RecognisedReap(w, below, reap);
      } else {
        RecognisedAside(w, w');
      }
    case Refork => if forkOk { RecognisedFork(w, w'); } else { RecognisedAside(w, w'); }
    case Restore(p) =>
      ChldFacts(below);
      WindowIs(w.stack);
      WindowIs(below);
      RecognisedStore(w, w', p);
  }

  lemma StopPlain(w: World, pc: StopPc)
    ensures var w' := RunStop(w, pc);
            && w.log <= w'.log && (forall k | |w.log| <= k < |w'.log| :: Plain(w'.log[k]))
            && w'.diPid == w.diPid && w'.nextPid == w.nextPid
  {
    StopAdds(w, pc);
  }

  lemma RecognisedTerm(w: World)
    requires Recognised(w) && w.stack.InTerm?
    ensures Recognised(Run(w, true, 0))
  {
    if w.stack.pc != Finish {
      StopPlain(w, w.stack.pc);
    }
    RecognisedAside(w, Run(w, true, 0));
  }

  lemma RecognisedStep(w: World, e: Step)
    requires Keeps(w) && Recognised(w)
    ensures Recognised(Do(w, e))
  {
    if !e.WorkerRuns? {
      OutsideAdds(w, e);
      RecognisedAside(w, Do(w, e));
    } else if w.exit.None? {
      match w.stack
      case Base(_) => RecognisedMain(w, e.forkOk);
      case InTerm(_, _) => RecognisedTerm(w);
      case InChld(_, _) => RecognisedChld(w, e.forkOk, e.reap);
    }
  }

  lemma {:induction false} RunRecognised(oneshot: bool, steps: seq<Step>)
    ensures Recognised(Exec(Init(oneshot), steps))
  {
    if steps != [] {
      var front := steps[..|steps| - 1];
      RunRecognised(oneshot, front);
      RunKeeps(oneshot, front);
      RecognisedStep(Exec(Init(oneshot), front), steps[|steps| - 1]);
    }
  }

  /** In every run a child is recognised when it is reaped exactly if its pid had been stored by then. */
  lemma KnownExactlyIfStored(oneshot: bool, steps: seq<Step>)
    ensures KnownIfStored(Exec(Init(oneshot), steps).log)
  {
    RunRecognised(oneshot, steps);
  }
}
