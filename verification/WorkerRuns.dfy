/** What holds in every reachable world of the worker protocol. */
module WorkerRuns {
  import opened Options
  import opened Supervisor
  import opened WorkerTrace

  lemma InitKeeps(oneshot: bool)
    ensures Keeps(Init(oneshot))
  {
  }

  lemma InitTraced(oneshot: bool)
    ensures Traced(Init(oneshot))
  {
    NothingTraced(Init(oneshot));
  }

  lemma NothingTraced(w: World)
    requires w.log == [] && w.stack == Base(Loop) && w.consumed == 0 && w.diPid.None? && w.exit.None?
    ensures Traced(w)
  {
  }

  lemma {:induction false} RunKeeps(oneshot: bool, steps: seq<Step>)
    ensures Keeps(Exec(Init(oneshot), steps)) && Traced(Exec(Init(oneshot), steps))
  {
    if steps == [] {
      InitKeeps(oneshot);
      InitTraced(oneshot);
    } else {
      var w := Exec(Init(oneshot), steps[..|steps| - 1]);
      RunKeeps(oneshot, steps[..|steps| - 1]);
      StepKeeps(w, steps[|steps| - 1]);
      StepTraced(w, steps[|steps| - 1]);
    }
  }

  /** The parent sends a prefix of SIGNAL_OLD, START, RESTART*, STOP, and the worker reads what was sent, in order. */
  lemma PipeHistory(oneshot: bool, steps: seq<Step>)
    ensures var w := Exec(Init(oneshot), steps); Grammar(w.sent) && Reads(w.log) <= w.sent
  {
    RunKeeps(oneshot, steps);
  }

  /** At most one tincd started by the worker is alive. */
  lemma OneTincd(oneshot: bool, steps: seq<Step>)
    ensures |Exec(Init(oneshot), steps).alive| <= 1
  {
    RunKeeps(oneshot, steps);
    OneAlive(Exec(Init(oneshot), steps));
  }

  lemma OneAlive(w: World)
    requires Keeps(w)
    ensures |w.alive| <= 1
  {
    var main, chld := MainOf(w.stack), ChldOf(w.stack);
    WindowIs(w.stack);
    if chld.Some? && chld.value.Restore? {
      AtMostOne(w.alive, chld.value.pid);
    } else if main.Store? {
      AtMostOne(w.alive, main.pid);
    } else if w.diPid.Some? {
      AtMostOne(w.alive, w.diPid.value);
    }
  }

  lemma AtMostOne(s: set<nat>, p: nat)
    requires forall q | q in s :: q == p
    ensures |s| <= 1
  {
    assert s == {} || s == {p};
  }

  /**
    * Starts: one for START and one for each restarting reap, less the one that is still to be forked. When the worker
    * is idle none is outstanding.
    */
  lemma StartsCounted(oneshot: bool, steps: seq<Step>)
    ensures var w := Exec(Init(oneshot), steps);
            && Starts(w.log) + Pending(w) == (if |Reads(w.log)| >= 2 then 1 else 0) + Restarts(w.log)
            && (w.stack == Base(Loop) ==> Pending(w) == 0)
  {
    RunKeeps(oneshot, steps);
    CountsFit(Exec(Init(oneshot), steps));
  }

  lemma CountsFit(w: World)
    requires LogKeeps(w)
    ensures Starts(w.log) + Pending(w) == (if |Reads(w.log)| >= 2 then 1 else 0) + Restarts(w.log)
  {
    ReadsCounted(w);
  }

  /** No tincd is started once SIGCHLD is ignored for STOP or sigterm, after a fatal reap, or by a worker that is gone. */
  lemma NoStartAfter(oneshot: bool, steps: seq<Step>, i: nat, j: nat)
    requires var w := Exec(Init(oneshot), steps); i < j < |w.log| && Barrier(w.log[i])
    ensures !Exec(Init(oneshot), steps).log[j].Started?
  {
    RunKeeps(oneshot, steps);
  }

  /** While an old tincd is killed the worker has started none and has no child. */
  lemma OldKilledFirst(oneshot: bool, steps: seq<Step>)
    ensures var w := Exec(Init(oneshot), steps);
            MainOf(w.stack) in {OldTerm, OldKill} ==> Live(w) == {} && Starts(w.log) == 0
    ensures var w := Exec(Init(oneshot), steps);
            forall i, j | 0 <= i < j < |w.log| && w.log[i].Started? :: w.log[j] != OldKilled
  {
    RunKeeps(oneshot, steps);
    var w := Exec(Init(oneshot), steps);
    WindowIs(w.stack);
    NoStarts(w.log);
  }

  lemma {:induction false} NoStarts(log: seq<Event>)
    ensures (forall i | 0 <= i < |log| :: !log[i].Started?) ==> Starts(log) == 0
  {
    if log != [] {
      NoStarts(log[..|log| - 1]);
    }
  }

  /**
    * The worker that stops, fails to fork or gives up leaves no tincd running. One ended by a signal leaves exactly the
    * tincd whose pid a daemon_start under way had not stored yet, unless that one died by itself.
    */
  lemma NothingLeftRunning(oneshot: bool, steps: seq<Step>)
    ensures var w := Exec(Init(oneshot), steps);
            && (w.exit in {Some(Stopped), Some(ForkFailed), Some(Fatal)} ==> w.alive == {})
            && (w.exit == Some(Terminated) ==> w.alive == Window(w.stack) - Deaths(w.log))
            && (w.exit == Some(Oneshot) ==> oneshot)
  {
    RunKeeps(oneshot, steps);
    RunOneshot(oneshot, steps);
  }

  lemma {:induction false} RunOneshot(oneshot: bool, steps: seq<Step>)
    ensures Exec(Init(oneshot), steps).oneshot == oneshot
  {
    if steps != [] {
      RunOneshot(oneshot, steps[..|steps| - 1]);
      var w := Exec(Init(oneshot), steps[..|steps| - 1]);
      match steps[|steps| - 1]
      case WorkerRuns(forkOk, reap) => RunPipe(w, forkOk, reap);
      case _ =>
    }
  }

  /** A oneshot run ends with START: nothing is sent after it, and the worker never goes back to its loop. */
  predicate OneshotKeeps(w: World) {
    w.oneshot ==>
      && |w.sent| <= 2 && w.parent != Serving
      && (w.consumed >= 2 ==> MainOf(w.stack) in {Fork, Check} || MainOf(w.stack).Store?)
  }

  lemma OneshotMain(w: World, forkOk: bool)
    requires Keeps(w) && OneshotKeeps(w) && w.stack.Base?
    ensures OneshotKeeps(RunMain(w, w.stack.main, forkOk))
  {
    RunMainPipe(w, w.stack.main, forkOk);
    if w.stack.main == Loop && w.consumed < |w.sent| {
      CommandIs(w);
    }
  }

  lemma OneshotStep(w: World, e: Step)
    requires Keeps(w) && OneshotKeeps(w)
    ensures OneshotKeeps(Do(w, e))
  {
    if e.WorkerRuns? && w.exit.None? {
      match w.stack
      case Base(_) => OneshotMain(w, e.forkOk);
      case InTerm(pc, _) => RunStopPipe(w, pc);
      case InChld(chld, below) => RunChldPipe(w, chld, below, e.forkOk, e.reap);
    }
  }

  lemma {:induction false} OneshotEnds(steps: seq<Step>)
    ensures var w := Exec(Init(true), steps);
            OneshotKeeps(w) && w.oneshot && |w.sent| <= 2 && !(w.stack == Base(Loop) && |Reads(w.log)| >= 2)
  {
    RunKeeps(true, steps);
    RunOneshot(true, steps);
    if steps != [] {
      OneshotEnds(steps[..|steps| - 1]);
      RunKeeps(true, steps[..|steps| - 1]);
      OneshotStep(Exec(Init(true), steps[..|steps| - 1]), steps[|steps| - 1]);
    }
    ReadsCounted(Exec(Init(true), steps));
  }

  lemma ReadsCounted(w: World)
    requires LogKeeps(w)
    ensures |Reads(w.log)| == w.consumed
  {
  }

  /** When the worker is idle its tincd is alive or waits to be reaped, unless it was reaped unrecognised. */
  lemma IdleHasTincd(oneshot: bool, steps: seq<Step>)
    ensures var w := Exec(Init(oneshot), steps);
            w.stack == Base(Loop) && w.exit.None? && |Reads(w.log)| >= 2 ==>
              w.diPid.Some? && (w.diPid.value in Live(w) <==> w.diPid.value !in Missed(w.log))
  {
    RunKeeps(oneshot, steps);
  }

  /** A child is reaped unrecognised only by a handler that interrupts the daemon_start that forked it. */
  lemma MissedOnlyInWindow(oneshot: bool, steps: seq<Step>, p: nat)
    requires var w := Exec(Init(oneshot), steps);
             w.stack.InChld? && w.stack.chld == Reap && p in w.zombies && w.diPid != Some(p)
    ensures MainOf(Exec(Init(oneshot), steps).stack) == Store(p)
  {
    RunKeeps(oneshot, steps);
    UnknownIsForked(Exec(Init(oneshot), steps), p);
  }

  lemma UnknownIsForked(w: World, p: nat)
    requires Keeps(w) && w.stack.InChld? && w.stack.chld == Reap && p in w.zombies && w.diPid != Some(p)
    ensures MainOf(w.stack) == Store(p)
  {
    WindowIs(w.stack);
    assert p in Live(w);
  }

  // ----- RESTART

  /** How far a RESTART that found tincd p has come; p is dead when it is over. */
  predicate Replacing(w: World, p: nat) {
    var main := MainOf(w.stack);
    && p in w.alive + Deaths(w.log)
    && (p in Deaths(w.log) || (main == Restarting(ReadPid) && w.diPid == Some(p))
        || main == Restarting(Term(p)) || main == Restarting(Kill(p)))
  }

  /** Only a death takes a pid out of the living, and the dead stay dead. */
  predicate Mortal(w: World, w': World) {
    Deaths(w.log) <= Deaths(w'.log) && w.alive <= w'.alive + Deaths(w'.log)
  }

  lemma StopMortal(w: World, pc: StopPc)
    ensures Mortal(w, RunStop(w, pc))
    ensures pc.Kill? && pc.pid in w.alive ==> pc.pid in Deaths(RunStop(w, pc).log)
  {
    match pc
    case Ignore => Logged(w.log, Ignoring);
    case Term(pid) => Logged(w.log, Asked(pid));
    case Kill(pid) =>
      Logged(w.log, Forced(pid));
      Logged(w.log + [Forced(pid)], Died(pid));
    case _ =>
  }

  lemma MainMortal(w: World, main: MainPc, forkOk: bool)
    requires !main.Restarting? && !main.Stopping?
    ensures Mortal(w, RunMain(w, main, forkOk))
  {
    match main
    case Loop => if w.consumed < |w.sent| { Logged(w.log, Read(w.sent[w.consumed])); }
    case OldTerm => Logged(w.log, OldAsked);
    case OldKill => Logged(w.log, OldKilled);
    case Store(pid) => Logged(w.log, Stored(pid));
    case Fork => Logged(w.log, Started(w.nextPid)); Logged(w.log, Left(ForkFailed));
    case Check => Logged(w.log, Left(Cause.Oneshot));
    case _ =>
  }

  lemma ChldMortal(w: World, chld: ChldPc, below: Stack, forkOk: bool, reap: nat)
    ensures Mortal(w, RunChld(w, chld, below, forkOk, reap))
  {
    match chld
    case Reap => if reap in w.zombies { ReapMortal(w, below, reap); }
    case Refork => Logged(w.log, Started(w.nextPid)); Logged(w.log, Left(ForkFailed));
    case Restore(pid) => Logged(w.log, Stored(pid));
  }

  lemma ReapMortal(w: World, below: Stack, pid: nat)
    requires pid in w.zombies
    ensures Mortal(w, ReapOne(w, below, pid))
  {
    var e := Reaped(pid, w.zombies[pid], w.diPid == Some(pid));
    Logged(w.log, e);
    Logged(w.log + [e], Left(Fatal));
  }

  lemma ReplacingMain(w: World, forkOk: bool, p: nat)
    requires Keeps(w) && Replacing(w, p) && w.stack.Base?
    ensures Replacing(RunMain(w, w.stack.main, forkOk), p)
  {
    match w.stack.main
    case Restarting(pc) => StopMortal(w, pc);
    case Stopping(pc) => StopMortal(w, pc); Logged(w.log, Left(Stopped));
    case _ => MainMortal(w, w.stack.main, forkOk);
  }

  lemma ReplacingTerm(w: World, p: nat)
    requires Keeps(w) && Replacing(w, p) && w.stack.InTerm?
    ensures Replacing(Run(w, true, 0), p)
  {
    StopMortal(w, w.stack.pc);
    Logged(w.log, Left(Terminated));
  }

  lemma ReplacingChld(w: World, forkOk: bool, reap: nat, p: nat)
    requires Keeps(w) && Replacing(w, p) && w.stack.InChld?
    ensures Replacing(Run(w, forkOk, reap), p)
  {
    ChldMortal(w, w.stack.chld, w.stack.below, forkOk, reap);
  }

  lemma ReplacingStep(w: World, e: Step, p: nat)
    requires Keeps(w) && Replacing(w, p)
    ensures Replacing(Do(w, e), p)
  {
    match e
    case TincdDies(pid, _) => Logged(w.log, Died(pid));
    case WorkerRuns(forkOk, reap) =>
      if w.exit.None? {
        match w.stack
        case Base(_) => ReplacingMain(w, forkOk, p);
        case InTerm(_, _) => ReplacingTerm(w, p);
        case InChld(_, _) => ReplacingChld(w, forkOk, reap, p);
      }
    case _ =>
  }

  lemma {:induction false} ReplacingRun(w: World, more: seq<Step>, p: nat)
    requires Keeps(w) && Traced(w) && Replacing(w, p)
    ensures Keeps(Exec(w, more)) && Traced(Exec(w, more)) && Replacing(Exec(w, more), p)
  {
    if more != [] {
      var w' := Exec(w, more[..|more| - 1]);
      ReplacingRun(w, more[..|more| - 1], p);
      StepKeeps(w', more[|more| - 1]);
      StepTraced(w', more[|more| - 1]);
      ReplacingStep(w', more[|more| - 1], p);
    }
  }

  /** Whatever happens between, once the worker is done with a RESTART, the tincd that was current at its start is dead. */
  lemma RestartReplaces(oneshot: bool, steps: seq<Step>, more: seq<Step>, p: nat)
    requires Exec(Init(oneshot), steps).stack == Base(Restarting(ReadPid))
    requires Exec(Init(oneshot), steps).diPid == Some(p)
    ensures var w := Exec(Exec(Init(oneshot), steps), more);
            !MainOf(w.stack).Restarting? ==> p in Deaths(w.log) && p !in w.alive
  {
    RunKeeps(oneshot, steps);
    var w := Exec(Init(oneshot), steps);
    assert p in w.alive + Deaths(w.log) by { assert p in Current(w); }
    ReplacingRun(w, more, p);
    DeadStayDead(Exec(w, more), p);
  }

  lemma DeadStayDead(w: World, p: nat)
    requires Traced(w) && Replacing(w, p)
    ensures !MainOf(w.stack).Restarting? ==> p in Deaths(w.log) && p !in w.alive
  {
  }

  // ----- STOP, and what the window inside daemon_start allows

  lemma {:induction false} ExecSplit(w: World, a: seq<Step>, b: seq<Step>)
    ensures Exec(w, a + b) == Exec(Exec(w, a), b)
  {
    if b == [] {
      assert a + b == a;
    } else {
      assert (a + b)[..|a + b| - 1] == a + b[..|b| - 1];
      ExecSplit(w, a, b[..|b| - 1]);
    }
  }

  lemma {:induction false} ConsumedGrows(w: World, more: seq<Step>)
    ensures w.consumed <= Exec(w, more).consumed
  {
    if more != [] {
      ConsumedGrows(w, more[..|more| - 1]);
      var w' := Exec(w, more[..|more| - 1]);
      match more[|more| - 1]
      case WorkerRuns(forkOk, reap) => RunPipe(w', forkOk, reap);
      case _ =>
    }
  }

  /**
    * Between reading STOP and ignoring SIGCHLD a tincd can still be started, once for each tincd reaped for a restart
    * meanwhile and never otherwise.
    */
  lemma StartsAfterStop(oneshot: bool, steps: seq<Step>, more: seq<Step>)
    requires Exec(Init(oneshot), steps).stack == Base(Stopping(Ignore))
    ensures var w := Exec(Init(oneshot), steps);
            var w' := Exec(w, more);
            Starts(w'.log) - Starts(w.log) + Pending(w') == Restarts(w'.log) - Restarts(w.log)
  {
    var w := Exec(Init(oneshot), steps);
    RunKeeps(oneshot, steps);
    RunKeeps(oneshot, steps + more);
    ExecSplit(Init(oneshot), steps, more);
    ConsumedGrows(w, more);
    BusyAfterStart(w);
    assert Pending(w) == 0;
    BothCounted(w, Exec(w, more));
  }

  lemma BusyAfterStart(w: World)
    requires Keeps(w) && MainOf(w.stack).Stopping?
    ensures w.consumed >= 2
  {
  }

  lemma BothCounted(w: World, w': World)
    requires LogKeeps(w) && LogKeeps(w') && 2 <= w.consumed <= w'.consumed && Pending(w) == 0
    ensures Starts(w'.log) - Starts(w.log) + Pending(w') == Restarts(w'.log) - Restarts(w.log)
  {
  }

  ghost predicate Reachable(oneshot: bool, w: World) {
    exists steps :: Exec(Init(oneshot), steps) == w
  }

  lemma Next(oneshot: bool, w: World, e: Step)
    requires Reachable(oneshot, w)
    ensures Reachable(oneshot, Do(w, e))
  {
    var steps :| Exec(Init(oneshot), steps) == w;
    assert (steps + [e])[..|steps + [e]| - 1] == steps;
    assert Exec(Init(oneshot), steps + [e]) == Do(w, e);
  }

  /** The worker right after the fork for START. */
  function Forked(): World {
    World(false, [SignalOld, Start], 2, Serving, Base(Store(0)), false, None, {0}, map[], 1, None,
          [Read(SignalOld), OldAsked, OldKilled, Read(Start), Started(0)])
  }

  /** The worker after SIGNAL_OLD. */
  function OldGone(): World {
    World(false, [SignalOld, Start], 1, Serving, Base(Loop), false, None, {}, map[], 0, None,
          [Read(SignalOld), OldAsked, OldKilled])
  }

  lemma OldGoneReachable()
    ensures Reachable(false, OldGone())
  {
    var w := Init(false);
    assert Exec(w, []) == w;
    var run := WorkerRuns(true, 0);
    Next(false, w, ParentWrites(false));
    var w1 := Do(w, ParentWrites(false));
    Next(false, w1, ParentWrites(false));
    var w2 := Do(w1, ParentWrites(false));
    Next(false, w2, run);
    var w3 := Do(w2, run);
    Next(false, w3, run);
    Next(false, Do(w3, run), run);
  }

  lemma ForkedReachable()
    ensures Reachable(false, Forked())
  {
    var run := WorkerRuns(true, 0);
    OldGoneReachable();
    Next(false, OldGone(), run);
    Next(false, Do(OldGone(), run), run);
  }

  /** A SIGTERM between fork and storing the pid ends the worker and leaves a tincd running. */
  lemma TincdCanBeOrphaned()
    ensures exists w :: Reachable(false, w) && w.exit == Some(Terminated) && w.alive == {0}
  {
    var run := WorkerRuns(true, 0);
    ForkedReachable();
    Next(false, Forked(), TermArrives);
    var w1 := Do(Forked(), TermArrives);
    Next(false, w1, run);
    var w2 := Do(w1, run);
    Next(false, w2, run);
    var w3 := Do(w2, run);
    Next(false, w3, run);
    assert Do(w3, run).exit == Some(Terminated);
  }

  /** A tincd that dies there is taken for another child and not restarted. */
  lemma TincdCanBeMissed()
    ensures exists w :: Reachable(false, w) && w.stack == Base(Loop) && w.exit.None? && w.diPid == Some(0) && Live(w) == {}
  {
    var run := WorkerRuns(true, 0);
    ForkedReachable();
    Next(false, Forked(), TincdDies(0, Exited(0)));
    var w1 := Do(Forked(), TincdDies(0, Exited(0)));
    Next(false, w1, ChldArrives);
    var w2 := Do(w1, ChldArrives);
    Next(false, w2, run);
    var w3 := Do(w2, run);
    assert w3.zombies == map[];
    Next(false, w3, run);
    var w4 := Do(w3, run);
    Next(false, w4, run);
    assert Do(w4, run).stack == Base(Loop) && Do(w4, run).zombies == map[];
  }

  /** The worker right after reading STOP. */
  function StopRead(): World {
    World(false, [SignalOld, Start, Stop], 3, Closed, Base(Stopping(Ignore)), false, Some(0), {0}, map[], 1, None,
          [Read(SignalOld), OldAsked, OldKilled, Read(Start), Started(0), Stored(0), Read(Stop)])
  }

  lemma StopReadReachable()
    ensures Reachable(false, StopRead())
  {
    var run := WorkerRuns(true, 0);
    ForkedReachable();
    Next(false, Forked(), run);
    var w1 := Do(Forked(), run);
    Next(false, w1, run);
    var w2 := Do(w1, run);
    Next(false, w2, ParentWrites(true));
    Next(false, Do(w2, ParentWrites(true)), run);
  }

  /** A start after STOP was read. */
  lemma StartAfterStopHappens()
    ensures exists w :: Reachable(false, w) && w.log == StopRead().log + [Died(0), Reaped(0, Killed, true), Started(1)]
  {
    var run := WorkerRuns(true, 0);
    StopReadReachable();
    Next(false, StopRead(), TincdDies(0, Killed));
    var w1 := Do(StopRead(), TincdDies(0, Killed));
    Next(false, w1, ChldArrives);
    var w2 := Do(w1, ChldArrives);
    Next(false, w2, run);
    Next(false, Do(w2, run), run);
    assert Do(Do(w2, run), run).log == StopRead().log + [Died(0), Reaped(0, Killed, true), Started(1)];
  }
}
