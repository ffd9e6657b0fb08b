/** What the log of a run says: counts, order and fates, and that every step keeps them. */
module WorkerTrace {
  import opened Options
  import opened Supervisor

  function Starts(log: seq<Event>): nat {
    if log == [] then 0 else Starts(log[..|log| - 1]) + if log[|log| - 1].Started? then 1 else 0
  }

  /** A reaped tincd that makes the worker give up. */
  predicate IsFatal(e: Event) { e.Reaped? && e.known && e.status == Exited(1) }

  /** A reaped tincd that is to be started again. */
  predicate IsRestart(e: Event) { e.Reaped? && e.known && e.status != Exited(1) }

  function Restarts(log: seq<Event>): nat {
    if log == [] then 0 else Restarts(log[..|log| - 1]) + if IsRestart(log[|log| - 1]) then 1 else 0
  }

  function Reads(log: seq<Event>): seq<Command> {
    if log == [] then []
    else Reads(log[..|log| - 1]) + if log[|log| - 1].Read? then [log[|log| - 1].c] else []
  }

  function Deaths(log: seq<Event>): set<nat> {
    if log == [] then {}
    else Deaths(log[..|log| - 1]) + if log[|log| - 1].Died? then {log[|log| - 1].pid} else {}
  }

  /** Children reaped before their pid was stored, so taken for somebody else's. */
  function Missed(log: seq<Event>): set<nat> {
    if log == [] then {}
    else
      var e := log[|log| - 1];
      Missed(log[..|log| - 1]) + if e.Reaped? && !e.known then {e.pid} else {}
  }

  lemma Logged(log: seq<Event>, e: Event)
    ensures Starts(log + [e]) == Starts(log) + if e.Started? then 1 else 0
    ensures Restarts(log + [e]) == Restarts(log) + if IsRestart(e) then 1 else 0
    ensures Reads(log + [e]) == Reads(log) + if e.Read? then [e.c] else []
    ensures Deaths(log + [e]) == Deaths(log) + if e.Died? then {e.pid} else {}
    ensures Missed(log + [e]) == Missed(log) + if e.Reaped? && !e.known then {e.pid} else {}
  {
    assert (log + [e])[..|log|] == log;
  }

  /** After one of these no tincd is started any more. */
  predicate Barrier(e: Event) { e == Ignoring || e.Left? || IsFatal(e) }

  predicate Ordered(log: seq<Event>) {
    && (forall i, j | 0 <= i < j < |log| && Barrier(log[i]) :: !log[j].Started?)
    && (forall i, j | 0 <= i < j < |log| && log[i].Started? :: log[j] != OldKilled)
  }

  function Pending(w: World): nat {
    (if MainOf(w.stack) == Fork then 1 else 0) + if ChldOf(w.stack) == Some(Refork) then 1 else 0
  }

  predicate LogKeeps(w: World) {
    && Ordered(w.log)
    && (forall i | 0 <= i < |w.log| && Barrier(w.log[i]) :: w.ignoring || w.exit.Some?)
    && (w.consumed <= 1 ==> forall i | 0 <= i < |w.log| :: !w.log[i].Started?)
    && w.consumed <= |w.sent| && Reads(w.log) == w.sent[..w.consumed]
    && Starts(w.log) + Pending(w) == (if w.consumed >= 2 then 1 else 0) + Restarts(w.log)
  }

  predicate Below(s: set<nat>, n: nat) { forall p | p in s :: p < n }

  predicate FateKeeps(w: World) {
    && Below(Deaths(w.log), w.nextPid) && Below(Missed(w.log), w.nextPid)
    && Deaths(w.log) !! w.alive
    && Missed(w.log) !! Live(w)
    && Current(w) + Window(w.stack) <= w.alive + Deaths(w.log)
    && (!w.ignoring ==> Window(w.stack) <= Live(w) + Missed(w.log))
    && (w.diPid.Some? && !w.ignoring && w.exit.None? && Idle(ChldOf(w.stack)) ==>
          w.diPid.value in Live(w) + Missed(w.log))
  }

  /** Once the worker is gone, only a oneshot run leaves its tincd behind, or a SIGTERM inside daemon_start. */
  predicate ExitKeeps(w: World) {
    match w.exit
    case None => true
    case Some(Oneshot) => w.oneshot
    case Some(Terminated) => w.alive <= Window(w.stack)
    case Some(_) => w.alive == {}
  }

  predicate Traced(w: World) { LogKeeps(w) && FateKeeps(w) && ExitKeeps(w) }

  lemma OrderedAppend(log: seq<Event>, e: Event)
    requires Ordered(log)
    requires e.Started? ==> forall i | 0 <= i < |log| :: !Barrier(log[i])
    requires e == OldKilled ==> forall i | 0 <= i < |log| :: !log[i].Started?
    ensures Ordered(log + [e])
  {
    var l := log + [e];
    forall i, j | 0 <= i < j < |l| && Barrier(l[i]) ensures !l[j].Started? {
      assert l[i] == log[i];
    }
    forall i, j | 0 <= i < j < |l| && l[i].Started? ensures l[j] != OldKilled {
      assert l[i] == log[i];
    }
  }

  function Consumption(w: World): nat { if w.consumed >= 2 then 1 else 0 }

  /** Logging one event, after which the pipe, the counts and the order must still fit. */
  lemma LogAppend(w: World, w': World, e: Event)
    requires LogKeeps(w) && w'.log == w.log + [e]
    requires e.Started? ==> !w.ignoring && w.exit.None? && w'.consumed > 1
    requires e == OldKilled ==> w.consumed <= 1
    requires Barrier(e) || w.ignoring || w.exit.Some? ==> w'.ignoring || w'.exit.Some?
    requires w.consumed <= w'.consumed <= |w'.sent|
    requires w'.sent[..w'.consumed] == w.sent[..w.consumed] + if e.Read? then [e.c] else []
    requires Pending(w') + Consumption(w) + (if e.Started? then 1 else 0)
             == Pending(w) + Consumption(w') + if IsRestart(e) then 1 else 0
    ensures LogKeeps(w')
  {
    Logged(w.log, e);
    OrderedAppend(w.log, e);
    forall i | 0 <= i < |w'.log| && Barrier(w'.log[i]) ensures w'.ignoring || w'.exit.Some? {
      if i < |w.log| { assert w'.log[i] == w.log[i]; }
    }
  }

  /** An event that changes nothing about the children. */
  lemma FateAppend(w: World, w': World, e: Event)
    requires FateKeeps(w) && w'.log == w.log + [e] && !e.Died? && !(e.Reaped? && !e.known)
    requires w'.alive == w.alive && w'.zombies == w.zombies && w'.nextPid == w.nextPid && w'.diPid == w.diPid
    requires w.ignoring ==> w'.ignoring
    requires w.exit.Some? ==> w'.exit.Some?
    requires Window(w'.stack) == Window(w.stack) && Idle(ChldOf(w'.stack)) == Idle(ChldOf(w.stack))
    ensures FateKeeps(w')
  {
    Logged(w.log, e);
  }

  lemma DeathTraced(w: World, pid: nat, status: Status)
    requires Keeps(w) && Traced(w) && pid in w.alive
    ensures Traced(Die(w, pid, status))
  {
    LogAppend(w, Die(w, pid, status), Died(pid));
    Logged(w.log, Died(pid));
  }

  lemma LeaveTraced(w: World, cause: Cause)
    requires Keeps(w) && Traced(w) && w.exit.None?
    requires match cause
             case Oneshot => w.oneshot
             case Terminated => w.alive <= Window(w.stack)
             case _ => w.alive == {}
    ensures Traced(Leave(w, cause))
  {
    LogAppend(w, Leave(w, cause), Left(cause));
    Logged(w.log, Left(cause));
  }

  lemma ReadTraced(w: World)
    requires Keeps(w) && Traced(w) && w.exit.None? && w.stack == Base(Loop)
    ensures Traced(RunMain(w, Loop, true))
  {
    if w.consumed < |w.sent| {
      CommandTraced(w, w.sent[w.consumed]);
    }
  }

  lemma CommandTraced(w: World, c: Command)
    requires Keeps(w) && Traced(w) && w.exit.None? && w.stack == Base(Loop)
    requires w.consumed < |w.sent| && c == w.sent[w.consumed]
    ensures Traced(Log(w, Read(c)).(consumed := w.consumed + 1, stack := Base(Dispatch(c))))
  {
    CommandIs(w);
    assert w.sent[..w.consumed + 1] == w.sent[..w.consumed] + [c];
    var w' := Log(w, Read(c)).(consumed := w.consumed + 1, stack := Base(Dispatch(c)));
    assert LogKeeps(w') by { LogAppend(w, w', Read(c)); }
    assert FateKeeps(w') by { FateAppend(w, w', Read(c)); }
  }

  lemma ForkTraced(w: World)
    requires Keeps(w) && Traced(w) && w.exit.None? && w.stack == Base(Fork)
    ensures Traced(RunMain(w, Fork, true))
  {
    LogAppend(w, RunMain(w, Fork, true), Started(w.nextPid));
    Logged(w.log, Started(w.nextPid));
  }

  lemma OldTraced(w: World, e: Event, w': World)
    requires Keeps(w) && Traced(w) && w.exit.None? && (e == OldAsked || e == OldKilled) && w.consumed <= 1
    requires w' == w.(log := w.log + [e], stack := w'.stack) && w.stack.Base? && w'.stack.Base? && Pending(w') == Pending(w)
    requires Window(w'.stack) == Window(w.stack)
    ensures Traced(w')
  {
    LogAppend(w, w', e);
    FateAppend(w, w', e);
  }

  /** Moving on without an event. */
  lemma MoveTraced(w: World, w': World)
    requires Traced(w) && w.exit.None? && w' == w.(stack := w'.stack, diPid := w'.diPid)
    requires Pending(w') == Pending(w) && Current(w') + Window(w'.stack) <= Current(w) + Window(w.stack)
    requires Window(w'.stack) <= Window(w.stack)
    requires w'.diPid.Some? && !w.ignoring && Idle(ChldOf(w'.stack)) ==>
               (w'.diPid == w.diPid && Idle(ChldOf(w.stack))) || w'.diPid.value in Live(w) + Missed(w.log)
    ensures Traced(w')
  {
  }

  /** Storing the pid forked last. */
  lemma StoredTraced(w: World, pid: nat, w': World)
    requires Traced(w) && w.exit.None? && pid in Window(w.stack)
    requires w' == w.(log := w.log + [Stored(pid)], diPid := Some(pid), stack := w'.stack)
    requires Pending(w') == Pending(w) && Window(w'.stack) <= Window(w.stack)
    ensures Traced(w')
  {
    assert LogKeeps(w') by { LogAppend(w, w', Stored(pid)); }
    assert FateKeeps(w') by { StoredFate(w, pid, w'); }
  }

  lemma StoredFate(w: World, pid: nat, w': World)
    requires FateKeeps(w) && pid in Window(w.stack) && Window(w'.stack) <= Window(w.stack)
    requires w' == w.(log := w.log + [Stored(pid)], diPid := Some(pid), stack := w'.stack)
    ensures FateKeeps(w')
  {
    Logged(w.log, Stored(pid));
    assert Live(w') == Live(w);
  }

  lemma IgnoreTraced(w: World)
    requires Keeps(w) && Traced(w) && w.exit.None?
    ensures Traced(RunStop(w, Ignore))
  {
    LogAppend(w, RunStop(w, Ignore), Ignoring);
    Logged(w.log, Ignoring);
  }

  lemma RunStopFrame(w: World, pc: StopPc)
    ensures RunStop(w, pc).stack == w.stack && RunStop(w, pc).exit == w.exit
  {
  }

  lemma RunStopTraced(w: World, pc: StopPc)
    requires Keeps(w) && Traced(w) && w.exit.None? && pc != Finish
    ensures Traced(RunStop(w, pc))
  {
    match pc
    case Ignore => IgnoreTraced(w);
    case Term(pid) => PlainTraced(w, Asked(pid));
    case Kill(pid) => KillTraced(w, pid);
    case ReadPid =>
  }

  lemma KillTraced(w: World, pid: nat)
    requires Keeps(w) && Traced(w)
    ensures Traced(RunStop(w, Kill(pid)))
  {
    PlainTraced(w, Forced(pid));
    if pid in w.alive {
      DeathTraced(Log(w, Forced(pid)), pid, Killed);
    }
  }

  /** A signal sent to tincd. */
  lemma PlainTraced(w: World, e: Event)
    requires Keeps(w) && Traced(w) && (e.Asked? || e.Forced?)
    ensures Keeps(Log(w, e)) && Traced(Log(w, e))
  {
    assert LogKeeps(Log(w, e)) by { LogAppend(w, Log(w, e), e); }
    assert FateKeeps(Log(w, e)) by { FateAppend(w, Log(w, e), e); }
    StopsKeepMonotone(w, Log(w, e), w.stack);
  }

  /** Moving on inside a stop. */
  lemma RestackTraced(w: World, stack: Stack)
    requires Traced(w) && w.exit.None?
    requires Pending(w.(stack := stack)) == Pending(w) && Window(stack) == Window(w.stack) && ChldOf(stack) == ChldOf(w.stack)
    ensures Traced(w.(stack := stack))
  {
  }

  lemma StopTraced(w: World, pc: StopPc, stack: Stack)
    requires Keeps(w) && Traced(w) && w.exit.None? && pc != Finish
    requires Pending(w.(stack := stack)) == Pending(w) && Window(stack) == Window(w.stack) && ChldOf(stack) == ChldOf(w.stack)
    ensures Traced(RunStop(w, pc).(stack := stack))
  {
    RunStopFrame(w, pc);
    RunStopTraced(w, pc);
    RestackTraced(RunStop(w, pc), stack);
  }

  lemma MainTraced(w: World, forkOk: bool)
    requires Keeps(w) && Traced(w) && w.exit.None? && w.stack.Base?
    ensures Traced(RunMain(w, w.stack.main, forkOk))
  {
    var w' := RunMain(w, w.stack.main, forkOk);
    match w.stack.main
    case Loop => ReadTraced(w);
    case OldTerm => OldTraced(w, OldAsked, w');
    case OldKill => OldTraced(w, OldKilled, w');
    case Fork => if forkOk { ForkTraced(w); } else { LeaveTraced(w, ForkFailed); }
    case Store(pid) => StoredTraced(w, pid, w');
    case Check => if w.oneshot { LeaveTraced(w, Cause.Oneshot); } else { MoveTraced(w, w'); }
    case Restarting(pc) => if pc == Finish { MoveTraced(w, w'); } else { StopTraced(w, pc, w'.stack); }
    case Stopping(pc) => if pc == Finish { LeaveTraced(w, Stopped); } else { StopTraced(w, pc, w'.stack); }
  }

  lemma TermTraced(w: World, pc: StopPc, below: Stack)
    requires Keeps(w) && Traced(w) && w.exit.None? && w.stack == InTerm(pc, below)
    ensures Traced(Run(w, true, 0))
  {
    if pc == Finish { LeaveTraced(w, Terminated); } else { StopTraced(w, pc, InTerm(NextPc(w, pc), below)); }
  }

  lemma FatalTraced(w: World, below: Stack, pid: nat)
    requires Keeps(w) && Traced(w) && w.exit.None? && w.stack == InChld(Reap, below) && pid in w.zombies
    requires w.diPid == Some(pid) && w.zombies[pid] == Exited(1)
    ensures Traced(ReapOne(w, below, pid))
  {
    var e := Reaped(pid, Exited(1), true);
    var mid := Log(w, e).(zombies := w.zombies - {pid}, exit := Some(Fatal));
    WindowIs(below);
    ChldFacts(below);
    LogAppend(w, mid, e);
    Logged(w.log, e);
    LogAppend(mid, ReapOne(w, below, pid), Left(Fatal));
    Logged(mid.log, Left(Fatal));
  }

  /** A restarting reap, with nothing forked that is not stored. */
  lemma RestartTraced(w: World, below: Stack, pid: nat)
    requires Keeps(w) && Traced(w) && w.exit.None? && w.stack == InChld(Reap, below) && pid in w.zombies
    requires w.diPid == Some(pid) && w.zombies[pid] != Exited(1)
    ensures Traced(ReapOne(w, below, pid))
  {
    var w' := ReapOne(w, below, pid);
    WindowIs(below);
    ChldFacts(below);
    LogAppend(w, w', Reaped(pid, w.zombies[pid], true));
    Logged(w.log, Reaped(pid, w.zombies[pid], true));
  }

  /** A reaped child that is not known. */
  lemma MissTraced(w: World, below: Stack, pid: nat)
    requires Keeps(w) && Traced(w) && w.exit.None? && w.stack == InChld(Reap, below) && pid in w.zombies
    requires w.diPid != Some(pid)
    ensures Traced(ReapOne(w, below, pid))
  {
    var e, w' := Reaped(pid, w.zombies[pid], false), ReapOne(w, below, pid);
    assert Idle(ChldOf(below)) by { ChldFacts(below); }
    assert LogKeeps(w') by { LogAppend(w, w', e); }
    assert pid in Live(w);
    assert FateKeeps(w') by { MissFate(w, w', e); }
  }

  lemma MissFate(w: World, w': World, e: Event)
    requires FateKeeps(w) && e.Reaped? && !e.known && e.pid in w.zombies && e.pid !in w.alive && e.pid < w.nextPid
    requires w' == w.(log := w.log + [e], zombies := w.zombies - {e.pid}, stack := w'.stack)
    requires Window(w'.stack) == Window(w.stack) && Idle(ChldOf(w'.stack)) && Idle(ChldOf(w.stack))
    ensures FateKeeps(w')
  {
    Logged(w.log, e);
    assert Live(w') == Live(w) - {e.pid};
  }

  lemma RespawnTraced(w: World, below: Stack)
    requires Keeps(w) && Traced(w) && w.exit.None? && w.stack == InChld(Refork, below)
    ensures Traced(Spawn(w).(stack := InChld(Restore(w.nextPid), below)))
  {
    ChldFacts(below);
    LogAppend(w, Spawn(w).(stack := InChld(Restore(w.nextPid), below)), Started(w.nextPid));
    Logged(w.log, Started(w.nextPid));
  }

  lemma ReforkTraced(w: World, below: Stack, forkOk: bool)
    requires Keeps(w) && Traced(w) && w.exit.None? && w.stack == InChld(Refork, below)
    ensures Traced(RunChld(w, Refork, below, forkOk, 0))
  {
    if forkOk { RespawnTraced(w, below); } else { LeaveTraced(w, ForkFailed); }
  }

  lemma ReturnTraced(w: World, chld: ChldPc, below: Stack)
    requires Keeps(w) && Traced(w) && w.exit.None? && w.stack == InChld(chld, below)
    requires chld.Restore? || (chld == Reap && Live(w) == {})
    ensures Traced(RunChld(w, chld, below, true, 0))
  {
    ChldFacts(below);
    var w' := RunChld(w, chld, below, true, 0);
    if chld.Restore? { StoredTraced(w, chld.pid, w'); } else { MoveTraced(w, w'); }
  }

  lemma WorkerTraced(w: World, forkOk: bool, reap: nat)
    requires Keeps(w) && Traced(w) && w.exit.None?
    ensures Traced(Run(w, forkOk, reap))
  {
    match w.stack
    case Base(_) => MainTraced(w, forkOk);
    case InTerm(pc, below) => TermTraced(w, pc, below);
    case InChld(chld, below) =>
      match chld
      case Reap =>
        if reap in w.zombies {
          if w.diPid != Some(reap) { MissTraced(w, below, reap); }
          else if w.zombies[reap] == Exited(1) { FatalTraced(w, below, reap); }
          else { RestartTraced(w, below, reap); }
        }
        else if w.zombies == map[] && w.alive == {} { ReturnTraced(w, Reap, below); }
      case Refork => ReforkTraced(w, below, forkOk);
      case Restore(_) => ReturnTraced(w, chld, below);
  }

  lemma SignalTraced(w: World, e: Step)
    requires Keeps(w) && Traced(w) && w.exit.None? && (e == TermArrives || e == ChldArrives)
    ensures Traced(Do(w, e))
  {
    ChldFacts(w.stack);
    MoveTraced(w, Do(w, e));
  }

  lemma StepTraced(w: World, e: Step)
    requires Keeps(w) && Traced(w)
    ensures Traced(Do(w, e))
  {
    match e
    case TincdDies(pid, status) => if pid in w.alive { DeathTraced(w, pid, status); }
    case WorkerRuns(forkOk, reap) => if w.exit.None? { WorkerTraced(w, forkOk, reap); }
    case ParentWrites(stop) => if w.exit.None? { WriteTraced(w, stop); }
    case ParentGoes => SentTraced(w, w.sent, Closed);
    case _ => if w.exit.None? { SignalTraced(w, e); }
  }

  lemma WriteTraced(w: World, stop: bool)
    requires Keeps(w) && Traced(w)
    ensures Traced(Write(w, stop))
  {
    SentTraced(w, Write(w, stop).sent, Write(w, stop).parent);
  }

  lemma SentTraced(w: World, sent: seq<Command>, parent: Parent)
    requires Traced(w) && w.sent <= sent
    ensures Traced(w.(sent := sent, parent := parent))
  {
    assert sent[..w.consumed] == w.sent[..w.consumed];
  }
}
