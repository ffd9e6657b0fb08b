/**
  * The worker protocol of main.c and daemon.c: an unprivileged parent sends one-byte commands down a pipe to a worker
  * that starts, stops and restarts tincd, while signals interrupt the worker between any two of its steps.
  */
module Supervisor {
  import opened Options

  datatype Command = SignalOld | Start | Restart | Stop

  /** Where the parent is: before SIGNAL_OLD, before START, in its update loop, or gone with its end of the pipe closed. */
  datatype Parent = Booting | Signalled | Serving | Closed

  datatype Status = Exited(code: nat) | Killed

  /** daemon_stop after the optional SIG_IGN in front of it; the pid is read once and kept in a local. */
  datatype StopPc = Ignore | ReadPid | Term(pid: nat) | Kill(pid: nat) | Finish

  /** The command loop; Fork, Store and Check are daemon_start and the oneshot test behind it. */
  datatype MainPc = Loop | OldTerm | OldKill | Fork | Store(pid: nat) | Check | Restarting(pc: StopPc) | Stopping(pc: StopPc)

  /** The SIGCHLD handler: waitpid, then daemon_start for a tincd to be restarted. */
  datatype ChldPc = Reap | Refork | Restore(pid: nat)

  /** The activations of the worker: the topmost runs, those below wait for it to return. */
  datatype Stack = Base(main: MainPc) | InTerm(pc: StopPc, below: Stack) | InChld(chld: ChldPc, below: Stack)

  datatype Cause = Oneshot | ForkFailed | Fatal | Stopped | Terminated

  datatype Event =
    | Read(c: Command)
    | OldAsked
    | OldKilled
    | Asked(pid: nat)
    | Forced(pid: nat)
    | Stored(pid: nat)
    | Started(pid: nat)
    | Died(pid: nat)
    | Reaped(pid: nat, status: Status, known: bool)
    | Ignoring
    | Left(cause: Cause)

  datatype World = World(
    oneshot: bool,
    sent: seq<Command>, consumed: nat, parent: Parent,
    stack: Stack, ignoring: bool, diPid: Option<nat>,
    alive: set<nat>, zombies: map<nat, Status>, nextPid: nat,
    exit: Option<Cause>, log: seq<Event>)

  function Init(oneshot: bool): World {
    World(oneshot, [], 0, Booting, Base(Loop), false, None, {}, map[], 0, None, [])
  }

  /** What can happen next; a step that is not possible leaves the world unchanged. */
  datatype Step =
    | ParentWrites(stop: bool)
    | ParentGoes
    | TincdDies(pid: nat, status: Status)
    | TermArrives
    | ChldArrives
    | WorkerRuns(forkOk: bool, reap: nat)

  function Do(w: World, e: Step): World {
    match e
    case ParentWrites(stop) => if w.exit.Some? then w else Write(w, stop)
    case ParentGoes => w.(parent := Closed)
    case TincdDies(pid, status) => if pid in w.alive then Die(w, pid, status) else w
    case TermArrives => if w.exit.Some? then w else w.(stack := InTerm(Ignore, w.stack))
    case ChldArrives =>
      if w.exit.Some? || w.ignoring || HasChld(w.stack) then w else w.(stack := InChld(Reap, w.stack))
    case WorkerRuns(forkOk, reap) => if w.exit.Some? then w else Run(w, forkOk, reap)
  }

  /** The next byte the parent sends. */
  function Write(w: World, stop: bool): World {
    match w.parent
    case Booting => w.(sent := w.sent + [SignalOld], parent := Signalled)
    case Signalled => w.(sent := w.sent + [Start], parent := if w.oneshot then Closed else Serving)
    case Serving => if stop then w.(sent := w.sent + [Stop], parent := Closed) else w.(sent := w.sent + [Restart])
    case Closed => w
  }

  /** A dead child waits to be reaped, unless the worker ignores SIGCHLD. */
  function Die(w: World, pid: nat, status: Status): World {
    Log(w, Died(pid)).(alive := w.alive - {pid}, zombies := if w.ignoring then w.zombies else w.zombies[pid := status])
  }

  /** SIGCHLD is blocked while its handler runs. */
  predicate HasChld(s: Stack) {
    match s
    case Base(_) => false
    case InTerm(_, below) => HasChld(below)
    case InChld(_, _) => true
  }

  function Log(w: World, e: Event): World { w.(log := w.log + [e]) }

  function Leave(w: World, cause: Cause): World { Log(w, Left(cause)).(exit := Some(cause)) }

  /** fork: the child gets a pid never used before. */
  function Spawn(w: World): World {
    Log(w, Started(w.nextPid)).(alive := w.alive + {w.nextPid}, nextPid := w.nextPid + 1)
  }

  /** The next step of the topmost activation. */
  function Run(w: World, forkOk: bool, reap: nat): World {
    match w.stack
    case Base(main) => RunMain(w, main, forkOk)
    case InTerm(pc, below) => if pc == Finish then Leave(w, Terminated) else RunStop(w, pc).(stack := InTerm(NextPc(w, pc), below))
    case InChld(chld, below) => RunChld(w, chld, below, forkOk, reap)
  }

  function RunMain(w: World, main: MainPc, forkOk: bool): World {
    match main
    case Loop =>
      if w.consumed < |w.sent| then
        var c := w.sent[w.consumed];
        Log(w, Read(c)).(consumed := w.consumed + 1, stack := Base(Dispatch(c)))
      else if w.parent == Closed then w.(stack := InTerm(Ignore, w.stack))
      else w
    case OldTerm => Log(w, OldAsked).(stack := Base(OldKill))
    case OldKill => Log(w, OldKilled).(stack := Base(Loop))
    case Fork => if forkOk then Spawn(w).(stack := Base(Store(w.nextPid))) else Leave(w, ForkFailed)
    case Store(pid) => Log(w, Stored(pid)).(diPid := Some(pid), stack := Base(Check))
    case Check => if w.oneshot then Leave(w, Oneshot) else w.(stack := Base(Loop))
    case Restarting(pc) =>
      if pc == Finish then w.(stack := Base(Loop)) else RunStop(w, pc).(stack := Base(Restarting(NextPc(w, pc))))
    case Stopping(pc) =>
      if pc == Finish then Leave(w, Stopped) else RunStop(w, pc).(stack := Base(Stopping(NextPc(w, pc))))
  }

  function Dispatch(c: Command): MainPc {
    match c
    case SignalOld => OldTerm
    case Start => Fork
    case Restart => Restarting(ReadPid)
    case Stop => Stopping(Ignore)
  }

  /** SIGTERM leaves it to tincd when to die; SIGKILL takes effect at once. */
  function RunStop(w: World, pc: StopPc): World {
    match pc
    case Ignore => Log(w, Ignoring).(ignoring := true)
    case Term(pid) => Log(w, Asked(pid))
    case Kill(pid) => if pid in w.alive then Die(Log(w, Forced(pid)), pid, Killed) else Log(w, Forced(pid))
    case _ => w
  }

  function NextPc(w: World, pc: StopPc): StopPc {
    match pc
    case Ignore => ReadPid
    case ReadPid => if w.diPid.None? then Finish else Term(w.diPid.value)
    case Term(pid) => Kill(pid)
    case Kill(_) => Finish
    case Finish => Finish
  }

  /** waitpid blocks while there are only living children, and returns at once when there are none. */
  function RunChld(w: World, chld: ChldPc, below: Stack, forkOk: bool, reap: nat): World {
    match chld
    case Reap =>
      if reap in w.zombies then ReapOne(w, below, reap)
      else if w.zombies == map[] && w.alive == {} then w.(stack := below)
      else w
    case Refork => if forkOk then Spawn(w).(stack := InChld(Restore(w.nextPid), below)) else Leave(w, ForkFailed)
    case Restore(pid) => Log(w, Stored(pid)).(diPid := Some(pid), stack := below)
  }

  function ReapOne(w: World, below: Stack, pid: nat): World
    requires pid in w.zombies
  {
    var known := w.diPid == Some(pid);
    var w' := Log(w, Reaped(pid, w.zombies[pid], known)).(zombies := w.zombies - {pid});
    if !known then w'.(stack := below)
    else if w.zombies[pid] == Exited(1) then Leave(w', Fatal)
    else w'.(stack := InChld(Refork, below))
  }

  /** A whole run. */
  function Exec(w: World, steps: seq<Step>): World {
    if steps == [] then w else Do(Exec(w, steps[..|steps| - 1]), steps[|steps| - 1])
  }

  // ----- what every run keeps

  /** SIGNAL_OLD, START, RESTART*, STOP, or a prefix of it. */
  predicate Grammar(cs: seq<Command>) {
    forall i | 0 <= i < |cs| ::
      if i == 0 then cs[i] == SignalOld
      else if i == 1 then cs[i] == Start
      else cs[i] == Restart || (cs[i] == Stop && i == |cs| - 1)
  }

  predicate ParentKeeps(w: World) {
    && Grammar(w.sent)
    && w.consumed <= |w.sent|
    && (w.parent == Booting ==> |w.sent| == 0)
    && (w.parent == Signalled ==> |w.sent| == 1)
    && (w.parent == Serving ==> |w.sent| >= 2 && w.sent[|w.sent| - 1] != Stop)
  }

  function MainOf(s: Stack): MainPc {
    match s
    case Base(main) => main
    case InTerm(_, below) => MainOf(below)
    case InChld(_, below) => MainOf(below)
  }

  function ChldOf(s: Stack): Option<ChldPc> {
    match s
    case Base(_) => None
    case InTerm(_, below) => ChldOf(below)
    case InChld(chld, _) => Some(chld)
  }

  /** The handler of SIGCHLD is never entered twice. */
  predicate OneChld(s: Stack) {
    match s
    case Base(_) => true
    case InTerm(_, below) => OneChld(below)
    case InChld(_, below) => !HasChld(below) && OneChld(below)
  }

  /** No activation has ignored SIGCHLD yet. */
  predicate NoneIgnored(s: Stack) {
    match s
    case Base(main) => main.Stopping? ==> main.pc == Ignore
    case InTerm(pc, below) => pc == Ignore && NoneIgnored(below)
    case InChld(_, below) => NoneIgnored(below)
  }

  /** Some activation has, and only activations of sigterm are above it. */
  predicate TopIgnored(s: Stack) {
    match s
    case Base(main) => main.Stopping? && main.pc != Ignore
    case InTerm(pc, below) => pc != Ignore || TopIgnored(below)
    case InChld(_, _) => false
  }

  /** The pid a daemon_start under way has forked and not stored yet. */
  function Window(s: Stack): set<nat> {
    match s
    case Base(main) => if main.Store? then {main.pid} else {}
    case InTerm(_, below) => Window(below)
    case InChld(chld, below) => (if chld.Restore? then {chld.pid} else {}) + Window(below)
  }

  /** A stop that ignores SIGCHLD works on the current tincd, and has killed it when it is done. */
  predicate StopKeeps(w: World, pc: StopPc) {
    match pc
    case Term(pid) => w.diPid == Some(pid)
    case Kill(pid) => w.diPid == Some(pid)
    case Finish => w.alive <= Window(w.stack)
    case _ => true
  }

  predicate StopsKeep(w: World, s: Stack) {
    match s
    case Base(main) => main.Stopping? ==> StopKeeps(w, main.pc)
    case InTerm(pc, below) => StopKeeps(w, pc) && StopsKeep(w, below)
    case InChld(_, below) => StopsKeep(w, below)
  }

  predicate StackKeeps(w: World) {
    && OneChld(w.stack)
    && (if w.ignoring then TopIgnored(w.stack) else NoneIgnored(w.stack))
    && StopsKeep(w, w.stack)
    && (MainOf(w.stack).Restarting? ==> MainOf(w.stack).pc != Ignore)
  }

  function Live(w: World): set<nat> { w.alive + w.zombies.Keys }

  function Current(w: World): set<nat> { if w.diPid.Some? then {w.diPid.value} else {} }

  predicate Idle(chld: Option<ChldPc>) { chld in {None, Some(Reap)} }

  /** The children there are: the current one, or the one just forked. */
  predicate ChildKeeps(w: World) {
    var main, chld := MainOf(w.stack), ChldOf(w.stack);
    && Live(w) <= Current(w) + Window(w.stack)
    && w.alive !! w.zombies.Keys
    && (forall p | p in Current(w) + Window(w.stack) :: p < w.nextPid)
    && Current(w) !! Window(w.stack)
    && (w.consumed <= 1 ==> w.diPid.None? && main in {Loop, OldTerm, OldKill})
    && (main in {OldTerm, OldKill} ==> w.consumed == 1)
    && (main == Fork || main.Store? ==> w.diPid.None? && w.consumed == 2)
    && (w.consumed >= 2 && w.diPid.None? ==> main == Fork || main.Store?)
    && (w.diPid.None? ==> Idle(chld))
    && (chld == Some(Refork) ==> Live(w) == {})
    && (chld.Some? && chld.value.Restore? ==> Live(w) <= Window(w.stack))
  }

  lemma {:induction false} ChldFacts(s: Stack)
    ensures HasChld(s) <==> ChldOf(s).Some?
    ensures TopIgnored(s) ==> !NoneIgnored(s)
  {
    match s
    case Base(_) =>
    case InTerm(_, below) => ChldFacts(below);
    case InChld(_, below) => ChldFacts(below);
  }

  /** The pids of the two places that can hold one. */
  lemma {:induction false} WindowIs(s: Stack)
    requires OneChld(s)
    ensures Window(s) == (if MainOf(s).Store? then {MainOf(s).pid} else {})
                         + (if ChldOf(s).Some? && ChldOf(s).value.Restore? then {ChldOf(s).value.pid} else {})
  {
    match s
    case Base(_) =>
    case InTerm(_, below) => WindowIs(below);
    case InChld(_, below) =>
      WindowIs(below);
      ChldFacts(below);
  }

  /** The worker reads what was sent and writes nothing; only its command loop takes a byte. */
  predicate PipeKept(w: World, w': World) {
    w'.sent == w.sent && w'.parent == w.parent && w'.oneshot == w.oneshot && w.consumed <= w'.consumed
    && (w'.consumed == w.consumed || (w'.consumed == w.consumed + 1 && w.consumed < |w.sent|))
  }

  lemma RunStopPipe(w: World, pc: StopPc)
    ensures PipeKept(w, RunStop(w, pc))
  {
  }

  lemma RunMainPipe(w: World, main: MainPc, forkOk: bool)
    ensures PipeKept(w, RunMain(w, main, forkOk))
  {
    match main
    case Restarting(pc) => RunStopPipe(w, pc);
    case Stopping(pc) => RunStopPipe(w, pc);
    case _ =>
  }

  lemma RunChldPipe(w: World, chld: ChldPc, below: Stack, forkOk: bool, reap: nat)
    ensures PipeKept(w, RunChld(w, chld, below, forkOk, reap))
  {
  }

  lemma RunPipe(w: World, forkOk: bool, reap: nat)
    ensures PipeKept(w, Run(w, forkOk, reap))
  {
    match w.stack
    case Base(main) => RunMainPipe(w, main, forkOk);
    case InTerm(pc, _) => RunStopPipe(w, pc);
    case InChld(chld, below) => RunChldPipe(w, chld, below, forkOk, reap);
  }

  lemma WriteKeeps(w: World, stop: bool)
    requires ParentKeeps(w)
    ensures ParentKeeps(Write(w, stop))
  {
  }

  lemma ParentStep(w: World, e: Step)
    requires ParentKeeps(w)
    ensures ParentKeeps(Do(w, e))
  {
    match e
    case ParentWrites(stop) => WriteKeeps(w, stop);
    case WorkerRuns(forkOk, reap) => RunPipe(w, forkOk, reap);
    case _ =>
  }

  lemma {:induction false} NoneIgnoredKeeps(w: World, s: Stack)
    requires NoneIgnored(s)
    ensures StopsKeep(w, s)
  {
    match s
    case Base(_) =>
    case InTerm(_, below) => NoneIgnoredKeeps(w, below);
    case InChld(_, below) => NoneIgnoredKeeps(w, below);
  }

  lemma {:induction false} StopsKeepMonotone(w: World, w': World, s: Stack)
    requires StopsKeep(w, s) && w'.diPid == w.diPid && w'.alive <= w.alive && Window(w'.stack) == Window(w.stack)
    ensures StopsKeep(w', s)
  {
    match s
    case Base(_) =>
    case InTerm(_, below) => StopsKeepMonotone(w, w', below);
    case InChld(_, below) => StopsKeepMonotone(w, w', below);
  }

  predicate Keeps(w: World) { ParentKeeps(w) && StackKeeps(w) && ChildKeeps(w) }

  lemma CommandIs(w: World)
    requires ParentKeeps(w) && w.consumed < |w.sent|
    ensures w.consumed == 0 <==> w.sent[w.consumed] == SignalOld
    ensures w.consumed == 1 <==> w.sent[w.consumed] == Start
  {
  }

  lemma MainActs(w: World, forkOk: bool)
    requires Keeps(w) && w.stack.Base? && !w.stack.main.Restarting? && !w.stack.main.Stopping?
    ensures StackKeeps(RunMain(w, w.stack.main, forkOk)) && ChildKeeps(RunMain(w, w.stack.main, forkOk))
  {
    if w.stack.main == Loop && w.consumed < |w.sent| {
      CommandIs(w);
    }
  }

  lemma MainRestarts(w: World, forkOk: bool)
    requires Keeps(w) && w.stack.Base? && w.stack.main.Restarting?
    ensures StackKeeps(RunMain(w, w.stack.main, forkOk)) && ChildKeeps(RunMain(w, w.stack.main, forkOk))
  {
  }

  lemma MainStops(w: World, forkOk: bool)
    requires Keeps(w) && w.stack.Base? && w.stack.main.Stopping?
    ensures StackKeeps(RunMain(w, w.stack.main, forkOk)) && ChildKeeps(RunMain(w, w.stack.main, forkOk))
  {
  }

  lemma TermIgnores(w: World, below: Stack)
    requires Keeps(w) && w.stack == InTerm(Ignore, below)
    ensures StackKeeps(Run(w, true, 0)) && ChildKeeps(Run(w, true, 0))
  {
    var w' := Run(w, true, 0);
    assert StopsKeep(w, below);
    StopsKeepMonotone(w, w', below);
  }

  lemma TermStops(w: World, pc: StopPc, below: Stack)
    requires Keeps(w) && w.stack == InTerm(pc, below) && pc != Ignore
    ensures StackKeeps(Run(w, true, 0)) && ChildKeeps(Run(w, true, 0))
  {
    var w' := Run(w, true, 0);
    StopsKeepMonotone(w, w', below);
  }

  lemma ReapKeeps(w: World, below: Stack, pid: nat)
    requires Keeps(w) && w.stack == InChld(Reap, below) && pid in w.zombies
    ensures StackKeeps(ReapOne(w, below, pid)) && ChildKeeps(ReapOne(w, below, pid))
  {
    var w' := ReapOne(w, below, pid);
    ChldFacts(below);
    NoneIgnoredKeeps(w', below);
    WindowIs(below);
    assert w'.zombies.Keys == w.zombies.Keys - {pid};
  }

  lemma ReforkKeeps(w: World, below: Stack, forkOk: bool)
    requires Keeps(w) && w.stack == InChld(Refork, below)
    ensures StackKeeps(RunChld(w, Refork, below, forkOk, 0)) && ChildKeeps(RunChld(w, Refork, below, forkOk, 0))
  {
    var w' := RunChld(w, Refork, below, forkOk, 0);
    ChldFacts(below);
    NoneIgnoredKeeps(w', below);
    WindowIs(below);
  }

  lemma ReturnKeeps(w: World, chld: ChldPc, below: Stack)
    requires Keeps(w) && w.stack == InChld(chld, below) && (chld.Restore? || (chld == Reap && Live(w) == {}))
    ensures StackKeeps(RunChld(w, chld, below, true, 0)) && ChildKeeps(RunChld(w, chld, below, true, 0))
  {
    var w' := RunChld(w, chld, below, true, 0);
    ChldFacts(below);
    NoneIgnoredKeeps(w', below);
    WindowIs(below);
  }

  lemma ChldActs(w: World, forkOk: bool, reap: nat)
    requires Keeps(w) && w.stack.InChld?
    ensures StackKeeps(Run(w, forkOk, reap)) && ChildKeeps(Run(w, forkOk, reap))
  {
    var below := w.stack.below;
    match w.stack.chld
    case Reap =>
      if reap in w.zombies { ReapKeeps(w, below, reap); }
      else if w.zombies == map[] && w.alive == {} { ReturnKeeps(w, Reap, below); }
    case Refork => ReforkKeeps(w, below, forkOk);
    case Restore(pid) => ReturnKeeps(w, Restore(pid), below);
  }

  lemma WorkerActs(w: World, forkOk: bool, reap: nat)
    requires Keeps(w)
    ensures StackKeeps(Run(w, forkOk, reap)) && ChildKeeps(Run(w, forkOk, reap))
  {
    match w.stack
    case Base(main) =>
      if main.Restarting? { MainRestarts(w, forkOk); } else if main.Stopping? { MainStops(w, forkOk); } else { MainActs(w, forkOk); }
    case InTerm(pc, below) => if pc == Ignore { TermIgnores(w, below); } else { TermStops(w, pc, below); }
    case InChld(_, _) => ChldActs(w, forkOk, reap);
  }

  lemma DeathKeeps(w: World, pid: nat, status: Status)
    requires Keeps(w) && pid in w.alive
    ensures StackKeeps(Die(w, pid, status)) && ChildKeeps(Die(w, pid, status))
  {
    StopsKeepMonotone(w, Die(w, pid, status), w.stack);
  }

  lemma SignalKeeps(w: World, stack: Stack)
    requires Keeps(w) && (stack == InTerm(Ignore, w.stack) || (stack == InChld(Reap, w.stack) && !w.ignoring && !HasChld(w.stack)))
    ensures StackKeeps(w.(stack := stack)) && ChildKeeps(w.(stack := stack))
  {
    StopsKeepMonotone(w, w.(stack := stack), w.stack);
    ChldFacts(w.stack);
  }

  lemma OutsideKeeps(w: World, e: Step)
    requires Keeps(w) && !e.WorkerRuns?
    ensures StackKeeps(Do(w, e)) && ChildKeeps(Do(w, e))
  {
    match e
    case TincdDies(pid, status) => if pid in w.alive { DeathKeeps(w, pid, status); }
    case TermArrives => SignalKeeps(w, InTerm(Ignore, w.stack));
    case ChldArrives => if !w.ignoring && !HasChld(w.stack) { SignalKeeps(w, InChld(Reap, w.stack)); }
    case _ => StopsKeepMonotone(w, Do(w, e), w.stack);
  }

  lemma StepKeeps(w: World, e: Step)
    requires Keeps(w)
    ensures Keeps(Do(w, e))
  {
    assert ParentKeeps(Do(w, e)) by { ParentStep(w, e); }
    if e.WorkerRuns? { WorkerActs(w, e.forkOk, e.reap); } else { OutsideKeeps(w, e); }
  }
}
