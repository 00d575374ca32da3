// The run-switching protocol as a state machine.  Every shared access is one step: the atomic ids, the
// active-task slot, each snapshot write.  A guarded update is two steps, the load of the current run
// id and the write, so anything may happen in between.
module Supervisor {
  import opened Domain
  import opened Redis

  datatype Mode = Replay | Live

  datatype Status = Starting | Running | Switching | Failed | Stopped | Completed

  datatype Source = FromConfig | FromRuntime

  datatype ModeSnapshot = ModeSnapshot(
    mode: Mode,
    status: Status,
    symbols: seq<Symbol>,
    switchingSupported: bool,
    source: Source,
    lastStartedAt: Millis,
    lastSwitchedAt: Option<Millis>,
    lastError: Option<string>)

  datatype Command = Command(
    mode: string,
    symbols: Option<seq<string>>,
    resetState: Option<bool>,
    resetStorage: Option<bool>)

  datatype Request = Request(mode: Mode, symbols: seq<Symbol>, resetState: bool, resetStorage: bool)

  function RequestedMode(name: string): Option<Mode> {
    if name == "replay" then Some(Replay) else if name == "live" then Some(Live) else None
  }

  function RequestedSymbols(symbols: Option<seq<string>>, configured: seq<Symbol>): Option<seq<Symbol>> {
    match symbols
    case None => Some(configured)
    case Some(names) =>
      if names == [] then None
      else match SymbolsFrom(names)
        case Err(_) => None
        case Ok(parsed) => Some(parsed)
  }

  // What the command asks for, if it is acceptable: the mode it names, the flags it sets, the configured
  // symbols if it names none and otherwise the named ones in order.
  function Resolve(command: Command, configured: seq<Symbol>): (r: Option<Request>)
    ensures r.Some? <==> && command.mode in {"replay", "live"}
                         && (command.symbols.Some? ==>
                               && command.symbols.value != []
                               && forall i :: 0 <= i < |command.symbols.value| ==> NewSymbol(command.symbols.value[i]).Some?)
                         && (command.mode == "live" && command.symbols.None? ==> configured != [])
    ensures r.Some? ==> (r.value.mode.Live? <==> command.mode == "live")
    ensures r.Some? && command.symbols.None? ==> r.value.symbols == configured
    ensures r.Some? && command.symbols.Some? ==>
              && |r.value.symbols| == |command.symbols.value|
              && forall i :: 0 <= i < |r.value.symbols| ==> NewSymbol(command.symbols.value[i]) == Some(r.value.symbols[i])
    ensures r.Some? ==> (r.value.resetState <==> command.resetState == Some(true))
    ensures r.Some? ==> (r.value.resetStorage <==> command.resetStorage == Some(true))
    ensures r.Some? && r.value.mode.Live? ==> r.value.symbols != []
  {
    match (RequestedMode(command.mode), RequestedSymbols(command.symbols, configured))
    case (Some(mode), Some(symbols)) =>
      if mode.Live? && symbols == [] then None
      else Some(Request(mode, symbols, command.resetState == Some(true), command.resetStorage == Some(true)))
    case _ => None
  }

  type RunId = nat

  // How a task's work ended, when it has something to report.
  datatype Report = RanToEnd | Broke(error: string)

  // How the task itself ended.
  datatype Ending = Fine | Errored(error: string) | Panicked

  datatype TaskPhase = Working | Writing(report: Report) | Finished(ending: Ending)

  datatype Task = Task(kind: Mode, phase: TaskPhase)

  // Where a switch stands; each phase names what it does next.
  datatype Phase =
    | TakeNumber
    | StoreCurrent(run: RunId)
    | WriteSwitching(run: RunId)
    | TakeActive(run: RunId)
    | Join(run: RunId, previous: RunId)
    | CheckOldFailure(run: RunId, previous: RunId, error: string)
    | WriteOldFailure(run: RunId, previous: RunId, error: string)
    | CheckFailure(run: RunId, guarded: RunId, error: string)
    | WriteFailure(run: RunId, guarded: RunId, error: string)
    | LoadForReset(run: RunId)
    | Reset(run: RunId, guarded: RunId)
    | CheckStart(run: RunId)
    | WriteRunning(run: RunId)
    | Spawn(run: RunId)
    | SetActive(run: RunId)
    | CheckSwitched(run: RunId)
    | WriteSwitched(run: RunId)
    | Reply(run: RunId, failure: Option<string>)

  datatype Switch = Switch(request: Request, phase: Phase)

  datatype State = State(
    configured: seq<Symbol>,
    nextRunId: RunId,
    currentRunId: RunId,
    snapshot: ModeSnapshot,
    active: Option<RunId>,
    holder: Option<Switch>,
    tasks: map<RunId, Task>)

  datatype Action =
    | Arrive(command: Command)
    | Proceed(now: Millis, failure: Option<string>)
    | TaskReports(run: RunId, report: Report)
    | TaskEnds(run: RunId, ending: Ending)
    | TaskWrites(run: RunId)

  datatype SwitchResult = Switched(snapshot: ModeSnapshot) | Validation | Conflict | Execution(error: string)

  // ----- Snapshot writes -----

  function WithSwitching(snapshot: ModeSnapshot, request: Request): ModeSnapshot {
    snapshot.(mode := request.mode, status := Switching, symbols := request.symbols, source := FromRuntime,
              lastError := None)
  }

  function WithRunning(snapshot: ModeSnapshot, now: Millis): ModeSnapshot {
    snapshot.(status := Running, lastStartedAt := now, lastError := None)
  }

  function WithFailure(snapshot: ModeSnapshot, error: string): ModeSnapshot {
    snapshot.(status := Failed, lastError := Some(error))
  }

  function WithReport(snapshot: ModeSnapshot, report: Report): ModeSnapshot {
    match report
    case RanToEnd => snapshot.(status := Completed, lastError := None)
    case Broke(error) => WithFailure(snapshot, error)
  }

  function WithSwitched(snapshot: ModeSnapshot, request: Request, now: Millis): ModeSnapshot {
    snapshot.(mode := request.mode, symbols := request.symbols, source := FromRuntime,
              lastSwitchedAt := Some(now), lastError := None)
  }

  // ----- Steps -----

  predicate Unfinished(s: State, run: RunId) {
    run in s.tasks && !s.tasks[run].phase.Finished?
  }

  predicate Enabled(s: State, action: Action) {
    match action
    case Arrive(_) => true
    case Proceed(_, failure) =>
      && s.holder.Some?
      && (s.holder.value.phase.Join? ==>
            s.holder.value.phase.previous in s.tasks && !Unfinished(s, s.holder.value.phase.previous))
      && (failure.Some? ==> && s.holder.value.phase.Reset?
                            && (s.holder.value.request.resetState || s.holder.value.request.resetStorage))
    case TaskReports(run, report) =>
      run in s.tasks && s.tasks[run].phase.Working? && !(s.tasks[run].kind.Live? && report.RanToEnd?)
    case TaskEnds(run, ending) =>
      run in s.tasks && s.tasks[run].phase.Working? && !ending.Errored? && (ending.Fine? ==> s.tasks[run].kind.Live?)
    case TaskWrites(run) =>
      run in s.tasks && s.tasks[run].phase.Writing?
  }

  function EndingOf(report: Report): Ending {
    if report.Broke? then Errored(report.error) else Fine
  }

  function KindName(kind: Mode): string {
    if kind.Replay? then "Replay" else "Live"
  }

  // What joining an ended task reports; the task's own error is only the cause behind it.
  function JoinFailure(kind: Mode, ending: Ending): Option<string> {
    match ending
    case Fine => None
    case Errored(_) => Some(KindName(kind) + " ingestion task exited with an error")
    case Panicked => Some(KindName(kind) + " ingestion task failed to join")
  }

  function WithTask(s: State, run: RunId, phase: TaskPhase): State
    requires run in s.tasks
  {
    s.(tasks := s.tasks[run := s.tasks[run].(phase := phase)])
  }

  function At(s: State, phase: Phase): State
    requires s.holder.Some?
  {
    s.(holder := Some(s.holder.value.(phase := phase)))
  }

  // One step of the switch that holds the lock.
  function SwitchNext(s: State, now: Millis, failure: Option<string>): State
    requires Enabled(s, Proceed(now, failure))
  {
    var request := s.holder.value.request;
    match s.holder.value.phase
    case TakeNumber => At(s, StoreCurrent(s.nextRunId)).(nextRunId := s.nextRunId + 1)
    case StoreCurrent(run) => At(s, WriteSwitching(run)).(currentRunId := run)
    case WriteSwitching(run) => At(s, TakeActive(run)).(snapshot := WithSwitching(s.snapshot, request))
    case TakeActive(run) =>
      if s.active.Some? then At(s, Join(run, s.active.value)).(active := None) else At(s, LoadForReset(run))
    case Join(run, previous) =>
      (match JoinFailure(s.tasks[previous].kind, s.tasks[previous].phase.ending)
       case None => At(s, LoadForReset(run))
       case Some(error) => At(s, CheckOldFailure(run, previous, error)))
    case CheckOldFailure(run, previous, error) =>
      At(s, if s.currentRunId == previous then WriteOldFailure(run, previous, error) else CheckFailure(run, run, error))
    case WriteOldFailure(run, previous, error) =>
      At(s, CheckFailure(run, run, error)).(snapshot := WithFailure(s.snapshot, error))
    case CheckFailure(run, guarded, error) =>
      At(s, if s.currentRunId == guarded then WriteFailure(run, guarded, error) else Reply(run, Some(error)))
    case WriteFailure(run, guarded, error) =>
      At(s, Reply(run, Some(error))).(snapshot := WithFailure(s.snapshot, error))
    case LoadForReset(run) => At(s, Reset(run, s.currentRunId))
    case Reset(run, guarded) =>
      At(s, if failure.Some? then CheckFailure(run, guarded, failure.value) else CheckStart(run))
    case CheckStart(run) =>
      At(s, if s.active.Some? then CheckFailure(run, run, "ingestion task is already running")
            else if s.currentRunId == run then WriteRunning(run) else Spawn(run))
    case WriteRunning(run) => At(s, Spawn(run)).(snapshot := WithRunning(s.snapshot, now))
    case Spawn(run) => At(s, SetActive(run)).(tasks := s.tasks[run := Task(request.mode, Working)])
    case SetActive(run) => At(s, CheckSwitched(run)).(active := Some(run))
    case CheckSwitched(run) => At(s, if s.currentRunId == run then WriteSwitched(run) else Reply(run, None))
    case WriteSwitched(run) => At(s, Reply(run, None)).(snapshot := WithSwitched(s.snapshot, request, now))
    case Reply(_, _) => s.(holder := None)
  }

  function Next(s: State, action: Action): State
    requires Enabled(s, action)
  {
    match action
    case Arrive(command) =>
      (match Resolve(command, s.configured)
       case None => s
       case Some(request) => if s.holder.Some? then s else s.(holder := Some(Switch(request, TakeNumber))))
    case Proceed(now, failure) => SwitchNext(s, now, failure)
    case TaskReports(run, report) =>
      WithTask(s, run, if s.currentRunId == run then Writing(report) else Finished(EndingOf(report)))
    case TaskEnds(run, ending) => WithTask(s, run, Finished(ending))
    case TaskWrites(run) =>
      var report := s.tasks[run].phase.report;
      WithTask(s, run, Finished(EndingOf(report))).(snapshot := WithReport(s.snapshot, report))
  }

  // What a step answers to a caller of the switch operation, if anything.
  function Answer(s: State, action: Action): Option<SwitchResult>
    requires Enabled(s, action)
  {
    match action
    case Arrive(command) =>
      if Resolve(command, s.configured).None? then Some(Validation)
      else if s.holder.Some? then Some(Conflict)
      else None
    case Proceed(_, _) =>
      (match s.holder.value.phase
       case Reply(_, None) => Some(Switched(s.snapshot))
       case Reply(_, Some(error)) => Some(Execution(error))
       case _ => None)
    case _ => None
  }

  // The run on whose behalf a step writes the snapshot.
  function Writer(s: State, action: Action): Option<RunId>
    requires Enabled(s, action)
  {
    match action
    case Proceed(_, _) =>
      (match s.holder.value.phase
       case WriteSwitching(run) => Some(run)
       case WriteOldFailure(_, previous, _) => Some(previous)
       case WriteFailure(_, guarded, _) => Some(guarded)
       case WriteRunning(run) => Some(run)
       case WriteSwitched(run) => Some(run)
       case _ => None)
    case TaskWrites(run) => Some(run)
    case _ => None
  }

  // Only the named writes touch the snapshot.
  lemma OnlyWritersWrite(s: State, action: Action)
    requires Enabled(s, action)
    ensures Next(s, action).snapshot != s.snapshot ==> Writer(s, action).Some?
  {
  }

  // The server starts serving when run 1 has been marked running and spawned.
  predicate Initial(s: State) {
    && s.nextRunId == 2 && s.currentRunId == 1 && s.active == Some(1) && s.holder.None?
    && s.tasks.Keys == {1} && s.tasks[1].phase.Working?
    && s.snapshot.status.Running? && s.snapshot.source.FromConfig? && s.snapshot.lastError.None?
    && s.snapshot.lastSwitchedAt.None?
    && s.snapshot.symbols == s.configured && s.snapshot.mode == s.tasks[1].kind
  }

  // A run from the initial state: the states before and after each action.
  ghost predicate IsRun(states: seq<State>, actions: seq<Action>) {
    && |states| == |actions| + 1 && Initial(states[0])
    && forall i :: 0 <= i < |actions| ==> Enabled(states[i], actions[i]) && states[i + 1] == Next(states[i], actions[i])
  }
}
