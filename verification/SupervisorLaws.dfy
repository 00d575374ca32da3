// Safety of run switching over every interleaving of switches, tasks and refused callers.
module SupervisorLaws {
  import opened Domain
  import opened Supervisor

  // ----- The task protocol -----

  // The only run whose task may still be going.
  function LiveRun(s: State): Option<RunId> {
    if s.holder.None? then s.active
    else match s.holder.value.phase
      case Join(_, previous) => Some(previous)
      case SetActive(run) => Some(run)
      case _ => s.active
  }

  // The previous run's task has not been joined yet.
  predicate Draining(phase: Phase) {
    phase.WriteSwitching? || phase.TakeActive? || phase.Join?
  }

  // It has, and the new one is not spawned, or never will be.
  predicate Quiet(phase: Phase) {
    match phase
    case CheckOldFailure(_, _, _) => true
    case WriteOldFailure(_, _, _) => true
    case CheckFailure(_, _, _) => true
    case WriteFailure(_, _, _) => true
    case LoadForReset(_) => true
    case Reset(_, _) => true
    case CheckStart(_) => true
    case WriteRunning(_) => true
    case Spawn(_) => true
    case Reply(_, failure) => failure.Some?
    case _ => false
  }

  predicate Launched(phase: Phase) {
    match phase
    case SetActive(_) => true
    case CheckSwitched(_) => true
    case WriteSwitched(_) => true
    case Reply(_, failure) => failure.None?
    case _ => false
  }

  ghost predicate HolderInv(s: State, phase: Phase) {
    && (phase.TakeNumber? || phase.StoreCurrent? ==> s.active.Some? ==> s.active.value == s.currentRunId)
    && (phase.StoreCurrent? ==> s.currentRunId < phase.run == s.nextRunId - 1)
    && (Draining(phase) || Quiet(phase) ==> && phase.run == s.currentRunId && phase.run !in s.tasks
                                            && (s.active.Some? ==> s.active.value < phase.run))
    && (phase.Join? ==> s.active.None? && phase.previous < phase.run)
    && (Quiet(phase) ==> s.active.None?)
    && (phase.CheckOldFailure? ==> phase.previous < phase.run)
    && !phase.WriteOldFailure?
    && (phase.CheckFailure? || phase.WriteFailure? || phase.Reset? ==> phase.guarded == phase.run)
    && (Launched(phase) ==> phase.run == s.currentRunId && phase.run in s.tasks)
    && (Launched(phase) ==> s.active == if phase.SetActive? then None else Some(phase.run))
  }

  ghost predicate IdsInv(s: State) {
    && s.currentRunId < s.nextRunId
    && (forall r :: r in s.tasks ==> r <= s.currentRunId)
    && (match s.holder
        case None => s.active.Some? ==> s.active.value == s.currentRunId
        case Some(switch) => HolderInv(s, switch.phase))
  }

  ghost predicate TaskInv(s: State) {
    && IdsInv(s)
    && (forall r: RunId :: Unfinished(s, r) ==> LiveRun(s) == Some(r))
    && (LiveRun(s).Some? ==> LiveRun(s).value in s.tasks)
  }

  lemma TaskStepKeepsTaskInv(s: State, run: RunId, phase: TaskPhase, snapshot: ModeSnapshot)
    requires TaskInv(s) && Unfinished(s, run)
    ensures TaskInv(WithTask(s, run, phase).(snapshot := snapshot))
  {
    var after := WithTask(s, run, phase).(snapshot := snapshot);
    forall r: RunId | Unfinished(after, r)
      ensures Unfinished(s, r)
    {
    }
    assert after.tasks.Keys == s.tasks.Keys;
    if s.holder.Some? { assert HolderInv(after, s.holder.value.phase); }
  }

  lemma ProceedKeepsLiveRun(s: State, now: Millis, failure: Option<string>)
    requires TaskInv(s) && Enabled(s, Proceed(now, failure))
    ensures var after := SwitchNext(s, now, failure);
            && (forall r: RunId :: Unfinished(after, r) ==> LiveRun(after) == Some(r))
            && (LiveRun(after).Some? ==> LiveRun(after).value in after.tasks)
  {
    var after := SwitchNext(s, now, failure);
    forall r: RunId | Unfinished(after, r)
      ensures LiveRun(after) == Some(r)
    {
      if r in s.tasks && after.tasks[r] == s.tasks[r] { assert Unfinished(s, r); }
    }
  }

  lemma EarlyStepKeepsIds(s: State, now: Millis, failure: Option<string>)
    requires TaskInv(s) && Enabled(s, Proceed(now, failure))
    requires var phase := s.holder.value.phase; phase.TakeNumber? || phase.StoreCurrent? || Draining(phase)
    ensures IdsInv(SwitchNext(s, now, failure))
  {
  }

  lemma QuietStepKeepsIds(s: State, now: Millis, failure: Option<string>)
    requires TaskInv(s) && Enabled(s, Proceed(now, failure)) && Quiet(s.holder.value.phase)
    ensures IdsInv(SwitchNext(s, now, failure))
  {
  }

  lemma LaunchedStepKeepsIds(s: State, now: Millis, failure: Option<string>)
    requires TaskInv(s) && Enabled(s, Proceed(now, failure)) && Launched(s.holder.value.phase)
    ensures IdsInv(SwitchNext(s, now, failure))
  {
  }

  lemma ProceedKeepsTaskInv(s: State, now: Millis, failure: Option<string>)
    requires TaskInv(s) && Enabled(s, Proceed(now, failure))
    ensures TaskInv(SwitchNext(s, now, failure))
  {
    hide SwitchNext, HolderInv, LiveRun;
    ProceedKeepsLiveRun(s, now, failure);
    if Quiet(s.holder.value.phase) {
      QuietStepKeepsIds(s, now, failure);
    } else if Launched(s.holder.value.phase) {
      LaunchedStepKeepsIds(s, now, failure);
    } else {
      EarlyStepKeepsIds(s, now, failure);
    }
  }

  lemma StepKeepsTaskInv(s: State, action: Action)
    requires TaskInv(s) && Enabled(s, action)
    ensures TaskInv(Next(s, action))
  {
    match action
    case Arrive(_) =>
      var after := Next(s, action);
      forall r: RunId | Unfinished(after, r)
        ensures LiveRun(after) == Some(r)
      {
        assert Unfinished(s, r);
      }
    case Proceed(now, failure) => ProceedKeepsTaskInv(s, now, failure);
    case TaskReports(run, report) => TaskStepKeepsTaskInv(s, run, Next(s, action).tasks[run].phase, s.snapshot);
    case TaskEnds(run, _) => TaskStepKeepsTaskInv(s, run, Next(s, action).tasks[run].phase, s.snapshot);
    case TaskWrites(run) =>
      TaskStepKeepsTaskInv(s, run, Next(s, action).tasks[run].phase, Next(s, action).snapshot);
  }

  lemma {:induction false} RunKeepsTaskInv(states: seq<State>, actions: seq<Action>, i: nat)
    requires IsRun(states, actions) && i < |states|
    ensures TaskInv(states[i])
  {
    if i > 0 {
      RunKeepsTaskInv(states, actions, i - 1);
      StepKeepsTaskInv(states[i - 1], actions[i - 1]);
    }
  }

  // In every reachable state at most one ingestion task is unfinished, the current run id is below the
  // next one, a switch about to start finds no active task, and a spawned run id is new.
  lemma AtMostOneTask(states: seq<State>, actions: seq<Action>, i: nat)
    requires IsRun(states, actions) && i < |states|
    ensures var s := states[i];
            && (forall r: RunId, q: RunId :: Unfinished(s, r) && Unfinished(s, q) ==> r == q)
            && s.currentRunId < s.nextRunId
            && (s.holder.Some? && s.holder.value.phase.CheckStart? ==> s.active.None?)
            && (s.holder.Some? && s.holder.value.phase.Spawn? ==>
                  s.holder.value.phase.run !in s.tasks && forall r: RunId :: !Unfinished(s, r))
  {
    RunKeepsTaskInv(states, actions, i);
  }

  // ----- No stale overwrite -----

  // Nothing older than run r can write any more.
  ghost predicate NothingOlder(s: State, r: RunId) {
    && r < s.nextRunId
    && (forall q: RunId :: Unfinished(s, q) ==> q >= r)
    && (s.active.Some? ==> s.active.value >= r)
    && (s.holder.Some? && !s.holder.value.phase.TakeNumber? ==> s.holder.value.phase.run >= r)
    && (s.holder.Some? && s.holder.value.phase.Join? ==> s.holder.value.phase.previous >= r)
  }

  // The run marked running by this step.
  function MarksRunning(s: State, action: Action): Option<RunId>
    requires Enabled(s, action)
  {
    match action
    case Proceed(_, _) => if s.holder.value.phase.WriteRunning? then Some(s.holder.value.phase.run) else None
    case _ => None
  }

  lemma MarkShutsOutOlder(s: State, action: Action, r: RunId)
    requires TaskInv(s) && Enabled(s, action) && MarksRunning(s, action) == Some(r)
    ensures NothingOlder(Next(s, action), r)
  {
    assert forall q: RunId :: Unfinished(Next(s, action), q) ==> Unfinished(s, q);
  }

  lemma StepKeepsNothingOlder(s: State, action: Action, r: RunId)
    requires TaskInv(s) && NothingOlder(s, r) && Enabled(s, action)
    ensures NothingOlder(Next(s, action), r)
  {
    var after := Next(s, action);
    forall q: RunId | Unfinished(after, q)
      ensures q >= r
    {
      if q in s.tasks && !s.tasks[q].phase.Finished? { assert Unfinished(s, q); }
    }
  }

  lemma WritersAreNotOlder(s: State, action: Action, r: RunId)
    requires TaskInv(s) && NothingOlder(s, r) && Enabled(s, action) && Writer(s, action).Some?
    ensures Writer(s, action).value >= r
  {
    if action.TaskWrites? { assert Unfinished(s, action.run); }
  }

  lemma {:induction false} NothingOlderAfterMark(
    states: seq<State>, actions: seq<Action>, i: nat, j: nat, r: RunId)
    requires IsRun(states, actions) && i < j < |states|
    requires MarksRunning(states[i], actions[i]) == Some(r)
    ensures NothingOlder(states[j], r)
  {
    RunKeepsTaskInv(states, actions, j - 1);
    if j == i + 1 {
      MarkShutsOutOlder(states[i], actions[i], r);
    } else {
      NothingOlderAfterMark(states, actions, i, j - 1, r);
      StepKeepsNothingOlder(states[j - 1], actions[j - 1], r);
    }
  }

  // Once run r has been marked running, no later write of the snapshot comes from an older run: whatever
  // changes the snapshot is a write on behalf of r or of a newer run.
  lemma NoStaleOverwrite(states: seq<State>, actions: seq<Action>, i: nat, j: nat, r: RunId)
    requires IsRun(states, actions) && i < j < |actions|
    requires MarksRunning(states[i], actions[i]) == Some(r)
    ensures Writer(states[j], actions[j]).Some? ==> Writer(states[j], actions[j]).value >= r
    ensures states[j + 1].snapshot != states[j].snapshot ==>
              Writer(states[j], actions[j]).Some? && Writer(states[j], actions[j]).value >= r
  {
    OnlyWritersWrite(states[j], actions[j]);
    if Writer(states[j], actions[j]).Some? {
      RunKeepsTaskInv(states, actions, j);
      NothingOlderAfterMark(states, actions, i, j, r);
      WritersAreNotOlder(states[j], actions[j], r);
    }
  }

  // A write is by a run that is no longer current exactly when a task writes while a switch is between
  // storing its id and joining; that task is the one being replaced.
  lemma StaleWritesOnlyBeforeJoin(states: seq<State>, actions: seq<Action>, i: nat)
    requires IsRun(states, actions) && i < |actions| && Writer(states[i], actions[i]).Some?
    ensures var s, writer := states[i], Writer(states[i], actions[i]).value;
            && writer <= s.currentRunId
            && (writer < s.currentRunId <==>
                  actions[i].TaskWrites? && s.holder.Some? && Draining(s.holder.value.phase))
            && (writer < s.currentRunId ==> LiveRun(s) == Some(writer))
  {
    RunKeepsTaskInv(states, actions, i);
    if actions[i].TaskWrites? { assert Unfinished(states[i], actions[i].run); }
  }

  // ----- The snapshot -----

  // Phases in which the snapshot may still say that a switch is going on.
  predicate MayShowSwitching(phase: Phase) {
    || phase.TakeActive? || phase.Join? || phase.CheckOldFailure? || phase.CheckFailure? || phase.WriteFailure?
    || phase.LoadForReset? || phase.Reset? || phase.CheckStart? || phase.WriteRunning?
  }

  predicate ShowsRequest(snapshot: ModeSnapshot, request: Request) {
    snapshot.mode == request.mode && snapshot.symbols == request.symbols && snapshot.source.FromRuntime?
  }

  predicate Announced(phase: Phase) {
    !phase.TakeNumber? && !phase.StoreCurrent? && !phase.WriteSwitching?
  }

  predicate Settled(status: Status) {
    status.Running? || status.Completed? || status.Failed?
  }

  ghost predicate SnapshotInv(s: State) {
    && (s.snapshot.lastError.Some? ==> s.snapshot.status.Failed?)
    && (s.snapshot.status.Switching? || Settled(s.snapshot.status))
    && match s.holder
       case None =>
         && !s.snapshot.status.Switching?
         && (s.active.None? ==> s.snapshot.status.Failed? && s.snapshot.lastError.Some?)
       case Some(switch) =>
         && (s.snapshot.status.Switching? ==> MayShowSwitching(switch.phase))
         && (Announced(switch.phase) ==> ShowsRequest(s.snapshot, switch.request))
         && (switch.phase.Spawn? ==> s.snapshot.status.Running?)
         && (switch.phase.Reply? && switch.phase.failure.Some? ==>
               s.snapshot.status.Failed? && s.snapshot.lastError == switch.phase.failure)
         && (switch.phase.Reply? && switch.phase.failure.None? ==> s.snapshot.lastSwitchedAt.Some?)
  }

  lemma QuietStepKeepsSnapshotInv(s: State, now: Millis, failure: Option<string>)
    requires TaskInv(s) && SnapshotInv(s) && Enabled(s, Proceed(now, failure)) && Quiet(s.holder.value.phase)
    ensures SnapshotInv(SwitchNext(s, now, failure))
  {
  }

  lemma OtherStepKeepsSnapshotInv(s: State, now: Millis, failure: Option<string>)
    requires TaskInv(s) && SnapshotInv(s) && Enabled(s, Proceed(now, failure)) && !Quiet(s.holder.value.phase)
    ensures SnapshotInv(SwitchNext(s, now, failure))
  {
  }

  lemma StepKeepsSnapshotInv(s: State, action: Action)
    requires TaskInv(s) && SnapshotInv(s) && Enabled(s, action)
    ensures SnapshotInv(Next(s, action))
  {
    if action.Proceed? {
      hide SwitchNext, SnapshotInv, TaskInv, Quiet;
      if Quiet(s.holder.value.phase) {
        QuietStepKeepsSnapshotInv(s, action.now, action.failure);
      } else {
        OtherStepKeepsSnapshotInv(s, action.now, action.failure);
      }
    } else {
      hide SwitchNext;
      if action.TaskWrites? { assert Unfinished(s, action.run); }
    }
  }

  lemma {:induction false} RunKeepsSnapshotInv(states: seq<State>, actions: seq<Action>, i: nat)
    requires IsRun(states, actions) && i < |states|
    ensures SnapshotInv(states[i])
  {
    if i > 0 {
      RunKeepsSnapshotInv(states, actions, i - 1);
      RunKeepsTaskInv(states, actions, i - 1);
      StepKeepsSnapshotInv(states[i - 1], actions[i - 1]);
    }
  }

  // In every reachable state an error text means Failed, the status is one of four, and it says
  // Switching only while a switch holds the lock.
  lemma SnapshotIsTruthful(states: seq<State>, actions: seq<Action>, i: nat)
    requires IsRun(states, actions) && i < |states|
    ensures var s := states[i];
            && (s.snapshot.lastError.Some? ==> s.snapshot.status.Failed?)
            && (s.snapshot.status.Switching? || Settled(s.snapshot.status))
            && (s.holder.None? ==> !s.snapshot.status.Switching?)
  {
    RunKeepsSnapshotInv(states, actions, i);
  }

  lemma {:induction false} SwitchingSupportNeverChanges(states: seq<State>, actions: seq<Action>, i: nat)
    requires IsRun(states, actions) && i < |states|
    ensures states[i].snapshot.switchingSupported == states[0].snapshot.switchingSupported
  {
    if i > 0 { SwitchingSupportNeverChanges(states, actions, i - 1); }
  }

  // The start time changes only with the running mark, the switch time only with the last write of a
  // switch; each becomes the clock reading of that step.
  lemma StampsAreOfTheirWrites(s: State, action: Action)
    requires Enabled(s, action)
    ensures var after := Next(s, action).snapshot;
            && (after.lastStartedAt != s.snapshot.lastStartedAt ==> MarksRunning(s, action).Some?)
            && (MarksRunning(s, action).Some? ==> after.lastStartedAt == action.now && after.status.Running?)
            && (after.lastSwitchedAt != s.snapshot.lastSwitchedAt ==> FinishesSwitch(s, action))
            && (FinishesSwitch(s, action) ==> after.lastSwitchedAt == Some(action.now))
  {
  }

  predicate FinishesSwitch(s: State, action: Action) {
    action.Proceed? && s.holder.Some? && s.holder.value.phase.WriteSwitched?
  }

  // The clock reading of the last running mark among the first j steps, and that of the last write of a
  // switch.
  ghost function LastStart(states: seq<State>, actions: seq<Action>, j: nat): Option<Millis>
    requires IsRun(states, actions) && j < |states|
  {
    if j == 0 then None
    else if MarksRunning(states[j - 1], actions[j - 1]).Some? then Some(actions[j - 1].now)
    else LastStart(states, actions, j - 1)
  }

  ghost function LastSwitch(states: seq<State>, actions: seq<Action>, j: nat): Option<Millis>
    requires IsRun(states, actions) && j < |states|
  {
    if j == 0 then None
    else if FinishesSwitch(states[j - 1], actions[j - 1]) then Some(actions[j - 1].now)
    else LastSwitch(states, actions, j - 1)
  }

  // So it is over whole runs.
  lemma {:induction false} StampsOfRun(states: seq<State>, actions: seq<Action>, j: nat)
    requires IsRun(states, actions) && j < |states|
    ensures var start := LastStart(states, actions, j);
            states[j].snapshot.lastStartedAt == if start.Some? then start.value else states[0].snapshot.lastStartedAt
    ensures states[j].snapshot.lastSwitchedAt == LastSwitch(states, actions, j)
  {
    if j > 0 {
      StampsOfRun(states, actions, j - 1);
      StampsAreOfTheirWrites(states[j - 1], actions[j - 1]);
    }
  }

  // ----- Answers -----

  // The switch that holds the lock keeps working for the request it came with.
  lemma {:induction false} HolderKeepsRequest(
    states: seq<State>, actions: seq<Action>, i: nat, j: nat, request: Request)
    requires IsRun(states, actions) && i < j < |states|
    requires states[i].holder.None? && states[i + 1].holder == Some(Switch(request, TakeNumber))
    requires forall k :: i < k <= j ==> states[k].holder.Some?
    ensures states[j].holder.value.request == request
  {
    if j > i + 1 {
      HolderKeepsRequest(states, actions, i, j - 1, request);
      assert states[j - 1].holder.Some?;
      assert states[j - 1 + 1] == Next(states[j - 1], actions[j - 1]);
    }
  }

  // The snapshot says what the command asked for.
  ghost predicate ShowsCommand(snapshot: ModeSnapshot, command: Command, configured: seq<Symbol>) {
    && (snapshot.mode.Live? <==> command.mode == "live")
    && (command.symbols.None? ==> snapshot.symbols == configured)
    && (command.symbols.Some? ==>
          && |snapshot.symbols| == |command.symbols.value|
          && forall i :: 0 <= i < |snapshot.symbols| ==> NewSymbol(command.symbols.value[i]) == Some(snapshot.symbols[i]))
    && snapshot.source.FromRuntime?
  }

  // What the caller whose command was accepted at step i is told at step j.
  lemma SwitchAnswers(states: seq<State>, actions: seq<Action>, i: nat, j: nat)
    requires IsRun(states, actions) && i < j < |actions|
    requires actions[i].Arrive? && states[i].holder.None? && states[i + 1].holder.Some?
    requires forall k :: i < k <= j ==> states[k].holder.Some?
    requires actions[j].Proceed? && Answer(states[j], actions[j]).Some?
    ensures Resolve(actions[i].command, states[i].configured).Some?
    ensures var command, after := actions[i].command, states[j + 1];
            match Answer(states[j], actions[j]).value
            case Switched(snapshot) =>
              && snapshot == after.snapshot && ShowsCommand(snapshot, command, states[i].configured)
              && ShowsRequest(snapshot, Resolve(command, states[i].configured).value)
              && snapshot.lastSwitchedAt.Some? && Settled(snapshot.status)
              && after.active == Some(after.currentRunId) && after.currentRunId in after.tasks
              && (after.tasks[after.currentRunId].kind.Live? <==> command.mode == "live")
            case Execution(error) =>
              && after.snapshot.status.Failed? && after.snapshot.lastError == Some(error)
              && after.active.None? && forall r: RunId :: !Unfinished(after, r)
            case _ => false
  {
    var request := Resolve(actions[i].command, states[i].configured).value;
    assert states[i + 1] == Next(states[i], actions[i]);
    HolderKeepsRequest(states, actions, i, j, request);
    RunKeepsStatusInv(states, actions, j);
    RequestShowsCommand(actions[i].command, states[i].configured, states[j].snapshot);
    assert states[j + 1] == Next(states[j], actions[j]);
    RunKeepsTaskInv(states, actions, j + 1);
  }

  lemma RequestShowsCommand(command: Command, configured: seq<Symbol>, snapshot: ModeSnapshot)
    requires Resolve(command, configured).Some?
    ensures ShowsRequest(snapshot, Resolve(command, configured).value) ==> ShowsCommand(snapshot, command, configured)
  {
  }

  // What the switch makes of the task it has joined: one that ended well is forgotten, any other is a
  // failure named after the mode the task ran in.
  lemma JoinTells(s: State, now: Millis)
    requires Enabled(s, Proceed(now, None)) && s.holder.value.phase.Join?
    ensures var phase := s.holder.value.phase;
            var task, next := s.tasks[phase.previous], SwitchNext(s, now, None).holder.value.phase;
            var name := if task.kind.Replay? then "Replay" else "Live";
            match task.phase.ending
            case Fine => next == LoadForReset(phase.run)
            case Errored(_) => next == CheckOldFailure(phase.run, phase.previous, name + " ingestion task exited with an error")
            case Panicked => next == CheckOldFailure(phase.run, phase.previous, name + " ingestion task failed to join")
  {
  }

  // A refused command changes nothing, and is refused exactly when it is unacceptable or the lock is held.
  lemma RefusedChangesNothing(s: State, command: Command)
    ensures var answer := Answer(s, Arrive(command));
            && (answer == Some(Validation) <==> Resolve(command, s.configured).None?)
            && (answer == Some(Conflict) <==> Resolve(command, s.configured).Some? && s.holder.Some?)
            && (answer.Some? <==> Next(s, Arrive(command)) == s)
  {
  }

  // Leaving a refused call out of a run leaves a run: nobody else can tell that it was made.
  lemma RefusedCallersAreInvisible(states: seq<State>, actions: seq<Action>, i: nat)
    requires IsRun(states, actions) && i < |actions|
    requires actions[i].Arrive? && Answer(states[i], actions[i]).Some?
    ensures IsRun(states[..i] + states[i + 1..], actions[..i] + actions[i + 1..])
  {
    hide Next, Enabled;
    var fewer, less := states[..i] + states[i + 1..], actions[..i] + actions[i + 1..];
    assert states[i + 1] == states[i] by { RefusedChangesNothing(states[i], actions[i].command); }
    forall k | 0 <= k < |less|
      ensures Enabled(fewer[k], less[k]) && fewer[k + 1] == Next(fewer[k], less[k])
    {
      var was := if k < i then k else k + 1;
      assert less[k] == actions[was] && fewer[k] == states[was] && fewer[k + 1] == states[was + 1];
    }
  }

  // ----- The status and the task -----

  predicate HasErrored(s: State, run: RunId) {
    run in s.tasks && s.tasks[run].phase.Finished? && s.tasks[run].phase.ending.Errored?
  }

  // The status that tells how a task stands.  A live task that was shut down and a task that panicked
  // report nothing and are shown as running.
  function ShownStatus(task: Task): Status {
    if task.phase.Finished? && task.phase.ending.Errored? then Failed
    else if task.phase.Finished? && task.phase.ending.Fine? && task.kind.Replay? then Completed
    else Running
  }

  // Mode and status are those of the task, and an error text is its error.
  predicate ShowsTask(s: State, run: RunId) {
    && run in s.tasks && s.snapshot.mode == s.tasks[run].kind && s.snapshot.status == ShownStatus(s.tasks[run])
    && (s.snapshot.lastError.Some? ==>
          HasErrored(s, run) && s.snapshot.lastError == Some(s.tasks[run].phase.ending.error))
  }

  predicate BeforeStore(phase: Phase) {
    phase.TakeNumber? || phase.StoreCurrent?
  }

  predicate FailedWithoutText(s: State) {
    s.snapshot.status.Failed? && s.snapshot.lastError.None?
  }

  // Where a failure without text can be seen: the task of the active run has errored, and its successor
  // has not yet announced itself.
  predicate MayLackText(s: State) {
    && s.active.Some? && HasErrored(s, s.active.value)
    && (s.holder.Some? ==>
          var phase := s.holder.value.phase;
          BeforeStore(phase) || phase.WriteSwitching? || (phase.Reply? && phase.failure.None?))
  }

  ghost predicate StatusInv(s: State) {
    && (forall r :: r in s.tasks && s.tasks[r].phase == Writing(RanToEnd) ==> s.tasks[r].kind.Replay?)
    && (s.active.Some? && (s.holder.None? || BeforeStore(s.holder.value.phase)) ==> ShowsTask(s, s.active.value))
    && (s.holder.Some? && Launched(s.holder.value.phase) ==> ShowsTask(s, s.holder.value.phase.run))
    && (FailedWithoutText(s) ==> MayLackText(s))
  }

  lemma TaskStepKeepsStatusInv(s: State, action: Action)
    requires TaskInv(s) && SnapshotInv(s) && StatusInv(s) && Enabled(s, action)
    requires !action.Proceed? && !action.Arrive?
    ensures StatusInv(Next(s, action))
  {
    assert Unfinished(s, action.run);
  }

  lemma QuietStepKeepsStatusInv(s: State, now: Millis, failure: Option<string>)
    requires TaskInv(s) && SnapshotInv(s) && StatusInv(s) && Enabled(s, Proceed(now, failure))
    requires Quiet(s.holder.value.phase)
    ensures StatusInv(SwitchNext(s, now, failure))
  {
  }

  lemma LaunchedStepKeepsStatusInv(s: State, now: Millis, failure: Option<string>)
    requires TaskInv(s) && SnapshotInv(s) && StatusInv(s) && Enabled(s, Proceed(now, failure))
    requires Launched(s.holder.value.phase)
    ensures StatusInv(SwitchNext(s, now, failure))
  {
  }

  lemma EarlyStepKeepsStatusInv(s: State, now: Millis, failure: Option<string>)
    requires TaskInv(s) && SnapshotInv(s) && StatusInv(s) && Enabled(s, Proceed(now, failure))
    requires !Quiet(s.holder.value.phase) && !Launched(s.holder.value.phase)
    ensures StatusInv(SwitchNext(s, now, failure))
  {
  }

  lemma StepKeepsStatusInv(s: State, action: Action)
    requires TaskInv(s) && SnapshotInv(s) && StatusInv(s) && Enabled(s, action)
    ensures StatusInv(Next(s, action))
  {
    hide SwitchNext;
    match action
    case Arrive(_) =>
    case Proceed(now, failure) =>
      if Quiet(s.holder.value.phase) {
        QuietStepKeepsStatusInv(s, now, failure);
      } else if Launched(s.holder.value.phase) {
        LaunchedStepKeepsStatusInv(s, now, failure);
      } else {
        EarlyStepKeepsStatusInv(s, now, failure);
      }
    case _ => TaskStepKeepsStatusInv(s, action);
  }

  lemma {:induction false} RunKeepsStatusInv(states: seq<State>, actions: seq<Action>, i: nat)
    requires IsRun(states, actions) && i < |states|
    ensures TaskInv(states[i]) && SnapshotInv(states[i]) && StatusInv(states[i])
  {
    hide StatusInv, TaskInv, SnapshotInv;
    RunKeepsTaskInv(states, actions, i);
    RunKeepsSnapshotInv(states, actions, i);
    if i > 0 {
      RunKeepsStatusInv(states, actions, i - 1);
      StepKeepsStatusInv(states[i - 1], actions[i - 1]);
    } else {
      InitialStatus(states[0]);
    }
  }

  lemma InitialStatus(s: State)
    requires Initial(s)
    ensures StatusInv(s)
  {
  }

  // Whenever no switch is under way and a task is active, it is the current run's, the mode shown is its
  // kind, the status the one that tells how it stands, and an error text is its own.
  lemma StatusShowsTheTask(states: seq<State>, actions: seq<Action>, i: nat)
    requires IsRun(states, actions) && i < |states|
    requires states[i].holder.None? && states[i].active.Some?
    ensures states[i].active.value == states[i].currentRunId && ShowsTask(states[i], states[i].currentRunId)
  {
    RunKeepsStatusInv(states, actions, i);
  }

  // A successful switch answers with the status of the task it spawned; it is Failed exactly when that
  // task has already errored.
  lemma OkAnswerShowsTheTask(states: seq<State>, actions: seq<Action>, j: nat)
    requires IsRun(states, actions) && j < |actions|
    requires Answer(states[j], actions[j]).Some? && Answer(states[j], actions[j]).value.Switched?
    ensures var s := states[j];
            var run, snapshot := s.currentRunId, Answer(s, actions[j]).value.snapshot;
            && s.holder.Some? && s.holder.value.phase == Reply(run, None) && run in s.tasks
            && snapshot.status == ShownStatus(s.tasks[run])
            && (snapshot.status.Failed? <==> HasErrored(s, run))
            && (snapshot.lastError.Some? ==>
                  HasErrored(s, run) && snapshot.lastError == Some(s.tasks[run].phase.ending.error))
  {
    RunKeepsStatusInv(states, actions, j);
  }

  // ----- Failed without an error text -----

  // The last write of a switch whose task has already reported its failure.
  predicate LosesText(s: State, action: Action) {
    action.Proceed? && s.holder.Some? && s.holder.value.phase.WriteSwitched? && s.snapshot.status.Failed?
  }

  predicate AnnouncesSwitch(s: State, action: Action) {
    action.Proceed? && s.holder.Some? && s.holder.value.phase.WriteSwitching?
  }

  // The text is lost exactly at such a write, and a failure without text ends exactly when the next
  // switch announces itself.
  lemma ErrorTextLostExactly(states: seq<State>, actions: seq<Action>, i: nat)
    requires IsRun(states, actions) && i < |actions|
    ensures var s, after := states[i], states[i + 1];
            && (!FailedWithoutText(s) ==> (FailedWithoutText(after) <==> LosesText(s, actions[i])))
            && (FailedWithoutText(s) ==> (FailedWithoutText(after) <==> !AnnouncesSwitch(s, actions[i])))
            && (FailedWithoutText(s) && FailedWithoutText(after) ==> after.active == s.active)
  {
    RunKeepsStatusInv(states, actions, i);
    if actions[i].TaskWrites? { assert Unfinished(states[i], actions[i].run); }
  }

  ghost predicate LostTextAt(states: seq<State>, actions: seq<Action>, i: nat, j: nat)
    requires j < |states| && |states| == |actions| + 1
  {
    && i < j && LosesText(states[i], actions[i])
    && forall k :: i < k < j ==> !AnnouncesSwitch(states[k], actions[k])
  }

  // In every run a failed status lacks its text exactly when some switch's last write came after its
  // task's failure and no switch has announced itself since; that switch spawned the active task, which
  // has errored.
  lemma {:induction false} FailedWithoutTextExactly(states: seq<State>, actions: seq<Action>, j: nat)
    requires IsRun(states, actions) && j < |states|
    ensures FailedWithoutText(states[j]) <==> exists i: nat :: LostTextAt(states, actions, i, j)
    ensures forall i: nat :: LostTextAt(states, actions, i, j) ==>
              states[j].active == Some(states[i].holder.value.phase.run) && HasErrored(states[j], states[j].active.value)
    decreases j
  {
    hide LosesText, AnnouncesSwitch, FailedWithoutText, HasErrored, Initial, Enabled, Next;
    if j == 0 {
      TextAtStart(states, actions);
    } else {
      FailedWithoutTextExactly(states, actions, j - 1);
      ErrorTextLostExactly(states, actions, j - 1);
      NotBoth(states[j - 1], actions[j - 1]);
      forall i: nat
        ensures LostTextAt(states, actions, i, j)
                <==> if i == j - 1 then LosesText(states[i], actions[i])
                     else LostTextAt(states, actions, i, j - 1) && !AnnouncesSwitch(states[j - 1], actions[j - 1])
      {
      }
      if LosesText(states[j - 1], actions[j - 1]) {
        LostTextBelongsToActive(states, actions, j - 1);
        assert LostTextAt(states, actions, j - 1, j);
      } else if FailedWithoutText(states[j - 1]) && !AnnouncesSwitch(states[j - 1], actions[j - 1]) {
        var i: nat :| LostTextAt(states, actions, i, j - 1);
        assert LostTextAt(states, actions, i, j);
      }
      ErroredWhileTextIsLost(states, actions, j);
    }
  }

  lemma TextAtStart(states: seq<State>, actions: seq<Action>)
    requires IsRun(states, actions)
    ensures !FailedWithoutText(states[0])
  {
  }

  lemma NotBoth(s: State, action: Action)
    ensures !(LosesText(s, action) && AnnouncesSwitch(s, action))
  {
  }

  lemma LostTextBelongsToActive(states: seq<State>, actions: seq<Action>, i: nat)
    requires IsRun(states, actions) && i < |actions| && LosesText(states[i], actions[i])
    ensures states[i + 1].active == Some(states[i].holder.value.phase.run)
    ensures FailedWithoutText(states[i + 1])
  {
    RunKeepsTaskInv(states, actions, i);
  }

  lemma ErroredWhileTextIsLost(states: seq<State>, actions: seq<Action>, i: nat)
    requires IsRun(states, actions) && i < |states|
    ensures FailedWithoutText(states[i]) ==> states[i].active.Some? && HasErrored(states[i], states[i].active.value)
  {
    RunKeepsStatusInv(states, actions, i);
  }

  // ----- Progress -----

  function StepsLeft(phase: Phase): nat {
    match phase
    case TakeNumber => 14
    case StoreCurrent(_) => 13
    case WriteSwitching(_) => 12
    case TakeActive(_) => 11
    case Join(_, _) => 10
    case LoadForReset(_) => 9
    case Reset(_, _) => 8
    case CheckStart(_) => 7
    case WriteRunning(_) => 6
    case Spawn(_) => 5
    case SetActive(_) => 4
    case CheckSwitched(_) => 3
    case WriteSwitched(_) => 2
    case CheckOldFailure(_, _, _) => 5
    case WriteOldFailure(_, _, _) => 4
    case CheckFailure(_, _, _) => 3
    case WriteFailure(_, _, _) => 2
    case Reply(_, _) => 1
  }

  // A switch takes at most fourteen steps of its own, and it never gets stuck: either it can step or it
  // is joining a task that can.
  lemma SwitchMakesProgress(states: seq<State>, actions: seq<Action>, i: nat)
    requires IsRun(states, actions) && i < |states| && states[i].holder.Some?
    ensures var s := states[i];
            && (Enabled(s, Proceed(0, None)) || (s.holder.value.phase.Join? && Unfinished(s, s.holder.value.phase.previous)))
            && (forall r: RunId :: Unfinished(s, r) ==>
                  Enabled(s, TaskEnds(r, Panicked)) || Enabled(s, TaskWrites(r)))
            && (forall now, failure :: Enabled(s, Proceed(now, failure)) ==>
                  var after := Next(s, Proceed(now, failure));
                  after.holder.Some? ==> StepsLeft(after.holder.value.phase) < StepsLeft(s.holder.value.phase))
  {
    RunKeepsTaskInv(states, actions, i);
  }

  // ----- What can happen -----

  ghost predicate Reachable(s: State) {
    exists states, actions :: IsRun(states, actions) && states[|states| - 1] == s
  }

  lemma InitialIsReachable(s: State)
    requires Initial(s)
    ensures Reachable(s)
  {
    assert IsRun([s], []) && [s][|[s]| - 1] == s;
  }

  lemma StepStaysReachable(s: State, action: Action)
    requires Reachable(s) && Enabled(s, action)
    ensures Reachable(Next(s, action))
  {
    var states, actions :| IsRun(states, actions) && states[|states| - 1] == s;
    var longer, more := states + [Next(s, action)], actions + [action];
    forall i | 0 <= i < |more|
      ensures Enabled(longer[i], more[i]) && longer[i + 1] == Next(longer[i], more[i])
    {
      if i < |actions| {
        assert longer[i] == states[i] && longer[i + 1] == states[i + 1] && more[i] == actions[i];
      }
    }
    assert IsRun(longer, more) && longer[|longer| - 1] == Next(s, action);
  }

  lemma Moves(s: State, action: Action, after: State)
    requires Reachable(s) && Enabled(s, action) && Next(s, action) == after
    ensures Reachable(after)
  {
    StepStaysReachable(s, action);
  }

  const GO: Action := Proceed(0, None)

  // Checking and writing are separate: a replay task that found its run current can still overwrite the
  // switching notice of its successor.
  lemma StaleWriteIsPossible(s0: State, command: Command)
    requires Initial(s0) && s0.tasks[1].kind.Replay? && Resolve(command, s0.configured).Some?
    ensures exists s ::
              && Reachable(s) && Enabled(s, TaskWrites(1)) && s.currentRunId == 2 && s.snapshot.status.Switching?
              && Next(s, TaskWrites(1)).snapshot.status.Completed?
  {
    hide Reachable;
    var s1 := Next(s0, TaskReports(1, RanToEnd));
    var s2 := Next(s1, Arrive(command));
    var s3 := Next(s2, GO);
    var s4 := Next(s3, GO);
    var s5 := Next(s4, GO);
    InitialIsReachable(s0);
    StepStaysReachable(s0, TaskReports(1, RanToEnd));
    StepStaysReachable(s1, Arrive(command));
    StepStaysReachable(s2, GO);
    StepStaysReachable(s3, GO);
    StepStaysReachable(s4, GO);
    assert Enabled(s5, TaskWrites(1));
  }

  // The switch has just spawned its task.
  predicate JustSpawned(s: State) {
    && s.holder.Some? && s.holder.value.phase == SetActive(s.currentRunId)
    && s.currentRunId in s.tasks && s.tasks[s.currentRunId].phase.Working?
  }

  lemma SwitchComesToJoin(s0: State, command: Command) returns (s5: State)
    requires Reachable(s0) && s0.holder.None? && Resolve(command, s0.configured).Some?
    requires s0.active.Some? && s0.active.value in s0.tasks && s0.tasks[s0.active.value].phase == Finished(Fine)
    ensures Reachable(s5) && s5.holder.Some? && s5.active.None? && s5.tasks == s0.tasks
    ensures s5.holder.value.phase == Join(s5.currentRunId, s0.active.value)
  {
    hide Reachable;
    var s1 := Next(s0, Arrive(command));
    var s2 := Next(s1, GO);
    var s3 := Next(s2, GO);
    var s4 := Next(s3, GO);
    s5 := Next(s4, GO);
    StepStaysReachable(s0, Arrive(command));
    StepStaysReachable(s1, GO);
    StepStaysReachable(s2, GO);
    StepStaysReachable(s3, GO);
    StepStaysReachable(s4, GO);
  }

  lemma JoinComesToStart(s0: State) returns (s3: State)
    requires Reachable(s0) && s0.holder.Some? && s0.active.None?
    requires var phase := s0.holder.value.phase;
             && phase.Join? && phase.run == s0.currentRunId
             && phase.previous in s0.tasks && s0.tasks[phase.previous].phase == Finished(Fine)
    ensures Reachable(s3) && s3.holder.Some? && s3.active.None? && s3.holder.value.phase == CheckStart(s3.currentRunId)
  {
    hide Reachable;
    var run := s0.currentRunId;
    var s1, s2 := At(s0, LoadForReset(run)), At(s0, Reset(run, run));
    s3 := At(s0, CheckStart(run));
    Moves(s0, GO, s1);
    Moves(s1, GO, s2);
    Moves(s2, GO, s3);
  }

  lemma StartComesToSpawn(s0: State) returns (s3: State)
    requires Reachable(s0) && s0.holder.Some? && s0.active.None? && s0.holder.value.phase == CheckStart(s0.currentRunId)
    ensures Reachable(s3) && JustSpawned(s3)
  {
    hide Reachable;
    var run := s0.currentRunId;
    var s1 := At(s0, WriteRunning(run));
    var s2 := Next(s1, GO);
    Moves(s0, GO, s1);
    StepStaysReachable(s1, GO);
    StepStaysReachable(s2, GO);
    s3 := Next(s2, GO);
  }

  lemma TaskFailsAtOnce(s0: State) returns (s2: State)
    requires Reachable(s0) && JustSpawned(s0)
    ensures Reachable(s2) && s2.snapshot.status.Failed? && s2.currentRunId == s0.currentRunId && s2.holder == s0.holder
  {
    hide Reachable;
    var run := s0.currentRunId;
    var s1 := Next(s0, TaskReports(run, Broke("")));
    StepStaysReachable(s0, TaskReports(run, Broke("")));
    StepStaysReachable(s1, TaskWrites(run));
    s2 := Next(s1, TaskWrites(run));
  }

  lemma SwitchClearsError(s0: State) returns (s3: State)
    requires Reachable(s0) && s0.holder.Some? && s0.holder.value.phase == SetActive(s0.currentRunId)
    ensures Reachable(s3) && s3.snapshot.status == s0.snapshot.status && s3.snapshot.lastError.None?
    ensures s3.holder.Some? && s3.holder.value.phase == Reply(s0.currentRunId, None)
  {
    hide Reachable;
    var s1 := Next(s0, GO);
    var s2 := Next(s1, GO);
    StepStaysReachable(s0, GO);
    StepStaysReachable(s1, GO);
    StepStaysReachable(s2, GO);
    s3 := Next(s2, GO);
  }

  // Failed does not imply an error text: a task that fails at once reports before the switch that
  // spawned it clears the error, and the caller is told that the switch succeeded.
  lemma FailedWithoutErrorIsPossible(s0: State, command: Command)
    requires Initial(s0) && s0.tasks[1].kind.Live? && Resolve(command, s0.configured).Some?
    ensures exists s ::
              && Reachable(s) && s.snapshot.status.Failed? && s.snapshot.lastError.None?
              && Enabled(s, GO) && Answer(s, GO) == Some(Switched(s.snapshot))
  {
    hide Reachable;
    var s1 := WithTask(s0, 1, Finished(Fine));
    InitialIsReachable(s0);
    Moves(s0, TaskEnds(1, Fine), s1);
    var s2 := SwitchComesToJoin(s1, command);
    var s3 := JoinComesToStart(s2);
    var s4 := StartComesToSpawn(s3);
    var s5 := TaskFailsAtOnce(s4);
    var s6 := SwitchClearsError(s5);
    assert Answer(s6, GO) == Some(Switched(s6.snapshot));
  }
}
