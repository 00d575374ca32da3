// The switch operation as a program over the supervisor's fields.  Left undisturbed it does what the
// step machine does when only the switch, and while it joins the joined task, move: the machine is this
// program cut at its shared accesses.  A ghost field says where the program stands.
module SupervisorProgram {
  import opened Domain
  import opened Supervisor
  import opened SupervisorLaws

  // What is left open when nobody else interferes: the clock, whether the reset fails, and how the
  // joined task's work ends if it is still going on.
  datatype Outside = Outside(now: Millis, resetFailure: Option<string>, ending: Ending)

  predicate Waits(s: State) {
    s.holder.Some? && s.holder.value.phase.Join? && Unfinished(s, s.holder.value.phase.previous)
  }

  // The step a working task takes when its work ends this way.
  function TaskStep(task: Task, run: RunId, ending: Ending): Action {
    if task.phase.Writing? then TaskWrites(run)
    else if ending.Errored? then TaskReports(run, Broke(ending.error))
    else if ending.Fine? && task.kind.Replay? then TaskReports(run, RanToEnd)
    else TaskEnds(run, ending)
  }

  // The next step: the joined task's while it is waited for, the switch's otherwise.
  function Step(s: State, outside: Outside): Action
    requires s.holder.Some?
  {
    if Waits(s) then
      var previous := s.holder.value.phase.previous;
      TaskStep(s.tasks[previous], previous, outside.ending)
    else
      var request, phase := s.holder.value.request, s.holder.value.phase;
      var resets := phase.Reset? && (request.resetState || request.resetStorage);
      Proceed(outside.now, if resets then outside.resetFailure else None)
  }

  function WaitLeft(s: State): nat {
    if !Waits(s) then 0 else if s.tasks[s.holder.value.phase.previous].phase.Working? then 2 else 1
  }

  // The machine run to the end of the switch.
  function Undisturbed(s: State, outside: Outside): (State, Option<SwitchResult>)
    decreases if s.holder.Some? then StepsLeft(s.holder.value.phase) else 0, WaitLeft(s)
  {
    if s.holder.None? || !Enabled(s, Step(s, outside)) then (s, None)
    else
      var action := Step(s, outside);
      var after := Next(s, action);
      if after.holder.None? then (after, Answer(s, action)) else Undisturbed(after, outside)
  }

  lemma OneStep(s: State, outside: Outside)
    requires s.holder.Some? && !s.holder.value.phase.Reply? && Enabled(s, Step(s, outside))
    ensures Undisturbed(s, outside) == Undisturbed(Next(s, Step(s, outside)), outside)
  {
  }

  lemma CanStep(s: State, outside: Outside)
    requires TaskInv(s) && s.holder.Some?
    ensures Enabled(s, Step(s, outside))
  {
  }

  // One step on, the switch is over or strictly closer to its end.
  ghost predicate Closer(s: State, after: State)
    requires s.holder.Some?
  {
    if after.holder.None? then s.holder.value.phase.Reply?
    else StepsLeft(after.holder.value.phase) < StepsLeft(s.holder.value.phase)
         || (after.holder == s.holder && WaitLeft(after) < WaitLeft(s))
  }

  lemma SwitchStepIsCloser(s: State, now: Millis, failure: Option<string>)
    requires Enabled(s, Proceed(now, failure))
    ensures Closer(s, SwitchNext(s, now, failure))
  {
    hide WaitLeft;
  }

  lemma ComesCloser(s: State, outside: Outside)
    requires s.holder.Some? && Enabled(s, Step(s, outside))
    ensures Closer(s, Next(s, Step(s, outside)))
    ensures Next(s, Step(s, outside)).holder.None? ==> Answer(s, Step(s, outside)).Some?
  {
    if !Waits(s) {
      hide SwitchNext, Closer;
      SwitchStepIsCloser(s, Step(s, outside).now, Step(s, outside).failure);
      ReplyAnswers(s, outside);
    }
  }

  lemma ReplyAnswers(s: State, outside: Outside)
    requires s.holder.Some? && !Waits(s) && Enabled(s, Step(s, outside))
    ensures Next(s, Step(s, outside)).holder.None? ==> Answer(s, Step(s, outside)).Some?
  {
  }

  // From every reachable state, whatever the outside answers, the switch comes to its end and answers.
  lemma {:induction false} SwitchAlwaysFinishes(s: State, outside: Outside)
    requires TaskInv(s) && s.holder.Some?
    ensures Undisturbed(s, outside).0.holder.None? && Undisturbed(s, outside).1.Some?
    decreases StepsLeft(s.holder.value.phase), WaitLeft(s)
  {
    hide Next, Enabled, Step, TaskInv, StepsLeft, WaitLeft, Answer;
    CanStep(s, outside);
    ComesCloser(s, outside);
    StepKeepsTaskInv(s, Step(s, outside));
    if Next(s, Step(s, outside)).holder.Some? {
      SwitchAlwaysFinishes(Next(s, Step(s, outside)), outside);
    }
  }

  lemma LastStep(s: State, outside: Outside)
    requires s.holder.Some? && s.holder.value.phase.Reply?
    ensures var failure := s.holder.value.phase.failure;
            Undisturbed(s, outside)
            == (s.(holder := None), Some(if failure.None? then Switched(s.snapshot) else Execution(failure.value)))
  {
  }

  // What an undisturbed switch is to amount to.
  datatype Plan = Plan(request: Request, outside: Outside, goal: (State, Option<SwitchResult>))

  class IngestionSupervisor {
    const configured: seq<Symbol>
    var nextRunId: RunId
    var currentRunId: RunId
    var runtimeMode: ModeSnapshot
    var activeTask: Option<RunId>
    // Every task ever spawned; the tasks themselves move it on.
    var tasks: map<RunId, Task>
    var switchGuard: bool
    ghost var progress: Option<Switch>

    ghost function Contents(): State
      reads this
    {
      State(configured, nextRunId, currentRunId, runtimeMode, activeTask, progress, tasks)
    }

    // The lock is held exactly while a switch is under way, and an active task is one that was spawned.
    ghost predicate Valid()
      reads this
    {
      && (switchGuard <==> progress.Some?)
      && (activeTask.Some? ==> activeTask.value in tasks)
    }

    constructor (configured: seq<Symbol>, snapshot: ModeSnapshot)
      requires snapshot.symbols == configured && snapshot.source.FromConfig?
      requires snapshot.status.Running? && snapshot.lastError.None? && snapshot.lastSwitchedAt.None?
      ensures Valid() && Initial(Contents())
    {
      this.configured := configured;
      nextRunId, currentRunId, activeTask := 2, 1, Some(1);
      runtimeMode := snapshot;
      tasks := map[1 := Task(snapshot.mode, Working)];
      switchGuard, progress := false, None;
    }

    // The program stands at this phase, and what the machine would still do from here is the plan's goal.
    ghost predicate Stands(phase: Phase, plan: Plan)
      reads this
    {
      && Valid() && progress == Some(Switch(plan.request, phase))
      && Undisturbed(Contents(), plan.outside) == plan.goal
    }

    // One clock reading serves both time stamps.
    method SwitchMode(command: Command, outside: Outside) returns (result: SwitchResult)
      requires Valid()
      modifies this
      ensures Valid()
      ensures var arrived := Next(old(Contents()), Arrive(command));
              if Answer(old(Contents()), Arrive(command)).Some?
              then Contents() == arrived && Some(result) == Answer(old(Contents()), Arrive(command))
              else (Contents(), Some(result)) == Undisturbed(arrived, outside)
    {
      var request := Resolve(command, configured);
      if request.None? {
        return Validation;
      }
      if switchGuard {
        return Conflict;
      }
      switchGuard, progress := true, Some(Switch(request.value, TakeNumber));
      ghost var plan := Plan(request.value, outside, Undisturbed(Contents(), outside));
      result := RunSwitch(request.value, outside, plan);
      switchGuard, progress := false, None;
    }

    // The body of the switch, under the lock.
    method RunSwitch(request: Request, outside: Outside, ghost plan: Plan) returns (result: SwitchResult)
      requires plan.request == request && plan.outside == outside && Stands(TakeNumber, plan)
      modifies this
      ensures Valid() && progress.Some? && plan.goal == (Contents().(holder := None), Some(result))
    {
      hide Undisturbed;
      var runId := Announce(request, plan);
      var failure := ShutdownActiveIngestion(runId, outside, plan);
      if failure.None? {
        failure := ResetRuntimeState(runId, request, outside, plan);
        if failure.Some? {
          LastStep(Contents(), outside);
          return Execution(failure.value);
        }
        failure := StartMode(runId, request, outside, plan);
      }
      if failure.Some? {
        FailSwitch(runId, runId, failure.value, plan);
        LastStep(Contents(), outside);
        return Execution(failure.value);
      }
      MarkSwitched(runId, request, outside, plan);
      LastStep(Contents(), outside);
      return Switched(runtimeMode);
    }

    method Announce(request: Request, ghost plan: Plan) returns (runId: RunId)
      requires plan.request == request && Stands(TakeNumber, plan)
      modifies `nextRunId, `currentRunId, `runtimeMode, `progress
      ensures Stands(TakeActive(runId), plan)
    {
      hide Undisturbed;
      runId := TakeRunId(plan);
      OneStep(Contents(), plan.outside);
      runtimeMode := WithSwitching(runtimeMode, request);
      progress := Some(Switch(plan.request, TakeActive(runId)));
    }

    // A number of its own, published as the current one.
    method TakeRunId(ghost plan: Plan) returns (runId: RunId)
      requires Stands(TakeNumber, plan)
      modifies `nextRunId, `currentRunId, `progress
      ensures Stands(WriteSwitching(runId), plan)
    {
      hide Undisturbed;
      OneStep(Contents(), plan.outside);
      runId := nextRunId;
      nextRunId := nextRunId + 1;
      progress := Some(Switch(plan.request, StoreCurrent(runId)));
      OneStep(Contents(), plan.outside);
      currentRunId := runId;
      progress := Some(Switch(plan.request, WriteSwitching(runId)));
    }

    method ShutdownActiveIngestion(runId: RunId, outside: Outside, ghost plan: Plan) returns (failure: Option<string>)
      requires plan.outside == outside && Stands(TakeActive(runId), plan)
      modifies `activeTask, `runtimeMode, `tasks, `progress
      ensures Stands(if failure.None? then LoadForReset(runId) else CheckFailure(runId, runId, failure.value), plan)
    {
      hide Undisturbed;
      OneStep(Contents(), plan.outside);
      var taken := activeTask;
      activeTask := None;
      if taken.None? {
        progress := Some(Switch(plan.request, LoadForReset(runId)));
        return None;
      }
      progress := Some(Switch(plan.request, Join(runId, taken.value)));
      AwaitTask(runId, taken.value, outside.ending, plan);
      failure := FailedJoin(runId, taken.value, plan);
    }

    // What the awaited task still does: finish its work, and write its report if its run was current when
    // it looked.
    method AwaitTask(runId: RunId, run: RunId, ending: Ending, ghost plan: Plan)
      requires plan.outside.ending == ending && Stands(Join(runId, run), plan) && run in tasks
      modifies `runtimeMode, `tasks
      ensures Stands(Join(runId, run), plan) && run in tasks && tasks[run].phase.Finished?
      ensures activeTask == old(activeTask)
    {
      hide Undisturbed;
      var task := tasks[run];
      if task.phase.Working? {
        OneStep(Contents(), plan.outside);
        var reports := ending.Errored? || (ending.Fine? && task.kind.Replay?);
        if reports && currentRunId == run {
          task := task.(phase := Writing(if ending.Errored? then Broke(ending.error) else RanToEnd));
        } else {
          task := task.(phase := Finished(ending));
        }
        tasks := tasks[run := task];
      }
      if task.phase.Writing? {
        OneStep(Contents(), plan.outside);
        runtimeMode := WithReport(runtimeMode, task.phase.report);
        tasks := tasks[run := task.(phase := Finished(EndingOf(task.phase.report)))];
      }
    }

    // The outcome of the join, marked under the joined run if that is still current.
    method FailedJoin(runId: RunId, run: RunId, ghost plan: Plan) returns (failure: Option<string>)
      requires Stands(Join(runId, run), plan) && run in tasks && tasks[run].phase.Finished?
      modifies `runtimeMode, `progress
      ensures Stands(if failure.None? then LoadForReset(runId) else CheckFailure(runId, runId, failure.value), plan)
    {
      hide Undisturbed;
      OneStep(Contents(), plan.outside);
      failure := JoinFailure(tasks[run].kind, tasks[run].phase.ending);
      if failure.None? {
        progress := Some(Switch(plan.request, LoadForReset(runId)));
        return;
      }
      progress := Some(Switch(plan.request, CheckOldFailure(runId, run, failure.value)));
      MarkOldFailure(runId, run, failure.value, plan);
    }

    method MarkOldFailure(runId: RunId, run: RunId, error: string, ghost plan: Plan)
      requires Stands(CheckOldFailure(runId, run, error), plan)
      modifies `runtimeMode, `progress
      ensures Stands(CheckFailure(runId, runId, error), plan)
    {
      hide Undisturbed;
      OneStep(Contents(), plan.outside);
      if currentRunId == run {
        progress := Some(Switch(plan.request, WriteOldFailure(runId, run, error)));
        OneStep(Contents(), plan.outside);
        runtimeMode := WithFailure(runtimeMode, error);
      }
      progress := Some(Switch(plan.request, CheckFailure(runId, runId, error)));
    }

    // Mark the failure unless the guarded run has been replaced.
    method FailSwitch(runId: RunId, guarded: RunId, error: string, ghost plan: Plan)
      requires Stands(CheckFailure(runId, guarded, error), plan)
      modifies `runtimeMode, `progress
      ensures Stands(Reply(runId, Some(error)), plan)
    {
      hide Undisturbed;
      OneStep(Contents(), plan.outside);
      if currentRunId == guarded {
        progress := Some(Switch(plan.request, WriteFailure(runId, guarded, error)));
        OneStep(Contents(), plan.outside);
        runtimeMode := WithFailure(runtimeMode, error);
      }
      progress := Some(Switch(plan.request, Reply(runId, Some(error))));
    }

    // The cache and the tables are outside; whether clearing them failed is given.
    method ResetRuntimeState(runId: RunId, request: Request, outside: Outside, ghost plan: Plan)
      returns (failure: Option<string>)
      requires plan.request == request && plan.outside == outside && Stands(LoadForReset(runId), plan)
      modifies `runtimeMode, `progress
      ensures failure.None? ==> Stands(CheckStart(runId), plan)
      ensures failure.Some? ==> Stands(Reply(runId, failure), plan)
    {
      hide Undisturbed;
      OneStep(Contents(), plan.outside);
      var guarded := currentRunId;
      progress := Some(Switch(plan.request, Reset(runId, guarded)));
      OneStep(Contents(), plan.outside);
      failure := if request.resetState || request.resetStorage then outside.resetFailure else None;
      if failure.Some? {
        progress := Some(Switch(plan.request, CheckFailure(runId, guarded, failure.value)));
        FailSwitch(runId, guarded, failure.value, plan);
      } else {
        progress := Some(Switch(plan.request, CheckStart(runId)));
      }
    }

    method StartMode(runId: RunId, request: Request, outside: Outside, ghost plan: Plan) returns (failure: Option<string>)
      requires plan.request == request && plan.outside == outside && Stands(CheckStart(runId), plan)
      modifies `runtimeMode, `activeTask, `tasks, `progress
      ensures Stands(if failure.None? then CheckSwitched(runId) else CheckFailure(runId, runId, failure.value), plan)
    {
      hide Undisturbed;
      OneStep(Contents(), plan.outside);
      if activeTask.Some? {
        failure := Some("ingestion task is already running");
        progress := Some(Switch(plan.request, CheckFailure(runId, runId, failure.value)));
        return;
      }
      progress := Some(Switch(plan.request, if currentRunId == runId then WriteRunning(runId) else Spawn(runId)));
      SpawnTask(runId, request, outside, plan);
      OneStep(Contents(), plan.outside);
      activeTask := Some(runId);
      progress := Some(Switch(plan.request, CheckSwitched(runId)));
      return None;
    }

    // Marked running first, then spawned.
    method SpawnTask(runId: RunId, request: Request, outside: Outside, ghost plan: Plan)
      requires plan.request == request && plan.outside == outside && activeTask.None?
      requires Stands(if currentRunId == runId then WriteRunning(runId) else Spawn(runId), plan)
      modifies `runtimeMode, `tasks, `progress
      ensures Stands(SetActive(runId), plan) && runId in tasks
    {
      hide Undisturbed;
      if currentRunId == runId {
        MarkRunning(runId, outside, plan);
      }
      OneStep(Contents(), plan.outside);
      tasks := tasks[runId := Task(request.mode, Working)];
      progress := Some(Switch(plan.request, SetActive(runId)));
    }

    method MarkRunning(runId: RunId, outside: Outside, ghost plan: Plan)
      requires plan.outside == outside && Stands(WriteRunning(runId), plan)
      modifies `runtimeMode, `progress
      ensures Stands(Spawn(runId), plan)
    {
      hide Undisturbed;
      OneStep(Contents(), plan.outside);
      runtimeMode := WithRunning(runtimeMode, outside.now);
      progress := Some(Switch(plan.request, Spawn(runId)));
    }

    method MarkSwitched(runId: RunId, request: Request, outside: Outside, ghost plan: Plan)
      requires plan.request == request && plan.outside == outside && Stands(CheckSwitched(runId), plan)
      modifies `runtimeMode, `progress
      ensures Stands(Reply(runId, None), plan)
    {
      hide Undisturbed;
      OneStep(Contents(), plan.outside);
      if currentRunId == runId {
        progress := Some(Switch(plan.request, WriteSwitched(runId)));
        OneStep(Contents(), plan.outside);
        runtimeMode := WithSwitched(runtimeMode, request, outside.now);
      }
      progress := Some(Switch(plan.request, Reply(runId, None)));
    }
  }
}
