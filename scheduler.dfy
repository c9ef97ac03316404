/** The cooperative task list of src/scheduler.c: at most eight registered tasks,
    run to completion in registration order on every tick. */
module Scheduler {
  import opened Common

  const MAX_TASKS: nat := 8

  /** A task function pointer, identified by an opaque number. */
  type TaskFn = nat

  /** `struct task`: the function and its context pointer. */
  datatype Task = Task(fn: TaskFn, ctx: nat)

  /** The static `tasks[]`, `task_count` and `ticks`. Running a task calls code
      outside this model, so each call is appended to `runs` instead. */
  class TaskList {
    const tasks: array<Task>
    var taskCount: nat
    var ticks: u32
    var runs: seq<Task>

    ghost predicate Valid()
      reads this
    {
      tasks.Length == MAX_TASKS && taskCount <= MAX_TASKS
    }

    /** The registered tasks, in registration order. */
    function Registered(): (r: seq<Task>)
      requires Valid()
      reads this, tasks
      ensures |r| == taskCount
    {
      tasks[..taskCount]
    }

    /** Storage for the static task table, before `scheduler_init`. */
    constructor ()
      ensures Valid() && taskCount == 0 && ticks == 0 && runs == [] && fresh(tasks)
    {
      tasks := new Task[MAX_TASKS](_ => Task(0, 0));
      taskCount := 0;
      ticks := 0;
      runs := [];
    }

    /** `scheduler_init`: forget every task and restart the tick counter. */
    method Init()
      requires Valid()
      modifies this
      ensures Valid() && taskCount == 0 && ticks == 0 && runs == old(runs)
    {
      taskCount := 0;
      ticks := 0;
    }

    /** `scheduler_add`: a null function or a full table is refused and nothing
        changes; otherwise the task is appended. */
    method Add(fn: Option<TaskFn>, ctx: nat) returns (ok: bool)
      requires Valid()
      modifies this, tasks
      ensures Valid() && ticks == old(ticks) && runs == old(runs)
      ensures ok <==> fn.Some? && old(taskCount) < MAX_TASKS
      ensures ok ==> Registered() == old(Registered()) + [Task(fn.value, ctx)]
      ensures !ok ==> taskCount == old(taskCount) && tasks[..] == old(tasks[..])
    {
      if fn.None? || taskCount >= MAX_TASKS {
        return false;
      }
      tasks[taskCount] := Task(fn.value, ctx);
      taskCount := taskCount + 1;
      assert tasks[..taskCount] == old(tasks[..taskCount]) + [Task(fn.value, ctx)];
      return true;
    }

    /** `scheduler_tick`: the 32-bit tick counter advances by one and every
        registered task runs once, in registration order. */
    method Tick()
      requires Valid()
      modifies this`ticks, this`runs
      ensures ticks == Wrap32(old(ticks) + 1)
      ensures runs == old(runs) + Registered()
    {
      ticks := Wrap32(ticks + 1);
      var i := 0;
      while i < taskCount
        invariant i <= taskCount && ticks == Wrap32(old(ticks) + 1)
        invariant runs == old(runs) + tasks[..i]
      {
        assert tasks[..i + 1] == tasks[..i] + [tasks[i]];
        runs := runs + [tasks[i]];
        i := i + 1;
      }
    }

    /** `scheduler_ticks`. */
    function Ticks(): u32
      reads this
    {
      ticks
    }
  }
}
