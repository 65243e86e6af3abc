/** The error group as a protocol: a waiting thread, a bounded pool of workers, and one lock around the first error. */
module ErrorGroup {
  import opened Collections

  datatype Value = Value(id: nat)

  datatype Error = Error(id: nat)

  /** What a submitted function does when it is called. */
  datatype Behaviour = Returns(value: Option<Value>) | Raises(error: Error)

  /** A future: waiting for a worker, running, in the handler before and after taking the lock, or done. */
  datatype Task = Queued | Running | Failing(error: Error) | Recorded | Finished(result: Option<Value>)

  /** The thread that owns the group: submitting, then in `wait`. */
  datatype Waiter =
    | Submitting
    | AtFuture(i: nat)
    | AtErrorTest(i: nat)
    | ShuttingDown
    | Done(raised: Option<Error>)

  /** `log` records, for the statements only, in which order tasks took the lock. */
  datatype Group = Group(
    workers: nat, behaviours: seq<Behaviour>, tasks: seq<Task>, started: nat,
    error: Option<Error>, waiter: Waiter, log: seq<nat>)

  datatype Step =
    | Submit(b: Behaviour)
    | Start
    | Return(i: nat)
    | Raise(i: nat)
    | TakeLock(i: nat)
    | Finish(i: nat)
    | CallWait
    | GetResult
    | TestError
    | Shutdown

  function NewGroup(workers: nat): Group {
    Group(workers, [], [], 0, None, Submitting, [])
  }

  predicate IsActive(t: Task) {
    t.Running? || t.Failing? || t.Recorded?
  }

  function Active(tasks: seq<Task>): nat {
    if tasks == [] then 0 else Active(tasks[..|tasks| - 1]) + if IsActive(tasks[|tasks| - 1]) then 1 else 0
  }

  predicate AllFinished(g: Group) {
    forall i | 0 <= i < |g.tasks| :: g.tasks[i].Finished?
  }

  /** One atomic step of some thread, or None where that thread has to wait. */
  function Apply(g: Group, step: Step): Option<Group> {
    match step
    case Submit(b) =>
      if g.waiter.Submitting? then Some(g.(behaviours := g.behaviours + [b], tasks := g.tasks + [Queued])) else None
    case Start =>
      if g.started < |g.tasks| && Active(g.tasks) < g.workers
      then Some(g.(tasks := g.tasks[g.started := Running], started := g.started + 1)) else None
    case Return(i) =>
      if i < |g.tasks| == |g.behaviours| && g.tasks[i].Running? && g.behaviours[i].Returns?
      then Some(g.(tasks := g.tasks[i := Finished(g.behaviours[i].value)])) else None
    case Raise(i) =>
      if i < |g.tasks| == |g.behaviours| && g.tasks[i].Running? && g.behaviours[i].Raises?
      then Some(g.(tasks := g.tasks[i := Failing(g.behaviours[i].error)])) else None
    case TakeLock(i) =>
      if i < |g.tasks| && g.tasks[i].Failing?
      then Some(g.(tasks := g.tasks[i := Recorded], log := g.log + [i],
                   error := if g.error.None? then Some(g.tasks[i].error) else g.error)) else None
    case Finish(i) =>
      if i < |g.tasks| && g.tasks[i].Recorded? then Some(g.(tasks := g.tasks[i := Finished(None)])) else None
    case CallWait =>
      if g.waiter.Submitting? then Some(g.(waiter := AtFuture(0))) else None
    case GetResult =>
      if !g.waiter.AtFuture? then None
      else if g.waiter.i >= |g.tasks| then Some(g.(waiter := ShuttingDown))
      else if g.tasks[g.waiter.i].Finished? then Some(g.(waiter := AtErrorTest(g.waiter.i)))
      else None
    case TestError =>
      if !g.waiter.AtErrorTest? then None
      else if g.error.Some? then Some(g.(waiter := ShuttingDown))
      else Some(g.(waiter := AtFuture(g.waiter.i + 1)))
    case Shutdown =>
      if g.waiter.ShuttingDown? && AllFinished(g) then Some(g.(waiter := Done(g.error))) else None
  }

  /** `TaskResult.result()` on a finished future: None stands for the RuntimeError. */
  function ResultOf(t: Task): Option<Value> {
    if t.Finished? then t.result else None
  }

  // ---- Invariant ----

  ghost predicate TaskConsistent(b: Behaviour, t: Task, logged: bool) {
    match t
    case Queued => !logged
    case Running => !logged
    case Failing(e) => b == Raises(e) && !logged
    case Recorded => b.Raises? && logged
    case Finished(r) => if logged then b.Raises? && r == None else b == Returns(r)
  }

  ghost predicate TasksConsistent(g: Group) {
    && |g.behaviours| == |g.tasks|
    && (forall i | 0 <= i < |g.tasks| :: TaskConsistent(g.behaviours[i], g.tasks[i], i in g.log))
    && (forall i | i in g.log :: i < |g.tasks|)
  }

  /** The stored error is that of whichever thread took the lock first. */
  ghost predicate FirstError(g: Group) {
    g.error == if g.log == [] then None
               else if g.log[0] < |g.behaviours| && g.behaviours[g.log[0]].Raises? then Some(g.behaviours[g.log[0]].error)
               else None
  }

  ghost predicate StartedInOrder(g: Group) {
    && g.started <= |g.tasks|
    && forall i | 0 <= i < |g.tasks| :: i < g.started <==> !g.tasks[i].Queued?
  }

  ghost predicate WaiterConsistent(g: Group) {
    match g.waiter
    case AtErrorTest(i) => i < |g.tasks|
    case Done(r) => AllFinished(g) && r == g.error
    case _ => true
  }

  ghost predicate Inv(g: Group) {
    TasksConsistent(g) && FirstError(g) && StartedInOrder(g) && WaiterConsistent(g)
  }

  lemma TakeLockKeepsInv(g: Group, i: nat)
    requires Inv(g) && Apply(g, TakeLock(i)).Some?
    ensures Inv(Apply(g, TakeLock(i)).value)
  {
    var h := Apply(g, TakeLock(i)).value;
    assert i !in g.log;
    assert forall k :: k in h.log <==> k in g.log || k == i;
    if g.log == [] {
      assert h.log[0] == i;
    } else {
      assert h.log[0] == g.log[0] && g.log[0] in g.log;
      assert g.error.Some?;
    }
  }

  lemma SubmitKeepsInv(g: Group, b: Behaviour)
    requires Inv(g) && Apply(g, Submit(b)).Some?
    ensures Inv(Apply(g, Submit(b)).value)
  {
    var h := Apply(g, Submit(b)).value;
    forall k | 0 <= k < |h.tasks| ensures TaskConsistent(h.behaviours[k], h.tasks[k], k in h.log) {
      if k < |g.tasks| {
        assert h.tasks[k] == g.tasks[k] && h.behaviours[k] == g.behaviours[k];
      }
    }
    forall k | 0 <= k < |h.tasks| ensures k < h.started <==> !h.tasks[k].Queued? {
      assert k < |g.tasks| ==> h.tasks[k] == g.tasks[k];
    }
    if g.log != [] {
      assert g.log[0] in g.log;
      assert h.behaviours[g.log[0]] == g.behaviours[g.log[0]];
    }
  }

  /** One task goes on: the others, and what the log says of them, stay. */
  lemma OneTaskKeepsInv(g: Group, h: Group, k: nat)
    requires Inv(g) && k < |g.tasks| && !g.waiter.Done?
    requires |h.tasks| == |g.tasks| && h == g.(tasks := g.tasks[k := h.tasks[k]], started := h.started)
    requires TaskConsistent(g.behaviours[k], h.tasks[k], k in g.log) && !h.tasks[k].Queued? && k < h.started
    requires h.started == if k == g.started then k + 1 else g.started
    ensures Inv(h)
  {
    hide TaskConsistent;
    forall i | 0 <= i < |h.tasks|
      ensures TaskConsistent(h.behaviours[i], h.tasks[i], i in h.log)
      ensures i < h.started <==> !h.tasks[i].Queued?
    {
      assert TaskConsistent(g.behaviours[i], g.tasks[i], i in g.log);
      assert i < g.started <==> !g.tasks[i].Queued?;
    }
  }

  lemma NotDone(g: Group, k: nat)
    requires Inv(g) && k < |g.tasks| && !g.tasks[k].Finished?
    ensures !g.waiter.Done?
  {}

  lemma TaskStepKeepsInv(g: Group, step: Step)
    requires Inv(g) && Apply(g, step).Some? && (step.Start? || step.Return? || step.Raise? || step.Finish?)
    ensures Inv(Apply(g, step).value)
  {
    hide Active, Inv, FirstError, WaiterConsistent;
    var h := Apply(g, step).value;
    var k := if step.Start? then g.started else step.i;
    ConsistentAt(g, k);
    NotDone(g, k);
    OneTaskKeepsInv(g, h, k);
  }

  lemma ConsistentAt(g: Group, k: nat)
    requires Inv(g) && k < |g.tasks|
    ensures |g.behaviours| == |g.tasks| && TaskConsistent(g.behaviours[k], g.tasks[k], k in g.log)
    ensures k < g.started <==> !g.tasks[k].Queued?
  {}

  lemma ApplyKeepsInv(g: Group, step: Step)
    requires Inv(g) && Apply(g, step).Some?
    ensures Inv(Apply(g, step).value)
  {
    match step
    case TakeLock(i) => TakeLockKeepsInv(g, i);
    case Submit(b) => SubmitKeepsInv(g, b);
    case CallWait =>
    case GetResult =>
    case TestError =>
    case Shutdown =>
    case _ => TaskStepKeepsInv(g, step);
  }

  // ---- Runs under any interleaving ----

  function After(g: Group, steps: seq<Step>): Option<Group> {
    if steps == [] then Some(g) else
      var before := After(g, steps[..|steps| - 1]);
      if before.None? then None else Apply(before.value, steps[|steps| - 1])
  }

  lemma {:induction false} RunsKeepInv(g: Group, steps: seq<Step>)
    requires Inv(g) && After(g, steps).Some?
    ensures Inv(After(g, steps).value)
  {
    if steps != [] {
      RunsKeepInv(g, steps[..|steps| - 1]);
      ApplyKeepsInv(After(g, steps[..|steps| - 1]).value, steps[|steps| - 1]);
    }
  }

  /** Once `wait` is over: every task has finished, it raised exactly if a task raised, and results are as returned. */
  lemma WaitIsSound(workers: nat, steps: seq<Step>)
    requires After(NewGroup(workers), steps).Some? && After(NewGroup(workers), steps).value.waiter.Done?
    ensures var g := After(NewGroup(workers), steps).value;
            && |g.tasks| == |g.behaviours| && AllFinished(g)
            && (g.waiter.raised.Some? <==> exists i :: 0 <= i < |g.behaviours| && g.behaviours[i].Raises?)
            && (g.waiter.raised.Some? ==>
                  g.log != [] && g.log[0] < |g.behaviours| && g.behaviours[g.log[0]] == Raises(g.waiter.raised.value))
            && forall i | 0 <= i < |g.tasks| ::
                 ResultOf(g.tasks[i]) == if g.behaviours[i].Returns? then g.behaviours[i].value else None
  {
    RunsKeepInv(NewGroup(workers), steps);
    var g := After(NewGroup(workers), steps).value;
    if g.log != [] {
      assert g.log[0] in g.log;
      assert TaskConsistent(g.behaviours[g.log[0]], g.tasks[g.log[0]], true);
    }
    forall i | 0 <= i < |g.tasks| ensures g.behaviours[i].Raises? <==> i in g.log {
      assert TaskConsistent(g.behaviours[i], g.tasks[i], i in g.log);
    }
  }

  // ---- `wait` always comes to an end ----

  function TaskWork(t: Task): nat {
    match t
    case Queued => 4
    case Running => 3
    case Failing(_) => 2
    case Recorded => 1
    case Finished(_) => 0
  }

  function TotalWork(tasks: seq<Task>): nat {
    if tasks == [] then 0 else TotalWork(tasks[..|tasks| - 1]) + TaskWork(tasks[|tasks| - 1])
  }

  function WaiterWork(g: Group): nat {
    match g.waiter
    case Submitting => 2 * |g.tasks| + 3
    case AtFuture(i) => if i <= |g.tasks| then 2 * (|g.tasks| - i) + 2 else 2
    case AtErrorTest(i) => if i < |g.tasks| then 2 * (|g.tasks| - i) + 1 else 3
    case ShuttingDown => 1
    case Done(_) => 0
  }

  function Work(g: Group): nat {
    TotalWork(g.tasks) + WaiterWork(g)
  }

  lemma {:induction false} UpdateWork(tasks: seq<Task>, i: nat, t: Task)
    requires i < |tasks|
    ensures TotalWork(tasks[i := t]) == TotalWork(tasks) - TaskWork(tasks[i]) + TaskWork(t)
  {
    var n := |tasks| - 1;
    if i == n {
      assert tasks[i := t][..n] == tasks[..n];
    } else {
      assert tasks[i := t][..n] == tasks[..n][i := t];
      UpdateWork(tasks[..n], i, t);
    }
  }

  lemma TaskStepUsesWork(g: Group, step: Step)
    requires Inv(g) && Apply(g, step).Some?
    requires step.Start? || step.Return? || step.Raise? || step.TakeLock? || step.Finish?
    ensures TotalWork(Apply(g, step).value.tasks) < TotalWork(g.tasks)
    ensures Apply(g, step).value.waiter == g.waiter && |Apply(g, step).value.tasks| == |g.tasks|
  {
    hide TotalWork, Active, FirstError, TasksConsistent, WaiterConsistent;
    match step
    case Start => UpdateWork(g.tasks, g.started, Running);
    case Return(i) => UpdateWork(g.tasks, i, Finished(g.behaviours[i].value));
    case Raise(i) => UpdateWork(g.tasks, i, Failing(g.behaviours[i].error));
    case TakeLock(i) => UpdateWork(g.tasks, i, Recorded);
    case Finish(i) => UpdateWork(g.tasks, i, Finished(None));
  }

  lemma StepsUseWork(g: Group, step: Step)
    requires Inv(g) && Apply(g, step).Some? && !step.Submit?
    ensures Work(Apply(g, step).value) < Work(g)
  {
    hide TotalWork, Active, TasksConsistent, FirstError, StartedInOrder;
    match step
    case CallWait =>
    case GetResult =>
    case TestError =>
    case Shutdown =>
    case _ => TaskStepUsesWork(g, step);
  }

  /** No schedule runs for ever once `wait` has been called. */
  lemma {:induction false} RunsAreShort(g: Group, steps: seq<Step>)
    requires Inv(g) && !g.waiter.Submitting? && After(g, steps).Some?
    ensures !After(g, steps).value.waiter.Submitting?
    ensures |steps| + Work(After(g, steps).value) <= Work(g)
  {
    if steps != [] {
      var front := steps[..|steps| - 1];
      RunsAreShort(g, front);
      RunsKeepInv(g, front);
      StepsUseWork(After(g, front).value, steps[|steps| - 1]);
    }
  }

  lemma {:induction false} SomeActive(tasks: seq<Task>) returns (i: nat)
    requires Active(tasks) > 0
    ensures i < |tasks| && IsActive(tasks[i])
  {
    var n := |tasks| - 1;
    if IsActive(tasks[n]) {
      i := n;
    } else {
      i := SomeActive(tasks[..n]);
    }
  }

  /** An active task can always move on: nobody waits for the lock for ever. */
  lemma ActiveMoves(g: Group, i: nat) returns (step: Step)
    requires Inv(g) && i < |g.tasks| && IsActive(g.tasks[i])
    ensures !step.Submit? && Apply(g, step).Some?
  {
    step := match g.tasks[i]
      case Running => if g.behaviours[i].Returns? then Return(i) else Raise(i)
      case Failing(_) => TakeLock(i)
      case _ => Finish(i);
  }

  /** No deadlock: as long as `wait` is not over some thread can take a step, whatever the size of the pool. */
  lemma NeverStuck(g: Group) returns (step: Step)
    requires Inv(g) && g.workers >= 1 && !g.waiter.Submitting? && !g.waiter.Done?
    ensures !step.Submit? && Apply(g, step).Some?
  {
    if Active(g.tasks) > 0 {
      var i := SomeActive(g.tasks);
      step := ActiveMoves(g, i);
    } else if g.started < |g.tasks| {
      step := Start;
    } else {
      EveryoneFinished(g);
      step := match g.waiter
        case AtFuture(_) => GetResult
        case AtErrorTest(_) => TestError
        case _ => Shutdown;
    }
  }

  lemma EveryoneFinished(g: Group)
    requires Inv(g) && Active(g.tasks) == 0 && g.started == |g.tasks|
    ensures AllFinished(g)
  {
    forall i | 0 <= i < |g.tasks| ensures g.tasks[i].Finished? {
      NoneActive(g.tasks, i);
    }
  }

  lemma {:induction false} NoneActive(tasks: seq<Task>, i: nat)
    requires Active(tasks) == 0 && i < |tasks|
    ensures !IsActive(tasks[i])
  {
    if i < |tasks| - 1 {
      NoneActive(tasks[..|tasks| - 1], i);
    }
  }

  // ---- The pool ----

  lemma {:induction false} UpdateActive(tasks: seq<Task>, i: nat, t: Task)
    requires i < |tasks|
    ensures Active(tasks[i := t]) ==
      Active(tasks) - (if IsActive(tasks[i]) then 1 else 0) + (if IsActive(t) then 1 else 0)
  {
    var n := |tasks| - 1;
    if i < n {
      UpdateActive(tasks[..n], i, t);
      assert tasks[i := t][..n] == tasks[..n][i := t];
    } else {
      assert tasks[i := t][..n] == tasks[..n];
    }
  }

  lemma PoolHolds(g: Group, step: Step)
    requires Apply(g, step).Some? && Active(g.tasks) <= g.workers
    ensures var h := Apply(g, step).value; Active(h.tasks) <= h.workers && h.workers == g.workers
  {
    var h := Apply(g, step).value;
    match step
    case Submit(b) => assert h.tasks[..|g.tasks|] == g.tasks;
    case Start => UpdateActive(g.tasks, g.started, Running);
    case Return(i) => UpdateActive(g.tasks, i, h.tasks[i]);
    case Raise(i) => UpdateActive(g.tasks, i, h.tasks[i]);
    case TakeLock(i) => UpdateActive(g.tasks, i, h.tasks[i]);
    case Finish(i) => UpdateActive(g.tasks, i, h.tasks[i]);
    case _ =>
  }

  /** No schedule has more functions running at a time than the pool has workers. */
  lemma {:induction false} PoolIsBounded(workers: nat, steps: seq<Step>)
    requires After(NewGroup(workers), steps).Some?
    ensures var g := After(NewGroup(workers), steps).value; Active(g.tasks) <= workers && g.workers == workers
  {
    if steps != [] {
      var front := steps[..|steps| - 1];
      PoolIsBounded(workers, front);
      PoolHolds(After(NewGroup(workers), front).value, steps[|steps| - 1]);
    }
  }
}
