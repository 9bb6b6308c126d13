/** The job scheduler as a state machine: a worker thread takes tasks from a queue, while any number of
    threads add tasks, wait for the queue to be worked off, or remove the tasks of a collection. Every
    step is one atomic action of one thread, in any interleaving. */
module JobScheduler {
  import opened Orders

  /** A task; `notify` is 0, or the event that a `notifyFinish` task raises. */
  datatype Job = Job(collection: string, notify: nat)

  /** `currentTaskCollection_`, which all workers share. */
  datatype Slot = Empty | Holds(job: nat)

  /** A worker is blocked in or about to `pop`, has popped a task into the shared slot, runs a task, is at
      the interruption point behind it, or has left its loop. */
  datatype Phase = Popping | Popped | Running(job: nat) | AtPoint | Stopped

  datatype Worker = Worker(phase: Phase, interrupted: bool)

  /** A call of `waitCurrentFinish`; `mark` tasks had been queued when it began. */
  datatype Wait = Asked(mark: nat, collection: string) | Pushed(mark: nat, job: nat) | Returned(mark: nat)

  /** How far a call of `removeTask` has come; `close` interrupts and then joins. */
  datatype Stage = Called | Closing | Closed | Joining(worker: nat) | Sweeping | Restarting | Finished

  /** A call of `removeTask`; `mark` tasks had been queued when it began. */
  datatype Removal = Removal(collection: string, mark: nat, stage: Stage)

  /** `jobs` lists all tasks ever queued; the queue, the slot and the histories name them by their number.
      `workers` lists all threads ever started; `asynchronousWorker_` is the last one. */
  datatype State = State(
    jobs: seq<Job>, queue: seq<nat>, current: Slot, workers: seq<Worker>, removals: seq<Removal>,
    lastEvent: nat, events: set<nat>, waits: map<nat, Wait>,
    started: seq<nat>, ended: set<nat>, removed: set<nat>)

  const START := State([], [], Empty, [Worker(Popping, false)], [], 0, {}, map[], [], {}, {})

  datatype Step =
    | AddTask(collection: string)
    | AskWait(collection: string)
    | PushNotify(event: nat)
    | ReturnWait(event: nat)
    | Pop(worker: nat)
    | Begin(worker: nat)
    | Notify(worker: nat)
    | Finish(worker: nat)
    | Abort(worker: nat)
    | Point(worker: nat)
    | PopInterrupted(worker: nat)
    | CallRemove(collection: string)
    | RemoveIfWhen(call: nat)
    | Interrupt(call: nat)
    | BeginJoin(call: nat)
    | Join(call: nat)
    | RemoveIf(call: nat)
    | Restart(call: nat)

  /** The thread behind `asynchronousWorker_`. */
  function Hand(s: State): Worker {
    if s.workers == [] then Worker(Stopped, false) else s.workers[|s.workers| - 1]
  }

  predicate InPhase(s: State, w: nat, phase: Phase) {
    w < |s.workers| && s.workers[w].phase == phase
  }

  predicate Runs(s: State, w: nat) {
    w < |s.workers| && s.workers[w].phase.Running? && s.workers[w].phase.job < |s.jobs|
  }

  /** What the task that worker `w` runs notifies. */
  function NotifyOf(s: State, w: nat): nat
    requires Runs(s, w)
  {
    s.jobs[s.workers[w].phase.job].notify
  }

  predicate AtStage(s: State, r: nat, stage: Stage) {
    r < |s.removals| && s.removals[r].stage == stage
  }

  predicate Enabled(s: State, step: Step) {
    match step
    case AddTask(_) => true
    case AskWait(_) => true
    case PushNotify(event) => event in s.waits && s.waits[event].Asked?
    case ReturnWait(event) => event in s.waits && s.waits[event].Pushed? && event in s.events
    case Pop(w) => InPhase(s, w, Popping) && s.queue != []
    case Begin(w) => InPhase(s, w, Popped) && s.current.Holds?
    case Notify(w) => Runs(s, w) && NotifyOf(s, w) > 0
    case Finish(w) => Runs(s, w) && (NotifyOf(s, w) == 0 || NotifyOf(s, w) in s.events)
    case Abort(w) => Runs(s, w) && NotifyOf(s, w) == 0 && s.workers[w].interrupted
    case Point(w) => InPhase(s, w, AtPoint)
    case PopInterrupted(w) => InPhase(s, w, Popping) && s.workers[w].interrupted && s.queue == []
    case CallRemove(_) => true
    case RemoveIfWhen(r) => AtStage(s, r, Called)
    case Interrupt(r) => AtStage(s, r, Closing) && s.workers != []
    case BeginJoin(r) => AtStage(s, r, Closed) && s.workers != []
    case Join(r) => r < |s.removals| && s.removals[r].stage.Joining? && InPhase(s, s.removals[r].stage.worker, Stopped)
    case RemoveIf(r) => AtStage(s, r, Sweeping)
    case Restart(r) => AtStage(s, r, Restarting)
  }

  /** `remove_if` with `RemoveTaskPred`: the queue without the tasks of the collection. */
  function Without(queue: seq<nat>, jobs: seq<Job>, collection: string): seq<nat>
    decreases |queue|
  {
    if queue == [] then [] else
      var rest := Without(queue[1..], jobs, collection);
      if queue[0] < |jobs| && jobs[queue[0]].collection == collection then rest else [queue[0]] + rest
  }

  function Sweep(s: State, collection: string): State {
    var rest := Without(s.queue, s.jobs, collection);
    s.(queue := rest, removed := s.removed + set i | i in s.queue && i !in rest)
  }

  function Push(s: State, job: Job): State {
    s.(jobs := s.jobs + [job], queue := s.queue + [|s.jobs|])
  }

  /** The collection that `IsOtherCollection` compares with: that of the task popped last, even if it is
      long over. */
  function CurrentCollection(s: State): string {
    if s.current.Holds? && s.current.job < |s.jobs| then s.jobs[s.current.job].collection else ""
  }

  function SetPhase(s: State, w: nat, phase: Phase): State
    requires w < |s.workers|
  {
    s.(workers := s.workers[w := s.workers[w].(phase := phase)])
  }

  function SetStage(s: State, r: nat, stage: Stage): State
    requires r < |s.removals|
  {
    s.(removals := s.removals[r := s.removals[r].(stage := stage)])
  }

  function Apply(s: State, step: Step): State
    requires Enabled(s, step)
  {
    match step
    case AddTask(collection) => Push(s, Job(collection, 0))
    case AskWait(collection) =>
      s.(lastEvent := s.lastEvent + 1, waits := s.waits[s.lastEvent + 1 := Asked(|s.jobs|, collection)])
    case PushNotify(event) =>
      Push(s, Job(s.waits[event].collection, event))
      .(waits := s.waits[event := Pushed(s.waits[event].mark, |s.jobs|)])
    case ReturnWait(event) => s.(waits := s.waits[event := Returned(s.waits[event].mark)])
    case Pop(w) => SetPhase(s, w, Popped).(queue := s.queue[1..], current := Holds(s.queue[0]))
    case Begin(w) => SetPhase(s, w, Running(s.current.job)).(started := s.started + [s.current.job])
    case Notify(w) => s.(events := s.events + {NotifyOf(s, w)})
    case Finish(w) => SetPhase(s, w, AtPoint).(ended := s.ended + {s.workers[w].phase.job})
    case Abort(w) => SetPhase(s, w, Stopped).(ended := s.ended + {s.workers[w].phase.job})
    case Point(w) => SetPhase(s, w, if s.workers[w].interrupted then Stopped else Popping)
    case PopInterrupted(w) => SetPhase(s, w, Stopped)
    case CallRemove(collection) => s.(removals := s.removals + [Removal(collection, |s.jobs|, Called)])
    case RemoveIfWhen(r) =>
      var c := s.removals[r].collection;
      if c != CurrentCollection(s) then SetStage(Sweep(s, c), r, Finished) else SetStage(s, r, Closing)
    case Interrupt(r) =>
      var n := |s.workers| - 1;
      SetStage(s, r, Closed).(workers := s.workers[n := s.workers[n].(interrupted := true)])
    case BeginJoin(r) => SetStage(s, r, Joining(|s.workers| - 1))
    case Join(r) => SetStage(s, r, Sweeping)
    case RemoveIf(r) => SetStage(Sweep(s, s.removals[r].collection), r, Restarting)
    case Restart(r) => SetStage(s, r, Finished).(workers := s.workers + [Worker(Popping, false)])
  }

  // ---------------------------------------------------------------- one removal at a time behind the check

  /** The call has found a task of its collection running and goes on to replace the worker. */
  predicate IsPast(stage: Stage) {
    !stage.Called? && !stage.Finished?
  }

  /** No two calls of `removeTask` replace the worker at once. */
  predicate Serial(s: State) {
    forall q, r | 0 <= q < r < |s.removals| :: !(IsPast(s.removals[q].stage) && IsPast(s.removals[r].stage))
  }

  // ---------------------------------------------------------------- the invariant

  /** The task in the hands of the worker. */
  function Holding(s: State): Slot {
    match Hand(s).phase
    case Popped => s.current
    case Running(job) => Holds(job)
    case _ => Empty
  }

  predicate IsQueued(s: State, i: nat) { i in s.queue }

  predicate IsHeld(s: State, i: nat) { Holding(s) == Holds(i) }

  predicate IsGone(s: State, i: nat) { i in s.ended || i in s.removed }

  /** Only the last worker is alive, and the slot is its own. */
  ghost predicate OneAlive(s: State) {
    && s.workers != []
    && (forall w | 0 <= w < |s.workers| - 1 :: s.workers[w].phase.Stopped?)
    && (Hand(s).phase.Popped? ==> s.current.Holds?)
    && (Hand(s).phase.Running? ==> s.current == Holds(Hand(s).phase.job))
    && (s.current.Holds? ==> s.current.job < |s.jobs|)
  }

  /** Every task is queued, held, ended or removed, and just one of these. */
  ghost predicate Fates(s: State) {
    forall i: nat ::
      && (i < |s.jobs| <==> IsQueued(s, i) || IsHeld(s, i) || IsGone(s, i))
      && !(IsQueued(s, i) && IsHeld(s, i))
      && !(IsQueued(s, i) && IsGone(s, i))
      && !(IsHeld(s, i) && IsGone(s, i))
      && !(i in s.ended && i in s.removed)
  }

  /** Tasks started in queue order, those still queued come later. */
  ghost predicate InOrder(s: State) {
    && Ascends(s.queue) && Ascends(s.started)
    && (forall i, j | 0 <= i < |s.started| && 0 <= j < |s.queue| :: s.started[i] < s.queue[j])
    && (forall i: nat :: i in s.started <==> Hand(s).phase == Running(i) || i in s.ended)
    && (Hand(s).phase.Popped? && s.current.Holds? ==>
          && (forall i | 0 <= i < |s.started| :: s.started[i] < s.current.job)
          && (forall j | 0 <= j < |s.queue| :: s.current.job < s.queue[j]))
  }

  /** All tasks before number `n` are gone. */
  ghost predicate AllGone(s: State, n: nat) {
    forall i: nat | i < n :: IsGone(s, i)
  }

  ghost predicate WaitOk(s: State, e: nat) {
    e in s.waits ==>
      && 0 < e <= s.lastEvent
      && match s.waits[e]
         case Asked(mark, _) => mark <= |s.jobs| && e !in s.events
         case Pushed(mark, job) =>
           && mark <= job < |s.jobs| && s.jobs[job].notify == e
           && (e in s.events ==> AllGone(s, job) && job in s.started)
           && (job in s.ended ==> e in s.events)
         case Returned(mark) => AllGone(s, mark)
  }

  ghost predicate Events(s: State) {
    && (forall e: nat :: WaitOk(s, e))
    && (forall e | e in s.events :: e in s.waits)
    && (forall i | 0 <= i < |s.jobs| && s.jobs[i].notify > 0 :: NotifierOk(s, i))
  }

  ghost predicate NotifierOk(s: State, i: nat)
    requires i < |s.jobs|
  {
    var e := s.jobs[i].notify;
    e in s.waits && !s.waits[e].Asked? && (s.waits[e].Pushed? ==> s.waits[e].job == i)
  }

  ghost predicate IsClean(s: State, c: string, mark: nat) {
    && mark <= |s.jobs|
    && forall i: nat | i < mark && s.jobs[i].collection == c :: !IsQueued(s, i) && !IsHeld(s, i)
  }

  /** The call has interrupted the worker and not yet started another one. */
  predicate IsDown(stage: Stage) {
    stage.Closed? || stage.Joining? || stage.Sweeping? || stage.Restarting?
  }

  ghost predicate SomeDown(s: State) {
    exists r :: 0 <= r < |s.removals| && IsDown(s.removals[r].stage)
  }

  ghost predicate RemovalOk(s: State, r: nat)
    requires r < |s.removals|
  {
    var call := s.removals[r];
    && call.mark <= |s.jobs|
    && (call.stage.Joining? ==> call.stage.worker == |s.workers| - 1)
    && (call.stage.Closed? || call.stage.Joining? ==> Hand(s).interrupted)
    && (call.stage.Sweeping? || call.stage.Restarting? ==> Hand(s).phase.Stopped?)
    && (call.stage.Restarting? || call.stage.Finished? ==> IsClean(s, call.collection, call.mark))
  }

  /** The worker is down only while a removal has it so, and what removals promised holds. */
  ghost predicate Removals(s: State) {
    && Serial(s)
    && (forall r | 0 <= r < |s.removals| :: RemovalOk(s, r))
    && (Hand(s).phase.Stopped? || Hand(s).interrupted ==> SomeDown(s))
  }

  ghost predicate Inv(s: State) {
    OneAlive(s) && Fates(s) && InOrder(s) && Events(s) && Removals(s)
  }

  // ---------------------------------------------------------------- sweeping the queue

  lemma {:induction false} WithoutIs(queue: seq<nat>, jobs: seq<Job>, c: string, i: nat)
    ensures i in Without(queue, jobs, c) <==> i in queue && !(i < |jobs| && jobs[i].collection == c)
    decreases |queue|
  {
    if queue != [] {
      WithoutIs(queue[1..], jobs, c, i);
      assert queue == [queue[0]] + queue[1..];
    }
  }

  lemma {:induction false} WithoutAscends(queue: seq<nat>, jobs: seq<Job>, c: string)
    requires Ascends(queue)
    ensures Ascends(Without(queue, jobs, c))
    decreases |queue|
  {
    if queue != [] {
      WithoutAscends(queue[1..], jobs, c);
      var rest := Without(queue[1..], jobs, c);
      forall k | 0 <= k < |rest| ensures queue[0] < rest[k] {
        WithoutIs(queue[1..], jobs, c, rest[k]);
        assert rest[k] in queue[1..];
      }
    }
  }

  /** Sweeping moves the queued tasks of the collection from queued to removed. */
  lemma SweepMoves(s: State, c: string, i: nat)
    ensures IsQueued(Sweep(s, c), i) <==> IsQueued(s, i) && !(i < |s.jobs| && s.jobs[i].collection == c)
    ensures IsGone(Sweep(s, c), i) <==> IsGone(s, i) || (IsQueued(s, i) && i < |s.jobs| && s.jobs[i].collection == c)
    ensures IsHeld(Sweep(s, c), i) == IsHeld(s, i)
    ensures i in Sweep(s, c).removed
            <==> i in s.removed || (IsQueued(s, i) && i < |s.jobs| && s.jobs[i].collection == c)
  {
    WithoutIs(s.queue, s.jobs, c, i);
  }

  lemma SweepFates(s: State, c: string)
    requires Fates(s)
    ensures Fates(Sweep(s, c))
  {
    forall i: nat { SweepMoves(s, c, i); }
  }

  lemma SweepOrder(s: State, c: string)
    requires InOrder(s)
    ensures InOrder(Sweep(s, c))
  {
    var t := Sweep(s, c);
    WithoutAscends(s.queue, s.jobs, c);
    forall j | 0 <= j < |t.queue| ensures t.queue[j] in s.queue {
      WithoutIs(s.queue, s.jobs, c, t.queue[j]);
    }
  }

  // ---------------------------------------------------------------- every step keeps the invariant

  predicate IsWorkerStep(step: Step) {
    step.Pop? || step.Begin? || step.Notify? || step.Finish? || step.Abort? || step.Point? || step.PopInterrupted?
  }

  predicate IsCallStep(step: Step) {
    step.RemoveIfWhen? || step.Interrupt? || step.BeginJoin? || step.Join? || step.RemoveIf? || step.Restart?
  }

  /** A step of a worker is one of the last worker, whose phase alone it changes. */
  lemma TheWorker(s: State, step: Step)
    requires OneAlive(s) && Enabled(s, step) && IsWorkerStep(step)
    ensures step.worker == |s.workers| - 1 && s.workers[step.worker] == Hand(s)
    ensures Hand(Apply(s, step)).interrupted == Hand(s).interrupted
    ensures Hand(Apply(s, step)).phase == match step
                                          case Pop(_) => Popped
                                          case Begin(_) => if s.current.Holds? then Running(s.current.job) else AtPoint
                                          case Notify(_) => Hand(s).phase
                                          case Finish(_) => AtPoint
                                          case Point(_) => if Hand(s).interrupted then Stopped else Popping
                                          case _ => Stopped
  {
  }

  lemma AliveStep(s: State, step: Step)
    requires Inv(s) && Enabled(s, step)
    ensures OneAlive(Apply(s, step))
  {
    if IsWorkerStep(step) {
      if step.Pop? { assert IsQueued(s, s.queue[0]); }
      WorkerAlive(s, step);
    } else if step.Restart? {
      assert RemovalOk(s, step.call);
    }
  }

  lemma WorkerAlive(s: State, step: Step)
    requires OneAlive(s) && Enabled(s, step) && IsWorkerStep(step) && (step.Pop? ==> s.queue[0] < |s.jobs|)
    ensures OneAlive(Apply(s, step))
  {
    TheWorker(s, step);
  }

  lemma SameFates(s: State, t: State)
    requires Fates(s) && t.jobs == s.jobs && t.queue == s.queue && t.ended == s.ended && t.removed == s.removed
    requires Holding(t) == Holding(s)
    ensures Fates(t)
  {
    forall i: nat ensures IsQueued(t, i) == IsQueued(s, i) && IsHeld(t, i) == IsHeld(s, i)
      && IsGone(t, i) == IsGone(s, i) {
    }
  }

  lemma EndFates(s: State, t: State, job: nat)
    requires Fates(s) && Holding(s) == Holds(job) && Holding(t) == Empty
    requires t.jobs == s.jobs && t.queue == s.queue && t.ended == s.ended + {job} && t.removed == s.removed
    ensures Fates(t)
  {
    forall i: nat
      ensures IsQueued(t, i) == IsQueued(s, i) && (IsHeld(s, i) <==> i == job) && !IsHeld(t, i)
      ensures IsGone(t, i) <==> IsGone(s, i) || i == job
    {
    }
  }

  lemma PushFates(s: State, job: Job)
    requires Fates(s)
    ensures Fates(Push(s, job))
  {
    var t := Push(s, job);
    forall i: nat
      ensures IsQueued(t, i) <==> IsQueued(s, i) || i == |s.jobs|
      ensures IsHeld(t, i) == IsHeld(s, i) && IsGone(t, i) == IsGone(s, i)
    {
      assert i in s.queue + [|s.jobs|] <==> i in s.queue || i == |s.jobs|;
    }
  }

  lemma PopFates(s: State, t: State)
    requires Fates(s) && Ascends(s.queue) && s.queue != [] && Holding(s) == Empty && Holding(t) == Holds(s.queue[0])
    requires t.jobs == s.jobs && t.queue == s.queue[1..] && t.ended == s.ended && t.removed == s.removed
    ensures Fates(t)
  {
    assert s.queue == [s.queue[0]] + s.queue[1..];
    assert IsQueued(s, s.queue[0]);
    forall i: nat
      ensures IsQueued(t, i) <==> IsQueued(s, i) && i != s.queue[0]
      ensures (IsHeld(t, i) <==> i == s.queue[0]) && !IsHeld(s, i) && IsGone(t, i) == IsGone(s, i)
    {
    }
  }

  lemma WorkerFates(s: State, step: Step)
    requires OneAlive(s) && Fates(s) && Ascends(s.queue) && Enabled(s, step) && IsWorkerStep(step)
    ensures Fates(Apply(s, step))
  {
    var t := Apply(s, step);
    TheWorker(s, step);
    hide Fates;
    match step
    case Pop(_) => PopFates(s, t);
    case Finish(_) => EndFates(s, t, Hand(s).phase.job);
    case Abort(_) => EndFates(s, t, Hand(s).phase.job);
    case _ => SameFates(s, t);
  }

  lemma CallFates(s: State, step: Step)
    requires Inv(s) && Enabled(s, step) && IsCallStep(step)
    ensures Fates(Apply(s, step))
  {
    var t, r := Apply(s, step), step.call;
    assert RemovalOk(s, r);
    SweepFates(s, s.removals[r].collection);
    hide Fates, InOrder, Events, Removals, RemovalOk;
    SameFates(if step.RemoveIf? || (step.RemoveIfWhen? && s.removals[r].collection != CurrentCollection(s))
              then Sweep(s, s.removals[r].collection) else s, t);
  }

  lemma FatesStep(s: State, step: Step)
    requires Inv(s) && Enabled(s, step)
    ensures Fates(Apply(s, step))
  {
    var t := Apply(s, step);
    if IsWorkerStep(step) {
      WorkerFates(s, step);
    } else if IsCallStep(step) {
      CallFates(s, step);
    } else {
      hide Fates;
      match step
      case AddTask(c) => PushFates(s, Job(c, 0));
      case PushNotify(e) =>
        PushFates(s, Job(s.waits[e].collection, e));
        SameFates(Push(s, Job(s.waits[e].collection, e)), t);
      case _ => SameFates(s, t);
    }
  }

  /** The order depends on the queue, the worker, the slot and the history of starts alone. */
  lemma SameOrder(s: State, t: State)
    requires InOrder(s) && t.queue == s.queue && t.started == s.started && t.ended == s.ended && t.current == s.current
    requires Hand(t).phase == Hand(s).phase
            || (!Hand(s).phase.Running? && !Hand(t).phase.Running? && !Hand(t).phase.Popped?)
    ensures InOrder(t)
  {
  }

  lemma KnownNumbers(s: State)
    requires Fates(s) && InOrder(s)
    ensures forall j | 0 <= j < |s.queue| :: s.queue[j] < |s.jobs|
    ensures forall j | 0 <= j < |s.started| :: s.started[j] < |s.jobs|
  {
    forall j | 0 <= j < |s.queue| ensures s.queue[j] < |s.jobs| { assert IsQueued(s, s.queue[j]); }
    forall j | 0 <= j < |s.started| ensures s.started[j] < |s.jobs| {
      assert s.started[j] in s.started;
      assert IsHeld(s, s.started[j]) || IsGone(s, s.started[j]);
    }
  }

  lemma PushOrder(s: State, job: Job)
    requires OneAlive(s) && Fates(s) && InOrder(s)
    ensures InOrder(Push(s, job))
  {
    KnownNumbers(s);
    hide Fates;
  }

  lemma PopOrder(s: State, t: State)
    requires InOrder(s) && s.queue != [] && Hand(s).phase.Popping? && Hand(t).phase.Popped?
    requires t.queue == s.queue[1..] && t.started == s.started && t.ended == s.ended && t.current == Holds(s.queue[0])
    ensures InOrder(t)
  {
  }

  lemma BeginOrder(s: State, t: State)
    requires InOrder(s) && Hand(s).phase.Popped? && s.current.Holds? && Hand(t).phase == Running(s.current.job)
    requires t.queue == s.queue && t.started == s.started + [s.current.job] && t.ended == s.ended
            && t.current == s.current
    ensures InOrder(t)
  {
    forall i: nat ensures i in t.started <==> i in s.started || i == s.current.job {
      assert i in s.started + [s.current.job] <==> i in s.started || i == s.current.job;
    }
  }

  lemma EndOrder(s: State, t: State)
    requires InOrder(s) && Hand(s).phase.Running? && !Hand(t).phase.Running? && !Hand(t).phase.Popped?
    requires t.queue == s.queue && t.started == s.started && t.ended == s.ended + {Hand(s).phase.job}
    ensures InOrder(t)
  {
  }

  lemma WorkerOrder(s: State, step: Step)
    requires OneAlive(s) && InOrder(s) && Enabled(s, step) && IsWorkerStep(step)
    ensures InOrder(Apply(s, step))
  {
    var t := Apply(s, step);
    TheWorker(s, step);
    hide InOrder;
    match step
    case Pop(_) => PopOrder(s, t);
    case Begin(_) => BeginOrder(s, t);
    case Finish(_) => EndOrder(s, t);
    case Abort(_) => EndOrder(s, t);
    case _ => SameOrder(s, t);
  }

  lemma OrderStep(s: State, step: Step)
    requires Inv(s) && Enabled(s, step)
    ensures InOrder(Apply(s, step))
  {
    if IsWorkerStep(step) {
      WorkerOrder(s, step);
      return;
    }
    var t := Apply(s, step);
    hide InOrder, Fates;
    match step
    case RemoveIfWhen(r) =>
      SweepOrder(s, s.removals[r].collection);
      SameOrder(if s.removals[r].collection != CurrentCollection(s) then Sweep(s, s.removals[r].collection) else s, t);
    case RemoveIf(r) =>
      SweepOrder(s, s.removals[r].collection);
      SameOrder(Sweep(s, s.removals[r].collection), t);
    case AddTask(c) => PushOrder(s, Job(c, 0));
    case PushNotify(e) =>
      PushOrder(s, Job(s.waits[e].collection, e));
      SameOrder(Push(s, Job(s.waits[e].collection, e)), t);
    case Restart(r) => assert RemovalOk(s, r); SameOrder(s, t);
    case _ => SameOrder(s, t);
  }

  /** When a task is in the worker's hands, all tasks before it are gone. */
  lemma HeldIsNext(s: State, r: nat)
    requires OneAlive(s) && Fates(s) && InOrder(s) && IsHeld(s, r)
    ensures AllGone(s, r)
  {
    assert Hand(s).phase == Running(r) ==> r in s.started;
    forall i: nat | i < r ensures IsGone(s, i) {
      assert !IsQueued(s, i) && !IsHeld(s, i);
    }
  }

  /** Tasks once gone stay gone. */
  lemma GoneStays(s: State, step: Step, i: nat)
    requires Enabled(s, step) && IsGone(s, i)
    ensures IsGone(Apply(s, step), i)
  {
  }

  lemma AllGoneStays(s: State, step: Step, n: nat)
    requires Enabled(s, step) && AllGone(s, n)
    ensures AllGone(Apply(s, step), n)
  {
    forall i: nat | i < n { GoneStays(s, step, i); }
  }

  /** An event is raised by the task of its own wait, and all tasks before that one are gone. */
  lemma NotifyOk(s: State, w: nat)
    requires Inv(s) && Enabled(s, Notify(w))
    ensures var e, job := NotifyOf(s, w), s.workers[w].phase.job;
            && e in s.waits && s.jobs[job].notify == e && IsHeld(s, job) && job in s.started
            && (s.waits[e].Pushed? ==> s.waits[e].job == job && AllGone(s, job))
  {
    TheWorker(s, Notify(w));
    var job := Hand(s).phase.job;
    assert IsHeld(s, job);
    HeldIsNext(s, job);
    assert NotifierOk(s, job);
  }

  lemma WaitStep(s: State, step: Step, e: nat)
    requires Inv(s) && Enabled(s, step)
    ensures WaitOk(Apply(s, step), e)
  {
    assert WaitOk(s, e);
    var t := Apply(s, step);
    if step.Notify? { NotifyOk(s, step.worker); }
    if e in s.waits && e in t.waits {
      match t.waits[e]
      case Asked(_, _) =>
      case Pushed(_, job) => if AllGone(s, job) { AllGoneStays(s, step, job); }
      case Returned(mark) => AllGoneStays(s, step, mark);
    }
  }

  lemma NotifierStep(s: State, step: Step, i: nat)
    requires Inv(s) && Enabled(s, step) && i < |Apply(s, step).jobs| && Apply(s, step).jobs[i].notify > 0
    ensures NotifierOk(Apply(s, step), i)
  {
    assert WaitOk(s, Apply(s, step).jobs[i].notify);
    if i < |s.jobs| { assert NotifierOk(s, i); }
  }

  lemma EventsStep(s: State, step: Step)
    requires Inv(s) && Enabled(s, step)
    ensures Events(Apply(s, step))
  {
    var t := Apply(s, step);
    forall e: nat ensures WaitOk(t, e) { WaitStep(s, step, e); }
    forall i | 0 <= i < |t.jobs| && t.jobs[i].notify > 0 ensures NotifierOk(t, i) { NotifierStep(s, step, i); }
    if step.Notify? { NotifyOk(s, step.worker); }
  }

  // ---------------------------------------------------------------- removals

  /** A clean prefix stays clean: tasks queued later have larger numbers. */
  lemma CleanStays(s: State, step: Step, c: string, mark: nat)
    requires Inv(s) && Enabled(s, step) && IsClean(s, c, mark)
    ensures IsClean(Apply(s, step), c, mark)
  {
    var t := Apply(s, step);
    forall i: nat | i < mark && t.jobs[i].collection == c ensures !IsQueued(t, i) && !IsHeld(t, i) {
      assert !IsQueued(s, i) && !IsHeld(s, i);
      NotNew(s, step, i);
    }
  }

  /** A task neither queued nor held does not come back. */
  lemma NotNew(s: State, step: Step, i: nat)
    requires Inv(s) && Enabled(s, step) && i < |s.jobs| && !IsQueued(s, i) && !IsHeld(s, i)
    ensures !IsQueued(Apply(s, step), i) && !IsHeld(Apply(s, step), i)
  {
    if IsWorkerStep(step) {
      TheWorker(s, step);
      if step.Pop? { assert IsQueued(s, s.queue[0]); }
    } else if step.RemoveIfWhen? || step.RemoveIf? {
      SweepMoves(s, s.removals[step.call].collection, i);
    } else if step.Restart? {
      assert RemovalOk(s, step.call);
    }
  }

  /** What a sweep leaves is clean if no task of the collection is held. */
  lemma SweepCleans(s: State, c: string, mark: nat)
    requires mark <= |s.jobs| && forall i: nat | i < mark && s.jobs[i].collection == c :: !IsHeld(s, i)
    ensures IsClean(Sweep(s, c), c, mark)
  {
    forall i: nat { SweepMoves(s, c, i); }
  }

  /** The call sweeps its collection behind a check or a join that leaves no task of it in hand. */
  lemma SwepClean(s: State, step: Step)
    requires Inv(s) && Enabled(s, step) && (step.RemoveIfWhen? || step.RemoveIf?)
    requires step.RemoveIfWhen? ==> s.removals[step.call].collection != CurrentCollection(s)
    ensures IsClean(Apply(s, step), s.removals[step.call].collection, s.removals[step.call].mark)
  {
    var c, mark := s.removals[step.call].collection, s.removals[step.call].mark;
    assert RemovalOk(s, step.call);
    SweepCleans(s, c, mark);
    forall i: nat ensures IsHeld(Apply(s, step), i) == IsHeld(Sweep(s, c), i) {}
  }

  /** The call that takes the step. */
  lemma OwnStep(s: State, step: Step)
    requires Inv(s) && Enabled(s, step) && IsCallStep(step)
    ensures RemovalOk(Apply(s, step), step.call)
  {
    var r := step.call;
    assert RemovalOk(s, r);
    if step.RemoveIf? || (step.RemoveIfWhen? && s.removals[r].collection != CurrentCollection(s)) {
      SwepClean(s, step);
    }
    if step.Restart? { CleanStays(s, step, s.removals[r].collection, s.removals[r].mark); }
  }

  /** What the step leaves alone of the worker, as far as other calls depend on it. */
  lemma HandStays(s: State, step: Step, r: nat)
    requires Inv(s) && Enabled(s, step) && r < |s.removals| && (IsCallStep(step) ==> step.call != r)
    requires step.Restart? ==> !IsPast(s.removals[r].stage)
    ensures var t := Apply(s, step);
            && |s.jobs| <= |t.jobs| && r < |t.removals| && t.removals[r] == s.removals[r]
            && (IsPast(s.removals[r].stage) ==>
                  && |t.workers| == |s.workers| && (Hand(s).interrupted ==> Hand(t).interrupted)
                  && (Hand(s).phase.Stopped? ==> Hand(t).phase.Stopped?))
  {
    if IsWorkerStep(step) { TheWorker(s, step); }
    hide Fates, InOrder, Events, Removals;
  }

  lemma OtherCall(s: State, step: Step, r: nat)
    requires Inv(s) && Enabled(s, step) && r < |s.removals| && (IsCallStep(step) ==> step.call != r)
    requires step.Restart? ==> !IsPast(s.removals[r].stage)
    ensures r < |Apply(s, step).removals| && RemovalOk(Apply(s, step), r)
  {
    var call := s.removals[r];
    assert RemovalOk(s, r);
    HandStays(s, step, r);
    if call.stage.Restarting? || call.stage.Finished? { CleanStays(s, step, call.collection, call.mark); }
    hide IsClean, Apply, Enabled, Inv, Hand;
  }

  lemma RemovalStep(s: State, step: Step, r: nat)
    requires Inv(s) && Enabled(s, step) && r < |Apply(s, step).removals|
    ensures RemovalOk(Apply(s, step), r)
  {
    if r < |s.removals| && !(IsCallStep(step) && step.call == r) {
      assert step.Restart? && step.call < r ==> !IsPast(s.removals[r].stage);
      assert step.Restart? && r < step.call ==> !IsPast(s.removals[r].stage);
      OtherCall(s, step, r);
    } else if IsCallStep(step) {
      OwnStep(s, step);
    }
  }

  /** While the worker is down, or marked to go down, some call is behind it. */
  lemma DownStep(s: State, step: Step)
    requires Inv(s) && Enabled(s, step) && (Hand(Apply(s, step)).phase.Stopped? || Hand(Apply(s, step)).interrupted)
    ensures SomeDown(Apply(s, step))
  {
    var t := Apply(s, step);
    if step.Interrupt? {
      assert IsDown(t.removals[step.call].stage);
    } else {
      if IsWorkerStep(step) { TheWorker(s, step); }
      assert SomeDown(s);
      var r :| 0 <= r < |s.removals| && IsDown(s.removals[r].stage);
      assert IsDown(t.removals[r].stage);
    }
  }

  lemma RemovalsStep(s: State, step: Step)
    requires Inv(s) && Enabled(s, step) && Serial(Apply(s, step))
    ensures Removals(Apply(s, step))
  {
    var t := Apply(s, step);
    forall r | 0 <= r < |t.removals| ensures RemovalOk(t, r) { RemovalStep(s, step, r); }
    if Hand(t).phase.Stopped? || Hand(t).interrupted { DownStep(s, step); }
  }

  // ---------------------------------------------------------------- all runs

  lemma StartHolds()
    ensures Inv(START)
  {
  }

  lemma StepKeeps(s: State, step: Step)
    requires Inv(s) && Enabled(s, step) && Serial(Apply(s, step))
    ensures Inv(Apply(s, step))
  {
    AliveStep(s, step);
    FatesStep(s, step);
    OrderStep(s, step);
    EventsStep(s, step);
    RemovalsStep(s, step);
  }

  predicate IsRun(s: State, steps: seq<Step>)
    decreases |steps|
  {
    steps == [] || (Enabled(s, steps[0]) && IsRun(Apply(s, steps[0]), steps[1..]))
  }

  function After(s: State, steps: seq<Step>): State
    requires IsRun(s, steps)
    decreases |steps|
  {
    if steps == [] then s else After(Apply(s, steps[0]), steps[1..])
  }

  /** At no point of the run two calls of `removeTask` replace the worker at once. */
  predicate SerialRun(s: State, steps: seq<Step>)
    requires IsRun(s, steps)
    decreases |steps|
  {
    Serial(s) && (steps != [] ==> SerialRun(Apply(s, steps[0]), steps[1..]))
  }

  lemma {:induction false} RunKeeps(s: State, steps: seq<Step>)
    requires Inv(s) && IsRun(s, steps) && SerialRun(s, steps)
    ensures Inv(After(s, steps))
    decreases |steps|
  {
    hide Inv, Serial, Enabled, Apply;
    if steps != [] {
      StartsSerial(Apply(s, steps[0]), steps[1..]);
      StepKeeps(s, steps[0]);
      RunKeeps(Apply(s, steps[0]), steps[1..]);
    }
  }

  lemma StartsSerial(s: State, steps: seq<Step>)
    requires IsRun(s, steps) && SerialRun(s, steps)
    ensures Serial(s)
  {
  }

  lemma RunCons(s: State, step: Step, rest: seq<Step>)
    requires Enabled(s, step) && IsRun(Apply(s, step), rest)
    ensures IsRun(s, [step] + rest) && After(s, [step] + rest) == After(Apply(s, step), rest)
    ensures Serial(s) && SerialRun(Apply(s, step), rest) ==> SerialRun(s, [step] + rest)
  {
    hide Enabled, Apply, Serial;
    assert ([step] + rest)[1..] == rest;
  }

  lemma {:induction false} RunAppend(s: State, first: seq<Step>, rest: seq<Step>)
    requires IsRun(s, first) && IsRun(After(s, first), rest)
    ensures IsRun(s, first + rest) && After(s, first + rest) == After(After(s, first), rest)
    ensures SerialRun(s, first) && SerialRun(After(s, first), rest) ==> SerialRun(s, first + rest)
    decreases |first|
  {
    hide Enabled, Apply, Serial;
    if first == [] {
      assert first + rest == rest;
    } else {
      RunAppend(Apply(s, first[0]), first[1..], rest);
      RunCons(s, first[0], first[1..] + rest);
      assert [first[0]] + (first[1..] + rest) == first + rest;
    }
  }

  /** However the threads interleave, as long as no two removals replace the worker at once: at most one
      worker is alive; every task starts at most once, in queue order; a finished wait has seen off every
      task queued before it began; and every task of a collection queued before a finished removal of it
      began has ended or was removed. */
  lemma Safety(steps: seq<Step>)
    requires IsRun(START, steps) && SerialRun(START, steps)
    ensures Safe(After(START, steps))
  {
    StartHolds();
    RunKeeps(START, steps);
    SafetyOf(After(START, steps));
  }

  ghost predicate Safe(s: State) {
    && (forall v, w | 0 <= v < w < |s.workers| :: s.workers[v].phase.Stopped? || s.workers[w].phase.Stopped?)
    && Ascends(s.started) && (forall i | i in s.started :: i < |s.jobs|)
    && (forall e | e in s.waits && s.waits[e].Returned? :: AllGone(s, s.waits[e].mark))
    && (forall r | 0 <= r < |s.removals| && s.removals[r].stage.Finished? ::
      Cleared(s, s.removals[r].collection, s.removals[r].mark))
  }

  ghost predicate Cleared(s: State, c: string, mark: nat) {
    && mark <= |s.jobs|
    && forall i: nat | i < mark && s.jobs[i].collection == c :: IsGone(s, i) && !IsQueued(s, i)
  }

  lemma SafetyOf(s: State)
    requires Inv(s)
    ensures Safe(s)
  {
    forall i | i in s.started ensures i < |s.jobs| { assert IsHeld(s, i) || IsGone(s, i); }
    forall e | e in s.waits && s.waits[e].Returned? ensures AllGone(s, s.waits[e].mark) { assert WaitOk(s, e); }
    forall r | 0 <= r < |s.removals| && s.removals[r].stage.Finished?
      ensures Cleared(s, s.removals[r].collection, s.removals[r].mark)
    {
      assert RemovalOk(s, r);
    }
  }
}
