/** The thread pool of `executor.c` as a step system: workers, the timers that
    give up on them, their replacements, and the stop markers. */
module Executor {
  import opened Options
  import opened WaitQueue

  /** `timeout` tells whether the dispatcher asked for one. */
  datatype Task = Task(id: nat, stop: bool, timeout: bool)

  /** Where a worker is in `worker_run` and `worker_execute`. */
  datatype Phase =
    | Idle                               // about to call ringbuffer_get
    | Getting                            // inside it
    | Got(task: Task)
    | Armed(task: Task, timer: nat)      // scheduler_add returned `timer`
    | Stored(task: Task)                 // sched_id holds it
    | Working(task: Task)                // from current = &task to current = NULL
    | Worked(task: Task)
    | Collecting(task: Task, seen: bool) // `seen` decided on the timer
    | Exited

  /** `discarded` is the flag in the worker's copy of the task; `fired` records
      that the timer armed for that task has gone off. */
  datatype Thread = Thread(slot: nat, phase: Phase, discarded: bool, fired: bool)

  /** A `Worker` slot: threads that replaced one another share it. `current` is
      the thread whose task it addresses; 0 is no timer. */
  datatype Slot = Slot(current: Option<nat>, schedId: nat)

  /** The callback's argument is the slot; who armed it and for which task is
      recorded for the proofs. */
  datatype Timer = Timer(slot: nat, owner: nat, task: Task)

  /** `replacing` is the slot whose callback has marked and not yet replaced. */
  datatype Pool = Pool(
    rb: Rb<Task>, running: bool, slots: seq<Slot>, threads: seq<Thread>,
    timers: map<nat, Timer>, nextTimer: nat, replacing: Option<nat>,
    begun: bool, toStart: nat, stopping: bool, stopsLeft: nat, nextId: nat,
    worked: seq<Task>, collected: seq<Task>, steady: bool)

  /** One label per step of some thread, of the caller or of the scheduler. */
  datatype Label =
    | StartBegin
    | StartOne(created: bool)            // one round of the loop of executor_start
    | Dispatch(timeout: bool, after: seq<Getter>)
    | StopBegin
    | StopPut(after: seq<Getter>)
    | StopLost                           // the queue was full
    | StopEnd
    | GetEnter(t: nat)
    | GetRetake(t: nat)
    | GetSpurious(t: nat)
    | Arm(t: nat, added: bool)
    | Store(t: nat)
    | Begin(t: nat)
    | Finish(t: nat)
    | Decide(t: nat, removed: bool)
    | Collect(t: nat, ret: int)
    | Mark(timer: nat)                   // first half of worker_discard
    | Replace(created: bool)             // second half

  /** `executor_init` for `n` workers and a queue of `cap` tasks. */
  function Fresh(n: nat, cap: nat): Pool {
    Pool(Rb(cap, [], 0, [], [], []), false, seq(n, _ => Slot(None, 0)), [], map[], 1, None, false, 0, false, 0, 0,
         [], [], true)
  }

  function PhaseOf(s: Pool, t: nat): Phase {
    if t < |s.threads| then s.threads[t].phase else Exited
  }

  ghost predicate Enabled(s: Pool, l: Label) {
    match l
    case StartBegin => !s.running && s.toStart == 0
    case StartOne(_) => s.toStart > 0
    case Dispatch(timeout, after) => s.running && WaitQueue.Enabled(s.rb, Put(Task(s.nextId, false, timeout), after))
    case StopBegin => !s.stopping
    case StopPut(after) => s.stopsLeft > 0 && WaitQueue.Enabled(s.rb, Put(Task(s.nextId, true, false), after))
    case StopLost => s.stopsLeft > 0 && |s.rb.queue| == s.rb.cap
    case StopEnd => s.stopping && s.stopsLeft == 0
    case GetEnter(t) => PhaseOf(s, t).Idle?
    case GetRetake(t) => PhaseOf(s, t).Getting? && t < |s.rb.getters| && s.rb.getters[t] == Woken
    case GetSpurious(t) => PhaseOf(s, t).Getting? && t < |s.rb.getters| && s.rb.getters[t] == Asleep
    case Arm(t, _) => PhaseOf(s, t).Got? && PhaseOf(s, t).task.timeout
    case Store(t) => PhaseOf(s, t).Armed?
    case Begin(t) => PhaseOf(s, t).Stored? || (PhaseOf(s, t).Got? && !PhaseOf(s, t).task.timeout)
    case Finish(t) => PhaseOf(s, t).Working?
    case Decide(t, _) => PhaseOf(s, t).Worked?
    case Collect(t, ret) => PhaseOf(s, t).Collecting? && (PhaseOf(s, t).task.stop ==> ret == 1)
    case Mark(timer) => timer in s.timers && s.replacing.None?
    case Replace(_) => s.replacing.Some? && s.toStart == 0 // both hold the executor's lock
  }

  // ---- what the labels do

  function SetThread(s: Pool, t: nat, th: Thread): Pool
    requires t < |s.threads|
  {
    s.(threads := s.threads[t := th])
  }

  function SetSlot(s: Pool, i: nat, slot: Slot): Pool {
    if i < |s.slots| then s.(slots := s.slots[i := slot]) else s
  }

  /** `worker_init`: the slot is wiped and, if it can be, a thread created. */
  function InitWorker(s: Pool, i: nat, created: bool): Pool {
    var s1 := SetSlot(s, i, Slot(None, 0));
    if created then s1.(threads := s.threads + [Thread(i, Idle, false, false)], rb := s.rb.(getters := s.rb.getters + [Out]))
    else s1.(steady := false)
  }

  function PutTask(s: Pool, x: Task, after: seq<Getter>): Pool {
    s.(rb := Do(s.rb, Put(x, after)), nextId := s.nextId + 1)
  }

  /** A getter's lock section; a task taken comes with its flags cleared. */
  function DoGet(s: Pool, t: nat, step: Step<Task>): Pool
    requires t < |s.threads| && (step.Enter? || step.Retake?) && step.t < |s.rb.getters|
  {
    var th := s.threads[t];
    var s1 := s.(rb := Do(s.rb, step));
    if s.rb.queue == [] then SetThread(s1, t, th.(phase := Getting))
    else SetThread(s1, t, Thread(th.slot, Got(s.rb.queue[0]), false, false))
  }

  /** The thread has taken a task and not yet collected it. */
  predicate Busy(th: Thread) {
    !th.phase.Idle? && !th.phase.Getting? && !th.phase.Exited?
  }

  predicate HoldsTask(th: Thread, x: Task) {
    Busy(th) && th.phase.task == x
  }

  /** The timer goes off: its owner's task, if it still has it, has timed out;
      the task that `current` names, which may be another one, is discarded. */
  function DoMark(s: Pool, timer: nat): Pool
    requires timer in s.timers
  {
    var tm := s.timers[timer];
    var th1 := if tm.owner < |s.threads| && HoldsTask(s.threads[tm.owner], tm.task)
               then s.threads[tm.owner := s.threads[tm.owner].(fired := true)] else s.threads;
    var cur := if tm.slot < |s.slots| then s.slots[tm.slot].current else None;
    var th2 := if cur.Some? && cur.value < |th1| then th1[cur.value := th1[cur.value].(discarded := true)] else th1;
    s.(timers := s.timers - {timer}, threads := th2, replacing := Some(tm.slot))
  }

  /** `executor_replace` checks the index again before it starts the thread. */
  function DoReplace(s: Pool, created: bool): Pool
    requires s.replacing.Some?
  {
    var s1 := s.(replacing := None);
    if s.replacing.value < |s.slots| then InitWorker(s1, s.replacing.value, created) else s1
  }

  /** A worker moving on by itself, from one phase to another. */
  predicate IsLocal(l: Label) {
    l.Arm? || l.Store? || l.Begin? || l.Finish? || l.Decide? || l.Collect?
  }

  /** The worker after its own step; `timer` is the id the scheduler would give. */
  function LocalThread(th: Thread, l: Label, timer: nat): Thread
    requires IsLocal(l) && Busy(th)
  {
    var x := th.phase.task;
    match l
    case Arm(_, added) => th.(phase := Armed(x, if added then timer else 0))
    case Store(_) => th.(phase := Stored(x))
    case Begin(_) => th.(phase := Working(x))
    case Finish(_) => th.(phase := Worked(x))
    case Decide(_, _) => th.(phase := Collecting(x, th.discarded))
    case Collect(_, ret) => Thread(th.slot, if ret != 0 then Exited else Idle, false, false)
  }

  function LocalSlot(slot: Slot, th: Thread, l: Label): Slot {
    if l.Store? && th.phase.Armed? then slot.(schedId := th.phase.timer)
    else if l.Begin? then slot.(current := Some(l.t))
    else if l.Finish? then slot.(current := None)
    else slot
  }

  /** `removed` tells whether `scheduler_del` found the timer to remove. */
  function LocalTimers(s: Pool, th: Thread, l: Label): map<nat, Timer>
    requires Busy(th) && th.slot < |s.slots|
  {
    if l.Arm? && l.added then s.timers[s.nextTimer := Timer(th.slot, l.t, th.phase.task)]
    else if l.Decide? && l.removed && th.phase.task.timeout && !th.discarded then s.timers - {s.slots[th.slot].schedId}
    else s.timers
  }

  ghost function LocalNext(s: Pool, l: Label): Pool
    requires IsLocal(l) && Enabled(s, l) && Wired(s)
  {
    var th := s.threads[l.t];
    s.(threads := s.threads[l.t := LocalThread(th, l, s.nextTimer)],
       slots := s.slots[th.slot := LocalSlot(s.slots[th.slot], th, l)],
       timers := LocalTimers(s, th, l),
       nextTimer := s.nextTimer + (if l.Arm? && l.added then 1 else 0),
       worked := s.worked + (if l.Begin? then [th.phase.task] else []),
       collected := s.collected + (if l.Collect? then [th.phase.task] else []),
       steady := s.steady && (l.Collect? ==> l.ret == 0))
  }

  predicate IsSpawn(l: Label) {
    l.StartOne? || l.Replace?
  }

  ghost function SpawnNext(s: Pool, l: Label): Pool
    requires IsSpawn(l) && Enabled(s, l) && Wired(s)
  {
    match l
    case StartOne(created) => InitWorker(s, |s.slots| - s.toStart, created).(toStart := s.toStart - 1)
    case Replace(created) => DoReplace(s, created)
  }

  predicate IsGet(l: Label) {
    l.GetEnter? || l.GetRetake?
  }

  /** No thread moves. */
  predicate IsQuiet(l: Label) {
    l.StartBegin? || l.Dispatch? || l.StopBegin? || l.StopPut? || l.StopLost? || l.StopEnd? || l.GetSpurious?
  }

  ghost function QuietNext(s: Pool, l: Label): Pool
    requires IsQuiet(l) && Enabled(s, l) && Wired(s)
  {
    match l
    case StartBegin => s.(running := true, begun := true, toStart := |s.slots|)
    case Dispatch(timeout, after) => PutTask(s, Task(s.nextId, false, timeout), after)
    case StopBegin => s.(stopping := true, stopsLeft := |s.slots|)
    case StopPut(after) => PutTask(s, Task(s.nextId, true, false), after).(stopsLeft := s.stopsLeft - 1)
    case StopLost => s.(stopsLeft := s.stopsLeft - 1)
    case StopEnd => s.(running := false, stopping := false)
    case GetSpurious(t) => s.(rb := Do(s.rb, Spurious(t)))
  }

  ghost function Next(s: Pool, l: Label): Pool
    requires Enabled(s, l) && Wired(s)
  {
    if IsLocal(l) then LocalNext(s, l)
    else if IsSpawn(l) then SpawnNext(s, l)
    else if IsGet(l) then DoGet(s, l.t, if l.GetEnter? then Enter(l.t) else Retake(l.t))
    else if l.Mark? then DoMark(s, l.timer)
    else QuietNext(s, l)
  }

  // ---- bags of tasks

  function Bag(th: Thread): multiset<Task> {
    if Busy(th) then multiset{th.phase.task} else multiset{}
  }

  /** The thread has called its task's work function and not yet collected it. */
  predicate AtWork(th: Thread) {
    th.phase.Working? || th.phase.Worked? || th.phase.Collecting?
  }

  function WorkBag(th: Thread): multiset<Task> {
    if AtWork(th) then multiset{th.phase.task} else multiset{}
  }

  /** The tasks the threads hold, and those of them whose work was called. */
  function Held(ts: seq<Thread>): multiset<Task> {
    if ts == [] then multiset{} else Held(ts[..|ts| - 1]) + Bag(ts[|ts| - 1])
  }

  function InWork(ts: seq<Thread>): multiset<Task> {
    if ts == [] then multiset{} else InWork(ts[..|ts| - 1]) + WorkBag(ts[|ts| - 1])
  }

  lemma {:induction false} BagsUpdate(ts: seq<Thread>, t: nat, th: Thread)
    requires t < |ts|
    ensures Held(ts[t := th]) + Bag(ts[t]) == Held(ts) + Bag(th)
    ensures InWork(ts[t := th]) + WorkBag(ts[t]) == InWork(ts) + WorkBag(th)
  {
    hide Bag, WorkBag;
    var n := |ts| - 1;
    var after := ts[t := th];
    assert Held(after) == Held(after[..n]) + Bag(after[n]) && InWork(after) == InWork(after[..n]) + WorkBag(after[n]);
    if t < n {
      BagsUpdate(ts[..n], t, th);
      assert after[..n] == ts[..n][t := th];
      Shuffle(Held(after[..n]), Bag(ts[t]), Held(ts[..n]), Bag(th), Bag(ts[n]));
      Shuffle(InWork(after[..n]), WorkBag(ts[t]), InWork(ts[..n]), WorkBag(th), WorkBag(ts[n]));
    } else {
      assert after[..n] == ts[..n];
    }
  }

  lemma Shuffle(a: multiset<Task>, b: multiset<Task>, c: multiset<Task>, d: multiset<Task>, x: multiset<Task>)
    requires a + b == c + d
    ensures (a + x) + b == (c + x) + d
  {
    assert (a + x) + b == (a + b) + x && (c + x) + d == (c + d) + x;
  }

  lemma BagsAppend(ts: seq<Thread>, th: Thread)
    ensures Held(ts + [th]) == Held(ts) + Bag(th) && InWork(ts + [th]) == InWork(ts) + WorkBag(th)
  {
    assert (ts + [th])[..|ts|] == ts;
  }

  lemma {:induction false} BagsSame(a: seq<Thread>, b: seq<Thread>)
    requires |a| == |b| && forall i :: 0 <= i < |a| ==> a[i].phase == b[i].phase
    ensures Held(a) == Held(b) && InWork(a) == InWork(b)
  {
    if a != [] {
      BagsSame(a[..|a| - 1], b[..|b| - 1]);
    }
  }

  /** Alive, and its task's timer has not gone off. */
  function Counts(th: Thread): nat {
    if th.phase.Exited? || th.fired then 0 else 1
  }

  function Unfired(ts: seq<Thread>): nat {
    if ts == [] then 0 else Unfired(ts[..|ts| - 1]) + Counts(ts[|ts| - 1])
  }

  lemma {:induction false} UnfiredUpdate(ts: seq<Thread>, t: nat, th: Thread)
    requires t < |ts|
    ensures Unfired(ts[t := th]) + Counts(ts[t]) == Unfired(ts) + Counts(th)
  {
    var n := |ts| - 1;
    if t < n {
      UnfiredUpdate(ts[..n], t, th);
      assert ts[t := th][..n] == ts[..n][t := th];
    } else {
      assert ts[t := th][..n] == ts[..n];
    }
  }

  // ---- the invariant

  ghost predicate Wired(s: Pool) {
    && |s.threads| == |s.rb.getters|
    && (forall t :: 0 <= t < |s.threads| ==> (s.threads[t].phase.Getting? <==> s.rb.getters[t] != Out))
    && (forall t :: 0 <= t < |s.threads| ==> s.threads[t].slot < |s.slots|)
    && (forall k :: k in s.timers ==> s.timers[k].slot < |s.slots|)
    && (s.replacing.Some? ==> s.replacing.value < |s.slots|)
    && s.toStart <= |s.slots|
  }

  /** `current` is null or names a task that is still inside its work call. */
  ghost predicate PointersSafe(s: Pool) {
    forall i :: 0 <= i < |s.slots| && s.slots[i].current.Some? ==>
      var x := s.slots[i].current.value;
      x < |s.threads| && s.threads[x].phase.Working? && s.threads[x].slot == i
  }

  /** The flag that decided on the timer is the one `collect` will be given. */
  ghost predicate FlagsAgree(s: Pool) {
    forall t :: 0 <= t < |s.threads| && s.threads[t].phase.Collecting? ==>
      s.threads[t].phase.seen == s.threads[t].discarded
  }

  /** Tasks are numbered as accepted, and none is lost or doubled: accepted ones
      are queued, held by a thread or collected; worked ones are held or
      collected. */
  ghost predicate Conserved(s: Pool) {
    && s.nextId == |s.rb.accepted|
    && (forall i :: 0 <= i < |s.rb.accepted| ==> s.rb.accepted[i].id == i)
    && multiset(s.rb.accepted) == multiset(s.rb.queue) + Held(s.threads) + multiset(s.collected)
    && multiset(s.worked) == InWork(s.threads) + multiset(s.collected)
  }

  /** While threads can be created and no collect asks its worker to end, as many
      threads as there are slots are not stuck in a timed-out task, counting the
      one about to be created. */
  ghost predicate Manned(s: Pool) {
    s.begun && s.steady ==>
      |s.slots| <= Unfired(s.threads) + s.toStart + if s.replacing.Some? then 1 else 0
  }

  ghost predicate Inv(s: Pool) {
    && WaitQueue.Inv(s.rb)
    && Wired(s)
    && PointersSafe(s)
    && FlagsAgree(s)
    && Conserved(s)
    && Manned(s)
  }
}
