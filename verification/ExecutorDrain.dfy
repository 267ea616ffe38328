/** `executor_stop`: the markers it queues empty the pool. */
module ExecutorDrain {
  import opened Executor
  import opened ExecutorSafety

  // ---- sums over threads, stops in a queue

  function Total(ts: seq<Thread>, f: Thread -> nat): nat {
    if ts == [] then 0 else Total(ts[..|ts| - 1], f) + f(ts[|ts| - 1])
  }

  lemma {:induction false} TotalUpdate(ts: seq<Thread>, t: nat, th: Thread, f: Thread -> nat)
    requires t < |ts|
    ensures Total(ts[t := th], f) + f(ts[t]) == Total(ts, f) + f(th)
  {
    var n := |ts| - 1;
    if t < n {
      TotalUpdate(ts[..n], t, th, f);
      assert ts[t := th][..n] == ts[..n][t := th];
    } else {
      assert ts[t := th][..n] == ts[..n];
    }
  }

  lemma {:induction false} TotalAtLeast(ts: seq<Thread>, t: nat, f: Thread -> nat)
    requires t < |ts|
    ensures f(ts[t]) <= Total(ts, f)
  {
    if t < |ts| - 1 {
      TotalAtLeast(ts[..|ts| - 1], t, f);
    }
  }

  lemma {:induction false} TotalZero(ts: seq<Thread>, f: Thread -> nat)
    requires forall t :: 0 <= t < |ts| ==> f(ts[t]) == 0
    ensures Total(ts, f) == 0
  {
    if ts != [] {
      TotalZero(ts[..|ts| - 1], f);
    }
  }

  lemma {:induction false} TotalSame(a: seq<Thread>, b: seq<Thread>, f: Thread -> nat)
    requires |a| == |b| && forall t :: 0 <= t < |a| ==> f(a[t]) == f(b[t])
    ensures Total(a, f) == Total(b, f)
  {
    if a != [] {
      TotalSame(a[..|a| - 1], b[..|b| - 1], f);
    }
  }

  lemma TotalAppend(ts: seq<Thread>, th: Thread, f: Thread -> nat)
    ensures Total(ts + [th], f) == Total(ts, f) + f(th)
  {
    assert (ts + [th])[..|ts|] == ts;
  }

  /** Threads that will still ask for a task after the one they hold. */
  function Free(th: Thread): nat {
    if th.phase.Exited? || (Busy(th) && th.phase.task.stop) then 0 else 1
  }

  function Stops(q: seq<Task>): nat {
    if q == [] then 0 else Stops(q[..|q| - 1]) + if q[|q| - 1].stop then 1 else 0
  }

  lemma {:induction false} StopsSplit(a: seq<Task>, b: seq<Task>)
    ensures Stops(a + b) == Stops(a) + Stops(b)
  {
    if b == [] {
      assert a + b == a;
    } else {
      var n := |b| - 1;
      assert (a + b)[..|a + b| - 1] == a + b[..n];
      StopsSplit(a, b[..n]);
    }
  }

  lemma {:induction false} StopsSome(q: seq<Task>) returns (i: nat)
    requires Stops(q) > 0
    ensures i < |q| && q[i].stop
  {
    var n := |q| - 1;
    if q[n].stop {
      return n;
    }
    i := StopsSome(q[..n]);
  }

  lemma {:induction false} Fewer(a: set<nat>, b: set<nat>)
    requires a <= b
    ensures |a| <= |b|
  {
    if a != {} {
      var x :| x in a;
      Fewer(a - {x}, b - {x});
    }
  }

  // ---- draining

  /** The steps of a pool that is being stopped, with timers going off and workers
      replaced: no dispatch, every marker accepted, and no user's collect asking a
      worker to end. */
  ghost predicate DrainStep(s: Pool, l: Label) {
    && Enabled(s, l)
    && (IsLocal(l) || IsGet(l) || l.GetSpurious? || l.StopPut? || l.Mark? || l.Replace?)
    && (l.Collect? && !PhaseOf(s, l.t).task.stop ==> l.ret == 0)
  }

  /** A step of a worker or of the caller that something is there for. */
  predicate IsProper(l: Label) {
    !l.GetSpurious? && !l.Mark? && !l.Replace?
  }

  /** Markers come after all other tasks. */
  ghost predicate Ordered(xs: seq<Task>) {
    forall i, j :: 0 <= i < j < |xs| && xs[i].stop ==> xs[j].stop
  }

  /** `extra` is how many more live threads there are than markers. */
  ghost predicate DrainInv(s: Pool, extra: nat) {
    && Inv(s) && 0 < s.rb.cap && 0 < |s.slots|
    && Total(s.threads, Free) == s.stopsLeft + Stops(s.rb.queue) + extra
    && Ordered(s.rb.accepted)
    && Stops(s.rb.accepted) + s.stopsLeft == |s.slots|
  }

  /** Nothing queued, nothing held: all threads have exited but `extra`, which
      sleep for good. */
  ghost predicate Drained(s: Pool, extra: nat) {
    && s.rb.queue == [] && s.stopsLeft == 0
    && (forall t :: 0 <= t < |s.threads| ==> s.threads[t].phase.Exited? || s.threads[t].phase.Getting?)
    && Total(s.threads, Free) == extra
  }

  lemma LocalFree(s: Pool, l: Label)
    requires Wired(s) && DrainStep(s, l) && IsLocal(l)
    ensures l.t < |s.threads| && Free(Next(s, l).threads[l.t]) == Free(s.threads[l.t])
    ensures Next(s, l).stopsLeft == s.stopsLeft
  {
    hide Wired, Q.Do;
    InSlot(s, l);
  }

  lemma LocalDrains(s: Pool, l: Label, extra: nat)
    requires DrainInv(s, extra) && DrainStep(s, l) && IsLocal(l) && Inv(Next(s, l))
    ensures DrainInv(Next(s, l), extra)
  {
    hide Next, Enabled, Wired, Free, Q.Inv, PointersSafe, FlagsAgree, Conserved, Manned;
    LocalFree(s, l);
    LocalShape(s, l);
    TotalUpdate(s.threads, l.t, Next(s, l).threads[l.t], Free);
  }

  lemma GetDrains(s: Pool, l: Label, extra: nat)
    requires DrainInv(s, extra) && DrainStep(s, l) && IsGet(l) && Inv(Next(s, l))
    ensures DrainInv(Next(s, l), extra)
  {
    hide Next, Enabled, Wired, Q.Inv, PointersSafe, FlagsAgree, Conserved, Manned, Stops, Total, Q.Do;
    GetShape(s, l);
    GetLogs(s, l);
    TotalUpdate(s.threads, l.t, Next(s, l).threads[l.t], Free);
    if s.rb.queue != [] {
      var x := s.rb.queue[0];
      assert s.rb.queue == [x] + s.rb.queue[1..];
      StopsSplit([x], s.rb.queue[1..]);
      StopsOne(x);
    }
  }

  lemma StopsOne(x: Task)
    ensures Stops([x]) == if x.stop then 1 else 0
  {
    assert [x][..0] == [];
  }

  lemma PutDrains(s: Pool, l: Label, extra: nat)
    requires DrainInv(s, extra) && DrainStep(s, l) && l.StopPut? && Inv(Next(s, l))
    ensures DrainInv(Next(s, l), extra)
  {
    hide Next, Enabled, Wired, Q.Inv, PointersSafe, FlagsAgree, Conserved, Manned, Total, Stops;
    QuietQueue(s, l);
    PutCounts(s, l);
    var x := Task(s.nextId, true, false);
    StopsSplit(s.rb.queue, [x]);
    StopsSplit(s.rb.accepted, [x]);
    StopsOne(x);
  }

  lemma PutCounts(s: Pool, l: Label)
    requires Wired(s) && Enabled(s, l) && l.StopPut?
    ensures Next(s, l).stopsLeft == s.stopsLeft - 1 && |Next(s, l).slots| == |s.slots| && Next(s, l).rb.cap == s.rb.cap
  {
  }

  /** The threads a step creates. */
  function Creates(l: Label): nat {
    if l.Replace? && l.created then 1 else 0
  }

  /** Every step of a drain keeps the count of threads against markers, apart from
      the threads it creates. */
  lemma DrainKeeps(s: Pool, l: Label, extra: nat)
    requires DrainInv(s, extra) && DrainStep(s, l)
    ensures DrainInv(Next(s, l), extra + Creates(l))
  {
    hide Next, Enabled, Wired, Q.Inv, PointersSafe, FlagsAgree, Conserved, Manned, Total, Stops, Ordered;
    NextKeepsInv(s, l);
    if IsLocal(l) {
      LocalDrains(s, l, extra);
    } else if IsGet(l) {
      GetDrains(s, l, extra);
    } else if l.StopPut? {
      PutDrains(s, l, extra);
    } else if l.GetSpurious? {
      SpuriousDrains(s, l, extra);
    } else {
      TimerDrains(s, l, extra);
    }
  }

  lemma TimerDrains(s: Pool, l: Label, extra: nat)
    requires DrainInv(s, extra) && DrainStep(s, l) && (l.Mark? || l.Replace?) && Inv(Next(s, l))
    ensures DrainInv(Next(s, l), extra + Creates(l))
  {
    hide Next, Enabled, Wired, Q.Inv, PointersSafe, FlagsAgree, Conserved, Manned, Total, Stops;
    if l.Mark? {
      MarkShape(s, l);
      TotalSame(s.threads, Next(s, l).threads, Free);
    } else {
      SpawnIs(s, l);
      TotalAppend(s.threads, Thread(s.replacing.value, Idle, false, false), Free);
    }
  }

  lemma SpuriousDrains(s: Pool, l: Label, extra: nat)
    requires DrainInv(s, extra) && DrainStep(s, l) && l.GetSpurious? && Inv(Next(s, l))
    ensures DrainInv(Next(s, l), extra)
  {
    hide Q.Inv, Wired, PointersSafe, FlagsAgree, Conserved, Manned, Total, Stops;
  }

  // ---- it ends

  function Weight(th: Thread): nat {
    match th.phase
    case Idle => 2
    case Getting => 0
    case Got(_) => 12
    case Armed(_, _) => 7
    case Stored(_) => 6
    case Working(_) => 5
    case Worked(_) => 4
    case Collecting(_, _) => 3
    case Exited => 0
  }

  function MayArm(th: Thread): nat {
    if th.phase.Got? then 1 else 0
  }

  function Replacing(s: Pool): nat {
    if s.replacing.Some? then 1 else 0
  }

  /** Tasks not yet past their timer, timers and threads: no step of a drain adds to
      them, so there will never be more threads than this. */
  function Ceiling(s: Pool): nat {
    |s.threads| + |s.timers| + Replacing(s) + |s.rb.queue| + s.stopsLeft + Total(s.threads, MayArm)
  }

  /** The steps ahead but for those that markers not yet queued will cause. */
  function Ahead(s: Pool): nat {
    12 * |s.rb.queue| + Total(s.threads, Weight) + Q.Count(s.rb.getters, Q.Woken) + 4 * |s.timers| + 3 * Replacing(s)
  }

  /** A marker may wake every thread there is. */
  function Measure(s: Pool): nat {
    Ahead(s) + Product(13 + Ceiling(s), s.stopsLeft)
  }

  function Product(a: nat, b: nat): nat {
    a * b
  }

  lemma MeasureDrops(s: Pool, s': Pool)
    requires s'.stopsLeft == s.stopsLeft && Ceiling(s') <= Ceiling(s) && Ahead(s') < Ahead(s)
    ensures Measure(s') < Measure(s)
  {
    hide Ceiling, Ahead;
    assert (13 + Ceiling(s')) * s.stopsLeft <= (13 + Ceiling(s)) * s.stopsLeft;
  }

  lemma LocalWeighs(s: Pool, l: Label)
    requires Wired(s) && DrainStep(s, l) && IsLocal(l)
    ensures l.t < |s.threads|
    ensures var s', th := Next(s, l), s.threads[l.t]; var th' := s'.threads[l.t];
      && Weight(th') + 4 * |s'.timers| < Weight(th) + 4 * |s.timers|
      && MayArm(th') + |s'.timers| <= MayArm(th) + |s.timers|
  {
    hide Wired, Q.Do;
    InSlot(s, l);
    TimersCount(s, l);
  }

  lemma TimersCount(s: Pool, l: Label)
    requires Wired(s) && Enabled(s, l) && IsLocal(l)
    ensures |Next(s, l).timers| <= |s.timers| + if l.Arm? && l.added then 1 else 0
  {
    hide Q.Do, LocalThread, LocalSlot;
    var before, after := s.timers, Next(s, l).timers;
    assert after.Keys <= before.Keys + {s.nextTimer};
    assert !(l.Arm? && l.added) ==> after.Keys <= before.Keys;
    Fewer(after.Keys, before.Keys + {s.nextTimer});
  }

  lemma LocalShrinks(s: Pool, l: Label)
    requires Wired(s) && DrainStep(s, l) && IsLocal(l)
    ensures Measure(Next(s, l)) < Measure(s)
  {
    hide Wired, Enabled, Next, Weight, MayArm, Total, Q.Count, Measure;
    LocalWeighs(s, l);
    LocalFree(s, l);
    LocalShape(s, l);
    TotalUpdate(s.threads, l.t, Next(s, l).threads[l.t], Weight);
    TotalUpdate(s.threads, l.t, Next(s, l).threads[l.t], MayArm);
    MeasureDrops(s, Next(s, l));
  }

  lemma GetShrinks(s: Pool, l: Label)
    requires Wired(s) && DrainStep(s, l) && IsGet(l)
    ensures Measure(Next(s, l)) < Measure(s)
  {
    hide Wired, Next, Total, Q.Count, Q.Do, QueueStep, Measure;
    GetShape(s, l);
    GetLogs(s, l);
    TotalUpdate(s.threads, l.t, Next(s, l).threads[l.t], Weight);
    TotalUpdate(s.threads, l.t, Next(s, l).threads[l.t], MayArm);
    Q.CountUpdate(s.rb.getters, l.t, if s.rb.queue == [] then Q.Asleep else Q.Out, Q.Woken);
    assert s.threads[l.t].phase.Idle? ==> l.GetEnter?;
    MeasureDrops(s, Next(s, l));
  }

  lemma PutShrinks(s: Pool, l: Label)
    requires Wired(s) && Q.Inv(s.rb) && DrainStep(s, l) && l.StopPut?
    ensures Measure(Next(s, l)) < Measure(s)
  {
    hide Total, Q.Count, Q.Inv, Wired, Next, Enabled;
    QuietIs(s, l);
    var s', n := Next(s, l), |s.threads|;
    assert n == |s.rb.getters| by { WiredLengths(s); }
    assert Q.Count(s'.rb.getters, Q.Woken) <= Q.Count(s.rb.getters, Q.Woken) + n by {
      Q.CountSignalled(s.rb.getters, s'.rb.getters);
    }
    var c := 13 + Ceiling(s);
    assert Ceiling(s') == Ceiling(s);
    assert c * s.stopsLeft == c * (s.stopsLeft - 1) + c;
  }

  lemma WiredLengths(s: Pool)
    requires Wired(s)
    ensures |s.threads| == |s.rb.getters|
  {
  }

  lemma SpuriousWeighs(s: Pool, l: Label)
    requires Wired(s) && Enabled(s, l) && l.GetSpurious?
    ensures Measure(Next(s, l)) == Measure(s) + 1
  {
    hide Total, Q.Count, Wired, Next, Enabled;
    QuietIs(s, l);
    Q.CountUpdate(s.rb.getters, l.t, Q.Woken, Q.Woken);
  }

  lemma TimerShrinks(s: Pool, l: Label)
    requires Wired(s) && PointersSafe(s) && DrainStep(s, l) && (l.Mark? || l.Replace?)
    ensures Measure(Next(s, l)) < Measure(s)
  {
    hide Total, Q.Count, Wired, Next, PointersSafe, Measure;
    var s' := Next(s, l);
    if l.Mark? {
      MarkShape(s, l);
      TotalSame(s.threads, s'.threads, Weight);
      TotalSame(s.threads, s'.threads, MayArm);
      assert s'.timers.Keys == s.timers.Keys - {l.timer};
    } else {
      SpawnIs(s, l);
      var th := Thread(s.replacing.value, Idle, false, false);
      TotalAppend(s.threads, th, Weight);
      TotalAppend(s.threads, th, MayArm);
      Q.CountOut(s.rb.getters, Q.Woken);
    }
    MeasureDrops(s, s');
  }

  /** Every step but a spurious wakeup brings the end nearer, and a spurious
      wakeup puts it off by one. */
  lemma DrainShrinks(s: Pool, l: Label)
    requires Inv(s) && DrainStep(s, l)
    ensures if l.GetSpurious? then Measure(Next(s, l)) == Measure(s) + 1 else Measure(Next(s, l)) < Measure(s)
  {
    hide Next, Enabled, Wired, Q.Inv, PointersSafe, FlagsAgree, Conserved, Manned, Measure;
    if IsLocal(l) {
      LocalShrinks(s, l);
    } else if IsGet(l) {
      GetShrinks(s, l);
    } else if l.StopPut? {
      PutShrinks(s, l);
    } else if l.GetSpurious? {
      SpuriousWeighs(s, l);
    } else {
      TimerShrinks(s, l);
    }
  }

  ghost predicate DrainRun(s: Pool, ls: seq<Label>)
    decreases |ls|
  {
    ls == [] || (Wired(s) && DrainStep(s, ls[0]) && DrainRun(Next(s, ls[0]), ls[1..]))
  }

  ghost function DrainEnd(s: Pool, ls: seq<Label>): Pool
    requires DrainRun(s, ls)
    decreases |ls|
  {
    if ls == [] then s else DrainEnd(Next(s, ls[0]), ls[1..])
  }

  function Spurious(ls: seq<Label>): nat {
    if ls == [] then 0 else (if ls[0].GetSpurious? then 1 else 0) + Spurious(ls[1..])
  }

  /** The threads created on the way. */
  function Replacements(ls: seq<Label>): nat {
    if ls == [] then 0 else Creates(ls[0]) + Replacements(ls[1..])
  }

  lemma {:induction false} DrainIsFinite(s: Pool, ls: seq<Label>, extra: nat)
    requires DrainInv(s, extra) && DrainRun(s, ls)
    ensures DrainInv(DrainEnd(s, ls), extra + Replacements(ls))
    ensures Measure(DrainEnd(s, ls)) + |ls| <= Measure(s) + 2 * Spurious(ls)
    decreases |ls|
  {
    hide Next, Wired, Enabled, Measure, DrainInv, Inv, Creates;
    if ls != [] {
      assert Inv(s) by { DrainIsSafe(s, extra); }
      DrainKeeps(s, ls[0], extra);
      DrainShrinks(s, ls[0]);
      DrainIsFinite(Next(s, ls[0]), ls[1..], extra + Creates(ls[0]));
    }
  }

  lemma DrainIsSafe(s: Pool, extra: nat)
    requires DrainInv(s, extra)
    ensures Inv(s)
  {
  }

  // ---- and it ends drained

  /** The next step of a thread that is neither done nor inside the queue. */
  lemma OwnStep(s: Pool, t: nat) returns (l: Label)
    requires t < |s.threads| && !s.threads[t].phase.Exited? && !s.threads[t].phase.Getting?
    ensures DrainStep(s, l) && IsProper(l)
  {
    match s.threads[t].phase
    case Idle => l := GetEnter(t);
    case Got(x) => l := if x.timeout then Arm(t, true) else Begin(t);
    case Armed(_, _) => l := Store(t);
    case Stored(_) => l := Begin(t);
    case Working(_) => l := Finish(t);
    case Worked(_) => l := Decide(t, true);
    case Collecting(x, _) => l := Collect(t, if x.stop then 1 else 0);
  }

  lemma MarkerStep(s: Pool) returns (l: Label)
    requires s.stopsLeft > 0 && |s.rb.queue| < s.rb.cap
    ensures DrainStep(s, l) && IsProper(l)
  {
    hide Q.Enabled;
    var after := Q.PutFindsRoom(s.rb, Task(s.nextId, true, false));
    l := StopPut(after);
  }

  /** Behind a marker there are only markers. */
  lemma MarkersBehindMarkers(taken: seq<Task>, queue: seq<Task>)
    requires Ordered(taken + queue) && Stops(taken) > 0
    ensures Stops(queue) == |queue|
  {
    var i := StopsSome(taken);
    assert (taken + queue)[i].stop;
    assert forall j :: 0 <= j < |queue| ==> queue[j] == (taken + queue)[|taken| + j];
    AllStops(queue);
  }

  lemma {:induction false} AllStops(q: seq<Task>)
    requires forall i :: 0 <= i < |q| ==> q[i].stop
    ensures Stops(q) == |q|
  {
    if q != [] {
      AllStops(q[..|q| - 1]);
    }
  }

  /** A pool where every live thread sleeps is drained, or takes a marker. */
  lemma AsleepIsDrained(s: Pool, extra: nat)
    requires DrainInv(s, extra) && (s.stopsLeft == 0 || |s.rb.queue| == s.rb.cap)
    requires forall t :: 0 <= t < |s.threads| ==> s.threads[t].phase.Exited? || s.threads[t].phase.Getting?
    requires Q.Woken !in s.rb.getters
    ensures Drained(s, extra)
  {
    hide PointersSafe, FlagsAgree, Conserved, Manned, Total, Stops, Q.Count;
    Q.CountNone(s.rb.getters, Q.Woken);
    Q.CountNone(s.rb.getters, Q.Asleep);
    if Q.Asleep in s.rb.getters {
      assert s.rb.queue == [];
      NoStops();
    } else {
      forall t | 0 <= t < |s.threads|
        ensures Free(s.threads[t]) == 0
      {
        assert s.rb.getters[t] != Q.Asleep && s.rb.getters[t] != Q.Woken;
      }
      TotalZero(s.threads, Free);
      StopsSplit(s.rb.taken, s.rb.queue);
      MarkersBehindMarkers(s.rb.taken, s.rb.queue);
    }
  }

  lemma NoStops()
    ensures Stops([]) == 0
  {
  }

  /** No deadlock: a pool that is not drained can take a step, and not only by a
      spurious wakeup or a timer. */
  lemma DrainGoesOn(s: Pool, extra: nat) returns (l: Label)
    requires DrainInv(s, extra) && !Drained(s, extra)
    ensures DrainStep(s, l) && IsProper(l)
  {
    if t :| 0 <= t < |s.threads| && !s.threads[t].phase.Exited? && !s.threads[t].phase.Getting? {
      l := OwnStep(s, t);
    } else if Q.Woken in s.rb.getters {
      var t :| 0 <= t < |s.rb.getters| && s.rb.getters[t] == Q.Woken;
      l := GetRetake(t);
    } else if s.stopsLeft > 0 && |s.rb.queue| < s.rb.cap {
      l := MarkerStep(s);
    } else {
      AsleepIsDrained(s, extra);
    }
  }

  // ---- the theorem

  /** The state in which `executor_stop` finds the pool: no marker queued before,
      no worker ended, and at least as many threads as slots. */
  ghost predicate Stoppable(s: Pool) {
    && Inv(s) && 0 < s.rb.cap && 0 < |s.slots| <= |s.threads| && !s.stopping && s.stopsLeft == 0
    && (forall i :: 0 <= i < |s.rb.accepted| ==> !s.rb.accepted[i].stop)
    && (forall t :: 0 <= t < |s.threads| ==> !s.threads[t].phase.Exited?)
  }

  lemma {:induction false} AllFree(ts: seq<Thread>)
    requires forall t :: 0 <= t < |ts| ==> !ts[t].phase.Exited?
    requires forall x :: x in Held(ts) ==> !x.stop
    ensures Total(ts, Free) == |ts|
  {
    if ts != [] {
      var n := |ts| - 1;
      assert Held(ts) == Held(ts[..n]) + Bag(ts[n]);
      assert Busy(ts[n]) ==> ts[n].phase.task in Held(ts);
      AllFree(ts[..n]);
    }
  }

  lemma {:induction false} NoStopsIn(q: seq<Task>)
    requires forall i :: 0 <= i < |q| ==> !q[i].stop
    ensures Stops(q) == 0
  {
    if q != [] {
      NoStopsIn(q[..|q| - 1]);
    }
  }

  lemma NoStopHeld(s: Pool)
    requires Conserved(s) && forall i :: 0 <= i < |s.rb.accepted| ==> !s.rb.accepted[i].stop
    ensures forall x :: x in Held(s.threads) ==> !x.stop
  {
    forall x | x in Held(s.threads)
      ensures !x.stop
    {
      assert x in multiset(s.rb.accepted);
    }
  }

  lemma StopBegins(s: Pool)
    requires Stoppable(s)
    ensures DrainInv(Next(s, StopBegin), |s.threads| - |s.slots|)
  {
    hide Wired, PointersSafe, FlagsAgree, Conserved, Manned, Total, Stops, Held;
    NextKeepsInv(s, StopBegin);
    NoStopHeld(s);
    AllFree(s.threads);
    NoStopsIn(s.rb.accepted);
    assert forall i :: 0 <= i < |s.rb.queue| ==> s.rb.queue[i] == s.rb.accepted[|s.rb.taken| + i];
    NoStopsIn(s.rb.queue);
  }

  /** Stopping a pool of any size, with any queue, under any schedule, with timers
      going off and workers being replaced: the run is finite, with at most two steps
      more for every spurious wakeup; workers and caller get stuck only when the pool
      is drained; and then every accepted task has been worked and collected exactly
      once. All workers have exited if and only if there were no more threads than
      slots and none was replaced since. */
  lemma StopDrains(s: Pool, ls: seq<Label>)
    requires Stoppable(s) && DrainRun(Next(s, StopBegin), ls)
    ensures var start := Next(s, StopBegin); var end := DrainEnd(start, ls);
      var extra := |s.threads| - |s.slots| + Replacements(ls);
      && |ls| <= Measure(start) + 2 * Spurious(ls)
      && ((forall l :: DrainStep(end, l) ==> !IsProper(l)) ==> Drained(end, extra) && Done(end, extra))
  {
    hide DrainRun, DrainEnd, Next, Measure, DrainStep, Drained, Done, DrainInv, Wired, Q.Inv, PointersSafe, FlagsAgree,
      Conserved, Manned;
    var start, extra := Next(s, StopBegin), |s.threads| - |s.slots| + Replacements(ls);
    StopBegins(s);
    DrainIsFinite(start, ls, |s.threads| - |s.slots|);
    var end := DrainEnd(start, ls);
    if forall l :: DrainStep(end, l) ==> !IsProper(l) {
      if !Drained(end, extra) {
        var l := DrainGoesOn(end, extra);
        assert false;
      }
      DrainIsSafe(end, extra);
      DrainedIsDone(end, extra);
    }
  }

  /** All tasks worked and collected once, and `extra` threads still there. */
  ghost predicate Done(s: Pool, extra: nat) {
    && multiset(s.rb.accepted) == multiset(s.collected) == multiset(s.worked)
    && ((forall t :: 0 <= t < |s.threads| ==> s.threads[t].phase.Exited?) <==> extra == 0)
  }

  lemma DrainedIsDone(s: Pool, extra: nat)
    requires Inv(s) && Drained(s, extra)
    ensures Done(s, extra)
  {
    NothingHeld(s.threads);
    assert multiset(s.rb.queue) == multiset{};
    if forall t :: 0 <= t < |s.threads| ==> s.threads[t].phase.Exited? {
      TotalZero(s.threads, Free);
    } else {
      var t :| 0 <= t < |s.threads| && !s.threads[t].phase.Exited?;
      TotalAtLeast(s.threads, t, Free);
    }
  }

  lemma {:induction false} NothingHeld(ts: seq<Thread>)
    requires forall t :: 0 <= t < |ts| ==> ts[t].phase.Exited? || ts[t].phase.Getting?
    ensures Held(ts) == multiset{} && InWork(ts) == multiset{}
  {
    if ts != [] {
      NothingHeld(ts[..|ts| - 1]);
    }
  }
}
