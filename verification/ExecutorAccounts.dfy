/** Runs of the pool read off their labels: when it runs, what it accepted, how many
    workers, markers and timers there were, and which workers have ended. */
module ExecutorAccounts {
  import opened Executor
  import opened ExecutorSafety
  import opened ExecutorDrain

  // ---- runs from their end

  lemma {:induction false} RunSplits(s: Pool, ls: seq<Label>)
    requires Run(s, ls) && ls != []
    ensures var init, l := ls[..|ls| - 1], ls[|ls| - 1];
      && Run(s, init) && Wired(End(s, init)) && Enabled(End(s, init), l)
      && End(s, ls) == Next(End(s, init), l)
    decreases |ls|
  {
    hide Wired, Enabled, Next;
    var init := ls[..|ls| - 1];
    if |ls| > 1 {
      assert ls[1..][..|ls| - 2] == init[1..];
      RunSplits(Next(s, ls[0]), ls[1..]);
    } else {
      assert ls[1..] == [] && init == [];
      assert Run(Next(s, ls[0]), []) && End(Next(s, ls[0]), []) == Next(s, ls[0]);
    }
  }

  /** What a label does to the fields that caller and timers write to. */
  ghost predicate Posts(s: Pool, l: Label, s': Pool) {
    && |s'.slots| == |s.slots| && s'.rb.cap == s.rb.cap
    && s'.replacing.Some? == (l.Mark? || (s.replacing.Some? && !l.Replace?))
    && s'.running == (l.StartBegin? || (s.running && !l.StopEnd?))
    && s'.toStart == (if l.StartBegin? then |s.slots| else if l.StartOne? then s.toStart - 1 else s.toStart)
    && s'.stopping == (l.StopBegin? || (s.stopping && !l.StopEnd?))
    && s'.stopsLeft == (if l.StopBegin? then |s.slots| else if l.StopPut? || l.StopLost? then s.stopsLeft - 1
                        else s.stopsLeft)
  }

  lemma QuietPosts(s: Pool, l: Label)
    requires Wired(s) && Enabled(s, l) && IsQuiet(l)
    ensures Posts(s, l, Next(s, l))
  {
    hide Wired, Q.Enabled;
  }

  lemma LocalPosts(s: Pool, l: Label)
    requires Wired(s) && Enabled(s, l) && IsLocal(l)
    ensures Posts(s, l, Next(s, l))
  {
    hide Wired, Q.Do, Q.Enabled, LocalThread, LocalSlot, LocalTimers;
    InSlot(s, l);
  }

  lemma NextPosts(s: Pool, l: Label)
    requires Wired(s) && PointersSafe(s) && Enabled(s, l)
    ensures Posts(s, l, Next(s, l))
  {
    hide Next, Enabled, Wired, PointersSafe, Q.Do, QueueStep;
    if IsLocal(l) {
      LocalPosts(s, l);
    } else if IsSpawn(l) {
      SpawnIs(s, l);
    } else if IsGet(l) {
      GetShape(s, l);
      GetLogs(s, l);
    } else if IsQuiet(l) {
      QuietPosts(s, l);
    } else {
      MarkShape(s, l);
    }
  }

  function Init(ls: seq<Label>): seq<Label>
    requires ls != []
  {
    ls[..|ls| - 1]
  }

  function Last(ls: seq<Label>): Label
    requires ls != []
  {
    ls[|ls| - 1]
  }

  /** The last step of a run from the beginning. */
  lemma LastStep(n: nat, cap: nat, ls: seq<Label>)
    requires Run(Fresh(n, cap), ls) && ls != []
    ensures Run(Fresh(n, cap), Init(ls))
    ensures var s, l := End(Fresh(n, cap), Init(ls)), Last(ls);
      Inv(s) && Enabled(s, l) && End(Fresh(n, cap), ls) == Next(s, l) && Posts(s, l, Next(s, l))
  {
    hide Inv, Next, Enabled, Wired, Posts, Run, End;
    RunSplits(Fresh(n, cap), ls);
    var s := End(Fresh(n, cap), Init(ls));
    FreshInv(n, cap);
    RunKeepsInv(Fresh(n, cap), Init(ls));
    assert Wired(s) && PointersSafe(s) by { InvParts(s); }
    NextPosts(s, Last(ls));
  }

  lemma InvParts(s: Pool)
    requires Inv(s)
    ensures Wired(s) && PointersSafe(s)
  {
  }

  // ---- when the pool runs

  /** Some start has not been followed by the end of a stop. */
  ghost predicate Started(ls: seq<Label>) {
    exists i :: 0 <= i < |ls| && ls[i].StartBegin? && NoStopEnd(ls, i + 1)
  }

  predicate NoStopEnd(ls: seq<Label>, from: nat) {
    forall j :: from <= j < |ls| ==> !ls[j].StopEnd?
  }

  lemma StartedStep(ls: seq<Label>)
    requires ls != []
    ensures Started(ls) <==> Last(ls).StartBegin? || (Started(Init(ls)) && !Last(ls).StopEnd?)
  {
    var init, n := Init(ls), |ls| - 1;
    if Last(ls).StartBegin? {
      assert ls[n].StartBegin? && NoStopEnd(ls, n + 1);
    } else if Started(init) && !Last(ls).StopEnd? {
      var i :| 0 <= i < |init| && init[i].StartBegin? && NoStopEnd(init, i + 1);
      assert ls[i].StartBegin? && NoStopEnd(ls, i + 1) by {
        assert forall j :: i + 1 <= j < n ==> ls[j] == init[j];
      }
    }
    if Started(ls) && !Last(ls).StartBegin? {
      var i :| 0 <= i < |ls| && ls[i].StartBegin? && NoStopEnd(ls, i + 1);
      assert i < n && init[i].StartBegin? && NoStopEnd(init, i + 1);
      assert !ls[n].StopEnd?;
    }
  }

  /** In every run the pool is running exactly between a start and the end of the
      next stop. */
  lemma {:induction false} RunningExactly(n: nat, cap: nat, ls: seq<Label>)
    requires Run(Fresh(n, cap), ls)
    ensures End(Fresh(n, cap), ls).running <==> Started(ls)
    decreases |ls|
  {
    hide Inv, Next, Enabled, Run, End, Started;
    if ls == [] {
      NotStarted(n, cap);
    } else {
      LastStep(n, cap, ls);
      RunningExactly(n, cap, Init(ls));
      StartedStep(ls);
    }
  }

  lemma NotStarted(n: nat, cap: nat)
    ensures End(Fresh(n, cap), []) == Fresh(n, cap) && !Started([])
  {
  }

  /** So a dispatch is taken exactly if the pool runs and its queue is not full, and
      a start only if it does not run. */
  lemma DispatchExactly(n: nat, cap: nat, ls: seq<Label>, timeout: bool)
    requires Run(Fresh(n, cap), ls)
    ensures var s := End(Fresh(n, cap), ls);
      && ((exists after :: Enabled(s, Dispatch(timeout, after))) <==> Started(ls) && |s.rb.queue| < cap)
      && (Enabled(s, StartBegin) ==> !Started(ls))
  {
    hide Run, End, Inv, Started;
    RunningExactly(n, cap, ls);
    var s := End(Fresh(n, cap), ls);
    assert s.rb.cap == cap by { CapStays(n, cap, ls); }
    if s.running && |s.rb.queue| < cap {
      var after := Q.PutFindsRoom(s.rb, Task(s.nextId, false, timeout));
      assert Enabled(s, Dispatch(timeout, after));
    }
  }

  /** A marker to be queued is queued if there is room and lost if there is none. */
  lemma MarkerExactly(n: nat, cap: nat, ls: seq<Label>)
    requires Run(Fresh(n, cap), ls) && End(Fresh(n, cap), ls).stopsLeft > 0
    ensures var s := End(Fresh(n, cap), ls);
      && ((exists after :: Enabled(s, StopPut(after))) <==> |s.rb.queue| < cap)
      && (Enabled(s, StopLost) <==> |s.rb.queue| == cap)
  {
    hide Run, End, Inv;
    var s := End(Fresh(n, cap), ls);
    CapStays(n, cap, ls);
    if |s.rb.queue| < cap {
      var after := Q.PutFindsRoom(s.rb, Task(s.nextId, true, false));
      assert Enabled(s, StopPut(after));
    }
  }

  lemma {:induction false} CapStays(n: nat, cap: nat, ls: seq<Label>)
    requires Run(Fresh(n, cap), ls)
    ensures var s := End(Fresh(n, cap), ls); s.rb.cap == cap && |s.slots| == n
    decreases |ls|
  {
    hide Inv, Next, Enabled, Run, End;
    if ls == [] {
      NotStarted(n, cap);
    } else {
      LastStep(n, cap, ls);
      CapStays(n, cap, Init(ls));
    }
  }

  /** Once a stop has ended, no dispatch is taken before the next start. */
  lemma StoppedRefuses(n: nat, cap: nat, ls: seq<Label>, i: nat)
    requires Run(Fresh(n, cap), ls) && i < |ls| && ls[i].StopEnd?
    requires forall j :: i < j < |ls| ==> !ls[j].StartBegin?
    ensures forall j :: i < j < |ls| ==> !ls[j].Dispatch?
    decreases |ls|
  {
    hide Run, End, Inv, Next;
    if i < |ls| - 1 {
      LastStep(n, cap, ls);
      var init := Init(ls);
      StoppedRefuses(n, cap, init, i);
      RunningExactly(n, cap, init);
      assert !Started(init) by { StopWasLast(init, i); }
      assert !Last(ls).Dispatch?;
      assert forall j :: i < j < |init| ==> ls[j] == init[j];
    }
  }

  lemma StopWasLast(ls: seq<Label>, i: nat)
    requires i < |ls| && ls[i].StopEnd? && forall j :: i < j < |ls| ==> !ls[j].StartBegin?
    ensures !Started(ls)
  {
  }

  // ---- what was accepted, and how often things were done

  /** The tasks that the puts among the labels add, numbered as they come. */
  function AcceptedBy(ls: seq<Label>): seq<Task> {
    if ls == [] then []
    else
      var before := AcceptedBy(Init(ls));
      match Last(ls)
      case Dispatch(timeout, _) => before + [Task(|before|, false, timeout)]
      case StopPut(_) => before + [Task(|before|, true, false)]
      case _ => before
  }

  /** The queue has accepted exactly the dispatched tasks and the markers, in order
      and each as it was asked for. */
  lemma {:induction false} AcceptedExactly(n: nat, cap: nat, ls: seq<Label>)
    requires Run(Fresh(n, cap), ls)
    ensures End(Fresh(n, cap), ls).rb.accepted == AcceptedBy(ls)
    decreases |ls|
  {
    hide Next, Enabled, Run, End, Posts;
    if ls == [] {
      NotStarted(n, cap);
    } else {
      LastStep(n, cap, ls);
      AcceptedExactly(n, cap, Init(ls));
      NextAccepts(End(Fresh(n, cap), Init(ls)), Last(ls));
    }
  }

  lemma NextAccepts(s: Pool, l: Label)
    requires Inv(s) && Enabled(s, l)
    ensures s.nextId == |s.rb.accepted|
    ensures Next(s, l).rb.accepted == s.rb.accepted + (
      if l.Dispatch? then [Task(s.nextId, false, l.timeout)]
      else if l.StopPut? then [Task(s.nextId, true, false)] else [])
  {
    hide Next, Enabled, Wired, PointersSafe, FlagsAgree, Manned, Held, InWork, Q.Do, Q.Inv, QueueStep;
    if IsLocal(l) {
      LocalShape(s, l);
    } else if IsGet(l) {
      GetLogs(s, l);
    } else if IsQuiet(l) {
      QuietQueue(s, l);
    } else {
      QuietLogs(s, l);
    }
  }

  function Count(ls: seq<Label>, f: Label -> bool): nat {
    if ls == [] then 0 else Count(Init(ls), f) + if f(Last(ls)) then 1 else 0
  }

  predicate IsStart(l: Label) { l.StartBegin? }

  predicate IsWorker(l: Label) { l.StartOne? }

  predicate IsStop(l: Label) { l.StopBegin? }

  predicate IsMarker(l: Label) { l.StopPut? || l.StopLost? }

  /** Every start tries to create one worker for every slot, and every stop tries to
      queue one marker for every slot; both are done with it before the next. */
  lemma {:induction false} OneForEverySlot(n: nat, cap: nat, ls: seq<Label>)
    requires Run(Fresh(n, cap), ls)
    ensures var s := End(Fresh(n, cap), ls);
      && Count(ls, IsWorker) + s.toStart == n * Count(ls, IsStart)
      && Count(ls, IsMarker) + s.stopsLeft == n * Count(ls, IsStop)
      && (!s.stopping ==> s.stopsLeft == 0)
    decreases |ls|
  {
    hide Inv, Next, Run, End, Q.Enabled;
    if ls == [] {
      NotStarted(n, cap);
    } else {
      LastStep(n, cap, ls);
      CapStays(n, cap, Init(ls));
      OneForEverySlot(n, cap, Init(ls));
      OneTimesMore(n, Count(Init(ls), IsStart));
      OneTimesMore(n, Count(Init(ls), IsStop));
    }
  }

  predicate IsMark(l: Label) { l.Mark? }

  predicate IsReplace(l: Label) { l.Replace? }

  /** Every timer that goes off is followed by one replacement, before the next goes
      off. A pending timer can go off whenever none is between the two, whether the
      pool runs or not; the replacement waits only for a start to be over. */
  lemma {:induction false} ReplacedOnce(n: nat, cap: nat, ls: seq<Label>)
    requires Run(Fresh(n, cap), ls)
    ensures var s, due := End(Fresh(n, cap), ls), Count(ls, IsMark) - Count(ls, IsReplace);
      && 0 <= due <= 1 && (s.replacing.Some? <==> due == 1)
      && (forall k :: k in s.timers ==> (Enabled(s, Mark(k)) <==> due == 0))
      && (forall created :: Enabled(s, Replace(created)) <==> due == 1 && s.toStart == 0)
    decreases |ls|
  {
    hide Inv, Next, Run, End, Q.Enabled;
    if ls == [] {
      NotStarted(n, cap);
    } else {
      LastStep(n, cap, ls);
      ReplacedOnce(n, cap, Init(ls));
    }
  }

  lemma OneTimesMore(n: nat, k: nat)
    ensures n * (k + 1) == n * k + n
  {
  }

  // ---- who has ended

  /** One of the thread's collects asked it to end. */
  ghost predicate EndedBy(ls: seq<Label>, t: nat) {
    exists i :: 0 <= i < |ls| && Ends(ls[i], t)
  }

  predicate Ends(l: Label, t: nat) {
    l.Collect? && l.t == t && l.ret != 0
  }

  lemma EndedStep(ls: seq<Label>, t: nat)
    requires ls != []
    ensures EndedBy(ls, t) <==> EndedBy(Init(ls), t) || Ends(Last(ls), t)
  {
    if EndedBy(ls, t) {
      var i :| 0 <= i < |ls| && Ends(ls[i], t);
      assert i < |ls| - 1 ==> Ends(Init(ls)[i], t);
    }
    if EndedBy(Init(ls), t) {
      var i :| 0 <= i < |Init(ls)| && Ends(Init(ls)[i], t);
      assert Ends(ls[i], t);
    }
    if Ends(Last(ls), t) {
      assert Ends(ls[|ls| - 1], t);
    }
  }

  lemma LocalEnds(s: Pool, l: Label)
    requires Wired(s) && Enabled(s, l) && IsLocal(l)
    ensures l.t < |s.threads| && !s.threads[l.t].phase.Exited?
    ensures Next(s, l).threads[l.t].phase.Exited? <==> l.Collect? && l.ret != 0
  {
    hide Wired, Q.Do, Q.Enabled, LocalSlot, LocalTimers;
    InSlot(s, l);
  }

  lemma NextEnds(s: Pool, l: Label, t: nat)
    requires Wired(s) && PointersSafe(s) && Enabled(s, l)
    ensures var ts := Next(s, l).threads;
      && |s.threads| <= |ts| && (Ends(l, t) ==> t < |s.threads|)
      && (t < |ts| ==> (ts[t].phase.Exited? <==> (t < |s.threads| && s.threads[t].phase.Exited?) || Ends(l, t)))
  {
    hide Next, Enabled, Wired, PointersSafe, Q.Do, QueueStep;
    if IsLocal(l) {
      LocalEnds(s, l);
      LocalShape(s, l);
    } else if IsSpawn(l) {
      SpawnShape(s, l);
    } else if IsGet(l) {
      GetShape(s, l);
    } else if IsQuiet(l) {
      QuietShape(s, l);
    } else {
      MarkShape(s, l);
    }
  }

  /** In every run a worker has ended exactly if one of its collects returned
      something other than 0. */
  lemma {:induction false} WorkerEndsExactly(n: nat, cap: nat, ls: seq<Label>, t: nat)
    requires Run(Fresh(n, cap), ls)
    ensures var ts := End(Fresh(n, cap), ls).threads;
      if t < |ts| then ts[t].phase.Exited? <==> EndedBy(ls, t) else !EndedBy(ls, t)
    decreases |ls|
  {
    hide Next, Enabled, Run, End, Posts, Wired, PointersSafe, FlagsAgree, Conserved, Manned, Q.Inv, EndedBy, Ends;
    if ls == [] {
      NotStarted(n, cap);
      assert !EndedBy([], t) by { NoneEnded(t); }
    } else {
      LastStep(n, cap, ls);
      WorkerEndsExactly(n, cap, Init(ls), t);
      EndedStep(ls, t);
      NextEnds(End(Fresh(n, cap), Init(ls)), Last(ls), t);
    }
  }

  lemma NoneEnded(t: nat)
    ensures !EndedBy([], t)
  {
  }

  // ---- timers are asked for once

  function Timed(xs: seq<Task>): nat {
    if xs == [] then 0 else Timed(xs[..|xs| - 1]) + if xs[|xs| - 1].timeout then 1 else 0
  }

  lemma TimedMore(xs: seq<Task>, x: Task)
    ensures Timed(xs + [x]) == Timed(xs) + if x.timeout then 1 else 0
  {
    assert (xs + [x])[..|xs|] == xs;
  }

  /** Asked for a timer and not yet at work. */
  function Waits(th: Thread): nat {
    if th.phase.Armed? || th.phase.Stored? then 1 else 0
  }

  predicate IsArm(l: Label) { l.Arm? }

  ghost predicate TimedOnly(s: Pool) {
    forall t :: 0 <= t < |s.threads| && Waits(s.threads[t]) == 1 ==> s.threads[t].phase.task.timeout
  }

  lemma LocalArms(s: Pool, l: Label)
    requires Wired(s) && Enabled(s, l) && IsLocal(l)
    ensures l.t < |s.threads| && Busy(s.threads[l.t])
    ensures var s', th := Next(s, l), s.threads[l.t]; var th' := s'.threads[l.t];
      && (Waits(th) == 1 ==> (l.Store? || l.Begin?) && (l.Store? <==> Waits(th') == 1))
      && (Waits(th) == 0 ==> (l.Arm? <==> Waits(th') == 1) && (l.Begin? ==> !th.phase.task.timeout))
      && (Waits(th') == 1 ==> th'.phase.task == th.phase.task && (l.Arm? ==> th.phase.task.timeout))
      && s'.worked == s.worked + (if l.Begin? then [th.phase.task] else [])
  {
    hide Wired, Q.Do, Q.Enabled, LocalSlot, LocalTimers;
    InSlot(s, l);
  }

  ghost predicate ArmsBy(s: Pool, s': Pool, n: nat) {
    TimedOnly(s') && Timed(s'.worked) + Total(s'.threads, Waits) == Timed(s.worked) + Total(s.threads, Waits) + n
  }

  lemma LocalNextArms(s: Pool, l: Label)
    requires Wired(s) && TimedOnly(s) && Enabled(s, l) && IsLocal(l)
    ensures ArmsBy(s, Next(s, l), if l.Arm? then 1 else 0)
  {
    hide Next, Enabled, Wired, Timed, Total;
    var s' := Next(s, l);
    LocalArms(s, l);
    LocalShape(s, l);
    TotalUpdate(s.threads, l.t, s'.threads[l.t], Waits);
    if l.Begin? {
      TimedMore(s.worked, s.threads[l.t].phase.task);
    } else {
      assert s'.worked == s.worked;
    }
  }

  lemma NextArms(s: Pool, l: Label)
    requires Wired(s) && PointersSafe(s) && TimedOnly(s) && Enabled(s, l)
    ensures ArmsBy(s, Next(s, l), if l.Arm? then 1 else 0)
  {
    hide Next, Enabled, Wired, PointersSafe, Q.Do, QueueStep, Timed, Total;
    var s' := Next(s, l);
    if IsLocal(l) {
      LocalNextArms(s, l);
    } else if IsSpawn(l) {
      QuietLogs(s, l);
      SpawnShape(s, l);
      if s'.threads != s.threads {
        TotalAppend(s.threads, s'.threads[|s'.threads| - 1], Waits);
      }
    } else if IsGet(l) {
      GetShape(s, l);
      TotalUpdate(s.threads, l.t, s'.threads[l.t], Waits);
    } else if IsQuiet(l) {
      QuietShape(s, l);
      QuietQueue(s, l);
    } else {
      MarkShape(s, l);
      TotalSame(s.threads, s'.threads, Waits);
    }
  }

  /** In every run the scheduler was asked for a timer exactly once for each task
      with a timeout, before its work, and never for another task. */
  lemma {:induction false} ArmedOnce(n: nat, cap: nat, ls: seq<Label>)
    requires Run(Fresh(n, cap), ls)
    ensures var s := End(Fresh(n, cap), ls);
      TimedOnly(s) && Count(ls, IsArm) == Timed(s.worked) + Total(s.threads, Waits)
    decreases |ls|
  {
    hide Next, Enabled, Run, End, Posts, Wired, PointersSafe, FlagsAgree, Conserved, Manned, Q.Inv, TimedOnly;
    if ls == [] {
      NotStarted(n, cap);
      assert TimedOnly(Fresh(n, cap)) by { FreshTimed(n, cap); }
    } else {
      LastStep(n, cap, ls);
      ArmedOnce(n, cap, Init(ls));
      NextArms(End(Fresh(n, cap), Init(ls)), Last(ls));
    }
  }

  lemma FreshTimed(n: nat, cap: nat)
    ensures TimedOnly(Fresh(n, cap))
  {
  }
}
