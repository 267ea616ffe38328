/** Every step of the pool keeps its invariant, so every run does. */
module ExecutorSafety {
  import opened Options
  import opened Executor
  import Q = WaitQueue

  // ---- the queue

  lemma GetterAppended(rb: Q.Rb<Task>)
    requires Q.Inv(rb)
    ensures Q.Inv(rb.(getters := rb.getters + [Q.Out]))
  {
    Q.CountOut(rb.getters, Q.Asleep);
    Q.CountOut(rb.getters, Q.Woken);
  }

  /** The step of the wait protocol that a label makes, if any. */
  predicate IsQueueStep(l: Label) {
    l.Dispatch? || l.StopPut? || l.GetEnter? || l.GetRetake? || l.GetSpurious?
  }

  function QueueStep(s: Pool, l: Label): Q.Step<Task> {
    match l
    case Dispatch(timeout, after) => Q.Put(Task(s.nextId, false, timeout), after)
    case StopPut(after) => Q.Put(Task(s.nextId, true, false), after)
    case GetEnter(t) => Q.Enter(t)
    case GetRetake(t) => Q.Retake(t)
    case GetSpurious(t) => Q.Spurious(t)
    case _ => Q.Enter(0)
  }

  lemma QueueStepIsStep(s: Pool, l: Label)
    requires Wired(s) && Enabled(s, l) && IsQueueStep(l)
    ensures Q.Enabled(s.rb, QueueStep(s, l)) && Next(s, l).rb == Q.Do(s.rb, QueueStep(s, l))
  {
  }

  lemma OtherStepsKeepQueue(s: Pool, l: Label)
    requires Wired(s) && Enabled(s, l) && !IsQueueStep(l)
    ensures Next(s, l).rb == s.rb || Next(s, l).rb == s.rb.(getters := s.rb.getters + [Q.Out])
  {
  }

  lemma NextKeepsQueue(s: Pool, l: Label)
    requires Wired(s) && Q.Inv(s.rb) && Enabled(s, l)
    ensures Q.Inv(Next(s, l).rb)
  {
    hide Q.Inv, Q.Enabled, Q.Do, Wired, Next, Enabled;
    if IsQueueStep(l) {
      QueueStepIsStep(s, l);
      Q.StepKeepsInv(s.rb, QueueStep(s, l));
    } else {
      OtherStepsKeepQueue(s, l);
      GetterAppended(s.rb);
    }
  }

  // ---- the shapes of the other steps

  /** What `current` of a worker's slot is after its own step. */
  function CurrentAfter(l: Label, cur: Option<nat>): Option<nat> {
    if l.Begin? then Some(l.t) else if l.Finish? then None else cur
  }

  lemma LocalShape(s: Pool, l: Label)
    requires Wired(s) && Enabled(s, l) && IsLocal(l)
    ensures l.t < |s.threads| && s.threads[l.t].slot < |s.slots|
    ensures var s', th := Next(s, l), s.threads[l.t]; var th' := s'.threads[l.t];
      && s'.rb == s.rb && s'.replacing == s.replacing && s'.toStart == s.toStart && |s'.slots| == |s.slots|
      && s'.threads == s.threads[l.t := th'] && th'.slot == th.slot
      && !th.phase.Getting? && !th'.phase.Getting?
      && (th.phase.Working? <==> l.Finish?) && (th'.phase.Working? <==> l.Begin?)
      && (forall i :: 0 <= i < |s.slots| && i != th.slot ==> s'.slots[i] == s.slots[i])
      && s'.slots[th.slot].current == CurrentAfter(l, s.slots[th.slot].current)
      && (th'.phase.Collecting? ==> l.Decide? && th'.phase.seen == th'.discarded)
  {
    hide Wired, Q.Do;
    InSlot(s, l);
  }

  lemma InSlot(s: Pool, l: Label)
    requires Wired(s) && Enabled(s, l) && IsLocal(l)
    ensures l.t < |s.threads| == |s.rb.getters| && s.threads[l.t].slot < |s.slots|
  {
  }

  lemma TimersInRange(s: Pool, l: Label)
    requires Wired(s) && Enabled(s, l) && IsLocal(l)
    ensures forall k :: k in Next(s, l).timers ==> Next(s, l).timers[k].slot < |s.slots|
  {
  }

  lemma SpawnShape(s: Pool, l: Label)
    requires Wired(s) && Enabled(s, l) && IsSpawn(l)
    ensures var s' := Next(s, l);
      && s'.timers == s.timers && s'.toStart <= s.toStart && |s'.slots| == |s.slots|
      && (s'.replacing == s.replacing || s'.replacing.None?)
      && (forall i :: 0 <= i < |s.slots| ==> s'.slots[i] == s.slots[i] || s'.slots[i].current.None?)
      && (|| (s'.threads == s.threads && s'.rb == s.rb)
          || (&& |s'.threads| > 0
              && var th := s'.threads[|s'.threads| - 1];
                 && th.phase.Idle? && !th.fired && th.slot < |s.slots|
                 && s'.threads == s.threads + [th] && s'.rb == s.rb.(getters := s.rb.getters + [Q.Out])))
  {
    hide Wired, Next, Enabled;
    SpawnIs(s, l);
  }

  lemma SpawnIs(s: Pool, l: Label)
    requires Wired(s) && Enabled(s, l) && IsSpawn(l)
    ensures s.toStart <= |s.slots|
    ensures l.StartOne? ==>
      0 < s.toStart && Next(s, l) == InitWorker(s, |s.slots| - s.toStart, l.created).(toStart := s.toStart - 1)
    ensures l.Replace? ==>
      && s.toStart == 0 && s.replacing.Some? && s.replacing.value < |s.slots|
      && Next(s, l) == InitWorker(s.(replacing := None), s.replacing.value, l.created)
  {
    hide InitWorker;
  }

  lemma QuietIs(s: Pool, l: Label)
    requires Wired(s) && Enabled(s, l) && IsQuiet(l)
    ensures l.Dispatch? || l.StopPut? ==>
      && Q.Enabled(s.rb, QueueStep(s, l)) && (l.StopPut? ==> 0 < s.stopsLeft)
      && Next(s, l) ==
           PutTask(s, QueueStep(s, l).x, l.after).(stopsLeft := if l.StopPut? then s.stopsLeft - 1 else s.stopsLeft)
    ensures l.GetSpurious? ==>
      && l.t < |s.rb.getters| && s.rb.getters[l.t] == Q.Asleep
      && Next(s, l) == s.(rb := Q.Do(s.rb, Q.Spurious(l.t)))
    ensures !IsQueueStep(l) ==>
      var s' := Next(s, l);
      && s' == s.(running := s'.running, begun := s'.begun, toStart := s'.toStart, stopping := s'.stopping,
                  stopsLeft := s'.stopsLeft)
      && s'.toStart == if l.StartBegin? then |s.slots| else s.toStart
  {
    hide Wired, Q.Do, Q.Enabled;
  }

  lemma GetIs(s: Pool, l: Label)
    requires Wired(s) && Enabled(s, l) && IsGet(l)
    ensures l.t < |s.threads| == |s.rb.getters|
    ensures s.threads[l.t].phase.Idle? || s.threads[l.t].phase.Getting?
    ensures Next(s, l) == DoGet(s, l.t, QueueStep(s, l))
  {
    hide DoGet, Q.Do;
  }

  lemma GetShape(s: Pool, l: Label)
    requires Wired(s) && Enabled(s, l) && IsGet(l)
    ensures l.t < |s.threads| == |s.rb.getters|
    ensures var s', th := Next(s, l), s.threads[l.t]; var th' := s'.threads[l.t];
      && s' == s.(rb := s'.rb, threads := s.threads[l.t := th']) && th'.slot == th.slot
      && s'.rb == Q.Do(s.rb, QueueStep(s, l))
      && s'.rb.getters == s.rb.getters[l.t := if s.rb.queue == [] then Q.Asleep else Q.Out]
      && (th.phase.Idle? || th.phase.Getting?)
      && (if s.rb.queue == [] then th' == th.(phase := Getting)
          else th' == Thread(th.slot, Got(s.rb.queue[0]), false, false))
  {
    hide Wired, Next, Enabled;
    GetIs(s, l);
  }

  lemma QuietShape(s: Pool, l: Label)
    requires Wired(s) && Enabled(s, l) && IsQuiet(l)
    ensures var s' := Next(s, l);
      && s'.threads == s.threads && s'.slots == s.slots && s'.timers == s.timers && s'.replacing == s.replacing
      && s'.toStart <= |s.slots| && |s'.rb.getters| == |s.rb.getters| && s'.rb.cap == s.rb.cap
      && forall i :: 0 <= i < |s.rb.getters| ==> (s'.rb.getters[i] != Q.Out <==> s.rb.getters[i] != Q.Out)
  {
    hide Next, Enabled;
    QuietIs(s, l);
  }

  lemma MarkShape(s: Pool, l: Label)
    requires Wired(s) && PointersSafe(s) && Enabled(s, l) && l.Mark?
    ensures l.timer in s.timers && s.timers[l.timer].slot < |s.slots|
    ensures var s', tm := Next(s, l), s.timers[l.timer];
      && s' == s.(timers := s.timers - {l.timer}, threads := s'.threads, replacing := Some(tm.slot))
      && |s'.threads| == |s.threads|
      && (forall t :: 0 <= t < |s.threads| ==>
            && s'.threads[t].phase == s.threads[t].phase && s'.threads[t].slot == s.threads[t].slot
            && (s'.threads[t].discarded == s.threads[t].discarded || s.threads[t].phase.Working?)
            && (s'.threads[t].fired == s.threads[t].fired || t == tm.owner))
  {
  }

  // ---- wiring

  lemma NextKeepsWired(s: Pool, l: Label)
    requires Wired(s) && PointersSafe(s) && Enabled(s, l)
    ensures Wired(Next(s, l))
  {
    hide Next, Enabled, PointersSafe;
    if IsLocal(l) {
      LocalShape(s, l);
      TimersInRange(s, l);
    } else if IsSpawn(l) {
      SpawnShape(s, l);
    } else if IsGet(l) {
      hide Q.Do;
      GetShape(s, l);
    } else if IsQuiet(l) {
      QuietShape(s, l);
    } else {
      MarkShape(s, l);
    }
  }

  lemma NextKeepsSize(s: Pool, l: Label)
    requires Wired(s) && PointersSafe(s) && Enabled(s, l)
    ensures |Next(s, l).slots| == |s.slots| && Next(s, l).rb.cap == s.rb.cap
  {
    hide Next, Enabled, Wired, PointersSafe, Q.Do, QueueStep;
    if IsLocal(l) {
      LocalShape(s, l);
    } else if IsSpawn(l) {
      SpawnShape(s, l);
    } else if IsGet(l) {
      GetShape(s, l);
      GetLogs(s, l);
    } else if IsQuiet(l) {
      QuietShape(s, l);
    } else {
      MarkShape(s, l);
    }
  }

  // ---- pointers and flags

  lemma NextKeepsPointers(s: Pool, l: Label)
    requires Wired(s) && PointersSafe(s) && Enabled(s, l)
    ensures PointersSafe(Next(s, l))
  {
    hide Next, Enabled, Wired;
    if IsLocal(l) {
      LocalPointers(s, l);
    } else if IsSpawn(l) {
      SpawnShape(s, l);
    } else if IsGet(l) {
      GetPointers(s, l);
    } else if IsQuiet(l) {
      QuietShape(s, l);
    } else {
      MarkShape(s, l);
    }
  }

  lemma LocalPointers(s: Pool, l: Label)
    requires Wired(s) && PointersSafe(s) && Enabled(s, l) && IsLocal(l)
    ensures PointersSafe(Next(s, l))
  {
    hide Next, Enabled;
    LocalShape(s, l);
  }

  lemma GetPointers(s: Pool, l: Label)
    requires Wired(s) && PointersSafe(s) && Enabled(s, l) && IsGet(l)
    ensures PointersSafe(Next(s, l))
  {
    hide Next, Enabled, Wired, Q.Do;
    GetShape(s, l);
  }

  lemma NextKeepsFlags(s: Pool, l: Label)
    requires Wired(s) && PointersSafe(s) && FlagsAgree(s) && Enabled(s, l)
    ensures FlagsAgree(Next(s, l))
  {
    hide Next, Enabled, Wired, PointersSafe, Q.Do;
    if IsLocal(l) {
      LocalShape(s, l);
    } else if IsSpawn(l) {
      SpawnShape(s, l);
    } else if IsGet(l) {
      GetShape(s, l);
    } else if IsQuiet(l) {
      QuietShape(s, l);
    } else {
      MarkShape(s, l);
    }
  }

  // ---- conservation of tasks

  lemma Cancel(a: multiset<Task>, b: multiset<Task>, c: multiset<Task>, d: multiset<Task>,
               x: multiset<Task>, y: multiset<Task>)
    requires a + x == b + y && c + y == d + x
    ensures a + c == b + d
  {
    forall e: Task
      ensures (a + c)[e] == (b + d)[e]
    {
      assert (a + x)[e] == (b + y)[e] && (c + y)[e] == (d + x)[e];
    }
  }

  /** What a worker's own step does to its task and to the two logs. */
  lemma LocalLogs(s: Pool, l: Label)
    requires Wired(s) && Enabled(s, l) && IsLocal(l)
    ensures l.t < |s.threads| && Busy(s.threads[l.t])
    ensures var s', th := Next(s, l), s.threads[l.t]; var th', x := s'.threads[l.t], th.phase.task;
      && s'.rb == s.rb && s'.nextId == s.nextId && s'.threads == s.threads[l.t := th']
      && s'.worked == s.worked + (if l.Begin? then [x] else [])
      && s'.collected == s.collected + (if l.Collect? then [x] else [])
      && (Busy(th') <==> !l.Collect?) && (Busy(th') ==> th'.phase.task == x)
      && (AtWork(th) <==> l.Finish? || l.Decide? || l.Collect?)
      && (AtWork(th') <==> l.Begin? || l.Finish? || l.Decide?)
  {
    hide Wired, Q.Do;
    InSlot(s, l);
  }

  lemma LocalBags(s: Pool, l: Label)
    requires Wired(s) && Enabled(s, l) && IsLocal(l)
    ensures l.t < |s.threads|
    ensures var s', th := Next(s, l), s.threads[l.t]; var th' := s'.threads[l.t];
      && s'.rb == s.rb && s'.nextId == s.nextId && s'.threads == s.threads[l.t := th']
      && multiset(s'.collected) + Bag(th') == multiset(s.collected) + Bag(th)
      && (if l.Begin? then
            && multiset(s'.worked) == multiset(s.worked) + WorkBag(th') && WorkBag(th) == multiset{}
            && s'.collected == s.collected
          else
            && s'.worked == s.worked
            && multiset(s'.collected) + WorkBag(th') == multiset(s.collected) + WorkBag(th))
  {
    hide Wired, Next, Enabled;
    LocalLogs(s, l);
  }

  lemma LocalConserves(s: Pool, l: Label)
    requires Wired(s) && Conserved(s) && Enabled(s, l) && IsLocal(l)
    ensures Conserved(Next(s, l))
  {
    hide Next, Enabled, Wired, Bag, WorkBag, Held, InWork;
    LocalBags(s, l);
    var s', th := Next(s, l), s.threads[l.t];
    var th' := s'.threads[l.t];
    BagsUpdate(s.threads, l.t, th');
    Cancel(Held(s'.threads), Held(s.threads), multiset(s'.collected), multiset(s.collected), Bag(th), Bag(th'));
    assert multiset(s.rb.queue) + Held(s.threads) + multiset(s.collected)
        == multiset(s.rb.queue) + (Held(s.threads) + multiset(s.collected));
    if l.Begin? {
      assert InWork(s'.threads) == InWork(s.threads) + WorkBag(th');
    } else {
      Cancel(InWork(s'.threads), InWork(s.threads), multiset(s'.collected), multiset(s.collected),
        WorkBag(th), WorkBag(th'));
    }
  }

  lemma GetBags(s: Pool, l: Label)
    requires Wired(s) && Enabled(s, l) && IsGet(l)
    ensures var ts := Next(s, l).threads;
      && InWork(ts) == InWork(s.threads)
      && Held(ts) == Held(s.threads) + if s.rb.queue == [] then multiset{} else multiset{s.rb.queue[0]}
  {
    hide Next, Enabled, Wired, Held, InWork, Q.Do, QueueStep;
    GetShape(s, l);
    var ts := Next(s, l).threads;
    BagsUpdate(s.threads, l.t, ts[l.t]);
    assert Bag(s.threads[l.t]) == multiset{} && WorkBag(s.threads[l.t]) == multiset{} && WorkBag(ts[l.t]) == multiset{};
    assert InWork(ts) + multiset{} == InWork(ts) && InWork(s.threads) + multiset{} == InWork(s.threads);
    assert Held(ts) + multiset{} == Held(ts);
  }

  lemma GetConserves(s: Pool, l: Label)
    requires Wired(s) && Conserved(s) && Enabled(s, l) && IsGet(l)
    ensures Conserved(Next(s, l))
  {
    hide Next, Enabled, Wired, Held, InWork;
    GetLogs(s, l);
    GetBags(s, l);
    if s.rb.queue != [] {
      var x, rest := s.rb.queue[0], s.rb.queue[1..];
      assert s.rb.queue == [x] + rest;
      assert multiset(s.rb.queue) == multiset{x} + multiset(rest);
    }
  }

  lemma GetLogs(s: Pool, l: Label)
    requires Wired(s) && Enabled(s, l) && IsGet(l)
    ensures var s' := Next(s, l);
      && s'.rb.cap == s.rb.cap && s'.rb.accepted == s.rb.accepted
      && s'.rb.queue == (if s.rb.queue == [] then [] else s.rb.queue[1..])
      && s'.nextId == s.nextId && s'.worked == s.worked && s'.collected == s.collected
  {
    hide Wired, Next, Enabled;
    GetIs(s, l);
  }

  lemma QuietQueue(s: Pool, l: Label)
    requires Wired(s) && Enabled(s, l) && IsQuiet(l)
    ensures var s' := Next(s, l);
      && s'.threads == s.threads && s'.worked == s.worked && s'.collected == s.collected
      && if l.Dispatch? || l.StopPut? then
           var x := Task(s.nextId, l.StopPut?, l.Dispatch? && l.timeout);
           s'.rb.accepted == s.rb.accepted + [x] && s'.rb.queue == s.rb.queue + [x] && s'.nextId == s.nextId + 1
         else s'.rb.accepted == s.rb.accepted && s'.rb.queue == s.rb.queue && s'.nextId == s.nextId
  {
    hide Wired, Next, Enabled;
    QuietIs(s, l);
  }

  lemma QuietConserves(s: Pool, l: Label)
    requires Wired(s) && Conserved(s) && Enabled(s, l) && IsQuiet(l)
    ensures Conserved(Next(s, l))
  {
    hide Next, Wired, Enabled, Held, InWork;
    QuietQueue(s, l);
    if l.Dispatch? || l.StopPut? {
      var x := Task(s.nextId, l.StopPut?, l.Dispatch? && l.timeout);
      assert multiset(s.rb.accepted + [x]) == multiset(s.rb.accepted) + multiset{x};
      assert multiset(s.rb.queue + [x]) == multiset(s.rb.queue) + multiset{x};
    }
  }

  lemma NextConserves(s: Pool, l: Label)
    requires Wired(s) && PointersSafe(s) && Conserved(s) && Enabled(s, l)
    ensures Conserved(Next(s, l))
  {
    hide Next, Enabled, Wired, PointersSafe, Held, InWork;
    if IsLocal(l) {
      LocalConserves(s, l);
    } else if IsGet(l) {
      GetConserves(s, l);
    } else if IsQuiet(l) {
      QuietConserves(s, l);
    } else {
      QuietLogs(s, l);
      if IsSpawn(l) {
        SpawnShape(s, l);
        var ts := Next(s, l).threads;
        if ts != s.threads {
          BagsAppend(s.threads, ts[|ts| - 1]);
        }
      } else {
        MarkShape(s, l);
        BagsSame(s.threads, Next(s, l).threads);
      }
    }
  }

  lemma QuietLogs(s: Pool, l: Label)
    requires Wired(s) && Enabled(s, l) && (IsSpawn(l) || l.Mark?)
    ensures var s' := Next(s, l);
      && s'.nextId == s.nextId && s'.worked == s.worked && s'.collected == s.collected
      && s'.rb.accepted == s.rb.accepted && s'.rb.queue == s.rb.queue
  {
    hide Wired, HoldsTask, Q.Do, Q.Enabled, LocalNext, DoGet, QuietNext;
    if IsSpawn(l) {
      SpawnLogs(s, l);
    }
  }

  lemma SpawnLogs(s: Pool, l: Label)
    requires Wired(s) && Enabled(s, l) && IsSpawn(l)
    ensures var s' := Next(s, l);
      && s'.nextId == s.nextId && s'.worked == s.worked && s'.collected == s.collected
      && s'.rb.accepted == s.rb.accepted && s'.rb.queue == s.rb.queue
  {
    hide Wired, Next, Enabled;
    SpawnIs(s, l);
  }

  // ---- the pool stays manned

  lemma LocalManned(s: Pool, l: Label)
    requires Wired(s) && Manned(s) && Enabled(s, l) && IsLocal(l)
    ensures Manned(Next(s, l))
  {
    LocalShape(s, l);
    var s' := Next(s, l);
    assert s'.begun == s.begun && (s'.steady ==> s.steady && Counts(s'.threads[l.t]) >= Counts(s.threads[l.t]));
    hide Next, Wired, Enabled;
    UnfiredUpdate(s.threads, l.t, s'.threads[l.t]);
  }

  lemma GetManned(s: Pool, l: Label)
    requires Wired(s) && Manned(s) && Enabled(s, l) && IsGet(l)
    ensures Manned(Next(s, l))
  {
    hide Next, Wired, Enabled;
    GetShape(s, l);
    UnfiredUpdate(s.threads, l.t, Next(s, l).threads[l.t]);
  }

  lemma SpawnManned(s: Pool, l: Label)
    requires Wired(s) && Manned(s) && Enabled(s, l) && IsSpawn(l)
    ensures Manned(Next(s, l))
  {
    if l.created {
      var th := Next(s, l).threads[|s.threads|];
      assert Next(s, l).threads == s.threads + [th] && (s.threads + [th])[..|s.threads|] == s.threads;
    }
  }

  lemma MarkManned(s: Pool, l: Label)
    requires Wired(s) && Manned(s) && Enabled(s, l) && l.Mark?
    ensures Manned(Next(s, l))
  {
    hide Unfired;
    var tm := s.timers[l.timer];
    var hit := tm.owner < |s.threads| && HoldsTask(s.threads[tm.owner], tm.task);
    var th1 := if hit then s.threads[tm.owner := s.threads[tm.owner].(fired := true)] else s.threads;
    if hit {
      UnfiredUpdate(s.threads, tm.owner, s.threads[tm.owner].(fired := true));
    }
    var cur := s.slots[tm.slot].current;
    if cur.Some? && cur.value < |th1| {
      UnfiredUpdate(th1, cur.value, th1[cur.value].(discarded := true));
    }
  }

  lemma NextKeepsManned(s: Pool, l: Label)
    requires Wired(s) && Manned(s) && Enabled(s, l)
    ensures Manned(Next(s, l))
  {
    hide Next, Enabled, Wired, Unfired;
    if IsLocal(l) {
      LocalManned(s, l);
    } else if IsGet(l) {
      GetManned(s, l);
    } else if IsSpawn(l) {
      SpawnManned(s, l);
    } else if IsQuiet(l) {
      QuietManned(s, l);
    } else {
      MarkManned(s, l);
    }
  }

  lemma QuietManned(s: Pool, l: Label)
    requires Wired(s) && Manned(s) && Enabled(s, l) && IsQuiet(l)
    ensures Manned(Next(s, l))
  {
    hide Unfired;
  }

  // ---- every run

  lemma NextKeepsInv(s: Pool, l: Label)
    requires Inv(s) && Enabled(s, l)
    ensures Inv(Next(s, l))
  {
    hide Next, Enabled, Q.Inv, Wired, PointersSafe, FlagsAgree, Conserved, Manned;
    NextKeepsQueue(s, l);
    NextKeepsWired(s, l);
    NextKeepsPointers(s, l);
    NextKeepsFlags(s, l);
    NextConserves(s, l);
    NextKeepsManned(s, l);
  }

  ghost predicate Run(s: Pool, ls: seq<Label>)
    decreases |ls|
  {
    ls == [] || (Wired(s) && Enabled(s, ls[0]) && Run(Next(s, ls[0]), ls[1..]))
  }

  ghost function End(s: Pool, ls: seq<Label>): Pool
    requires Run(s, ls)
    decreases |ls|
  {
    if ls == [] then s else End(Next(s, ls[0]), ls[1..])
  }

  lemma {:induction false} RunKeepsInv(s: Pool, ls: seq<Label>)
    requires Inv(s) && Run(s, ls)
    ensures Inv(End(s, ls))
    decreases |ls|
  {
    hide Inv, Next, Enabled, Wired;
    if ls != [] {
      NextKeepsInv(s, ls[0]);
      RunKeepsInv(Next(s, ls[0]), ls[1..]);
    }
  }

  lemma FreshInv(n: nat, cap: nat)
    ensures Inv(Fresh(n, cap))
  {
  }

  lemma {:induction false} NumberedOnce(xs: seq<Task>, x: Task)
    requires forall i :: 0 <= i < |xs| ==> xs[i].id == i
    ensures multiset(xs)[x] <= 1
    ensures multiset(xs)[x] == 1 ==> x.id < |xs|
  {
    if xs != [] {
      var n := |xs| - 1;
      NumberedOnce(xs[..n], x);
      assert xs == xs[..n] + [xs[n]];
    }
  }

  /** In every run, with any interleaving of dispatches, timeouts, replacements
      and stops: tasks are taken in the order they were accepted; each accepted
      task is in exactly one place, the queue, a thread or the collected; its work
      is called at most once, and its collect at most once and only after. */
  lemma ExactlyOnce(n: nat, cap: nat, ls: seq<Label>, x: Task)
    requires Run(Fresh(n, cap), ls)
    ensures var s := End(Fresh(n, cap), ls);
      && s.rb.accepted == s.rb.taken + s.rb.queue
      && multiset(s.rb.accepted)[x] == multiset(s.rb.queue)[x] + Held(s.threads)[x] + multiset(s.collected)[x] <= 1
      && multiset(s.rb.taken)[x] == Held(s.threads)[x] + multiset(s.collected)[x]
      && multiset(s.collected)[x] <= multiset(s.worked)[x] <= multiset(s.rb.taken)[x]
  {
    var s := End(Fresh(n, cap), ls);
    assert Inv(s) by {
      FreshInv(n, cap);
      RunKeepsInv(Fresh(n, cap), ls);
    }
    NumberedOnce(s.rb.accepted, x);
    WorkIsHeld(s.threads, x);
    assert multiset(s.rb.taken + s.rb.queue) == multiset(s.rb.taken) + multiset(s.rb.queue);
  }

  lemma {:induction false} WorkIsHeld(ts: seq<Thread>, x: Task)
    ensures InWork(ts)[x] <= Held(ts)[x]
  {
    if ts != [] {
      WorkIsHeld(ts[..|ts| - 1], x);
    }
  }

  /** In every run: `current` is null or names a task inside its work
      call, so what decides on the timer is what `collect` is told; the pool has a
      thread free of timed-out work for every slot while threads can be created
      and collects return 0; and a replacement always finds its slot. */
  lemma SlotsAreSafe(n: nat, cap: nat, ls: seq<Label>)
    requires Run(Fresh(n, cap), ls)
    ensures var s := End(Fresh(n, cap), ls);
      && PointersSafe(s) && FlagsAgree(s) && Manned(s)
      && (s.replacing.Some? ==> s.replacing.value < |s.slots|)
      && (forall k :: k in s.timers ==> s.timers[k].slot < |s.slots|)
  {
    FreshInv(n, cap);
    RunKeepsInv(Fresh(n, cap), ls);
  }
}
