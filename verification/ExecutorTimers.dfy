/** What a worker's timer does as long as the worker has its slot to itself. */
module ExecutorTimers {
  import opened Options
  import opened Executor
  import opened ExecutorSafety

  /** No other thread, dead or alive, was ever put on this thread's slot. */
  ghost predicate Alone(s: Pool, t: nat) {
    t < |s.threads| && forall u :: 0 <= u < |s.threads| && u != t ==> s.threads[u].slot != s.threads[t].slot
  }

  /** Timer `k` was armed by thread `t` for the task it holds now. */
  predicate Own(s: Pool, k: nat, t: nat) {
    && k in s.timers && t < |s.threads| && Busy(s.threads[t])
    && s.timers[k].owner == t && s.timers[k].task == s.threads[t].phase.task
  }

  /** Timers remember the slot of their owner and a task already taken. */
  ghost predicate TimersKnown(s: Pool) {
    && (forall k :: k in s.timers ==>
          && s.timers[k].owner < |s.threads| && s.timers[k].slot == s.threads[s.timers[k].owner].slot
          && s.timers[k].task.id < |s.rb.taken|)
    && (forall t :: 0 <= t < |s.threads| && Busy(s.threads[t]) ==> s.threads[t].phase.task.id < |s.rb.taken|)
  }

  /** Where the id of an own timer is kept, phase by phase. */
  ghost predicate IdKept(s: Pool, k: nat, t: nat)
    requires Own(s, k, t)
  {
    var p := s.threads[t].phase;
    && !p.Got?
    && (p.Armed? ==> k == p.timer)
    && ((p.Stored? || p.Working? || p.Worked?) && s.steady && Alone(s, t) && s.threads[t].slot < |s.slots| ==>
          k == s.slots[s.threads[t].slot].schedId)
  }

  ghost predicate IdsKept(s: Pool) {
    forall k, t :: Own(s, k, t) ==> IdKept(s, k, t)
  }

  ghost predicate PointerKept(s: Pool, t: nat) {
    s.steady && Alone(s, t) && s.threads[t].phase.Working? && s.threads[t].slot < |s.slots| ==>
      s.slots[s.threads[t].slot].current == Some(t)
  }

  ghost predicate PointersKept(s: Pool) {
    forall t :: 0 <= t < |s.threads| ==> PointerKept(s, t)
  }

  /** No two threads are about to store the same id. */
  ghost predicate TimerIds(s: Pool) {
    && 0 < s.nextTimer
    && (forall t :: 0 <= t < |s.threads| && s.threads[t].phase.Armed? ==> s.threads[t].phase.timer < s.nextTimer)
    && (forall t, u :: 0 <= t < u < |s.threads| && s.threads[t].phase.Armed? && s.threads[u].phase.Armed? ==>
          s.threads[t].phase.timer != s.threads[u].phase.timer || s.threads[t].phase.timer == 0)
  }

  /** An id about to be stored is in no slot yet. */
  ghost predicate StoredOnce(s: Pool) {
    && (forall i :: 0 <= i < |s.slots| ==> s.slots[i].schedId < s.nextTimer)
    && (forall i, t :: 0 <= i < |s.slots| && 0 <= t < |s.threads| && s.threads[t].phase.Armed? ==>
          s.slots[i].schedId != s.threads[t].phase.timer || s.slots[i].schedId == 0)
  }

  ghost predicate TimerInv(s: Pool) {
    Inv(s) && TimersKnown(s) && IdsKept(s) && PointersKept(s) && TimerIds(s) && StoredOnce(s)
  }

  // ---- who writes to a slot

  /** `worker_init` wipes slot `i`. */
  predicate Wipes(s: Pool, l: Label, i: nat) {
    || (l.StartOne? && s.toStart + i == |s.slots|)
    || (l.Replace? && s.replacing == Some(i))
  }

  predicate OnSlot(s: Pool, t: nat, i: nat) {
    t < |s.threads| && s.threads[t].slot == i
  }

  predicate WritesCurrent(s: Pool, l: Label, i: nat) {
    Wipes(s, l, i) || ((l.Begin? || l.Finish?) && OnSlot(s, l.t, i))
  }

  predicate WritesId(s: Pool, l: Label, i: nat) {
    Wipes(s, l, i) || (l.Store? && OnSlot(s, l.t, i))
  }

  /** Slot `i` is what it was except where the step writes to it. */
  ghost predicate WrittenOnly(s: Pool, l: Label, i: nat, s': Pool)
    requires i < |s.slots| && i < |s'.slots|
  {
    && s'.slots[i].current == (if !WritesCurrent(s, l, i) then s.slots[i].current
                               else if l.Begin? then Some(l.t) else None)
    && s'.slots[i].schedId == (if !WritesId(s, l, i) then s.slots[i].schedId
                               else if l.Store? && PhaseOf(s, l.t).Armed? then PhaseOf(s, l.t).timer else 0)
  }

  lemma LocalWrites(s: Pool, l: Label, i: nat)
    requires Wired(s) && Enabled(s, l) && IsLocal(l) && i < |s.slots|
    ensures |Next(s, l).slots| == |s.slots| && WrittenOnly(s, l, i, Next(s, l))
  {
    hide Wired, Q.Do, LocalThread, Executor.LocalTimers;
    InSlot(s, l);
  }

  lemma SpawnWrites(s: Pool, l: Label, i: nat)
    requires Wired(s) && Enabled(s, l) && IsSpawn(l) && i < |s.slots|
    ensures |Next(s, l).slots| == |s.slots| && WrittenOnly(s, l, i, Next(s, l))
  {
    hide Wired, Next, Enabled;
    SpawnIs(s, l);
  }

  lemma SlotWrites(s: Pool, l: Label, i: nat)
    requires Wired(s) && PointersSafe(s) && Enabled(s, l) && i < |s.slots|
    ensures |Next(s, l).slots| == |s.slots| && WrittenOnly(s, l, i, Next(s, l))
  {
    hide Next, Enabled, Wired, PointersSafe, Q.Do;
    if IsLocal(l) {
      LocalWrites(s, l, i);
    } else if IsSpawn(l) {
      SpawnWrites(s, l, i);
    } else if IsGet(l) {
      GetShape(s, l);
    } else if IsQuiet(l) {
      QuietShape(s, l);
    } else {
      MarkShape(s, l);
    }
  }

  // ---- steps

  /** Threads keep their slots, so only a new thread ends solitude. */
  lemma AloneSame(s: Pool, s': Pool)
    requires |s'.threads| == |s.threads| && forall u :: 0 <= u < |s.threads| ==> s'.threads[u].slot == s.threads[u].slot
    ensures forall u: nat :: Alone(s', u) <==> Alone(s, u)
  {
    forall u: nat
      ensures Alone(s', u) <==> Alone(s, u)
    {
      assert u < |s.threads| ==> forall v :: 0 <= v < |s.threads| ==> s'.threads[v].slot == s.threads[v].slot;
    }
  }

  lemma LocalKnown(s: Pool, l: Label)
    requires Wired(s) && TimersKnown(s) && Enabled(s, l) && IsLocal(l)
    ensures TimersKnown(Next(s, l))
  {
    hide Wired, Enabled, LocalThread, LocalSlot;
    LocalShape(s, l);
    LocalLogs(s, l);
  }

  lemma LocalPointersKept(s: Pool, l: Label)
    requires Wired(s) && PointersKept(s) && Enabled(s, l) && IsLocal(l)
    ensures PointersKept(Next(s, l))
  {
    LocalShape(s, l);
    LocalSteady(s, l);
    hide Next, Enabled, Wired;
    var s' := Next(s, l);
    AloneSame(s, s');
    forall t | 0 <= t < |s'.threads|
      ensures PointerKept(s', t)
    {
      assert PointerKept(s, t);
    }
  }

  lemma LocalSteady(s: Pool, l: Label)
    requires Wired(s) && Enabled(s, l) && IsLocal(l)
    ensures Next(s, l).steady ==> s.steady
  {
    hide Wired;
  }

  lemma LocalIds(s: Pool, l: Label)
    requires Wired(s) && IdsKept(s) && Enabled(s, l) && IsLocal(l)
    ensures IdsKept(Next(s, l))
  {
    LocalShape(s, l);
    hide Wired;
    var s' := Next(s, l);
    AloneSame(s, s');
    forall k, t | Own(s', k, t)
      ensures IdKept(s', k, t)
    {
      if Own(s, k, t) {
        assert IdKept(s, k, t);
      }
    }
  }

  lemma GetTaken(s: Pool, l: Label)
    requires Inv(s) && Enabled(s, l) && IsGet(l)
    ensures var s' := Next(s, l);
      && s'.rb.taken == s.rb.taken + (if s.rb.queue == [] then [] else [s.rb.queue[0]])
      && (s.rb.queue != [] ==> s.rb.queue[0].id == |s.rb.taken|)
  {
    hide Wired, PointersSafe, FlagsAgree, Manned, Held, InWork;
    if s.rb.queue != [] {
      assert s.rb.accepted[|s.rb.taken|] == s.rb.queue[0];
    }
  }

  lemma GetKeeps(s: Pool, l: Label)
    requires Inv(s) && TimersKnown(s) && IdsKept(s) && PointersKept(s) && Enabled(s, l) && IsGet(l)
    ensures var s' := Next(s, l); TimersKnown(s') && IdsKept(s') && PointersKept(s')
  {
    hide Next, Enabled, Wired, Q.Inv, PointersSafe, FlagsAgree, Conserved, Manned, Q.Do, QueueStep;
    GetShape(s, l);
    GetTaken(s, l);
    var s' := Next(s, l);
    AloneSame(s, s');
    forall k, t | Own(s', k, t)
      ensures IdKept(s', k, t)
    {
      if t != l.t {
        assert Own(s, k, t) && IdKept(s, k, t);
      }
    }
    forall t | 0 <= t < |s'.threads|
      ensures PointerKept(s', t)
    {
      assert PointerKept(s, t);
    }
  }

  lemma SpawnSlots(s: Pool, l: Label)
    requires Wired(s) && Enabled(s, l) && IsSpawn(l) && Next(s, l).steady
    ensures s.steady && |Next(s, l).threads| == |s.threads| + 1
    ensures forall i :: 0 <= i < |s.slots| && i != Next(s, l).threads[|s.threads|].slot ==> Next(s, l).slots[i] == s.slots[i]
  {
    hide Wired, Next, Enabled;
    SpawnIs(s, l);
  }

  lemma SpawnKeeps(s: Pool, l: Label)
    requires Wired(s) && TimersKnown(s) && IdsKept(s) && PointersKept(s) && Enabled(s, l) && IsSpawn(l)
    ensures var s' := Next(s, l); TimersKnown(s') && IdsKept(s') && PointersKept(s')
  {
    hide Next, Enabled;
    SpawnShape(s, l);
    var s' := Next(s, l);
    if s'.steady {
      SpawnSlots(s, l);
    }
    forall t: nat | t < |s.threads| && Alone(s', t)
      ensures Alone(s, t)
    {
      assert forall u :: 0 <= u < |s.threads| ==> s'.threads[u] == s.threads[u];
    }
    forall k, t | Own(s', k, t)
      ensures IdKept(s', k, t)
    {
      assert Own(s, k, t) && IdKept(s, k, t);
    }
    forall t | 0 <= t < |s'.threads|
      ensures PointerKept(s', t)
    {
      if t < |s.threads| {
        assert PointerKept(s, t);
      }
    }
  }

  lemma MarkKeeps(s: Pool, l: Label)
    requires Wired(s) && PointersSafe(s) && TimersKnown(s) && IdsKept(s) && PointersKept(s) && Enabled(s, l) && l.Mark?
    ensures var s' := Next(s, l); TimersKnown(s') && IdsKept(s') && PointersKept(s')
  {
    hide Next, Enabled, Wired, PointersSafe;
    MarkShape(s, l);
    var s' := Next(s, l);
    AloneSame(s, s');
    forall k, t | Own(s', k, t)
      ensures IdKept(s', k, t)
    {
      assert Own(s, k, t) && IdKept(s, k, t);
    }
    forall t | 0 <= t < |s'.threads|
      ensures PointerKept(s', t)
    {
      assert PointerKept(s, t);
    }
  }

  lemma QuietTaken(s: Pool, l: Label)
    requires Wired(s) && Enabled(s, l) && IsQuiet(l)
    ensures Next(s, l).rb.taken == s.rb.taken && Next(s, l).steady == s.steady
  {
    hide Wired, Next, Enabled;
    QuietIs(s, l);
  }

  lemma QuietKeeps(s: Pool, l: Label)
    requires Wired(s) && TimersKnown(s) && IdsKept(s) && PointersKept(s) && Enabled(s, l) && IsQuiet(l)
    ensures var s' := Next(s, l); TimersKnown(s') && IdsKept(s') && PointersKept(s')
  {
    hide Next, Enabled, Wired;
    QuietShape(s, l);
    QuietTaken(s, l);
    var s' := Next(s, l);
    AloneSame(s, s');
    forall k, t | Own(s', k, t)
      ensures IdKept(s', k, t)
    {
      assert Own(s, k, t) && IdKept(s, k, t);
    }
    forall t | 0 <= t < |s'.threads|
      ensures PointerKept(s', t)
    {
      assert PointerKept(s, t);
    }
  }

  lemma NextKeepsIds(s: Pool, l: Label)
    requires Wired(s) && PointersSafe(s) && TimerIds(s) && Enabled(s, l)
    ensures TimerIds(Next(s, l))
  {
    hide Next, Enabled, Wired, PointersSafe, Q.Do, QueueStep;
    if IsLocal(l) {
      LocalShape(s, l);
      ArmsNext(s, l);
    } else if IsSpawn(l) {
      SpawnShape(s, l);
      QuietNumbers(s, l);
    } else if IsGet(l) {
      GetShape(s, l);
    } else if IsQuiet(l) {
      QuietShape(s, l);
      QuietNumbers(s, l);
    } else {
      MarkShape(s, l);
    }
  }

  lemma ArmsNext(s: Pool, l: Label)
    requires Wired(s) && Enabled(s, l) && IsLocal(l)
    ensures l.t < |s.threads|
    ensures var s', p := Next(s, l), Next(s, l).threads[l.t].phase;
      && s.nextTimer <= s'.nextTimer
      && (p.Armed? ==> p.timer == 0 || (p.timer == s.nextTimer && s'.nextTimer == s.nextTimer + 1))
  {
    hide Wired, Q.Do, LocalTimers, LocalSlot;
    InSlot(s, l);
  }

  lemma QuietNumbers(s: Pool, l: Label)
    requires Wired(s) && Enabled(s, l) && (IsSpawn(l) || IsQuiet(l))
    ensures Next(s, l).nextTimer == s.nextTimer
  {
    hide Wired, Next, Enabled;
    if IsSpawn(l) {
      SpawnIs(s, l);
    } else {
      QuietIs(s, l);
    }
  }

  lemma NextKeepsStored(s: Pool, l: Label)
    requires Wired(s) && PointersSafe(s) && TimerIds(s) && StoredOnce(s) && Enabled(s, l)
    ensures StoredOnce(Next(s, l))
  {
    hide Next, Enabled, Wired, PointersSafe, Q.Do, QueueStep;
    NextKeepsSize(s, l);
    var s' := Next(s, l);
    forall i | 0 <= i < |s.slots|
      ensures s'.slots[i].schedId == s.slots[i].schedId || s'.slots[i].schedId == 0
              || (l.Store? && PhaseOf(s, l.t).Armed? && s'.slots[i].schedId == PhaseOf(s, l.t).timer)
    {
      SlotWrites(s, l, i);
    }
    if IsLocal(l) {
      LocalShape(s, l);
      ArmsNext(s, l);
    } else if IsSpawn(l) {
      SpawnShape(s, l);
      QuietNumbers(s, l);
    } else if IsGet(l) {
      GetShape(s, l);
    } else if IsQuiet(l) {
      QuietShape(s, l);
      QuietNumbers(s, l);
    } else {
      MarkShape(s, l);
    }
  }

  lemma NextKeepsTimerInv(s: Pool, l: Label)
    requires TimerInv(s) && Enabled(s, l)
    ensures TimerInv(Next(s, l))
  {
    hide Next, Enabled, Wired, Q.Inv, PointersSafe, FlagsAgree, Conserved, Manned,
      TimersKnown, IdsKept, PointersKept, TimerIds, StoredOnce;
    NextKeepsInv(s, l);
    NextKeepsStored(s, l);
    NextKeepsIds(s, l);
    if IsLocal(l) {
      LocalKnown(s, l);
      LocalIds(s, l);
      LocalPointersKept(s, l);
    } else if IsSpawn(l) {
      SpawnKeeps(s, l);
    } else if IsGet(l) {
      GetKeeps(s, l);
    } else if IsQuiet(l) {
      QuietKeeps(s, l);
    } else {
      MarkKeeps(s, l);
    }
  }

  lemma {:induction false} RunKeepsTimerInv(s: Pool, ls: seq<Label>)
    requires TimerInv(s) && Run(s, ls)
    ensures TimerInv(End(s, ls))
    decreases |ls|
  {
    hide TimerInv, Next, Enabled, Wired;
    if ls != [] {
      NextKeepsTimerInv(s, ls[0]);
      RunKeepsTimerInv(Next(s, ls[0]), ls[1..]);
    }
  }

  /** Every state of every run satisfies what the theorems below ask for. */
  lemma ReachedKeepsTimers(n: nat, cap: nat, ls: seq<Label>)
    requires Run(Fresh(n, cap), ls)
    ensures TimerInv(End(Fresh(n, cap), ls))
  {
    FreshInv(n, cap);
    RunKeepsTimerInv(Fresh(n, cap), ls);
  }

  // ---- the theorems

  /** A timer that goes off on the task it was armed for is counted against its
      owner; and if the owner is at work and has its slot to itself, that very task
      is discarded. */
  lemma TimeoutDiscards(s: Pool, k: nat, t: nat)
    requires TimerInv(s) && Enabled(s, Mark(k)) && Own(s, k, t)
    ensures var th := Next(s, Mark(k)).threads[t];
      th.fired && (s.steady && Alone(s, t) && s.threads[t].phase.Working? ==> th.discarded)
  {
    hide Q.Inv, Conserved, Manned, FlagsAgree, IdsKept, TimerIds, StoredOnce;
    assert PointerKept(s, t);
  }

  /** A task that is done in time takes its timer with it: once the worker has
      decided and the scheduler has removed what it was told to, no timer of that
      task is left, if the worker has its slot to itself. */
  lemma DoneInTimeRemovesTimer(s: Pool, t: nat)
    requires TimerInv(s) && s.steady && Enabled(s, Decide(t, true)) && Alone(s, t)
    requires s.threads[t].phase.task.timeout && !s.threads[t].discarded
    ensures forall k :: !Own(Next(s, Decide(t, true)), k, t)
  {
    hide Q.Inv, Conserved, Manned, FlagsAgree, PointersKept, TimerIds, StoredOnce;
    forall k | Own(s, k, t)
      ensures k == s.slots[s.threads[t].slot].schedId
    {
      assert IdKept(s, k, t);
    }
    assert forall k :: Own(Next(s, Decide(t, true)), k, t) ==> Own(s, k, t);
  }
}
