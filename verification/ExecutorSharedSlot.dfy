/** Exactly when a timer meets its own task on a slot that several threads use. */
module ExecutorSharedSlot {
  import opened Options
  import opened Executor
  import opened ExecutorSafety
  import opened ExecutorTimers

  // ---- one step

  /** A timer that goes off, whoever armed it, discards the task its slot names and
      no other; that task is inside its work call. */
  lemma MarkDiscards(s: Pool, k: nat, u: nat)
    requires Wired(s) && PointersSafe(s) && Enabled(s, Mark(k)) && u < |s.threads|
    ensures s.timers[k].slot < |s.slots|
    ensures var cur := s.slots[s.timers[k].slot].current;
      && (Next(s, Mark(k)).threads[u].discarded <==> s.threads[u].discarded || cur == Some(u))
      && (cur == Some(u) ==> s.threads[u].phase.Working? && s.threads[u].slot == s.timers[k].slot)
  {
  }

  /** A worker removes the timer its slot holds the id of, whoever armed it, and no
      other, exactly if its task asked for one, was not discarded, and the scheduler
      finds that timer. */
  lemma DecideRemoves(s: Pool, t: nat, removed: bool, k: nat)
    requires Wired(s) && Enabled(s, Decide(t, removed)) && k in s.timers
    ensures t < |s.threads| && s.threads[t].slot < |s.slots|
    ensures var th := s.threads[t];
      k !in Next(s, Decide(t, removed)).timers <==>
        removed && th.phase.task.timeout && !th.discarded && k == s.slots[th.slot].schedId
  {
  }

  // ---- whole runs

  ghost predicate CurrentWritten(s: Pool, ls: seq<Label>, i: nat)
    requires Run(s, ls)
    decreases |ls|
  {
    ls != [] && (WritesCurrent(s, ls[0], i) || CurrentWritten(Next(s, ls[0]), ls[1..], i))
  }

  ghost predicate IdWritten(s: Pool, ls: seq<Label>, i: nat)
    requires Run(s, ls)
    decreases |ls|
  {
    ls != [] && (WritesId(s, ls[0], i) || IdWritten(Next(s, ls[0]), ls[1..], i))
  }

  /** A slot names a thread's task, which has not begun anew, if and only if it did
      before and nobody wrote since. */
  lemma {:induction false} CurrentStays(s: Pool, ls: seq<Label>, i: nat, t: nat)
    requires Inv(s) && Run(s, ls) && i < |s.slots| && Begin(t) !in ls
    ensures |End(s, ls).slots| == |s.slots|
    ensures End(s, ls).slots[i].current == Some(t) <==> s.slots[i].current == Some(t) && !CurrentWritten(s, ls, i)
    decreases |ls|
  {
    hide Next, Enabled, Wired, Q.Inv, PointersSafe, FlagsAgree, Conserved, Manned, WritesCurrent, WritesId;
    if ls != [] {
      var l := ls[0];
      NextKeepsInv(s, l);
      SlotWrites(s, l, i);
      assert l in ls && forall x :: x in ls[1..] ==> x in ls;
      CurrentStays(Next(s, l), ls[1..], i, t);
    }
  }

  /** Id `k` was given out and nobody is about to store it. */
  ghost predicate NotArmed(s: Pool, k: nat) {
    0 < k < s.nextTimer && forall u :: 0 <= u < |s.threads| && s.threads[u].phase.Armed? ==> s.threads[u].phase.timer != k
  }

  lemma NextKeepsNotArmed(s: Pool, l: Label, k: nat)
    requires Wired(s) && PointersSafe(s) && Enabled(s, l) && NotArmed(s, k)
    ensures NotArmed(Next(s, l), k)
  {
    hide Next, Enabled, Wired, PointersSafe, Q.Do, QueueStep;
    if IsLocal(l) {
      LocalShape(s, l);
      ArmsNext(s, l);
    } else if IsSpawn(l) {
      SpawnShape(s, l);
      QuietNumbers(s, l);
    } else if IsGet(l) {
      GetShape(s, l);
    } else if IsQuiet(l) {
      QuietShape(s, l);
      QuietNumbers(s, l);
    } else {
      MarkShape(s, l);
    }
  }

  lemma {:induction false} IdStays(s: Pool, ls: seq<Label>, i: nat, k: nat)
    requires Inv(s) && Run(s, ls) && i < |s.slots| && NotArmed(s, k)
    ensures |End(s, ls).slots| == |s.slots|
    ensures End(s, ls).slots[i].schedId == k <==> s.slots[i].schedId == k && !IdWritten(s, ls, i)
    decreases |ls|
  {
    hide Next, Enabled, Wired, Q.Inv, PointersSafe, FlagsAgree, Conserved, Manned, WritesCurrent;
    if ls != [] {
      var l := ls[0];
      NextKeepsInv(s, l);
      NextKeepsNotArmed(s, l, k);
      SlotWrites(s, l, i);
      IdStays(Next(s, l), ls[1..], i, k);
    }
  }

  /** Threads stay on their slots. */
  lemma NextKeepsSlot(s: Pool, l: Label, t: nat)
    requires Wired(s) && PointersSafe(s) && Enabled(s, l) && t < |s.threads|
    ensures var s' := Next(s, l); t < |s'.threads| && s'.threads[t].slot == s.threads[t].slot
  {
    hide Next, Enabled, Wired, PointersSafe, Q.Do, QueueStep;
    if IsLocal(l) {
      LocalShape(s, l);
    } else if IsSpawn(l) {
      SpawnShape(s, l);
    } else if IsGet(l) {
      GetShape(s, l);
    } else if IsQuiet(l) {
      QuietShape(s, l);
    } else {
      MarkShape(s, l);
    }
  }

  lemma {:induction false} RunKeepsSlot(s: Pool, ls: seq<Label>, t: nat)
    requires Inv(s) && Run(s, ls) && t < |s.threads|
    ensures t < |End(s, ls).threads| && End(s, ls).threads[t].slot == s.threads[t].slot
    decreases |ls|
  {
    hide Next, Enabled, Wired, Q.Inv, PointersSafe, FlagsAgree, Conserved, Manned;
    if ls != [] {
      NextKeepsInv(s, ls[0]);
      NextKeepsSlot(s, ls[0], t);
      RunKeepsSlot(Next(s, ls[0]), ls[1..], t);
    }
  }

  lemma {:induction false} RunKeepsSlots(s: Pool, ls: seq<Label>)
    requires Inv(s) && Run(s, ls)
    ensures |End(s, ls).slots| == |s.slots|
    decreases |ls|
  {
    hide Next, Enabled, Wired, Q.Inv, PointersSafe, FlagsAgree, Conserved, Manned;
    if ls != [] {
      NextKeepsInv(s, ls[0]);
      NextKeepsSize(s, ls[0]);
      RunKeepsSlots(Next(s, ls[0]), ls[1..]);
    }
  }

  // ---- the theorems

  lemma BeginNames(s: Pool, t: nat)
    requires Wired(s) && Enabled(s, Begin(t))
    ensures t < |s.threads| && s.threads[t].slot < |s.slots|
    ensures Next(s, Begin(t)).slots[s.threads[t].slot].current == Some(t)
  {
    hide Next, Enabled, Wired;
    LocalShape(s, Begin(t));
  }

  /** From any state of any run: after a worker's `current = &task` and any steps up
      to its next one, a timer that goes off, its own or another's, discards the task,
      unless that is done already, if and only if it was armed on that slot and nobody
      wrote to `current` of the slot since: no thread on it began or finished a task,
      and nobody was put on it. */
  lemma DiscardsExactly(s: Pool, t: nat, ls: seq<Label>, k: nat)
    requires TimerInv(s) && Enabled(s, Begin(t)) && Run(Next(s, Begin(t)), ls) && Begin(t) !in ls
    requires Enabled(End(Next(s, Begin(t)), ls), Mark(k))
    ensures t < |s.threads|
    ensures var e, i := End(Next(s, Begin(t)), ls), s.threads[t].slot;
      && Wired(e) && t < |e.threads|
      && (Next(e, Mark(k)).threads[t].discarded <==>
            e.threads[t].discarded || (e.timers[k].slot == i && !CurrentWritten(Next(s, Begin(t)), ls, i)))
  {
    hide Next, Enabled, Wired, Q.Inv, PointersSafe, FlagsAgree, Conserved, Manned,
      TimersKnown, IdsKept, PointersKept, TimerIds, StoredOnce;
    BeginNames(s, t);
    var s1, i := Next(s, Begin(t)), s.threads[t].slot;
    NextKeepsTimerInv(s, Begin(t));
    RunKeepsTimerInv(s1, ls);
    LocalShape(s, Begin(t));
    RunKeepsSlot(s1, ls, t);
    CurrentStays(s1, ls, i, t);
    MarkDiscards(End(s1, ls), k, t);
  }

  lemma StoreKeeps(s: Pool, t: nat)
    requires Wired(s) && TimerIds(s) && StoredOnce(s) && Enabled(s, Store(t)) && PhaseOf(s, t).timer > 0
    ensures t < |s.threads| && s.threads[t].slot < |s.slots| && s.threads[t].phase.Armed?
    ensures var s', k := Next(s, Store(t)), s.threads[t].phase.timer;
      && |s'.slots| == |s.slots| && NotArmed(s', k)
      && forall i :: 0 <= i < |s.slots| ==> (s'.slots[i].schedId == k <==> i == s.threads[t].slot)
  {
    hide Wired, Q.Do;
    InSlot(s, Store(t));
  }

  /** From any state of any run: after a worker has stored the id of its timer, and
      any steps, a worker `u` that is done in time removes that timer if and only if
      it is on the same slot and nobody wrote to `sched_id` of that slot since. With
      `u` the worker itself this is when its own timer goes; with another `u` it is
      when a worker loses its timer. */
  lemma RemovesExactly(s: Pool, t: nat, ls: seq<Label>, u: nat)
    requires TimerInv(s) && Enabled(s, Store(t)) && PhaseOf(s, t).timer > 0 && Run(Next(s, Store(t)), ls)
    requires var e := End(Next(s, Store(t)), ls);
      && Enabled(e, Decide(u, true)) && e.threads[u].phase.task.timeout && !e.threads[u].discarded
      && PhaseOf(s, t).timer in e.timers
    ensures t < |s.threads|
    ensures var e, k, i := End(Next(s, Store(t)), ls), PhaseOf(s, t).timer, s.threads[t].slot;
      && Wired(e)
      && (k !in Next(e, Decide(u, true)).timers <==> e.threads[u].slot == i && !IdWritten(Next(s, Store(t)), ls, i))
  {
    hide Next, Enabled, Wired, Q.Inv, PointersSafe, FlagsAgree, Conserved, Manned,
      TimersKnown, IdsKept, PointersKept, TimerIds, StoredOnce;
    StoreKeeps(s, t);
    var s1, k, i := Next(s, Store(t)), s.threads[t].phase.timer, s.threads[t].slot;
    NextKeepsTimerInv(s, Store(t));
    RunKeepsTimerInv(s1, ls);
    DecideRemoves(End(s1, ls), u, true, k);
    RunKeepsSlots(s1, ls);
    IdStays(s1, ls, End(s1, ls).threads[u].slot, k);
  }
}
