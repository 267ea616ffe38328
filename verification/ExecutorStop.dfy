/** `executor_stop` called on a pool that a run has led to. */
module ExecutorStop {
  import opened Executor
  import opened ExecutorSafety
  import opened ExecutorDrain

  /** Nobody has called `executor_stop`, so no marker was queued, and while no
      collect asks for it no worker ends. */
  ghost predicate Unstopped(s: Pool) {
    && !s.stopping && s.stopsLeft == 0 && s.running == s.begun
    && (forall i :: 0 <= i < |s.rb.accepted| ==> !s.rb.accepted[i].stop)
    && (s.steady ==> forall t :: 0 <= t < |s.threads| ==> !s.threads[t].phase.Exited?)
  }

  /** One thread for every slot that was reached, and `r` more. */
  ghost predicate Staffed(s: Pool, r: nat) {
    && (!s.begun ==> s.threads == [] && s.toStart == 0 && s.timers == map[] && s.replacing.None? && r == 0)
    && (s.begun && s.steady ==> |s.threads| + s.toStart == |s.slots| + r)
  }

  lemma LocalStays(s: Pool, l: Label)
    requires Wired(s) && Enabled(s, l) && IsLocal(l)
    ensures l.t < |s.threads|
    ensures var s' := Next(s, l);
      && s'.stopping == s.stopping && s'.stopsLeft == s.stopsLeft && s'.running == s.running && s'.begun == s.begun
      && (s'.steady ==> s.steady && !s'.threads[l.t].phase.Exited?)
  {
    hide Wired, Q.Do, LocalSlot, Executor.LocalTimers;
    InSlot(s, l);
  }

  lemma NextUnstopped(s: Pool, l: Label)
    requires Wired(s) && PointersSafe(s) && Unstopped(s) && Enabled(s, l) && !l.StopBegin?
    ensures Unstopped(Next(s, l))
  {
    hide Next, Enabled, Wired, PointersSafe, Q.Do, QueueStep;
    if IsLocal(l) {
      LocalStays(s, l);
      LocalShape(s, l);
    } else if IsSpawn(l) {
      SpawnIs(s, l);
      SpawnShape(s, l);
    } else if IsGet(l) {
      GetShape(s, l);
      GetLogs(s, l);
    } else if IsQuiet(l) {
      QuietUnstopped(s, l);
    } else {
      MarkShape(s, l);
    }
  }

  lemma QuietUnstopped(s: Pool, l: Label)
    requires Wired(s) && Unstopped(s) && Enabled(s, l) && IsQuiet(l) && !l.StopBegin?
    ensures Unstopped(Next(s, l))
  {
    hide Wired, Q.Do, Q.Enabled;
    QuietQueue(s, l);
  }

  lemma NextStaffed(s: Pool, l: Label, r: nat)
    requires Wired(s) && PointersSafe(s) && Unstopped(s) && Staffed(s, r) && Enabled(s, l) && !l.StopBegin?
    ensures Staffed(Next(s, l), r + Creates(l))
  {
    hide Next, Enabled, Wired, PointersSafe, Q.Do, QueueStep;
    if IsLocal(l) {
      LocalStays(s, l);
      LocalShape(s, l);
    } else if IsSpawn(l) {
      SpawnIs(s, l);
    } else if IsGet(l) {
      GetShape(s, l);
    } else if IsQuiet(l) {
      QuietStaffed(s, l, r);
    } else {
      MarkShape(s, l);
    }
  }

  lemma QuietStaffed(s: Pool, l: Label, r: nat)
    requires Wired(s) && Unstopped(s) && Staffed(s, r) && Enabled(s, l) && IsQuiet(l) && !l.StopBegin?
    ensures Staffed(Next(s, l), r)
  {
    hide Wired, Q.Do, Q.Enabled;
  }

  lemma {:induction false} RunStaffed(s: Pool, ls: seq<Label>, r: nat)
    requires Inv(s) && Unstopped(s) && Staffed(s, r) && Run(s, ls) && StopBegin !in ls
    ensures var e := End(s, ls);
      && Inv(e) && Unstopped(e) && Staffed(e, r + Replacements(ls))
      && |e.slots| == |s.slots| && e.rb.cap == s.rb.cap
    decreases |ls|
  {
    hide Next, Enabled, Wired, Q.Inv, PointersSafe, FlagsAgree, Conserved, Manned, Unstopped, Staffed;
    if ls != [] {
      var l := ls[0];
      NextKeepsInv(s, l);
      NextUnstopped(s, l);
      NextStaffed(s, l, r);
      NextKeepsSize(s, l);
      assert l in ls && forall x :: x in ls[1..] ==> x in ls;
      RunStaffed(Next(s, l), ls[1..], r + Creates(l));
    }
  }

  /** From any run without a stop, of any pool, in which every thread could be
      created, no collect asked a worker to end, and the start is over: the pool is
      as `executor_stop` has to find it, with one thread for every slot and one more
      for every replacement. */
  lemma RunIsStoppable(n: nat, cap: nat, ls: seq<Label>)
    requires Run(Fresh(n, cap), ls) && StopBegin !in ls && 0 < n && 0 < cap
    requires var s := End(Fresh(n, cap), ls); s.begun && s.steady && s.toStart == 0
    ensures var s := End(Fresh(n, cap), ls);
      Stoppable(s) && |s.slots| == n && s.rb.cap == cap && |s.threads| == n + Replacements(ls)
  {
    FreshInv(n, cap);
    RunStaffed(Fresh(n, cap), ls, 0);
  }

  /** Such a run, then the stop, then any drain: the drain is finite; workers and
      caller get stuck only when the queue is empty and every task ever accepted has
      been worked and collected exactly once. One thread is left asleep for every
      replacement, before or during the drain, so all workers have exited if and
      only if none was replaced. */
  lemma RunDrains(n: nat, cap: nat, ls: seq<Label>, drain: seq<Label>)
    requires Run(Fresh(n, cap), ls) && StopBegin !in ls && 0 < n && 0 < cap
    requires var s := End(Fresh(n, cap), ls);
      s.begun && s.steady && s.toStart == 0 && Wired(s) && Enabled(s, StopBegin) && DrainRun(Next(s, StopBegin), drain)
    ensures var start := Next(End(Fresh(n, cap), ls), StopBegin); var end := DrainEnd(start, drain);
      var extra := Replacements(ls) + Replacements(drain);
      && |drain| <= Measure(start) + 2 * Spurious(drain)
      && ((forall l :: DrainStep(end, l) ==> !IsProper(l)) ==> Drained(end, extra) && Done(end, extra))
  {
    hide DrainRun, DrainEnd, DrainStep, Run, End, Next, Enabled, Wired, Stoppable, Measure, Drained, Done;
    RunIsStoppable(n, cap, ls);
    StopDrains(End(Fresh(n, cap), ls), drain);
  }
}
