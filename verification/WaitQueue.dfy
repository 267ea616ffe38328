/** The mutex and condition variable of `ringbuffer.c` as a step system with any
    number of getters. Each step is one section of code that holds the lock. */
module WaitQueue {

  /** Where a thread is with respect to `ringbuffer_get`: outside, blocked in
      `pthread_cond_wait`, or unblocked and about to take the lock again. */
  datatype Getter = Out | Asleep | Woken

  /** `accepted` and `taken` record the elements put and got, in order. */
  datatype Rb<T> = Rb(cap: nat, queue: seq<T>, waiters: int, getters: seq<Getter>, accepted: seq<T>, taken: seq<T>)

  /** `after` is the state of the getters once a signal has unblocked some. */
  datatype Step<T> =
    | Put(x: T, after: seq<Getter>)
    | Enter(t: nat)
    | Retake(t: nat)
    | Spurious(t: nat)

  function Count(g: seq<Getter>, x: Getter): (n: nat) {
    if g == [] then 0 else Count(g[..|g| - 1], x) + if g[|g| - 1] == x then 1 else 0
  }

  /** `pthread_cond_signal` unblocks at least one of the threads blocked. */
  ghost predicate Signalled(g: seq<Getter>, after: seq<Getter>) {
    && |after| == |g|
    && (forall i :: 0 <= i < |g| ==> after[i] == g[i] || (g[i] == Asleep && after[i] == Woken))
    && (Asleep in g ==> after != g)
  }

  ghost predicate Enabled<T(!new)>(s: Rb<T>, step: Step<T>) {
    match step
    case Put(x, after) => |s.queue| < s.cap && if s.waiters > 0 then Signalled(s.getters, after) else after == s.getters
    case Enter(t) => t < |s.getters| && s.getters[t] == Out
    case Retake(t) => t < |s.getters| && s.getters[t] == Woken
    case Spurious(t) => t < |s.getters| && s.getters[t] == Asleep
  }

  /** The rest of `ringbuffer_get` once the queue is found not empty. */
  function Take<T>(s: Rb<T>, t: nat): Rb<T>
    requires t < |s.getters| && s.queue != []
  {
    s.(queue := s.queue[1..], taken := s.taken + [s.queue[0]], waiters := s.waiters - 1, getters := s.getters[t := Out])
  }

  function Do<T>(s: Rb<T>, step: Step<T>): Rb<T>
    requires step.Put? || step.t < |s.getters|
  {
    match step
    case Put(x, after) => s.(queue := s.queue + [x], accepted := s.accepted + [x], getters := after)
    case Enter(t) =>
      var s1 := s.(waiters := s.waiters + 1);
      if s.queue == [] then s1.(getters := s.getters[t := Asleep]) else Take(s1, t)
    case Retake(t) =>
      if s.queue == [] then s.(getters := s.getters[t := Asleep]) else Take(s, t)
    case Spurious(t) => s.(getters := s.getters[t := Woken])
  }

  function WakeAll(g: seq<Getter>): seq<Getter> {
    seq(|g|, i requires 0 <= i < |g| => if g[i] == Asleep then Woken else g[i])
  }

  /** Whoever sleeps, a put can be made while there is room. */
  lemma PutFindsRoom<T(!new)>(s: Rb<T>, x: T) returns (after: seq<Getter>)
    requires |s.queue| < s.cap
    ensures Enabled(s, Put(x, after))
  {
    after := if s.waiters > 0 then WakeAll(s.getters) else s.getters;
    if Asleep in s.getters {
      var i :| 0 <= i < |s.getters| && s.getters[i] == Asleep;
      assert WakeAll(s.getters)[i] == Woken;
    }
  }

  /** What every step keeps. The last part is that no wakeup is lost: while some
      getter sleeps, there are at least as many woken getters as elements. */
  ghost predicate Inv<T>(s: Rb<T>) {
    && |s.queue| <= s.cap
    && s.accepted == s.taken + s.queue
    && s.waiters == Count(s.getters, Asleep) + Count(s.getters, Woken)
    && (Count(s.getters, Asleep) > 0 ==> |s.queue| <= Count(s.getters, Woken))
  }

  // ---- counting

  lemma {:induction false} CountUpdate(g: seq<Getter>, i: nat, v: Getter, x: Getter)
    requires i < |g|
    ensures Count(g[i := v], x) == Count(g, x) - (if g[i] == x then 1 else 0) + (if v == x then 1 else 0)
  {
    var n := |g| - 1;
    if i < n {
      CountUpdate(g[..n], i, v, x);
      assert g[i := v][..n] == g[..n][i := v];
    } else {
      assert g[i := v][..n] == g[..n];
    }
  }

  lemma CountOut(g: seq<Getter>, x: Getter)
    requires x != Out
    ensures Count(g + [Out], x) == Count(g, x)
  {
    assert (g + [Out])[..|g|] == g;
  }

  lemma {:induction false} CountNone(g: seq<Getter>, x: Getter)
    ensures Count(g, x) == 0 <==> x !in g
  {
    if g != [] {
      var n := |g| - 1;
      CountNone(g[..n], x);
      assert g == g[..n] + [g[n]];
    }
  }

  lemma {:induction false} CountSignalled(g: seq<Getter>, after: seq<Getter>)
    requires |after| == |g|
    requires forall i :: 0 <= i < |g| ==> after[i] == g[i] || (g[i] == Asleep && after[i] == Woken)
    ensures Count(after, Asleep) + Count(after, Woken) == Count(g, Asleep) + Count(g, Woken)
    ensures Count(g, Woken) <= Count(after, Woken) <= |g|
    ensures after != g ==> Count(g, Woken) < Count(after, Woken)
  {
    if g != [] {
      var n := |g| - 1;
      CountSignalled(g[..n], after[..n]);
      assert g == g[..n] + [g[n]] && after == after[..n] + [after[n]];
    }
  }

  // ---- every step keeps the invariant

  lemma TakeKeepsInv<T>(s: Rb<T>, t: nat)
    requires t < |s.getters| && s.queue != [] && |s.queue| <= s.cap && s.accepted == s.taken + s.queue
    requires s.waiters == Count(s.getters, Asleep) + Count(s.getters, Woken) + if s.getters[t] == Out then 1 else 0
    requires s.getters[t] != Asleep
    requires Count(s.getters, Asleep) > 0 ==> |s.queue| <= Count(s.getters, Woken)
    ensures Inv(Take(s, t))
  {
    CountUpdate(s.getters, t, Out, Asleep);
    CountUpdate(s.getters, t, Out, Woken);
    assert s.taken + [s.queue[0]] + s.queue[1..] == s.taken + s.queue;
  }

  lemma PutKeepsInv<T(!new)>(s: Rb<T>, x: T, after: seq<Getter>)
    requires Inv(s) && Enabled(s, Put(x, after))
    ensures Inv(Do(s, Put(x, after)))
  {
    CountNone(s.getters, Asleep);
    CountSignalled(s.getters, after);
  }

  lemma StepKeepsInv<T(!new)>(s: Rb<T>, step: Step<T>)
    requires Inv(s) && Enabled(s, step)
    ensures Inv(Do(s, step)) && |Do(s, step).getters| == |s.getters|
  {
    match step
    case Put(x, after) => PutKeepsInv(s, x, after);
    case Enter(t) =>
      if s.queue == [] {
        CountUpdate(s.getters, t, Asleep, Asleep);
        CountUpdate(s.getters, t, Asleep, Woken);
      } else {
        TakeKeepsInv(s.(waiters := s.waiters + 1), t);
      }
    case Retake(t) =>
      if s.queue == [] {
        CountUpdate(s.getters, t, Asleep, Asleep);
        CountUpdate(s.getters, t, Asleep, Woken);
      } else {
        TakeKeepsInv(s, t);
      }
    case Spurious(t) =>
      CountUpdate(s.getters, t, Woken, Asleep);
      CountUpdate(s.getters, t, Woken, Woken);
  }

  // ---- whole runs

  ghost predicate Run<T(!new)>(s: Rb<T>, steps: seq<Step<T>>)
    decreases |steps|
  {
    steps == [] || (Enabled(s, steps[0]) && Run(Do(s, steps[0]), steps[1..]))
  }

  ghost function End<T(!new)>(s: Rb<T>, steps: seq<Step<T>>): Rb<T>
    requires Run(s, steps)
    decreases |steps|
  {
    if steps == [] then s else End(Do(s, steps[0]), steps[1..])
  }

  /** A buffer as `ringbuffer_init` leaves it, with `n` threads outside. */
  function Fresh<T>(cap: nat, n: nat): Rb<T> {
    Rb(cap, [], 0, seq(n, _ => Out), [], [])
  }

  lemma {:induction false} FreshCounts(n: nat, x: Getter)
    requires x != Out
    ensures Count(seq(n, _ => Out), x) == 0
  {
    CountNone(seq(n, _ => Out), x);
  }

  lemma {:induction false} RunKeepsInv<T(!new)>(s: Rb<T>, steps: seq<Step<T>>)
    requires Inv(s) && Run(s, steps)
    ensures Inv(End(s, steps))
    decreases |steps|
  {
    hide Inv;
    if steps != [] {
      StepKeepsInv(s, steps[0]);
      RunKeepsInv(Do(s, steps[0]), steps[1..]);
    }
  }

  /** In every reachable state of every run, with any number of threads and
      spurious wakeups: first in, first out; and an element is never in the queue
      while the only getters inside are asleep. */
  lemma NoLostWakeup<T(!new)>(cap: nat, n: nat, steps: seq<Step<T>>)
    requires Run(Fresh(cap, n), steps)
    ensures var s := End(Fresh(cap, n), steps);
      && s.accepted == s.taken + s.queue
      && (Asleep in s.getters ==> |s.queue| <= Count(s.getters, Woken))
      && (Asleep in s.getters && s.queue != [] ==> Woken in s.getters)
  {
    FreshCounts(n, Asleep);
    FreshCounts(n, Woken);
    RunKeepsInv(Fresh<T>(cap, n), steps);
    var s := End(Fresh(cap, n), steps);
    CountNone(s.getters, Asleep);
    CountNone(s.getters, Woken);
  }
}
