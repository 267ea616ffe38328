/** Three runs on a slot that a worker given up on shares with its replacement. */
module ExecutorSharedRuns {
  import opened Options
  import opened Executor
  import opened ExecutorSafety
  import opened ExecutorTimers

  // ---- building runs

  ghost predicate Leads(s: Pool, ls: seq<Label>, s': Pool) {
    Run(s, ls) && End(s, ls) == s'
  }

  lemma LeadsOne(s: Pool, l: Label)
    requires Wired(s) && Enabled(s, l)
    ensures Leads(s, [l], Next(s, l))
  {
    hide Wired, Enabled, Next;
    var s' := Next(s, l);
    assert [l][1..] == [] && Run(s', []) && End(s', []) == s';
    assert Run(s, [l]) && End(s, [l]) == End(s', []);
  }

  lemma {:induction false} LeadsOn(s: Pool, a: seq<Label>, m: Pool, b: seq<Label>, e: Pool)
    requires Leads(s, a, m) && Leads(m, b, e)
    ensures Leads(s, a + b, e)
    decreases |a|
  {
    hide Wired, Enabled, Next;
    if a == [] {
      assert a + b == b;
    } else {
      assert (a + b)[1..] == a[1..] + b;
      LeadsOn(Next(s, a[0]), a[1..], m, b, e);
    }
  }

  // ---- a started pool of one slot

  function Nth(k: nat): Task {
    Task(k, false, true)
  }

  /** `n` tasks were dispatched, all with a timeout, and the first `k` taken. */
  datatype Scene = Scene(n: nat, k: nat, ths: seq<Thread>, slot: Slot, timers: map<nat, Timer>, next: nat,
                         replacing: Option<nat>, worked: seq<Task>, collected: seq<Task>)
  {
    ghost predicate Fits() {
      && k <= n && n - k <= 4
      && (forall t :: 0 <= t < |ths| ==> ths[t].slot == 0 && !ths[t].phase.Getting?)
      && (forall j :: j in timers ==> timers[j].slot == 0)
      && (replacing.Some? ==> replacing.value == 0)
    }

    ghost function Pool(): Pool
      requires Fits()
    {
      var all := seq(n, i requires 0 <= i < n => Nth(i));
      Executor.Pool(Q.Rb(4, all[k..], 0, seq(|ths|, _ => Q.Out), all, all[..k]), true, [slot], ths, timers, next, replacing,
        true, 0, false, 0, n, worked, collected, true)
    }
  }

  ghost predicate Plays(c: Scene, ls: seq<Label>, c': Scene) {
    c.Fits() && c'.Fits() && Leads(c.Pool(), ls, c'.Pool())
  }

  lemma PlaysOn(c: Scene, a: seq<Label>, m: Scene, b: seq<Label>, c': Scene)
    requires Plays(c, a, m) && Plays(m, b, c')
    ensures Plays(c, a + b, c')
  {
    hide Leads;
    LeadsOn(c.Pool(), a, m.Pool(), b, c'.Pool());
  }

  lemma Dispatches(c: Scene)
    requires c.Fits() && c.n - c.k < 4
    ensures Plays(c, [Dispatch(true, seq(|c.ths|, _ => Q.Out))], c.(n := c.n + 1))
  {
    hide Leads;
    LeadsOne(c.Pool(), Dispatch(true, seq(|c.ths|, _ => Q.Out)));
    assert Next(c.Pool(), Dispatch(true, seq(|c.ths|, _ => Q.Out))).rb == c.(n := c.n + 1).Pool().rb;
  }

  lemma Gets(c: Scene, t: nat)
    requires c.Fits() && c.k < c.n && t < |c.ths| && c.ths[t].phase.Idle?
    ensures Plays(c, [GetEnter(t)], c.(k := c.k + 1, ths := c.ths[t := Thread(0, Got(Nth(c.k)), false, false)]))
  {
    hide Leads;
    LeadsOne(c.Pool(), GetEnter(t));
    var c' := c.(k := c.k + 1, ths := c.ths[t := Thread(0, Got(Nth(c.k)), false, false)]);
    assert Next(c.Pool(), GetEnter(t)).rb == c'.Pool().rb;
  }

  /** A worker's own step in a scene. */
  function Moved(c: Scene, l: Label): Scene
    requires IsLocal(l) && l.t < |c.ths| && Busy(c.ths[l.t])
  {
    var th := c.ths[l.t];
    var x := th.phase.task;
    c.(ths := c.ths[l.t := LocalThread(th, l, c.next)],
       slot := LocalSlot(c.slot, th, l),
       timers := if l.Arm? then c.timers[c.next := Timer(0, l.t, x)]
                 else if l.Decide? && !th.discarded then c.timers - {c.slot.schedId} else c.timers,
       next := if l.Arm? then c.next + 1 else c.next,
       worked := if l.Begin? then c.worked + [x] else c.worked,
       collected := if l.Collect? then c.collected + [x] else c.collected)
  }

  predicate Ready(p: Phase, l: Label) {
    match l
    case Arm(_, added) => p.Got? && added
    case Store(_) => p.Armed?
    case Begin(_) => p.Stored?
    case Finish(_) => p.Working?
    case Decide(_, removed) => p.Worked? && removed
    case Collect(_, ret) => p.Collecting? && !p.task.stop && ret == 0
    case _ => false
  }

  lemma Moves(c: Scene, l: Label)
    requires c.Fits() && IsLocal(l) && l.t < |c.ths| && Ready(c.ths[l.t].phase, l) && c.ths[l.t].phase.task.timeout
    ensures Plays(c, [l], Moved(c, l))
  {
    hide Leads;
    LeadsOne(c.Pool(), l);
    var s', c' := Next(c.Pool(), l), Moved(c, l);
    assert c'.Fits();
    assert s' == c'.Pool();
  }

  /** Thread `t` takes the next task up to its work call. */
  function TakeUp(t: nat): seq<Label> {
    [GetEnter(t)] + [Arm(t, true)] + [Store(t)] + [Begin(t)]
  }

  function Taken(c: Scene, t: nat): Scene
    requires t < |c.ths|
  {
    c.(k := c.k + 1, ths := c.ths[t := Thread(0, Working(Nth(c.k)), false, false)], slot := Slot(Some(t), c.next),
       timers := c.timers[c.next := Timer(0, t, Nth(c.k))], next := c.next + 1, worked := c.worked + [Nth(c.k)])
  }

  lemma TakesUp(c: Scene, t: nat)
    requires c.Fits() && c.k < c.n && t < |c.ths| && c.ths[t].phase.Idle?
    ensures Plays(c, TakeUp(t), Taken(c, t))
  {
    hide Plays;
    Gets(c, t);
    var c1 := c.(k := c.k + 1, ths := c.ths[t := Thread(0, Got(Nth(c.k)), false, false)]);
    Moves(c1, Arm(t, true));
    var c2 := Moved(c1, Arm(t, true));
    PlaysOn(c, [GetEnter(t)], c1, [Arm(t, true)], c2);
    Moves(c2, Store(t));
    var c3 := Moved(c2, Store(t));
    PlaysOn(c, [GetEnter(t)] + [Arm(t, true)], c2, [Store(t)], c3);
    Moves(c3, Begin(t));
    PlaysOn(c, [GetEnter(t)] + [Arm(t, true)] + [Store(t)], c3, [Begin(t)], Moved(c3, Begin(t)));
    assert Moved(c3, Begin(t)).ths == Taken(c, t).ths;
  }

  /** The task that timer `k` was armed for is the one the slot names. */
  predicate Timed(c: Scene, k: nat) {
    && k in c.timers && c.slot.current == Some(c.timers[k].owner)
    && c.timers[k].owner < |c.ths| && HoldsTask(c.ths[c.timers[k].owner], c.timers[k].task)
  }

  function Marked(c: Scene, k: nat): Scene
    requires Timed(c, k)
  {
    var t := c.timers[k].owner;
    c.(ths := c.ths[t := c.ths[t].(discarded := true, fired := true)], timers := c.timers - {k}, replacing := Some(0))
  }

  function Replaced(c: Scene): Scene {
    c.(ths := c.ths + [Thread(0, Idle, false, false)], slot := Slot(None, 0), replacing := None)
  }

  lemma Marks(c: Scene, k: nat)
    requires c.Fits() && c.replacing.None? && Timed(c, k)
    ensures Plays(c, [Mark(k)], Marked(c, k))
  {
    hide Leads;
    LeadsOne(c.Pool(), Mark(k));
    assert Next(c.Pool(), Mark(k)).threads == Marked(c, k).ths;
  }

  lemma Replaces(c: Scene)
    requires c.Fits() && c.replacing.Some?
    ensures Plays(c, [Replace(true)], Replaced(c))
  {
    hide Leads;
    LeadsOne(c.Pool(), Replace(true));
    var s', c' := Next(c.Pool(), Replace(true)), Replaced(c);
    assert s'.rb == c'.Pool().rb && s'.slots == [c'.slot];
  }

  const Started := Scene(0, 0, [Thread(0, Idle, false, false)], Slot(None, 0), map[], 1, None, [], [])

  lemma StartBegins()
    ensures var s := Fresh(1, 4); Leads(s, [StartBegin], s.(running := true, begun := true, toStart := 1))
  {
    hide Leads;
    LeadsOne(Fresh(1, 4), StartBegin);
  }

  lemma StartEnds()
    ensures Leads(Fresh(1, 4).(running := true, begun := true, toStart := 1), [StartOne(true)], Started.Pool())
  {
    hide Leads;
    var s := Fresh(1, 4).(running := true, begun := true, toStart := 1);
    LeadsOne(s, StartOne(true));
    SpawnIs(s, StartOne(true));
    hide Next;
    var s' := Next(s, StartOne(true));
    assert s'.rb == Started.Pool().rb && s'.slots == [Started.slot] && s'.threads == Started.ths;
  }

  lemma Starts()
    ensures Leads(Fresh(1, 4), [StartBegin] + [StartOne(true)], Started.Pool())
  {
    hide Leads;
    StartBegins();
    StartEnds();
    LeadsOn(Fresh(1, 4), [StartBegin], Fresh(1, 4).(running := true, begun := true, toStart := 1), [StartOne(true)],
      Started.Pool());
  }

  // ---- the three runs

  function First(): Scene { Taken(Started.(n := 2), 0) }

  lemma PlaysFirst()
    ensures Plays(Started, [Dispatch(true, [Q.Out])] + [Dispatch(true, [Q.Out])] + TakeUp(0), First())
  {
    hide Plays, TakeUp;
    var d := Dispatch(true, [Q.Out]);
    assert seq(|Started.ths|, _ => Q.Out) == [Q.Out];
    assert Started.Fits();
    Dispatches(Started);
    Dispatches(Started.(n := 1));
    PlaysOn(Started, [d], Started.(n := 1), [d], Started.(n := 2));
    TakesUp(Started.(n := 2), 0);
    PlaysOn(Started, [d] + [d], Started.(n := 2), TakeUp(0), First());
  }

  lemma FirstIs()
    ensures var c := First();
      && c.Fits() && c.n == 2 && c.k == 1 && c.next == 2 && c.replacing.None? && c.timers == map[1 := Timer(0, 0, Nth(0))]
      && c.slot == Slot(Some(0), 1) && c.ths == [Thread(0, Working(Nth(0)), false, false)]
  {
  }

  /** Thread 0 is given up on while it works, and its replacement takes a task. */
  function Second(): Scene {
    FirstIs();
    Taken(Replaced(Marked(First(), 1)), 1)
  }

  lemma PlaysSecond()
    ensures Plays(First(), [Mark(1)] + [Replace(true)] + TakeUp(1), Second())
  {
    hide Plays, TakeUp, First;
    FirstIs();
    var c1 := Marked(First(), 1);
    var c2 := Replaced(c1);
    Marks(First(), 1);
    Replaces(c1);
    PlaysOn(First(), [Mark(1)], c1, [Replace(true)], c2);
    TakesUp(c2, 1);
    PlaysOn(First(), [Mark(1)] + [Replace(true)], c2, TakeUp(1), Second());
  }

  lemma SecondIs()
    ensures var c := Second();
      && c.Fits() && c.n == c.k == 2 && c.next == 3 && c.replacing.None? && c.timers == map[2 := Timer(0, 1, Nth(1))]
      && c.slot == Slot(Some(1), 2)
      && c.ths == [Thread(0, Working(Nth(0)), true, true), Thread(0, Working(Nth(1)), false, false)]
  {
    hide First;
    FirstIs();
  }

  /** Then thread 0 comes back. */
  function Missed(): Scene {
    SecondIs();
    Moved(Second(), Finish(0))
  }

  function MissLabels(): seq<Label> {
    [Dispatch(true, [Q.Out])] + [Dispatch(true, [Q.Out])] + TakeUp(0)
    + ([Mark(1)] + [Replace(true)] + TakeUp(1)) + [Finish(0)]
  }

  lemma PlaysMiss()
    ensures Plays(Started, MissLabels(), Missed())
  {
    hide Plays, TakeUp, First, Second;
    var d := Dispatch(true, [Q.Out]);
    PlaysFirst();
    PlaysSecond();
    PlaysOn(Started, [d] + [d] + TakeUp(0), First(), [Mark(1)] + [Replace(true)] + TakeUp(1), Second());
    SecondIs();
    Moves(Second(), Finish(0));
    PlaysOn(Started, [d] + [d] + TakeUp(0) + ([Mark(1)] + [Replace(true)] + TakeUp(1)), Second(), [Finish(0)], Missed());
  }

  lemma MissedIs()
    ensures var c := Missed();
      && c.Fits() && c.n == c.k == 2 && c.next == 3 && c.replacing.None? && c.timers == map[2 := Timer(0, 1, Nth(1))]
      && c.slot == Slot(None, 2)
      && c.ths == [Thread(0, Worked(Nth(0)), true, true), Thread(0, Working(Nth(1)), false, false)]
  {
    hide Second;
    SecondIs();
  }

  /** Thread 0 goes on and is free again. */
  function Again(): Scene {
    MissedIs();
    Moved(Moved(Missed(), Decide(0, true)), Collect(0, 0))
  }

  lemma PlaysAgain()
    ensures Plays(Missed(), [Decide(0, true)] + [Collect(0, 0)], Again())
  {
    hide Plays, Missed;
    MissedIs();
    var c := Moved(Missed(), Decide(0, true));
    Moves(Missed(), Decide(0, true));
    Moves(c, Collect(0, 0));
    PlaysOn(Missed(), [Decide(0, true)], c, [Collect(0, 0)], Again());
  }

  lemma AgainIs()
    ensures var c := Again();
      && c.Fits() && c.n == c.k == 2 && c.next == 3 && c.replacing.None? && c.timers == map[2 := Timer(0, 1, Nth(1))]
      && c.slot == Slot(None, 2)
      && c.ths == [Thread(0, Idle, false, false), Thread(0, Working(Nth(1)), false, false)]
  {
    hide Missed;
    MissedIs();
  }

  /** It takes another task and stays in it. */
  function Third(): Scene {
    AgainIs();
    Taken(Again().(n := 3), 0)
  }

  lemma PlaysThird()
    ensures Plays(Again(), [Dispatch(true, [Q.Out, Q.Out])] + TakeUp(0), Third())
  {
    hide Plays, TakeUp, Again;
    AgainIs();
    var d, c := Dispatch(true, [Q.Out, Q.Out]), Again();
    assert seq(|c.ths|, _ => Q.Out) == [Q.Out, Q.Out];
    Dispatches(c);
    TakesUp(c.(n := 3), 0);
    PlaysOn(c, [d], c.(n := 3), TakeUp(0), Third());
  }

  lemma ThirdIs()
    ensures var c := Third();
      && c.Fits() && c.n == c.k == 3 && c.replacing.None? && c.slot == Slot(Some(0), 3)
      && c.timers == map[2 := Timer(0, 1, Nth(1)), 3 := Timer(0, 0, Nth(2))]
      && c.ths == [Thread(0, Working(Nth(2)), false, false), Thread(0, Working(Nth(1)), false, false)]
  {
    hide Again;
    AgainIs();
  }

  /** The run goes on after `MissLabels`. */
  function MixLabels(): seq<Label> {
    [Decide(0, true)] + [Collect(0, 0)] + ([Dispatch(true, [Q.Out, Q.Out])] + TakeUp(0))
  }

  lemma PlaysMix()
    ensures Plays(Missed(), MixLabels(), Third())
  {
    hide Plays, TakeUp, Missed, Again, Third;
    PlaysAgain();
    PlaysThird();
    PlaysOn(Missed(), [Decide(0, true)] + [Collect(0, 0)], Again(), [Dispatch(true, [Q.Out, Q.Out])] + TakeUp(0), Third());
  }

  /** Then thread 1 gets done. */
  function Lost(): Scene {
    ThirdIs();
    Moved(Third(), Finish(1))
  }

  lemma LostIs()
    ensures var c := Lost();
      && c.Fits() && c.n == c.k == 3 && c.replacing.None? && c.slot == Slot(None, 3)
      && c.timers == map[2 := Timer(0, 1, Nth(1)), 3 := Timer(0, 0, Nth(2))]
      && c.ths == [Thread(0, Working(Nth(2)), false, false), Thread(0, Worked(Nth(1)), false, false)]
  {
    hide Third;
    ThirdIs();
  }

  function LossLabels(): seq<Label> {
    MixLabels() + [Finish(1)]
  }

  lemma PlaysLoss()
    ensures Plays(Missed(), LossLabels(), Lost())
  {
    hide Plays, MixLabels, Missed, Third;
    PlaysMix();
    ThirdIs();
    Moves(Third(), Finish(1));
    PlaysOn(Missed(), MixLabels(), Third(), [Finish(1)], Lost());
  }

  /** Thread `t`'s own timer `k` is about to go off during its work call and will
      not discard its task. */
  ghost predicate MissesDiscard(s: Pool, k: nat, t: nat) {
    && Wired(s) && Enabled(s, Mark(k)) && Own(s, k, t) && s.threads[t].phase.Working?
    && !Next(s, Mark(k)).threads[t].discarded
  }

  /** Thread `t`, done in time, is about to remove the timer of thread `u`, which
      is at work and will have none, and to leave its own timer `k`. */
  ghost predicate TakesAnothers(s: Pool, t: nat, k: nat, u: nat) {
    && Wired(s) && Enabled(s, Decide(t, true)) && !s.threads[t].discarded && Own(s, k, t)
    && (exists j :: Own(s, j, u)) && s.threads[u].phase.Working?
    && var s' := Next(s, Decide(t, true));
       k in s'.timers && PhaseOf(s', u).Working? && forall j :: !Own(s', j, u)
  }

  /** The timer `k` of thread `t` is about to discard the task of thread `u`, which
      is at work with a timer of its own still to go off, and not its owner's. */
  ghost predicate DiscardsAnothers(s: Pool, k: nat, t: nat, u: nat) {
    && Wired(s) && Enabled(s, Mark(k)) && Own(s, k, t) && s.threads[t].phase.Working? && u != t
    && (exists j :: j != k && Own(s, j, u)) && s.threads[u].phase.Working? && !s.threads[u].discarded
    && var s' := Next(s, Mark(k)); s'.threads[u].discarded && !s'.threads[t].discarded
  }

  lemma ThirdMixes()
    ensures DiscardsAnothers(Third().Pool(), 2, 1, 0)
  {
    hide Third;
    ThirdIs();
    assert Own(Third().Pool(), 3, 0);
  }

  lemma MissedMisses()
    ensures MissesDiscard(Missed().Pool(), 2, 1)
  {
    hide Missed;
    MissedIs();
  }

  lemma LostTakes()
    ensures TakesAnothers(Lost().Pool(), 1, 2, 0)
  {
    hide Lost;
    LostIs();
    assert Own(Lost().Pool(), 3, 0);
  }

  /** A run of a pool of one slot whose threads could all be created, and whose end
      misses a discard. */
  lemma DiscardIsMissed()
    ensures var ls := [StartBegin] + [StartOne(true)] + MissLabels();
      Run(Fresh(1, 4), ls) && MissesDiscard(End(Fresh(1, 4), ls), 2, 1) && End(Fresh(1, 4), ls).steady
  {
    hide Run, End, MissLabels, MissesDiscard, Missed;
    Starts();
    PlaysMiss();
    LeadsOn(Fresh(1, 4), [StartBegin] + [StartOne(true)], Started.Pool(), MissLabels(), Missed().Pool());
    MissedMisses();
  }

  /** The same run goes on until the late timer hits a task that is in time. */
  lemma WrongTaskIsDiscarded()
    ensures var ls := [StartBegin] + [StartOne(true)] + (MissLabels() + MixLabels());
      Run(Fresh(1, 4), ls) && DiscardsAnothers(End(Fresh(1, 4), ls), 2, 1, 0) && End(Fresh(1, 4), ls).steady
  {
    hide Run, End, MissLabels, MixLabels, DiscardsAnothers, Missed, Third;
    Starts();
    PlaysMiss();
    PlaysMix();
    PlaysOn(Started, MissLabels(), Missed(), MixLabels(), Third());
    LeadsOn(Fresh(1, 4), [StartBegin] + [StartOne(true)], Started.Pool(), MissLabels() + MixLabels(), Third().Pool());
    ThirdMixes();
  }

  /** The same run goes on until a worker is left without its timer. */
  lemma TimerIsLost()
    ensures var ls := [StartBegin] + [StartOne(true)] + (MissLabels() + LossLabels());
      Run(Fresh(1, 4), ls) && TakesAnothers(End(Fresh(1, 4), ls), 1, 2, 0) && End(Fresh(1, 4), ls).steady
  {
    hide Run, End, MissLabels, LossLabels, TakesAnothers, Missed, Lost;
    Starts();
    PlaysMiss();
    PlaysLoss();
    PlaysOn(Started, MissLabels(), Missed(), LossLabels(), Lost());
    LeadsOn(Fresh(1, 4), [StartBegin] + [StartOne(true)], Started.Pool(), MissLabels() + LossLabels(), Lost().Pool());
    LostTakes();
  }
}
