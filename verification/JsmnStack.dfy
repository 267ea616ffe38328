/** The tokenizer keeps no stack. This is the tokenizer that does, and the proof
    that the backward scans compute exactly what its stack holds. */
module JsmnStack {
  import opened JsmnLexer
  import opened JsmnMachine
  import opened JsmnInvariants

  ghost predicate InRange(stack: seq<nat>, n: nat) {
    forall i :: 0 <= i < |stack| ==> stack[i] < n
  }

  function Top(stack: seq<nat>): int {
    if stack == [] then -1 else stack[|stack| - 1]
  }

  /** A turn that pushes and pops and never looks for an open token. */
  function StackApply(cfg: Config, st: State, stack: seq<nat>, ev: Event, next: nat): (r: (Step, seq<nat>))
    requires InRange(stack, |st.toks|)
    ensures r.0.Go? ==> InRange(r.1, |r.0.st.toks|) && r.0.st.pos == next
  {
    match ev
    case Open(k) => (Apply(cfg, st, ev, next), stack + [|st.toks|])
    case Close(k) =>
      if stack == [] || st.toks[Top(stack)].kind != k then (Halt(Inval), stack)
      else
        var rest := stack[..|stack| - 1];
        var t := st.toks[Top(stack)].(end := st.pos + 1);
        (Go(State(next, Top(rest), st.toks[Top(stack) := t])), rest)
    case Comma =>
      var inContainer := 0 <= st.super < |st.toks| && st.toks[st.super].kind.IsContainer();
      var super' := if stack == [] || inContainer then st.super else Top(stack);
      (Go(st.(pos := next, super := super')), stack)
    case _ => (Apply(cfg, st, ev, next), stack)
  }

  function StackRun(cfg: Config, js: string, st: State, stack: seq<nat>, count: nat): (Reply, State)
    requires InRange(stack, |st.toks|)
    decreases |js| - st.pos
  {
    if AtEnd(js, st.pos) then
      (if stack != [] then Part else Tokens(count), st)
    else
      match Read(js, st.pos)
      case Failed(invalid) => (if invalid then Inval else Part, st)
      case Reading(ev, next) =>
        var (step, stack') := StackApply(cfg, st, stack, ev, next);
        match step
        case Halt(reply) => (reply, st)
        case Go(st') => StackRun(cfg, js, st', stack', count + Made(js, st.pos))
  }

  /** The open tokens, outermost first. */
  function Stack(toks: seq<Token>): (s: seq<nat>)
    ensures InRange(s, |toks|)
    ensures forall i :: 0 <= i < |s| ==> toks[s[i]].IsOpen()
  {
    if toks == [] then []
    else
      var n := |toks| - 1;
      Stack(toks[..n]) + if toks[n].IsOpen() then [n] else []
  }

  lemma {:induction false} StackSame(a: seq<Token>, b: seq<Token>)
    requires |a| == |b| && forall i :: 0 <= i < |a| ==> a[i].IsOpen() == b[i].IsOpen()
    ensures Stack(a) == Stack(b)
  {
    if a != [] {
      StackSame(a[..|a| - 1], b[..|b| - 1]);
    }
  }

  lemma StackAfterMake(toks: seq<Token>, s: int, t: Token)
    ensures Stack(BumpBy(toks, s, 1) + [t]) == Stack(toks) + if t.IsOpen() then [|toks|] else []
  {
    var bumped := BumpBy(toks, s, 1);
    StackSame(toks, bumped);
    hide BumpBy;
    assert (bumped + [t])[..|toks|] == bumped;
  }

  /** A backward scan from `n` finds the top of the stack below `n`. */
  lemma {:induction false} ScanFindsTop(toks: seq<Token>, n: nat)
    requires n <= |toks|
    ensures LastOpen(toks, n) == Top(Stack(toks[..n]))
  {
    if n > 0 {
      assert toks[..n][..n - 1] == toks[..n - 1];
      ScanFindsTop(toks, n - 1);
    }
  }

  /** Everything above the last open token is closed, so it holds the top and
      the part below it the rest of the stack. */
  lemma {:induction false} StackSplits(toks: seq<Token>, n: nat)
    requires n <= |toks| && LastOpen(toks, n) != -1
    ensures Stack(toks[..n]) == Stack(toks[..LastOpen(toks, n)]) + [LastOpen(toks, n)]
  {
    assert toks[..n][..n - 1] == toks[..n - 1];
    if !toks[n - 1].IsOpen() {
      StackSplits(toks, n - 1);
    }
  }

  lemma {:induction false} StackClosedTail(toks: seq<Token>, i: nat, n: nat)
    requires i <= n <= |toks| && forall j :: i <= j < n ==> !toks[j].IsOpen()
    ensures Stack(toks[..n]) == Stack(toks[..i])
  {
    if i < n {
      assert toks[..n][..n - 1] == toks[..n - 1];
      StackClosedTail(toks, i, n - 1);
    }
  }

  /** Closing the last open token pops the stack, and the second scan of the
      closing-bracket case finds the new top. */
  lemma StackAfterClose(toks: seq<Token>, t: Token)
    requires LastOpen(toks, |toks|) != -1 && !t.IsOpen()
    ensures var i := LastOpen(toks, |toks|);
      && Stack(toks) == Stack(toks[i := t]) + [i]
      && LastOpen(toks, i) == Top(Stack(toks[i := t]))
  {
    var i := LastOpen(toks, |toks|);
    var closed := toks[i := t];
    assert toks[..|toks|] == toks && closed[..|toks|] == closed && closed[..i] == toks[..i];
    StackSplits(toks, |toks|);
    StackClosedTail(closed, i, |toks|);
    ScanFindsTop(toks, i);
  }

  lemma CloseRefinesStack(cfg: Config, st: State, kind: Kind, next: nat)
    ensures var (step, stack) := StackApply(cfg, st, Stack(st.toks), Close(kind), next);
      && step == CloseScan(st, kind, next)
      && (step.Go? ==> stack == Stack(step.st.toks))
  {
    hide Stack, LastOpen;
    assert st.toks[..|st.toks|] == st.toks;
    ScanFindsTop(st.toks, |st.toks|);
    var i := LastOpen(st.toks, |st.toks|);
    if i != -1 {
      StackAfterClose(st.toks, st.toks[i].(end := st.pos + 1));
    }
  }

  lemma CommaRefinesStack(cfg: Config, st: State)
    requires cfg.build.Scan? && Inv(st)
    ensures StackApply(cfg, st, Stack(st.toks), Comma, 0).0 == Go(st.(pos := 0, super := CommaSuper(cfg, st)))
  {
    assert st.toks[..|st.toks|] == st.toks;
    ScanFindsTop(st.toks, |st.toks|);
    assert forall i :: 0 <= i < |st.toks| ==> InText(st.pos, st.toks[i]);
    ScansAgree(st.toks);
  }

  /** One event: same step, and the stack of the result is the result's stack. */
  lemma ApplyRefinesStack(cfg: Config, st: State, ev: Event, next: nat)
    requires cfg.build.Scan? && Inv(st)
    ensures var (step, stack) := StackApply(cfg, st, Stack(st.toks), ev, next);
      && step == Apply(cfg, st, ev, next)
      && (step.Go? ==> stack == Stack(step.st.toks))
  {
    match ev
    case Open(k) => StackAfterMake(st.toks, st.super, Token(k, st.pos, -1, 0, st.super));
    case Leaf(k, s, e) => StackAfterMake(st.toks, st.super, Token(k, s, e, 0, st.super));
    case Close(k) => CloseRefinesStack(cfg, st, k, next);
    case Comma => CommaRefinesStack(cfg, st);
    case _ =>
  }

  lemma TurnRefinesStack(cfg: Config, js: string, st: State)
    requires cfg.build.Scan? && Inv(st) && !AtEnd(js, st.pos) && Read(js, st.pos).Reading?
    ensures var r, step := Read(js, st.pos), Turn(cfg, js, st);
      var s := StackApply(cfg, st, Stack(st.toks), r.ev, r.next);
      s.0 == step && (step.Go? ==> Inv(step.st) && s.1 == Stack(step.st.toks))
  {
    var r := Read(js, st.pos);
    ApplyRefinesStack(cfg, st, r.ev, r.next);
    TurnKeepsInv(cfg, js, st);
  }

  /** The tokenizer without a stack and the one with it are the same function of
      the text, from every state the tokenizer can be left in. */
  lemma {:induction false} RunRefinesStack(cfg: Config, js: string, st: State, count: nat)
    requires cfg.build.Scan? && Inv(st)
    ensures Run(cfg, js, st, count) == StackRun(cfg, js, st, Stack(st.toks), count)
    decreases |js| - st.pos
  {
    hide Inv, StackApply, Apply, Stack;
    if AtEnd(js, st.pos) {
      assert st.toks[..|st.toks|] == st.toks;
      ScanFindsTop(st.toks, |st.toks|);
    } else if Read(js, st.pos).Reading? {
      TurnRefinesStack(cfg, js, st);
      var step := Turn(cfg, js, st);
      if step.Go? {
        RunRefinesStack(cfg, js, step.st, count + Made(js, st.pos));
      }
    }
  }

  /** What memory holds before the token array never matters. */
  lemma {:induction false} JunkIsIrrelevant(cfg: Config, junk: Token, js: string, st: State, count: nat)
    requires cfg.build.Scan? && Inv(st)
    ensures Run(cfg, js, st, count) == Run(cfg.(junk := junk), js, st, count)
    decreases |js| - st.pos
  {
    RunRefinesStack(cfg, js, st, count);
    RunRefinesStack(cfg.(junk := junk), js, st, count);
    JunkFreeStack(cfg, junk, js, st, Stack(st.toks), count);
  }

  /** A turn of the stack tokenizer never looks at the junk. */
  lemma JunkFreeTurn(cfg: Config, junk: Token, st: State, stack: seq<nat>, ev: Event, next: nat)
    requires cfg.build.Scan? && InRange(stack, |st.toks|)
    ensures StackApply(cfg, st, stack, ev, next) == StackApply(cfg.(junk := junk), st, stack, ev, next)
  {
  }

  lemma {:induction false} JunkFreeStack(cfg: Config, junk: Token, js: string, st: State, stack: seq<nat>, count: nat)
    requires cfg.build.Scan? && InRange(stack, |st.toks|)
    ensures StackRun(cfg, js, st, stack, count) == StackRun(cfg.(junk := junk), js, st, stack, count)
    decreases |js| - st.pos
  {
    hide Read, StackApply, InRange;
    if !AtEnd(js, st.pos) {
      var r := Read(js, st.pos);
      if r.Reading? {
        JunkFreeTurn(cfg, junk, st, stack, r.ev, r.next);
        var (step, stack') := StackApply(cfg, st, stack, r.ev, r.next);
        if step.Go? {
          JunkFreeStack(cfg, junk, js, step.st, stack', count + Made(js, st.pos));
        }
      }
    }
  }
}
