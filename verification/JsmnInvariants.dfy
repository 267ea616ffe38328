/** What every turn of the default build keeps, whatever the text. */
module JsmnInvariants {
  import opened JsmnLexer
  import opened JsmnMachine

  /** Starts increase strictly, and a closed token is nested in or disjoint from
      every later one; so the open tokens form one nesting chain. */
  ghost predicate Spans(pos: nat, toks: seq<Token>) {
    && (forall i :: 0 <= i < |toks| ==> InText(pos, toks[i]))
    && (forall i, j :: 0 <= i < j < |toks| ==> toks[i].start < toks[j].start)
    && (forall i, j :: 0 <= i < j < |toks| ==> Nested(toks[i], toks[j]))
  }

  ghost predicate InText(pos: nat, t: Token) {
    && 0 <= t.start < pos
    && (t.end == -1 || t.start <= t.end <= pos)
    && (t.end == -1 ==> t.kind.IsContainer())
  }

  /** How a token `a` sits with a later one `b`. */
  ghost predicate Nested(a: Token, b: Token) {
    a.end == -1 || a.end <= b.start || (b.end != -1 && b.end <= a.end)
  }

  /** How many tokens were made while `k` was superior. */
  function Children(toks: seq<Token>, k: int): (n: nat) {
    if |toks| == 0 then 0
    else Children(toks[..|toks| - 1], k) + (if toks[|toks| - 1].parent == k then 1 else 0)
  }

  function SizeSum(toks: seq<Token>): (n: int) {
    if |toks| == 0 then 0 else SizeSum(toks[..|toks| - 1]) + toks[|toks| - 1].size
  }

  /** Every size counts the tokens made under it, and parents come first. */
  ghost predicate Sized(toks: seq<Token>) {
    && (forall i :: 0 <= i < |toks| ==> -1 <= toks[i].parent < i)
    && (forall i :: 0 <= i < |toks| ==> toks[i].size == Children(toks, i))
    && SizeSum(toks) + Children(toks, -1) == |toks|
  }

  ghost predicate Inv(st: State) {
    && Spans(st.pos, st.toks)
    && Sized(st.toks)
    && -1 <= st.super < |st.toks|
    && (st.super == -1 ==> LastOpen(st.toks, |st.toks|) == -1)
  }

  // ---- sizes

  lemma {:induction false} ChildrenSame(a: seq<Token>, b: seq<Token>, k: int)
    requires |a| == |b| && forall i :: 0 <= i < |a| ==> a[i].parent == b[i].parent
    ensures Children(a, k) == Children(b, k)
  {
    if |a| > 0 {
      ChildrenSame(a[..|a| - 1], b[..|b| - 1], k);
    }
  }

  /** Only later tokens count, so a size never exceeds what follows the token. */
  lemma {:induction false} ChildrenBound(toks: seq<Token>, k: int)
    requires forall i :: 0 <= i < |toks| ==> toks[i].parent < i
    requires 0 <= k
    ensures Children(toks, k) <= if k < |toks| then |toks| - 1 - k else 0
  {
    if |toks| > 0 {
      ChildrenBound(toks[..|toks| - 1], k);
    }
  }

  /** A walk that trusts a size stays below `toknext`. */
  lemma SizeStaysInside(st: State, k: nat)
    requires Inv(st) && k < |st.toks|
    ensures 0 <= st.toks[k].size <= |st.toks| - 1 - k
  {
    ChildrenBound(st.toks, k);
  }

  lemma {:induction false} SizeSumBump(toks: seq<Token>, s: int)
    ensures SizeSum(BumpBy(toks, s, 1)) == SizeSum(toks) + (if 0 <= s < |toks| then 1 else 0)
  {
    if |toks| > 0 {
      var n := |toks| - 1;
      SizeSumBump(toks[..n], s);
      assert BumpBy(toks, s, 1)[..n] == BumpBy(toks[..n], s, 1);
    }
  }

  lemma {:induction false} SizeSumSame(a: seq<Token>, b: seq<Token>)
    requires |a| == |b| && forall i :: 0 <= i < |a| ==> a[i].size == b[i].size
    ensures SizeSum(a) == SizeSum(b)
  {
    if |a| > 0 {
      SizeSumSame(a[..|a| - 1], b[..|b| - 1]);
    }
  }

  lemma SizedAfterMake(toks: seq<Token>, s: int, t: Token)
    requires Sized(toks) && -1 <= s < |toks|
    requires t.size == 0 && t.parent == s
    ensures Sized(BumpBy(toks, s, 1) + [t])
  {
    var made := BumpBy(toks, s, 1) + [t];
    assert made[..|toks|] == BumpBy(toks, s, 1);
    forall i | 0 <= i < |made|
      ensures made[i].size == Children(made, i)
    {
      ChildrenSame(BumpBy(toks, s, 1), toks, i);
      ChildrenBound(toks, i);
    }
    ChildrenSame(BumpBy(toks, s, 1), toks, -1);
    SizeSumBump(toks, s);
  }

  lemma SizedAfterClose(toks: seq<Token>, i: nat, t: Token)
    requires Sized(toks) && i < |toks|
    requires t.parent == toks[i].parent && t.size == toks[i].size
    ensures Sized(toks[i := t])
  {
    forall k {
      ChildrenSame(toks, toks[i := t], k);
    }
    SizeSumSame(toks, toks[i := t]);
  }

  // ---- one turn, then a whole call

  lemma ScansAgree(toks: seq<Token>)
    requires forall i :: 0 <= i < |toks| ==> toks[i].IsOpen() ==> toks[i].kind.IsContainer()
    ensures LastOpenContainer(toks, |toks|) == LastOpen(toks, |toks|)
  {
    var c, o := LastOpenContainer(toks, |toks|), LastOpen(toks, |toks|);
    assert c >= 0 ==> toks[c].IsOpen();
    assert o >= 0 ==> toks[o].IsOpen() && toks[o].kind.IsContainer();
  }

  lemma LastOpenIsNone(toks: seq<Token>)
    ensures LastOpen(toks, |toks|) == -1 <==> forall i :: 0 <= i < |toks| ==> !toks[i].IsOpen()
  {
  }

  lemma SpansAfterMake(pos: nat, toks: seq<Token>, s: int, t: Token, next: nat)
    requires Spans(pos, toks) && pos <= t.start < next && InText(next, t)
    ensures Spans(next, BumpBy(toks, s, 1) + [t])
  {
    var made := BumpBy(toks, s, 1) + [t];
    forall i | 0 <= i < |toks|
      ensures InText(next, made[i]) && Nested(made[i], t) && made[i].start < t.start
    {
      assert InText(pos, toks[i]);
    }
    forall i, j | 0 <= i < j < |toks|
      ensures made[i].start < made[j].start && Nested(made[i], made[j])
    {
      assert Nested(toks[i], toks[j]);
    }
  }

  lemma MakeKeepsInv(cfg: Config, st: State, t: Token, next: nat, super': int)
    requires Inv(st) && st.pos <= t.start < next && InText(next, t)
    requires t.size == 0 && t.parent == st.super
    requires super' == (if t.end == -1 then |st.toks| else st.super)
    ensures var step := MakeToken(cfg, st, t, next, super'); step.Go? ==> Inv(step.st)
  {
    hide Spans, Sized;
    SizedAfterMake(st.toks, st.super, t);
    SpansAfterMake(st.pos, st.toks, st.super, t, next);
    if super' == -1 {
      LastOpenIsNone(st.toks);
      LastOpenIsNone(BumpBy(st.toks, st.super, 1) + [t]);
    }
  }

  lemma SpansAfterClose(pos: nat, toks: seq<Token>, i: nat)
    requires Spans(pos, toks)
    requires i < |toks| && i == LastOpen(toks, |toks|)
    ensures Spans(pos + 1, toks[i := toks[i].(end := pos + 1)])
  {
    var closed := toks[i := toks[i].(end := pos + 1)];
    forall a | 0 <= a < |closed|
      ensures InText(pos + 1, closed[a])
    {
      assert InText(pos, toks[a]);
    }
    forall a, b | 0 <= a < b < |closed|
      ensures Nested(closed[a], closed[b])
    {
      assert Nested(toks[a], toks[b]) && InText(pos, toks[b]) && toks[a].start < toks[b].start;
    }
  }

  /** Once the innermost open token is closed, the next one out is innermost. */
  lemma LastOpenAfterClose(toks: seq<Token>, i: nat, t: Token)
    requires i < |toks| && i == LastOpen(toks, |toks|) && !t.IsOpen()
    ensures LastOpen(toks[i := t], |toks|) == LastOpen(toks, i)
  {
    var closed := toks[i := t];
    var o := LastOpen(toks, i);
    assert o >= 0 ==> closed[o].IsOpen();
    assert forall j :: o < j < |closed| ==> !closed[j].IsOpen();
  }

  lemma CloseKeepsInv(st: State, i: nat)
    requires Inv(st) && i < |st.toks| && i == LastOpen(st.toks, |st.toks|)
    ensures Inv(State(st.pos + 1, LastOpen(st.toks, i), st.toks[i := st.toks[i].(end := st.pos + 1)]))
  {
    var t := st.toks[i].(end := st.pos + 1);
    SizedAfterClose(st.toks, i, t);
    assert Spans(st.pos + 1, st.toks[i := t]) by { SpansAfterClose(st.pos, st.toks, i); }
    LastOpenAfterClose(st.toks, i, t);
  }

  lemma MoveKeepsInv(st: State, next: nat, super': int)
    requires Inv(st) && st.pos <= next && -1 <= super' < |st.toks|
    requires super' == -1 ==> LastOpen(st.toks, |st.toks|) == -1
    ensures Inv(State(next, super', st.toks))
  {
    assert forall i :: 0 <= i < |st.toks| ==> InText(st.pos, st.toks[i]) ==> InText(next, st.toks[i]);
  }

  lemma CommaSuperFits(cfg: Config, st: State)
    requires cfg.build.Scan? && -1 <= st.super < |st.toks|
    requires st.super == -1 ==> LastOpen(st.toks, |st.toks|) == -1
    ensures -1 <= CommaSuper(cfg, st) < |st.toks|
    ensures CommaSuper(cfg, st) == -1 ==> st.super == -1
  {
  }

  lemma ApplyKeepsInv(cfg: Config, st: State, ev: Event, next: nat)
    requires cfg.build.Scan? && Inv(st) && st.pos < next
    requires ev.Open? ==> ev.kind.IsContainer()
    requires ev.Close? ==> next == st.pos + 1
    requires ev.Leaf? ==> st.pos <= ev.start <= ev.end <= next && ev.start < next
    ensures var step := Apply(cfg, st, ev, next); step.Go? ==> Inv(step.st)
  {
    hide Spans, Sized;
    match ev
    case Open(k) => MakeKeepsInv(cfg, st, Token(k, st.pos, -1, 0, st.super), next, |st.toks|);
    case Leaf(k, s, e) => MakeKeepsInv(cfg, st, Token(k, s, e, 0, st.super), next, st.super);
    case Close(k) =>
      var i := LastOpen(st.toks, |st.toks|);
      if i != -1 {
        CloseKeepsInv(st, i);
      }
    case Comma =>
      CommaSuperFits(cfg, st);
      MoveKeepsInv(st, next, CommaSuper(cfg, st));
    case Colon => MoveKeepsInv(st, next, |st.toks| - 1);
    case Blank => MoveKeepsInv(st, next, st.super);
  }

  /** Every turn keeps the invariant. */
  lemma TurnKeepsInv(cfg: Config, js: string, st: State)
    requires cfg.build.Scan? && Inv(st) && !AtEnd(js, st.pos)
    ensures var step := Turn(cfg, js, st); step.Go? ==> Inv(step.st)
  {
    var r := Read(js, st.pos);
    if r.Reading? {
      ApplyKeepsInv(cfg, st, r.ev, r.next);
    }
  }

  /** So does a call, however it ends and wherever it started. */
  lemma {:induction false} RunKeepsInv(cfg: Config, js: string, st: State, count: nat)
    requires cfg.build.Scan? && Inv(st)
    ensures Inv(Run(cfg, js, st, count).1)
    decreases |js| - st.pos
  {
    hide Inv, Turn;
    if !AtEnd(js, st.pos) {
      TurnKeepsInv(cfg, js, st);
      var step := Turn(cfg, js, st);
      if step.Go? {
        RunKeepsInv(cfg, js, step.st, count + Made(js, st.pos));
      }
    }
  }
}
