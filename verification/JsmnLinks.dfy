/** The build with parent links on every text, JSON or not: it goes in step with the
    default build as long as that one goes on. */
module JsmnLinks {
  import opened JsmnLexer
  import opened JsmnMachine

  /** What a comma finds before the token array does not lead into it. */
  predicate Benign(cfg: Config) {
    cfg.junk.kind.IsContainer() || cfg.junk.parent == -1
  }

  /** The nearest open token up the chain from `i`, where -1 is no token. */
  function OpenFrom(toks: seq<Token>, i: int): int
    requires i < |toks|
  {
    if i < 0 then -1 else OpenAncestor(toks, i)
  }

  /** Links lead to earlier tokens or to none, only containers are open, and from an
      open token's parent the chain leads to the next open token below it. */
  ghost predicate Chained(toks: seq<Token>) {
    && (forall i :: 0 <= i < |toks| ==> -1 <= toks[i].parent < i)
    && (forall i :: 0 <= i < |toks| && toks[i].IsOpen() ==>
          toks[i].kind.IsContainer() && OpenFrom(toks, toks[i].parent) == LastOpen(toks, i))
  }

  /** So do the chains from the superior and from the last token. */
  ghost predicate Linked(st: State) {
    && Chained(st.toks) && -1 <= st.super < |st.toks|
    && OpenFrom(st.toks, st.super) == LastOpen(st.toks, |st.toks|)
    && OpenFrom(st.toks, |st.toks| - 1) == LastOpen(st.toks, |st.toks|)
  }

  /** Two tokens of the same kind and place; sizes and parents may differ. */
  predicate SameSpan(a: Token, b: Token) {
    a.kind == b.kind && a.start == b.start && a.end == b.end
  }

  ghost predicate Alike(a: seq<Token>, b: seq<Token>) {
    |a| == |b| && forall i :: 0 <= i < |a| ==> SameSpan(a[i], b[i])
  }

  ghost predicate InStep(a: State, b: State) {
    a.pos == b.pos && Alike(a.toks, b.toks) && Linked(b)
  }

  // ---- chains

  /** Chains that meet only tokens with the same links and openness are the same. */
  lemma {:induction false} ChainSame(a: seq<Token>, b: seq<Token>, i: nat)
    requires i < |a| && i < |b|
    requires forall j :: 0 <= j <= i ==> a[j].parent == b[j].parent && a[j].IsOpen() == b[j].IsOpen()
    ensures OpenAncestor(a, i) == OpenAncestor(b, i)
    decreases i
  {
    if !a[i].IsOpen() && 0 <= a[i].parent < i {
      ChainSame(a, b, a[i].parent);
    }
  }

  lemma {:induction false} OpenSame(a: seq<Token>, b: seq<Token>, n: nat)
    requires n <= |a| && n <= |b| && forall j :: 0 <= j < n ==> a[j].IsOpen() == b[j].IsOpen()
    ensures LastOpen(a, n) == LastOpen(b, n)
  {
    if n > 0 {
      OpenSame(a, b, n - 1);
    }
  }

  /** Closing an open token sends the chains that ended there on to its parent. */
  lemma {:induction false} ChainAfterClose(toks: seq<Token>, k: nat, t: Token, i: nat)
    requires k < |toks| && toks[k].IsOpen() && !t.IsOpen() && t.parent == toks[k].parent < k && i < |toks|
    ensures OpenAncestor(toks[k := t], i) ==
      if OpenAncestor(toks, i) == k then OpenFrom(toks[k := t], t.parent) else OpenAncestor(toks, i)
    decreases i
  {
    if i != k && !toks[i].IsOpen() && 0 <= toks[i].parent < i {
      ChainAfterClose(toks, k, t, toks[i].parent);
    }
  }

  // ---- steps

  /** Behind the tokens of `a` a new one; chains and open tokens below stay. */
  lemma Grown(a: seq<Token>, b: seq<Token>)
    requires |b| == |a| + 1 && SameLinks(a, b)
    ensures forall i :: -1 <= i < |a| ==> OpenFrom(b, i) == OpenFrom(a, i)
    ensures forall i :: 0 <= i <= |a| ==> LastOpen(b, i) == LastOpen(a, i)
  {
    forall i | -1 <= i < |a|
      ensures OpenFrom(b, i) == OpenFrom(a, i)
    {
      if i >= 0 {
        ChainSame(a, b, i);
      }
    }
    forall i | 0 <= i <= |a|
      ensures LastOpen(b, i) == LastOpen(a, i)
    {
      OpenSame(a, b, i);
    }
  }

  ghost predicate SameLinks(a: seq<Token>, b: seq<Token>) {
    |a| <= |b| && forall i :: 0 <= i < |a| ==>
      a[i].kind == b[i].kind && a[i].parent == b[i].parent && a[i].IsOpen() == b[i].IsOpen()
  }

  lemma GrownLinked(st: State, toks: seq<Token>, next: nat)
    requires Linked(st) && |toks| == |st.toks| + 1 && SameLinks(st.toks, toks)
    requires var t := toks[|st.toks|]; t.parent == st.super && (t.IsOpen() ==> t.kind.IsContainer())
    ensures Linked(State(next, if toks[|st.toks|].IsOpen() then |st.toks| else st.super, toks))
  {
    hide LastOpen, OpenFrom;
    Grown(st.toks, toks);
    NewLast(toks);
    forall i | 0 <= i < |toks| && toks[i].IsOpen()
      ensures toks[i].kind.IsContainer() && OpenFrom(toks, toks[i].parent) == LastOpen(toks, i)
    {
      if i < |st.toks| {
        assert st.toks[i].IsOpen() && toks[i].parent == st.toks[i].parent;
      }
    }
  }

  lemma MakeLinked(st: State, t: Token, next: nat)
    requires Linked(st) && t.parent == st.super && (t.IsOpen() ==> t.kind.IsContainer())
    ensures var toks := BumpBy(st.toks, st.super, 1) + [t];
      Linked(State(next, if t.IsOpen() then |st.toks| else st.super, toks))
  {
    hide Linked, BumpBy;
    var bumped := BumpBy(st.toks, st.super, 1);
    assert SameLinks(st.toks, bumped);
    assert SameLinks(st.toks, bumped + [t]) && (bumped + [t])[|st.toks|] == t;
    GrownLinked(st, bumped + [t], next);
  }

  lemma NewLast(toks: seq<Token>)
    requires toks != [] && -1 <= toks[|toks| - 1].parent < |toks| - 1
    ensures var n := |toks| - 1;
      && OpenFrom(toks, n) == (if toks[n].IsOpen() then n else OpenFrom(toks, toks[n].parent))
      && LastOpen(toks, n + 1) == if toks[n].IsOpen() then n else LastOpen(toks, n)
  {
  }

  /** Closing the last open token: the chains that ended there go on to the next. */
  lemma CloseChains(toks: seq<Token>, t: Token)
    requires Chained(toks) && LastOpen(toks, |toks|) != -1 && !t.IsOpen()
    requires t.parent == toks[LastOpen(toks, |toks|)].parent
    ensures var i := LastOpen(toks, |toks|); var after := toks[i := t];
      && (forall j :: -1 <= j < |toks| ==>
            OpenFrom(after, j) == if OpenFrom(toks, j) == i then LastOpen(toks, i) else OpenFrom(toks, j))
      && (forall j :: 0 <= j <= i ==> LastOpen(after, j) == LastOpen(toks, j))
      && LastOpen(after, |toks|) == LastOpen(toks, i)
  {
    hide LastOpen, OpenAncestor;
    var i := LastOpen(toks, |toks|);
    var after := toks[i := t];
    forall j | 0 <= j <= i
      ensures LastOpen(after, j) == LastOpen(toks, j)
    {
      OpenSame(after, toks, j);
    }
    NoneAbove(after, i, |toks|);
    assert OpenFrom(after, t.parent) == LastOpen(toks, i) by {
      if t.parent >= 0 {
        ChainSame(after, toks, t.parent);
      }
    }
    forall j | -1 <= j < |toks|
      ensures OpenFrom(after, j) == if OpenFrom(toks, j) == i then LastOpen(toks, i) else OpenFrom(toks, j)
    {
      if j >= 0 {
        ChainAfterClose(toks, i, t, j);
      }
    }
  }

  lemma CloseLinked(st: State, next: nat)
    requires Linked(st) && LastOpen(st.toks, |st.toks|) != -1
    ensures var i := LastOpen(st.toks, |st.toks|);
      Linked(State(next, st.toks[i].parent, st.toks[i := st.toks[i].(end := st.pos + 1)]))
  {
    hide LastOpen, OpenFrom;
    var i := LastOpen(st.toks, |st.toks|);
    var t := st.toks[i].(end := st.pos + 1);
    var toks := st.toks[i := t];
    CloseChains(st.toks, t);
    BelowIs(st.toks, t.parent);
    forall j | 0 <= j < |toks| && toks[j].IsOpen()
      ensures toks[j].kind.IsContainer() && OpenFrom(toks, toks[j].parent) == LastOpen(toks, j)
    {
      assert j < i && toks[j] == st.toks[j];
      BelowIs(st.toks, toks[j].parent);
    }
  }

  lemma BelowIs(toks: seq<Token>, j: int)
    requires -1 <= j < |toks|
    ensures OpenFrom(toks, j) <= j
  {
  }

  lemma {:induction false} NoneAbove(toks: seq<Token>, i: nat, n: nat)
    requires i <= n <= |toks| && forall j :: i <= j < n ==> !toks[j].IsOpen()
    ensures LastOpen(toks, n) == LastOpen(toks, i)
  {
    if i < n {
      NoneAbove(toks, i, n - 1);
    }
  }

  lemma CommaLinked(cfg: Config, st: State)
    requires cfg.build.Links? && Benign(cfg) && Linked(st)
    ensures Linked(st.(super := CommaSuper(cfg, st)))
  {
  }

  /** One event of both builds: the same step, except at a closing bracket with
      nothing open, which only the default build refuses. */
  ghost predicate StepsAlike(sa: State, sb: State, ev: Event, next: nat, x: Step, y: Step) {
    if ev.Close? && LastOpen(sa.toks, |sa.toks|) == -1 then
      x == Halt(Inval) && y == if sa.toks == [] then Halt(Inval) else Go(sb.(pos := next))
    else
      if x.Go? then y.Go? && InStep(x.st, y.st) else y == x
  }

  lemma ApplyInStep(a: Config, b: Config, sa: State, sb: State, ev: Event, next: nat)
    requires a.build.Scan? && b.build.Links? && a.cap == b.cap && Benign(b) && InStep(sa, sb)
    requires (ev.Open? ==> ev.kind.IsContainer()) && (ev.Leaf? ==> 0 <= ev.end)
    ensures StepsAlike(sa, sb, ev, next, Apply(a, sa, ev, next), Apply(b, sb, ev, next))
  {
    hide Linked, LastOpen, OpenAncestor, CommaSuper, BumpBy;
    OpenSame(sa.toks, sb.toks, |sa.toks|);
    match ev
    case Blank => Moved(sb, next);
    case Open(k) => MakeLinked(sb, Token(k, sb.pos, -1, 0, sb.super), next);
    case Leaf(k, s, e) => MakeLinked(sb, Token(k, s, e, 0, sb.super), next);
    case Close(k) =>
      LastLinked(sb);
      if LastOpen(sb.toks, |sb.toks|) != -1 {
        CloseLinked(sb, next);
      }
      Moved(sb, next);
    case Colon => ColonLinked(sb, next);
    case Comma =>
      CommaLinked(b, sb);
      Moved(sb.(super := CommaSuper(b, sb)), next);
  }

  lemma Moved(st: State, next: nat)
    requires Linked(st)
    ensures Linked(st.(pos := next))
  {
  }

  lemma ColonLinked(st: State, next: nat)
    requires Linked(st)
    ensures Linked(st.(pos := next, super := |st.toks| - 1))
  {
  }

  lemma LastLinked(st: State)
    requires Linked(st)
    ensures st.toks != [] ==> OpenAncestor(st.toks, |st.toks| - 1) == LastOpen(st.toks, |st.toks|)
    ensures st.toks == [] ==> LastOpen(st.toks, |st.toks|) == -1
  {
  }

  // ---- whole calls

  /** A closing bracket is next, nothing is open, and there is some token. */
  predicate IsStray(js: string, st: State) {
    st.pos < |js| && (js[st.pos] == ']' || js[st.pos] == '}') && LastOpen(st.toks, |st.toks|) == -1 && st.toks != []
  }

  /** The build with links comes to the state in which the default build ends; if that
      one ended with an invalid text, so does this one, but for a stray bracket. */
  lemma {:induction false} RunInStep(a: Config, b: Config, js: string, sa: State, sb: State, count: nat)
    returns (eb: State, n: nat)
    requires a.build.Scan? && b.build.Links? && a.cap == b.cap && Benign(b) && InStep(sa, sb)
    ensures var (reply, ea) := Run(a, js, sa, count);
      && InStep(ea, eb) && Run(b, js, sb, count) == Run(b, js, eb, n)
      && (if reply == Inval && IsStray(js, ea) then Run(b, js, eb, n) == Run(b, js, eb.(pos := ea.pos + 1), n)
          else Run(b, js, eb, n) == (reply, eb))
    decreases |js| - sa.pos
  {
    hide Run, Apply, LastOpen, Alike, Linked, Benign;
    RunUnfolds(a, js, sa, count);
    RunUnfolds(b, js, sb, count);
    eb, n := sb, count;
    if AtEnd(js, sa.pos) {
      LastOpenAlike(sa.toks, sb.toks);
    } else {
      var r := Read(js, sa.pos);
      if r.Reading? {
        ApplyInStep(a, b, sa, sb, r.ev, r.next);
        ApplyDemand(a, sa, r.ev, r.next);
        var x, y := Turn(a, js, sa), Turn(b, js, sb);
        if x.Go? && y.Go? && InStep(x.st, y.st) {
          eb, n := RunInStep(a, b, js, x.st, y.st, count + Made(js, sa.pos));
        }
      }
    }
  }

  lemma LastOpenAlike(a: seq<Token>, b: seq<Token>)
    requires Alike(a, b)
    ensures LastOpen(a, |a|) == LastOpen(b, |b|)
  {
    OpenSame(a, b, |a|);
  }

  lemma InitInStep()
    ensures InStep(Init, Init)
  {
  }

  /** On every text: unless the default build finds it invalid, the build with links
      gives the same reply and tokens of the same kinds and places; and it finds
      invalid what the default build does, but for a closing bracket with nothing
      open behind some token, which it passes over. */
  lemma BuildsInStep(a: Config, b: Config, js: string)
    requires a.build.Scan? && b.build.Links? && a.cap == b.cap && Benign(b)
    ensures var (reply, ea) := Run(a, js, Init, 0); var (reply', eb) := Run(b, js, Init, 0);
      !(reply == Inval && IsStray(js, ea)) ==> reply' == reply && eb.pos == ea.pos && Alike(ea.toks, eb.toks)
  {
    hide Run, Alike, Linked, IsStray;
    InitInStep();
    var eb, n := RunInStep(a, b, js, Init, Init, 0);
  }
}
