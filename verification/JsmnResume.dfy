/** Stopping and going on: with more text, with more tokens, or with both. */
module JsmnResume {
  import opened JsmnLexer
  import opened JsmnMachine

  /** `part` was parsed first; `whole` is the text it was cut from. */
  ghost predicate Extends(part: string, whole: string) {
    part <= whole && (part == whole || NulFree(whole))
  }

  /** The parser stopped at the end of `part` on a primitive that goes on in
      `whole`. A caller sees it in the last token and the next character. */
  predicate CutsPrimitive(part: string, whole: string, st: State) {
    && |part| < |whole|
    && !IsDelimiter(whole[|part|])
    && st.toks != []
    && st.toks[|st.toks| - 1].kind == Primitive
    && st.toks[|st.toks| - 1].end == |part|
  }

  // ---- how many tokens are enough

  lemma {:induction false} TokensBehind(cfg: Config, js: string, st: State, count: nat)
    requires |st.toks| <= st.pos
    ensures var (reply, end) := Run(cfg, js, st, count);
      |end.toks| <= end.pos && (reply == NoMem ==> cfg.cap <= |end.toks| && end.pos < |js|)
    decreases |js| - st.pos
  {
    hide Run, Apply, Read, LastOpen;
    RunUnfolds(cfg, js, st, count);
    if !AtEnd(js, st.pos) {
      var r, step := Read(js, st.pos), Turn(cfg, js, st);
      if r.Reading? {
        ApplyDemand(cfg, st, r.ev, r.next);
        if step.Go? {
          TokensBehind(cfg, js, step.st, count + Made(js, st.pos));
        }
      }
    }
  }

  /** A call that did not run out would have gone the same way with more. */
  lemma {:induction false} MoreIsTheSame(cfg: Config, cap: nat, js: string, st: State, count: nat)
    requires cfg.cap <= cap && Run(cfg, js, st, count).0 != NoMem
    ensures Run(cfg.(cap := cap), js, st, count) == Run(cfg, js, st, count)
    decreases |js| - st.pos
  {
    hide Run, Apply, Read, LastOpen;
    RunUnfolds(cfg, js, st, count);
    RunUnfolds(cfg.(cap := cap), js, st, count);
    if !AtEnd(js, st.pos) {
      var r, step := Read(js, st.pos), Turn(cfg, js, st);
      if r.Reading? {
        ApplyWithMore(cfg, cap, st, r.ev, r.next);
        if step.Go? {
          MoreIsTheSame(cfg, cap, js, step.st, count + Made(js, st.pos));
        }
      }
    }
  }

  /** A call runs out of tokens if and only if a call that does not would make more
      than there are. */
  lemma {:induction false} RunsOutExactly(cfg: Config, cap: nat, js: string, st: State, count: nat)
    requires cfg.cap <= cap && |st.toks| <= cfg.cap && Run(cfg.(cap := cap), js, st, count).0 != NoMem
    ensures Run(cfg, js, st, count).0 == NoMem <==> cfg.cap < |Run(cfg.(cap := cap), js, st, count).1.toks|
    decreases |js| - st.pos
  {
    hide Run, Apply, Read, LastOpen;
    RunUnfolds(cfg, js, st, count);
    RunUnfolds(cfg.(cap := cap), js, st, count);
    if !AtEnd(js, st.pos) {
      var r, step := Read(js, st.pos), Turn(cfg, js, st);
      if r.Reading? {
        ApplyDemand(cfg, st, r.ev, r.next);
        ApplyDemand(cfg.(cap := cap), st, r.ev, r.next);
        ApplyWithMore(cfg, cap, st, r.ev, r.next);
        if step.Go? {
          RunsOutExactly(cfg, cap, js, step.st, count + Made(js, st.pos));
        } else {
          var more := Turn(cfg.(cap := cap), js, st);
          if more.Go? {
            RunCounts(cfg.(cap := cap), js, more.st, count + Made(js, st.pos));
          }
        }
      }
    }
  }

  // ---- reading a longer text

  lemma {:induction false} HexExtends(part: string, whole: string, i: nat, n: nat)
    requires Extends(part, whole)
    ensures var h := HexEnd(part, i, n);
      h.BadChar? || (h.Lexed? && h.next < |part|) ==> HexEnd(whole, i, n) == h
    decreases n
  {
    if n > 0 && !AtEnd(part, i) && IsHex(part[i]) {
      HexExtends(part, whole, i + 1, n - 1);
    }
  }

  lemma {:induction false} StrExtends(part: string, whole: string, i: nat)
    requires Extends(part, whole)
    ensures var e := StrEnd(part, i); !e.Unfinished? ==> StrEnd(whole, i) == e
    decreases |part| - i
  {
    if !AtEnd(part, i) && part[i] != '\"' {
      if part[i] == '\\' && i + 1 < |part| {
        if IsShortEscape(part[i + 1]) {
          StrExtends(part, whole, i + 2);
        } else if part[i + 1] == 'u' {
          HexExtends(part, whole, i + 2, 4);
          var h := HexEnd(part, i + 2, 4);
          if h.Lexed? {
            StrExtends(part, whole, h.next);
          }
        }
      } else {
        StrExtends(part, whole, i + 1);
      }
    }
  }

  lemma {:induction false} PrimExtends(part: string, whole: string, i: nat)
    requires Extends(part, whole)
    ensures var e := PrimEnd(part, i);
      && (e.BadChar? || e.next < |part| ==> PrimEnd(whole, i) == e)
      && (part == whole || (|part| < |whole| && i <= |part| && IsDelimiter(whole[|part|])) ==> PrimEnd(whole, i) == e)
      && (e == Lexed(|part|) && |part| < |whole| && !IsDelimiter(whole[|part|]) ==>
            PrimEnd(whole, i).BadChar? || PrimEnd(whole, i).next > |part|)
    decreases |part| - i
  {
    if !AtEnd(part, i) && !IsDelimiter(part[i]) && IsPrintable(part[i]) {
      PrimExtends(part, whole, i + 1);
    } else if i == |part| < |whole| && !IsDelimiter(whole[i]) {
      assert PrimEnd(whole, i).BadChar? || PrimEnd(whole, i) == PrimEnd(whole, i + 1);
    }
  }

  /** A lexeme found in `part` is found in `whole`, unless it is a primitive
      that touches the cut. */
  lemma ReadExtends(part: string, whole: string, p: nat)
    requires Extends(part, whole) && !AtEnd(part, p)
    ensures !AtEnd(whole, p)
    ensures var r, r' := Read(part, p), Read(whole, p);
      match r
      case Failed(invalid) => invalid ==> r' == r
      case Reading(ev, next) =>
        if ev.Leaf? && ev.kind == Primitive && next == |part| < |whole| && !IsDelimiter(whole[|part|]) then
          r'.Failed? || (r'.ev.Leaf? && r'.ev.end > |part|)
        else r' == r
  {
    StrExtends(part, whole, p + 1);
    PrimExtends(part, whole, p);
  }

  // ---- going on is the same as never having stopped

  lemma LeafIsLast(cfg: Config, st: State, ev: Event, next: nat)
    ensures var step := Apply(cfg, st, ev, next);
      step.Go? && ev.Leaf? ==> step.st.toks[|st.toks|] == Token(ev.kind, ev.start, ev.end, 0, st.super)
  {
  }

  /** A turn taken on `part` is the turn taken on `whole`, or it is the last one
      and it cut a primitive. */
  lemma TurnExtends(cfg: Config, cap: nat, part: string, whole: string, st: State)
    requires Extends(part, whole) && cfg.cap <= cap && !AtEnd(part, st.pos)
    ensures !AtEnd(whole, st.pos)
    ensures var step := Turn(cfg, part, st);
      step.Go? ==>
        && |step.st.toks| == |st.toks| + Made(part, st.pos)
        && (|| (Turn(cfg.(cap := cap), whole, st) == step && Made(whole, st.pos) == Made(part, st.pos))
            || (AtEnd(part, step.st.pos) && CutsPrimitive(part, whole, step.st)))
  {
    ReadExtends(part, whole, st.pos);
    var r := Read(part, st.pos);
    if r.Reading? {
      hide Apply, Read;
      ApplyDemand(cfg, st, r.ev, r.next);
      ApplyWithMore(cfg, cap, st, r.ev, r.next);
      LeafIsLast(cfg, st, r.ev, r.next);
    }
  }

  /** Whatever the first call answered, the second one ends exactly where a
      single call on the whole text with the larger array ends, and the counts
      of the two calls add up. */
  lemma {:induction false} ResumeIsSeamless(cfg: Config, cap: nat, part: string, whole: string, st: State, count: nat)
    requires Extends(part, whole) && cfg.cap <= cap
    requires !CutsPrimitive(part, whole, Run(cfg, part, st, count).1)
    ensures var st1 := Run(cfg, part, st, count).1;
      && |st.toks| <= |st1.toks|
      && Run(cfg.(cap := cap), whole, st, count) ==
         Run(cfg.(cap := cap), whole, st1, count + |st1.toks| - |st.toks|)
    decreases |part| - st.pos
  {
    hide Run, Turn, CutsPrimitive, Extends, Made;
    RunUnfolds(cfg, part, st, count);
    if !AtEnd(part, st.pos) {
      TurnExtends(cfg, cap, part, whole, st);
      RunUnfolds(cfg.(cap := cap), whole, st, count);
      var step := Turn(cfg, part, st);
      if step.Go? {
        RunUnfolds(cfg, part, step.st, count + Made(part, st.pos));
        ResumeIsSeamless(cfg, cap, part, whole, step.st, count + Made(part, st.pos));
      }
    }
  }

  /** One call of a session: the text so far and the tokens there are for it. */
  datatype Call = Call(text: string, cap: nat)

  /** The parser after a session of calls, each on the state the last one left. */
  function Session(cfg: Config, calls: seq<Call>, st: State): State {
    if calls == [] then st
    else
      var last := calls[|calls| - 1];
      Run(cfg.(cap := last.cap), last.text, Session(cfg, calls[..|calls| - 1], st), 0).1
  }

  /** Text and tokens only grow, and no call stops inside a primitive. */
  ghost predicate Growing(cfg: Config, calls: seq<Call>, st: State) {
    var n := |calls| - 1;
    n <= 0 || (Growing(cfg, calls[..n], st) && GrowsFrom(cfg, calls[n - 1], calls[n], st))
  }

  ghost predicate GrowsFrom(cfg: Config, a: Call, b: Call, st: State) {
    && Extends(a.text, b.text) && a.cap <= b.cap
    && !CutsPrimitive(a.text, b.text, Run(cfg.(cap := a.cap), a.text, st, 0).1)
  }

  /** Going on from `before` ended as starting from `st` would have: in the same
      state, with the same error or with the tokens made since `before`. */
  ghost predicate AddsUp(st: State, once: (Reply, State), before: State, later: (Reply, State)) {
    && once.1 == later.1
    && |st.toks| <= |before.toks|
    && (once.0.Tokens? <==> later.0.Tokens?)
    && (once.0.Tokens? ==> once.0.n == later.0.n + |before.toks| - |st.toks|)
    && (!once.0.Tokens? ==> once.0 == later.0)
  }

  /** One more call, after one that may have answered anything. */
  lemma OneMoreCall(cfg: Config, a: Call, b: Call, st: State)
    requires GrowsFrom(cfg, a, b, st)
    ensures var big := cfg.(cap := b.cap); var before := Run(cfg.(cap := a.cap), a.text, st, 0).1;
      AddsUp(st, Run(big, b.text, st, 0), before, Run(big, b.text, before, 0))
  {
    hide Run, Extends, CutsPrimitive;
    var before := Run(cfg.(cap := a.cap), a.text, st, 0).1;
    ResumeIsSeamless(cfg.(cap := a.cap), b.cap, a.text, b.text, st, 0);
    RunCounts(cfg.(cap := b.cap), b.text, before, |before.toks| - |st.toks|);
    RunCounts(cfg.(cap := b.cap), b.text, before, 0);
  }

  /** However a session is cut into calls, it ends as one call on the last text
      with the last array would have. */
  lemma {:induction false} SessionIsOneCall(cfg: Config, calls: seq<Call>, st: State)
    requires calls != [] && Growing(cfg, calls, st)
    ensures var n := |calls| - 1; var last := calls[n]; var big := cfg.(cap := last.cap);
      var before := Session(cfg, calls[..n], st);
      && AddsUp(st, Run(big, last.text, st, 0), before, Run(big, last.text, before, 0))
      && Session(cfg, calls, st) == Run(big, last.text, st, 0).1
  {
    hide Run, GrowsFrom;
    var n := |calls| - 1;
    if n > 0 {
      assert calls[..n][|calls[..n]| - 1] == calls[n - 1];
      SessionIsOneCall(cfg, calls[..n], st);
      OneMoreCall(cfg, calls[n - 1], calls[n], st);
    }
  }

  // ---- the cut that does matter

  /** A closed token keeps its kind and span. */
  ghost predicate Keeps(a: seq<Token>, b: seq<Token>) {
    |a| <= |b| && forall i :: 0 <= i < |a| && a[i].end != -1 ==> a[i].end == b[i].end
  }

  lemma {:induction false} RunKeepsClosed(cfg: Config, js: string, st: State, count: nat)
    ensures Keeps(st.toks, Run(cfg, js, st, count).1.toks)
    decreases |js| - st.pos
  {
    RunUnfolds(cfg, js, st, count);
    if !AtEnd(js, st.pos) {
      var step, r := Turn(cfg, js, st), Read(js, st.pos);
      if step.Go? {
        ApplyKeepsClosed(cfg, st, r.ev, r.next);
        hide Run, Turn;
        RunKeepsClosed(cfg, js, step.st, count + Made(js, st.pos));
      }
    }
  }

  lemma ApplyKeepsClosed(cfg: Config, st: State, ev: Event, next: nat)
    ensures var step := Apply(cfg, st, ev, next); step.Go? ==> Keeps(st.toks, step.st.toks)
  {
  }

  ghost predicate EndsBehind(st: State) {
    forall i :: 0 <= i < |st.toks| ==> st.toks[i].end <= st.pos
  }

  /** The only way to come by a primitive that ends here is to read it now. */
  lemma ApplyEnds(cfg: Config, st: State, ev: Event, next: nat)
    requires EndsBehind(st) && st.pos < next
    requires ev.Leaf? ==> ev.end <= next
    requires ev.IsBracket() ==> ev.kind.IsContainer() && next == st.pos + 1
    ensures var step := Apply(cfg, st, ev, next);
      step.Go? ==> EndsBehind(step.st) && forall i :: 0 <= i < |step.st.toks| ==>
        (step.st.toks[i].kind == Primitive && step.st.toks[i].end == next ==> ev.Leaf? && ev.end == next && i == |st.toks|)
  {
  }

  /** The turn that cuts a primitive, done on the whole text instead. */
  lemma TurnCuts(cfg: Config, part: string, whole: string, st: State)
    requires Extends(part, whole) && EndsBehind(st) && !AtEnd(part, st.pos)
    requires Turn(cfg, part, st).Go?
    ensures var cut, step := Turn(cfg, part, st).st, Turn(cfg, whole, st);
      && EndsBehind(cut)
      && (cut.pos == |part| && CutsPrimitive(part, whole, cut) ==>
            && |cut.toks| == |st.toks| + 1
            && (step.Go? ==> |step.st.toks| == |cut.toks| && step.st.toks[|st.toks|].end > |part|))
  {
    ReadExtends(part, whole, st.pos);
    var r, r' := Read(part, st.pos), Read(whole, st.pos);
    hide Read;
    ApplyEnds(cfg, st, r.ev, r.next);
  }

  /** Stopping inside a primitive leaves a token the whole text does not have. */
  lemma {:induction false} CutShows(cfg: Config, part: string, whole: string, st: State, count: nat)
    requires Extends(part, whole) && st.pos < |part| && NulFree(part) && EndsBehind(st)
    requires CutsPrimitive(part, whole, Run(cfg, part, st, count).1)
    ensures var k := |Run(cfg, part, st, count).1.toks| - 1;
      var toks := Run(cfg, whole, st, count).1.toks;
      |toks| <= k || toks[k].end != |part|
    decreases |part| - st.pos
  {
    hide Run, Turn, Made, Extends, IsDelimiter;
    RunUnfolds(cfg, part, st, count);
    RunUnfolds(cfg, whole, st, count);
    TurnExtends(cfg, cfg.cap, part, whole, st);
    var step, n := Turn(cfg, part, st), count + Made(part, st.pos);
    if step.Go? {
      TurnCuts(cfg, part, whole, st);
      RunUnfolds(cfg, part, step.st, n);
      if step.st.pos < |part| {
        CutShows(cfg, part, whole, step.st, n);
      } else if Turn(cfg, whole, st).Go? {
        RunKeepsClosed(cfg, whole, Turn(cfg, whole, st).st, count + Made(whole, st.pos));
      }
    }
  }

  /** Exactly when a text may be handed over in two pieces: the parser ends in
      the state of one parse if and only if the cut is not inside a primitive. */
  lemma ChunksAgreeExactly(cfg: Config, part: string, whole: string)
    requires part <= whole && NulFree(whole)
    ensures var st := Run(cfg, part, Init, 0).1;
      Run(cfg, whole, st, 0).1 == Run(cfg, whole, Init, 0).1 <==> !CutsPrimitive(part, whole, st)
  {
    var st := Run(cfg, part, Init, 0).1;
    if CutsPrimitive(part, whole, st) {
      RunUnfolds(cfg, part, Init, 0);
      CutShows(cfg, part, whole, Init, 0);
      RunKeepsClosed(cfg, whole, st, 0);
    } else {
      OneMoreCall(cfg, Call(part, cfg.cap), Call(whole, cfg.cap), Init);
    }
  }

  /** A cut that matters: "12" handed over as "1" and then whole is two tokens. */
  lemma CutMatters(cfg: Config)
    requires 0 < cfg.cap
    ensures var st := Run(cfg, "1", Init, 0).1;
      CutsPrimitive("1", "12", st) && Run(cfg, "12", st, 0).1 != Run(cfg, "12", Init, 0).1
  {
    assert PrimEnd("1", 0) == PrimEnd("1", 1);
    ChunksAgreeExactly(cfg, "1", "12");
  }
}
