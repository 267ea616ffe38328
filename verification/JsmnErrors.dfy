/** What the errors mean: an invalid text cannot become a good one whatever is
    added to it, and a partial one can. */
module JsmnErrors {
  import opened JsmnLexer
  import opened JsmnMachine
  import opened JsmnInvariants
  import opened JsmnStack
  import opened JsmnBalance
  import opened JsmnResume
  import opened JsmnCounting
  import opened JsonText
  import opened JsmnGrammar

  // ---- invalid stays invalid

  /** In either build, with any larger array and any text that begins with this
      one. */
  lemma {:induction false} InvalStays(cfg: Config, cap: nat, part: string, whole: string, st: State, count: nat)
    requires Extends(part, whole) && cfg.cap <= cap && Run(cfg, part, st, count).0 == Inval
    ensures Run(cfg.(cap := cap), whole, st, count).0 == Inval
    decreases |part| - st.pos
  {
    hide Run, Apply, Read, Extends, LastOpen;
    RunUnfolds(cfg, part, st, count);
    ReadExtends(part, whole, st.pos);
    RunUnfolds(cfg.(cap := cap), whole, st, count);
    var step, r := Turn(cfg, part, st), Read(part, st.pos);
    if step.Go? {
      TurnExtends(cfg, cap, part, whole, st);
      RunUnfolds(cfg, part, step.st, count + Made(part, st.pos));
      InvalStays(cfg, cap, part, whole, step.st, count + Made(part, st.pos));
    } else if r.Reading? {
      ApplyWithMore(cfg, cap, st, r.ev, r.next);
      ApplyDemand(cfg, st, r.ev, r.next);
    }
  }

  // ---- the end of a string that was cut

  function Zeros(n: nat): (s: string)
    ensures |s| == n && forall i :: 0 <= i < n ==> s[i] == '0'
  {
    seq(n, _ => '0')
  }

  lemma ZeroIsDigit()
    ensures IsHexDigit('0')
  {
  }

  /** What is missing of the escape at `q`. */
  lemma EscapeEnds(js: string, q: nat) returns (tail: string, c: StrChar)
    requires NulFree(js) && CutEscape(js, q)
    ensures tail != "" && NulFree(tail) && c.Legal() && At(js + tail, q, c.Text()) && q + |c.Text()| == |js + tail|
  {
    hide IsHexDigit;
    if q + 1 == |js| {
      tail, c := "n", Escape('n');
      assert (js + tail)[q..q + 2] == ['\\', 'n'];
    } else {
      var k :| 0 <= k < 4 && DigitsEnd(js, q + 2, k);
      assert q + 2 + k == |js|;
      ZeroIsDigit();
      tail := Zeros(4 - k);
      var h := (js + tail)[q + 2..q + 6];
      c := Unicode(h);
      assert (js + tail)[q..q + 6] == "\\u" + h;
    }
  }

  /** A string that was cut can be brought to its end. */
  lemma StringEnds(js: string, p: nat) returns (tail: string)
    requires NulFree(js) && p <= |js| && StrEnd(js, p).Unfinished?
    ensures tail != "" && NulFree(tail) && StrEnd(js + tail, p) == Lexed(|js + tail| - 1)
  {
    hide StrEnd, CutEscape, StrChar.Legal, StrChar.Text;
    var b := BodyAt(js, p);
    var q := p + |Body(b)|;
    if AtEnd(js, q) {
      tail := "\"";
      assert (js + tail)[p..q] == js[p..q];
      BodyPasses(js + tail, p, b);
      StringOver(js + tail, q);
    } else {
      var more, c := EscapeEnds(js, q);
      tail := more + "\"";
      var whole := js + tail;
      assert whole[p..q] == js[p..q];
      BodyPasses(whole, p, b);
      assert whole[q..q + |c.Text()|] == (js + more)[q..q + |c.Text()|];
      CharLexes(whole, q, c);
      StringOver(whole, q + |c.Text()|);
    }
  }

  // ---- the brackets that are missing

  predicate Containers(ks: seq<Kind>) {
    forall i :: 0 <= i < |ks| ==> ks[i].IsContainer()
  }

  function Closers(ks: seq<Kind>): string {
    if ks == [] then ""
    else (if ks[|ks| - 1] == Object then "}" else "]") + Closers(ks[..|ks| - 1])
  }

  lemma {:induction false} ClosersLex(js: string, p: nat, ks: seq<Kind>)
    requires Containers(ks) && At(js, p, Closers(ks)) && p + |Closers(ks)| == |js|
    ensures NulFree(Closers(ks))
    ensures var lex := LexAll(js, p); lex.Lexes? && Matches(Brackets(lex.evs), ks) && Demand(lex.evs) == 0
    decreases |ks|
  {
    hide At, Matches, Brackets, Demand;
    if ks == [] {
      assert Matches(Brackets([]), []) && Demand([]) == 0 by { NothingMatches(); }
    } else {
      var n := |ks| - 1;
      var c := if ks[n] == Object then "}" else "]";
      AtSplits(js, p, c, Closers(ks[..n]));
      AtChar(js, p, c, 0);
      ClosersLex(js, p + 1, ks[..n]);
      AcceptOne(Close(ks[n]), LexAll(js, p + 1).evs, ks);
    }
  }

  lemma NothingMatches()
    ensures Matches(Brackets([]), []) && Demand([]) == 0
  {
  }

  lemma OpenAreContainers(st: State)
    requires Inv(st)
    ensures Containers(OpenKinds(st.toks))
  {
    forall i | 0 <= i < |OpenKinds(st.toks)|
      ensures OpenKinds(st.toks)[i].IsContainer()
    {
      var t := st.toks[Stack(st.toks)[i]];
      assert InText(st.pos, t) && t.IsOpen();
    }
  }

  // ---- partial can be completed

  /** The text ends with containers open. */
  lemma EndCompletes(cfg: Config, js: string, st: State, count: nat) returns (more: string)
    requires cfg.build.Scan? && Inv(st) && |st.toks| <= cfg.cap && st.pos == |js|
    requires LastOpen(st.toks, |st.toks|) != -1
    ensures NulFree(more) && more != "" && IsDelimiter(more[0]) && Run(cfg, js + more, st, count).0.Tokens?
  {
    hide Run, OpenKinds, Matches, LexAll, Inv, Stack;
    var ks := OpenKinds(st.toks);
    OpenAreContainers(st);
    more := Closers(ks);
    assert ks != [] by { EndAccepts(st); NothingMatches(); }
    assert (js + more)[|js|..] == more;
    ClosersLex(js + more, |js|, ks);
    RunAccepts(cfg, js + more, st, count);
  }

  /** The text ends inside a string. */
  lemma StringCompletes(cfg: Config, js: string, st: State, count: nat) returns (more: string)
    requires cfg.build.Scan? && Inv(st) && |st.toks| < cfg.cap && NulFree(js) && st.pos < |js|
    requires Read(js, st.pos) == Failed(false)
    ensures NulFree(more) && Run(cfg, js + more, st, count).0.Tokens?
  {
    hide Run, OpenKinds, Matches, Inv, StrEnd, Brackets, Demand;
    var ks, p := OpenKinds(st.toks), st.pos;
    OpenAreContainers(st);
    var tail := StringEnds(js, p + 1);
    var closers := Closers(ks);
    more := tail + closers;
    var whole, q := js + more, |js + tail|;
    assert js + more == (js + tail) + closers && whole[q..] == closers;
    ClosersLex(whole, q, ks);
    assert NulFree(whole);
    StrExtends(js + tail, whole, p + 1);
    assert Read(whole, p) == Reading(Leaf(String, p + 1, q - 1), q);
    AcceptOne(Leaf(String, p + 1, q - 1), LexAll(whole, q).evs, ks);
    RunAccepts(cfg, whole, st, count);
  }

  lemma ApplyIsNeverPart(cfg: Config, st: State, ev: Event, next: nat)
    ensures Apply(cfg, st, ev, next) != Halt(Part)
  {
  }

  /** With at most one token more than it had, the rest of some longer text goes
      through. */
  lemma {:induction false} PartCompletes(cfg: Config, js: string, st: State, count: nat) returns (more: string)
    requires cfg.build.Scan? && Inv(st) && |st.toks| <= cfg.cap && NulFree(js) && st.pos <= |js|
    requires Run(cfg, js, st, count).0 == Part
    ensures NulFree(more) && Run(cfg.(cap := cfg.cap + 1), js + more, st, count).0.Tokens?
    ensures st.pos == |js| ==> more != "" && IsDelimiter(more[0])
    decreases |js| - st.pos
  {
    hide Run, Apply, Read, LastOpen, Inv, IsDelimiter;
    var big := cfg.(cap := cfg.cap + 1);
    RunUnfolds(cfg, js, st, count);
    if st.pos == |js| {
      more := EndCompletes(big, js, st, count);
    } else {
      var r, step := Read(js, st.pos), Turn(cfg, js, st);
      if r.Failed? {
        more := StringCompletes(big, js, st, count);
      } else {
        ApplyIsNeverPart(cfg, st, r.ev, r.next);
        ApplyDemand(cfg, st, r.ev, r.next);
        TurnKeepsInv(cfg, js, st);
        more := PartCompletes(cfg, js, step.st, count + Made(js, st.pos));
        assert Extends(js, js + more);
        TurnExtends(cfg, big.cap, js, js + more, st);
        RunUnfolds(big, js + more, st, count);
      }
    }
  }

  // ---- the theorems

  /** Some text that begins with `js` is accepted, given enough tokens. */
  ghost predicate Completable(cfg: Config, js: string) {
    exists more, cap :: Accepts(cfg, js, more, cap)
  }

  ghost predicate Accepts(cfg: Config, js: string, more: string, cap: nat) {
    NulFree(more) && Run(cfg.(cap := cap), js + more, Init, 0).0.Tokens?
  }

  /** A fresh parse that did not run out of tokens answers `Inval` if and only if no
      text that begins with this one is accepted, and `Part` if and only if this one
      is not but a longer one is. */
  lemma ErrorsAreExact(cfg: Config, js: string)
    requires cfg.build.Scan? && NulFree(js) && Run(cfg, js, Init, 0).0 != NoMem
    ensures var reply := Run(cfg, js, Init, 0).0;
      && (reply == Inval <==> !Completable(cfg, js))
      && (reply == Part <==> Completable(cfg, js) && forall cap :: !Accepts(cfg, js, "", cap))
  {
    hide Run;
    var reply := Run(cfg, js, Init, 0).0;
    assert js + "" == js;
    match reply
    case Inval =>
      forall more, cap
        ensures !Accepts(cfg, js, more, cap)
      {
        if NulFree(more) {
          NeverAccepted(cfg, js, more, cap);
        }
      }
    case Part =>
      var more := PartCompletes(cfg, js, Init, 0);
      assert Accepts(cfg, js, more, cfg.cap + 1);
      forall cap
        ensures !Accepts(cfg, js, "", cap)
      {
        SameReply(cfg, js, cap);
      }
    case Tokens(_) =>
      assert Accepts(cfg, js, "", cfg.cap);
  }

  /** Replies other than running out do not depend on the size of the array. */
  lemma SameReply(cfg: Config, js: string, cap: nat)
    requires Run(cfg, js, Init, 0).0 != NoMem
    ensures var other := Run(cfg.(cap := cap), js, Init, 0).0; other == NoMem || other == Run(cfg, js, Init, 0).0
  {
    hide Run;
    var big := if cap < cfg.cap then cfg.cap else cap;
    MoreIsTheSame(cfg, big, js, Init, 0);
    if Run(cfg.(cap := cap), js, Init, 0).0 != NoMem {
      MoreIsTheSame(cfg.(cap := cap), big, js, Init, 0);
    }
  }

  lemma NeverAccepted(cfg: Config, js: string, more: string, cap: nat)
    requires NulFree(js) && NulFree(more) && Run(cfg, js, Init, 0).0 == Inval
    ensures !Run(cfg.(cap := cap), js + more, Init, 0).0.Tokens?
  {
    hide Run;
    var big := if cap < cfg.cap then cfg.cap else cap;
    assert Extends(js, js + more);
    InvalStays(cfg, big, js, js + more, Init, 0);
    if Run(cfg.(cap := cap), js + more, Init, 0).0.Tokens? {
      MoreIsTheSame(cfg.(cap := cap), big, js + more, Init, 0);
    }
  }

  // ---- the same for the counting mode, which does not look at brackets

  lemma {:induction false} CountInvalStays(part: string, whole: string, p: nat, count: nat)
    requires Extends(part, whole) && CountRun(part, p, count).0 == Inval
    ensures CountRun(whole, p, count).0 == Inval
    decreases |part| - p
  {
    hide CountRun, Read, Extends;
    CountUnfolds(part, p, count);
    ReadExtends(part, whole, p);
    CountUnfolds(whole, p, count);
    var r := Read(part, p);
    if r.Reading? {
      CountUnfolds(part, r.next, count + r.ev.Cost());
      CountInvalStays(part, whole, r.next, count + r.ev.Cost());
    }
  }

  lemma {:induction false} CountPartCompletes(js: string, p: nat, count: nat) returns (more: string)
    requires NulFree(js) && p <= |js| && CountRun(js, p, count).0 == Part
    ensures NulFree(more) && CountRun(js + more, p, count).0.Tokens?
    decreases |js| - p
  {
    hide CountRun, StrEnd;
    CountUnfolds(js, p, count);
    var r := Read(js, p);
    if r.Failed? {
      more := StringEnds(js, p + 1);
      CountUnfolds(js + more, p, count);
      CountUnfolds(js + more, |js + more|, count + 1);
    } else {
      hide Read;
      CountUnfolds(js, r.next, count + r.ev.Cost());
      more := CountPartCompletes(js, r.next, count + r.ev.Cost());
      assert Extends(js, js + more);
      ReadExtends(js, js + more, p);
      CountUnfolds(js + more, p, count);
    }
  }

  /** A counting pass over a text that lexes clears the superior token exactly if
      there is a colon outside strings. */
  lemma {:induction false} CountSuperExactly(js: string, p: nat, super: int)
    requires LexAll(js, p).Lexes?
    ensures CountSuper(js, p, super) == if Colon in LexAll(js, p).evs then -1 else super
    decreases |js| - p
  {
    hide Read;
    if !AtEnd(js, p) {
      var r := Read(js, p);
      CountSuperExactly(js, r.next, if r.ev.Colon? then -1 else super);
    }
  }

  ghost predicate Countable(js: string) {
    exists more :: NulFree(more) && CountRun(js + more, 0, 0).0.Tokens?
  }

  /** A count fails with `Inval` if and only if no text that begins with this one can
      be counted, and with `Part` if and only if this one cannot but a longer one
      can; there is no other failure. */
  lemma CountErrorsAreExact(js: string)
    requires NulFree(js)
    ensures var reply := CountRun(js, 0, 0).0;
      && (reply == Inval <==> !Countable(js))
      && (reply == Part <==> Countable(js) && !reply.Tokens?)
  {
    hide CountRun;
    var reply := CountRun(js, 0, 0).0;
    if reply == Inval {
      forall more | NulFree(more)
        ensures !CountRun(js + more, 0, 0).0.Tokens?
      {
        assert Extends(js, js + more);
        CountInvalStays(js, js + more, 0, 0);
      }
    } else if reply == Part {
      var more := CountPartCompletes(js, 0, 0);
    } else {
      assert js + "" == js;
      CountNeverRunsOut(js, 0, 0);
    }
  }

  lemma {:induction false} CountNeverRunsOut(js: string, p: nat, count: nat)
    ensures CountRun(js, p, count).0 != NoMem
    decreases |js| - p
  {
    hide CountRun, Read;
    CountUnfolds(js, p, count);
    if !AtEnd(js, p) && Read(js, p).Reading? {
      CountNeverRunsOut(js, Read(js, p).next, count + Read(js, p).ev.Cost());
    }
  }
}
