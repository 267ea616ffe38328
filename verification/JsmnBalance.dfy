/** Which texts the tokenizer accepts: exactly those whose strings and
    primitives lex and whose brackets form a balanced, type-matched word. */
module JsmnBalance {
  import opened JsmnLexer
  import opened JsmnMachine
  import opened JsmnInvariants
  import opened JsmnStack

  /** The whole text as events, read without any parser state. */
  datatype Lexing = Lexes(evs: seq<Event>) | Breaks(invalid: bool)

  function LexAll(js: string, p: nat): Lexing
    decreases |js| - p
  {
    if AtEnd(js, p) then Lexes([])
    else
      match Read(js, p)
      case Failed(invalid) => Breaks(invalid)
      case Reading(ev, next) =>
        match LexAll(js, next)
        case Breaks(invalid) => Breaks(invalid)
        case Lexes(evs) => Lexes([ev] + evs)
  }

  datatype Bracket = Left(kind: Kind) | Right(kind: Kind)

  function Brackets(evs: seq<Event>): (w: seq<Bracket>) {
    if evs == [] then []
    else match evs[0]
      case Open(k) => [Left(k)] + Brackets(evs[1..])
      case Close(k) => [Right(k)] + Brackets(evs[1..])
      case _ => Brackets(evs[1..])
  }

  /** How many tokens the events ask for. */
  function Demand(evs: seq<Event>): (n: nat) {
    if evs == [] then 0 else evs[0].Cost() + Demand(evs[1..])
  }

  /** The grammar of balanced words, with objects and arrays kept apart. */
  datatype Dyck = Empty | Wrap(kind: Kind, inner: Dyck, rest: Dyck)

  function Word(d: Dyck): (w: seq<Bracket>) {
    match d
    case Empty => []
    case Wrap(k, inner, rest) => [Left(k)] + Word(inner) + [Right(k)] + Word(rest)
  }

  ghost predicate Balanced(w: seq<Bracket>) {
    exists d :: Word(d) == w
  }

  // ---- a matcher with a stack, between the grammar and the machine

  predicate Matches(w: seq<Bracket>, stack: seq<Kind>) {
    if w == [] then stack == []
    else match w[0]
      case Left(k) => Matches(w[1..], stack + [k])
      case Right(k) => stack != [] && stack[|stack| - 1] == k && Matches(w[1..], stack[..|stack| - 1])
  }

  lemma {:induction false} WordMatches(d: Dyck, tail: seq<Bracket>, stack: seq<Kind>)
    ensures Matches(Word(d) + tail, stack) == Matches(tail, stack)
  {
    match d
    case Empty =>
      assert Word(d) + tail == tail;
    case Wrap(k, inner, rest) =>
      var back := [Right(k)] + (Word(rest) + tail);
      assert (Word(d) + tail)[1..] == Word(inner) + back;
      WordMatches(inner, back, stack + [k]);
      assert back[1..] == Word(rest) + tail && (stack + [k])[..|stack|] == stack;
      WordMatches(rest, tail, stack);
  }

  /** A matched word starts with a balanced word, up to a closing bracket that
      the stack was waiting for. */
  lemma {:induction false} MatchSplits(w: seq<Bracket>, stack: seq<Kind>) returns (d: Dyck, rest: seq<Bracket>)
    requires Matches(w, stack)
    ensures w == Word(d) + rest && Matches(rest, stack)
    ensures rest == [] || rest[0].Right?
    decreases |w|
  {
    if w == [] || w[0].Right? {
      return Empty, w;
    }
    assert Matches(w[1..], stack + [w[0].kind]);
    hide Matches, Word;
    var k := w[0].kind;
    var inner, r1 := MatchSplits(w[1..], stack + [k]);
    PopMatch(r1, stack, k);
    var after, r2 := MatchSplits(r1[1..], stack);
    Assemble(w, k, inner, r1, after, r2);
    d, rest := Wrap(k, inner, after), r2;
  }

  lemma Assemble(w: seq<Bracket>, k: Kind, inner: Dyck, r1: seq<Bracket>, after: Dyck, r2: seq<Bracket>)
    requires w != [] && w[0] == Left(k) && w[1..] == Word(inner) + r1
    requires r1 != [] && r1[0] == Right(k) && r1[1..] == Word(after) + r2
    ensures w == Word(Wrap(k, inner, after)) + r2
  {
    hide Word;
    var a, b := Word(inner), Word(after);
    assert w == [Left(k)] + (a + r1) && r1 == [Right(k)] + (b + r2);
    Regroup([Left(k)], a, [Right(k)], b, r2);
    WordUnfolds(k, inner, after);
  }

  lemma WordUnfolds(k: Kind, inner: Dyck, after: Dyck)
    ensures Word(Wrap(k, inner, after)) == [Left(k)] + Word(inner) + [Right(k)] + Word(after)
  {
  }

  lemma Regroup(a: seq<Bracket>, b: seq<Bracket>, c: seq<Bracket>, d: seq<Bracket>, e: seq<Bracket>)
    ensures a + (b + (c + (d + e))) == a + b + c + d + e
  {
  }

  lemma PopMatch(w: seq<Bracket>, stack: seq<Kind>, k: Kind)
    requires Matches(w, stack + [k]) && (w == [] || w[0].Right?)
    ensures w != [] && w == [Right(k)] + w[1..] && Matches(w[1..], stack)
  {
    assert (stack + [k])[..|stack|] == stack;
  }

  lemma BalancedIsMatched(w: seq<Bracket>)
    ensures Balanced(w) <==> Matches(w, [])
  {
    if Balanced(w) {
      var d :| Word(d) == w;
      WordMatches(d, [], []);
      assert w + [] == w;
    }
    if Matches(w, []) {
      var d, rest := MatchSplits(w, []);
      assert rest == [] && Word(d) + [] == Word(d);
    }
  }

  // ---- the machine against the matcher

  /** The kinds of the open tokens, outermost first. */
  function OpenKinds(toks: seq<Token>): (ks: seq<Kind>)
    ensures |ks| == |Stack(toks)|
    ensures forall i :: 0 <= i < |ks| ==> ks[i] == toks[Stack(toks)[i]].kind
  {
    seq(|Stack(toks)|, i requires 0 <= i < |Stack(toks)| => toks[Stack(toks)[i]].kind)
  }

  /** What one event does to the kinds of the open tokens. */
  lemma ApplyOpenKinds(cfg: Config, st: State, ev: Event, next: nat)
    requires cfg.build.Scan? && Inv(st)
    ensures var step, ks := Apply(cfg, st, ev, next), OpenKinds(st.toks);
      match ev
      case Open(k) => step.Go? ==> OpenKinds(step.st.toks) == ks + [k]
      case Close(k) =>
        && (step.Go? <==> ks != [] && ks[|ks| - 1] == k)
        && (step.Go? ==> OpenKinds(step.st.toks) == ks[..|ks| - 1])
      case _ => step.Go? ==> OpenKinds(step.st.toks) == ks
  {
    hide Inv, Stack;
    ApplyRefinesStack(cfg, st, ev, next);
  }

  /** The word `w` after event `ev`, seen with `ks` open before it. */
  predicate MatchesAfter(ev: Event, w: seq<Bracket>, ks: seq<Kind>) {
    match ev
    case Open(k) => Matches(w, ks + [k])
    case Close(k) => ks != [] && ks[|ks| - 1] == k && Matches(w, ks[..|ks| - 1])
    case _ => Matches(w, ks)
  }

  lemma AcceptOne(ev: Event, evs: seq<Event>, ks: seq<Kind>)
    ensures Demand([ev] + evs) == ev.Cost() + Demand(evs)
    ensures Matches(Brackets([ev] + evs), ks) == MatchesAfter(ev, Brackets(evs), ks)
  {
    assert ([ev] + evs)[1..] == evs;
    var w := Brackets(evs);
    match ev
    case Open(k) => assert ([Left(k)] + w)[1..] == w;
    case Close(k) => assert ([Right(k)] + w)[1..] == w;
    case _ =>
  }

  /** From any state with room left: success means that the rest of the text
      lexes, matches what is open, and asks for no more tokens than are left. */
  lemma {:induction false} RunAccepts(cfg: Config, js: string, st: State, count: nat)
    requires cfg.build.Scan? && Inv(st) && |st.toks| <= cfg.cap
    ensures var lex := LexAll(js, st.pos);
      Run(cfg, js, st, count).0.Tokens? <==>
        && lex.Lexes?
        && Matches(Brackets(lex.evs), OpenKinds(st.toks))
        && |st.toks| + Demand(lex.evs) <= cfg.cap
    decreases |js| - st.pos
  {
    hide Inv, Apply, OpenKinds, Stack, Matches, Brackets, Demand;
    if AtEnd(js, st.pos) {
      EndAccepts(st);
    } else {
      var r := Read(js, st.pos);
      if r.Reading? {
        ApplyOpenKinds(cfg, st, r.ev, r.next);
        ApplyDemand(cfg, st, r.ev, r.next);
        TurnKeepsInv(cfg, js, st);
        var step := Turn(cfg, js, st);
        var rest := LexAll(js, r.next);
        if rest.Lexes? {
          AcceptOne(r.ev, rest.evs, OpenKinds(st.toks));
        }
        if step.Go? {
          RunAccepts(cfg, js, step.st, count + Made(js, st.pos));
        }
      }
    }
  }

  lemma EndAccepts(st: State)
    ensures LastOpen(st.toks, |st.toks|) == -1 <==> Matches(Brackets([]), OpenKinds(st.toks))
    ensures Demand([]) == 0
  {
    assert st.toks[..|st.toks|] == st.toks;
    ScanFindsTop(st.toks, |st.toks|);
  }

  /** A fresh parse succeeds if and only if the text lexes, its brackets are
      balanced and the caller gave at least one token per value. */
  lemma AcceptanceIsBalance(cfg: Config, js: string)
    requires cfg.build.Scan?
    ensures var lex := LexAll(js, 0);
      Run(cfg, js, Init, 0).0.Tokens? <==>
        lex.Lexes? && Balanced(Brackets(lex.evs)) && Demand(lex.evs) <= cfg.cap
  {
    RunAccepts(cfg, js, Init, 0);
    var lex := LexAll(js, 0);
    if lex.Lexes? {
      BalancedIsMatched(Brackets(lex.evs));
      assert OpenKinds([]) == [];
    }
  }
}
