/** The tokenizer as a step machine over values: what one turn of the main
    loop of `jsmn_parse` does to the parser and to the tokens in use. */
module JsmnMachine {
  import opened JsmnLexer

  /** `parent` is the token that was superior when this one was made. The
      parent-link build keeps it in the token and follows it; the default build
      has no such field, so here it records it and never reads it. */
  datatype Token = Token(kind: Kind, start: int, end: int, size: int, parent: int) {
    predicate IsOpen() {
      start != -1 && end == -1
    }
  }

  /** `Scan` is the default build, `Links` the one with JSMN_PARENT_LINKS. */
  datatype Build = Scan | Links

  /** `cap` is the number of tokens the caller gave. `junk` is whatever memory
      holds at `tokens[-1]`, which the comma case may look at. */
  datatype Config = Config(build: Build, cap: nat, junk: Token)

  datatype Reply = Tokens(n: nat) | NoMem | Inval | Part

  /** `toks` is the part of the token array below `toknext`. */
  datatype State = State(pos: nat, super: int, toks: seq<Token>)

  const Init := State(0, -1, [])

  /** The last open token below index `n`, or -1. */
  function LastOpen(toks: seq<Token>, n: nat): (r: int)
    requires n <= |toks|
    ensures -1 <= r < n
    ensures r >= 0 ==> toks[r].IsOpen()
    ensures forall i :: r < i < n ==> !toks[i].IsOpen()
  {
    if n == 0 then -1
    else if toks[n - 1].IsOpen() then n - 1
    else LastOpen(toks, n - 1)
  }

  /** The same search as the comma case writes it: the type is tested first. */
  function LastOpenContainer(toks: seq<Token>, n: nat): (r: int)
    requires n <= |toks|
    ensures -1 <= r < n
    ensures r >= 0 ==> toks[r].kind.IsContainer() && toks[r].IsOpen()
    ensures forall i :: r < i < n ==> !(toks[i].kind.IsContainer() && toks[i].IsOpen())
  {
    if n == 0 then -1
    else if toks[n - 1].kind.IsContainer() && toks[n - 1].IsOpen() then n - 1
    else LastOpenContainer(toks, n - 1)
  }

  /** The nearest open token on the chain of parents from `i`, or -1. A link
      that does not lead to an earlier token ends the chain. */
  function OpenAncestor(toks: seq<Token>, i: nat): (r: int)
    requires i < |toks|
    ensures -1 <= r <= i
    ensures r >= 0 ==> toks[r].IsOpen()
    decreases i
  {
    if toks[i].IsOpen() then i
    else if 0 <= toks[i].parent < i then OpenAncestor(toks, toks[i].parent)
    else -1
  }

  /** Adds `k` to the size of token `s`; -1 names no token. */
  function BumpBy(toks: seq<Token>, s: int, k: nat): (r: seq<Token>)
    ensures |r| == |toks|
    ensures forall i :: 0 <= i < |toks| && i != s ==> r[i] == toks[i]
    ensures 0 <= s < |toks| ==> r[s] == toks[s].(size := toks[s].size + k)
  {
    if 0 <= s < |toks| then toks[s := toks[s].(size := toks[s].size + k)] else toks
  }

  datatype Step = Go(st: State) | Halt(reply: Reply)

  function MakeToken(cfg: Config, st: State, t: Token, next: nat, super': int): Step {
    if |st.toks| >= cfg.cap then Halt(NoMem)
    else Go(State(next, super', BumpBy(st.toks, st.super, 1) + [t]))
  }

  function CloseScan(st: State, kind: Kind, next: nat): Step {
    var i := LastOpen(st.toks, |st.toks|);
    if i == -1 || st.toks[i].kind != kind then Halt(Inval)
    else
      Go(State(next, LastOpen(st.toks, i), st.toks[i := st.toks[i].(end := st.pos + 1)]))
  }

  function CloseLinks(st: State, kind: Kind, next: nat): Step {
    if |st.toks| == 0 then Halt(Inval)
    else
      var i := OpenAncestor(st.toks, |st.toks| - 1);
      if i == -1 then Go(st.(pos := next))
      else if st.toks[i].kind != kind then Halt(Inval)
      else Go(State(next, st.toks[i].parent, st.toks[i := st.toks[i].(end := st.pos + 1)]))
  }

  function Superior(cfg: Config, st: State): Token {
    if 0 <= st.super < |st.toks| then st.toks[st.super] else cfg.junk
  }

  function CommaSuper(cfg: Config, st: State): int {
    if Superior(cfg, st).kind.IsContainer() then st.super
    else if cfg.build.Links? then Superior(cfg, st).parent
    else
      var i := LastOpenContainer(st.toks, |st.toks|);
      if i == -1 then st.super else i
  }

  function Apply(cfg: Config, st: State, ev: Event, next: nat): Step {
    match ev
    case Blank => Go(st.(pos := next))
    case Open(k) => MakeToken(cfg, st, Token(k, st.pos, -1, 0, st.super), next, |st.toks|)
    case Close(k) => if cfg.build.Links? then CloseLinks(st, k, next) else CloseScan(st, k, next)
    case Leaf(k, s, e) => MakeToken(cfg, st, Token(k, s, e, 0, st.super), next, st.super)
    case Colon => Go(st.(pos := next, super := |st.toks| - 1))
    case Comma => Go(st.(pos := next, super := CommaSuper(cfg, st)))
  }

  /** One turn of the main loop. */
  function Turn(cfg: Config, js: string, st: State): (r: Step)
    requires !AtEnd(js, st.pos)
    ensures r.Go? ==> st.pos < r.st.pos <= |js|
  {
    match Read(js, st.pos)
    case Reading(ev, next) => Apply(cfg, st, ev, next)
    case Failed(invalid) => Halt(if invalid then Inval else Part)
  }

  /** What the turn at `p` adds to the count of a call. */
  function Made(js: string, p: nat): nat
    requires !AtEnd(js, p)
  {
    var r := Read(js, p);
    if r.Reading? then r.ev.Cost() else 0
  }

  /** A call of `jsmn_parse`, from any parser state; `count` starts at 0. */
  function Run(cfg: Config, js: string, st: State, count: nat): (Reply, State)
    decreases |js| - st.pos
  {
    if AtEnd(js, st.pos) then
      (if LastOpen(st.toks, |st.toks|) != -1 then Part else Tokens(count), st)
    else
      match Turn(cfg, js, st)
      case Halt(reply) => (reply, st)
      case Go(st') => Run(cfg, js, st', count + Made(js, st.pos))
  }

  /** `Run` taken apart, for proofs that keep it folded. */
  lemma RunUnfolds(cfg: Config, js: string, st: State, count: nat)
    ensures AtEnd(js, st.pos) ==>
      Run(cfg, js, st, count) == (if LastOpen(st.toks, |st.toks|) != -1 then Part else Tokens(count), st)
    ensures !AtEnd(js, st.pos) ==>
      match Turn(cfg, js, st)
      case Halt(reply) => Run(cfg, js, st, count) == (reply, st)
      case Go(st') => Run(cfg, js, st, count) == Run(cfg, js, st', count + Made(js, st.pos))
  {
  }

  /** When an event gets through, and how many tokens it adds. */
  lemma ApplyDemand(cfg: Config, st: State, ev: Event, next: nat)
    ensures var step := Apply(cfg, st, ev, next);
      && (ev.MakesToken() ==> (step.Go? <==> |st.toks| < cfg.cap))
      && (!ev.MakesToken() && !ev.Close? ==> step.Go?)
      && (step.Halt? ==> !step.reply.Tokens?)
      && (step == Halt(NoMem) <==> ev.MakesToken() && cfg.cap <= |st.toks|)
      && (step.Go? ==> step.st.pos == next && |step.st.toks| == |st.toks| + ev.Cost())
  {
  }

  /** An event that found room goes the same way with more of it. */
  lemma ApplyWithMore(cfg: Config, cap: nat, st: State, ev: Event, next: nat)
    requires cfg.cap <= cap
    ensures Apply(cfg, st, ev, next) != Halt(NoMem) ==> Apply(cfg.(cap := cap), st, ev, next) == Apply(cfg, st, ev, next)
  {
  }

  /** The count a call returns is the number of tokens it made, and nothing else
      about the call depends on where the count started. */
  lemma {:induction false} RunCounts(cfg: Config, js: string, st: State, count: nat)
    ensures var (reply, end) := Run(cfg, js, st, count);
      && |st.toks| <= |end.toks|
      && end == Run(cfg, js, st, 0).1
      && (reply.Tokens? ==> reply.n == count + |end.toks| - |st.toks|)
      && (reply.Tokens? <==> Run(cfg, js, st, 0).0.Tokens?)
      && (!reply.Tokens? ==> reply == Run(cfg, js, st, 0).0)
    decreases |js| - st.pos
  {
    hide Run, Apply, Read, LastOpen;
    RunUnfolds(cfg, js, st, count);
    RunUnfolds(cfg, js, st, 0);
    if !AtEnd(js, st.pos) {
      var step, r := Turn(cfg, js, st), Read(js, st.pos);
      if step.Go? {
        ApplyDemand(cfg, st, r.ev, r.next);
        RunCounts(cfg, js, step.st, count + Made(js, st.pos));
        RunCounts(cfg, js, step.st, Made(js, st.pos));
      } else if r.Reading? {
        ApplyDemand(cfg, st, r.ev, r.next);
      }
    }
  }
}
