/** The counting mode: a pass without tokens, and how exact its answer is. */
module JsmnCounting {
  import opened JsmnLexer
  import opened JsmnMachine

  /** A call without tokens: the reply, and where the parser stands after it. */
  function CountRun(js: string, p: nat, count: nat): (Reply, nat)
    decreases |js| - p
  {
    if AtEnd(js, p) then (Tokens(count), p)
    else
      match Read(js, p)
      case Failed(invalid) => (if invalid then Inval else Part, p)
      case Reading(ev, next) => CountRun(js, next, count + ev.Cost())
  }

  /** The superior token after such a call: a colon read on the way clears it. */
  function CountSuper(js: string, p: nat, super: int): int
    decreases |js| - p
  {
    if AtEnd(js, p) || Read(js, p).Failed? then super
    else CountSuper(js, Read(js, p).next, if Read(js, p).ev.Colon? then -1 else super)
  }

  lemma {:induction false} CountGrows(js: string, p: nat, count: nat)
    ensures var r := CountRun(js, p, count).0; r.Tokens? ==> count <= r.n
    decreases |js| - p
  {
    if !AtEnd(js, p) {
      var r := Read(js, p);
      if r.Reading? {
        CountGrows(js, r.next, count + r.ev.Cost());
      }
    }
  }

  /** A pass with tokens that succeeds agrees with the pass without, and one
      that has room for the rest of the count cannot run out. */
  lemma {:induction false} CountFollowsRun(cfg: Config, js: string, st: State, count: nat)
    ensures var (reply, end) := Run(cfg, js, st, count); var counted := CountRun(js, st.pos, count).0;
      && (reply.Tokens? ==> counted == reply)
      && (|st.toks| <= cfg.cap ==> |end.toks| <= cfg.cap)
      && (counted.Tokens? && |st.toks| + counted.n - count <= cfg.cap ==> reply != NoMem)
    decreases |js| - st.pos
  {
    hide Run, Apply, Read, CountRun, LastOpen;
    RunUnfolds(cfg, js, st, count);
    CountUnfolds(js, st.pos, count);
    if !AtEnd(js, st.pos) {
      var r, step := Read(js, st.pos), Turn(cfg, js, st);
      if r.Reading? {
        CountGrows(js, r.next, count + r.ev.Cost());
        ApplyDemand(cfg, st, r.ev, r.next);
        if step.Go? {
          CountFollowsRun(cfg, js, step.st, count + r.ev.Cost());
        }
      }
    }
  }

  lemma CountUnfolds(js: string, p: nat, count: nat)
    ensures AtEnd(js, p) ==> CountRun(js, p, count) == (Tokens(count), p)
    ensures !AtEnd(js, p) && Read(js, p).Failed? ==>
      CountRun(js, p, count) == (if Read(js, p).invalid then Inval else Part, p)
    ensures !AtEnd(js, p) && Read(js, p).Reading? ==>
      CountRun(js, p, count) == CountRun(js, Read(js, p).next, count + Read(js, p).ev.Cost())
  {
  }

  /** The number the counting pass returns is exactly the number of tokens the
      text needs: enough never runs out, fewer never succeeds. */
  lemma CountingIsExact(cfg: Config, js: string)
    ensures var reply, counted := Run(cfg, js, Init, 0).0, CountRun(js, 0, 0).0;
      && (reply.Tokens? ==> counted == reply)
      && (counted.Tokens? && counted.n <= cfg.cap ==> reply != NoMem)
      && (counted.Tokens? && cfg.cap < counted.n ==> !reply.Tokens?)
  {
    CountFollowsRun(cfg, js, Init, 0);
    RunCounts(cfg, js, Init, 0);
  }
}
