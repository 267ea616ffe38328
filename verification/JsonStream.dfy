/** The main loop of `jsondump.c`: read a chunk, parse, double the token array
    while it is too small, and show the tokens when the text is complete. */
module JsonStream {
  import opened JsmnLexer
  import opened JsmnMachine
  import opened JsmnParser
  import opened JsmnResume
  import opened JsonText
  import opened JsmnRoundTrip
  import opened JsonDump

  /** One parse of the whole text by a fresh parser that cannot run out. */
  function OneParse(junk: Token, js: string): (Reply, State) {
    Run(Config(Scan, |js|, junk), js, Init, 0)
  }

  lemma OneParseIsAny(cfg: Config, js: string)
    requires cfg.build.Scan? && Run(cfg, js, Init, 0).0 != NoMem
    ensures OneParse(cfg.junk, js) == Run(cfg, js, Init, 0)
  {
    hide Run;
    var more := if cfg.cap < |js| then |js| else cfg.cap;
    TokensBehind(cfg.(cap := |js|), js, Init, 0);
    MoreIsTheSame(cfg, more, js, Init, 0);
    MoreIsTheSame(cfg.(cap := |js|), more, js, Init, 0);
  }

  // ---- the doubling loop

  /** An array of half that length would have been too small. */
  ghost predicate Halved(cfg: Config, js: string, st: State) {
    cfg.cap % 2 == 0 && Run(cfg.(cap := cfg.cap / 2), js, st, 0).0 == NoMem
  }

  lemma IsHalved(cfg: Config, js: string, st: State)
    requires Run(cfg, js, st, 0).0 == NoMem
    ensures Halved(cfg.(cap := 2 * cfg.cap), js, st)
  {
    hide Run;
    assert (2 * cfg.cap) / 2 == cfg.cap;
    assert cfg.(cap := cfg.cap) == cfg;
  }

  /** Parses with an array that doubles until it is large enough and no further. The
      loop ends, and parser and tokens are those of one call with the final array. */
  method ParseGrowing(p: Parser, js: string, tok: array<Token>) returns (reply: Reply, grown: array<Token>)
    requires p.Fits(tok) && p.toknext <= p.pos && 0 < tok.Length
    modifies p, tok
    ensures grown == tok || fresh(grown)
    ensures p.Fits(grown) && p.toknext <= p.pos && tok.Length <= grown.Length
    ensures reply != NoMem
    ensures grown == tok || Halved(p.Cfg(grown), js, old(p.Value(tok)))
    ensures var once := Run(p.Cfg(grown), js, old(p.Value(tok)), 0);
      && p.Value(grown) == once.1
      && (reply.Tokens? <==> once.0.Tokens?) && (!reply.Tokens? ==> reply == once.0)
  {
    hide Run, Halved;
    ghost var st := p.Value(tok);
    grown := tok;
    TokensBehind(p.Cfg(grown), js, st, 0);
    reply := p.Parse(js, grown);
    while reply == NoMem
      invariant grown == tok || fresh(grown)
      invariant p.Fits(grown) && tok.Length <= grown.Length
      invariant grown == tok || Halved(p.Cfg(grown), js, st)
      invariant p.toknext <= p.pos && (reply == NoMem ==> grown.Length <= p.toknext && p.pos < |js|)
      invariant var once := Run(p.Cfg(grown), js, st, 0);
        && p.Value(grown) == once.1
        && (reply.Tokens? <==> once.0.Tokens?) && (!reply.Tokens? ==> reply == once.0)
      decreases if reply == NoMem then 1 else 0, |js| - grown.Length
    {
      var more := new Token[2 * grown.Length](
        i requires 0 <= i reads grown => if i < grown.Length then grown[i] else p.junk);
      assert more[..p.toknext] == grown[..p.toknext];
      assert p.Value(more) == p.Value(grown);
      assert !CutsPrimitive(js, js, p.Value(grown));
      IsHalved(p.Cfg(grown), js, st);
      OneMoreCall(p.Cfg(grown), Call(js, grown.Length), Call(js, more.Length), st);
      TokensBehind(p.Cfg(more), js, p.Value(more), 0);
      grown := more;
      reply := p.Parse(js, grown);
    }
  }

  // ---- the reading loop

  function Concat(chunks: seq<string>): string {
    if chunks == [] then "" else Concat(chunks[..|chunks| - 1]) + chunks[|chunks| - 1]
  }

  /** The text has no NUL and no chunk ends inside a primitive of it. */
  ghost predicate CleanCuts(junk: Token, chunks: seq<string>) {
    NulFree(Concat(chunks)) && NoCuts(junk, chunks)
  }

  ghost predicate NoCuts(junk: Token, chunks: seq<string>) {
    var n := |chunks| - 1;
    n <= 0 || (NoCuts(junk, chunks[..n]) &&
      !CutsPrimitive(Concat(chunks[..n]), Concat(chunks), OneParse(junk, Concat(chunks[..n])).1))
  }

  lemma CleanBefore(junk: Token, chunks: seq<string>)
    requires |chunks| > 1 && CleanCuts(junk, chunks)
    ensures var n := |chunks| - 1;
      && CleanCuts(junk, chunks[..n]) && Extends(Concat(chunks[..n]), Concat(chunks))
      && !CutsPrimitive(Concat(chunks[..n]), Concat(chunks), OneParse(junk, Concat(chunks[..n])).1)
  {
    hide Run;
    var a, b := Concat(chunks[..|chunks| - 1]), Concat(chunks);
    assert forall i :: 0 <= i < |a| ==> a[i] == b[i];
  }

  /** The reply and the state agree with those of a single parse of `js`. */
  ghost predicate AsOneParse(junk: Token, js: string, reply: Reply, st: State) {
    var once := OneParse(junk, js);
    st == once.1 && (reply.Tokens? <==> once.0.Tokens?) && (!reply.Tokens? ==> reply == once.0)
  }

  /** A call on top of what one parse of the earlier chunks left. */
  lemma NextChunk(cfg: Config, chunks: seq<string>, st: State)
    requires cfg.build.Scan? && chunks != []
    requires st == if |chunks| == 1 then Init else OneParse(cfg.junk, Concat(chunks[..|chunks| - 1])).1
    requires CleanCuts(cfg.junk, chunks) && Run(cfg, Concat(chunks), st, 0).0 != NoMem
    ensures var later := Run(cfg, Concat(chunks), st, 0); AsOneParse(cfg.junk, Concat(chunks), later.0, later.1)
  {
    hide Run, CutsPrimitive, CleanCuts, Extends;
    var js := Concat(chunks);
    if |chunks| == 1 {
      OneParseIsAny(cfg, js);
    } else {
      var prev := Concat(chunks[..|chunks| - 1]);
      var cap := cfg.cap + |prev|;
      CleanBefore(cfg.junk, chunks);
      OneMoreCall(cfg, Call(prev, |prev|), Call(js, cap), Init);
      MoreIsTheSame(cfg, cap, js, st, 0);
      OneParseIsAny(cfg.(cap := cap), js);
    }
  }

  lemma EmptyText(junk: Token)
    ensures AsOneParse(junk, "", Tokens(0), Init) && Dump("", [], 0, 0) == Walked(0, [], Nothing)
  {
  }

  /** One parse of some of the chunks, from the first on, succeeds. */
  ghost predicate EverParsed(junk: Token, chunks: seq<string>) {
    chunks != [] && (OneParse(junk, Concat(chunks)).0.Tokens? || EverParsed(junk, chunks[..|chunks| - 1]))
  }

  /** Feeds a text chunk by chunk. Whatever the chunks, tokens never run out; and
      if no chunk ends inside a primitive, the last reply and the tokens are those
      of one parse of all the text. What is shown is what the tokens say. No chunk
      at all is an empty text. The end of the input is welcome once any chunk has
      ended in a success, even if the text after it is broken. */
  method Feed(junk: Token, chunks: seq<string>)
    returns (reply: Reply, shown: Walk, p: Parser, tok: array<Token>, eofExpected: bool)
    ensures p.Fits(tok) && reply != NoMem
    ensures CleanCuts(junk, chunks) ==> AsOneParse(junk, Concat(chunks), reply, p.Value(tok))
    ensures reply.Tokens? ==> shown == Dump(Concat(chunks), p.Value(tok).toks, 0, |p.Value(tok).toks|)
    ensures CleanCuts(junk, chunks) ==> (eofExpected <==> EverParsed(junk, chunks))
  {
    hide Run, CutsPrimitive, CleanCuts, Extends, Dump, OneParse;
    p := new Parser(Scan, junk);
    tok := new Token[2](_ => junk);
    var js, i := "", 0;
    reply, shown, eofExpected := Tokens(0), Walked(0, [], Nothing), false;
    assert p.Value(tok) == Init;
    EmptyText(junk);
    while i < |chunks|
      invariant 0 <= i <= |chunks| && js == Concat(chunks[..i]) && fresh(p) && fresh(tok)
      invariant p.Fits(tok) && p.toknext <= p.pos && 0 < tok.Length && p.build == Scan && p.junk == junk && reply != NoMem
      invariant i == 0 ==> p.Value(tok) == Init && !eofExpected
      invariant CleanCuts(junk, chunks[..i]) ==> AsOneParse(junk, js, reply, p.Value(tok))
      invariant CleanCuts(junk, chunks[..i]) ==> (eofExpected <==> EverParsed(junk, chunks[..i]))
      invariant reply.Tokens? ==> shown == Dump(js, p.Value(tok).toks, 0, |p.Value(tok).toks|)
    {
      ghost var st := p.Value(tok);
      js := js + chunks[i];
      i := i + 1;
      ghost var read := chunks[..i];
      assert read[..i - 1] == chunks[..i - 1];
      reply, tok := ParseGrowing(p, js, tok);
      if CleanCuts(junk, read) {
        if i > 1 {
          CleanBefore(junk, read);
        }
        NextChunk(p.Cfg(tok), read, st);
        assert EverParsed(junk, read) <==> reply.Tokens? || EverParsed(junk, chunks[..i - 1]);
      }
      if reply.Tokens? {
        shown := DumpTokens(js, tok[..p.toknext], 0, p.toknext);
        eofExpected := true;
      }
    }
    assert chunks[..|chunks|] == chunks;
  }

  /** End to end: however the text of a JSON tree reaches the loop, if it ends as
      one parse would, then it succeeds and what it shows is the tree. */
  lemma StreamShowsTheTree(junk: Token, lead: string, v: Json, trail: string, reply: Reply, st: State)
    requires IsSpace(lead) && Legal(v) && IsSpace(trail) && AsOneParse(junk, lead + Print(v) + trail, reply, st)
    ensures reply.Tokens?
    ensures Dump(lead + Print(v) + trail, st.toks, 0, |st.toks|) == Walked(Nodes(v), Range(0, Nodes(v)), View(v))
  {
    hide Run, Dump, Print, IsSpace, Legal, Range;
    var cfg := Config(Scan, Nodes(v), junk);
    DumpShowsTheTree(cfg, lead, v, trail);
    RoundTrip(cfg, lead, v, trail);
    PreorderRooted(v, |lead|, 0, -1);
    OneParseIsAny(cfg, lead + Print(v) + trail);
  }
}
