/** The two builds in step on the text of a JSON tree, also when tokens run out.
    Their superior tokens may differ between a member's value and the next comma;
    no token is asked for in between. */
module JsmnAgreement {
  import opened JsmnLexer
  import opened JsmnMachine
  import opened JsonText
  import opened JsmnRoundTrip

  /** The same tokens to fill, in builds that may differ. */
  predicate SameRoom(a: Config, b: Config) {
    a.cap == b.cap
  }

  lemma RunsOut(cfg: Config, js: string, st: State, count: nat)
    requires !AtEnd(js, st.pos) && Read(js, st.pos).Reading? && Read(js, st.pos).ev.MakesToken()
    requires cfg.cap <= |st.toks|
    ensures Run(cfg, js, st, count) == (NoMem, st)
  {
    hide Run, Read;
    RunUnfolds(cfg, js, st, count);
  }

  /** With no token left, a value stops every build at its first character. */
  lemma FullAtValue(a: Config, b: Config, js: string, st: State, count: nat, v: Json)
    requires Legal(v) && At(js, st.pos, Print(v)) && Delimited(js, st.pos + |Print(v)|)
    requires SameRoom(a, b) && a.cap <= |st.toks|
    ensures Run(a, js, st, count) == Run(b, js, st, count)
  {
    hide Run;
    match v {
      case Str(body) => ReadQuoted(js, st.pos, body);
      case Prim(word) =>
        AtChar(js, st.pos, word, 0);
        WordLexes(js, st.pos, word);
      case _ => AtChar(js, st.pos, Print(v), 0);
    }
    RunsOut(a, js, st, count);
    RunsOut(b, js, st, count);
  }

  lemma {:induction false} ShortValue(a: Config, b: Config, js: string, st: State, count: nat, v: Json)
    requires Legal(v) && At(js, st.pos, Print(v)) && Delimited(js, st.pos + |Print(v)|)
    requires SameRoom(a, b) && -1 <= st.super < |st.toks| <= a.cap < |st.toks| + Nodes(v)
    ensures Run(a, js, st, count) == Run(b, js, st, count)
    decreases v, 0
  {
    hide Run, BumpBy, At, Delimited, IsSpace, InContainer, PrintItems, PrintMembers;
    if |st.toks| == a.cap {
      FullAtValue(a, b, js, st, count, v);
    } else if v.Arr? {
      var st1 := Opened(st, Array).(pos := st.pos + 1 + |v.pad|);
      RunOpening(a, js, st, count, Array, v.pad, PrintItems(v.items) + "]");
      RunOpening(b, js, st, count, Array, v.pad, PrintItems(v.items) + "]");
      BracketAfter(js, st1.pos, PrintItems(v.items), "]");
      ShortItems(a, b, js, st1, count + 1, v.items);
    } else {
      var st1 := Opened(st, Object).(pos := st.pos + 1 + |v.pad|);
      RunOpening(a, js, st, count, Object, v.pad, PrintMembers(v.members) + "}");
      RunOpening(b, js, st, count, Object, v.pad, PrintMembers(v.members) + "}");
      BracketAfter(js, st1.pos, PrintMembers(v.members), "}");
      ShortMembers(a, b, js, st1, count + 1, v.members);
    }
  }

  lemma BracketAfter(js: string, p: nat, inner: string, close: string)
    requires At(js, p, inner + close) && (close == "]" || close == "}")
    ensures At(js, p, inner) && Delimited(js, p + |inner|)
  {
    hide At;
    AtSplits(js, p, inner, close);
    AtChar(js, p + |inner|, close, 0);
  }

  /** The same with white space around the value. */
  lemma {:induction false} ShortPadded(a: Config, b: Config, js: string, st: State, count: nat,
                                       before: string, v: Json, after: string, tail: string)
    requires IsSpace(before) && Legal(v) && IsSpace(after)
    requires At(js, st.pos, before + (Print(v) + (after + tail)))
    requires if tail == "" then Delimited(js, st.pos + |before| + |Print(v)| + |after|) else IsDelimiter(tail[0])
    requires SameRoom(a, b) && -1 <= st.super < |st.toks| <= a.cap < |st.toks| + Nodes(v)
    ensures Run(a, js, st, count) == Run(b, js, st, count)
    decreases v, 1
  {
    hide Run, Print, At, IsSpace, Delimited, Legal, Nodes;
    AtSplits(js, st.pos, before, Print(v) + (after + tail));
    RunSpace(a, js, st, count, before);
    RunSpace(b, js, st, count, before);
    var st0 := st.(pos := st.pos + |before|);
    AtSplits(js, st0.pos, Print(v), after + tail);
    AfterSpace(js, st0.pos + |Print(v)|, after, tail);
    ShortValue(a, b, js, st0, count, v);
  }

  lemma {:induction false} ShortItems(a: Config, b: Config, js: string, st: State, count: nat, it: Items)
    requires LegalItems(it) && At(js, st.pos, PrintItems(it)) && Delimited(js, st.pos + |PrintItems(it)|)
    requires SameRoom(a, b) && InContainer(st) && |st.toks| <= a.cap < |st.toks| + ItemNodes(it)
    ensures Run(a, js, st, count) == Run(b, js, st, count)
    decreases it, 0
  {
    hide Run, At, Delimited, IsSpace, BumpBy, Print, Preorder, LastOpen;
    var tail := if it.rest.NoItems? then "" else "," + PrintItems(it.rest);
    ItemAdds(a, st, it);
    if a.cap < |st.toks| + Nodes(it.value) {
      ShortPadded(a, b, js, st, count, it.before, it.value, it.after, tail);
    } else {
      var st0, n := st.(pos := st.pos + |it.before|), count + Nodes(it.value);
      RunPadded(a, js, st, count, it.before, it.value, it.after, tail);
      RunPadded(b, js, st, count, it.before, it.value, it.after, tail);
      ValueInContainer(a, st0, it.value);
      ValueInContainer(b, st0, it.value);
      var st2 := AfterValue(a, st0, it.value).(pos := st0.pos + |Print(it.value)| + |it.after|);
      RunComma(a, js, st2, n, tail, PrintItems(it.rest), st.super);
      RunComma(b, js, st2, n, tail, PrintItems(it.rest), st.super);
      ShortItems(a, b, js, st2.(pos := st2.pos + 1), n, it.rest);
    }
  }

  lemma {:induction false} ShortMembers(a: Config, b: Config, js: string, st: State, count: nat, m: Members)
    requires LegalMembers(m) && At(js, st.pos, PrintMembers(m)) && Delimited(js, st.pos + |PrintMembers(m)|)
    requires SameRoom(a, b) && InContainer(st) && |st.toks| <= a.cap < |st.toks| + MemberNodes(m)
    ensures Run(a, js, st, count) == Run(b, js, st, count)
    decreases m, 0
  {
    hide Run, At, Delimited, AfterMember, CommaSuper, LastOpen, IsSpace, IsBody, Legal, Nodes, PrintMembers;
    var tail := if m.rest.NoMembers? then "" else "," + PrintMembers(m.rest);
    if a.cap < |st.toks| + 1 + Nodes(m.value) {
      ShortMember(a, b, js, st, count, m, tail);
    } else {
      var n := count + 1 + Nodes(m.value);
      MemberAdds(a, st, m);
      MemberAdds(b, st, m);
      AfterMemberTokens(a, st, m);
      AfterMemberTokens(b, st, m);
      RunMember(a, js, st, count, m, tail);
      RunMember(b, js, st, count, m, tail);
      var p := AfterMember(a, st, m).pos + |m.after|;
      CommaAfterMember(a, st, m, p);
      CommaAfterMember(b, st, m, p);
      CommaAfterMember(a, st, m, p + 1);
      RunComma(a, js, AfterMember(a, st, m).(pos := p), n, tail, PrintMembers(m.rest), st.super);
      RunComma(b, js, AfterMember(b, st, m).(pos := p), n, tail, PrintMembers(m.rest), st.super);
      ShortMembers(a, b, js, AfterMember(a, st, m).(pos := p + 1, super := st.super), n, m.rest);
    }
  }

  /** Tokens run out at the key or inside the value of one member. */
  lemma {:induction false} ShortMember(a: Config, b: Config, js: string, st: State, count: nat, m: Members, tail: string)
    requires m.Member? && LegalMembers(m) && tail == (if m.rest.NoMembers? then "" else "," + PrintMembers(m.rest))
    requires At(js, st.pos, PrintMembers(m)) && Delimited(js, st.pos + |PrintMembers(m)|)
    requires SameRoom(a, b) && InContainer(st) && |st.toks| <= a.cap < |st.toks| + 1 + Nodes(m.value)
    ensures Run(a, js, st, count) == Run(b, js, st, count)
    decreases m.value, 2
  {
    hide Run, BumpBy, Print, Quoted, At, Delimited, IsSpace, IsBody, LastOpen, Legal, Nodes;
    var k, rest := st.pos + |m.before|, m.gap + (Print(m.value) + (m.after + tail));
    if |st.toks| == a.cap {
      AtSplits(js, st.pos, m.before, Quoted(m.key) + (m.mid + (":" + rest)));
      RunSpace(a, js, st, count, m.before);
      RunSpace(b, js, st, count, m.before);
      AtSplits(js, k, Quoted(m.key), m.mid + (":" + rest));
      ReadQuoted(js, k, m.key);
      RunsOut(a, js, st.(pos := k), count);
      RunsOut(b, js, st.(pos := k), count);
    } else {
      RunKey(a, js, st, count, m.before, m.key, m.mid, rest);
      RunKey(b, js, st, count, m.before, m.key, m.mid, rest);
      ShortPadded(a, b, js, AfterKey(st, m.key, k, k + |Quoted(m.key)| + |m.mid| + 1), count + 1,
        m.gap, m.value, m.after, tail);
    }
  }

  /** On every JSON text the two algorithms given the same number of tokens, or both
      given enough, answer alike: the same reply, running out included, and the same
      parser and tokens with the same recorded parents. */
  lemma BuildsAgree(a: Config, b: Config, lead: string, v: Json, trail: string)
    requires IsSpace(lead) && Legal(v) && IsSpace(trail)
    requires SameRoom(a, b) || (Nodes(v) <= a.cap && Nodes(v) <= b.cap)
    ensures Run(a, lead + Print(v) + trail, Init, 0) == Run(b, lead + Print(v) + trail, Init, 0)
  {
    hide Run, Print, IsSpace, Legal, Nodes;
    if Nodes(v) <= a.cap && Nodes(v) <= b.cap {
      RoundTrip(a, lead, v, trail);
      RoundTrip(b, lead, v, trail);
    } else {
      var js := lead + Print(v) + trail;
      assert js == lead + (Print(v) + (trail + "")) && js[0..|js|] == js;
      ShortPadded(a, b, js, Init, 0, lead, v, trail, "");
    }
  }

  /** Behind the value of a JSON text a closing bracket tells the builds apart: the
      default one refuses it, the one with parent links passes over it. */
  lemma BuildsDiffer(cfg: Config, lead: string, v: Json, trail: string, bracket: string)
    requires IsSpace(lead) && Legal(v) && IsSpace(trail) && Nodes(v) <= cfg.cap && (bracket == "]" || bracket == "}")
    ensures var js := lead + (Print(v) + (trail + bracket));
      if cfg.build.Scan? then Run(cfg, js, Init, 0).0 == Inval
      else Run(cfg, js, Init, 0) == (Tokens(Nodes(v)), State(|js|, -1, Preorder(v, |lead|, 0, -1)))
  {
    hide Run, Print, IsSpace, Preorder, Legal, Nodes, At, LastOpen, OpenAncestor, Rooted;
    var js := lead + (Print(v) + (trail + bracket));
    assert At(js, 0, js) by { AtAll(js); }
    RunPadded(cfg, js, Init, 0, lead, v, trail, bracket);
    var toks, p := Preorder(v, |lead|, 0, -1), |lead| + |Print(v)| + |trail|;
    AtChar(js, p, bracket, 0);
    PreorderRooted(v, |lead|, 0, -1);
    PositiveNodes(v);
    assert BumpBy([], -1, 1) + toks == toks;
    NothingOpen(toks);
    var st := State(p, -1, toks);
    RunUnfolds(cfg, js, st, Nodes(v));
    if cfg.build.Links? {
      RunUnfolds(cfg, js, st.(pos := p + 1), Nodes(v));
    }
  }

  lemma AtAll(js: string)
    ensures At(js, 0, js)
  {
  }

  lemma NothingOpen(toks: seq<Token>)
    requires Rooted(toks, 0, -1)
    ensures LastOpen(toks, |toks|) == -1 && (toks != [] ==> OpenAncestor(toks, |toks| - 1) == -1)
  {
  }
}
