/** Parsing what was printed: both builds turn the text of a JSON tree into the
    preorder listing of that tree. */
module JsmnRoundTrip {
  import opened JsmnLexer
  import opened JsmnMachine
  import opened JsonText

  // ---- single events

  lemma RunEvent(cfg: Config, js: string, st: State, count: nat, ev: Event, next: nat, st': State)
    requires !AtEnd(js, st.pos) && Read(js, st.pos) == Reading(ev, next) && Apply(cfg, st, ev, next) == Go(st')
    ensures Run(cfg, js, st, count) == Run(cfg, js, st', count + ev.Cost())
  {
    hide Read, Apply;
    RunUnfolds(cfg, js, st, count);
  }

  lemma SpaceHead(s: string)
    requires IsSpace(s) && s != ""
    ensures IsBlank(s[0]) && s == [s[0]] + s[1..] && IsSpace(s[1..])
  {
    ClassesAgree(s[0]);
  }

  lemma {:induction false} RunSpace(cfg: Config, js: string, st: State, count: nat, s: string)
    requires IsSpace(s) && At(js, st.pos, s)
    ensures Run(cfg, js, st, count) == Run(cfg, js, st.(pos := st.pos + |s|), count)
    decreases |s|
  {
    hide Run, IsSpace;
    if s != [] {
      SpaceHead(s);
      AtChar(js, st.pos, s, 0);
      RunEvent(cfg, js, st, count, Blank, st.pos + 1, st.(pos := st.pos + 1));
      hide Read, AtEnd;
      AtSplits(js, st.pos, [s[0]], s[1..]);
      RunSpace(cfg, js, st.(pos := st.pos + 1), count, s[1..]);
    }
  }

  function WithLeaf(st: State, t: Token, next: nat): State {
    State(next, st.super, BumpBy(st.toks, st.super, 1) + [t])
  }

  lemma ReadQuoted(js: string, p: nat, b: seq<StrChar>)
    requires IsBody(b) && At(js, p, Quoted(b))
    ensures var e := p + 1 + |Body(b)|; !AtEnd(js, p) && Read(js, p) == Reading(Leaf(String, p + 1, e), e + 1)
  {
    hide At, IsBody, Body, StrEnd;
    assert Quoted(b) == "\"" + (Body(b) + "\"");
    AtSplits(js, p, "\"", Body(b) + "\"");
    AtChar(js, p, "\"", 0);
    BodyLexes(js, p + 1, b);
  }

  lemma RunQuoted(cfg: Config, js: string, st: State, count: nat, b: seq<StrChar>)
    requires IsBody(b) && At(js, st.pos, Quoted(b)) && |st.toks| < cfg.cap
    ensures Run(cfg, js, st, count) ==
      Run(cfg, js, WithLeaf(st, KeyToken(b, st.pos, 0, st.super), st.pos + |Quoted(b)|), count + 1)
  {
    hide Run, BumpBy, Read, Body, At, IsBody;
    ReadQuoted(js, st.pos, b);
    var e := st.pos + 1 + |Body(b)|;
    RunEvent(cfg, js, st, count, Leaf(String, st.pos + 1, e), e + 1, WithLeaf(st, KeyToken(b, st.pos, 0, st.super), e + 1));
  }

  lemma ReadWord(js: string, p: nat, w: string)
    requires IsWord(w) && At(js, p, w) && (AtEnd(js, p + |w|) || IsDelimiter(js[p + |w|]))
    ensures !AtEnd(js, p) && Read(js, p) == Reading(Leaf(Primitive, p, p + |w|), p + |w|)
  {
    AtChar(js, p, w, 0);
    WordLexes(js, p, w);
    ClassesAgree(w[0]);
  }

  lemma RunWord(cfg: Config, js: string, st: State, count: nat, w: string)
    requires IsWord(w) && At(js, st.pos, w) && |st.toks| < cfg.cap
    requires AtEnd(js, st.pos + |w|) || IsDelimiter(js[st.pos + |w|])
    ensures Run(cfg, js, st, count) ==
      Run(cfg, js, WithLeaf(st, Token(Primitive, st.pos, st.pos + |w|, 0, st.super), st.pos + |w|), count + 1)
  {
    hide Run, BumpBy, Read, At, IsWord;
    var e := st.pos + |w|;
    ReadWord(js, st.pos, w);
    RunEvent(cfg, js, st, count, Leaf(Primitive, st.pos, e), e, WithLeaf(st, Token(Primitive, st.pos, e, 0, st.super), e));
  }

  function Opened(st: State, kind: Kind): State {
    State(st.pos + 1, |st.toks|, BumpBy(st.toks, st.super, 1) + [Token(kind, st.pos, -1, 0, st.super)])
  }

  lemma RunOpen(cfg: Config, js: string, st: State, count: nat, kind: Kind)
    requires kind.IsContainer() && st.pos < |js| && js[st.pos] == (if kind == Object then '{' else '[')
    requires |st.toks| < cfg.cap
    ensures Run(cfg, js, st, count) == Run(cfg, js, Opened(st, kind), count + 1)
  {
    hide Run, BumpBy;
    RunEvent(cfg, js, st, count, Open(kind), st.pos + 1, Opened(st, kind));
  }

  // ---- closing brackets

  /** Where a closed container leaves `toksuper`: the scans find the next open
      container, the links lead back to the key or container above it. */
  function SuperAfter(cfg: Config, st: State): int {
    if cfg.build.Links? then st.super else LastOpen(st.toks, |st.toks|)
  }

  lemma {:induction false} Climb(toks: seq<Token>, idx: nat, i: nat)
    requires idx <= i < |toks| && toks[idx].IsOpen()
    requires forall j :: idx < j < |toks| ==> !toks[j].IsOpen() && idx <= toks[j].parent < j
    ensures OpenAncestor(toks, i) == idx
    decreases i
  {
    if i != idx {
      Climb(toks, idx, toks[i].parent);
    }
  }

  lemma LastOpenSame(a: seq<Token>, b: seq<Token>, n: nat)
    requires n <= |a| && n <= |b| && forall i :: 0 <= i < n ==> a[i].IsOpen() == b[i].IsOpen()
    ensures LastOpen(a, n) == LastOpen(b, n)
  {
  }

  /** The tokens while a container is open, and once it is closed. */
  function Inside(st: State, kind: Kind, k: nat, inner: seq<Token>): seq<Token> {
    BumpBy(Opened(st, kind).toks, |st.toks|, k) + inner
  }

  function Closed(st: State, kind: Kind, end: nat, k: nat, inner: seq<Token>): seq<Token> {
    BumpBy(st.toks, st.super, 1) + ([Token(kind, st.pos, end, k, st.super)] + inner)
  }

  lemma CloseInside(st: State, kind: Kind, end: nat, k: nat, inner: seq<Token>)
    requires -1 <= st.super < |st.toks| && Rooted(inner, |st.toks| + 1, |st.toks|)
    ensures var toks, n := Inside(st, kind, k, inner), |st.toks|;
      && n < |toks| && toks[n] == Token(kind, st.pos, -1, k, st.super)
      && toks[n := toks[n].(end := end)] == Closed(st, kind, end, k, inner)
      && LastOpen(toks, |toks|) == n && LastOpen(toks, n) == LastOpen(st.toks, n)
      && OpenAncestor(toks, |toks| - 1) == n
  {
    var toks, n := Inside(st, kind, k, inner), |st.toks|;
    assert toks[n] == Token(kind, st.pos, -1, k, st.super);
    assert forall j :: n < j < |toks| ==> toks[j] == inner[j - (n + 1)];
    assert forall j :: 0 <= j < n ==> toks[j] == BumpBy(st.toks, st.super, 1)[j];
    Climb(toks, n, |toks| - 1);
    LastOpenSame(toks, st.toks, n);
  }

  lemma RunClose(cfg: Config, js: string, st: State, count: nat, kind: Kind, q: nat, super: int, k: nat, inner: seq<Token>)
    requires -1 <= st.super < |st.toks| && Rooted(inner, |st.toks| + 1, |st.toks|)
    requires kind.IsContainer() && q < |js| && js[q] == (if kind == Object then '}' else ']')
    ensures Run(cfg, js, State(q, super, Inside(st, kind, k, inner)), count) ==
      Run(cfg, js, State(q + 1, SuperAfter(cfg, st), Closed(st, kind, q + 1, k, inner)), count)
  {
    hide Run, Inside, Closed, LastOpen, OpenAncestor, Rooted, BumpBy;
    CloseInside(st, kind, q + 1, k, inner);
    RunEvent(cfg, js, State(q, super, Inside(st, kind, k, inner)), count, Close(kind), q + 1,
      State(q + 1, SuperAfter(cfg, st), Closed(st, kind, q + 1, k, inner)));
  }

  // ---- whole values

  function AfterValue(cfg: Config, st: State, v: Json): State {
    State(st.pos + |Print(v)|, if v.Arr? || v.Obj? then SuperAfter(cfg, st) else st.super,
          BumpBy(st.toks, st.super, 1) + Preorder(v, st.pos, |st.toks|, st.super))
  }

  ghost predicate Delimited(js: string, p: nat) {
    AtEnd(js, p) || IsDelimiter(js[p])
  }

  /** `toksuper` names the innermost open container. */
  ghost predicate InContainer(st: State) {
    && 0 <= st.super < |st.toks|
    && st.toks[st.super].IsOpen() && st.toks[st.super].kind.IsContainer()
    && LastOpen(st.toks, |st.toks|) == st.super
  }

  lemma AfterSpace(js: string, p: nat, space: string, tail: string)
    requires At(js, p, space + tail) && IsSpace(space)
    requires if tail == "" then Delimited(js, p + |space|) else IsDelimiter(tail[0])
    ensures Delimited(js, p)
  {
    if space + tail != "" {
      AtChar(js, p, space + tail, 0);
      if space != "" {
        SpaceHead(space);
      }
    }
  }

  lemma {:induction false} RunValue(cfg: Config, js: string, st: State, count: nat, v: Json)
    requires Legal(v) && At(js, st.pos, Print(v)) && Delimited(js, st.pos + |Print(v)|)
    requires -1 <= st.super < |st.toks| && |st.toks| + Nodes(v) <= cfg.cap
    ensures Run(cfg, js, st, count) == Run(cfg, js, AfterValue(cfg, st, v), count + Nodes(v))
    decreases v, 0
  {
    hide Run;
    match v
    case Str(body) => RunQuoted(cfg, js, st, count, body);
    case Prim(word) => RunWord(cfg, js, st, count, word);
    case Arr(pad, items) => RunArray(cfg, js, st, count, pad, items);
    case Obj(pad, members) => RunObject(cfg, js, st, count, pad, members);
  }

  /** The bracket and the white space after it. */
  lemma RunOpening(cfg: Config, js: string, st: State, count: nat, kind: Kind, pad: string, rest: string)
    requires kind.IsContainer() && |st.toks| < cfg.cap && -1 <= st.super < |st.toks| && IsSpace(pad)
    requires At(js, st.pos, (if kind == Object then "{" else "[") + (pad + rest))
    ensures var st1 := Opened(st, kind).(pos := st.pos + 1 + |pad|);
      && At(js, st1.pos, rest) && InContainer(st1)
      && Run(cfg, js, st, count) == Run(cfg, js, st1, count + 1)
  {
    hide Run, At, IsSpace;
    var br := if kind == Object then "{" else "[";
    AtSplits(js, st.pos, br, pad + rest);
    AtChar(js, st.pos, br, 0);
    AtSplits(js, st.pos + 1, pad, rest);
    RunOpen(cfg, js, st, count, kind);
    RunSpace(cfg, js, Opened(st, kind), count + 1, pad);
  }

  lemma {:induction false} RunArray(cfg: Config, js: string, st: State, count: nat, pad: string, items: Items)
    requires Legal(Arr(pad, items)) && At(js, st.pos, Print(Arr(pad, items)))
    requires -1 <= st.super < |st.toks| && |st.toks| + Nodes(Arr(pad, items)) <= cfg.cap
    ensures Run(cfg, js, st, count) ==
      Run(cfg, js, AfterValue(cfg, st, Arr(pad, items)), count + Nodes(Arr(pad, items)))
    decreases items, 1
  {
    hide Run, BumpBy, PrintItems, ItemTokens, InContainer, At, IsSpace;
    var n, p := |st.toks|, st.pos + 1 + |pad|;
    RunOpening(cfg, js, st, count, Array, pad, PrintItems(items) + "]");
    AtSplits(js, p, PrintItems(items), "]");
    AtChar(js, p + |PrintItems(items)|, "]", 0);
    RunItems(cfg, js, Opened(st, Array).(pos := p), count + 1, items);
    ItemsRooted(items, p, n + 1, n);
    RunClose(cfg, js, st, count + 1 + ItemNodes(items), Array, p + |PrintItems(items)|, n,
      ItemCount(items), ItemTokens(items, p, n + 1, n));
  }

  lemma {:induction false} RunObject(cfg: Config, js: string, st: State, count: nat, pad: string, members: Members)
    requires Legal(Obj(pad, members)) && At(js, st.pos, Print(Obj(pad, members)))
    requires -1 <= st.super < |st.toks| && |st.toks| + Nodes(Obj(pad, members)) <= cfg.cap
    ensures Run(cfg, js, st, count) ==
      Run(cfg, js, AfterValue(cfg, st, Obj(pad, members)), count + Nodes(Obj(pad, members)))
    decreases members, 1
  {
    hide Run, BumpBy, PrintMembers, MemberTokens, InContainer, At, IsSpace;
    var n, p := |st.toks|, st.pos + 1 + |pad|;
    RunOpening(cfg, js, st, count, Object, pad, PrintMembers(members) + "}");
    AtSplits(js, p, PrintMembers(members), "}");
    AtChar(js, p + |PrintMembers(members)|, "}", 0);
    var super' := RunMembers(cfg, js, Opened(st, Object).(pos := p), count + 1, members);
    MembersRooted(members, p, n + 1, n);
    RunClose(cfg, js, st, count + 1 + MemberNodes(members), Object, p + |PrintMembers(members)|, super',
      MemberCount(members), MemberTokens(members, p, n + 1, n));
  }

  // ---- array elements

  function AfterItems(st: State, items: Items): State {
    State(st.pos + |PrintItems(items)|, st.super,
          BumpBy(st.toks, st.super, ItemCount(items)) + ItemTokens(items, st.pos, |st.toks|, st.super))
  }

  lemma AfterNoItems(st: State)
    requires 0 <= st.super < |st.toks|
    ensures AfterItems(st, NoItems) == st
  {
  }

  lemma BumpAppend(a: seq<Token>, b: seq<Token>, s: int, j: nat, k: nat)
    requires 0 <= s < |a|
    ensures BumpBy(BumpBy(a, s, j) + b, s, k) == BumpBy(a, s, j + k) + b
  {
  }

  lemma Regroup(a: seq<Token>, b: seq<Token>, c: seq<Token>)
    ensures (a + b) + c == a + (b + c)
  {
  }

  /** The first element and then the rest, as one listing. */
  lemma AfterItemsUnfolds(st: State, items: Items)
    requires items.Item? && 0 <= st.super < |st.toks|
    ensures var p := st.pos + |items.before|;
      var toks := BumpBy(st.toks, st.super, 1) + Preorder(items.value, p, |st.toks|, st.super);
      var st1 := State(p + |Print(items.value)| + |items.after| + 1, st.super, toks);
      && (items.rest.NoItems? ==> AfterItems(st, items) == st1.(pos := st1.pos - 1))
      && (items.rest.Item? ==> AfterItems(st, items) == AfterItems(st1, items.rest))
  {
    hide BumpBy, Preorder, Print;
    var p, k := st.pos + |items.before|, ItemCount(items.rest);
    var one := Preorder(items.value, p, |st.toks|, st.super);
    PreorderRooted(items.value, p, |st.toks|, st.super);
    BumpAppend(st.toks, one, st.super, 1, k);
    Regroup(BumpBy(st.toks, st.super, k + 1), one,
      ItemTokens(items.rest, p + |Print(items.value)| + |items.after| + 1, |st.toks| + |one|, st.super));
  }

  lemma ValueInContainer(cfg: Config, st: State, v: Json)
    requires InContainer(st)
    ensures AfterValue(cfg, st, v).super == st.super && InContainer(AfterValue(cfg, st, v))
  {
    PreorderRooted(v, st.pos, |st.toks|, st.super);
    var toks := AfterValue(cfg, st, v).toks;
    assert forall j :: |st.toks| <= j < |toks| ==> !toks[j].IsOpen();
    assert forall j :: 0 <= j < |st.toks| ==> toks[j].IsOpen() == st.toks[j].IsOpen();
  }

  /** A value with white space around it, up to a comma or to the end. */
  lemma {:induction false} RunPadded(cfg: Config, js: string, st: State, count: nat,
                                     before: string, v: Json, after: string, tail: string)
    requires IsSpace(before) && Legal(v) && IsSpace(after)
    requires At(js, st.pos, before + (Print(v) + (after + tail)))
    requires if tail == "" then Delimited(js, st.pos + |before| + |Print(v)| + |after|) else IsDelimiter(tail[0])
    requires -1 <= st.super < |st.toks| && |st.toks| + Nodes(v) <= cfg.cap
    ensures var st1 := AfterValue(cfg, st.(pos := st.pos + |before|), v);
      && At(js, st1.pos + |after|, tail)
      && Run(cfg, js, st, count) == Run(cfg, js, st1.(pos := st1.pos + |after|), count + Nodes(v))
    decreases v, 1
  {
    hide Run, BumpBy, Print, Preorder, At, IsSpace, Delimited, Legal, Nodes;
    AtSplits(js, st.pos, before, Print(v) + (after + tail));
    RunSpace(cfg, js, st, count, before);
    var st0 := st.(pos := st.pos + |before|);
    AtSplits(js, st0.pos, Print(v), after + tail);
    AfterSpace(js, st0.pos + |Print(v)|, after, tail);
    RunValue(cfg, js, st0, count, v);
    var st1 := AfterValue(cfg, st0, v);
    AtSplits(js, st1.pos, after, tail);
    RunSpace(cfg, js, st1, count + Nodes(v), after);
  }

  lemma ItemsLength(it: Items)
    requires it.Item?
    ensures |PrintItems(it)| == |it.before| + |Print(it.value)| + |it.after|
      + if it.rest.NoItems? then 0 else 1 + |PrintItems(it.rest)|
  {
    hide Print;
  }

  lemma ItemAdds(cfg: Config, st: State, it: Items)
    requires it.Item? && 0 <= st.super < |st.toks|
    ensures var st1 := AfterValue(cfg, st.(pos := st.pos + |it.before|), it.value);
      && |st1.toks| == |st.toks| + Nodes(it.value)
      && st1.pos + |it.after| + (if it.rest.NoItems? then 0 else 1 + |PrintItems(it.rest)|) == st.pos + |PrintItems(it)|
  {
    hide BumpBy, Preorder, Print, PrintItems, Rooted;
    ItemsLength(it);
    PreorderRooted(it.value, st.pos + |it.before|, |st.toks|, st.super);
  }

  lemma {:induction false} RunItems(cfg: Config, js: string, st: State, count: nat, it: Items)
    requires LegalItems(it) && At(js, st.pos, PrintItems(it)) && Delimited(js, st.pos + |PrintItems(it)|)
    requires InContainer(st) && |st.toks| + ItemNodes(it) <= cfg.cap
    ensures Run(cfg, js, st, count) == Run(cfg, js, AfterItems(st, it), count + ItemNodes(it))
    decreases it, 0
  {
    hide Run, At, Delimited, AfterItems, IsSpace, BumpBy, Print, Preorder;
    if it.NoItems? {
      AfterNoItems(st);
      return;
    }
    var tail := if it.rest.NoItems? then "" else "," + PrintItems(it.rest);
    ItemAdds(cfg, st, it);
    var st0, n := st.(pos := st.pos + |it.before|), count + Nodes(it.value);
    var st1 := AfterValue(cfg, st0, it.value);
    RunPadded(cfg, js, st, count, it.before, it.value, it.after, tail);
    AfterItemsUnfolds(st, it);
    ValueInContainer(cfg, st0, it.value);
    if it.rest.Item? {
      hide PrintItems;
      var st2 := st1.(pos := st1.pos + |it.after|);
      RunComma(cfg, js, st2, n, tail, PrintItems(it.rest), st.super);
      RunItems(cfg, js, st2.(pos := st2.pos + 1), n, it.rest);
    }
  }

  lemma RunComma(cfg: Config, js: string, st: State, count: nat, tail: string, rest: string, super': int)
    requires tail == "," + rest && At(js, st.pos, tail) && CommaSuper(cfg, st) == super'
    ensures At(js, st.pos + 1, rest)
    ensures Run(cfg, js, st, count) == Run(cfg, js, st.(pos := st.pos + 1, super := super'), count)
  {
    hide Run, CommaSuper, At;
    AtChar(js, st.pos, tail, 0);
    AtSplits(js, st.pos, ",", rest);
    RunEvent(cfg, js, st, count, Comma, st.pos + 1, st.(pos := st.pos + 1, super := super'));
  }

  // ---- object members

  function AfterMembers(st: State, members: Members, super': int): State {
    State(st.pos + |PrintMembers(members)|, super',
          BumpBy(st.toks, st.super, MemberCount(members)) + MemberTokens(members, st.pos, |st.toks|, st.super))
  }

  lemma AfterNoMembers(st: State)
    requires 0 <= st.super < |st.toks|
    ensures AfterMembers(st, NoMembers, st.super) == st
  {
  }

  /** The parser behind the colon of a member: the key is now superior. */
  function AfterKey(st: State, key: seq<StrChar>, k: nat, next: nat): State {
    State(next, |st.toks|, BumpBy(st.toks, st.super, 1) + [KeyToken(key, k, 0, st.super)])
  }

  lemma RunKey(cfg: Config, js: string, st: State, count: nat, before: string, key: seq<StrChar>, mid: string, rest: string)
    requires IsSpace(before) && IsBody(key) && IsSpace(mid) && |st.toks| < cfg.cap
    requires At(js, st.pos, before + (Quoted(key) + (mid + (":" + rest))))
    ensures var k := st.pos + |before|; var next := k + |Quoted(key)| + |mid| + 1;
      && At(js, next, rest)
      && Run(cfg, js, st, count) == Run(cfg, js, AfterKey(st, key, k, next), count + 1)
  {
    hide Run, BumpBy, Quoted, At, IsSpace, IsBody;
    AtSplits(js, st.pos, before, Quoted(key) + (mid + (":" + rest)));
    RunSpace(cfg, js, st, count, before);
    var st0 := st.(pos := st.pos + |before|);
    AtSplits(js, st0.pos, Quoted(key), mid + (":" + rest));
    RunQuoted(cfg, js, st0, count, key);
    var st1 := WithLeaf(st0, KeyToken(key, st0.pos, 0, st.super), st0.pos + |Quoted(key)|);
    AtSplits(js, st1.pos, mid, ":" + rest);
    RunSpace(cfg, js, st1, count + 1, mid);
    var st2 := st1.(pos := st1.pos + |mid|);
    AtSplits(js, st2.pos, ":", rest);
    AtChar(js, st2.pos, ":", 0);
    RunEvent(cfg, js, st2, count + 1, Colon, st2.pos + 1, st2.(pos := st2.pos + 1, super := |st2.toks| - 1));
  }

  /** The state behind a member's value. */
  function AfterMember(cfg: Config, st: State, m: Members): State
    requires m.Member?
  {
    var k := st.pos + |m.before|;
    AfterValue(cfg, AfterKey(st, m.key, k, k + |Quoted(m.key)| + |m.mid| + 1 + |m.gap|), m.value)
  }

  lemma AfterMemberTokens(cfg: Config, st: State, m: Members)
    requires m.Member?
    ensures var k := st.pos + |m.before|; var p := k + |Quoted(m.key)| + |m.mid| + 1 + |m.gap|;
      var st1 := AfterMember(cfg, st, m);
      && st1.pos == p + |Print(m.value)|
      && st1.toks == BumpBy(st.toks, st.super, 1)
           + ([KeyToken(m.key, k, 1, st.super)] + Preorder(m.value, p, |st.toks| + 1, |st.toks|))
  {
    hide Print, Preorder, Quoted, Body;
    var k := st.pos + |m.before|;
    var kst := AfterKey(st, m.key, k, k + |Quoted(m.key)| + |m.mid| + 1 + |m.gap|);
    assert BumpBy(kst.toks, |st.toks|, 1) == BumpBy(st.toks, st.super, 1) + [KeyToken(m.key, k, 1, st.super)];
  }

  /** After a member's value `toksuper` is the key or the object, by build and by
      kind of value; a comma leads back to the object in every case. */
  lemma CommaAfterMember(cfg: Config, st: State, m: Members, after: nat)
    requires InContainer(st) && m.Member?
    ensures var st1 := AfterMember(cfg, st, m);
      && CommaSuper(cfg, st1.(pos := after)) == st.super
      && InContainer(State(after, st.super, st1.toks))
  {
    hide Print, Preorder, Quoted, Body;
    var k, n := st.pos + |m.before|, |st.toks|;
    var p := k + |Quoted(m.key)| + |m.mid| + 1 + |m.gap|;
    PreorderRooted(m.value, p, n + 1, n);
    AfterMemberTokens(cfg, st, m);
    var toks := AfterMember(cfg, st, m).toks;
    assert toks[n] == KeyToken(m.key, k, 1, st.super);
    assert forall j :: n < j < |toks| ==> toks[j] == Preorder(m.value, p, n + 1, n)[j - (n + 1)];
    assert forall j :: 0 <= j < n ==> toks[j].IsOpen() == st.toks[j].IsOpen() && toks[j].kind == st.toks[j].kind;
    assert LastOpen(toks, |toks|) == st.super;
    assert LastOpenContainer(toks, |toks|) == st.super;
    var kst := AfterKey(st, m.key, k, p);
    assert LastOpen(kst.toks, |kst.toks|) == st.super;
  }

  lemma MembersLength(m: Members)
    requires m.Member?
    ensures |PrintMembers(m)| == |m.before| + |Quoted(m.key)| + |m.mid| + 1 + |m.gap| + |Print(m.value)| + |m.after|
      + if m.rest.NoMembers? then 0 else 1 + |PrintMembers(m.rest)|
  {
    hide Print, Quoted;
  }

  /** The first member and then the rest, as one listing. */
  lemma AfterMembersUnfolds(cfg: Config, st: State, m: Members, super': int)
    requires m.Member? && 0 <= st.super < |st.toks|
    ensures var st1 := AfterMember(cfg, st, m); var q := st1.pos + |m.after|;
      && (m.rest.NoMembers? ==> AfterMembers(st, m, super') == State(q, super', st1.toks))
      && (m.rest.Member? ==> AfterMembers(st, m, super') == AfterMembers(State(q + 1, st.super, st1.toks), m.rest, super'))
  {
    hide BumpBy, Preorder, Print, PrintMembers, Quoted, AfterMember, KeyToken;
    AfterMemberTokens(cfg, st, m);
    MembersLength(m);
    var n, c, k := |st.toks|, MemberCount(m.rest), st.pos + |m.before|;
    var p := k + |Quoted(m.key)| + |m.mid| + 1 + |m.gap|;
    var one := [KeyToken(m.key, k, 1, st.super)] + Preorder(m.value, p, n + 1, n);
    PreorderRooted(m.value, p, n + 1, n);
    var more := MemberTokens(m.rest, p + |Print(m.value)| + |m.after| + 1, n + 1 + Nodes(m.value), st.super);
    assert MemberTokens(m, st.pos, n, st.super) == one + more && MemberCount(m) == 1 + c;
    assert m.rest.NoMembers? ==> more == [] && c == 0;
    hide MemberTokens, MemberCount;
    BumpAppend(st.toks, one, st.super, 1, c);
    Regroup(BumpBy(st.toks, st.super, c + 1), one, more);
  }

  /** A key, its colon and its value. */
  lemma {:induction false} RunMember(cfg: Config, js: string, st: State, count: nat, m: Members, tail: string)
    requires m.Member? && LegalMembers(m) && tail == (if m.rest.NoMembers? then "" else "," + PrintMembers(m.rest))
    requires At(js, st.pos, PrintMembers(m)) && Delimited(js, st.pos + |PrintMembers(m)|)
    requires |st.toks| + 1 + Nodes(m.value) <= cfg.cap
    ensures var st1 := AfterMember(cfg, st, m);
      && At(js, st1.pos + |m.after|, tail)
      && Run(cfg, js, st, count) == Run(cfg, js, st1.(pos := st1.pos + |m.after|), count + 1 + Nodes(m.value))
    decreases m.value, 2
  {
    hide Run, BumpBy, Print, Preorder, Quoted, At, Delimited, IsSpace, IsBody;
    var k := st.pos + |m.before|;
    RunKey(cfg, js, st, count, m.before, m.key, m.mid, m.gap + (Print(m.value) + (m.after + tail)));
    RunPadded(cfg, js, AfterKey(st, m.key, k, k + |Quoted(m.key)| + |m.mid| + 1), count + 1, m.gap, m.value, m.after, tail);
  }

  lemma {:induction false} RunMembers(cfg: Config, js: string, st: State, count: nat, m: Members) returns (super': int)
    requires LegalMembers(m) && At(js, st.pos, PrintMembers(m)) && Delimited(js, st.pos + |PrintMembers(m)|)
    requires InContainer(st) && |st.toks| + MemberNodes(m) <= cfg.cap
    ensures Run(cfg, js, st, count) == Run(cfg, js, AfterMembers(st, m, super'), count + MemberNodes(m))
    decreases m, 0
  {
    hide Run, At, Delimited, AfterMembers, AfterMember, PrintMembers, CommaSuper, LastOpen, IsSpace, IsBody, Legal, Nodes;
    if m.NoMembers? {
      AfterNoMembers(st);
      return st.super;
    }
    MemberAdds(cfg, st, m);
    var tail := if m.rest.NoMembers? then "" else "," + PrintMembers(m.rest);
    RunMember(cfg, js, st, count, m, tail);
    var st1 := AfterMember(cfg, st, m);
    var st2, n := st1.(pos := st1.pos + |m.after|), count + 1 + Nodes(m.value);
    super' := st1.super;
    if m.rest.Member? {
      CommaAfterMember(cfg, st, m, st2.pos);
      CommaAfterMember(cfg, st, m, st2.pos + 1);
      RunComma(cfg, js, st2, n, tail, PrintMembers(m.rest), st.super);
      super' := RunMembers(cfg, js, st2.(pos := st2.pos + 1, super := st.super), n, m.rest);
    }
    AfterMembersUnfolds(cfg, st, m, super');
  }

  lemma MemberAdds(cfg: Config, st: State, m: Members)
    requires m.Member? && 0 <= st.super < |st.toks|
    ensures |AfterMember(cfg, st, m).toks| == |st.toks| + 1 + Nodes(m.value)
    ensures AfterMember(cfg, st, m).pos + |m.after| + (if m.rest.NoMembers? then 0 else 1 + |PrintMembers(m.rest)|)
      == st.pos + |PrintMembers(m)|
  {
    hide BumpBy, Preorder, Print, PrintMembers, Quoted, Rooted, AfterMember;
    AfterMemberTokens(cfg, st, m);
    MembersLength(m);
    PreorderRooted(m.value, AfterMember(cfg, st, m).pos - |Print(m.value)|, |st.toks| + 1, |st.toks|);
  }

  // ---- the theorems

  /** For every JSON tree, in every layout, either build given enough tokens
      returns the number of nodes, stops at the end of the text and has filled
      exactly the preorder listing of the tree. */
  lemma RoundTrip(cfg: Config, lead: string, v: Json, trail: string)
    requires IsSpace(lead) && Legal(v) && IsSpace(trail) && Nodes(v) <= cfg.cap
    ensures var js := lead + Print(v) + trail;
      Run(cfg, js, Init, 0) == (Tokens(Nodes(v)), State(|js|, -1, Preorder(v, |lead|, 0, -1)))
  {
    hide Run, Print, IsSpace, Preorder;
    var js := lead + Print(v) + trail;
    assert js == lead + (Print(v) + (trail + "")) && js[0..|js|] == js;
    RunPadded(cfg, js, Init, 0, lead, v, trail, "");
    var toks := Preorder(v, |lead|, 0, -1);
    PreorderRooted(v, |lead|, 0, -1);
    assert BumpBy([], -1, 1) + toks == toks;
    RunAtEnd(cfg, js, State(|js|, -1, toks), Nodes(v));
  }

  lemma RunAtEnd(cfg: Config, js: string, st: State, count: nat)
    requires |js| <= st.pos && forall i :: 0 <= i < |st.toks| ==> !st.toks[i].IsOpen()
    ensures Run(cfg, js, st, count) == (Tokens(count), st)
  {
  }
}
