/** `jsondump.c`: the size-driven walk over a flat token array. The printed text
    is kept as the tree it lays out. */
module JsonDump {
  import opened JsmnLexer
  import opened JsmnMachine
  import opened JsonText
  import opened JsmnRoundTrip

  /** What `dump` writes: plain and quoted scalars, `key: value` lines, dashes. */
  datatype Yaml =
    | Nothing
    | Bare(text: string)
    | Quote(text: string)
    | Mapping(entries: seq<Yaml>)
    | Sequence(entries: seq<Yaml>)

  /** A walk returns how far it moved, which tokens it looked at and what it
      wrote; or it read outside the tokens or the text. */
  datatype Walk = Fault | Walked(n: nat, seen: seq<nat>, out: Yaml)

  datatype Walks = Faults | Walkeds(j: nat, seen: seq<nat>, outs: seq<Yaml>)

  /** How many times a container's loop calls `dump`. */
  function Calls(t: Token): nat {
    if t.size <= 0 then 0 else if t.kind == Object then 2 * t.size else t.size
  }

  /** `count` goes down by what was walked and is only compared with zero; the C
      type would wrap below zero and compare unequal too. */
  function Dump(js: string, toks: seq<Token>, at: nat, count: int): Walk
    decreases |toks| - at, 0, 0
  {
    if count == 0 then Walked(0, [], Nothing)
    else if at >= |toks| then Fault
    else
      var t := toks[at];
      if t.kind.IsContainer() then
        match DumpInner(js, toks, at, count, 0, Calls(t))
        case Faults => Fault
        case Walkeds(j, seen, outs) =>
          Walked(j + 1, [at] + seen, if t.kind == Object then Mapping(outs) else Sequence(outs))
      else if 0 <= t.start <= t.end <= |js| then
        var text := js[t.start..t.end];
        Walked(1, [at], if t.kind == String then Quote(text) else Bare(text))
      else Fault
  }

  /** The `k` calls left to do inside the container at `at`, `j` tokens in. */
  function DumpInner(js: string, toks: seq<Token>, at: nat, count: int, j: nat, k: nat): Walks
    requires at < |toks|
    decreases |toks| - at - 1, 1, k
  {
    if k == 0 then Walkeds(j, [], [])
    else
      match Dump(js, toks, at + 1 + j, count - j)
      case Fault => Faults
      case Walked(n, seen, out) => Before(seen, out, DumpInner(js, toks, at, count, j + n, k - 1))
  }

  function Before(seen: seq<nat>, out: Yaml, w: Walks): Walks {
    if w.Faults? then Faults else Walkeds(w.j, seen + w.seen, [out] + w.outs)
  }

  /** `dump` itself: recursive, with a loop that adds up the tokens walked. */
  method DumpTokens(js: string, toks: seq<Token>, at: nat, count: int) returns (w: Walk)
    ensures w == Dump(js, toks, at, count)
    decreases |toks| - at
  {
    if count == 0 {
      return Walked(0, [], Nothing);
    }
    if at >= |toks| {
      return Fault;
    }
    var t := toks[at];
    if t.kind == Primitive || t.kind == String {
      if !(0 <= t.start <= t.end <= |js|) {
        return Fault;
      }
      return Walked(1, [at], if t.kind == String then Quote(js[t.start..t.end]) else Bare(js[t.start..t.end]));
    }
    var j: nat, seen, outs := 0, [], [];
    var i, calls := 0, Calls(t);
    while i < calls
      invariant 0 <= i <= calls
      invariant DumpInner(js, toks, at, count, 0, calls) ==
        After(seen, outs, DumpInner(js, toks, at, count, j, calls - i))
    {
      var one := DumpTokens(js, toks, at + 1 + j, count - j);
      if one.Fault? {
        return Fault;
      }
      AfterBefore(seen, outs, one.seen, one.out, DumpInner(js, toks, at, count, j + one.n, calls - i - 1));
      j, seen, outs := j + one.n, seen + one.seen, outs + [one.out];
      i := i + 1;
    }
    assert seen + [] == seen && outs + [] == outs;
    w := Walked(j + 1, [at] + seen, if t.kind == Object then Mapping(outs) else Sequence(outs));
  }

  function After(seen: seq<nat>, outs: seq<Yaml>, w: Walks): Walks {
    if w.Faults? then Faults else Walkeds(w.j, seen + w.seen, outs + w.outs)
  }

  lemma AfterBefore(seen: seq<nat>, outs: seq<Yaml>, s: seq<nat>, o: Yaml, w: Walks)
    ensures After(seen, outs, Before(s, o, w)) == After(seen + s, outs + [o], w)
  {
    if w.Walkeds? {
      assert seen + (s + w.seen) == (seen + s) + w.seen && outs + ([o] + w.outs) == (outs + [o]) + w.outs;
    }
  }

  // ---- the tree that the walk should show

  function View(v: Json): Yaml {
    match v
    case Str(body) => Quote(Body(body))
    case Prim(word) => Bare(word)
    case Arr(_, items) => Sequence(ViewItems(items))
    case Obj(_, members) => Mapping(ViewMembers(members))
  }

  function ViewItems(items: Items): seq<Yaml> {
    match items
    case NoItems => []
    case Item(_, value, _, rest) => [View(value)] + ViewItems(rest)
  }

  function ViewMembers(members: Members): seq<Yaml> {
    match members
    case NoMembers => []
    case Member(_, key, _, _, value, _, rest) => [Quote(Body(key))] + ([View(value)] + ViewMembers(rest))
  }

  function Range(from: nat, n: nat): (r: seq<nat>)
    ensures |r| == n && forall i :: 0 <= i < n ==> r[i] == from + i
  {
    seq(n, i requires 0 <= i => from + i)
  }

  /** The listing `ts` stands in `toks` at `at`. */
  ghost predicate Holds(toks: seq<Token>, at: nat, ts: seq<Token>) {
    at + |ts| <= |toks| && toks[at..at + |ts|] == ts
  }

  lemma HoldsSplits(toks: seq<Token>, at: nat, a: seq<Token>, b: seq<Token>)
    requires Holds(toks, at, a + b)
    ensures Holds(toks, at, a) && Holds(toks, at + |a|, b)
  {
    assert toks[at..at + |a + b|][..|a|] == a && toks[at..at + |a + b|][|a|..] == b;
    assert toks[at..at + |a + b|][..|a|] == toks[at..at + |a|];
    assert toks[at..at + |a + b|][|a|..] == toks[at + |a|..at + |a + b|];
  }

  lemma HoldsFirst(toks: seq<Token>, at: nat, t: Token, b: seq<Token>)
    requires Holds(toks, at, [t] + b)
    ensures at < |toks| && toks[at] == t && Holds(toks, at + 1, b)
  {
    HoldsSplits(toks, at, [t], b);
    assert toks[at..at + 1][0] == toks[at];
  }

  lemma RangeJoins(from: nat, a: nat, b: nat)
    ensures Range(from, a) + Range(from + a, b) == Range(from, a + b)
  {
  }

  lemma DumpQuoted(js: string, toks: seq<Token>, at: nat, count: int, key: seq<StrChar>, off: nat, size: nat, parent: int)
    requires at < |toks| && toks[at] == KeyToken(key, off, size, parent) && count != 0
    requires At(js, off, Quoted(key))
    ensures Dump(js, toks, at, count) == Walked(1, Range(at, 1), Quote(Body(key)))
  {
    assert Quoted(key) == "\"" + (Body(key) + "\"");
    AtSplits(js, off, "\"", Body(key) + "\"");
    AtSplits(js, off + 1, Body(key), "\"");
    assert Range(at, 1) == [at];
  }

  lemma DumpBare(js: string, toks: seq<Token>, at: nat, count: int, word: string, off: nat, parent: int)
    requires at < |toks| && toks[at] == Token(Primitive, off, off + |word|, 0, parent) && count != 0
    requires At(js, off, word)
    ensures Dump(js, toks, at, count) == Walked(1, Range(at, 1), Bare(word))
  {
    assert Range(at, 1) == [at];
  }

  /** A container whose inner calls all went well. */
  lemma DumpContainer(js: string, toks: seq<Token>, at: nat, count: int, n: nat, outs: seq<Yaml>)
    requires at < |toks| && toks[at].kind.IsContainer() && count != 0
    requires DumpInner(js, toks, at, count, 0, Calls(toks[at])) == Walkeds(n, Range(at + 1, n), outs)
    ensures Dump(js, toks, at, count) ==
      Walked(1 + n, Range(at, 1 + n), if toks[at].kind == Object then Mapping(outs) else Sequence(outs))
  {
    assert [at] + Range(at + 1, n) == Range(at, 1 + n);
  }

  /** One inner call, and the ones after it. */
  lemma DumpOne(js: string, toks: seq<Token>, at: nat, count: int, j: nat, k: nat,
                n: nat, out: Yaml, m: nat, outs: seq<Yaml>)
    requires at < |toks|
    requires Dump(js, toks, at + 1 + j, count - j) == Walked(n, Range(at + 1 + j, n), out)
    requires DumpInner(js, toks, at, count, j + n, k) == Walkeds(j + n + m, Range(at + 1 + j + n, m), outs)
    ensures DumpInner(js, toks, at, count, j, k + 1) == Walkeds(j + n + m, Range(at + 1 + j, n + m), [out] + outs)
  {
    hide Dump;
    RangeJoins(at + 1 + j, n, m);
  }

  /** Where a value with white space around it has its parts. */
  lemma TailAt(js: string, off: nat, before: string, value: string, after: string, tail: string)
    requires At(js, off, before + (value + (after + tail)))
    ensures At(js, off + |before|, value) && At(js, off + |before| + |value| + |after|, tail)
  {
    hide At;
    AtSplits(js, off, before, value + (after + tail));
    AtSplits(js, off + |before|, value, after + tail);
    AtSplits(js, off + |before| + |value|, after, tail);
  }

  lemma ItemAt(js: string, off: nat, it: Items)
    requires it.Item? && At(js, off, PrintItems(it))
    ensures At(js, off + |it.before|, Print(it.value))
    ensures it.rest.Item? ==> At(js, off + |it.before| + |Print(it.value)| + |it.after| + 1, PrintItems(it.rest))
  {
    hide At, Print;
    var tail := if it.rest.NoItems? then "" else "," + PrintItems(it.rest);
    TailAt(js, off, it.before, Print(it.value), it.after, tail);
    if it.rest.Item? {
      AtSplits(js, off + |it.before| + |Print(it.value)| + |it.after|, ",", PrintItems(it.rest));
    }
  }

  lemma MemberAt(js: string, off: nat, m: Members)
    requires m.Member? && At(js, off, PrintMembers(m))
    ensures var k := off + |m.before|; var p := k + |Quoted(m.key)| + |m.mid| + 1 + |m.gap|;
      && At(js, k, Quoted(m.key)) && At(js, p, Print(m.value))
      && (m.rest.Member? ==> At(js, p + |Print(m.value)| + |m.after| + 1, PrintMembers(m.rest)))
  {
    hide At, Print, Quoted;
    var tail := if m.rest.NoMembers? then "" else "," + PrintMembers(m.rest);
    var value := m.gap + (Print(m.value) + (m.after + tail));
    var c := off + |m.before| + |Quoted(m.key)| + |m.mid|;
    TailAt(js, off, m.before, Quoted(m.key), m.mid, ":" + value);
    AtSplits(js, c, ":", value);
    TailAt(js, c + 1, m.gap, Print(m.value), m.after, tail);
    if m.rest.Member? {
      AtSplits(js, c + 1 + |m.gap| + |Print(m.value)| + |m.after|, ",", PrintMembers(m.rest));
    }
  }

  lemma InnerAt(js: string, off: nat, open: string, pad: string, inner: string, close: string)
    requires At(js, off, open + (pad + (inner + close)))
    ensures At(js, off + |open| + |pad|, inner)
  {
    hide At;
    AtSplits(js, off, open, pad + (inner + close));
    AtSplits(js, off + |open|, pad, inner + close);
    AtSplits(js, off + |open| + |pad|, inner, close);
  }

  /** `count` limits the walk: of `k` leaves no more than `count - j` are looked at. */
  lemma {:induction false} DumpLeaves(js: string, toks: seq<Token>, at: nat, count: int, j: nat, k: nat)
    requires at < |toks| && j <= count && at + 1 + j + k <= |toks|
    requires forall i :: at < i < |toks| ==> !toks[i].kind.IsContainer() && 0 <= toks[i].start <= toks[i].end <= |js|
    ensures var n := if k <= count - j then k else count - j; var w := DumpInner(js, toks, at, count, j, k);
      w.Walkeds? && w.j == j + n && w.seen == Range(at + 1 + j, n) && |w.outs| == k
    decreases k
  {
    if k > 0 {
      DumpLeaves(js, toks, at, count, if j == count then j else j + 1, k - 1);
      if j < count {
        RangeJoins(at + 1 + j, 1, (if k <= count - j then k else count - j) - 1);
        assert Range(at + 1 + j, 1) == [at + 1 + j];
      }
    }
  }

  /** On the listing of a value the walk sees every token of the subtree once,
      in order, returns their number and shows the value. */
  lemma {:induction false} DumpValue(js: string, toks: seq<Token>, at: nat, count: int,
                                     v: Json, off: nat, idx: nat, parent: int)
    requires Holds(toks, at, Preorder(v, off, idx, parent)) && At(js, off, Print(v)) && count >= Nodes(v)
    ensures Dump(js, toks, at, count) == Walked(Nodes(v), Range(at, Nodes(v)), View(v))
    decreases v, 0
  {
    hide At, Holds, Range, Dump, DumpInner, PrintItems, PrintMembers, ItemTokens, MemberTokens;
    match v
    case Str(body) =>
      assert Preorder(v, off, idx, parent) == [KeyToken(body, off, 0, parent)] + [];
      HoldsFirst(toks, at, KeyToken(body, off, 0, parent), []);
      DumpQuoted(js, toks, at, count, body, off, 0, parent);
    case Prim(word) =>
      var t := Token(Primitive, off, off + |word|, 0, parent);
      assert Preorder(v, off, idx, parent) == [t] + [];
      HoldsFirst(toks, at, t, []);
      DumpBare(js, toks, at, count, word, off, parent);
    case Arr(pad, items) =>
      HoldsFirst(toks, at, Token(Array, off, off + |Print(v)|, ItemCount(items), parent),
        ItemTokens(items, off + 1 + |pad|, idx + 1, idx));
      InnerAt(js, off, "[", pad, PrintItems(items), "]");
      DumpItems(js, toks, at, count, 0, items, off + 1 + |pad|, idx + 1, idx);
      DumpContainer(js, toks, at, count, ItemNodes(items), ViewItems(items));
    case Obj(pad, members) =>
      HoldsFirst(toks, at, Token(Object, off, off + |Print(v)|, MemberCount(members), parent),
        MemberTokens(members, off + 1 + |pad|, idx + 1, idx));
      InnerAt(js, off, "{", pad, PrintMembers(members), "}");
      DumpMembers(js, toks, at, count, 0, members, off + 1 + |pad|, idx + 1, idx);
      DumpContainer(js, toks, at, count, MemberNodes(members), ViewMembers(members));
  }

  lemma DumpNone(js: string, toks: seq<Token>, at: nat, count: int, j: nat)
    requires at < |toks|
    ensures DumpInner(js, toks, at, count, j, 0) == Walkeds(j, Range(at + 1 + j, 0), [])
  {
    assert Range(at + 1 + j, 0) == [];
  }

  lemma {:induction false} DumpItems(js: string, toks: seq<Token>, at: nat, count: int, j: nat,
                                     it: Items, off: nat, idx: nat, parent: int)
    requires at < |toks| && Holds(toks, at + 1 + j, ItemTokens(it, off, idx, parent)) && At(js, off, PrintItems(it))
    requires count - j >= ItemNodes(it)
    ensures DumpInner(js, toks, at, count, j, ItemCount(it)) ==
      Walkeds(j + ItemNodes(it), Range(at + 1 + j, ItemNodes(it)), ViewItems(it))
    decreases it, 1
  {
    hide At, Holds, Range, Print, PrintItems, Preorder, Dump, DumpInner, Rooted;
    if it.NoItems? {
      DumpNone(js, toks, at, count, j);
      return;
    }
    var v, n, p := it.value, Nodes(it.value), off + |it.before|;
    var next := p + |Print(v)| + |it.after| + 1;
    ItemAt(js, off, it);
    PreorderRooted(v, p, idx, parent);
    HoldsSplits(toks, at + 1 + j, Preorder(v, p, idx, parent), ItemTokens(it.rest, next, idx + n, parent));
    DumpValue(js, toks, at + 1 + j, count - j, v, p, idx, parent);
    if it.rest.Item? {
      DumpItems(js, toks, at, count, j + n, it.rest, next, idx + n, parent);
    } else {
      DumpNone(js, toks, at, count, j + n);
    }
    DumpOne(js, toks, at, count, j, ItemCount(it.rest), n, View(v), ItemNodes(it.rest), ViewItems(it.rest));
  }

  /** The key and the value of one member, `at` being the key's index. */
  lemma {:induction false} DumpMember(js: string, toks: seq<Token>, at: nat, count: int,
                                      m: Members, off: nat, idx: nat, parent: int)
    requires m.Member? && At(js, off, PrintMembers(m)) && count >= 1 + Nodes(m.value)
    requires Holds(toks, at, MemberTokens(m, off, idx, parent))
    ensures Dump(js, toks, at, count) == Walked(1, Range(at, 1), Quote(Body(m.key)))
    ensures Dump(js, toks, at + 1, count - 1) == Walked(Nodes(m.value), Range(at + 1, Nodes(m.value)), View(m.value))
    ensures Holds(toks, at + 1 + Nodes(m.value),
      MemberTokens(m.rest, off + |m.before| + |Quoted(m.key)| + |m.mid| + 1 + |m.gap| + |Print(m.value)| + |m.after| + 1,
        idx + 1 + Nodes(m.value), parent))
    decreases m.value, 1
  {
    hide At, Holds, Range, Print, PrintMembers, Preorder, Quoted, Body, Dump, Rooted, KeyToken;
    var v, n, k := m.value, Nodes(m.value), off + |m.before|;
    var p := k + |Quoted(m.key)| + |m.mid| + 1 + |m.gap|;
    var next := p + |Print(v)| + |m.after| + 1;
    var one, more := Preorder(v, p, idx + 1, idx), MemberTokens(m.rest, next, idx + 1 + n, parent);
    MemberAt(js, off, m);
    PreorderRooted(v, p, idx + 1, idx);
    HoldsSplits(toks, at, [KeyToken(m.key, k, 1, parent)] + one, more);
    HoldsFirst(toks, at, KeyToken(m.key, k, 1, parent), one);
    DumpQuoted(js, toks, at, count, m.key, k, 1, parent);
    DumpValue(js, toks, at + 1, count - 1, v, p, idx + 1, idx);
  }

  lemma {:induction false} DumpMembers(js: string, toks: seq<Token>, at: nat, count: int, j: nat,
                                       m: Members, off: nat, idx: nat, parent: int)
    requires at < |toks| && Holds(toks, at + 1 + j, MemberTokens(m, off, idx, parent)) && At(js, off, PrintMembers(m))
    requires count - j >= MemberNodes(m)
    ensures DumpInner(js, toks, at, count, j, 2 * MemberCount(m)) ==
      Walkeds(j + MemberNodes(m), Range(at + 1 + j, MemberNodes(m)), ViewMembers(m))
    decreases m, 1
  {
    hide At, Holds, Range, Print, PrintMembers, MemberTokens, Quoted, Body, Dump, DumpInner;
    if m.NoMembers? {
      DumpNone(js, toks, at, count, j);
      return;
    }
    var n := Nodes(m.value);
    var next := off + |m.before| + |Quoted(m.key)| + |m.mid| + 1 + |m.gap| + |Print(m.value)| + |m.after| + 1;
    MemberAt(js, off, m);
    DumpMember(js, toks, at + 1 + j, count - j, m, off, idx, parent);
    if m.rest.Member? {
      DumpMembers(js, toks, at, count, j + 1 + n, m.rest, next, idx + 1 + n, parent);
    } else {
      DumpNone(js, toks, at, count, j + 1 + n);
    }
    var c, r := 2 * MemberCount(m.rest), MemberNodes(m.rest);
    DumpOne(js, toks, at, count, j + 1, c, n, View(m.value), r, ViewMembers(m.rest));
    DumpOne(js, toks, at, count, j, c + 1, 1, Quote(Body(m.key)), n + r, [View(m.value)] + ViewMembers(m.rest));
  }

  /** Print, parse, dump: for every JSON tree in every layout and for either
      build, the walk over the parsed tokens sees each of them once, in order,
      and shows the tree that was printed. */
  lemma DumpShowsTheTree(cfg: Config, lead: string, v: Json, trail: string)
    requires IsSpace(lead) && Legal(v) && IsSpace(trail) && Nodes(v) <= cfg.cap
    ensures var js := lead + Print(v) + trail; var (reply, st) := Run(cfg, js, Init, 0);
      && reply == Tokens(|st.toks|)
      && Dump(js, st.toks, 0, |st.toks|) == Walked(|st.toks|, Range(0, |st.toks|), View(v))
  {
    hide Run, Print, Preorder, Dump, Range, View;
    var js := lead + Print(v) + trail;
    RoundTrip(cfg, lead, v, trail);
    PreorderRooted(v, |lead|, 0, -1);
    var toks := Preorder(v, |lead|, 0, -1);
    assert js[|lead|..|lead| + |Print(v)|] == Print(v) && toks[0..0 + |toks|] == toks;
    DumpValue(js, toks, 0, |toks|, v, |lead|, 0, -1);
  }

  /** So a text is the text of one tree only, layout apart. */
  lemma TextHasOneTree(lead: string, v: Json, trail: string, lead': string, w: Json, trail': string)
    requires IsSpace(lead) && Legal(v) && IsSpace(trail) && IsSpace(lead') && Legal(w) && IsSpace(trail')
    requires lead + Print(v) + trail == lead' + Print(w) + trail'
    ensures View(v) == View(w)
  {
    var n := if Nodes(v) > Nodes(w) then Nodes(v) else Nodes(w);
    var cfg := Config(Scan, n, Token(Primitive, -1, -1, 0, -1));
    DumpShowsTheTree(cfg, lead, v, trail);
    DumpShowsTheTree(cfg, lead', w, trail');
  }
}
