/** `sampler_parse_request`: the walk over the tokens of a request. The library
    call `uuid_parse` is a parameter; the six libvirt flags are distinct tags. */
module SamplerRequest {
  import opened Options
  import opened JsmnLexer
  import opened JsmnMachine
  import opened JsmnInvariants
  import opened JsmnBalance
  import opened JsmnParser
  import opened JsonText
  import opened JsmnRoundTrip
  import opened JsonDump

  datatype Stat = StatState | CpuTotal | Balloon | Vcpu | Interface | Block

  function NameOf(s: Stat): string {
    match s
    case StatState => "state"
    case CpuTotal => "cpu-total"
    case Balloon => "balloon"
    case Vcpu => "vcpu"
    case Interface => "interface"
    case Block => "block"
  }

  datatype Request<U> = Request(uuid: U, stats: set<Stat>)

  const MAX_TOKENS := 32
  const UUID_BUFLEN := 37

  /** `strncmp(text, s, len) == 0`, where `text` is the `len` characters read. */
  predicate StrnEqual(text: string, s: string) {
    text == "" ||
    var c := if s == "" then '\0' else s[0];
    text[0] == c && (c == '\0' || StrnEqual(text[1..], s[1..]))
  }

  /** The flag `parse_stats_string` picks: the first name that compares equal. */
  function StatOf(text: string): Option<Stat> {
    if StrnEqual(text, "state") then Some(StatState)
    else if StrnEqual(text, "cpu-total") then Some(CpuTotal)
    else if StrnEqual(text, "balloon") then Some(Balloon)
    else if StrnEqual(text, "vcpu") then Some(Vcpu)
    else if StrnEqual(text, "interface") then Some(Interface)
    else if StrnEqual(text, "block") then Some(Block)
    else None
  }

  /** What the walk relies on: spans lie in the text, sizes in the array. */
  ghost predicate Sound(text: string, toks: seq<Token>) {
    forall k :: 0 <= k < |toks| ==>
      0 <= toks[k].start <= toks[k].end <= |text| && 0 <= toks[k].size <= |toks| - 1 - k
  }

  function Text(text: string, t: Token): string
    requires 0 <= t.start <= t.end <= |text|
  {
    text[t.start..t.end]
  }

  predicate IsToken(text: string, t: Token, s: string)
    requires 0 <= t.start <= t.end <= |text|
  {
    t.kind == String && StrnEqual(Text(text, t), s)
  }

  /** What `uuid_parse` is given: at most 36 characters of the token. */
  function UuidText(s: string): string {
    if |s| < UUID_BUFLEN then s else s[..UUID_BUFLEN - 1]
  }

  /** The inner loop: `n` statistics from index `i` on. */
  function Stats(text: string, toks: seq<Token>, i: nat, n: nat, stats: set<Stat>): (int, set<Stat>)
    requires Sound(text, toks) && i + n <= |toks|
    decreases n
  {
    if n == 0 then (0, stats)
    else if toks[i].kind != String then (-1, stats)
    else
      match StatOf(Text(text, toks[i]))
      case None => (-1, stats)
      case Some(s) => Stats(text, toks, i + 1, n - 1, stats + {s})
  }

  /** The outer loop from index `i` on: the error code and the request so far. */
  function Walk<U>(text: string, toks: seq<Token>, uuidParse: (string, U) -> U, i: nat, sr: Request<U>): (int, Request<U>)
    requires Sound(text, toks)
    decreases |toks| - i
  {
    if i >= |toks| then (0, sr)
    else if IsToken(text, toks[i], "req-id") && i + 1 < |toks| then
      var t := toks[i + 1];
      if t.kind != String || t.end - t.start > UUID_BUFLEN then (-1, sr)
      else Walk(text, toks, uuidParse, i + 2, sr.(uuid := uuidParse(UuidText(Text(text, t)), sr.uuid)))
    else if IsToken(text, toks[i], "get-stats") && i + 1 < |toks| then
      var t := toks[i + 1];
      if t.kind != Array then (-1, sr)
      else
        var (err, stats) := Stats(text, toks, i + 2, t.size, sr.stats);
        if err != 0 then (err, sr.(stats := stats))
        else Walk(text, toks, uuidParse, i + 2 + t.size, sr.(stats := stats))
    else Walk(text, toks, uuidParse, i + 1, sr)
  }

  /** The tokens of a successful parse are sound, whatever the text. */
  lemma ParsedIsSound(cfg: Config, text: string)
    requires cfg.build.Scan? && Run(cfg, text, Init, 0).0.Tokens?
    ensures Sound(text, Run(cfg, text, Init, 0).1.toks)
  {
    var st := Run(cfg, text, Init, 0).1;
    RunKeepsInv(cfg, text, Init, 0);
    RunEnds(cfg, text, Init, 0);
    hide Run;
    forall k | 0 <= k < |st.toks|
      ensures 0 <= st.toks[k].start <= st.toks[k].end <= |text| && 0 <= st.toks[k].size <= |st.toks| - 1 - k
    {
      assert InText(st.pos, st.toks[k]) && !st.toks[k].IsOpen();
      SizeStaysInside(st, k);
    }
  }

  lemma {:induction false} RunEnds(cfg: Config, js: string, st: State, count: nat)
    requires st.pos <= |js|
    ensures var (reply, end) := Run(cfg, js, st, count);
      end.pos <= |js| && (reply.Tokens? ==> LastOpen(end.toks, |end.toks|) == -1)
    decreases |js| - st.pos
  {
    hide Run, Apply, Read, LastOpen;
    RunUnfolds(cfg, js, st, count);
    if !AtEnd(js, st.pos) {
      var r, step := Read(js, st.pos), Turn(cfg, js, st);
      if r.Reading? {
        ApplyDemand(cfg, st, r.ev, r.next);
        if step.Go? {
          RunEnds(cfg, js, step.st, count + Made(js, st.pos));
        }
      }
    }
  }

  /** What a whole call does. */
  function ParseSpec<U>(text: string, junk: Token, clear: U, uuidParse: (string, U) -> U): (int, Request<U>) {
    var cfg := Config(Scan, MAX_TOKENS, junk);
    var (reply, st) := Run(cfg, text, Init, 0);
    if !reply.Tokens? || reply.n < 1 then (-1, Request(clear, {}))
    else
      RunCounts(cfg, text, Init, 0); ParsedIsSound(cfg, text);
      if st.toks[0].kind != Object then (-1, Request(clear, {}))
      else Walk(text, st.toks, uuidParse, 1, Request(clear, {}))
  }

  // ---- which texts are walked over at all

  /** The first event that makes a token. */
  function FirstMade(evs: seq<Event>): Option<Event> {
    if evs == [] then None
    else if evs[0].MakesToken() then Some(evs[0])
    else FirstMade(evs[1..])
  }

  /** The text lexes, its brackets balance, 32 tokens are enough for it and the
      first of them is an object. */
  ghost predicate IsObjectText(text: string) {
    var lex := LexAll(text, 0);
    && lex.Lexes? && Balanced(Brackets(lex.evs)) && Demand(lex.evs) <= 32
    && FirstMade(lex.evs) == Some(Open(Object))
  }

  lemma ApplyKeepsFirst(cfg: Config, st: State, ev: Event, next: nat)
    requires Apply(cfg, st, ev, next).Go?
    ensures var toks := Apply(cfg, st, ev, next).st.toks;
      && (st.toks != [] ==> toks != [] && toks[0].kind == st.toks[0].kind)
      && (st.toks == [] && !ev.MakesToken() ==> toks == [])
      && (st.toks == [] && ev.MakesToken() ==> |toks| == 1 && toks[0].kind == ev.kind)
  {
  }

  lemma {:induction false} RunKeepsFirst(cfg: Config, js: string, st: State, count: nat)
    requires st.toks != []
    ensures var toks := Run(cfg, js, st, count).1.toks; toks != [] && toks[0].kind == st.toks[0].kind
    decreases |js| - st.pos
  {
    hide Run, Apply, Read, LastOpen;
    RunUnfolds(cfg, js, st, count);
    if !AtEnd(js, st.pos) {
      var r, step := Read(js, st.pos), Turn(cfg, js, st);
      if step.Go? {
        ApplyKeepsFirst(cfg, st, r.ev, r.next);
        RunKeepsFirst(cfg, js, step.st, count + Made(js, st.pos));
      }
    }
  }

  /** The first token of a successful parse is made by the first such event. */
  lemma {:induction false} RunFirst(cfg: Config, js: string, st: State, count: nat)
    requires st.toks == [] && Run(cfg, js, st, count).0.Tokens? && LexAll(js, st.pos).Lexes?
    ensures var toks, ev := Run(cfg, js, st, count).1.toks, FirstMade(LexAll(js, st.pos).evs);
      && (toks == [] <==> ev.None?)
      && (toks != [] ==> ev.value.MakesToken() && toks[0].kind == ev.value.kind)
    decreases |js| - st.pos
  {
    hide Run, Apply, Read, LastOpen;
    RunUnfolds(cfg, js, st, count);
    if !AtEnd(js, st.pos) {
      var r, step := Read(js, st.pos), Turn(cfg, js, st);
      var rest := LexAll(js, r.next).evs;
      assert ([r.ev] + rest)[1..] == rest;
      ApplyDemand(cfg, st, r.ev, r.next);
      ApplyKeepsFirst(cfg, st, r.ev, r.next);
      if r.ev.MakesToken() {
        RunKeepsFirst(cfg, js, step.st, count + Made(js, st.pos));
      } else {
        RunFirst(cfg, js, step.st, count + Made(js, st.pos));
      }
    }
  }

  lemma {:induction false} FirstIsRead(js: string, p: nat)
    requires LexAll(js, p).Lexes? && FirstMade(LexAll(js, p).evs).Some?
    ensures var ev := FirstMade(LexAll(js, p).evs).value; ev.Leaf? ==> !ev.kind.IsContainer()
    decreases |js| - p
  {
    hide Read;
    if !AtEnd(js, p) {
      var r := Read(js, p);
      var rest := LexAll(js, r.next).evs;
      assert ([r.ev] + rest)[1..] == rest;
      if !r.ev.MakesToken() {
        FirstIsRead(js, r.next);
      }
    }
  }

  /** Every text: refused with nothing set unless it is that of an object in at most
      32 tokens, and then walked over. */
  lemma RefusedUnlessObject<U>(text: string, junk: Token, clear: U, uuidParse: (string, U) -> U)
    ensures var cfg := Config(Scan, 32, junk); var (reply, st) := Run(cfg, text, Init, 0);
      if IsObjectText(text) then
        && reply.Tokens? && Sound(text, st.toks)
        && ParseSpec(text, junk, clear, uuidParse) == Walk(text, st.toks, uuidParse, 1, Request(clear, {}))
      else ParseSpec(text, junk, clear, uuidParse) == (-1, Request(clear, {}))
  {
    hide Run, Walk, LexAll, Balanced, Brackets, Demand, FirstMade, Sound;
    var cfg := Config(Scan, 32, junk);
    AcceptanceIsBalance(cfg, text);
    if Run(cfg, text, Init, 0).0.Tokens? {
      RunCounts(cfg, text, Init, 0);
      ParsedIsSound(cfg, text);
      RunFirst(cfg, text, Init, 0);
      if FirstMade(LexAll(text, 0).evs).Some? {
        FirstIsRead(text, 0);
      }
    }
  }

  /** The C function. Every index it uses is below the returned count. */
  method ParseRequest<U>(text: string, junk: Token, clear: U, uuidParse: (string, U) -> U) returns (err: int, sr: Request<U>)
    ensures (err, sr) == ParseSpec(text, junk, clear, uuidParse)
    ensures !IsObjectText(text) ==> err == -1 && sr == Request(clear, {})
  {
    hide Run, Walk, IsObjectText;
    RefusedUnlessObject(text, junk, clear, uuidParse);
    sr := Request(clear, {});
    var parser := new Parser(Scan, junk);
    var buf := new Token[MAX_TOKENS](_ => junk);
    assert parser.Value(buf) == Init;
    var reply := parser.Parse(text, buf);
    if !reply.Tokens? {
      return -1, sr;
    }
    ghost var cfg := parser.Cfg(buf);
    RunCounts(cfg, text, Init, 0);
    ParsedIsSound(cfg, text);
    var r, tokens := reply.n, buf[..parser.toknext];
    if r < 1 || tokens[0].kind != Object {
      return -1, sr;
    }
    err, sr := WalkTokens(text, tokens, uuidParse, sr);
  }

  /** The loop over the tokens of the top-level object. */
  method WalkTokens<U>(text: string, tokens: seq<Token>, uuidParse: (string, U) -> U, start: Request<U>)
    returns (err: int, sr: Request<U>)
    requires Sound(text, tokens)
    ensures (err, sr) == Walk(text, tokens, uuidParse, 1, start)
  {
    hide Stats, StrnEqual, Text, UuidText;
    var r := |tokens|;
    sr := start;
    var i := 1;
    while i < r
      invariant 1 <= i
      invariant Walk(text, tokens, uuidParse, i, sr) == Walk(text, tokens, uuidParse, 1, start)
      decreases r - i
    {
      if IsToken(text, tokens[i], "req-id") && i + 1 < r {
        var t := tokens[i + 1];
        if t.kind != String || t.end - t.start > UUID_BUFLEN {
          return -1, sr;
        }
        sr := sr.(uuid := uuidParse(UuidText(Text(text, t)), sr.uuid));
        i := i + 1;
      } else if IsToken(text, tokens[i], "get-stats") && i + 1 < r {
        if tokens[i + 1].kind != Array {
          return -1, sr;
        }
        var code, stats := ParseStats(text, tokens, i + 2, tokens[i + 1].size, sr.stats);
        sr := sr.(stats := stats);
        if code != 0 {
          return code, sr;
        }
        i := i + tokens[i + 1].size + 1;
      }
      i := i + 1;
    }
    err := 0;
  }

  /** The loop over the elements of `get-stats`. */
  method ParseStats(text: string, tokens: seq<Token>, i: nat, size: nat, before: set<Stat>)
    returns (err: int, stats: set<Stat>)
    requires Sound(text, tokens) && i + size <= |tokens|
    ensures (err, stats) == Stats(text, tokens, i, size, before)
  {
    stats := before;
    var j := 0;
    while j < size
      invariant 0 <= j <= size
      invariant Stats(text, tokens, i + j, size - j, stats) == Stats(text, tokens, i, size, before)
    {
      if tokens[i + j].kind != String {
        return -1, stats;
      }
      var stat := StatOf(Text(text, tokens[i + j]));
      if stat.None? {
        return -1, stats;
      }
      stats := stats + {stat.value};
      j := j + 1;
    }
    err := 0;
  }

  // ---- names

  /** The comparison accepts every prefix, the empty one included. */
  lemma {:induction false} StrnIsPrefix(text: string, s: string)
    requires NulFree(text) && NulFree(s)
    ensures StrnEqual(text, s) <==> text <= s
    decreases |text|
  {
    if text != "" && s != "" {
      assert text[0] != '\0' && s[0] != '\0';
      assert forall i :: 0 <= i < |text[1..]| ==> text[1..][i] == text[i + 1];
      assert forall i :: 0 <= i < |s[1..]| ==> s[1..][i] == s[i + 1];
      StrnIsPrefix(text[1..], s[1..]);
      assert text == [text[0]] + text[1..] && s == [s[0]] + s[1..];
      assert text <= s <==> text[0] == s[0] && text[1..] <= s[1..];
    } else if text != "" {
      assert text[0] != '\0';
    }
  }

  lemma {:induction false} StrnSelf(s: string)
    ensures StrnEqual(s, s)
    decreases |s|
  {
    if s != "" {
      StrnSelf(s[1..]);
    }
  }

  /** Names that differ in one of their first two characters differ. */
  lemma StrnDiffers(a: string, b: string)
    requires |a| > 1 && |b| > 1 && a[0] != '\0' && (a[0] != b[0] || a[1] != b[1])
    ensures !StrnEqual(a, b)
  {
    assert a[1..][0] == a[1] && b[1..][0] == b[1];
  }

  /** A full name is never taken for another one. */
  lemma NamesAreDistinct(s: Stat)
    ensures StatOf(NameOf(s)) == Some(s)
  {
    hide StrnEqual;
    StrnSelf(NameOf(s));
    match s
    case StatState =>
    case CpuTotal =>
      StrnDiffers("cpu-total", "state");
    case Balloon =>
      StrnDiffers("balloon", "state");
      StrnDiffers("balloon", "cpu-total");
    case Vcpu =>
      StrnDiffers("vcpu", "state");
      StrnDiffers("vcpu", "cpu-total");
      StrnDiffers("vcpu", "balloon");
    case Interface =>
      StrnDiffers("interface", "state");
      StrnDiffers("interface", "cpu-total");
      StrnDiffers("interface", "balloon");
      StrnDiffers("interface", "vcpu");
    case Block =>
      StrnDiffers("block", "state");
      StrnDiffers("block", "cpu-total");
      StrnDiffers("block", "balloon");
      StrnDiffers("block", "vcpu");
      StrnDiffers("block", "interface");
  }

  /** The order in which the names are tried. */
  function Rank(s: Stat): nat {
    match s
    case StatState => 0
    case CpuTotal => 1
    case Balloon => 2
    case Vcpu => 3
    case Interface => 4
    case Block => 5
  }

  /** A text that compares equal to several names is the first of them. */
  lemma StatOfIsFirst(text: string, s: Stat)
    ensures StatOf(text) == Some(s) <==>
      StrnEqual(text, NameOf(s)) && forall r :: Rank(r) < Rank(s) ==> !StrnEqual(text, NameOf(r))
  {
    hide StrnEqual;
    assert "state" == NameOf(StatState) && "cpu-total" == NameOf(CpuTotal) && "balloon" == NameOf(Balloon);
    assert "vcpu" == NameOf(Vcpu) && "interface" == NameOf(Interface) && "block" == NameOf(Block);
    assert Rank(StatState) == 0 && Rank(CpuTotal) == 1 && Rank(Balloon) == 2;
    assert Rank(Vcpu) == 3 && Rank(Interface) == 4 && Rank(Block) == 5;
  }

  /** Exactly the prefixes of the six names are statistics, and from two
      characters on a prefix belongs to one name only. */
  lemma StatOfAcceptsPrefixes(text: string)
    requires NulFree(text)
    ensures StatOf(text).Some? <==> exists s :: text <= NameOf(s)
    ensures forall s :: |text| >= 2 ==> (StatOf(text) == Some(s) <==> text <= NameOf(s))
  {
    hide StrnEqual;
    forall s: Stat
      ensures StrnEqual(text, NameOf(s)) <==> text <= NameOf(s)
    {
      StrnIsPrefix(text, NameOf(s));
    }
    assert "state" == NameOf(StatState) && "cpu-total" == NameOf(CpuTotal) && "balloon" == NameOf(Balloon);
    assert "vcpu" == NameOf(Vcpu) && "interface" == NameOf(Interface) && "block" == NameOf(Block);
    assert forall s :: |text| >= 2 && text <= NameOf(s) ==> text[0] == NameOf(s)[0] && text[1] == NameOf(s)[1];
  }

  // ---- requests as trees

  /** All elements are strings that name a statistic. */
  predicate IsStatList(it: Items) {
    it.Item? ==> it.value.Str? && StatOf(Body(it.value.body)).Some? && IsStatList(it.rest)
  }

  predicate ListNames(it: Items, s: Stat) {
    it.Item? && ((it.value.Str? && StatOf(Body(it.value.body)) == Some(s)) || ListNames(it.rest, s))
  }

  /** What the walk takes for one of the two names: prefixes of it too. */
  predicate IsReqId(s: string) {
    StrnEqual(s, "req-id")
  }

  predicate IsGetStats(s: string) {
    !IsReqId(s) && StrnEqual(s, "get-stats")
  }

  predicate IsStray(s: string) {
    !IsReqId(s) && !IsGetStats(s)
  }

  /** No string in the value, keys included, is taken for a name. The walk does
      nothing at the last token of all, which is the value's last if `last`. */
  predicate Calm(v: Json, last: bool) {
    match v
    case Str(body) => last || IsStray(Body(body))
    case Prim(_) => true
    case Arr(_, items) => CalmItems(items, last)
    case Obj(_, members) => CalmMembers(members, last)
  }

  predicate CalmItems(it: Items, last: bool) {
    it.Item? ==> Calm(it.value, last && it.rest.NoItems?) && CalmItems(it.rest, last)
  }

  predicate CalmMembers(m: Members, last: bool) {
    m.Member? ==>
      && IsStray(Body(m.key)) && Calm(m.value, last && m.rest.NoMembers?)
      && CalmMembers(m.rest, last)
  }

  /** Members in any number and order. Those with another key than the two must be
      calm; what the others do to the walk is said below. */
  predicate Tame(m: Members) {
    m.Member? ==> (IsStray(Body(m.key)) ==> Calm(m.value, m.rest.NoMembers?)) && Tame(m.rest)
  }

  predicate GoodMember(m: Members)
    requires m.Member?
  {
    && (IsReqId(Body(m.key)) ==> m.value.Str? && |Body(m.value.body)| <= UUID_BUFLEN)
    && (IsGetStats(Body(m.key)) ==> m.value.Arr? && IsStatList(m.value.items))
  }

  predicate IsRequest(m: Members) {
    m.Member? ==> GoodMember(m) && IsRequest(m.rest)
  }

  /** The request names statistic `s` somewhere. */
  predicate Names(m: Members, s: Stat) {
    m.Member? && ((IsGetStats(Body(m.key)) && m.value.Arr? && ListNames(m.value.items, s)) || Names(m.rest, s))
  }

  /** The identifier after the `req-id` members, in order. */
  function Ident<U>(m: Members, uuidParse: (string, U) -> U, u: U): U {
    if m.NoMembers? then u
    else Ident(m.rest, uuidParse,
      if IsReqId(Body(m.key)) && m.value.Str? then uuidParse(UuidText(Body(m.value.body)), u) else u)
  }

  /** An identifier of up to 36 characters reaches `uuid_parse` whole, one of 37
      without its last, and a longer one is refused. */
  lemma IdentIsCut<U>(m: Members, uuidParse: (string, U) -> U, u: U)
    requires m.Member? && IsReqId(Body(m.key)) && m.value.Str?
    ensures GoodMember(m) <==> |Body(m.value.body)| <= 37
    ensures var s := Body(m.value.body);
      |s| <= 37 ==> Ident(m, uuidParse, u) == Ident(m.rest, uuidParse, uuidParse(if |s| == 37 then s[..36] else s, u))
  {
    hide StrnEqual, Body;
  }

  // ---- the walk over a request's tokens

  lemma QuotedText(js: string, off: nat, key: seq<StrChar>)
    requires At(js, off, Quoted(key))
    ensures off + 1 + |Body(key)| <= |js| && js[off + 1..off + 1 + |Body(key)|] == Body(key)
  {
    assert Quoted(key) == "\"" + (Body(key) + "\"");
    AtSplits(js, off, "\"", Body(key) + "\"");
    AtSplits(js, off + 1, Body(key), "\"");
  }

  function KindOf(v: Json): Kind {
    match v
    case Str(_) => String
    case Prim(_) => Primitive
    case Arr(_, _) => Array
    case Obj(_, _) => Object
  }

  /** The first token of a value shows its kind, and a string's text. */
  lemma FirstToken(text: string, toks: seq<Token>, i: nat, v: Json, off: nat, idx: nat, parent: int)
    requires At(text, off, Print(v)) && Holds(toks, i, Preorder(v, off, idx, parent))
    ensures i < |toks| && toks[i].kind == KindOf(v)
    ensures v.Str? ==> 0 <= toks[i].start <= toks[i].end <= |text| && Text(text, toks[i]) == Body(v.body)
    ensures v.Arr? ==> toks[i].size == ItemCount(v.items)
  {
    hide At, Holds, Body, ItemTokens, MemberTokens, PrintItems, PrintMembers;
    var ts := Preorder(v, off, idx, parent);
    assert ts == [ts[0]] + ts[1..];
    HoldsFirst(toks, i, ts[0], ts[1..]);
    if v.Str? {
      QuotedText(text, off, v.body);
    }
  }

  lemma ItemStart(text: string, toks: seq<Token>, i: nat, it: Items, off: nat, idx: nat, parent: int)
    requires it.Item? && At(text, off, PrintItems(it)) && Holds(toks, i, ItemTokens(it, off, idx, parent))
    ensures i < |toks| && toks[i].kind == KindOf(it.value)
    ensures it.value.Str? ==> 0 <= toks[i].start <= toks[i].end <= |text| && Text(text, toks[i]) == Body(it.value.body)
    ensures var p := off + |it.before|; var next := p + |Print(it.value)| + |it.after| + 1;
      && At(text, p, Print(it.value)) && Holds(toks, i, Preorder(it.value, p, idx, parent))
      && Holds(toks, i + Nodes(it.value), ItemTokens(it.rest, next, idx + Nodes(it.value), parent))
      && (it.rest.Item? ==> At(text, next, PrintItems(it.rest)))
  {
    hide At, Holds, Body, Print, Preorder, PrintItems, Rooted;
    var p := off + |it.before|;
    ItemAt(text, off, it);
    PreorderRooted(it.value, p, idx, parent);
    HoldsSplits(toks, i, Preorder(it.value, p, idx, parent),
      ItemTokens(it.rest, p + |Print(it.value)| + |it.after| + 1, idx + Nodes(it.value), parent));
    FirstToken(text, toks, i, it.value, p, idx, parent);
  }

  /** The inner loop succeeds if and only if all elements name a statistic, and
      then it adds exactly those. */
  lemma {:induction false} StatsOfList(text: string, toks: seq<Token>, i: nat,
                                       it: Items, off: nat, idx: nat, parent: int, before: set<Stat>)
    requires Sound(text, toks) && i + ItemCount(it) <= |toks|
    requires Holds(toks, i, ItemTokens(it, off, idx, parent)) && (it.Item? ==> At(text, off, PrintItems(it)))
    ensures var (err, stats) := Stats(text, toks, i, ItemCount(it), before);
      && (err == 0 <==> IsStatList(it))
      && (err == 0 ==> forall s :: s in stats <==> s in before || ListNames(it, s))
    decreases it
  {
    hide At, Holds, Body, StatOf, ItemTokens, PrintItems, Print, Text, Sound;
    if it.Item? {
      ItemStart(text, toks, i, it, off, idx, parent);
      if it.value.Str? && StatOf(Body(it.value.body)).Some? {
        var stat := StatOf(Body(it.value.body)).value;
        var next := off + |it.before| + |Print(it.value)| + |it.after| + 1;
        StatsStep(text, toks, i, ItemCount(it), before, stat);
        StatsOfList(text, toks, i + 1, it.rest, next, idx + 1, parent, before + {stat});
      }
    }
  }

  lemma StatsStep(text: string, toks: seq<Token>, i: nat, n: nat, before: set<Stat>, s: Stat)
    requires Sound(text, toks) && 0 < n && i + n <= |toks|
    requires toks[i].kind == String && StatOf(Text(text, toks[i])) == Some(s)
    ensures Stats(text, toks, i, n, before) == Stats(text, toks, i + 1, n - 1, before + {s})
  {
  }

  lemma MemberStart(text: string, toks: seq<Token>, i: nat, m: Members, off: nat, idx: nat, parent: int)
    requires m.Member? && At(text, off, PrintMembers(m)) && Holds(toks, i, MemberTokens(m, off, idx, parent))
    ensures var k := off + |m.before|; var p := k + |Quoted(m.key)| + |m.mid| + 1 + |m.gap|;
      var t := KeyToken(m.key, k, 1, parent); var next := p + |Print(m.value)| + |m.after| + 1;
      && i < |toks| && toks[i] == t && t.end <= |text| && Text(text, t) == Body(m.key)
      && At(text, p, Print(m.value)) && Holds(toks, i + 1, Preorder(m.value, p, idx + 1, idx))
      && Holds(toks, i + 1 + Nodes(m.value), MemberTokens(m.rest, next, idx + 1 + Nodes(m.value), parent))
      && (m.rest.Member? ==> At(text, next, PrintMembers(m.rest)))
  {
    hide At, Holds, Body, Print, Preorder, PrintMembers, Quoted, Rooted;
    var k := off + |m.before|;
    var p := k + |Quoted(m.key)| + |m.mid| + 1 + |m.gap|;
    var t := KeyToken(m.key, k, 1, parent);
    var one := Preorder(m.value, p, idx + 1, idx);
    MemberAt(text, off, m);
    PreorderRooted(m.value, p, idx + 1, idx);
    HoldsSplits(toks, i, [t] + one,
      MemberTokens(m.rest, p + |Print(m.value)| + |m.after| + 1, idx + 1 + Nodes(m.value), parent));
    HoldsFirst(toks, i, t, one);
    QuotedText(text, k, m.key);
  }

  /** One `req-id` member, whose value's tokens start at `p`. */
  lemma WalkId<U>(text: string, toks: seq<Token>, uuidParse: (string, U) -> U, i: nat, sr: Request<U>,
                  v: Json, p: nat, idx: nat)
    requires Sound(text, toks) && i + 2 <= |toks| && toks[i].kind == String && IsReqId(Text(text, toks[i]))
    requires Holds(toks, i + 1, Preorder(v, p, idx + 1, idx)) && At(text, p, Print(v))
    ensures if v.Str? && |Body(v.body)| <= UUID_BUFLEN then
        Walk(text, toks, uuidParse, i, sr) ==
        Walk(text, toks, uuidParse, i + 2, sr.(uuid := uuidParse(UuidText(Body(v.body)), sr.uuid)))
      else Walk(text, toks, uuidParse, i, sr) == (-1, sr)
  {
    hide Body, At, Holds, Print, Preorder, StrnEqual;
    FirstToken(text, toks, i + 1, v, p, idx + 1, idx);
  }

  /** One `get-stats` member. */
  lemma WalkStats<U>(text: string, toks: seq<Token>, uuidParse: (string, U) -> U, i: nat, sr: Request<U>,
                     v: Json, p: nat, idx: nat)
    returns (stats: set<Stat>)
    requires Sound(text, toks) && i + 1 + Nodes(v) <= |toks| && toks[i].kind == String && IsGetStats(Text(text, toks[i]))
    requires Holds(toks, i + 1, Preorder(v, p, idx + 1, idx)) && At(text, p, Print(v))
    ensures if v.Arr? && IsStatList(v.items) then
        && (forall s :: s in stats <==> s in sr.stats || ListNames(v.items, s))
        && Walk(text, toks, uuidParse, i, sr) == Walk(text, toks, uuidParse, i + 1 + Nodes(v), sr.(stats := stats))
      else Walk(text, toks, uuidParse, i, sr).0 == -1
  {
    hide Body, At, Holds, Print, Preorder, Stats, Sound, StrnEqual, Text;
    PreorderRooted(v, p, idx + 1, idx);
    FirstToken(text, toks, i + 1, v, p, idx + 1, idx);
    stats := sr.stats;
    if v.Arr? {
      ArrayStart(text, toks, i + 1, v.pad, v.items, p, idx + 1, idx);
      StatsOfList(text, toks, i + 2, v.items, p + 1 + |v.pad|, idx + 2, idx + 1, sr.stats);
      StatsErr(text, toks, i + 2, ItemCount(v.items), sr.stats);
      stats := Stats(text, toks, i + 2, ItemCount(v.items), sr.stats).1;
      if IsStatList(v.items) {
        StatsCount(v.items);
      }
    }
  }

  lemma ArrayStart(text: string, toks: seq<Token>, i: nat, pad: string, items: Items, p: nat, idx: nat, parent: int)
    requires Holds(toks, i, Preorder(Arr(pad, items), p, idx, parent)) && At(text, p, Print(Arr(pad, items)))
    ensures Holds(toks, i + 1, ItemTokens(items, p + 1 + |pad|, idx + 1, idx)) && At(text, p + 1 + |pad|, PrintItems(items))
    ensures i + 1 + ItemCount(items) <= |toks|
  {
    hide At, ItemTokens, PrintItems, Rooted;
    HoldsFirst(toks, i, Token(Array, p, p + |Print(Arr(pad, items))|, ItemCount(items), parent),
      ItemTokens(items, p + 1 + |pad|, idx + 1, idx));
    InnerAt(text, p, "[", pad, PrintItems(items), "]");
    ItemsRooted(items, p + 1 + |pad|, idx + 1, idx);
    CountsNodes(items);
  }

  lemma {:induction false} CountsNodes(it: Items)
    ensures ItemCount(it) <= ItemNodes(it)
  {
    if it.Item? {
      CountsNodes(it.rest);
    }
  }

  lemma {:induction false} StatsErr(text: string, toks: seq<Token>, i: nat, n: nat, before: set<Stat>)
    requires Sound(text, toks) && i + n <= |toks|
    ensures Stats(text, toks, i, n, before).0 == 0 || Stats(text, toks, i, n, before).0 == -1
    decreases n
  {
    hide StatOf;
    if n > 0 && toks[i].kind == String && StatOf(Text(text, toks[i])).Some? {
      StatsErr(text, toks, i + 1, n - 1, before + {StatOf(Text(text, toks[i])).value});
    }
  }

  lemma {:induction false} StatsCount(it: Items)
    requires IsStatList(it)
    ensures ItemNodes(it) == ItemCount(it)
  {
    if it.Item? {
      StatsCount(it.rest);
    }
  }

  lemma WalkEnd<U>(text: string, toks: seq<Token>, uuidParse: (string, U) -> U, i: nat, sr: Request<U>)
    requires Sound(text, toks) && i == |toks|
    ensures Walk(text, toks, uuidParse, i, sr) == (0, sr)
  {
  }

  // ---- members with other keys

  /** The walk does something at token `i`. */
  predicate Acts(text: string, toks: seq<Token>, i: nat)
    requires Sound(text, toks) && i < |toks|
  {
    i + 1 < |toks| && toks[i].kind == String && !IsStray(Text(text, toks[i]))
  }

  ghost predicate Passes(text: string, toks: seq<Token>, i: nat, n: nat)
    requires Sound(text, toks) && n <= |toks|
  {
    forall j :: i <= j < n ==> !Acts(text, toks, j)
  }

  lemma {:induction false} WalkPasses<U>(text: string, toks: seq<Token>, uuidParse: (string, U) -> U, i: nat, n: nat,
                                         sr: Request<U>)
    requires Sound(text, toks) && i <= n <= |toks| && Passes(text, toks, i, n)
    ensures Walk(text, toks, uuidParse, i, sr) == Walk(text, toks, uuidParse, n, sr)
    decreases n - i
  {
    if i < n {
      hide Sound, StrnEqual, Text, Stats, UuidText;
      assert !Acts(text, toks, i);
      WalkPasses(text, toks, uuidParse, i + 1, n, sr);
    }
  }

  lemma ObjectStart(text: string, toks: seq<Token>, i: nat, pad: string, m: Members, p: nat, idx: nat, parent: int)
    requires Holds(toks, i, Preorder(Obj(pad, m), p, idx, parent)) && At(text, p, Print(Obj(pad, m)))
    ensures i < |toks| && toks[i].kind == Object
    ensures Holds(toks, i + 1, MemberTokens(m, p + 1 + |pad|, idx + 1, idx)) && At(text, p + 1 + |pad|, PrintMembers(m))
  {
    hide At, MemberTokens, PrintMembers, Holds;
    HoldsFirst(toks, i, Token(Object, p, p + |Print(Obj(pad, m))|, MemberCount(m), parent),
      MemberTokens(m, p + 1 + |pad|, idx + 1, idx));
    InnerAt(text, p, "{", pad, PrintMembers(m), "}");
  }

  lemma PassesSplits(text: string, toks: seq<Token>, i: nat, k: nat, n: nat)
    requires Sound(text, toks) && i <= k <= n <= |toks|
    ensures Passes(text, toks, i, n) <==> Passes(text, toks, i, k) && Passes(text, toks, k, n)
  {
  }

  lemma ActsFirst(text: string, toks: seq<Token>, i: nat, n: nat)
    requires Sound(text, toks) && i < n <= |toks|
    ensures Passes(text, toks, i, n) <==> !Acts(text, toks, i) && Passes(text, toks, i + 1, n)
  {
  }

  /** The walk does nothing at the tokens of a value if and only if it is calm. */
  lemma {:induction false} ValueIsCalm(text: string, toks: seq<Token>, i: nat, v: Json, off: nat, idx: nat, parent: int)
    requires Sound(text, toks) && Holds(toks, i, Preorder(v, off, idx, parent)) && At(text, off, Print(v))
    ensures i + Nodes(v) <= |toks|
    ensures Passes(text, toks, i, i + Nodes(v)) <==> Calm(v, i + Nodes(v) == |toks|)
    decreases v
  {
    hide Sound, At, Holds, Preorder, Print, Body, Passes, IsStray, Text, Rooted;
    PreorderRooted(v, off, idx, parent);
    FirstToken(text, toks, i, v, off, idx, parent);
    assert i + Nodes(v) <= |toks| by { HoldsLength(toks, i, Preorder(v, off, idx, parent)); }
    PositiveNodes(v);
    ActsFirst(text, toks, i, i + Nodes(v));
    match v {
      case Arr(pad, items) =>
        ArrayStart(text, toks, i, pad, items, off, idx, parent);
        ItemsAreCalm(text, toks, i + 1, items, off + 1 + |pad|, idx + 1, idx);
      case Obj(pad, members) =>
        ObjectStart(text, toks, i, pad, members, off, idx, parent);
        MembersAreCalm(text, toks, i + 1, members, off + 1 + |pad|, idx + 1, idx);
      case _ => PassesNone(text, toks, i + 1);
    }
  }

  lemma PassesNone(text: string, toks: seq<Token>, i: nat)
    requires Sound(text, toks) && i <= |toks|
    ensures Passes(text, toks, i, i)
  {
  }

  lemma HoldsLength(toks: seq<Token>, i: nat, ts: seq<Token>)
    requires Holds(toks, i, ts)
    ensures i + |ts| <= |toks|
  {
  }

  lemma {:induction false} ItemsAreCalm(text: string, toks: seq<Token>, i: nat, it: Items, off: nat, idx: nat, parent: int)
    requires Sound(text, toks) && Holds(toks, i, ItemTokens(it, off, idx, parent))
    requires it.Item? ==> At(text, off, PrintItems(it))
    ensures i + ItemNodes(it) <= |toks|
    ensures Passes(text, toks, i, i + ItemNodes(it)) <==> CalmItems(it, i + ItemNodes(it) == |toks|)
    decreases it
  {
    hide Sound, At, Holds, ItemTokens, PrintItems, Print, Preorder, Body, Passes, Calm;
    HoldsLength(toks, i, ItemTokens(it, off, idx, parent));
    if it.NoItems? {
      PassesNone(text, toks, i);
    } else {
      var k, next := i + Nodes(it.value), off + |it.before| + |Print(it.value)| + |it.after| + 1;
      ItemStart(text, toks, i, it, off, idx, parent);
      ValueIsCalm(text, toks, i, it.value, off + |it.before|, idx, parent);
      ItemsAreCalm(text, toks, k, it.rest, next, idx + Nodes(it.value), parent);
      PassesSplits(text, toks, i, k, i + ItemNodes(it));
      CountsNodes(it.rest);
    }
  }

  lemma {:induction false} MembersAreCalm(text: string, toks: seq<Token>, i: nat,
                                          m: Members, off: nat, idx: nat, parent: int)
    requires Sound(text, toks) && Holds(toks, i, MemberTokens(m, off, idx, parent))
    requires m.Member? ==> At(text, off, PrintMembers(m))
    ensures i + MemberNodes(m) <= |toks|
    ensures Passes(text, toks, i, i + MemberNodes(m)) <==> CalmMembers(m, i + MemberNodes(m) == |toks|)
    decreases m
  {
    hide Sound, At, Holds, MemberTokens, PrintMembers, Print, Preorder, Quoted, Body, Passes, Calm, Text, IsStray;
    HoldsLength(toks, i, MemberTokens(m, off, idx, parent));
    if m.NoMembers? {
      PassesNone(text, toks, i);
    } else {
      var p := off + |m.before| + |Quoted(m.key)| + |m.mid| + 1 + |m.gap|;
      var k, next := i + 1 + Nodes(m.value), p + |Print(m.value)| + |m.after| + 1;
      MemberStart(text, toks, i, m, off, idx, parent);
      PositiveNodes(m.value);
      ValueIsCalm(text, toks, i + 1, m.value, p, idx + 1, idx);
      MembersAreCalm(text, toks, k, m.rest, next, idx + 1 + Nodes(m.value), parent);
      ActsFirst(text, toks, i, k);
      PassesSplits(text, toks, i, k, i + MemberNodes(m));
    }
  }

  /** The walk goes from `i` to `h` with nothing changed, and acts there. */
  ghost predicate ComesTo<U>(text: string, toks: seq<Token>, uuidParse: (string, U) -> U, i: nat, sr: Request<U>, h: nat)
    requires Sound(text, toks)
  {
    && h < |toks| && Acts(text, toks, h)
    && Walk(text, toks, uuidParse, i, sr) == Walk(text, toks, uuidParse, h, sr)
  }

  /** A member with another key is stepped over, token by token, if and only if no
      string in its value is taken for a name; otherwise the walk comes to such a
      string and acts on it as if it were a key. */
  lemma StrayMember<U>(text: string, toks: seq<Token>, uuidParse: (string, U) -> U, i: nat, sr: Request<U>,
                       m: Members, off: nat, idx: nat, parent: int)
    requires Sound(text, toks) && m.Member? && IsStray(Body(m.key)) && i + MemberNodes(m) == |toks|
    requires Holds(toks, i, MemberTokens(m, off, idx, parent)) && At(text, off, PrintMembers(m))
    ensures var n := i + 1 + Nodes(m.value);
      && (Passes(text, toks, i, n) <==> Calm(m.value, m.rest.NoMembers?))
      && (Passes(text, toks, i, n) ==> Walk(text, toks, uuidParse, i, sr) == Walk(text, toks, uuidParse, n, sr))
      && (!Passes(text, toks, i, n) ==> exists h :: i < h < n && ComesTo(text, toks, uuidParse, i, sr, h))
  {
    hide Sound, At, Holds, MemberTokens, PrintMembers, Print, Preorder, Quoted, Body, Passes, Calm, Text, IsStray, Walk;
    var p := off + |m.before| + |Quoted(m.key)| + |m.mid| + 1 + |m.gap|;
    var n := i + 1 + Nodes(m.value);
    MemberStart(text, toks, i, m, off, idx, parent);
    PositiveNodes(m.value);
    ValueIsCalm(text, toks, i + 1, m.value, p, idx + 1, idx);
    ActsFirst(text, toks, i, n);
    if Passes(text, toks, i, n) {
      WalkPasses(text, toks, uuidParse, i, n, sr);
    } else {
      var h := FirstAct(text, toks, i, n);
      WalkPasses(text, toks, uuidParse, i, h, sr);
      assert ComesTo(text, toks, uuidParse, i, sr, h);
    }
  }

  lemma {:induction false} FirstAct(text: string, toks: seq<Token>, i: nat, n: nat) returns (h: nat)
    requires Sound(text, toks) && i <= n <= |toks| && !Passes(text, toks, i, n)
    ensures i <= h < n && Acts(text, toks, h) && Passes(text, toks, i, h)
    decreases n - i
  {
    hide Sound, Acts;
    if Acts(text, toks, i) {
      return i;
    }
    h := FirstAct(text, toks, i + 1, n);
  }

  lemma {:induction false} WalkMembers<U>(text: string, toks: seq<Token>, uuidParse: (string, U) -> U,
                                          i: nat, sr: Request<U>,
                                          m: Members, off: nat, idx: nat, parent: int)
    requires Sound(text, toks) && i + MemberNodes(m) == |toks|
    requires Tame(m) && Holds(toks, i, MemberTokens(m, off, idx, parent))
    requires m.Member? ==> At(text, off, PrintMembers(m))
    ensures var (err, out) := Walk(text, toks, uuidParse, i, sr);
      && (err == if IsRequest(m) then 0 else -1)
      && (err == 0 ==>
            && out.uuid == Ident(m, uuidParse, sr.uuid)
            && forall s :: s in out.stats <==> s in sr.stats || Names(m, s))
    decreases m
  {
    hide Body, At, Holds, MemberTokens, PrintMembers, Quoted, Sound, Walk, IsStatList, ListNames, Print, Preorder, Text,
      StrnEqual, Calm;
    if m.NoMembers? {
      WalkEnd(text, toks, uuidParse, i, sr);
    } else {
      var p := off + |m.before| + |Quoted(m.key)| + |m.mid| + 1 + |m.gap|;
      var next := p + |Print(m.value)| + |m.after| + 1;
      MemberStart(text, toks, i, m, off, idx, parent);
      PositiveNodes(m.value);
      if IsStray(Body(m.key)) {
        StrayMember(text, toks, uuidParse, i, sr, m, off, idx, parent);
        WalkMembers(text, toks, uuidParse, i + 1 + Nodes(m.value), sr, m.rest, next, idx + 1 + Nodes(m.value), parent);
      } else if IsReqId(Body(m.key)) {
        WalkId(text, toks, uuidParse, i, sr, m.value, p, idx);
        if GoodMember(m) {
          var got := sr.(uuid := uuidParse(UuidText(Body(m.value.body)), sr.uuid));
          WalkMembers(text, toks, uuidParse, i + 2, got, m.rest, next, idx + 2, parent);
        }
      } else {
        var stats := WalkStats(text, toks, uuidParse, i, sr, m.value, p, idx);
        if GoodMember(m) {
          WalkMembers(text, toks, uuidParse, i + 1 + Nodes(m.value), sr.(stats := stats),
            m.rest, next, idx + 1 + Nodes(m.value), parent);
        }
      }
    }
  }

  /** For every object that fits in the token array, in any layout, with members in
      any order and number of which those with other keys are calm: it is accepted
      if and only if every identifier is a string of at most 37 characters and every
      list holds only strings that name a statistic. Then a flag is set if and only
      if the request names it, and the identifier is the one its `req-id` members
      give. */
  lemma RequestIsUnderstood<U>(junk: Token, clear: U, uuidParse: (string, U) -> U,
                               lead: string, pad: string, m: Members, trail: string)
    requires IsSpace(lead) && Legal(Obj(pad, m)) && IsSpace(trail) && Tame(m) && 1 + MemberNodes(m) <= MAX_TOKENS
    ensures var (err, sr) := ParseSpec(lead + Print(Obj(pad, m)) + trail, junk, clear, uuidParse);
      && err == (if IsRequest(m) then 0 else -1)
      && (err == 0 ==> sr.uuid == Ident(m, uuidParse, clear) && forall s :: s in sr.stats <==> Names(m, s))
  {
    hide Run, Walk, IsSpace, Print, Legal, Names, IsRequest, Tame, Ident, Sound, Preorder, At, Holds, MemberTokens, Rooted,
      PrintMembers;
    var v := Obj(pad, m);
    var js, cfg := lead + Print(v) + trail, Config(Scan, MAX_TOKENS, junk);
    RoundTrip(cfg, lead, v, trail);
    ParsedIsSound(cfg, js);
    var toks := Preorder(v, |lead|, 0, -1);
    PreorderRooted(v, |lead|, 0, -1);
    Between(js, lead, Print(v), trail);
    Whole(js, toks);
    ObjectStart(js, toks, 0, pad, m, |lead|, 0, -1);
    WalkMembers(js, toks, uuidParse, 1, Request(clear, {}), m, |lead| + 1 + |pad|, 1, 0);
  }

  // ---- a request that is lost

  /** If the value of such a member is taken for `req-id`, the next member's key is
      taken for the identifier, and its value is walked over token by token. */
  lemma SwallowsNextKey<U>(text: string, toks: seq<Token>, uuidParse: (string, U) -> U, i: nat, sr: Request<U>,
                           m: Members, off: nat, idx: nat, parent: int)
    requires Sound(text, toks) && m.Member? && m.rest.Member? && i + MemberNodes(m) <= |toks|
    requires IsStray(Body(m.key)) && m.value.Str? && IsReqId(Body(m.value.body)) && |Body(m.rest.key)| <= UUID_BUFLEN
    requires Holds(toks, i, MemberTokens(m, off, idx, parent)) && At(text, off, PrintMembers(m))
    ensures Walk(text, toks, uuidParse, i, sr) ==
      Walk(text, toks, uuidParse, i + 3, sr.(uuid := uuidParse(UuidText(Body(m.rest.key)), sr.uuid)))
  {
    hide At, Holds, MemberTokens, PrintMembers, Print, Preorder, Quoted, Body, Text, StrnEqual, UuidText, Stats, Sound;
    var p := off + |m.before| + |Quoted(m.key)| + |m.mid| + 1 + |m.gap|;
    MemberStart(text, toks, i, m, off, idx, parent);
    FirstToken(text, toks, i + 1, m.value, p, idx + 1, idx);
    MemberStart(text, toks, i + 2, m.rest, p + |Print(m.value)| + |m.after| + 1, idx + 2, parent);
  }

  function Letters(s: string): seq<StrChar> {
    seq(|s|, i requires 0 <= i < |s| => Plain(s[i]))
  }

  lemma {:induction false} LettersBody(s: string)
    ensures Body(Letters(s)) == s
    decreases |s|
  {
    if s != "" {
      assert Letters(s)[1..] == Letters(s[1..]);
      LettersBody(s[1..]);
    }
  }

  /** The members of `{"x":"req-id","get-stats":["cpu-total"]}`. */
  function LostMembers(): Members {
    var list := Arr("", Item("", Str(Letters("cpu-total")), "", NoItems));
    Member("", Letters("x"), "", "", Str(Letters("req-id")), "",
      Member("", Letters("get-stats"), "", "", list, "", NoMembers))
  }

  lemma LostIs()
    ensures var m := LostMembers();
      && IsStray(Body(m.key)) && m.value.Str? && IsReqId(Body(m.value.body)) && Body(m.rest.key) == "get-stats"
      && MemberNodes(m) == 5 && Calm(m.rest.value, true)
  {
    hide Letters, Body;
    LettersBody("x");
    LettersBody("req-id");
    LettersBody("get-stats");
    StrnSelf("req-id");
  }

  lemma LettersLegal(s: string)
    requires forall i :: 0 <= i < |s| ==> Plain(s[i]).Legal()
    ensures IsBody(Letters(s))
  {
  }

  lemma LostLegal()
    ensures Legal(Obj("", LostMembers()))
  {
    hide Letters, IsBody;
    LettersLegal("x");
    LettersLegal("req-id");
    LettersLegal("get-stats");
    LettersLegal("cpu-total");
  }

  /** That request is accepted with no flag set. */
  lemma RequestIsLost<U>(junk: Token, clear: U, uuidParse: (string, U) -> U)
    ensures ParseSpec(Print(Obj("", LostMembers())), junk, clear, uuidParse)
         == (0, Request(uuidParse("get-stats", clear), {}))
  {
    hide Run, Walk, Print, PrintMembers, MemberTokens, Preorder, Body, StrnEqual, At, Holds, Passes, LostMembers, Legal,
      Calm, Sound;
    var m := LostMembers();
    LostIs();
    LostLegal();
    var v, cfg := Obj("", m), Config(Scan, MAX_TOKENS, junk);
    var js := Print(v);
    assert "" + js + "" == js;
    RoundTrip(cfg, "", v, "");
    ParsedIsSound(cfg, js);
    var toks, sr := Preorder(v, 0, 0, -1), Request(clear, {});
    PreorderRooted(v, 0, 0, -1);
    assert At(js, 0, js) && Holds(toks, 0, toks) by { Whole(js, toks); }
    ObjectStart(js, toks, 0, "", m, 0, 0, -1);
    SwallowsNextKey(js, toks, uuidParse, 1, sr, m, 1, 1, 0);
    var p := 1 + |m.before| + |Quoted(m.key)| + |m.mid| + 1 + |m.gap|;
    MemberStart(js, toks, 1, m, 1, 1, 0);
    var q := p + |Print(m.value)| + |m.after| + 1;
    MemberStart(js, toks, 3, m.rest, q, 3, 0);
    var list := q + |m.rest.before| + |Quoted(m.rest.key)| + |m.rest.mid| + 1 + |m.rest.gap|;
    ValueIsCalm(js, toks, 4, m.rest.value, list, 4, 3);
    var got := sr.(uuid := uuidParse("get-stats", clear));
    WalkPasses(js, toks, uuidParse, 4, 6, got);
    WalkEnd(js, toks, uuidParse, 6, got);
  }

  lemma Between(js: string, lead: string, s: string, trail: string)
    requires js == lead + s + trail
    ensures At(js, |lead|, s)
  {
  }

  lemma Whole(js: string, toks: seq<Token>)
    ensures At(js, 0, js) && Holds(toks, 0, toks)
  {
  }

  /** `{ "stats": 1 }`, which the tests of the repository call malformed, is
      accepted as a request for nothing. */
  lemma StatsIsAccepted<U>(junk: Token, clear: U, uuidParse: (string, U) -> U)
    ensures var m := Member(" ", Letters("stats"), "", " ", Prim("1"), " ", NoMembers);
      ParseSpec(Print(Obj("", m)), junk, clear, uuidParse) == (0, Request(clear, {}))
  {
    hide Run, Walk, Print, Letters, Body, IsBody;
    var m := Member(" ", Letters("stats"), "", " ", Prim("1"), " ", NoMembers);
    LettersBody("stats");
    LettersLegal("stats");
    assert "" + Print(Obj("", m)) + "" == Print(Obj("", m));
    assert IsStray(Body(m.key)) && IsRequest(m) && forall s :: !Names(m, s);
    hide ParseSpec;
    RequestIsUnderstood(junk, clear, uuidParse, "", "", m, "");
    var sr := ParseSpec(Print(Obj("", m)), junk, clear, uuidParse).1;
    assert sr.stats == {};
  }
}
