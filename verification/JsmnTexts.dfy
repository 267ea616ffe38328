/** The texts the default build accepts, without the tokenizer's own reading: they
    are spelled by legal lexemes whose brackets balance. */
module JsmnTexts {
  import opened JsmnLexer
  import opened JsmnMachine
  import opened JsmnBalance
  import opened JsonText
  import opened JsmnRoundTrip
  import opened JsmnGrammar

  datatype Lexeme = Gap(c: char) | Mark(c: char) | Quote(body: seq<StrChar>) | Bare(word: string) {
    predicate Legal() {
      match this
      case Gap(c) => c in Blanks
      case Mark(c) => c in "{}[]:,"
      case Quote(body) => IsBody(body)
      case Bare(word) => IsWord(word)
    }

    function Spell(): string {
      match this
      case Gap(c) => [c]
      case Mark(c) => [c]
      case Quote(body) => Quoted(body)
      case Bare(word) => word
    }

    /** Its bracket, if it is one. */
    function Pair(): seq<Bracket> {
      if !Mark? then []
      else if c == '{' then [Left(Object)]
      else if c == '[' then [Left(Array)]
      else if c == '}' then [Right(Object)]
      else if c == ']' then [Right(Array)]
      else []
    }

    /** Whether it begins a value or is one. */
    function Value(): nat {
      if Quote? || Bare? || (Mark? && (c == '{' || c == '[')) then 1 else 0
    }
  }

  function SpellAll(ls: seq<Lexeme>): string {
    if ls == [] then "" else ls[0].Spell() + SpellAll(ls[1..])
  }

  function Pairs(ls: seq<Lexeme>): seq<Bracket> {
    if ls == [] then [] else ls[0].Pair() + Pairs(ls[1..])
  }

  function Values(ls: seq<Lexeme>): nat {
    if ls == [] then 0 else ls[0].Value() + Values(ls[1..])
  }

  /** A word runs on until something that ends one. */
  predicate LegalAll(ls: seq<Lexeme>) {
    ls != [] ==>
      && ls[0].Legal() && LegalAll(ls[1..])
      && (ls[0].Bare? && SpellAll(ls[1..]) != "" ==> EndsWord(SpellAll(ls[1..])[0]))
  }

  /** The lexemes spell the text from `p` to its end, or to its first NUL. */
  ghost predicate Spelled(js: string, p: nat, ls: seq<Lexeme>) {
    LegalAll(ls) && At(js, p, SpellAll(ls)) && AtEnd(js, p + |SpellAll(ls)|)
  }

  // ---- one lexeme is one event

  ghost predicate Means(ev: Event, l: Lexeme) {
    ev.Cost() == l.Value() && forall evs :: Brackets([ev] + evs) == l.Pair() + Brackets(evs)
  }

  lemma MarkReads(js: string, p: nat, c: char)
    requires !AtEnd(js, p) && js[p] == c && (c in Blanks || c in "{}[]:,")
    ensures var r := Read(js, p); r.Reading? && r.next == p + 1
    ensures Means(Read(js, p).ev, if c in Blanks then Gap(c) else Mark(c))
  {
    ClassesAgree(c);
    forall evs: seq<Event>
      ensures ([Read(js, p).ev] + evs)[1..] == evs
    {
    }
  }

  lemma LeafMeans(kind: Kind, start: nat, end: nat, l: Lexeme)
    requires l.Quote? || l.Bare?
    ensures Means(Leaf(kind, start, end), l)
  {
    forall evs: seq<Event>
      ensures ([Leaf(kind, start, end)] + evs)[1..] == evs
    {
    }
  }

  lemma LexemeReads(js: string, p: nat, l: Lexeme)
    requires l.Legal() && At(js, p, l.Spell())
    requires l.Bare? ==> AtEnd(js, p + |l.Spell()|) || EndsWord(js[p + |l.Spell()|])
    ensures !AtEnd(js, p) && Read(js, p).Reading? && Read(js, p).next == p + |l.Spell()| && Means(Read(js, p).ev, l)
  {
    hide Means, Read, IsBody, IsWord, Quoted, IsDelimiter, At;
    match l
    case Gap(c) =>
      AtChar(js, p, [c], 0);
      MarkReads(js, p, c);
    case Mark(c) =>
      AtChar(js, p, [c], 0);
      MarkReads(js, p, c);
    case Quote(body) =>
      ReadQuoted(js, p, body);
      QuotedLength(body);
      LeafMeans(String, p + 1, p + 1 + |Body(body)|, l);
    case Bare(word) =>
      if !AtEnd(js, p + |word|) {
        ClassesAgree(js[p + |word|]);
      }
      ReadWord(js, p, word);
      LeafMeans(Primitive, p, p + |word|, l);
  }

  lemma QuotedLength(b: seq<StrChar>)
    ensures |Quoted(b)| == |Body(b)| + 2
  {
  }

  /** A text spelled by lexemes is read as one event each. */
  lemma {:induction false} SpelledLexes(js: string, p: nat, ls: seq<Lexeme>)
    requires Spelled(js, p, ls)
    ensures var lex := LexAll(js, p); lex.Lexes? && Brackets(lex.evs) == Pairs(ls) && Demand(lex.evs) == Values(ls)
    decreases |ls|
  {
    hide At, Read, Means, Lexeme.Legal, Lexeme.Spell, Lexeme.Pair, Lexeme.Value, Brackets;
    if ls == [] {
      assert Brackets([]) == [] by { NoBrackets(); }
    } else {
      var l, rest := ls[0], ls[1..];
      AtSplits(js, p, l.Spell(), SpellAll(rest));
      if l.Bare? && SpellAll(rest) != "" {
        AtChar(js, p + |l.Spell()|, SpellAll(rest), 0);
      }
      LexemeReads(js, p, l);
      SpelledLexes(js, p + |l.Spell()|, rest);
      MeansOne(Read(js, p).ev, l, LexAll(js, Read(js, p).next).evs);
    }
  }

  lemma NoBrackets()
    ensures Brackets([]) == []
  {
  }

  lemma MeansOne(ev: Event, l: Lexeme, evs: seq<Event>)
    requires Means(ev, l)
    ensures Brackets([ev] + evs) == l.Pair() + Brackets(evs) && Demand([ev] + evs) == l.Value() + Demand(evs)
  {
    hide Brackets;
    assert ([ev] + evs)[1..] == evs;
  }

  // ---- one event is one lexeme

  lemma LexemeAt(js: string, p: nat) returns (l: Lexeme)
    requires !AtEnd(js, p) && Read(js, p).Reading?
    ensures l.Legal() && At(js, p, l.Spell()) && Read(js, p).next == p + |l.Spell()| && 0 < |l.Spell()|
    ensures l.Bare? ==> AtEnd(js, p + |l.Spell()|) || EndsWord(js[p + |l.Spell()|])
  {
    var c, next := js[p], Read(js, p).next;
    ClassesAgree(c);
    if c in Blanks || c in "{}[]:," {
      MarkReads(js, p, c);
      l := if c in Blanks then Gap(c) else Mark(c);
    } else if c == '\"' {
      l := QuoteAt(js, p);
    } else {
      l := BareAt(js, p);
    }
  }

  lemma QuoteAt(js: string, p: nat) returns (l: Lexeme)
    requires !AtEnd(js, p) && js[p] == '\"' && Read(js, p).Reading?
    ensures l.Quote? && l.Legal() && At(js, p, l.Spell()) && Read(js, p).next == p + |l.Spell()|
  {
    hide At, IsBody, Body, StrEnd;
    var e := StrEnd(js, p + 1).next;
    StringsAreExact(js, p + 1, e);
    var b :| IsBody(b) && e == p + 1 + |Body(b)| && At(js, p + 1, Body(b) + "\"");
    l := Quote(b);
    assert Quoted(b) == "\"" + (Body(b) + "\"");
    AtFollows(js, p, '\"', Body(b) + "\"");
  }

  lemma AtFollows(js: string, p: nat, c: char, s: string)
    requires p < |js| && js[p] == c && At(js, p + 1, s)
    ensures At(js, p, [c] + s)
  {
    assert js[p..p + 1 + |s|] == [js[p]] + js[p + 1..p + 1 + |s|];
  }

  lemma BareAt(js: string, p: nat) returns (l: Lexeme)
    requires !AtEnd(js, p) && Read(js, p).Reading? && IsPrimStart(js[p])
    ensures l.Bare? && l.Legal() && At(js, p, l.Spell()) && Read(js, p).next == p + |l.Spell()|
    ensures AtEnd(js, p + |l.Spell()|) || EndsWord(js[p + |l.Spell()|])
  {
    hide IsWordChar;
    var e := Read(js, p).next;
    PrimitivesAreExact(js, p, e);
    ClassesAgree(js[p]);
    l := Bare(js[p..e]);
  }

  /** A text that lexes is spelled by lexemes. */
  lemma {:induction false} LexesSpelled(js: string, p: nat) returns (ls: seq<Lexeme>)
    requires p <= |js| && LexAll(js, p).Lexes?
    ensures Spelled(js, p, ls)
    decreases |js| - p
  {
    hide At, Read, Lexeme.Legal, Lexeme.Spell;
    if AtEnd(js, p) {
      ls := [];
      Nothing(js, p);
    } else {
      var l := LexemeAt(js, p);
      ls := LexesSpelled(js, p + |l.Spell()|);
      SpelledMore(js, p, l, ls);
      ls := [l] + ls;
    }
  }

  lemma SpelledMore(js: string, p: nat, l: Lexeme, ls: seq<Lexeme>)
    requires l.Legal() && At(js, p, l.Spell()) && Spelled(js, p + |l.Spell()|, ls)
    requires l.Bare? ==> AtEnd(js, p + |l.Spell()|) || EndsWord(js[p + |l.Spell()|])
    ensures Spelled(js, p, [l] + ls)
  {
    hide At, Lexeme.Legal, Lexeme.Spell, EndsWord;
    var q, tail := p + |l.Spell()|, SpellAll(ls);
    assert ([l] + ls)[1..] == ls;
    AtJoins(js, p, l.Spell(), tail);
    if l.Bare? && tail != "" {
      AtChar(js, q, tail, 0);
      NotNul(ls);
      assert EndsWord(tail[0]);
    }
    assert LegalAll([l] + ls);
    assert SpellAll([l] + ls) == l.Spell() + tail;
  }

  lemma NotNul(ls: seq<Lexeme>)
    requires LegalAll(ls) && SpellAll(ls) != ""
    ensures SpellAll(ls)[0] != '\0'
  {
    assert ls[0].Spell() != "";
    assert SpellAll(ls)[0] == ls[0].Spell()[0];
  }

  lemma AtJoins(js: string, p: nat, s: string, t: string)
    requires At(js, p, s) && At(js, p + |s|, t)
    ensures At(js, p, s + t)
  {
    assert js[p..p + |s| + |t|] == js[p..p + |s|] + js[p + |s|..p + |s| + |t|];
  }

  // ---- acceptance

  /** A fresh parse succeeds if and only if the text is spelled by legal lexemes, in
      the characters of RFC 8259, whose brackets are balanced and which ask for no
      more tokens than there are. */
  lemma AcceptanceIsSpelling(cfg: Config, js: string)
    requires cfg.build.Scan?
    ensures Run(cfg, js, Init, 0).0.Tokens? <==>
      exists ls :: Spelled(js, 0, ls) && Balanced(Pairs(ls)) && Values(ls) <= cfg.cap
  {
    hide Run, LexAll, Spelled, Balanced, Brackets, Pairs, Demand, Values;
    AcceptanceIsBalance(cfg, js);
    if LexAll(js, 0).Lexes? {
      var ls := LexesSpelled(js, 0);
      SpelledLexes(js, 0, ls);
    }
    if ls :| Spelled(js, 0, ls) && Balanced(Pairs(ls)) && Values(ls) <= cfg.cap {
      SpelledLexes(js, 0, ls);
    }
  }
}
