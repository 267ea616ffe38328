/** JSON values as trees with the layout they are written in: section 2 of
    RFC 8259 for structure and white space, section 7 for strings. */
module JsonText {
  import opened JsmnLexer
  import opened JsmnMachine

  // ---- the characters of RFC 8259, written out

  const Blanks := " \t\n\r"
  const Escapes := "\"\\/bfnrt"
  const HexDigits := "0123456789abcdefABCDEF"

  /** What ends a number or a literal name, besides white space. */
  const WordEnds := ":,]}"

  predicate IsHexDigit(c: char) {
    c in HexDigits
  }

  predicate IsWordChar(c: char) {
    33 <= c as int <= 126 && c !in WordEnds
  }

  /** One character of a string body. Bare control characters are let through, as the
      tokenizer does. */
  datatype StrChar = Plain(c: char) | Escape(c: char) | Unicode(h: string) {
    predicate Legal() {
      match this
      case Plain(c) => c != '\"' && c != '\\' && c != '\0'
      case Escape(c) => c in Escapes
      case Unicode(h) => |h| == 4 && forall i :: 0 <= i < 4 ==> IsHexDigit(h[i])
    }

    function Text(): string {
      match this
      case Plain(c) => [c]
      case Escape(c) => ['\\', c]
      case Unicode(h) => "\\u" + h
    }
  }

  /** `pad`, `before`, `mid`, `gap` and `after` are the white space. */
  datatype Json =
    | Str(body: seq<StrChar>)
    | Prim(word: string)
    | Arr(pad: string, items: Items)
    | Obj(pad: string, members: Members)

  datatype Items =
    | NoItems
    | Item(before: string, value: Json, after: string, rest: Items)

  datatype Members =
    | NoMembers
    | Member(before: string, key: seq<StrChar>, mid: string, gap: string, value: Json, after: string, rest: Members)

  // ---- which trees are JSON

  predicate IsSpace(s: string) {
    forall i :: 0 <= i < |s| ==> s[i] in Blanks
  }

  /** Numbers and the literal names are such words. */
  predicate IsWord(s: string) {
    && s != [] && s[0] !in "{[\""
    && forall i :: 0 <= i < |s| ==> IsWordChar(s[i])
  }

  predicate IsBody(b: seq<StrChar>) {
    forall i :: 0 <= i < |b| ==> b[i].Legal()
  }

  predicate Legal(v: Json) {
    match v
    case Str(body) => IsBody(body)
    case Prim(word) => IsWord(word)
    case Arr(pad, items) => IsSpace(pad) && LegalItems(items)
    case Obj(pad, members) => IsSpace(pad) && LegalMembers(members)
  }

  predicate LegalItems(items: Items) {
    match items
    case NoItems => true
    case Item(before, value, after, rest) =>
      IsSpace(before) && Legal(value) && IsSpace(after) && LegalItems(rest)
  }

  predicate LegalMembers(members: Members) {
    match members
    case NoMembers => true
    case Member(before, key, mid, gap, value, after, rest) =>
      && IsSpace(before) && IsBody(key) && IsSpace(mid) && IsSpace(gap)
      && Legal(value) && IsSpace(after) && LegalMembers(rest)
  }

  // ---- the text of a tree

  function Body(b: seq<StrChar>): string {
    if b == [] then "" else b[0].Text() + Body(b[1..])
  }

  function Quoted(b: seq<StrChar>): string {
    "\"" + Body(b) + "\""
  }

  function Print(v: Json): string {
    match v
    case Str(body) => Quoted(body)
    case Prim(word) => word
    case Arr(pad, items) => "[" + (pad + (PrintItems(items) + "]"))
    case Obj(pad, members) => "{" + (pad + (PrintMembers(members) + "}"))
  }

  function PrintItems(items: Items): string {
    match items
    case NoItems => ""
    case Item(before, value, after, rest) =>
      before + (Print(value) + (after + if rest.NoItems? then "" else "," + PrintItems(rest)))
  }

  function PrintMembers(members: Members): string {
    match members
    case NoMembers => ""
    case Member(before, key, mid, gap, value, after, rest) =>
      before + (Quoted(key) + (mid + (":" + (gap + (Print(value) +
        (after + if rest.NoMembers? then "" else "," + PrintMembers(rest)))))))
  }

  // ---- the tokens of a tree, in preorder

  function Nodes(v: Json): nat {
    match v
    case Str(_) => 1
    case Prim(_) => 1
    case Arr(_, items) => 1 + ItemNodes(items)
    case Obj(_, members) => 1 + MemberNodes(members)
  }

  lemma PositiveNodes(v: Json)
    ensures Nodes(v) >= 1 && (v.Str? ==> Nodes(v) == 1)
  {
  }

  function ItemNodes(items: Items): nat {
    match items
    case NoItems => 0
    case Item(_, value, _, rest) => Nodes(value) + ItemNodes(rest)
  }

  function MemberNodes(members: Members): nat {
    match members
    case NoMembers => 0
    case Member(_, _, _, _, value, _, rest) => 1 + Nodes(value) + MemberNodes(rest)
  }

  function ItemCount(items: Items): nat {
    match items
    case NoItems => 0
    case Item(_, _, _, rest) => 1 + ItemCount(rest)
  }

  function MemberCount(members: Members): nat {
    match members
    case NoMembers => 0
    case Member(_, _, _, _, _, _, rest) => 1 + MemberCount(rest)
  }

  /** The tokens of `v` written at `off`, numbered from `idx`, under `parent`. An
      object's size is its number of keys, a key's is 1, an array's is its number
      of elements, a leaf's is 0. */
  function Preorder(v: Json, off: nat, idx: nat, parent: int): seq<Token> {
    match v
    case Str(body) => [Token(String, off + 1, off + 1 + |Body(body)|, 0, parent)]
    case Prim(word) => [Token(Primitive, off, off + |word|, 0, parent)]
    case Arr(pad, items) =>
      [Token(Array, off, off + |Print(v)|, ItemCount(items), parent)]
        + ItemTokens(items, off + 1 + |pad|, idx + 1, idx)
    case Obj(pad, members) =>
      [Token(Object, off, off + |Print(v)|, MemberCount(members), parent)]
        + MemberTokens(members, off + 1 + |pad|, idx + 1, idx)
  }

  function ItemTokens(items: Items, off: nat, idx: nat, parent: int): seq<Token> {
    match items
    case NoItems => []
    case Item(before, value, after, rest) =>
      Preorder(value, off + |before|, idx, parent)
        + ItemTokens(rest, off + |before| + |Print(value)| + |after| + 1, idx + Nodes(value), parent)
  }

  function KeyToken(key: seq<StrChar>, off: nat, size: nat, parent: int): Token {
    Token(String, off + 1, off + 1 + |Body(key)|, size, parent)
  }

  function MemberTokens(members: Members, off: nat, idx: nat, parent: int): seq<Token> {
    match members
    case NoMembers => []
    case Member(before, key, mid, gap, value, after, rest) =>
      var k := off + |before|;
      var p := k + |Quoted(key)| + |mid| + 1 + |gap|;
      [KeyToken(key, k, 1, parent)] + Preorder(value, p, idx + 1, idx)
        + MemberTokens(rest, p + |Print(value)| + |after| + 1, idx + 1 + Nodes(value), parent)
  }

  /** All closed, and every parent is the given one or an earlier token here. */
  ghost predicate Rooted(ts: seq<Token>, idx: nat, parent: int) {
    forall j :: 0 <= j < |ts| ==> ts[j].end >= 0 && (ts[j].parent == parent || idx <= ts[j].parent < idx + j)
  }

  lemma RootedAppend(a: seq<Token>, b: seq<Token>, idx: nat, parent: int)
    requires Rooted(a, idx, parent) && Rooted(b, idx + |a|, parent)
    ensures Rooted(a + b, idx, parent)
  {
  }

  lemma RootedNest(t: Token, ts: seq<Token>, idx: nat, parent: int)
    requires t.end >= 0 && t.parent == parent && Rooted(ts, idx + 1, idx)
    ensures Rooted([t] + ts, idx, parent)
  {
  }

  lemma {:induction false} PreorderRooted(v: Json, off: nat, idx: nat, parent: int)
    ensures |Preorder(v, off, idx, parent)| == Nodes(v) && Rooted(Preorder(v, off, idx, parent), idx, parent)
  {
    match v
    case Str(_) =>
    case Prim(_) =>
    case Arr(pad, items) =>
      ItemsRooted(items, off + 1 + |pad|, idx + 1, idx);
      RootedNest(Preorder(v, off, idx, parent)[0], ItemTokens(items, off + 1 + |pad|, idx + 1, idx), idx, parent);
    case Obj(pad, members) =>
      MembersRooted(members, off + 1 + |pad|, idx + 1, idx);
      RootedNest(Preorder(v, off, idx, parent)[0], MemberTokens(members, off + 1 + |pad|, idx + 1, idx), idx, parent);
  }

  lemma {:induction false} ItemsRooted(items: Items, off: nat, idx: nat, parent: int)
    ensures |ItemTokens(items, off, idx, parent)| == ItemNodes(items)
    ensures Rooted(ItemTokens(items, off, idx, parent), idx, parent)
  {
    match items
    case NoItems =>
    case Item(before, value, after, rest) =>
      var next := off + |before| + |Print(value)| + |after| + 1;
      PreorderRooted(value, off + |before|, idx, parent);
      ItemsRooted(rest, next, idx + Nodes(value), parent);
      RootedAppend(Preorder(value, off + |before|, idx, parent),
        ItemTokens(rest, next, idx + Nodes(value), parent), idx, parent);
  }

  lemma {:induction false} MembersRooted(members: Members, off: nat, idx: nat, parent: int)
    ensures |MemberTokens(members, off, idx, parent)| == MemberNodes(members)
    ensures Rooted(MemberTokens(members, off, idx, parent), idx, parent)
  {
    hide Print, Preorder, Body, Quoted;
    match members
    case NoMembers =>
    case Member(before, key, mid, gap, value, after, rest) =>
      var k := off + |before|;
      var p := k + |Quoted(key)| + |mid| + 1 + |gap|;
      var next := p + |Print(value)| + |after| + 1;
      var one, more := Preorder(value, p, idx + 1, idx), MemberTokens(rest, next, idx + 1 + Nodes(value), parent);
      assert MemberTokens(members, off, idx, parent) == [KeyToken(key, k, 1, parent)] + one + more;
      PreorderRooted(value, p, idx + 1, idx);
      MembersRooted(rest, next, idx + 1 + Nodes(value), parent);
      hide MemberTokens, Rooted;
      RootedNest(KeyToken(key, k, 1, parent), one, idx, parent);
      RootedAppend([KeyToken(key, k, 1, parent)] + one, more, idx, parent);
  }

  // ---- the tokenizer's classes are these

  lemma HexAgrees(c: char)
    ensures IsHex(c) <==> IsHexDigit(c)
  {
    assert "0123456789" + "abcdefABCDEF" == HexDigits;
    assert '0' <= c <= '9' <==> c in "0123456789" by { Digits(c); }
    assert 'A' <= c <= 'F' || 'a' <= c <= 'f' <==> c in "abcdefABCDEF" by { Letters16(c); }
  }

  lemma Digits(c: char)
    ensures '0' <= c <= '9' <==> c in "0123456789"
  {
  }

  lemma Letters16(c: char)
    ensures 'A' <= c <= 'F' || 'a' <= c <= 'f' <==> c in "abcdefABCDEF"
  {
  }

  /** The tokenizer's character classes are the characters listed above. */
  lemma ClassesAgree(c: char)
    ensures IsBlank(c) <==> c in Blanks
    ensures IsShortEscape(c) <==> c in Escapes
    ensures IsHex(c) <==> IsHexDigit(c)
    ensures IsDelimiter(c) <==> c in Blanks || c in WordEnds
    ensures IsPrintable(c) && !IsDelimiter(c) <==> IsWordChar(c)
    ensures IsPrimStart(c) <==> c !in Blanks && c !in WordEnds && c !in "{[\""
  {
    HexAgrees(c);
    hide IsHex;
  }

  // ---- lexing what was printed

  /** The text `s` stands in `js` at `p`. */
  ghost predicate At(js: string, p: nat, s: string) {
    p + |s| <= |js| && js[p..p + |s|] == s
  }

  lemma AtSplits(js: string, p: nat, s: string, t: string)
    requires At(js, p, s + t)
    ensures At(js, p, s) && At(js, p + |s|, t)
  {
    assert js[p..p + |s + t|][..|s|] == s && js[p..p + |s + t|][|s|..] == t;
    assert js[p..p + |s + t|][..|s|] == js[p..p + |s|];
    assert js[p..p + |s + t|][|s|..] == js[p + |s|..p + |s + t|];
  }

  lemma AtChar(js: string, p: nat, s: string, i: nat)
    requires At(js, p, s) && i < |s|
    ensures p + |s| <= |js| && js[p + i] == s[i]
  {
    assert js[p..p + |s|][i] == js[p + i];
  }

  lemma {:induction false} DigitsLex(js: string, p: nat, n: nat)
    requires p + n <= |js| && forall i :: p <= i < p + n ==> IsHexDigit(js[i])
    ensures HexEnd(js, p, n) == Lexed(p + n)
    decreases n
  {
    hide IsHexDigit;
    if n > 0 {
      HexAgrees(js[p]);
      DigitsLex(js, p + 1, n - 1);
    }
  }

  lemma HexLexes(js: string, p: nat, h: string)
    requires At(js, p, h) && |h| == 4 && forall i :: 0 <= i < 4 ==> IsHexDigit(h[i])
    ensures HexEnd(js, p, 4) == Lexed(p + 4)
  {
    hide IsHexDigit;
    forall i | p <= i < p + 4
      ensures i < |js| && IsHexDigit(js[i])
    {
      AtChar(js, p, h, i - p);
    }
    DigitsLex(js, p, 4);
  }

  lemma CharLexes(js: string, p: nat, c: StrChar)
    requires c.Legal() && At(js, p, c.Text())
    ensures StrEnd(js, p) == StrEnd(js, p + |c.Text()|)
  {
    AtChar(js, p, c.Text(), 0);
    if !c.Plain? {
      AtChar(js, p, c.Text(), 1);
      ClassesAgree(js[p + 1]);
    }
    if c.Unicode? {
      AtSplits(js, p, "\\u", c.h);
      HexLexes(js, p + 2, c.h);
    }
  }

  /** The scan passes over a printed body. */
  lemma {:induction false} BodyPasses(js: string, p: nat, b: seq<StrChar>)
    requires IsBody(b) && At(js, p, Body(b))
    ensures StrEnd(js, p) == StrEnd(js, p + |Body(b)|)
    decreases |b|
  {
    hide StrEnd, At, StrChar.Legal, StrChar.Text;
    if b != [] {
      AtSplits(js, p, b[0].Text(), Body(b[1..]));
      assert b[0].Legal();
      CharLexes(js, p, b[0]);
      BodyPasses(js, p + |b[0].Text()|, b[1..]);
    }
  }

  /** A printed body ends at its closing quote. */
  lemma BodyLexes(js: string, p: nat, b: seq<StrChar>)
    requires IsBody(b) && At(js, p, Body(b) + "\"")
    ensures StrEnd(js, p) == Lexed(p + |Body(b)|)
  {
    hide At, IsBody, Body;
    AtSplits(js, p, Body(b), "\"");
    AtChar(js, p + |Body(b)|, "\"", 0);
    BodyPasses(js, p, b);
  }

  /** A printed word ends at the first delimiter, or with the text. */
  lemma {:induction false} WordLexes(js: string, p: nat, w: string)
    requires At(js, p, w) && forall i :: 0 <= i < |w| ==> IsWordChar(w[i])
    requires AtEnd(js, p + |w|) || IsDelimiter(js[p + |w|])
    ensures PrimEnd(js, p) == Lexed(p + |w|)
    decreases |w|
  {
    if w != [] {
      AtChar(js, p, w, 0);
      ClassesAgree(w[0]);
      assert w == [w[0]] + w[1..];
      AtSplits(js, p, [w[0]], w[1..]);
      WordLexes(js, p + 1, w[1..]);
    }
  }
}
