/** Characters, strings and primitives as the tokenizer reads them.

    A text is what the C code sees between `js` and `js + len`: reading stops
    at the end of the sequence or at the first NUL, whichever comes first. */
module JsmnLexer {

  datatype Kind = Primitive | Object | Array | String {
    predicate IsContainer() {
      Object? || Array?
    }
  }

  /** Where a string or a primitive ends, or why it does not. */
  datatype Lex = Lexed(next: nat) | BadChar | Unfinished

  predicate AtEnd(js: string, i: nat) {
    i >= |js| || js[i] == '\0'
  }

  predicate IsBlank(c: char) {
    c == '\t' || c == '\r' || c == '\n' || c == ' '
  }

  predicate IsDelimiter(c: char) {
    IsBlank(c) || c == ':' || c == ',' || c == ']' || c == '}'
  }

  /** Characters the main loop leaves to the primitive scanner. */
  predicate IsPrimStart(c: char) {
    !IsDelimiter(c) && c != '{' && c != '[' && c != '\"'
  }

  predicate IsPrintable(c: char) {
    ' ' <= c < '\U{7F}'
  }

  predicate IsHex(c: char) {
    '0' <= c <= '9' || 'A' <= c <= 'F' || 'a' <= c <= 'f'
  }

  predicate IsShortEscape(c: char) {
    c == '\"' || c == '/' || c == '\\' || c == 'b' || c == 'f' || c == 'r' || c == 'n' || c == 't'
  }

  ghost predicate NulFree(js: string) {
    forall i :: 0 <= i < |js| ==> js[i] != '\0'
  }

  /** End of the primitive whose scan stands at `i`. */
  function PrimEnd(js: string, i: nat): (r: Lex)
    ensures r.Lexed? ==> i <= r.next && (i <= |js| ==> r.next <= |js|)
    ensures !r.Unfinished?
    decreases |js| - i
  {
    if AtEnd(js, i) || IsDelimiter(js[i]) then Lexed(i)
    else if !IsPrintable(js[i]) then BadChar
    else PrimEnd(js, i + 1)
  }

  /** Position after at most `n` hexadecimal digits. */
  function HexEnd(js: string, i: nat, n: nat): (r: Lex)
    ensures r.Lexed? ==> i <= r.next <= i + n && (i <= |js| ==> r.next <= |js|)
    ensures !r.Unfinished?
    decreases n
  {
    if n == 0 || AtEnd(js, i) then Lexed(i)
    else if !IsHex(js[i]) then BadChar
    else HexEnd(js, i + 1, n - 1)
  }

  /** Position of the closing quote of the string whose scan stands at `i`. */
  function StrEnd(js: string, i: nat): (r: Lex)
    ensures r.Lexed? ==> i <= r.next < |js| && js[r.next] == '\"'
    decreases |js| - i
  {
    if AtEnd(js, i) then Unfinished
    else if js[i] == '\"' then Lexed(i)
    else if js[i] == '\\' && i + 1 < |js| then
      if IsShortEscape(js[i + 1]) then StrEnd(js, i + 2)
      else if js[i + 1] == 'u' then
        var h := HexEnd(js, i + 2, 4);
        if h.Lexed? then StrEnd(js, h.next) else BadChar
      else BadChar
    else StrEnd(js, i + 1)
  }

  /** One lexical step of the main loop. `Leaf` spans exclude string quotes. */
  datatype Event =
    | Blank
    | Open(kind: Kind)
    | Close(kind: Kind)
    | Leaf(kind: Kind, start: nat, end: nat)
    | Colon
    | Comma
  {
    /** Whether the event asks for a token. */
    predicate MakesToken() {
      Open? || Leaf?
    }

    function Cost(): nat {
      if MakesToken() then 1 else 0
    }

    predicate IsBracket() {
      Open? || Close?
    }
  }

  /** The event at a position and the position after it, or a lexical failure. */
  datatype Reading = Reading(ev: Event, next: nat) | Failed(invalid: bool)

  function Read(js: string, p: nat): (r: Reading)
    requires !AtEnd(js, p)
    ensures r.Reading? ==> p < r.next <= |js|
    ensures r.Reading? && r.ev.Leaf? ==> p <= r.ev.start <= r.ev.end <= r.next && r.ev.start < r.next
    ensures r.Reading? && r.ev.Leaf? ==> !r.ev.kind.IsContainer()
    ensures r.Reading? && r.ev.IsBracket() ==> r.ev.kind.IsContainer() && r.next == p + 1
  {
    var c := js[p];
    if c == '{' then Reading(Open(Object), p + 1)
    else if c == '[' then Reading(Open(Array), p + 1)
    else if c == '}' then Reading(Close(Object), p + 1)
    else if c == ']' then Reading(Close(Array), p + 1)
    else if c == '\"' then
      var e := StrEnd(js, p + 1);
      if e.Lexed? then Reading(Leaf(String, p + 1, e.next), e.next + 1) else Failed(e.BadChar?)
    else if IsBlank(c) then Reading(Blank, p + 1)
    else if c == ':' then Reading(Colon, p + 1)
    else if c == ',' then Reading(Comma, p + 1)
    else
      var e := PrimEnd(js, p);
      if e.Lexed? then
        assert e.next > p by { if IsPrintable(c) { assert e == PrimEnd(js, p + 1); } }
        Reading(Leaf(Primitive, p, e.next), e.next)
      else Failed(true)
  }
}
