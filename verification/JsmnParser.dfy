/** `jsmn.c` as it works: a parser object that walks a text and fills an array
    of tokens in place. */
module JsmnParser {
  import opened JsmnLexer
  import opened JsmnMachine
  import opened JsmnCounting

  /** What the two scanners hand back: 0 or an error code. */
  datatype Status = Fine | Error(reply: Reply)

  class Parser {
    const build: Build
    const junk: Token
    var pos: nat
    var toknext: nat
    var toksuper: int

    /** The parser is used with an array that holds the tokens it has made. */
    ghost predicate Fits(tokens: array<Token>)
      reads this
    {
      toknext <= tokens.Length
    }

    ghost function Value(tokens: array<Token>): (st: State)
      requires Fits(tokens)
      reads this, tokens
    {
      State(pos, toksuper, tokens[..toknext])
    }

    ghost function Cfg(tokens: array<Token>): (c: Config) {
      Config(build, tokens.Length, junk)
    }

    /** The object did what `step` says to `before`; the loop's own `pos++` is
        still to come. */
    ghost predicate Did(step: Step, status: Status, before: State, tokens: array<Token>)
      requires Fits(tokens)
      reads this, tokens
    {
      match step
      case Halt(reply) => status == Error(reply) && Value(tokens) == before
      case Go(st) => status == Fine && Value(tokens) == st.(pos := pos) && pos + 1 == st.pos
    }

    /** `jsmn_init`. */
    constructor (build: Build, junk: Token)
      ensures this.build == build && this.junk == junk
      ensures pos == 0 && toknext == 0 && toksuper == -1
    {
      this.build, this.junk := build, junk;
      pos, toknext, toksuper := 0, 0, -1;
    }

    /** `jsmn_alloc_token` and `jsmn_fill_token`, together with the growth of the
        superior token that follows every successful allocation. */
    method AddToken(tokens: array<Token>, kind: Kind, start: int, end: int) returns (ok: bool)
      requires Fits(tokens)
      modifies this`toknext, tokens
      ensures ok == (old(toknext) < tokens.Length)
      ensures toknext == old(toknext) + (if ok then 1 else 0)
      ensures tokens[..toknext] == if ok
        then BumpBy(old(tokens[..toknext]), toksuper, 1) + [Token(kind, start, end, 0, toksuper)]
        else old(tokens[..toknext])
      ensures tokens[toknext..] == old(tokens[..])[toknext..]
    {
      if toknext >= tokens.Length {
        return false;
      }
      tokens[toknext] := Token(kind, start, end, 0, toksuper);
      toknext := toknext + 1;
      // In the default build this test is `toksuper != -1`: see JsmnInvariants.
      if 0 <= toksuper < toknext - 1 {
        tokens[toksuper] := tokens[toksuper].(size := tokens[toksuper].size + 1);
      }
      ok := true;
    }

    /** The scan of `jsmn_parse_primitive`: `pos` ends just behind the primitive,
        or where it was. */
    method ScanPrimitive(js: string) returns (e: Lex)
      modifies this`pos
      ensures e == PrimEnd(js, old(pos))
      ensures pos == if e.Lexed? then e.next else old(pos)
    {
      var start := pos;
      while pos < |js| && js[pos] != '\0'
        invariant start <= pos
        invariant PrimEnd(js, pos) == PrimEnd(js, start)
        decreases |js| - pos
      {
        if IsDelimiter(js[pos]) {
          break;
        }
        if js[pos] < ' ' || js[pos] >= '\U{7F}' {
          pos := start;
          return BadChar;
        }
        pos := pos + 1;
      }
      e := Lexed(pos);
    }

    /** `jsmn_parse_primitive`: leaves `pos` on the primitive's last character. */
    method ParsePrimitive(js: string, tokens: array<Token>) returns (status: Status)
      requires Fits(tokens) && !AtEnd(js, pos) && IsPrimStart(js[pos])
      modifies this`pos, this`toknext, tokens
      ensures Fits(tokens) && old(toknext) <= toknext && tokens[toknext..] == old(tokens[..])[toknext..]
      ensures Did(Turn(Cfg(tokens), js, old(Value(tokens))), status, old(Value(tokens)), tokens)
    {
      hide BumpBy;
      var start := pos;
      var e := ScanPrimitive(js);
      if !e.Lexed? {
        return Error(Inval);
      }
      var ok := AddToken(tokens, Primitive, start, pos);
      if !ok {
        pos := start;
        return Error(NoMem);
      }
      pos := pos - 1;
      status := Fine;
    }

    /** The escape that starts at `pos`: leaves `pos` on its last character. */
    method SkipEscape(js: string) returns (ok: bool)
      requires pos + 1 < |js| && js[pos] == '\\'
      modifies this`pos
      ensures !ok ==> StrEnd(js, old(pos)) == BadChar
      ensures ok ==> old(pos) < pos < |js| && StrEnd(js, old(pos)) == StrEnd(js, pos + 1)
    {
      pos := pos + 1;
      if js[pos] == 'u' {
        pos := pos + 1;
        ghost var hex := pos;
        var i := 0;
        while i < 4 && pos < |js| && js[pos] != '\0'
          invariant i <= 4 && pos == hex + i <= |js|
          invariant HexEnd(js, pos, 4 - i) == HexEnd(js, hex, 4)
        {
          if !IsHex(js[pos]) {
            return false;
          }
          pos := pos + 1;
          i := i + 1;
        }
        pos := pos - 1;
      } else if !IsShortEscape(js[pos]) {
        return false;
      }
      ok := true;
    }

    /** The scan of `jsmn_parse_string` from the opening quote: `pos` ends on the
        closing quote, or where it was. */
    method ScanString(js: string) returns (e: Lex)
      requires pos < |js|
      modifies this`pos
      ensures e == StrEnd(js, old(pos) + 1)
      ensures pos == if e.Lexed? then e.next else old(pos)
    {
      var start := pos;
      pos := pos + 1;
      while pos < |js| && js[pos] != '\0'
        invariant start < pos
        invariant StrEnd(js, pos) == StrEnd(js, start + 1)
        decreases |js| - pos
      {
        var c := js[pos];
        if c == '\"' {
          return Lexed(pos);
        }
        if c == '\\' && pos + 1 < |js| {
          var ok := SkipEscape(js);
          if !ok {
            pos := start;
            return BadChar;
          }
        }
        pos := pos + 1;
      }
      pos := start;
      e := Unfinished;
    }

    /** `jsmn_parse_string`: leaves `pos` on the closing quote. */
    method ParseString(js: string, tokens: array<Token>) returns (status: Status)
      requires Fits(tokens) && !AtEnd(js, pos) && js[pos] == '\"'
      modifies this`pos, this`toknext, tokens
      ensures Fits(tokens) && old(toknext) <= toknext && tokens[toknext..] == old(tokens[..])[toknext..]
      ensures Did(Turn(Cfg(tokens), js, old(Value(tokens))), status, old(Value(tokens)), tokens)
    {
      hide BumpBy, StrEnd;
      var start := pos;
      var e := ScanString(js);
      if !e.Lexed? {
        return Error(if e.BadChar? then Inval else Part);
      }
      var ok := AddToken(tokens, String, start + 1, pos);
      if !ok {
        pos := start;
        return Error(NoMem);
      }
      status := Fine;
    }

    /** The closing-bracket case of the default build: two backward scans. */
    method CloseByScan(tokens: array<Token>, kind: Kind) returns (status: Status)
      requires Fits(tokens)
      modifies this`toksuper, tokens
      ensures tokens[toknext..] == old(tokens[..])[toknext..]
      ensures Did(CloseScan(old(Value(tokens)), kind, pos + 1), status, old(Value(tokens)), tokens)
    {
      ghost var was := tokens[..toknext];
      var i: int := toknext - 1;
      while i >= 0 && !tokens[i].IsOpen()
        invariant -1 <= i < toknext
        invariant LastOpen(was, i + 1) == LastOpen(was, toknext)
      {
        i := i - 1;
      }
      if i == -1 {
        return Error(Inval);
      }
      if tokens[i].kind != kind {
        return Error(Inval);
      }
      toksuper := -1;
      tokens[i] := tokens[i].(end := pos + 1);
      ghost var top := i;
      assert tokens[..toknext] == was[top := was[top].(end := pos + 1)];
      i := i - 1;
      while i >= 0
        invariant -1 <= i < top && toksuper == -1
        invariant LastOpen(was, i + 1) == LastOpen(was, top)
      {
        if tokens[i].IsOpen() {
          toksuper := i;
          break;
        }
        i := i - 1;
      }
      status := Fine;
    }

    /** The closing-bracket case with parent links: one walk up the parents. */
    method CloseByLinks(tokens: array<Token>, kind: Kind) returns (status: Status)
      requires Fits(tokens)
      modifies this`toksuper, tokens
      ensures tokens[toknext..] == old(tokens[..])[toknext..]
      ensures Did(CloseLinks(old(Value(tokens)), kind, pos + 1), status, old(Value(tokens)), tokens)
    {
      ghost var was := tokens[..toknext];
      if toknext < 1 {
        return Error(Inval);
      }
      var i := toknext - 1;
      while true
        invariant 0 <= i < toknext
        invariant OpenAncestor(was, i) == OpenAncestor(was, toknext - 1)
        decreases i
      {
        if tokens[i].IsOpen() {
          if tokens[i].kind != kind {
            return Error(Inval);
          }
          toksuper := tokens[i].parent;
          tokens[i] := tokens[i].(end := pos + 1);
          assert tokens[..toknext] == was[i := was[i].(end := pos + 1)];
          break;
        }
        if !(0 <= tokens[i].parent < i) {
          break;
        }
        i := tokens[i].parent;
      }
      status := Fine;
    }

    /** The comma case: back from a key to the container around it. */
    method Comma(tokens: array<Token>)
      requires Fits(tokens)
      modifies this`toksuper
      ensures toksuper == CommaSuper(Cfg(tokens), old(Value(tokens)))
    {
      var t := if 0 <= toksuper < toknext then tokens[toksuper] else junk;
      if t.kind != Array && t.kind != Object {
        if build.Links? {
          toksuper := t.parent;
        } else {
          ghost var was := tokens[..toknext];
          var i: int := toknext - 1;
          while i >= 0
            invariant -1 <= i < toknext && toksuper == old(toksuper)
            invariant LastOpenContainer(was, i + 1) == LastOpenContainer(was, toknext)
          {
            if tokens[i].kind == Array || tokens[i].kind == Object {
              if tokens[i].IsOpen() {
                toksuper := i;
                break;
              }
            }
            i := i - 1;
          }
        }
      }
    }

    /** The switch of `jsmn_parse`. */
    method Dispatch(js: string, tokens: array<Token>) returns (status: Status, made: nat)
      requires Fits(tokens) && !AtEnd(js, pos)
      modifies this, tokens
      ensures Fits(tokens) && old(toknext) <= toknext && tokens[toknext..] == old(tokens[..])[toknext..]
      ensures Did(Turn(Cfg(tokens), js, old(Value(tokens))), status, old(Value(tokens)), tokens)
      ensures status.Fine? ==> made == Made(js, old(pos))
    {
      hide StrEnd, PrimEnd, CloseScan, CloseLinks, CommaSuper, BumpBy;
      var c := js[pos];
      status, made := Fine, 0;
      if c == '{' || c == '[' {
        var ok := AddToken(tokens, if c == '{' then Object else Array, pos, -1);
        if !ok {
          return Error(NoMem), 0;
        }
        made := 1;
        toksuper := toknext - 1;
      } else if c == '}' || c == ']' {
        var kind := if c == '}' then Object else Array;
        if build.Links? {
          status := CloseByLinks(tokens, kind);
        } else {
          status := CloseByScan(tokens, kind);
        }
      } else if c == '\"' {
        status := ParseString(js, tokens);
        made := 1;
      } else if IsBlank(c) {
      } else if c == ':' {
        toksuper := toknext - 1;
      } else if c == ',' {
        Comma(tokens);
      } else {
        status := ParsePrimitive(js, tokens);
        made := 1;
      }
    }

    /** `jsmn_parse` with a token array: the loop of `Run`, done in place. */
    method Parse(js: string, tokens: array<Token>) returns (reply: Reply)
      requires Fits(tokens)
      modifies this, tokens
      ensures Fits(tokens) && tokens[toknext..] == old(tokens[..])[toknext..]
      ensures (reply, Value(tokens)) == Run(Cfg(tokens), js, old(Value(tokens)), 0)
    {
      hide Turn;
      var count := 0;
      while pos < |js| && js[pos] != '\0'
        invariant Fits(tokens) && old(toknext) <= toknext
        invariant tokens[toknext..] == old(tokens[..])[toknext..]
        invariant Run(Cfg(tokens), js, Value(tokens), count) == Run(Cfg(tokens), js, old(Value(tokens)), 0)
        decreases |js| - pos
      {
        var status, made := Dispatch(js, tokens);
        if status.Error? {
          return status.reply;
        }
        count := count + made;
        pos := pos + 1;
      }
      ghost var end := tokens[..toknext];
      var i: int := toknext - 1;
      while i >= 0
        invariant -1 <= i < toknext
        invariant LastOpen(end, i + 1) == LastOpen(end, toknext)
      {
        if tokens[i].IsOpen() {
          return Part;
        }
        i := i - 1;
      }
      reply := Tokens(count);
    }

    /** `jsmn_parse` with a null token array, on a parser that has no tokens.
        Brackets are then not checked, and a colon resets `toksuper`. */
    method CountOnly(js: string) returns (reply: Reply)
      requires toknext == 0
      modifies this`pos, this`toksuper
      ensures (reply, pos) == CountRun(js, old(pos), 0)
      ensures toksuper == CountSuper(js, old(pos), old(toksuper))
    {
      var count := 0;
      while pos < |js| && js[pos] != '\0'
        invariant CountRun(js, pos, count) == CountRun(js, old(pos), 0)
        invariant CountSuper(js, pos, toksuper) == CountSuper(js, old(pos), old(toksuper))
        decreases |js| - pos
      {
        var c := js[pos];
        if c == '{' || c == '[' {
          count := count + 1;
        } else if c == '\"' {
          var e := ScanString(js);
          if !e.Lexed? {
            return if e.BadChar? then Inval else Part;
          }
          count := count + 1;
        } else if c == ':' {
          toksuper := toknext - 1;
        } else if IsPrimStart(c) {
          var e := ScanPrimitive(js);
          if !e.Lexed? {
            return Inval;
          }
          pos := pos - 1;
          count := count + 1;
        }
        pos := pos + 1;
      }
      reply := Tokens(count);
    }
  }
}
