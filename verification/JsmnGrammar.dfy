/** What the scanners accept, in the characters of RFC 8259 and not in those of
    the tokenizer: which strings and primitives, and which texts. */
module JsmnGrammar {
  import opened JsmnLexer
  import opened JsonText

  // ---- strings

  /** After `k` of the digits expected at `i` comes a character that is none. */
  ghost predicate HexBreaks(js: string, i: nat, k: nat) {
    && i + k < |js| && (forall j :: i <= j < i + k ==> IsHexDigit(js[j]))
    && !IsHexDigit(js[i + k]) && js[i + k] != '\0'
  }

  ghost predicate BadDigits(js: string, i: nat, n: nat) {
    exists k :: 0 <= k < n && HexBreaks(js, i, k)
  }

  /** A backslash at `q` that begins no escape. */
  ghost predicate Offends(js: string, q: nat) {
    && q + 1 < |js| && js[q] == '\\'
    && if js[q + 1] == 'u' then BadDigits(js, q + 2, 4) else js[q + 1] !in Escapes
  }

  lemma {:induction false} HexIsExact(js: string, i: nat, n: nat)
    ensures HexEnd(js, i, n).BadChar? <==> BadDigits(js, i, n)
    decreases n
  {
    hide IsHexDigit, IsHex;
    if n > 0 && i < |js| {
      HexAgrees(js[i]);
      HexAgrees('\0');
      assert !IsHex('\0') by { NulIsNoDigit(); }
      if IsHexDigit(js[i]) {
        HexIsExact(js, i + 1, n - 1);
        if k :| 0 <= k < n && HexBreaks(js, i, k) {
          assert k != 0 && HexBreaks(js, i + 1, k - 1);
        }
        if BadDigits(js, i + 1, n - 1) {
          var k :| 0 <= k < n - 1 && HexBreaks(js, i + 1, k);
          assert HexBreaks(js, i, k + 1);
        }
      } else if js[i] != '\0' {
        assert HexBreaks(js, i, 0);
      } else {
        assert forall k :: 0 <= k < n ==> !HexBreaks(js, i, k);
      }
    }
  }

  lemma NulIsNoDigit()
    ensures !IsHex('\0')
  {
  }

  /** The text ends inside the escape that begins at `q`. */
  ghost predicate CutEscape(js: string, q: nat) {
    && q < |js| && js[q] == '\\'
    && (q + 1 == |js| || (js[q + 1] == 'u' && CutDigits(js, q + 2)))
  }

  ghost predicate CutDigits(js: string, i: nat) {
    exists k :: 0 <= k < 4 && DigitsEnd(js, i, k)
  }

  ghost predicate DigitsEnd(js: string, i: nat, k: nat) {
    i + k <= |js| && (forall j :: i <= j < i + k ==> IsHexDigit(js[j])) && AtEnd(js, i + k)
  }

  lemma {:induction false} HexIsDigits(js: string, i: nat, n: nat)
    requires i <= |js| && HexEnd(js, i, n).Lexed?
    ensures var h := HexEnd(js, i, n).next;
      h <= |js| && (forall j :: i <= j < h ==> IsHexDigit(js[j])) && (h < i + n ==> DigitsEnd(js, i, h - i))
    decreases n
  {
    hide IsHexDigit, IsHex;
    if n > 0 && !AtEnd(js, i) {
      HexAgrees(js[i]);
      HexIsDigits(js, i + 1, n - 1);
    }
  }

  /** An escape is legal, or offends, or is cut by the end of the text. */
  lemma EscapeAt(js: string, p: nat) returns (c: StrChar)
    requires p < |js| && js[p] == '\\' && !Offends(js, p) && !CutEscape(js, p)
    ensures c.Legal() && At(js, p, c.Text())
  {
    hide IsHexDigit;
    if js[p + 1] == 'u' {
      HexIsExact(js, p + 2, 4);
      HexIsDigits(js, p + 2, 4);
      var h := js[p + 2..p + 6];
      assert js[p..p + 6] == "\\u" + h;
      c := Unicode(h);
    } else {
      assert js[p..p + 2] == ['\\', js[p + 1]];
      c := Escape(js[p + 1]);
    }
  }

  lemma OffenceIsBad(js: string, p: nat)
    requires Offends(js, p)
    ensures StrEnd(js, p).BadChar?
  {
    hide BadDigits;
    ClassesAgree(js[p + 1]);
    HexIsExact(js, p + 2, 4);
  }

  lemma CutIsUnfinished(js: string, p: nat)
    requires CutEscape(js, p)
    ensures StrEnd(js, p).Unfinished?
  {
    hide IsHexDigit;
    if p + 1 < |js| {
      var k :| 0 <= k < 4 && DigitsEnd(js, p + 2, k);
      DigitsLex(js, p + 2, k);
      HexStops(js, p + 2, k, 4);
    }
  }

  lemma {:induction false} HexStops(js: string, i: nat, k: nat, n: nat)
    requires k <= n && HexEnd(js, i, k) == Lexed(i + k) && AtEnd(js, i + k)
    ensures HexEnd(js, i, n) == Lexed(i + k)
    decreases k
  {
    if k > 0 {
      HexStops(js, i + 1, k - 1, n - 1);
    }
  }

  /** How far a string's body goes: over legal characters up to its quote, up to an
      offence, or up to the end of the text, inside an escape or not. */
  lemma {:induction false} BodyAt(js: string, p: nat) returns (b: seq<StrChar>)
    requires p <= |js|
    ensures IsBody(b) && At(js, p, Body(b)) && StrEnd(js, p) == StrEnd(js, p + |Body(b)|)
    ensures var q := p + |Body(b)|;
      match StrEnd(js, p)
      case Lexed(e) => q == e && js[q] == '\"'
      case BadChar => Offends(js, q)
      case Unfinished => AtEnd(js, q) || CutEscape(js, q)
    decreases |js| - p
  {
    hide StrEnd, Offends, CutEscape, StrChar.Legal, StrChar.Text, IsBody, Body, At;
    if AtEnd(js, p) || js[p] == '\"' {
      StringOver(js, p);
      Nothing(js, p);
      return [];
    }
    if Offends(js, p) {
      OffenceIsBad(js, p);
      Nothing(js, p);
      return [];
    }
    if CutEscape(js, p) {
      CutIsUnfinished(js, p);
      Nothing(js, p);
      return [];
    }
    var c := CharAt(js, p);
    CharLexes(js, p, c);
    b := BodyAt(js, p + |c.Text()|);
    Prepends(js, p, c, b);
    b := [c] + b;
  }

  lemma StringOver(js: string, p: nat)
    requires AtEnd(js, p) || js[p] == '\"'
    ensures StrEnd(js, p) == if AtEnd(js, p) then Unfinished else Lexed(p)
  {
  }

  lemma Nothing(js: string, p: nat)
    requires p <= |js|
    ensures IsBody([]) && Body([]) == "" && At(js, p, "")
  {
  }

  lemma CharAt(js: string, p: nat) returns (c: StrChar)
    requires p < |js| && !AtEnd(js, p) && js[p] != '\"' && !Offends(js, p) && !CutEscape(js, p)
    ensures c.Legal() && At(js, p, c.Text()) && 0 < |c.Text()|
  {
    if js[p] == '\\' {
      c := EscapeAt(js, p);
    } else {
      c := Plain(js[p]);
    }
  }

  /** A legal body stands at `p` and the closing quote at `e`. */
  ghost predicate StringAt(js: string, p: nat, e: nat) {
    exists b :: IsBody(b) && e == p + |Body(b)| && At(js, p, Body(b) + "\"")
  }

  /** Behind a legal body at `p` comes a backslash that begins no escape. */
  ghost predicate BadStringAt(js: string, p: nat) {
    exists b :: IsBody(b) && At(js, p, Body(b)) && Offends(js, p + |Body(b)|)
  }

  /** The string scan finds the closing quote exactly of legal strings, and reports
      a bad character exactly where the first offence of a string is a backslash that
      begins no escape. */
  lemma StringsAreExact(js: string, p: nat, e: nat)
    requires p <= |js|
    ensures StrEnd(js, p) == Lexed(e) <==> StringAt(js, p, e)
    ensures StrEnd(js, p).BadChar? <==> BadStringAt(js, p)
  {
    hide StrEnd, Offends, CutEscape, StrChar.Legal, StrChar.Text, Body, At;
    var b := BodyAt(js, p);
    if StrEnd(js, p) == Lexed(e) {
      Closes(js, p, Body(b));
      assert StringAt(js, p, e);
    }
    if StringAt(js, p, e) {
      var x :| IsBody(x) && e == p + |Body(x)| && At(js, p, Body(x) + "\"");
      BodyLexes(js, p, x);
    }
    if BadStringAt(js, p) {
      var x :| IsBody(x) && At(js, p, Body(x)) && Offends(js, p + |Body(x)|);
      BodyPasses(js, p, x);
      OffenceIsBad(js, p + |Body(x)|);
    }
  }

  lemma Closes(js: string, p: nat, s: string)
    requires At(js, p, s) && p + |s| < |js| && js[p + |s|] == '\"'
    ensures At(js, p, s + "\"")
  {
    assert js[p..p + |s| + 1] == js[p..p + |s|] + [js[p + |s|]];
  }

  lemma Prepends(js: string, p: nat, c: StrChar, b: seq<StrChar>)
    requires c.Legal() && At(js, p, c.Text()) && IsBody(b) && At(js, p + |c.Text()|, Body(b))
    ensures IsBody([c] + b) && At(js, p, Body([c] + b)) && |Body([c] + b)| == |c.Text()| + |Body(b)|
  {
    hide StrChar.Legal, StrChar.Text;
    assert ([c] + b)[1..] == b;
    assert js[p..p + |c.Text()| + |Body(b)|] == c.Text() + Body(b);
  }

  // ---- primitives

  ghost predicate WordTo(js: string, p: nat, e: nat) {
    (p == e || p < e <= |js|) && forall i :: p <= i < e ==> IsWordChar(js[i])
  }

  predicate EndsWord(c: char) {
    c in Blanks || c in WordEnds
  }

  ghost predicate BadWordTo(js: string, p: nat, i: nat) {
    WordTo(js, p, i) && !AtEnd(js, i) && !EndsWord(js[i]) && !IsWordChar(js[i])
  }

  ghost predicate HasBadChar(js: string, p: nat) {
    exists i: nat :: BadWordTo(js, p, i)
  }

  lemma WordGrows(js: string, p: nat, e: nat)
    ensures WordTo(js, p, e) <==> p == e || (!AtEnd(js, p) && IsWordChar(js[p]) && WordTo(js, p + 1, e))
  {
    if WordTo(js, p, e) && p < e {
      assert IsWordChar(js[p]);
    }
  }

  /** The primitive scan ends exactly at the first white space, `:`, `,`, `]`, `}` or
      end of the text, and fails exactly if a character outside 33 to 126 comes
      before. */
  lemma {:induction false} PrimitivesAreExact(js: string, p: nat, e: nat)
    ensures PrimEnd(js, p) == Lexed(e) <==> WordTo(js, p, e) && (AtEnd(js, e) || EndsWord(js[e]))
    ensures PrimEnd(js, p).BadChar? <==> HasBadChar(js, p)
    decreases |js| - p
  {
    hide IsWordChar, IsPrintable, IsDelimiter, WordTo;
    forall i: nat
      ensures WordTo(js, p, i) <==> p == i || (!AtEnd(js, p) && IsWordChar(js[p]) && WordTo(js, p + 1, i))
    {
      WordGrows(js, p, i);
    }
    if !AtEnd(js, p) {
      ClassesAgree(js[p]);
      if IsWordChar(js[p]) {
        PrimitivesAreExact(js, p + 1, e);
        assert !EndsWord(js[p]);
        if HasBadChar(js, p + 1) {
          var i: nat :| BadWordTo(js, p + 1, i);
          assert BadWordTo(js, p, i);
        }
        if i: nat :| BadWordTo(js, p, i) {
          assert BadWordTo(js, p + 1, i);
        }
      } else if !EndsWord(js[p]) {
        assert BadWordTo(js, p, p);
      }
    }
  }
}
