/** Properties of the second-generation tokenizer (tokenize.c): it produces
    the one tiling of the input by lexemes and whitespace and fails exactly
    when there is none; tokens come in input order without overlapping; and
    a few concrete inputs show the greedy identifier rule, the two-character
    punctuators and the rejected characters.
 */
module TokenizerProps {
  import opened Chars
  import opened Results
  import opened Tokenizer

  /** No lexeme starts with whitespace. */
  lemma LexemeNotSpace(s: CString, t: Token)
    requires Lexeme(s, t)
    ensures !IsSpace(s[t.pos])
  {
    if t.kind == Reserved || t.kind == Ident {
      assert s[t.pos] == t.text[0];
    }
  }

  /** At a position where lexeme `t` starts, `tokenize` emits `t` and goes on
      after it. */
  lemma LexStep(s: CString, t: Token)
    requires Lexeme(s, t)
    ensures Lex(s, t.pos) == Emit(s, t)
  {
    var p := t.pos;
    LexemeNotSpace(s, t);
    TwoCharOpInBounds(s, p);
    match t.kind
    case Reserved =>
      LexReservedStep(s, t);
    case Ident =>
      LexIdentStep(s, t);
    case Number =>
      assert IsDigit(s[p]) && !TwoCharOpAt(s, p) && s[p] !in OneCharOps && !IsIdentStart(s[p]);
      assert t == Token(Number, DecimalAt(s, p), p, "");
  }

  lemma LexReservedStep(s: CString, t: Token)
    requires Lexeme(s, t) && t.kind == Reserved
    ensures Lex(s, t.pos) == Emit(s, t)
  {
    var p := t.pos;
    LexemeNotSpace(s, t);
    TwoCharOpInBounds(s, p);
    if t.text in TwoCharOps {
      assert |t.text| == 2 && TwoCharOpAt(s, p);
      assert t == Token(Reserved, 0, p, s[p..p + 2]);
    } else {
      assert s[p] == t.text[0] && s[p] in OneCharOps;
      assert t == Token(Reserved, 0, p, s[p..p + 1]);
    }
  }

  lemma LexIdentStep(s: CString, t: Token)
    requires Lexeme(s, t) && t.kind == Ident
    ensures Lex(s, t.pos) == Emit(s, t)
  {
    var p := t.pos;
    TwoCharOpInBounds(s, p);
    assert s[p] == t.text[0];
    assert !TwoCharOpAt(s, p) && s[p] !in OneCharOps;
    IdentRunMaximal(s, t);
  }

  /** An identifier lexeme spans exactly the identifier run at its start. */
  lemma IdentRunMaximal(s: CString, t: Token)
    requires Lexeme(s, t) && t.kind == Ident
    ensures t == Token(Ident, 0, t.pos, s[t.pos..IdentRunEnd(s, t.pos + 1)])
  {
    var p, n := t.pos, |t.text|;
    forall k | p + 1 <= k < p + n
      ensures IsIdentChar(s[k])
    {
      assert s[k] == t.text[k - p];
    }
    IdentRunFrom(s, p + 1, p + n);
  }

  /** A run of identifier characters from `a` to a non-identifier character
      (or the end) at `b` is where the identifier loop stops. */
  lemma {:induction false} IdentRunFrom(s: string, a: nat, b: nat)
    requires a <= b <= |s|
    requires forall k :: a <= k < b ==> IsIdentChar(s[k])
    requires b == |s| || !IsIdentChar(s[b])
    ensures IdentRunEnd(s, a) == b
    decreases b - a
  {
    if a < b {
      IdentRunFrom(s, a + 1, b);
    }
  }

  /** At a character no rule accepts, `tokenize` stops with an error there. */
  lemma LexError(s: CString, p: nat)
    requires p < |s| && Unlexable(s, p)
    ensures Lex(s, p) == Err(Error(p, InvalidToken))
  {
  }

  /** Dropping the first token of a tiling tiles the rest of the input. */
  lemma TilesTail(s: CString, p: nat, ts: seq<Token>)
    requires Tiles(s, p, ts) && |ts| > 1
    ensures Tiles(s, End(s, ts[0]), ts[1..])
  {
    var rest := ts[1..];
    forall k | 0 <= k < |rest| - 1
      ensures Lexeme(s, rest[k]) && Blank(s, End(s, rest[k]), rest[k + 1].pos)
    {
      assert rest[k] == ts[k + 1] && rest[k + 1] == ts[k + 2];
    }
  }

  /** Only the end-of-input token tiles the empty rest of the input. */
  lemma TilesAtEnd(s: CString, ts: seq<Token>)
    requires Tiles(s, |s|, ts)
    ensures ts == [Token(Eof, 0, |s|, "")]
  {
    assert !Lexeme(s, ts[0]);
  }

  /** Every tiling of the input is the one `tokenize` returns. */
  lemma {:induction false} LexComplete(s: CString, p: nat, ts: seq<Token>)
    requires p <= |s| && Tiles(s, p, ts)
    ensures Lex(s, p) == Ok(ts)
    decreases |s| - p
  {
    if p == |s| {
      TilesAtEnd(s, ts);
    } else if ts[0].pos > p {
      TilesSkipSpace(s, p, ts);
      LexComplete(s, p + 1, ts);
    } else {
      TilesHead(s, p, ts);
      LexComplete(s, End(s, ts[0]), ts[1..]);
      EmitOk(s, ts[0], ts[1..]);
      assert ts == [ts[0]] + ts[1..];
    }
  }

  /** Before the first token of a tiling there is only whitespace, which
      `tokenize` skips. */
  lemma TilesSkipSpace(s: CString, p: nat, ts: seq<Token>)
    requires p < |s| && Tiles(s, p, ts) && ts[0].pos > p
    ensures Tiles(s, p + 1, ts) && Lex(s, p) == Lex(s, p + 1)
  {
    assert IsSpace(s[p]);
  }

  /** A tiling that starts with a lexeme at `p`: `tokenize` emits it, and
      the rest of the tiling tiles the input after it. */
  lemma TilesHead(s: CString, p: nat, ts: seq<Token>)
    requires p < |s| && Tiles(s, p, ts) && ts[0].pos == p
    ensures |ts| > 1 && Lexeme(s, ts[0]) && p < End(s, ts[0]) <= |s|
    ensures Tiles(s, End(s, ts[0]), ts[1..]) && Lex(s, p) == Emit(s, ts[0])
  {
    assert |ts| > 1 && Lexeme(s, ts[0]);
    TilesTail(s, p, ts);
    EndAfter(s, ts[0]);
    LexStep(s, ts[0]);
  }

  /** `new_token` then a successful rest of the loop. */
  lemma EmitOk(s: CString, t: Token, rest: seq<Token>)
    requires Lexeme(s, t) && End(s, t) <= |s| && Lex(s, End(s, t)) == Ok(rest)
    ensures Emit(s, t) == Ok([t] + rest)
  {
  }

  /** `tokenize` succeeds with `ts` exactly when `ts` tiles the input. */
  lemma TokenizeIffTiles(s: CString, ts: seq<Token>)
    ensures Tokenize(s) == Ok(ts) <==> Tiles(s, 0, ts)
  {
    if Tiles(s, 0, ts) {
      LexComplete(s, 0, ts);
    }
  }

  /** `tokenize` fails exactly when no tiling of the input exists. */
  lemma TokenizeFailsIffNoTiling(s: CString)
    ensures Tokenize(s).Err? <==> forall ts :: !Tiles(s, 0, ts)
  {
    if Tokenize(s).Err? {
      forall ts
        ensures !Tiles(s, 0, ts)
      {
        TokenizeIffTiles(s, ts);
      }
    }
  }

  /** Whitespace produces no tokens: whitespace-only input yields exactly
      one end-of-input token, at the end of the input. */
  lemma WhitespaceOnly(s: CString)
    requires forall q :: 0 <= q < |s| ==> IsSpace(s[q])
    ensures Tokenize(s) == Ok([Token(Eof, 0, |s|, "")])
  {
    TokenizeIffTiles(s, [Token(Eof, 0, |s|, "")]);
  }

  /** Tokens come in input order and their spans do not overlap: each one
      starts after the previous one has ended, and all but the last (the
      end-of-input token) lie inside the input. */
  lemma TilesOrdered(s: CString, p: nat, ts: seq<Token>)
    requires Tiles(s, p, ts)
    ensures p <= ts[0].pos
    ensures forall k :: 0 <= k < |ts| - 1 ==> ts[k].pos < End(s, ts[k]) <= ts[k + 1].pos
    ensures forall k :: 0 <= k < |ts| - 1 ==> End(s, ts[k]) <= |s|
  {
    forall k | 0 <= k < |ts| - 1
      ensures ts[k].pos < End(s, ts[k]) <= ts[k + 1].pos && End(s, ts[k]) <= |s|
    {
      EndAfter(s, ts[k]);
    }
  }

  /** Every character of the input is whitespace or lies inside the span of
      a token (by `TilesOrdered`, of exactly one). */
  lemma {:induction false} TilesCover(s: CString, p: nat, ts: seq<Token>, q: nat)
    requires Tiles(s, p, ts) && p <= q < |s|
    ensures IsSpace(s[q]) || exists k :: 0 <= k < |ts| - 1 && ts[k].pos <= q < End(s, ts[k])
    decreases |ts|
  {
    if q >= ts[0].pos && |ts| > 1 {
      EndAfter(s, ts[0]);
      if q >= End(s, ts[0]) {
        TilesTail(s, p, ts);
        TilesCover(s, End(s, ts[0]), ts[1..], q);
        if !IsSpace(s[q]) {
          var k :| 0 <= k < |ts[1..]| - 1 && ts[1..][k].pos <= q < End(s, ts[1..][k]);
          assert ts[k + 1] == ts[1..][k];
        }
      }
    }
  }

  //
  // One-character tokens
  //

  /** A one-character name followed by no identifier character is an
      identifier token of its own. */
  lemma SingleIdentLexeme(s: string, p: nat)
    requires p < |s| && IsIdentStart(s[p])
    requires p + 1 == |s| || !IsIdentChar(s[p + 1])
    ensures Lexeme(s, Token(Ident, 0, p, [s[p]])) && End(s, Token(Ident, 0, p, [s[p]])) == p + 1
  {
    assert s[p..p + 1] == [s[p]];
    IdentRunLexeme(s, p, p + 1);
  }

  /** A one-character punctuator not followed by `=` is a punctuator token
      of its own: every two-character punctuator ends in `=`. */
  lemma SingleOpLexeme(s: CString, p: nat)
    requires p < |s| && s[p] in OneCharOps
    requires p + 1 == |s| || s[p + 1] != '='
    ensures Lexeme(s, Token(Reserved, 0, p, [s[p]])) && End(s, Token(Reserved, 0, p, [s[p]])) == p + 1
  {
    TwoCharOpInBounds(s, p);
    if p + 2 <= |s| {
      assert s[p..p + 2][1] == s[p + 1];
    }
    assert s[p..p + 1] == [s[p]];
  }

  /** A digit followed by no digit is a number token holding its value. */
  lemma SingleDigitLexeme(s: string, p: nat)
    requires p < |s| && IsDigit(s[p])
    requires p + 1 == |s| || !IsDigit(s[p + 1])
    ensures Lexeme(s, Token(Number, DigitValue(s[p]), p, "")) && End(s, Token(Number, DigitValue(s[p]), p, "")) == p + 1
  {
    assert DigitRunEnd(s, p) == p + 1;
    assert s[p..p + 1] == [s[p]];
    assert DecimalValue([s[p]]) == DecimalValue([s[p]][..0]) * 10 + DigitValue(s[p]);
  }

  /** When token `k` of `ts` is a lexeme and the loop returns the tokens
      after it from where it ends, the loop returns `ts[k..]` from where it
      starts. */
  lemma LexSuffix(s: CString, ts: seq<Token>, k: nat)
    requires k < |ts| && Lexeme(s, ts[k]) && End(s, ts[k]) <= |s|
    requires Lex(s, End(s, ts[k])) == Ok(ts[k + 1..])
    ensures Lex(s, ts[k].pos) == Ok(ts[k..])
  {
    LexStep(s, ts[k]);
    EmitOk(s, ts[k], ts[k + 1..]);
    assert ts[k..] == [ts[k]] + ts[k + 1..];
  }

  //
  // Examples
  //

  /** Identifiers are greedy and no keyword is recognised: `abc1_x` is one
      identifier token of length 6. */
  lemma IdentifierIsGreedy()
    ensures Tokenize("abc1_x") == Ok([Token(Ident, 0, 0, "abc1_x"), Token(Eof, 0, 6, "")])
  {
    var s: CString := "abc1_x";
    var t := Token(Ident, 0, 0, "abc1_x");
    assert s[0..6] == "abc1_x";
    assert Lexeme(s, t);
    LexStep(s, t);
    assert End(s, t) == 6;
    assert Lex(s, 6) == Ok([Token(Eof, 0, 6, "")]);
    assert [t] + [Token(Eof, 0, 6, "")] == [t, Token(Eof, 0, 6, "")];
  }

  /** `>=` is one reserved token of length two, never `>` then `=`. */
  lemma GreaterEqualIsOneToken()
    ensures Tokenize(">=") == Ok([Token(Reserved, 0, 0, ">="), Token(Eof, 0, 2, "")])
  {
    var s: CString := ">=";
    assert s[0..2] == ">=" == TwoCharOps[3];
    var t := Token(Reserved, 0, 0, ">=");
    assert Lexeme(s, t);
    LexStep(s, t);
    assert End(s, t) == 2;
    assert Lex(s, 2) == Ok([Token(Eof, 0, 2, "")]);
    assert [t] + [Token(Eof, 0, 2, "")] == [t, Token(Eof, 0, 2, "")];
  }

  /** A lone `!` is not a token, and neither is any character outside the
      alphabet, such as `@`. */
  lemma BangAndAtAreRejected()
    ensures Tokenize("!") == Err(Error(0, InvalidToken))
    ensures Tokenize("@") == Err(Error(0, InvalidToken))
  {
    var s1: CString := "!";
    TwoCharOpInBounds(s1, 0);
    LexError(s1, 0);
    var s2: CString := "@";
    TwoCharOpInBounds(s2, 0);
    LexError(s2, 0);
  }
}
