/** Properties of ncc.c's tokenizer: it produces the one tiling of the
    input by lexemes and whitespace (and fails exactly when there is none),
    and it accepts only a small alphabet of characters.
 */
module NccProps {
  import opened Chars
  import opened Results
  import opened Ncc

  //
  // Tokenizer
  //

  /** No lexeme starts with whitespace. */
  lemma LexemeNotSpace(s: CString, t: Token)
    requires Lexeme(s, t)
    ensures !IsSpace(s[t.pos])
  {
    if t.kind == Reserved {
      assert s[t.pos] == t.text[0];
    }
  }

  /** Dropping the first token of a tiling tiles the rest of the input. */
  lemma TilesTail(s: CString, p: nat, ts: seq<Token>)
    requires Tiles(s, p, ts) && |ts| > 1
    ensures Tiles(s, End(s, ts[0]), ts[1..])
  {
    var rest := ts[1..];
    forall k | 0 <= k < |rest| - 1
      ensures Lexeme(s, rest[k]) && Blank(s, End(s, rest[k]), rest[k + 1].pos)
    {
      assert rest[k] == ts[k + 1] && rest[k + 1] == ts[k + 2];
    }
  }

  /** At a position where lexeme `t` starts, `tokenize` emits `t` and goes on
      after it. */
  lemma LexStep(s: CString, t: Token)
    requires Lexeme(s, t)
    ensures Lex(s, t.pos) == Emit(s, t)
  {
    var p := t.pos;
    LexemeNotSpace(s, t);
    TwoCharOpInBounds(s, p);
    match t.kind
    case Reserved =>
      if t.text in TwoCharOps {
        assert |t.text| == 2 && TwoCharOpAt(s, p);
        assert t == Token(Reserved, 0, p, s[p..p + 2]);
      } else {
        assert s[p] == t.text[0] && s[p] in OneCharOps;
        assert t == Token(Reserved, 0, p, s[p..p + 1]);
      }
    case Number =>
      assert IsDigit(s[p]) && !TwoCharOpAt(s, p) && s[p] !in OneCharOps;
      assert t == Token(Number, DecimalAt(s, p), p, "");
  }

  /** At a character no rule accepts, `tokenize` stops with an error there. */
  lemma LexError(s: CString, p: nat)
    requires p < |s| && Unlexable(s, p)
    ensures Lex(s, p) == Err(Error(p, "expected a number"))
  {
  }

  /** Only the end-of-input token tiles the empty rest of the input. */
  lemma TilesAtEnd(s: CString, ts: seq<Token>)
    requires Tiles(s, |s|, ts)
    ensures ts == [Token(Eof, 0, |s|, "")]
  {
    assert !Lexeme(s, ts[0]);
  }

  /** Every tiling of the input is the one `tokenize` returns. */
  lemma {:induction false} LexComplete(s: CString, p: nat, ts: seq<Token>)
    requires p <= |s| && Tiles(s, p, ts)
    ensures Lex(s, p) == Ok(ts)
    decreases |s| - p
  {
    if p == |s| {
      TilesAtEnd(s, ts);
    } else if ts[0].pos > p {
      TilesSkipSpace(s, p, ts);
      LexComplete(s, p + 1, ts);
    } else {
      TilesHead(s, p, ts);
      LexComplete(s, End(s, ts[0]), ts[1..]);
      EmitOk(s, ts[0], ts[1..]);
      assert ts == [ts[0]] + ts[1..];
    }
  }

  /** Before the first token of a tiling there is only whitespace, which
      `tokenize` skips. */
  lemma TilesSkipSpace(s: CString, p: nat, ts: seq<Token>)
    requires p < |s| && Tiles(s, p, ts) && ts[0].pos > p
    ensures Tiles(s, p + 1, ts) && Lex(s, p) == Lex(s, p + 1)
  {
    assert IsSpace(s[p]);
  }

  /** A tiling that starts with a lexeme at `p`: `tokenize` emits it, and
      the rest of the tiling tiles the input after it. */
  lemma TilesHead(s: CString, p: nat, ts: seq<Token>)
    requires p < |s| && Tiles(s, p, ts) && ts[0].pos == p
    ensures |ts| > 1 && Lexeme(s, ts[0]) && p < End(s, ts[0]) <= |s|
    ensures Tiles(s, End(s, ts[0]), ts[1..]) && Lex(s, p) == Emit(s, ts[0])
  {
    assert |ts| > 1 && Lexeme(s, ts[0]);
    TilesTail(s, p, ts);
    EndAfter(s, ts[0]);
    LexStep(s, ts[0]);
  }

  /** `new_token` then a successful rest of the loop. */
  lemma EmitOk(s: CString, t: Token, rest: seq<Token>)
    requires Lexeme(s, t) && End(s, t) <= |s| && Lex(s, End(s, t)) == Ok(rest)
    ensures Emit(s, t) == Ok([t] + rest)
  {
  }

  /** `tokenize` succeeds with `ts` exactly when `ts` tiles the input. */
  lemma TokenizeIffTiles(s: CString, ts: seq<Token>)
    ensures Tokenize(s) == Ok(ts) <==> Tiles(s, 0, ts)
  {
    if Tiles(s, 0, ts) {
      LexComplete(s, 0, ts);
    }
  }

  /** `tokenize` fails exactly when no tiling of the input exists, and the
      error points at a character no rule accepts. */
  lemma TokenizeFailsIffNoTiling(s: CString)
    ensures Tokenize(s).Err? <==> forall ts :: !Tiles(s, 0, ts)
  {
    if Tokenize(s).Err? {
      forall ts
        ensures !Tiles(s, 0, ts)
      {
        TokenizeIffTiles(s, ts);
      }
    }
  }

  /** Whitespace-only input yields exactly one end-of-input token, at the
      end of the input. */
  lemma WhitespaceOnly(s: CString)
    requires forall q :: 0 <= q < |s| ==> IsSpace(s[q])
    ensures Tokenize(s) == Ok([Token(Eof, 0, |s|, "")])
  {
    TokenizeIffTiles(s, [Token(Eof, 0, |s|, "")]);
  }

  /** The characters a successfully tokenized input can hold. */
  predicate InAlphabet(c: char)
  {
    IsSpace(c) || IsDigit(c) || c in OneCharOps || c == '=' || c == '!'
  }

  /** Everything the tokenizer accepted is whitespace, a digit, one of
      `+ - * / ( ) < >`, or the `=`/`!` of a two-character punctuator; so `;`,
      letters and any other character make it fail. */
  lemma {:induction false} LexAlphabet(s: CString, p: nat)
    requires p <= |s|
    requires Lex(s, p).Ok?
    ensures forall q :: p <= q < |s| ==> InAlphabet(s[q])
    decreases |s| - p
  {
    if p < |s| {
      var q := NextStart(s, p);
      LexAlphabet(s, q);
      AlphabetFrom(s, p, q);
    }
  }

  /** Where `tokenize` goes on after the whitespace character or lexeme at
      `p`; everything it passes over is in the alphabet. */
  lemma NextStart(s: CString, p: nat) returns (q: nat)
    requires p < |s| && Lex(s, p).Ok?
    ensures p < q <= |s| && Lex(s, q).Ok?
    ensures forall k :: p <= k < q ==> InAlphabet(s[k])
  {
    if IsSpace(s[p]) {
      q := p + 1;
    } else if TwoCharOpAt(s, p) {
      TwoCharOpAlphabet(s, p);
      q := p + 2;
    } else if s[p] in OneCharOps {
      OneCharNext(s, p);
      q := p + 1;
    } else {
      DigitNext(s, p);
      q := DigitRunEnd(s, p);
    }
  }

  lemma AlphabetFrom(s: string, p: nat, q: nat)
    requires p <= q <= |s|
    requires forall k :: p <= k < q ==> InAlphabet(s[k])
    requires forall k :: q <= k < |s| ==> InAlphabet(s[k])
    ensures forall k :: p <= k < |s| ==> InAlphabet(s[k])
  {
  }

  /** Both characters of a two-character punctuator are in the alphabet,
      and `tokenize` goes on right after them. */
  lemma TwoCharOpAlphabet(s: CString, p: nat)
    requires p < |s| && !IsSpace(s[p]) && TwoCharOpAt(s, p)
    ensures p + 2 <= |s| && InAlphabet(s[p]) && InAlphabet(s[p + 1])
    ensures Lex(s, p).Ok? ==> Lex(s, p + 2).Ok?
  {
    TwoCharOpInBounds(s, p);
    assert s[p..p + 2] in TwoCharOps;
    assert s[p] == s[p..p + 2][0] && s[p + 1] == s[p..p + 2][1];
    assert Lex(s, p) == Emit(s, Token(Reserved, 0, p, s[p..p + 2]));
  }

  /** After a one-character punctuator `tokenize` goes on at the next
      character. */
  lemma OneCharNext(s: CString, p: nat)
    requires p < |s| && !IsSpace(s[p]) && !TwoCharOpAt(s, p) && s[p] in OneCharOps
    ensures Lex(s, p).Ok? ==> Lex(s, p + 1).Ok?
  {
    assert Lex(s, p) == Emit(s, Token(Reserved, 0, p, s[p..p + 1]));
  }

  /** Past the whitespace and punctuator rules only a digit run can be
      read, and `tokenize` goes on after it. */
  lemma DigitNext(s: CString, p: nat)
    requires p < |s| && !IsSpace(s[p]) && !TwoCharOpAt(s, p) && s[p] !in OneCharOps
    ensures Lex(s, p).Ok? ==> IsDigit(s[p]) && Lex(s, DigitRunEnd(s, p)).Ok?
  {
    if IsDigit(s[p]) {
      assert Lex(s, p) == Emit(s, Token(Number, DecimalAt(s, p), p, ""));
    }
  }

  /** Input made of whitespace, digits and `+ - * / ( ) < >` only always tokenizes. */
  lemma {:induction false} SimpleInputLexes(s: CString, p: nat)
    requires p <= |s|
    requires forall q :: p <= q < |s| ==> IsSpace(s[q]) || IsDigit(s[q]) || s[q] in OneCharOps
    ensures Lex(s, p).Ok?
    decreases |s| - p
  {
    if p < |s| {
      if IsSpace(s[p]) {
        SimpleInputLexes(s, p + 1);
      } else if TwoCharOpAt(s, p) {
        TwoCharOpInBounds(s, p);
        SimpleInputLexes(s, p + 2);
      } else if s[p] in OneCharOps {
        SimpleInputLexes(s, p + 1);
      } else {
        SimpleInputLexes(s, DigitRunEnd(s, p));
      }
    }
  }

  /** `<=` is one reserved token of length two, never `<` then `=`. */
  lemma LessEqualIsOneToken()
    ensures Tokenize("<=") == Ok([Token(Reserved, 0, 0, "<="), Token(Eof, 0, 2, "")])
  {
    var s: CString := "<=";
    assert s[0..2] == "<=" == TwoCharOps[2];
    var t := Token(Reserved, 0, 0, "<=");
    assert Lexeme(s, t);
    LexStep(s, t);
    assert End(s, t) == 2;
    assert Lex(s, 2) == Ok([Token(Eof, 0, 2, "")]);
    assert [t] + [Token(Eof, 0, 2, "")] == [t, Token(Eof, 0, 2, "")];
  }

  /** `;` is not a token of this generation: `1;` fails at the `;`. */
  lemma SemicolonRejected()
    ensures Tokenize("1;") == Err(Error(1, "expected a number"))
  {
    var s: CString := "1;";
    TwoCharOpInBounds(s, 1);
    LexError(s, 1);
    var t := Token(Number, DecimalAt(s, 0), 0, "");
    assert DigitRunEnd(s, 1) == 1;
    assert Lexeme(s, t) && End(s, t) == 1;
    LexStep(s, t);
  }

  /** Neither are letters nor a lone `=`. */
  lemma LetterAndAssignRejected()
    ensures Tokenize("a") == Err(Error(0, "expected a number"))
    ensures Tokenize("=") == Err(Error(0, "expected a number"))
  {
    var s2: CString := "a";
    TwoCharOpInBounds(s2, 0);
    LexError(s2, 0);
    var s3: CString := "=";
    TwoCharOpInBounds(s3, 0);
    LexError(s3, 0);
  }
}
