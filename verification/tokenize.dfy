/** The tokenizer of the second generation of the compiler (tokenize.c).

    Compared with the first generation it also accepts `;` and `=` as
    punctuators and reads identifiers: a letter or `_`, then any run of
    letters, digits and `_`, taken greedily and with no keyword recognition.
    The linked token list becomes a `seq<Token>` and `error_at` an `Err`
    carrying the offset of the offending character.
 */
module Tokenizer {
  import opened Chars
  import opened Results

  datatype TokenKind = Reserved | Ident | Number | Eof

  /** A token as `new_token` fills it in. `pos` is where `str` points within
      the input and `text` the `len` characters found there. A number token
      consumes its digits but records `len == 0`, so its `text` is empty and
      only `val` is set. */
  datatype Token = Token(kind: TokenKind, val: int, pos: nat, text: string)

  /** The single-character punctuators of this generation. */
  const OneCharOps: string := "+-*/()<>;="

  const InvalidToken: string := "tokenizer: Invalid Token"

  /** A character an identifier may start with: `[A-Za-z_]`. */
  predicate IsIdentStart(c: char)
  {
    'a' <= c <= 'z' || 'A' <= c <= 'Z' || c == '_'
  }

  /** A character an identifier may continue with: `[A-Za-z0-9_]`. */
  predicate IsIdentChar(c: char)
  {
    IsIdentStart(c) || IsDigit(c)
  }

  /** Where the `while` loop that measures an identifier stops: the end of
      the longest run of identifier characters starting at `p`. */
  function IdentRunEnd(s: string, p: nat): (q: nat)
    requires p <= |s|
    ensures p <= q <= |s|
    ensures forall k :: p <= k < q ==> IsIdentChar(s[k])
    ensures q == |s| || !IsIdentChar(s[q])
    decreases |s| - p
  {
    if p < |s| && IsIdentChar(s[p]) then IdentRunEnd(s, p + 1) else p
  }

  /** The token the tokenizer may place at `t.pos`: a punctuator read off
      the input (two characters whenever one of the four two-character
      punctuators starts there), a whole identifier, or a number holding the
      value of the whole digit run that starts there. */
  ghost predicate Lexeme(s: string, t: Token)
  {
    && t.pos < |s|
    && match t.kind
       case Reserved =>
         && t.val == 0
         && t.pos + |t.text| <= |s|
         && t.text == s[t.pos..t.pos + |t.text|]
         && (|| t.text in TwoCharOps
             || (|t.text| == 1 && t.text[0] in OneCharOps && !TwoCharOpAt(s, t.pos)))
       case Ident =>
         && t.val == 0
         && 0 < |t.text| && t.pos + |t.text| <= |s|
         && t.text == s[t.pos..t.pos + |t.text|]
         && IsIdentStart(t.text[0])
         && (forall k :: 0 < k < |t.text| ==> IsIdentChar(t.text[k]))
         && (t.pos + |t.text| == |s| || !IsIdentChar(s[t.pos + |t.text|]))
       case Number =>
         t.text == "" && IsDigit(s[t.pos]) && t.val == DecimalAt(s, t.pos)
       case Eof => false
  }

  /** Where the input consumed by `t` ends. */
  function End(s: string, t: Token): nat
  {
    if t.kind == Number && t.pos <= |s| then DigitRunEnd(s, t.pos) else t.pos + |t.text|
  }

  /** `s[a..b]` is whitespace only. */
  ghost predicate Blank(s: string, a: nat, b: nat)
  {
    a <= b <= |s| && forall q :: a <= q < b ==> IsSpace(s[q])
  }

  /** `ts` tiles the input from `p` on: lexemes separated by whitespace and
      followed by exactly one end-of-input token, positioned at the end. */
  ghost predicate Tiles(s: string, p: nat, ts: seq<Token>)
  {
    && |ts| >= 1
    && ts[|ts| - 1] == Token(Eof, 0, |s|, "")
    && (forall k :: 0 <= k < |ts| - 1 ==> Lexeme(s, ts[k]))
    && Blank(s, p, ts[0].pos)
    && (forall k :: 0 <= k < |ts| - 1 ==> Blank(s, End(s, ts[k]), ts[k + 1].pos))
  }

  /** A character at which no rule of the tokenizer applies. */
  predicate Unlexable(s: string, p: nat)
    requires p < |s|
  {
    && !IsSpace(s[p]) && !TwoCharOpAt(s, p) && s[p] !in OneCharOps
    && !IsIdentStart(s[p]) && !IsDigit(s[p])
  }

  /** The loop of `tokenize` from the character at `p` on, with its rules
      tried in the order of the source. */
  function Lex(s: CString, p: nat): (r: Result<seq<Token>>)
    requires p <= |s|
    ensures r.Ok? ==> Tiles(s, p, r.value)
    ensures r.Err? ==> p <= r.error.pos < |s| && Unlexable(s, r.error.pos)
    ensures r.Err? ==> r.error.msg == InvalidToken
    decreases |s| - p
  {
    if p == |s| then
      Ok([Token(Eof, 0, p, "")])
    else if IsSpace(s[p]) then
      Lex(s, p + 1)
    else if TwoCharOpAt(s, p) then
      TwoCharOpInBounds(s, p);
      Emit(s, Token(Reserved, 0, p, s[p..p + 2]))
    else if s[p] in OneCharOps then
      Emit(s, Token(Reserved, 0, p, s[p..p + 1]))
    else if IsIdentStart(s[p]) then
      IdentLexeme(s, p);
      Emit(s, Token(Ident, 0, p, s[p..IdentRunEnd(s, p + 1)]))
    else if IsDigit(s[p]) then
      Emit(s, Token(Number, DecimalAt(s, p), p, ""))
    else
      Err(Error(p, InvalidToken))
  }

  /** `new_token` followed by the rest of the loop: the lexeme `t`, then the
      tokens of the input after it. */
  function Emit(s: CString, t: Token): (r: Result<seq<Token>>)
    requires Lexeme(s, t)
    ensures r.Ok? ==> Tiles(s, t.pos, r.value) && r.value[0] == t
    ensures r.Err? ==> End(s, t) <= r.error.pos < |s| && Unlexable(s, r.error.pos)
    ensures r.Err? ==> r.error.msg == InvalidToken
    decreases |s| - t.pos, 0
  {
    EndAfter(s, t);
    var rest :- Lex(s, End(s, t));
    Ok([t] + rest)
  }

  /** A lexeme consumes at least its first character and stays inside the
      input. */
  lemma EndAfter(s: string, t: Token)
    requires Lexeme(s, t)
    ensures t.pos < End(s, t) <= |s|
  {
    if t.kind == Reserved {
      assert |t.text| > 0 by {
        if t.text in TwoCharOps {
          assert |t.text| == 2;
        }
      }
    }
  }

  /** The identifier the tokenizer reads at `p` is a lexeme. */
  lemma IdentLexeme(s: string, p: nat)
    requires p < |s| && IsIdentStart(s[p])
    ensures Lexeme(s, Token(Ident, 0, p, s[p..IdentRunEnd(s, p + 1)]))
  {
    IdentRunLexeme(s, p, IdentRunEnd(s, p + 1));
  }

  /** An identifier start followed by identifier characters up to a
      non-identifier character (or the end) is an identifier lexeme. */
  lemma IdentRunLexeme(s: string, p: nat, q: nat)
    requires p < q <= |s| && IsIdentStart(s[p])
    requires forall k :: p + 1 <= k < q ==> IsIdentChar(s[k])
    requires q == |s| || !IsIdentChar(s[q])
    ensures Lexeme(s, Token(Ident, 0, p, s[p..q]))
  {
    var t := s[p..q];
    assert |t| == q - p && t[0] == s[p];
    forall k | 0 < k < |t|
      ensures IsIdentChar(t[k])
    {
      assert t[k] == s[p + k];
    }
  }

  /** `tokenize()` on `user_input`. */
  function Tokenize(s: CString): (r: Result<seq<Token>>)
    ensures r.Ok? ==> Tiles(s, 0, r.value)
    ensures r.Err? ==> r.error.pos < |s| && Unlexable(s, r.error.pos)
  {
    Lex(s, 0)
  }
}
