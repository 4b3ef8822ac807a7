/** The character scanner (LexicalAnalyzer): a pure specification of one
    scanning step on the unread suffix of the input, the whole token
    stream it yields, and the scanner object proved against them. */
module Scanner {
  import opened Tokens

  /** Length of the run of whitespace at the start of s. */
  function SpaceRun(s: string): (n: nat)
    ensures n <= |s|
    ensures forall k :: 0 <= k < n ==> IsSpace(s[k])
    ensures n == |s| || !IsSpace(s[n])
  {
    if s == [] || !IsSpace(s[0]) then 0 else 1 + SpaceRun(s[1..])
  }

  /** The unread text with its leading whitespace removed. */
  function SkipSpace(s: string): string {
    s[SpaceRun(s)..]
  }

  /** The text at the cursor begins with the sequence w. */
  predicate StartsWith(s: string, w: string) {
    |w| <= |s| && s[..|w|] == w
  }

  /** Where invalid-operator recovery stops: whitespace or a parenthesis. */
  predicate IsStop(c: char) {
    IsSpace(c) || c == '(' || c == ')'
  }

  /** Length of the longest prefix of s free of stop characters. */
  function OperatorRun(s: string): (n: nat)
    ensures n <= |s|
    ensures forall k :: 0 <= k < n ==> !IsStop(s[k])
    ensures n == |s| || IsStop(s[n])
  {
    if s == [] || IsStop(s[0]) then 0 else 1 + OperatorRun(s[1..])
  }

  /** Length of the longest prefix of s made of digits and lowercase letters. */
  function PropRun(s: string): (n: nat)
    ensures n <= |s|
    ensures forall k :: 0 <= k < n ==> IsPropChar(s[k])
    ensures n == |s| || !IsPropChar(s[n])
  {
    if s == [] || !IsPropChar(s[0]) then 0 else 1 + PropRun(s[1..])
  }

  /** The backslash branch: the five operators in priority order, then
      greedy recovery up to whitespace, a parenthesis or the end. */
  function ScanOperator(t: string): (r: (Token, string))
    requires t != [] && t[0] == '\\'
    ensures t == r.0.value + r.1 && r.0.value != []
    ensures r.0.kind != Eof && Canonical(r.0)
  {
    if StartsWith(t, NEG_WORD) then (Token(Neg, NEG_WORD), t[|NEG_WORD|..])
    else if StartsWith(t, WEDGE_WORD) then (Token(Wedge, WEDGE_WORD), t[|WEDGE_WORD|..])
    else if StartsWith(t, VEE_WORD) then (Token(Vee, VEE_WORD), t[|VEE_WORD|..])
    else if StartsWith(t, RIGHTARROW_WORD) then (Token(RightArrow, RIGHTARROW_WORD), t[|RIGHTARROW_WORD|..])
    else if StartsWith(t, LEFTRIGHTARROW_WORD) then (Token(LeftRightArrow, LEFTRIGHTARROW_WORD), t[|LEFTRIGHTARROW_WORD|..])
    else
      var n := OperatorRun(t);
      assert n >= 1 && t == t[..n] + t[n..];
      (Token(Invalid, t[..n]), t[n..])
  }

  /** The proposition branch: the first character, then the greedy run of
      digits and lowercase letters, then the shape check on the lexeme. */
  function ScanProposition(t: string): (r: (Token, string))
    requires t != []
    ensures t == r.0.value + r.1 && r.0.value != []
    ensures r.0.kind != Eof && Canonical(r.0)
  {
    var n := 1 + PropRun(t[1..]);
    var v := t[..n];
    assert t == v + t[n..];
    if IsPropName(v) then (Token(Proposition, v), t[n..]) else (Token(Invalid, v), t[n..])
  }

  /** One scanning step on text that starts with a non-space character:
      the fixed priority order of the scanner's alternatives. */
  function ScanAt(t: string): (r: (Token, string))
    requires t != []
    ensures t == r.0.value + r.1 && r.0.value != []
    ensures r.0.kind != Eof && Canonical(r.0)
  {
    if StartsWith(t, TRUE_WORD) then (Token(True, TRUE_WORD), t[|TRUE_WORD|..])
    else if StartsWith(t, FALSE_WORD) then (Token(False, FALSE_WORD), t[|FALSE_WORD|..])
    else if t[0] == '(' then (Token(OpenParen, "("), t[1..])
    else if t[0] == ')' then (Token(CloseParen, ")"), t[1..])
    else if t[0] == '\\' then ScanOperator(t)
    else if IsDigit(t[0]) then ScanProposition(t)
    else (Token(Invalid, [t[0]]), t[1..])
  }

  /** One scanning step on the unread text s: the token produced and the
      text left unread after it. Every token but Eof consumes at least one
      character, and Eof leaves nothing unread. */
  function Next(s: string): (r: (Token, string))
    ensures r.0.kind != Eof ==> |r.1| < |s|
    ensures r.0.kind == Eof ==> r.1 == []
    ensures Canonical(r.0)
  {
    var t := SkipSpace(s);
    if t == [] then (EOF_TOKEN, t) else ScanAt(t)
  }

  /** The token's value is exactly the text consumed for it after the
      leading whitespace, and Eof is produced precisely when only
      whitespace is left. */
  lemma NextConsumesLexeme(s: string)
    ensures SkipSpace(s) == Next(s).0.value + Next(s).1
    ensures Next(s).1 == s[|s| - |Next(s).1|..]
    ensures Next(s).0.kind == Eof <==> forall k :: 0 <= k < |s| ==> IsSpace(s[k])
  {
    var t := SkipSpace(s);
    if t != [] {
      assert !IsSpace(s[|s| - |t|]);
    }
  }

  /** The whole token stream of s: every token up to and including the
      first Eof. */
  function Tokenize(s: string): (ts: seq<Token>)
    decreases |s|, 1
    ensures |ts| >= 1 && ts[|ts| - 1].kind == Eof
  {
    TokenizeStep(s)
  }

  /** One step of the stream: the next token, then the stream of what it
      leaves unread, unless it is Eof. */
  function TokenizeStep(s: string): (ts: seq<Token>)
    decreases |s|, 0
    ensures |ts| >= 1 && ts[|ts| - 1].kind == Eof
  {
    var r := Next(s);
    if r.0.kind == Eof then [r.0] else [r.0] + Tokenize(r.1)
  }

  /** The stream holds exactly one Eof, at its end. */
  lemma {:induction false} TokenizeEofLast(s: string)
    ensures forall i :: 0 <= i < |Tokenize(s)| - 1 ==> Tokenize(s)[i].kind != Eof
    decreases |s|
  {
    var r := Next(s);
    assert Tokenize(s) == TokenizeStep(s);
    if r.0.kind != Eof {
      TokenizeEofLast(r.1);
      assert Tokenize(s) == [r.0] + Tokenize(r.1);
    }
  }

  /** Every token of the stream has the shape the scanner gives its kind. */
  lemma {:induction false} TokenizeCanonical(s: string)
    ensures forall i :: 0 <= i < |Tokenize(s)| ==> Canonical(Tokenize(s)[i])
    decreases |s|
  {
    var r := Next(s);
    if r.0.kind != Eof {
      TokenizeCanonical(r.1);
      assert Tokenize(s) == [r.0] + Tokenize(r.1);
    }
  }

  /** Once the input is exhausted the scanner keeps answering Eof and
      reads nothing more: the stream ends with its only Eof. */
  lemma EofForever(s: string)
    requires Next(s).0.kind == Eof
    ensures Next(s) == (EOF_TOKEN, []) && Next(Next(s).1) == Next(s)
    ensures Tokenize(s) == [EOF_TOKEN]
  {
    assert Tokenize(s) == TokenizeStep(s);
  }

  /** Leading whitespace never changes the token stream. */
  lemma TokenizeSpace(c: char, y: string)
    requires IsSpace(c)
    ensures Next([c] + y) == Next(y)
    ensures Tokenize([c] + y) == Tokenize(y)
  {
    assert ([c] + y)[1..] == y;
    assert Tokenize([c] + y) == TokenizeStep([c] + y);
    assert Tokenize(y) == TokenizeStep(y);
  }

  /** A non-space character at the cursor starts a token at once. */
  lemma NextAt(t: string)
    requires t != [] && !IsSpace(t[0])
    ensures Next(t) == ScanAt(t)
  {
    assert SkipSpace(t) == t[0..] == t;
  }

  /** When the text w + y starts with the token that spells w and leaves
      y unread, the stream of w + y is that token then the stream of y. */
  lemma TokenizeWord(w: string, tok: Token, y: string)
    requires w != [] && !IsSpace(w[0]) && ScanAt(w + y) == (tok, y)
    ensures Tokenize(w + y) == [tok] + Tokenize(y)
  {
    assert (w + y)[0] == w[0];
    NextAt(w + y);
    assert Tokenize(w + y) == TokenizeStep(w + y);
  }

  /** Keyword priority: true and false are recognised as bare prefixes,
      with no check of what follows them. */
  lemma KeywordPriority(y: string)
    ensures Next(TRUE_WORD + y) == (Token(True, TRUE_WORD), y)
    ensures Next(FALSE_WORD + y) == (Token(False, FALSE_WORD), y)
  {
    assert (TRUE_WORD + y)[..|TRUE_WORD|] == TRUE_WORD && (TRUE_WORD + y)[|TRUE_WORD|..] == y;
    assert (FALSE_WORD + y)[..|FALSE_WORD|] == FALSE_WORD && (FALSE_WORD + y)[|FALSE_WORD|..] == y;
    assert (FALSE_WORD + y)[0] == 'f';
    NextAt(TRUE_WORD + y);
    NextAt(FALSE_WORD + y);
  }

  /** The text "truex" scans as the keyword true followed by an invalid
      one-character token. */
  lemma TruexScan()
    ensures Tokenize("truex") == [Token(True, TRUE_WORD), Token(Invalid, "x"), EOF_TOKEN]
  {
    var x: string := "x";
    assert x + [] == x;
    assert ScanAt(x + []) == (Token(Invalid, x), []);
    TokenizeWord(x, Token(Invalid, x), []);
    KeywordPriority(x);
    NextAt(TRUE_WORD + x);
    TokenizeWord(TRUE_WORD, Token(True, TRUE_WORD), x);
    EofForever([]);
    assert "truex" == TRUE_WORD + x;
  }

  /** On ASCII text the proposition branch always yields a Proposition
      token, and the token is maximal: no digit or lowercase letter
      follows it. */
  lemma PropositionAlwaysValid(t: string)
    requires t != [] && IsDigit(t[0])
    ensures ScanProposition(t).0.kind == Proposition
    ensures ScanProposition(t).1 == [] || !IsPropChar(ScanProposition(t).1[0])
  {
    var n := 1 + PropRun(t[1..]);
    var v := t[..n];
    forall k | 1 <= k < |v| ensures IsPropChar(v[k]) {
      assert v[k] == t[1..][k - 1];
    }
    assert IsPropName(v);
    if n < |t| {
      assert t[n..][0] == t[1..][n - 1];
    }
  }

  /** Invalid-operator recovery: a backslash that begins none of the five
      operator words yields an Invalid token from the backslash up to, not
      including, the next whitespace, parenthesis or the end; it is Invalid
      only in that case. */
  lemma InvalidOperatorRecovery(t: string)
    requires t != [] && t[0] == '\\'
    ensures var r := ScanOperator(t);
      r.0.kind == Invalid <==>
        !StartsWith(t, NEG_WORD) && !StartsWith(t, WEDGE_WORD) && !StartsWith(t, VEE_WORD)
        && !StartsWith(t, RIGHTARROW_WORD) && !StartsWith(t, LEFTRIGHTARROW_WORD)
    ensures var r := ScanOperator(t);
      r.0.kind == Invalid ==>
        r.0.value[0] == '\\' && (forall k :: 0 <= k < |r.0.value| ==> !IsStop(r.0.value[k]))
        && (r.1 == [] || IsStop(r.1[0]))
  {
    var r := ScanOperator(t);
    if r.0.kind == Invalid {
      var n := OperatorRun(t);
      assert r.0.value == t[..n] && r.1 == t[n..];
      if n < |t| {
        assert r.1[0] == t[n];
      }
    }
  }

  /** The catch-all branch: a character that is not a backslash and starts
      no keyword, no parenthesis and no proposition becomes an Invalid token
      of exactly that one character; no other such text yields Invalid. */
  lemma UnknownCharacter(t: string)
    requires t != [] && t[0] != '\\'
    ensures ScanAt(t).0.kind == Invalid <==>
      !StartsWith(t, TRUE_WORD) && !StartsWith(t, FALSE_WORD)
      && t[0] != '(' && t[0] != ')' && !IsDigit(t[0])
    ensures ScanAt(t).0.kind == Invalid ==> ScanAt(t) == (Token(Invalid, [t[0]]), t[1..])
  {
    if !StartsWith(t, TRUE_WORD) && !StartsWith(t, FALSE_WORD)
      && t[0] != '(' && t[0] != ')' && IsDigit(t[0])
    {
      PropositionAlwaysValid(t);
    }
  }

  /** Every Invalid token the scanner produces is of one of two kinds: an
      unrecognised operator, from a backslash up to whitespace, a
      parenthesis or the end; or a single unknown character, which is not a
      digit and not a parenthesis. */
  lemma InvalidTokens(s: string)
    requires Next(s).0.kind == Invalid
    ensures var t := SkipSpace(s);
      t != [] &&
      if t[0] == '\\' then
        Next(s) == ScanOperator(t) && (forall k :: 0 <= k < |Next(s).0.value| ==> !IsStop(Next(s).0.value[k]))
        && (Next(s).1 == [] || IsStop(Next(s).1[0]))
      else
        Next(s) == (Token(Invalid, [t[0]]), t[1..])
        && !IsDigit(t[0]) && t[0] != '(' && t[0] != ')'
  {
    var t := SkipSpace(s);
    if t[0] == '\\' {
      InvalidOperatorRecovery(t);
    } else {
      UnknownCharacter(t);
    }
  }

  /** The scanner loses nothing but whitespace: the token values, in
      order, spell the input with its whitespace removed. */
  function Lexemes(ts: seq<Token>): string {
    if ts == [] then [] else ts[0].value + Lexemes(ts[1..])
  }

  function Unspaced(s: string): string {
    if s == [] then [] else (if IsSpace(s[0]) then [] else [s[0]]) + Unspaced(s[1..])
  }

  lemma {:induction false} UnspacedAppend(a: string, b: string)
    ensures Unspaced(a + b) == Unspaced(a) + Unspaced(b)
    decreases |a|
  {
    if a != [] {
      assert (a + b)[1..] == a[1..] + b;
      UnspacedAppend(a[1..], b);
    } else {
      assert a + b == b;
    }
  }

  lemma {:induction false} UnspacedSkip(s: string)
    ensures Unspaced(s) == Unspaced(SkipSpace(s))
    decreases |s|
  {
    if s != [] && IsSpace(s[0]) {
      UnspacedSkip(s[1..]);
      assert SkipSpace(s) == SkipSpace(s[1..]);
    }
  }

  /** v contains no whitespace character. */
  predicate NoSpace(v: string) {
    forall k :: 0 <= k < |v| ==> !IsSpace(v[k])
  }

  lemma {:induction false} UnspacedFree(v: string)
    requires NoSpace(v)
    ensures Unspaced(v) == v
    decreases |v|
  {
    if v != [] {
      UnspacedFree(v[1..]);
      assert v == [v[0]] + v[1..];
    }
  }

  lemma WordsUnspaced()
    ensures NoSpace(TRUE_WORD) && NoSpace(FALSE_WORD) && NoSpace("(") && NoSpace(")")
    ensures NoSpace(NEG_WORD) && NoSpace(WEDGE_WORD) && NoSpace(VEE_WORD)
    ensures NoSpace(RIGHTARROW_WORD) && NoSpace(LEFTRIGHTARROW_WORD)
  {
  }

  /** No token value contains whitespace. */
  lemma LexemeUnspaced(t: string)
    requires t != [] && !IsSpace(t[0])
    ensures NoSpace(ScanAt(t).0.value)
  {
    WordsUnspaced();
    if StartsWith(t, TRUE_WORD) || StartsWith(t, FALSE_WORD) || t[0] == '(' || t[0] == ')' {
    } else if t[0] == '\\' {
      InvalidOperatorRecovery(t);
    } else if IsDigit(t[0]) {
      PropositionAlwaysValid(t);
      assert IsPropName(ScanAt(t).0.value);
    } else {
      assert ScanAt(t).0.value == [t[0]];
    }
  }

  lemma {:induction false} LexemesTokenize(s: string)
    ensures Lexemes(Tokenize(s)) == Unspaced(s)
    decreases |s|
  {
    var r := Next(s);
    var t := SkipSpace(s);
    UnspacedSkip(s);
    assert Tokenize(s) == TokenizeStep(s);
    if r.0.kind == Eof {
      assert Lexemes([r.0]) == r.0.value + Lexemes([]);
    } else {
      LexemesTokenize(r.1);
      var ts := [r.0] + Tokenize(r.1);
      assert ts[1..] == Tokenize(r.1);
      assert !IsSpace(t[0]);
      LexemeUnspaced(t);
      UnspacedFree(r.0.value);
      UnspacedAppend(r.0.value, r.1);
    }
  }

  function CharAt(s: string, i: nat): Option<char> {
    if i < |s| then Some(s[i]) else None
  }

  /** The scanner object: an immutable input, a cursor and the character
      under the cursor (None past the end). */
  class LexicalAnalyzer {
    const input: string
    var position: nat
    var current: Option<char>

    ghost predicate Valid()
      reads this
    {
      position <= |input| && current == CharAt(input, position)
    }

    /** The text not yet read. */
    ghost function Rest(): string
      reads this
      requires Valid()
    {
      input[position..]
    }

    constructor (text: string)
      ensures Valid() && input == text && position == 0
    {
      input := text;
      position := 0;
      current := if |text| > 0 then Some(text[0]) else None;
    }

    /** Moves the cursor one character on and resynchronises current. */
    method Advance()
      requires Valid()
      modifies this
      ensures position == old(position) + 1 && current == CharAt(input, position)
      ensures old(position) < |input| ==> Valid() && Rest() == old(Rest())[1..]
    {
      position := position + 1;
      if position < |input| {
        current := Some(input[position]);
      } else {
        current := None;
      }
    }

    method SkipWhitespace()
      requires Valid()
      modifies this
      ensures Valid() && old(position) <= position
      ensures Rest() == SkipSpace(old(Rest()))
    {
      while current.Some? && IsSpace(current.value)
        invariant Valid() && old(position) <= position
        invariant SkipSpace(Rest()) == SkipSpace(old(Rest()))
        decreases |input| - position
      {
        Advance();
      }
    }

    /** When the unread text starts with w, consumes it and answers true;
        otherwise leaves the cursor where it was and answers false. */
    method MatchSequence(w: string) returns (matched: bool)
      requires Valid()
      modifies this
      ensures Valid()
      ensures matched == StartsWith(old(Rest()), w)
      ensures matched ==> position == old(position) + |w| && Rest() == old(Rest())[|w|..]
      ensures !matched ==> position == old(position) && current == old(current)
    {
      if position + |w| <= |input| {
        if input[position..position + |w|] == w {
          position := position + |w|;
          if position < |input| {
            current := Some(input[position]);
          } else {
            current := None;
          }
          return true;
        }
      }
      return false;
    }

    /** Scans a proposition starting at the cursor. */
    method GetProposition() returns (tok: Token)
      requires Valid() && current.Some?
      modifies this
      ensures Valid()
      ensures (tok, Rest()) == ScanProposition(old(Rest()))
    {
      ghost var t := Rest();
      var start := position;
      Advance();
      while current.Some? && IsPropChar(current.value)
        invariant Valid() && start < position
        invariant PropRun(t[1..]) == (position - start - 1) + PropRun(Rest())
        decreases |input| - position
      {
        Advance();
      }
      assert input[start..position] == t[..1 + PropRun(t[1..])];
      var value := input[start..position];
      if IsPropName(value) {
        tok := Token(Proposition, value);
      } else {
        tok := Token(Invalid, value);
      }
    }

    /** The backslash branch of GetNextToken: one of the five operators,
        or an Invalid token running up to whitespace, a parenthesis or the
        end of the input. */
    method GetOperator() returns (tok: Token)
      requires Valid() && current == Some('\\')
      modifies this
      ensures Valid()
      ensures (tok, Rest()) == ScanOperator(old(Rest()))
    {
      ghost var t := Rest();
      var matched := MatchSequence(NEG_WORD);
      if matched {
        return Token(Neg, NEG_WORD);
      }
      matched := MatchSequence(WEDGE_WORD);
      if matched {
        return Token(Wedge, WEDGE_WORD);
      }
      matched := MatchSequence(VEE_WORD);
      if matched {
        return Token(Vee, VEE_WORD);
      }
      matched := MatchSequence(RIGHTARROW_WORD);
      if matched {
        return Token(RightArrow, RIGHTARROW_WORD);
      }
      matched := MatchSequence(LEFTRIGHTARROW_WORD);
      if matched {
        return Token(LeftRightArrow, LEFTRIGHTARROW_WORD);
      }

      // Invalid operator: consume up to whitespace, a parenthesis or the end.
      var start := position;
      SkipToStop();
      ghost var n := position - start;
      assert ScanOperator(t) == (Token(Invalid, t[..n]), t[n..]);
      assert input[start..position] == t[..n] && Rest() == t[n..];
      return Token(Invalid, input[start..position]);
    }

    /** Invalid-operator recovery: advances up to the next whitespace,
        parenthesis or the end of the input. */
    method SkipToStop()
      requires Valid()
      modifies this
      ensures Valid()
      ensures position == old(position) + OperatorRun(old(Rest()))
    {
      ghost var t := Rest();
      while current.Some? && !IsSpace(current.value) && current.value != '(' && current.value != ')'
        invariant Valid() && old(position) <= position && input[old(position)..] == t
        invariant OperatorRun(t) == (position - old(position)) + OperatorRun(Rest())
        decreases |input| - position
      {
        Advance();
      }
    }

    /** Produces the next token: skips whitespace, then scans one token,
        or answers Eof at the end of the input. */
    method GetNextToken() returns (tok: Token)
      requires Valid()
      modifies this
      ensures Valid() && old(position) <= position
      ensures (tok, Rest()) == Next(old(Rest()))
      ensures tok.kind != Eof ==> old(position) < position
      ensures old(current) == None ==> tok == EOF_TOKEN && position == old(position)
    {
      while current.Some?
        invariant Valid() && old(position) <= position
        invariant SkipSpace(Rest()) == SkipSpace(old(Rest()))
        decreases |input| - position
      {
        if IsSpace(current.value) {
          SkipWhitespace();
          continue;
        }
        assert SkipSpace(old(Rest())) == Rest();
        tok := ScanToken();
        return;
      }
      return EOF_TOKEN;
    }

    /** The body of GetNextToken once the cursor is on a non-space
        character: keywords, parentheses, operators (with invalid-operator
        recovery), propositions and finally a single invalid character. */
    method ScanToken() returns (tok: Token)
      requires Valid() && current.Some? && !IsSpace(current.value)
      modifies this
      ensures Valid() && old(position) < position
      ensures (tok, Rest()) == ScanAt(old(Rest()))
    {
      ghost var t := Rest();
      var matched := MatchSequence(TRUE_WORD);
      if matched {
        return Token(True, TRUE_WORD);
      }
      matched := MatchSequence(FALSE_WORD);
      if matched {
        return Token(False, FALSE_WORD);
      }
      assert t[0] == current.value;

      if current.value == '(' {
        Advance();
        return Token(OpenParen, "(");
      }
      if current.value == ')' {
        Advance();
        return Token(CloseParen, ")");
      }

      if current.value == '\\' {
        tok := GetOperator();
        return;
      }

      if IsDigit(current.value) {
        tok := GetProposition();
        return;
      }

      var invalidChar := current.value;
      Advance();
      return Token(Invalid, [invalidChar]);
    }
  }
}
