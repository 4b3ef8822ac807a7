/** The LL(1) parser object: it holds the lexer and one token of lookahead
    and descends recursively through the single FORMULA production. */
module Parsing {
  import opened Tokens
  import opened Scanner
  import opened Grammar

  /** ts from index i on is the token stream of the text s, read token by
      token: the token Next reads, then either the end of ts (after Eof) or
      the stream of what that token leaves unread. */
  ghost predicate Follows(ts: seq<Token>, i: nat, s: string)
    decreases |s|, 1
  {
    FollowsStep(ts, i, s)
  }

  ghost predicate FollowsStep(ts: seq<Token>, i: nat, s: string)
    decreases |s|, 0
  {
    var r := Next(s);
    i < |ts| && ts[i] == r.0
    && (if r.0.kind == Eof then i == |ts| - 1 else Follows(ts, i + 1, r.1))
  }

  /** The stream of s, wherever it sits in ts, follows s. */
  lemma {:induction false} SuffixFollows(ts: seq<Token>, i: nat, s: string)
    requires i <= |ts| && ts[i..] == Tokenize(s)
    ensures Follows(ts, i, s)
    decreases |s|
  {
    var r := Next(s);
    assert Tokenize(s) == TokenizeStep(s);
    assert ts[i] == ts[i..][0];
    if r.0.kind != Eof {
      assert ts[i + 1..] == ts[i..][1..];
      SuffixFollows(ts, i + 1, r.1);
    }
    assert Follows(ts, i, s) == FollowsStep(ts, i, s);
  }

  /** The lookahead after stream[pos] is the token the lexer reads next,
      and the stream after that follows what the lexer then leaves. */
  lemma StreamAdvance(stream: seq<Token>, pos: nat, s: string)
    requires Follows(stream, pos + 1, s)
    ensures pos + 1 < |stream| && stream[pos + 1] == Next(s).0
    ensures Next(s).0.kind != Eof ==> Follows(stream, pos + 2, Next(s).1)
    ensures Next(s).0.kind == Eof ==> Next(s) == (EOF_TOKEN, [])
  {
    assert Follows(stream, pos + 1, s) == FollowsStep(stream, pos + 1, s);
  }

  /** One FORMULA from index i on and then a close parenthesis. */
  function FormulaThenClose(ts: seq<Token>, i: nat): Parsed {
    match ParseAt(ts, i)
    case Fail => Fail
    case Upto(n) => CloseAt(ts, n)
  }

  /** The two alternatives of a parenthesised formula whose operator is at
      index j, in terms of FormulaThenClose. */
  lemma GroupIsUnary(ts: seq<Token>, j: nat)
    requires j < |ts| && ts[j].kind == Neg
    ensures ParseGroup(ts, j) == FormulaThenClose(ts, j + 1)
  {
  }

  lemma GroupIsBinary(ts: seq<Token>, j: nat)
    requires j < |ts| && IsBinary(ts[j].kind)
    ensures ParseAt(ts, j + 1).Fail? ==> ParseGroup(ts, j).Fail?
    ensures ParseAt(ts, j + 1).Upto? ==>
      ParseGroup(ts, j) == FormulaThenClose(ts, ParseAt(ts, j + 1).next)
  {
  }

  class Parser {
    const lexer: LexicalAnalyzer
    /** The lookahead token. */
    var current: Token
    /** The whole token stream the lexer produces from where it stood when
        the parser was built, and the index of the lookahead token in it. */
    ghost const stream: seq<Token>
    ghost var pos: nat

    ghost predicate Valid()
      reads this, lexer
    {
      lexer.Valid() && pos < |stream| && current == stream[pos]
      && (current.kind != Eof ==> Follows(stream, pos + 1, lexer.Rest()))
      && (current.kind == Eof ==> current == EOF_TOKEN && lexer.Rest() == [])
    }

    /** Reads the first token. */
    constructor (lx: LexicalAnalyzer)
      requires lx.Valid()
      modifies lx
      ensures Valid() && lexer == lx && pos == 0
      ensures stream == Tokenize(old(lx.Rest()))
    {
      ghost var s := lx.Rest();
      var t := lx.GetNextToken();
      ghost var ts := Tokenize(s);
      assert ts[0..] == ts;
      SuffixFollows(ts, 0, s);
      assert Follows(ts, 0, s) == FollowsStep(ts, 0, s);
      lexer := lx;
      current := t;
      stream := ts;
      pos := 0;
    }

    /** Consumes the lookahead token if it has kind k and reads the next one;
        otherwise reports a syntax error (false) and changes nothing. At the
        end of input the lexer keeps answering Eof, so eating Eof stays put. */
    method Eat(k: TokenType) returns (ok: bool)
      requires Valid()
      modifies this, lexer
      ensures Valid()
      ensures ok == (old(current).kind == k)
      ensures ok && k != Eof ==> pos == old(pos) + 1
      ensures !ok || k == Eof ==> pos == old(pos)
      ensures !ok ==> unchanged(this, lexer)
    {
      if current.kind != k {
        return false;
      }
      if k != Eof {
        StreamAdvance(stream, pos, lexer.Rest());
      }
      var t := lexer.GetNextToken();
      if k != Eof {
        pos := pos + 1;
      }
      current := t;
      ok := true;
    }

    /** FORMULA: a constant, a proposition, or an open parenthesis followed
        by a unary or a binary formula. Succeeds exactly when the grammar's
        recognizer does from the lookahead's index, and then stops just
        after what it recognized; any other token is a syntax error. */
    method Formula() returns (ok: bool)
      requires Valid()
      modifies this, lexer
      decreases |stream| - pos, 1
      ensures Valid()
      ensures ok == ParseAt(stream, old(pos)).Upto?
      ensures ok ==> pos == ParseAt(stream, old(pos)).next
    {
      if current.kind == True || current.kind == False {
        ok := Eat(current.kind);
      } else if current.kind == Proposition {
        ok := Eat(Proposition);
      } else if current.kind == OpenParen {
        ok := Eat(OpenParen);
        if current.kind == Neg {
          ok := Unary();
        } else if IsBinary(current.kind) {
          ok := Binary();
        } else {
          ok := false;
        }
      } else {
        ok := false;
      }
    }

    /** FORMULAUNARIA after its open parenthesis: \neg FORMULA ). */
    method Unary() returns (ok: bool)
      requires Valid() && current.kind == Neg
      modifies this, lexer
      decreases |stream| - pos, 0
      ensures Valid()
      ensures ok == ParseGroup(stream, old(pos)).Upto?
      ensures ok ==> pos == ParseGroup(stream, old(pos)).next
    {
      GroupIsUnary(stream, pos);
      ok := Eat(Neg);
      ok := ThenClose();
    }

    /** FORMULABINARIA after its open parenthesis: BINOP FORMULA FORMULA ). */
    method Binary() returns (ok: bool)
      requires Valid() && IsBinary(current.kind)
      modifies this, lexer
      decreases |stream| - pos, 0
      ensures Valid()
      ensures ok == ParseGroup(stream, old(pos)).Upto?
      ensures ok ==> pos == ParseGroup(stream, old(pos)).next
    {
      ghost var j := pos;
      GroupIsBinary(stream, j);
      ok := Eat(current.kind);
      ok := Formula();
      if ok {
        ghost var a := pos;
        assert ParseAt(stream, j + 1) == Upto(a);
        ok := ThenClose();
      }
    }

    /** The common tail of both alternatives: one FORMULA, then the close
        parenthesis. */
    method ThenClose() returns (ok: bool)
      requires Valid()
      modifies this, lexer
      decreases |stream| - pos, 2
      ensures Valid()
      ensures ok == FormulaThenClose(stream, old(pos)).Upto?
      ensures ok ==> pos == FormulaThenClose(stream, old(pos)).next
    {
      ok := Formula();
      if ok {
        ok := Eat(CloseParen);
      }
    }

    /** One FORMULA and then the end of input. */
    method Parse() returns (ok: bool)
      requires Valid()
      modifies this, lexer
      ensures Valid()
      ensures ok == AcceptsAt(stream, old(pos))
    {
      ok := Formula();
      if ok {
        ok := current.kind == Eof;
      }
    }
  }
}
