/** The line validator: the verdict on one line of text, the wrapper that
    computes it with a fresh scanner and parser, and what the verdict
    means in terms of formula trees and their printed text. */
module Validation {
  import opened Tokens
  import opened Scanner
  import opened Grammar
  import opened Parsing

  const VALID: string := "valida"
  const INVALID: string := "invalida"

  /** The verdict on one line: valid exactly when its token stream is
      accepted by the recognizer. It is always one of the two verdicts, and
      a line holding nothing but whitespace is invalid. */
  function Validate(line: string): (r: string)
    ensures r == VALID || r == INVALID
    ensures r == VALID ==> exists k :: 0 <= k < |line| && !IsSpace(line[k])
  {
    NextConsumesLexeme(line);
    assert Tokenize(line) == TokenizeStep(line);
    if Accepts(Tokenize(line)) then VALID else INVALID
  }

  /** Builds a fresh scanner and parser over the line and turns every
      outcome, a syntax error included, into one of the two verdicts. */
  method ValidateExpression(expression: string) returns (verdict: string)
    ensures verdict == Validate(expression)
    ensures verdict == VALID || verdict == INVALID
  {
    var lexer := new LexicalAnalyzer(expression);
    assert lexer.Rest() == expression;
    var parser := new Parser(lexer);
    var ok := parser.Parse();
    verdict := if ok then VALID else INVALID;
  }

  /** Acceptance: a line is valid exactly when its token stream is the
      tokens of one well-formed formula followed by Eof. */
  lemma ValidIffFormula(line: string)
    ensures Validate(line) == VALID <==>
      exists f :: WellFormed(f) && Tokenize(line) == Toks(f) + [EOF_TOKEN]
  {
    var ts := Tokenize(line);
    if Validate(line) == VALID {
      TokenizeCanonical(line);
      TokenizeEofLast(line);
      assert AllCanonical(ts);
      var f := AcceptsSound(ts);
    }
    if exists f :: WellFormed(f) && ts == Toks(f) + [EOF_TOKEN] {
      var f :| WellFormed(f) && ts == Toks(f) + [EOF_TOKEN];
      AcceptsPrefix(f, [EOF_TOKEN]);
    }
  }

  /** What may follow a printed formula without changing how it scans:
      nothing, or a character that cannot continue a proposition. */
  predicate Delimited(y: string) {
    y == [] || !IsPropChar(y[0])
  }

  lemma {:induction false} PropRunName(w: string, y: string)
    requires forall k :: 0 <= k < |w| ==> IsPropChar(w[k])
    requires Delimited(y)
    ensures PropRun(w + y) == |w|
    decreases |w|
  {
    if w == [] {
      assert w + y == y;
    } else {
      assert (w + y)[1..] == w[1..] + y;
      PropRunName(w[1..], y);
    }
  }

  /** A proposition name followed by a delimiter scans as one token. */
  lemma TokenizeName(name: string, y: string)
    requires IsPropName(name) && Delimited(y)
    ensures Tokenize(name + y) == [Token(Proposition, name)] + Tokenize(y)
  {
    var t := name + y;
    assert t[0] == name[0];
    assert t[1..] == name[1..] + y;
    PropRunName(name[1..], y);
    assert t[..|name|] == name && t[|name|..] == y;
    TokenizeWord(name, Token(Proposition, name), y);
  }

  lemma TokenizeOpen(y: string)
    ensures Tokenize("(" + y) == [OPEN] + Tokenize(y)
  {
    assert ("(" + y)[1..] == y;
    TokenizeWord("(", OPEN, y);
  }

  lemma TokenizeClose(y: string)
    ensures Tokenize(")" + y) == [CLOSE] + Tokenize(y)
  {
    assert (")" + y)[1..] == y;
    TokenizeWord(")", CLOSE, y);
  }

  lemma TokenizeConst(b: bool, y: string)
    ensures Tokenize(Print(Const(b)) + y) == Toks(Const(b)) + Tokenize(y)
  {
    KeywordPriority(y);
    if b {
      NextAt(TRUE_WORD + y);
      TokenizeWord(TRUE_WORD, Token(True, TRUE_WORD), y);
    } else {
      NextAt(FALSE_WORD + y);
      TokenizeWord(FALSE_WORD, Token(False, FALSE_WORD), y);
    }
  }

  lemma TokenizeNeg(y: string)
    ensures Tokenize(NEG_WORD + y) == [NEG] + Tokenize(y)
  {
    var t := NEG_WORD + y;
    assert t[0] == '\\';
    assert t[..|NEG_WORD|] == NEG_WORD && t[|NEG_WORD|..] == y;
    TokenizeWord(NEG_WORD, NEG, y);
  }

  lemma TokenizeOp(op: BinOp, y: string)
    ensures Tokenize(OpWord(op) + y) == [OpToken(op)] + Tokenize(y)
  {
    var w := OpWord(op);
    var t := w + y;
    assert t[0] == '\\' && t[1] == w[1];
    assert t[..|w|] == w && t[|w|..] == y;
    assert !StartsWith(t, NEG_WORD) by { assert t[1] != NEG_WORD[1]; }
    if op != And {
      assert !StartsWith(t, WEDGE_WORD) by { assert t[1] != WEDGE_WORD[1]; }
    }
    if op != And && op != Or {
      assert !StartsWith(t, VEE_WORD) by { assert t[1] != VEE_WORD[1]; }
    }
    if op == Iff {
      assert !StartsWith(t, RIGHTARROW_WORD) by { assert t[1] != RIGHTARROW_WORD[1]; }
    }
    TokenizeWord(w, OpToken(op), y);
  }

  // Regrouping concatenations, over any element type.

  lemma RegroupSix<T>(a: seq<T>, b: seq<T>, c: seq<T>, d: seq<T>, e: seq<T>, f: seq<T>)
    ensures a + b + c + d + e + f == a + (b + (c + (d + (e + f))))
  {
  }

  lemma RegroupEight<T>(a: seq<T>, b: seq<T>, c: seq<T>, d: seq<T>, e: seq<T>, f: seq<T>,
                        g: seq<T>, h: seq<T>)
    ensures a + b + c + d + e + f + g + h == a + (b + (c + (d + (e + (f + (g + h))))))
  {
    RegroupSix(a, b, c, d, e, f + g + h);
    assert f + g + h == f + (g + h);
  }

  lemma RegroupNot<T>(p: T, q: T, c: T, x: seq<T>, t: seq<T>)
    ensures [p] + ([q] + (x + ([c] + t))) == [p, q] + x + [c] + t
  {
    assert [p, q] == [p] + [q];
  }

  lemma RegroupBin<T>(p: T, q: T, c: T, u: seq<T>, w: seq<T>, t: seq<T>)
    ensures [p] + ([q] + (u + (w + ([c] + t)))) == [p, q] + u + w + [c] + t
  {
    assert [p, q] == [p] + [q];
    RegroupSix([p], [q], u, w, [c], t);
  }

  /** The printed text of a negation, regrouped from the right. */
  lemma PrintNotText(g: Formula, y: string)
    ensures Print(Not(g)) + y == "(" + (NEG_WORD + (" " + (Print(g) + (")" + y))))
  {
    RegroupSix("(", NEG_WORD, " ", Print(g), ")", y);
  }

  lemma TokenizeNotBody(g: Formula, y: string)
    requires Tokenize(Print(g) + (")" + y)) == Toks(g) + Tokenize(")" + y)
    ensures Tokenize(NEG_WORD + (" " + (Print(g) + (")" + y))))
      == [NEG] + (Toks(g) + ([CLOSE] + Tokenize(y)))
  {
    var b := " " + (Print(g) + (")" + y));
    TokenizeClose(y);
    TokenizeSpace(' ', Print(g) + (")" + y));
    TokenizeNeg(b);
  }

  lemma TokenizePrintNot(g: Formula, y: string)
    requires Tokenize(Print(g) + (")" + y)) == Toks(g) + Tokenize(")" + y)
    ensures Tokenize(Print(Not(g)) + y) == Toks(Not(g)) + Tokenize(y)
  {
    TokenizeNotBody(g, y);
    TokenizeOpen(NEG_WORD + (" " + (Print(g) + (")" + y))));
    PrintNotText(g, y);
    ToksNot(g);
    RegroupNot(OPEN, NEG, CLOSE, Toks(g), Tokenize(y));
  }

  /** The printed text of a binary formula, regrouped from the right. */
  lemma PrintBinText(op: BinOp, l: Formula, r: Formula, y: string)
    ensures Print(Bin(op, l, r)) + y
      == "(" + (OpWord(op) + (" " + (Print(l) + (" " + (Print(r) + (")" + y))))))
  {
    RegroupEight("(", OpWord(op), " ", Print(l), " ", Print(r), ")", y);
  }

  lemma TokenizeOperands(l: Formula, r: Formula, y: string)
    requires Tokenize(Print(r) + (")" + y)) == Toks(r) + Tokenize(")" + y)
    requires Tokenize(Print(l) + (" " + (Print(r) + (")" + y))))
      == Toks(l) + Tokenize(" " + (Print(r) + (")" + y)))
    ensures Tokenize(" " + (Print(l) + (" " + (Print(r) + (")" + y)))))
      == Toks(l) + (Toks(r) + ([CLOSE] + Tokenize(y)))
  {
    var a := ")" + y;
    var b := " " + (Print(r) + a);
    TokenizeClose(y);
    TokenizeSpace(' ', Print(r) + a);
    TokenizeSpace(' ', Print(l) + b);
  }

  lemma TokenizePrintBin(op: BinOp, l: Formula, r: Formula, y: string)
    requires Tokenize(Print(r) + (")" + y)) == Toks(r) + Tokenize(")" + y)
    requires Tokenize(Print(l) + (" " + (Print(r) + (")" + y))))
      == Toks(l) + Tokenize(" " + (Print(r) + (")" + y)))
    ensures Tokenize(Print(Bin(op, l, r)) + y) == Toks(Bin(op, l, r)) + Tokenize(y)
  {
    var c := " " + (Print(l) + (" " + (Print(r) + (")" + y))));
    TokenizeOperands(l, r, y);
    TokenizeOp(op, c);
    TokenizeOpen(OpWord(op) + c);
    PrintBinText(op, l, r, y);
    ToksBin(op, l, r);
    RegroupBin(OPEN, OpToken(op), CLOSE, Toks(l), Toks(r), Tokenize(y));
  }

  /** A printed formula scans back to exactly its own tokens, whatever
      delimited text follows it. */
  lemma {:induction false} TokenizePrint(f: Formula, y: string)
    requires WellFormed(f) && Delimited(y)
    ensures Tokenize(Print(f) + y) == Toks(f) + Tokenize(y)
    decreases f
  {
    match f
    case Const(b) => TokenizeConst(b, y);
    case Prop(name) => TokenizeName(name, y);
    case Not(g) =>
      TokenizePrint(g, ")" + y);
      TokenizePrintNot(g, y);
    case Bin(op, l, r) =>
      TokenizePrint(r, ")" + y);
      TokenizePrint(l, " " + (Print(r) + (")" + y)));
      TokenizePrintBin(op, l, r, y);
  }

  /** The round trip: printing any well-formed formula and validating the
      text gives the verdict valid. */
  lemma RoundTrip(f: Formula)
    requires WellFormed(f)
    ensures Validate(Print(f)) == VALID
  {
    TokenizePrint(f, []);
    assert Print(f) + [] == Print(f);
    EofForever([]);
    AcceptsPrefix(f, [EOF_TOKEN]);
  }

  /** After a complete printed formula, the line is valid exactly when
      nothing but whitespace follows. */
  lemma ValidAfterFormula(f: Formula, y: string)
    requires WellFormed(f) && Delimited(y)
    ensures Validate(Print(f) + y) == VALID <==> forall k :: 0 <= k < |y| ==> IsSpace(y[k])
  {
    TokenizePrint(f, y);
    NextConsumesLexeme(y);
    assert Tokenize(y) == TokenizeStep(y);
    AcceptsPrefix(f, Tokenize(y));
  }

  /** The first character of a printed formula is never whitespace. */
  lemma PrintStart(f: Formula)
    requires WellFormed(f)
    ensures Print(f) != [] && !IsSpace(Print(f)[0])
  {
  }

  /** Two formulas one after the other are rejected: the tokens left
      after the first complete formula are not Eof. */
  lemma TrailingRejected(f: Formula, g: Formula)
    requires WellFormed(f) && WellFormed(g)
    ensures Validate(Print(f) + " " + Print(g)) == INVALID
  {
    PrintStart(g);
    var y := " " + Print(g);
    assert Print(f) + " " + Print(g) == Print(f) + y;
    assert !IsSpace(y[1]);
    ValidAfterFormula(f, y);
  }
}
