/** The single nonterminal FORMULA of the validator's grammar: formula
    trees, the token sequence and the text each one stands for, and the
    predictive (LL(1)) recognizer that the parser object runs. */
module Grammar {
  import opened Tokens

  datatype BinOp = And | Or | Implies | Iff

  /** FORMULA := true | false | PROP | ( \neg FORMULA ) | ( BINOP FORMULA FORMULA ) */
  datatype Formula =
    | Const(b: bool)
    | Prop(name: string)
    | Not(body: Formula)
    | Bin(op: BinOp, left: Formula, right: Formula)

  function OpKind(op: BinOp): (k: TokenType)
    ensures IsBinary(k)
  {
    match op
    case And => Wedge
    case Or => Vee
    case Implies => RightArrow
    case Iff => LeftRightArrow
  }

  function OpWord(op: BinOp): string {
    match op
    case And => WEDGE_WORD
    case Or => VEE_WORD
    case Implies => RIGHTARROW_WORD
    case Iff => LEFTRIGHTARROW_WORD
  }

  /** Every proposition name in f has the shape the scanner gives them. */
  predicate WellFormed(f: Formula) {
    match f
    case Const(_) => true
    case Prop(name) => IsPropName(name)
    case Not(g) => WellFormed(g)
    case Bin(_, l, r) => WellFormed(l) && WellFormed(r)
  }

  /** The token sequence that spells f, as the scanner produces it. */
  function Toks(f: Formula): (ts: seq<Token>)
    decreases f, 1
    ensures |ts| >= 1
  {
    match f
    case Const(b) => if b then [Token(True, TRUE_WORD)] else [Token(False, FALSE_WORD)]
    case Prop(name) => [Token(Proposition, name)]
    case Not(g) => NotToks(g)
    case Bin(op, l, r) => BinToks(op, l, r)
  }

  function NotToks(g: Formula): seq<Token>
    decreases Not(g), 0
  {
    NotShape(Toks(g))
  }

  function BinToks(op: BinOp, l: Formula, r: Formula): seq<Token>
    decreases Bin(op, l, r), 0
  {
    BinShape(op, Toks(l), Toks(r))
  }

  lemma ToksNot(g: Formula)
    ensures Toks(Not(g)) == NotShape(Toks(g))
  {
    assert Toks(Not(g)) == NotToks(g);
  }

  lemma ToksBin(op: BinOp, l: Formula, r: Formula)
    ensures Toks(Bin(op, l, r)) == BinShape(op, Toks(l), Toks(r))
  {
    assert Toks(Bin(op, l, r)) == BinToks(op, l, r);
  }

  /** The text of f with a space after each operator and between operands. */
  function Print(f: Formula): string {
    match f
    case Const(b) => if b then TRUE_WORD else FALSE_WORD
    case Prop(name) => name
    case Not(g) => "(" + NEG_WORD + " " + Print(g) + ")"
    case Bin(op, l, r) => "(" + OpWord(op) + " " + Print(l) + " " + Print(r) + ")"
  }

  /** Where a recognizer stopped: nowhere (a syntax error), or just after
      what it recognized. */
  datatype Parsed = Fail | Upto(next: nat)

  /** The three kinds that make a formula on their own. */
  predicate IsAtom(k: TokenType) {
    k == True || k == False || k == Proposition
  }

  /** Recognizes one FORMULA in ts starting at index i, choosing the
      alternative from one token of lookahead and never backtracking; the
      result is the index just after it, or Fail at the first mismatch. */
  function ParseAt(ts: seq<Token>, i: nat): (r: Parsed)
    decreases |ts| - i, 1
    ensures r.Upto? ==> i < r.next <= |ts|
  {
    if i >= |ts| then Fail
    else if IsAtom(ts[i].kind) then Upto(i + 1)
    else if ts[i].kind == OpenParen then ParseGroup(ts, i + 1)
    else Fail
  }

  /** The rest of a parenthesised formula once its open parenthesis is
      consumed: the operator at index j, its operands, the close
      parenthesis. */
  function ParseGroup(ts: seq<Token>, j: nat): (r: Parsed)
    decreases |ts| - j, 0
    ensures r.Upto? ==> j < r.next <= |ts|
  {
    if j >= |ts| then Fail
    else if ts[j].kind == Neg then
      var a := ParseAt(ts, j + 1);
      if a.Fail? then Fail else CloseAt(ts, a.next)
    else if IsBinary(ts[j].kind) then
      var a := ParseAt(ts, j + 1);
      if a.Fail? then Fail
      else
        var b := ParseAt(ts, a.next);
        if b.Fail? then Fail else CloseAt(ts, b.next)
    else Fail
  }

  /** "Require and consume" the close parenthesis at index n. */
  function CloseAt(ts: seq<Token>, n: nat): (r: Parsed)
    ensures r.Upto? <==> n < |ts| && ts[n].kind == CloseParen
    ensures r.Upto? ==> r.next == n + 1
  {
    if n < |ts| && ts[n].kind == CloseParen then Upto(n + 1) else Fail
  }

  /** One FORMULA from index i on, followed by the end-of-input token. Only
      a token that can begin a formula can begin an accepted stream, and at
      least the end-of-input token follows it. */
  predicate AcceptsAt(ts: seq<Token>, i: nat): (r: bool)
    ensures r ==> i + 1 < |ts| && ts[i].kind in {True, False, Proposition, OpenParen}
  {
    match ParseAt(ts, i)
    case Fail => false
    case Upto(n) => n < |ts| && ts[n].kind == Eof
  }

  /** The whole stream is one FORMULA followed by the end-of-input token;
      so an accepted stream holds at least two tokens and does not start
      with Eof. */
  predicate Accepts(ts: seq<Token>): (r: bool)
    ensures r ==> |ts| >= 2 && ts[0].kind != Eof
  {
    AcceptsAt(ts, 0)
  }

  /** ts holds the sequence w from index i on. */
  predicate At(ts: seq<Token>, i: nat, w: seq<Token>) {
    i + |w| <= |ts| && forall k :: 0 <= k < |w| ==> ts[i + k] == w[k]
  }

  /** A piece of a sequence that ts holds is held by ts at the matching place. */
  lemma AtSub(ts: seq<Token>, i: nat, v: seq<Token>, a: nat, b: nat)
    requires At(ts, i, v) && a <= b <= |v|
    ensures At(ts, i + a, v[a..b])
  {
    forall k | 0 <= k < b - a ensures ts[i + a + k] == v[a..b][k] {
      assert ts[i + (a + k)] == v[a + k];
    }
  }

  const OPEN := Token(OpenParen, "(")
  const CLOSE := Token(CloseParen, ")")
  const NEG := Token(Neg, NEG_WORD)

  function OpToken(op: BinOp): Token {
    Token(OpKind(op), OpWord(op))
  }

  /** The shapes of the two compound spellings, over any operand tokens. */
  function NotShape(w: seq<Token>): seq<Token> {
    [OPEN, NEG] + w + [CLOSE]
  }

  function BinShape(op: BinOp, u: seq<Token>, w: seq<Token>): seq<Token> {
    [OPEN, OpToken(op)] + u + w + [CLOSE]
  }

  // Taking the tokens of a compound formula apart, and putting them back;
  // stated over any token sequences so that no proof here unfolds Toks.

  lemma NotParts(w: seq<Token>, ts: seq<Token>, i: nat)
    requires At(ts, i, NotShape(w))
    ensures i + 1 < |ts| && ts[i] == OPEN && ts[i + 1] == NEG
    ensures At(ts, i + 2, w)
    ensures i + 2 + |w| < |ts| && ts[i + 2 + |w|] == CLOSE
  {
    var v := NotShape(w);
    assert ts[i + 0] == v[0] && ts[i + 1] == v[1] && ts[i + (2 + |w|)] == v[2 + |w|];
    AtSub(ts, i, v, 2, 2 + |w|);
    assert v[2..2 + |w|] == w;
  }

  lemma BinParts(op: BinOp, u: seq<Token>, w: seq<Token>, ts: seq<Token>, i: nat)
    requires At(ts, i, BinShape(op, u, w))
    ensures i + 1 < |ts| && ts[i] == OPEN && ts[i + 1] == OpToken(op)
    ensures At(ts, i + 2, u) && At(ts, i + 2 + |u|, w)
    ensures i + 2 + |u| + |w| < |ts| && ts[i + 2 + |u| + |w|] == CLOSE
  {
    var v := BinShape(op, u, w);
    var j := 2 + |u|;
    assert ts[i + 0] == v[0] && ts[i + 1] == v[1] && ts[i + (j + |w|)] == v[j + |w|];
    AtSub(ts, i, v, 2, j);
    assert v[2..j] == u;
    AtSub(ts, i, v, j, j + |w|);
    assert v[j..j + |w|] == w;
  }

  lemma NotJoin(w: seq<Token>, ts: seq<Token>, i: nat)
    requires i + 1 < |ts| && ts[i] == OPEN && ts[i + 1] == NEG
    requires At(ts, i + 2, w)
    requires i + 2 + |w| < |ts| && ts[i + 2 + |w|] == CLOSE
    ensures At(ts, i, NotShape(w))
  {
    var v := NotShape(w);
    forall k | 0 <= k < |v| ensures ts[i + k] == v[k] {
      if 2 <= k < 2 + |w| {
        assert ts[i + 2 + (k - 2)] == w[k - 2];
      }
    }
  }

  lemma BinJoin(op: BinOp, u: seq<Token>, w: seq<Token>, ts: seq<Token>, i: nat)
    requires i + 1 < |ts| && ts[i] == OPEN && ts[i + 1] == OpToken(op)
    requires At(ts, i + 2, u) && At(ts, i + 2 + |u|, w)
    requires i + 2 + |u| + |w| < |ts| && ts[i + 2 + |u| + |w|] == CLOSE
    ensures At(ts, i, BinShape(op, u, w))
  {
    var v := BinShape(op, u, w);
    var j := 2 + |u|;
    forall k | 0 <= k < |v| ensures ts[i + k] == v[k] {
      if 2 <= k < j {
        assert ts[i + 2 + (k - 2)] == u[k - 2];
      } else if j <= k < j + |w| {
        assert ts[i + j + (k - j)] == w[k - j];
      }
    }
  }

  // One unfolding of the recognizer for each kind of compound formula.

  lemma ParseNegStep(ts: seq<Token>, i: nat, j: nat)
    requires i + 1 < |ts| && ts[i].kind == OpenParen && ts[i + 1].kind == Neg
    requires ParseAt(ts, i + 2) == Upto(j) && j < |ts| && ts[j].kind == CloseParen
    ensures ParseAt(ts, i) == Upto(j + 1)
  {
    assert ParseGroup(ts, i + 1) == Upto(j + 1);
  }

  lemma ParseBinStep(ts: seq<Token>, i: nat, j: nat, k: nat)
    requires i + 1 < |ts| && ts[i].kind == OpenParen && IsBinary(ts[i + 1].kind)
    requires ParseAt(ts, i + 2) == Upto(j) && ParseAt(ts, j) == Upto(k)
    requires k < |ts| && ts[k].kind == CloseParen
    ensures ParseAt(ts, i) == Upto(k + 1)
  {
    assert ParseGroup(ts, i + 1) == Upto(k + 1);
  }

  /** What a successful recognition of a compound formula at i is made of:
      the open parenthesis, the operator and the first operand. */
  lemma ParseCompound(ts: seq<Token>, i: nat)
    requires ParseAt(ts, i).Upto? && !IsAtom(ts[i].kind)
    ensures i + 1 < |ts| && ts[i].kind == OpenParen
    ensures ts[i + 1].kind == Neg || IsBinary(ts[i + 1].kind)
    ensures ParseAt(ts, i + 2).Upto? && ParseGroup(ts, i + 1) == ParseAt(ts, i)
  {}

  /** The rest of a successful negation at i, once its operand ends at j. */
  lemma ParseNegInv(ts: seq<Token>, i: nat, j: nat)
    requires ParseAt(ts, i).Upto? && i + 1 < |ts| && ts[i].kind == OpenParen && ts[i + 1].kind == Neg
    requires ParseAt(ts, i + 2) == Upto(j)
    ensures j < |ts| && ts[j].kind == CloseParen && ParseAt(ts, i) == Upto(j + 1)
  {
    assert ParseAt(ts, i) == ParseGroup(ts, i + 1);
  }

  /** The rest of a successful binary formula at i, once its first operand
      ends at j. */
  lemma ParseBinInv(ts: seq<Token>, i: nat, j: nat)
    requires ParseAt(ts, i).Upto? && i + 1 < |ts| && ts[i].kind == OpenParen && IsBinary(ts[i + 1].kind)
    requires ParseAt(ts, i + 2) == Upto(j)
    ensures ParseAt(ts, j).Upto?
    ensures var k := ParseAt(ts, j).next;
      k < |ts| && ts[k].kind == CloseParen && ParseAt(ts, i) == Upto(k + 1)
  {
    assert ParseAt(ts, i) == ParseGroup(ts, i + 1);
  }

  /** The binary operator a scanner-shaped operator token spells. */
  function OpOf(t: Token): (op: BinOp)
    requires Canonical(t) && IsBinary(t.kind)
    ensures OpToken(op) == t
  {
    if t.kind == Wedge then And
    else if t.kind == Vee then Or
    else if t.kind == RightArrow then Implies
    else Iff
  }

  /** Number of tokens in the spelling of f. */
  function Size(f: Formula): (n: nat)
    ensures n >= 1
  {
    match f
    case Const(_) => 1
    case Prop(_) => 1
    case Not(g) => Size(g) + 3
    case Bin(_, l, r) => Size(l) + Size(r) + 3
  }

  /** The token an atomic formula is spelled with. */
  function AtomToken(f: Formula): Token
    requires f.Const? || f.Prop?
  {
    if f.Prop? then Token(Proposition, f.name)
    else if f.b then Token(True, TRUE_WORD) else Token(False, FALSE_WORD)
  }

  /** ts spells f from index i on, token by token: the reference reading of
      the grammar, production by production. */
  predicate Spells(ts: seq<Token>, i: nat, f: Formula)
    decreases f, 1
  {
    match f
    case Const(_) => i < |ts| && ts[i] == AtomToken(f)
    case Prop(_) => i < |ts| && ts[i] == AtomToken(f)
    case Not(g) => SpellsNot(ts, i, g)
    case Bin(op, l, r) => SpellsBin(ts, i, op, l, r)
  }

  /** ( \neg g ) from index i on. */
  predicate SpellsNot(ts: seq<Token>, i: nat, g: Formula)
    decreases Not(g), 0
  {
    i + 1 < |ts| && ts[i] == OPEN && ts[i + 1] == NEG && Spells(ts, i + 2, g)
    && i + 2 + Size(g) < |ts| && ts[i + 2 + Size(g)] == CLOSE
  }

  /** ( op l r ) from index i on. */
  predicate SpellsBin(ts: seq<Token>, i: nat, op: BinOp, l: Formula, r: Formula)
    decreases Bin(op, l, r), 0
  {
    i + 1 < |ts| && ts[i] == OPEN && ts[i + 1] == OpToken(op) && Spells(ts, i + 2, l)
    && Spells(ts, i + 2 + Size(l), r)
    && i + 2 + Size(l) + Size(r) < |ts| && ts[i + 2 + Size(l) + Size(r)] == CLOSE
  }

  lemma {:induction false} SizeToks(f: Formula)
    ensures |Toks(f)| == Size(f)
    decreases f
  {
    match f
    case Const(_) =>
    case Prop(_) =>
    case Not(g) => SizeToks(g);
    case Bin(_, l, r) => SizeToks(l); SizeToks(r);
  }

  /** Holding the token sequence of f is spelling f. */
  lemma {:induction false} AtSpells(f: Formula, ts: seq<Token>, i: nat)
    requires At(ts, i, Toks(f))
    ensures Spells(ts, i, f)
    decreases f
  {
    match f
    case Const(_) => AtAtom(f, ts, i);
    case Prop(_) => AtAtom(f, ts, i);
    case Not(g) =>
      AtNotParts(g, ts, i);
      AtSpells(g, ts, i + 2);
    case Bin(op, l, r) =>
      AtBinParts(op, l, r, ts, i);
      AtSpells(l, ts, i + 2);
      AtSpells(r, ts, i + 2 + Size(l));
  }

  lemma AtAtom(f: Formula, ts: seq<Token>, i: nat)
    requires (f.Const? || f.Prop?) && At(ts, i, Toks(f))
    ensures Spells(ts, i, f)
  {
    assert Toks(f) == [AtomToken(f)];
    assert ts[i + 0] == Toks(f)[0];
  }

  lemma AtNotParts(g: Formula, ts: seq<Token>, i: nat)
    requires At(ts, i, Toks(Not(g)))
    ensures i + 1 < |ts| && ts[i] == OPEN && ts[i + 1] == NEG && At(ts, i + 2, Toks(g))
    ensures i + 2 + Size(g) < |ts| && ts[i + 2 + Size(g)] == CLOSE
  {
    assert Toks(Not(g)) == NotShape(Toks(g));
    SizeToks(g);
    NotParts(Toks(g), ts, i);
  }

  lemma AtBinParts(op: BinOp, l: Formula, r: Formula, ts: seq<Token>, i: nat)
    requires At(ts, i, Toks(Bin(op, l, r)))
    ensures i + 1 < |ts| && ts[i] == OPEN && ts[i + 1] == OpToken(op)
    ensures At(ts, i + 2, Toks(l)) && At(ts, i + 2 + Size(l), Toks(r))
    ensures i + 2 + Size(l) + Size(r) < |ts| && ts[i + 2 + Size(l) + Size(r)] == CLOSE
  {
    SizeToks(l);
    SizeToks(r);
    assert Toks(Bin(op, l, r)) == BinShape(op, Toks(l), Toks(r));
    BinParts(op, Toks(l), Toks(r), ts, i);
  }

  lemma {:induction false} SpellsAt(f: Formula, ts: seq<Token>, i: nat)
    requires Spells(ts, i, f)
    ensures At(ts, i, Toks(f))
    decreases f
  {
    match f
    case Const(_) => SpellsAtAtom(f, ts, i);
    case Prop(_) => SpellsAtAtom(f, ts, i);
    case Not(g) =>
      SpellsAt(g, ts, i + 2);
      SpellsAtNot(g, ts, i);
    case Bin(op, l, r) =>
      SpellsAt(r, ts, i + 2 + Size(l));
      SpellsAt(l, ts, i + 2);
      SpellsAtBin(op, l, r, ts, i);
  }

  lemma SpellsAtAtom(f: Formula, ts: seq<Token>, i: nat)
    requires (f.Const? || f.Prop?) && Spells(ts, i, f)
    ensures At(ts, i, Toks(f))
  {
    assert Toks(f) == [AtomToken(f)];
  }

  lemma SpellsAtNot(g: Formula, ts: seq<Token>, i: nat)
    requires Spells(ts, i, Not(g)) && At(ts, i + 2, Toks(g))
    ensures At(ts, i, Toks(Not(g)))
  {
    SizeToks(g);
    NotJoin(Toks(g), ts, i);
    assert Toks(Not(g)) == NotShape(Toks(g));
  }

  lemma SpellsAtBin(op: BinOp, l: Formula, r: Formula, ts: seq<Token>, i: nat)
    requires Spells(ts, i, Bin(op, l, r))
    requires At(ts, i + 2, Toks(l)) && At(ts, i + 2 + Size(l), Toks(r))
    ensures At(ts, i, Toks(Bin(op, l, r)))
  {
    SizeToks(l);
    SizeToks(r);
    BinJoin(op, Toks(l), Toks(r), ts, i);
    assert Toks(Bin(op, l, r)) == BinShape(op, Toks(l), Toks(r));
  }

  /** Completeness: wherever ts spells a formula, the recognizer consumes
      exactly its tokens, whatever follows. */
  lemma {:induction false} SpellsParse(f: Formula, ts: seq<Token>, i: nat)
    requires Spells(ts, i, f)
    ensures ParseAt(ts, i) == Upto(i + Size(f))
    decreases f, 1
  {
    match f
    case Const(_) =>
    case Prop(_) =>
    case Not(g) => SpellsParseNot(g, ts, i);
    case Bin(op, l, r) => SpellsParseBin(op, l, r, ts, i);
  }

  lemma {:induction false} SpellsParseNot(g: Formula, ts: seq<Token>, i: nat)
    requires SpellsNot(ts, i, g)
    ensures ParseAt(ts, i) == Upto(i + Size(Not(g)))
    decreases Not(g), 0
  {
    SpellsParse(g, ts, i + 2);
    ParseNegStep(ts, i, i + 2 + Size(g));
  }

  lemma {:induction false} SpellsParseBin(op: BinOp, l: Formula, r: Formula, ts: seq<Token>, i: nat)
    requires SpellsBin(ts, i, op, l, r)
    ensures ParseAt(ts, i) == Upto(i + Size(Bin(op, l, r)))
    decreases Bin(op, l, r), 0
  {
    SpellsParse(l, ts, i + 2);
    SpellsParse(r, ts, i + 2 + Size(l));
    SpellsBinStep(op, l, r, ts, i);
  }

  lemma SpellsBinStep(op: BinOp, l: Formula, r: Formula, ts: seq<Token>, i: nat)
    requires SpellsBin(ts, i, op, l, r)
    requires ParseAt(ts, i + 2) == Upto(i + 2 + Size(l))
    requires ParseAt(ts, i + 2 + Size(l)) == Upto(i + 2 + Size(l) + Size(r))
    ensures ParseAt(ts, i) == Upto(i + Size(Bin(op, l, r)))
  {
    ParseBinStep(ts, i, i + 2 + Size(l), i + 2 + Size(l) + Size(r));
  }


  /** Completeness stated on the token sequence of a formula. */
  lemma ParseComplete(f: Formula, ts: seq<Token>, i: nat)
    requires At(ts, i, Toks(f))
    ensures ParseAt(ts, i) == Upto(i + |Toks(f)|)
  {
    AtSpells(f, ts, i);
    SpellsParse(f, ts, i);
    SizeToks(f);
  }

  predicate AllCanonical(ts: seq<Token>) {
    forall k {:trigger Canonical(ts[k])} :: 0 <= k < |ts| ==> Canonical(ts[k])
  }

  /** Soundness: what the recognizer consumes from a stream of
      scanner-shaped tokens spells a well-formed formula. */
  lemma {:induction false} ParseSpells(ts: seq<Token>, i: nat) returns (f: Formula)
    requires AllCanonical(ts)
    requires ParseAt(ts, i).Upto?
    ensures WellFormed(f) && Spells(ts, i, f)
    ensures ParseAt(ts, i) == Upto(i + Size(f))
    decreases |ts| - i, 1
  {
    if IsAtom(ts[i].kind) {
      f := SoundAtom(ts, i);
    } else {
      ParseCompound(ts, i);
      if ts[i + 1].kind == Neg {
        f := ParseSpellsNot(ts, i);
      } else {
        f := ParseSpellsBin(ts, i);
      }
    }
  }

  lemma {:induction false} ParseSpellsNot(ts: seq<Token>, i: nat) returns (f: Formula)
    requires AllCanonical(ts) && ParseAt(ts, i).Upto?
    requires i + 1 < |ts| && ts[i].kind == OpenParen && ts[i + 1].kind == Neg
    requires ParseAt(ts, i + 2).Upto?
    ensures WellFormed(f) && Spells(ts, i, f)
    ensures ParseAt(ts, i) == Upto(i + Size(f))
    decreases |ts| - i, 0
  {
    var l := ParseSpells(ts, i + 2);
    ParseNegInv(ts, i, i + 2 + Size(l));
    f := SoundNot(ts, i, l);
  }

  lemma {:induction false} ParseSpellsBin(ts: seq<Token>, i: nat) returns (f: Formula)
    requires AllCanonical(ts) && ParseAt(ts, i).Upto?
    requires i + 1 < |ts| && ts[i].kind == OpenParen && IsBinary(ts[i + 1].kind)
    requires ParseAt(ts, i + 2).Upto?
    ensures WellFormed(f) && Spells(ts, i, f)
    ensures ParseAt(ts, i) == Upto(i + Size(f))
    decreases |ts| - i, 0
  {
    var l := ParseSpells(ts, i + 2);
    var j := i + 2 + Size(l);
    ParseBinInv(ts, i, j);
    var r := ParseSpells(ts, j);
    f := SoundBin(ts, i, l, r);
  }


  /** Soundness stated on the token sequence of a formula. */
  lemma ParseSound(ts: seq<Token>, i: nat) returns (f: Formula)
    requires AllCanonical(ts)
    requires ParseAt(ts, i).Upto?
    ensures WellFormed(f) && At(ts, i, Toks(f))
    ensures ParseAt(ts, i) == Upto(i + |Toks(f)|)
  {
    f := ParseSpells(ts, i);
    SpellsAt(f, ts, i);
    SizeToks(f);
  }

  lemma SoundAtom(ts: seq<Token>, i: nat) returns (f: Formula)
    requires AllCanonical(ts) && i < |ts| && IsAtom(ts[i].kind)
    ensures WellFormed(f) && Spells(ts, i, f) && ParseAt(ts, i) == Upto(i + Size(f))
  {
    var t := ts[i];
    assert Canonical(t);
    f := if t.kind == True then Const(true) else if t.kind == False then Const(false) else Prop(t.value);
  }

  lemma SoundNot(ts: seq<Token>, i: nat, l: Formula) returns (f: Formula)
    requires AllCanonical(ts) && WellFormed(l)
    requires i + 1 < |ts| && ts[i].kind == OpenParen && ts[i + 1].kind == Neg
    requires Spells(ts, i + 2, l)
    requires i + 2 + Size(l) < |ts| && ts[i + 2 + Size(l)].kind == CloseParen
    ensures f == Not(l) && WellFormed(f) && Spells(ts, i, f)
  {
    assert Canonical(ts[i]) && Canonical(ts[i + 1]) && Canonical(ts[i + 2 + Size(l)]);
    f := Not(l);
  }

  lemma SoundBin(ts: seq<Token>, i: nat, l: Formula, r: Formula) returns (f: Formula)
    requires AllCanonical(ts) && WellFormed(l) && WellFormed(r)
    requires i + 1 < |ts| && ts[i].kind == OpenParen && IsBinary(ts[i + 1].kind)
    requires Spells(ts, i + 2, l) && Spells(ts, i + 2 + Size(l), r)
    requires i + 2 + Size(l) + Size(r) < |ts| && ts[i + 2 + Size(l) + Size(r)].kind == CloseParen
    ensures f.Bin? && f.left == l && f.right == r && WellFormed(f) && Spells(ts, i, f)
  {
    assert Canonical(ts[i]) && Canonical(ts[i + 1]) && Canonical(ts[i + 2 + Size(l) + Size(r)]);
    f := Bin(OpOf(ts[i + 1]), l, r);
  }

  /** The tokens of f followed by anything: the recognizer reads exactly
      the tokens of f, so what follows decides acceptance. */
  lemma AcceptsPrefix(f: Formula, more: seq<Token>)
    requires |more| >= 1
    ensures ParseAt(Toks(f) + more, 0) == Upto(|Toks(f)|)
    ensures Accepts(Toks(f) + more) <==> more[0].kind == Eof
  {
    var ts := Toks(f) + more;
    forall k | 0 <= k < |Toks(f)| ensures ts[0 + k] == Toks(f)[k] {}
    ParseComplete(f, ts, 0);
    assert ts[|Toks(f)|] == more[0];
  }

  /** A stream that ends with its only Eof and is accepted is the token
      sequence of one well-formed formula followed by Eof. */
  lemma AcceptsSound(ts: seq<Token>) returns (f: Formula)
    requires AllCanonical(ts) && Accepts(ts)
    requires forall i :: 0 <= i < |ts| - 1 ==> ts[i].kind != Eof
    ensures WellFormed(f) && ts == Toks(f) + [EOF_TOKEN]
  {
    f := ParseSound(ts, 0);
    var n := |Toks(f)|;
    assert ts[n].kind == Eof && n == |ts| - 1;
    assert Canonical(ts[n]);
    forall k | 0 <= k < |ts| ensures ts[k] == (Toks(f) + [EOF_TOKEN])[k] {
      if k < n {
        assert ts[0 + k] == Toks(f)[k];
      }
    }
  }
}
