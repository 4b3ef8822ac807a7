/** The token vocabulary of the propositional-formula validator and the
    character classes its scanner tests. */
module Tokens {

  datatype Option<+T> = None | Some(value: T)

  /** The closed set of token kinds the scanner can produce. */
  datatype TokenType =
    | True | False | Proposition
    | OpenParen | CloseParen
    | Neg | Wedge | Vee | RightArrow | LeftRightArrow
    | Eof | Invalid

  /** A token: its kind and the text it was scanned from (empty for Eof). */
  datatype Token = Token(kind: TokenType, value: string)

  const EOF_TOKEN := Token(Eof, "")

  // The literal spellings the scanner recognises.
  const TRUE_WORD: string := "true"
  const FALSE_WORD: string := "false"
  const NEG_WORD: string := "\\neg"
  const WEDGE_WORD: string := "\\wedge"
  const VEE_WORD: string := "\\vee"
  const RIGHTARROW_WORD: string := "\\rightarrow"
  const LEFTRIGHTARROW_WORD: string := "\\leftrightarrow"

  /** The four kinds that open a binary formula. */
  predicate IsBinary(k: TokenType) {
    k == Wedge || k == Vee || k == RightArrow || k == LeftRightArrow
  }

  /** Python's str.isspace restricted to ASCII: tab, line feed, vertical
      tab, form feed, carriage return, the four separators 0x1c..0x1f and
      the space. */
  predicate IsSpace(c: char) {
    9 <= c as int <= 13 || 28 <= c as int <= 32
  }

  /** str.isdigit restricted to ASCII. */
  predicate IsDigit(c: char) {
    '0' <= c <= '9'
  }

  /** str.isalpha() and str.islower() restricted to ASCII. */
  predicate IsLower(c: char) {
    'a' <= c <= 'z'
  }

  /** A character that may continue a proposition. */
  predicate IsPropChar(c: char) {
    IsDigit(c) || IsLower(c)
  }

  /** The shape [0-9][0-9a-z]* of a proposition name, checked structurally. */
  predicate IsPropName(v: string) {
    |v| >= 1 && IsDigit(v[0]) && forall k :: 1 <= k < |v| ==> IsPropChar(v[k])
  }

  /** What a token produced by the scanner looks like: fixed spellings for
      keywords, parentheses and operators, a proposition-shaped name for a
      proposition, no text for Eof and some text for Invalid. */
  predicate Canonical(t: Token) {
    match t.kind
    case True => t.value == TRUE_WORD
    case False => t.value == FALSE_WORD
    case Proposition => IsPropName(t.value)
    case OpenParen => t.value == "("
    case CloseParen => t.value == ")"
    case Neg => t.value == NEG_WORD
    case Wedge => t.value == WEDGE_WORD
    case Vee => t.value == VEE_WORD
    case RightArrow => t.value == RIGHTARROW_WORD
    case LeftRightArrow => t.value == LEFTRIGHTARROW_WORD
    case Eof => t.value == ""
    case Invalid => t.value != ""
  }
}
