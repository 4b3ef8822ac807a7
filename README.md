# Propositional-formula validator, modelled in Dafny

The validator reads one line of text and answers `valida` when the line is a
well-formed propositional formula in parenthesised prefix notation with
LaTeX operator names, and `invalida` otherwise:

    FORMULA := true | false | PROP | ( \neg FORMULA ) | ( BINOP FORMULA FORMULA )
    BINOP   := \wedge | \vee | \rightarrow | \leftrightarrow
    PROP    := [0-9][0-9a-z]*

It is built from two parts and a wrapper. The hand-written scanner
(`LexicalAnalyzer`) walks the text with a cursor and never fails: text it
cannot read becomes an `INVALID` token. The LL(1) recursive-descent `Parser`
keeps one lookahead token, stops at the first mismatch and requires the end
of input after the formula. `validate_expression` turns every outcome into one
of the two verdicts.

The model follows the code's own shape:

- `tokens.dfy` (module `Tokens`): the token kinds, tokens, the literal
  spellings and the ASCII character classes the scanner tests.
- `scanner.dfy` (module `Scanner`):
  - a pure specification of one scanning step on the unread text (`Next`)
    and of the whole token stream (`Tokenize`);
  - the `LexicalAnalyzer` class with its `position` and `current` fields,
    whose methods, loops included, are proved against that specification;
  - lemmas about the scanner: keyword priority, invalid-operator recovery,
    propositions, the end of input, and that only whitespace is lost.
- `grammar.dfy` (module `Grammar`):
  - formula trees, the tokens and the text that spell them;
  - the predictive recognizer (`ParseAt`) that the parser object runs;
  - its completeness and soundness with respect to the formula trees.
- `parsing.dfy` (module `Parsing`): the `Parser` class. The ghost fields
  `stream` and `pos` locate its lookahead in the lexer's token stream, and
  each method is proved to do exactly what the recognizer does from there.
- `validation.dfy` (module `Validation`):
  - the verdict (`Validate`) and the wrapper `ValidateExpression`, proved
    equal to it;
  - the acceptance theorem: a line is valid iff its token stream is one
    well-formed formula's tokens followed by Eof;
  - the round trip from printed formulas, and the rejection of trailing text.

A syntax error in the source (`error`, and the `SyntaxError` of `parse`) is a
`false` result in the model. The wrapper's `except` clause is the `false`
branch that yields `invalida`.

## Model

| member | source | states |
|---|---|---|
| `Scanner.LexicalAnalyzer.constructor` | validador.py:34-37 | the cursor is at 0 and `current` is the first character, or none for empty input |
| `Scanner.LexicalAnalyzer.Advance` | validador.py:39-45 | the position grows by one; `current` is the character there, or none past the end; the unread text loses its first character |
| `Scanner.LexicalAnalyzer.SkipWhitespace` | validador.py:47-50 | the unread text afterwards is the old unread text without its leading whitespace |
| `Scanner.LexicalAnalyzer.MatchSequence` | validador.py:110-120 | answers true iff the unread text starts with the word; then it advances by exactly the word's length and resynchronises `current`; otherwise position and `current` are unchanged |
| `Scanner.LexicalAnalyzer.GetProposition` | validador.py:122-139 | the token and the remaining text are those of the proposition step `ScanProposition` on the unread text |
| `Scanner.LexicalAnalyzer.GetOperator` | validador.py:76-96 | after a backslash: the five operators in order, else an Invalid token; token and remaining text equal `ScanOperator` on the unread text |
| `Scanner.LexicalAnalyzer.SkipToStop` | validador.py:93-95 | advances by exactly the length of the longest prefix free of whitespace and parentheses |
| `Scanner.LexicalAnalyzer.ScanToken` | validador.py:59-105 | on a non-space character: the token and the remaining text equal `ScanAt`, and at least one character is consumed |
| `Scanner.LexicalAnalyzer.GetNextToken` | validador.py:52-108 | the token and the remaining text equal `Next` of the old unread text; the position never decreases; a non-Eof token consumes a character; at the end it answers Eof and stays put |
| `Scanner.ScanOperator` | validador.py:76-96 | the lexeme followed by the remaining text is the input; the lexeme is non-empty and has the shape its kind demands |
| `Scanner.ScanProposition` | validador.py:122-139 | the lexeme followed by the remaining text is the input; the lexeme is non-empty and has the shape its kind demands |
| `Scanner.ScanAt` | validador.py:59-105 | the lexeme followed by the remaining text is the input; the token is never Eof, and its value is non-empty and has the shape its kind demands |
| `Scanner.Next` | validador.py:52-108 | a non-Eof token leaves strictly less text; Eof leaves nothing; every token has the shape its kind demands |
| `Scanner.NextConsumesLexeme` | validador.py:52-108 | the token's value is exactly the text consumed after the leading whitespace, the rest is a suffix of the input, and Eof comes exactly when only whitespace remains |
| `Scanner.Tokenize` | validador.py:145-154 | the stream the parser pulls from the lexer is non-empty and ends with Eof |
| `Scanner.TokenizeEofLast` | validador.py:107-108 | no token before the last one is Eof |
| `Scanner.TokenizeCanonical` | validador.py:52-108 | every token of the stream has the shape its kind demands |
| `Scanner.EofForever` | validador.py:107-108 | once Eof is produced, the next step again produces Eof and reads nothing; the stream is then just Eof |
| `Scanner.TokenizeSpace` | validador.py:54-57 | a leading whitespace character changes neither the next token nor the stream |
| `Scanner.KeywordPriority` | validador.py:59-64 | `true` and `false` are recognised as bare prefixes, whatever follows them |
| `Scanner.TruexScan` | validador.py:59-105 | `truex` scans as the keyword true, then the invalid token `x`, then Eof |
| `Scanner.PropositionAlwaysValid` | validador.py:122-139 | text starting with a digit always yields a Proposition token, never Invalid, and no digit or lowercase letter follows it |
| `Scanner.InvalidOperatorRecovery` | validador.py:76-96 | after a backslash, Invalid comes exactly when none of the five operator words matches; it then starts at the backslash, holds no whitespace or parenthesis, and is followed by one or by the end |
| `Scanner.UnknownCharacter` | validador.py:102-105 | text not starting with a backslash yields Invalid exactly when it starts with no keyword, no parenthesis and no digit; the token is then that one character and the scan resumes right after it |
| `Scanner.InvalidTokens` | validador.py:92-105 | every Invalid token is either an unrecognised operator running from a backslash up to whitespace, a parenthesis or the end, or one unknown character that is neither a digit nor a parenthesis |
| `Scanner.LexemeUnspaced` | validador.py:59-105 | no token value contains whitespace |
| `Scanner.LexemesTokenize` | validador.py:52-108 | the token values, concatenated in order, are the input with its whitespace removed |
| `Grammar.ParseAt` | validador.py:166-194 | recognising one formula from index i either fails or stops strictly after i and within the stream |
| `Grammar.ParseGroup` | validador.py:176-192 | after an open parenthesis, recognition fails or stops strictly further on and within the stream |
| `Grammar.ParseCompound` | validador.py:176-194 | a successful compound formula starts with an open parenthesis followed by `\neg` or a binary operator; anything else is rejected |
| `Grammar.ParseComplete` | validador.py:166-194 | wherever the stream holds a formula's tokens, the recognizer reads exactly those tokens, whatever follows |
| `Grammar.ParseSound` | validador.py:166-194 | whatever the recognizer accepts from index i is the token sequence of a well-formed formula, and it reads exactly that sequence |
| `Grammar.AcceptsAt` | validador.py:158-164 | one formula and then the end of input from index i; an accepted stream begins with `true`, `false`, a proposition or an open parenthesis, and Eof follows it |
| `Grammar.Accepts` | validador.py:158-164 | the whole stream is one formula and then the end of input; it thus holds at least two tokens and does not start with Eof |
| `Grammar.AcceptsPrefix` | validador.py:158-164 | after a formula's tokens, the stream is accepted iff the next token is Eof |
| `Grammar.AcceptsSound` | validador.py:158-164 | an accepted stream whose only Eof is its last token is one well-formed formula's tokens followed by Eof |
| `Parsing.Parser.constructor` | validador.py:143-145 | the lookahead is the first token of the lexer's stream, and the stream is the one the lexer's unread text yields |
| `Parsing.Parser.Eat` | validador.py:151-156 | succeeds iff the lookahead has the expected kind; then it moves one token on (and stays on Eof); otherwise neither the parser nor the lexer changes |
| `Parsing.Parser.Formula` | validador.py:166-194 | succeeds iff the recognizer accepts one formula at the lookahead, and then stops where the recognizer stops |
| `Parsing.Parser.Unary` | validador.py:180-184 | the negation branch does exactly what the recognizer does after the open parenthesis |
| `Parsing.Parser.Binary` | validador.py:185-190 | the binary branch does exactly what the recognizer does after the open parenthesis |
| `Parsing.Parser.ThenClose` | validador.py:183-190 | one formula and then the close parenthesis, exactly as the recognizer reads them |
| `Parsing.Parser.Parse` | validador.py:158-164 | succeeds iff one formula and then Eof follow the lookahead |
| `Validation.Validate` | validador.py:196-204 | the verdict on a line is always `valida` or `invalida`, and a line holding only whitespace is `invalida` |
| `Validation.ValidateExpression` | validador.py:196-204 | every line gets exactly one of the two verdicts, the one `Validate` gives; so the verdict depends only on the line |
| `Validation.ValidIffFormula` | validador.py:158-194 | a line is valid iff its token stream is a well-formed formula's tokens followed by Eof |
| `Validation.TokenizePrint` | validador.py:52-108 | a printed formula scans back to exactly its own tokens, followed by the stream of any delimited text after it |
| `Validation.RoundTrip` | validador.py:196-204 | printing any well-formed formula and validating the text gives `valida` |
| `Validation.ValidAfterFormula` | validador.py:158-164 | after a printed formula, text that is empty or does not start with a digit or a lowercase letter leaves the line valid iff that text is only whitespace |
| `Validation.TrailingRejected` | validador.py:162-163 | two formulas separated by a space are rejected |

## Left out

- `main` (validador.py:206-228): argument handling, file reading, line
  stripping and printing are input and output around the validator.
- `Token.__str__` and the messages of the syntax errors are diagnostics that
  never leave `validate_expression`. A syntax error is a `false` result.
- The regular-expression check of a proposition (validador.py:136) is the
  structural predicate `IsPropName` on the lexeme.
- Characters are read in ASCII only. `isspace` is the ASCII whitespace set:
  tab, line feed, vertical tab, form feed, carriage return, 0x1c-0x1f and
  space. `isdigit` is `0`-`9`, and `isalpha` and `islower` are `a`-`z`.
  Python's Unicode-aware tests would accept more characters. Under ASCII the
  proposition's Invalid branch (validador.py:138-139) cannot be taken
  (`Scanner.PropositionAlwaysValid`).
- The Eof token's value is the empty string; in Python it is `None`.
- Python's recursion limit is not modelled. A formula nested deeply enough
  makes the interpreter raise `RecursionError`, which the wrapper's `except`
  turns into `invalida`. The model recurses without a bound, so it says
  `valida` for such a formula.
- The backslash branch, its recovery loop and the dispatch after the
  whitespace check are inline code of `get_next_token`. Here they are the
  methods `GetOperator`, `SkipToStop` and `ScanToken`. Likewise, the two
  parenthesised branches of `formula` are `Unary`, `Binary` and `ThenClose`.
  The steps and their order are unchanged.
- `Scanner.LexicalAnalyzer.Advance`: it leaves the object consistent only when
  a character remained; every caller calls it only then, as in the source.
