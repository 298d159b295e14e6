/**
 * The token model of the lexer (fll/src/token.rs): the closed set of token
 * kinds with their payloads, the fixed keyword set and the two
 * character-class predicates used by the word scan.
 */
module Tokens {

  /** Direction shared by the three bracket families. */
  datatype BracketType = Opening | Closing

  /** The 41 operator kinds; only seven of them are ever produced by the tokenizer. */
  datatype OperatorType =
    // Scoping, accessing
    | ScopeAccessor | MemberAccessor
    // Generics
    | GenericBlockBegin | GenericBlockEnd
    // Types
    | TypeSpecifier | ReturnType | CommaSeparator | StatementTerminator
    // Arithmetic
    | Addition | Subtraction | Multiplication | Division | Modulo
    // Comparison
    | Equals | NotEquals | LessThan | LessThanOrEqual | GreaterThan | GreaterThanOrEqual
    // Logic
    | LogicalAnd | LogicalOr | LogicalNot
    // Bitwise
    | BitwiseAnd | BitwiseXOr | BitwiseOr | BitwiseNot | BitwiseRightShift | BitwiseLeftShift
    // Assignment
    | ValueAssignment | AdditionAssignment | SubtractionAssignment | MultiplicationAssignment
    | DivisionAssignment | ModuloAssignment | Increment | Decrement
    | BitwiseRightShiftAssignment | BitwiseLeftShiftAssignment | BitwiseAndAssignment
    | BitwiseXOrAssignment | BitwiseOrAssignment

  /**
   * One lexical unit. Each constructor is the `From` constructor of the
   * corresponding struct and each destructor its accessor: `keyword()`,
   * `identifier()`, `bracket_type()` and `operator_type()`.
   */
  datatype Token =
    | EndOfFile
    | NewLine
    | Whitespace
    | Keyword(keyword: string)
    | Identifier(identifier: string)
    | Parenthesis(bracketType: BracketType)
    | Bracket(bracketType: BracketType)
    | Brace(bracketType: BracketType)
    | Operator(operatorType: OperatorType)

  /** `Parenthesis::open()` */
  function ParenthesisOpen(): (t: Token)
    ensures t.Parenthesis? && t.bracketType == Opening
  {
    Parenthesis(Opening)
  }

  /** `Parenthesis::close()` */
  function ParenthesisClose(): (t: Token)
    ensures t.Parenthesis? && t.bracketType == Closing
  {
    Parenthesis(Closing)
  }

  /** `Bracket::open()` */
  function BracketOpen(): (t: Token)
    ensures t.Bracket? && t.bracketType == Opening
  {
    Bracket(Opening)
  }

  /** `Bracket::close()` */
  function BracketClose(): (t: Token)
    ensures t.Bracket? && t.bracketType == Closing
  {
    Bracket(Closing)
  }

  /** `Brace::open()` */
  function BraceOpen(): (t: Token)
    ensures t.Brace? && t.bracketType == Opening
  {
    Brace(Opening)
  }

  /** `Brace::close()` */
  function BraceClose(): (t: Token)
    ensures t.Brace? && t.bracketType == Closing
  {
    Brace(Closing)
  }

  /** `Keyword::is_valid_char`: the lower-case ASCII letters. */
  predicate KeywordIsValidChar(c: char)
  {
    'a' <= c <= 'z'
  }

  /**
   * `Identifier::is_valid_char`: ASCII letters and `_`, and digits as well
   * when the character is not the first of the lexeme.
   */
  predicate IdentifierIsValidChar(c: char, beginning: bool)
  {
    'a' <= c <= 'z'
    || 'A' <= c <= 'Z'
    || c == '_'
    || if beginning then false else '0' <= c <= '9'
  }

  /** The fixed keyword set, matched against the whole string. */
  predicate IsKeyword(s: string)
  {
    s == "u8" || s == "return"
  }

  /** The identifier grammar: a start character followed by continue characters. */
  predicate IsIdentifierText(s: string)
  {
    |s| > 0
    && IdentifierIsValidChar(s[0], true)
    && forall k :: 1 <= k < |s| ==> IdentifierIsValidChar(s[k], false)
  }

  /** Every keyword character may also start an identifier. */
  lemma KeywordCharIsIdentifierStart(c: char)
    ensures KeywordIsValidChar(c) ==> IdentifierIsValidChar(c, true)
  {
  }

  /** The start predicate admits exactly ASCII letters and underscore. */
  lemma IdentifierStartChars(c: char)
    ensures IdentifierIsValidChar(c, true)
        <==> ('a' <= c <= 'z' || 'A' <= c <= 'Z' || c == '_')
  {
  }

  /** The continue predicate admits exactly the start characters and the ASCII digits. */
  lemma IdentifierContinueChars(c: char)
    ensures IdentifierIsValidChar(c, false)
        <==> (IdentifierIsValidChar(c, true) || '0' <= c <= '9')
  {
  }

  /** The keyword-or-identifier test of the word scan reduces to the identifier predicate. */
  lemma WordCharReduces(c: char, beginning: bool)
    ensures (IdentifierIsValidChar(c, beginning) || KeywordIsValidChar(c))
        <==> IdentifierIsValidChar(c, beginning)
  {
  }

  /** Every keyword is a valid identifier text made only of keyword characters or digits. */
  lemma KeywordsAreIdentifierTexts(s: string)
    requires IsKeyword(s)
    ensures IsIdentifierText(s)
  {
  }

  /** No keyword is a proper prefix of another string that is also a keyword: the match is exact. */
  lemma KeywordMatchIsExact(s: string, t: string)
    requires IsKeyword(s) && IsKeyword(t)
    ensures s <= t ==> s == t
  {
    if s != t {
      // the two keywords already differ in their first character
      assert s[0] != t[0];
    }
  }

  /** `Keyword::from(s).keyword()` is `s`. */
  lemma KeywordAccessorRoundTrip(s: string)
    ensures Keyword(s).Keyword? && Keyword(s).keyword == s
  {
  }

  /** `Identifier::from(s).identifier()` is `s`. */
  lemma IdentifierAccessorRoundTrip(s: string)
    ensures Identifier(s).Identifier? && Identifier(s).identifier == s
  {
  }

  /** `bracket_type()` of a Parenthesis, Bracket or Brace built `from(b)` is `b`. */
  lemma BracketAccessorRoundTrip(b: BracketType)
    ensures Parenthesis(b).bracketType == b && Bracket(b).bracketType == b && Brace(b).bracketType == b
  {
  }

  /** `Operator::from(o).operator_type()` is `o`. */
  lemma OperatorAccessorRoundTrip(o: OperatorType)
    ensures Operator(o).Operator? && Operator(o).operatorType == o
  {
  }
}
