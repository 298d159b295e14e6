/**
 * The classification performed by `Tokenizer::tokenize`
 * (fll/src/tokenizer.rs), stated as functions over the remaining input:
 * `Step` is one iteration of the loop, `Lex` the whole loop and `Fed` the
 * characters the loop hands to the caret tracker.
 */
module Lexer {
  import opened Wrappers
  import opened Tokens

  /** Why tokenization aborts: the `panic!` for an unhandled character, or the failed `unwrap` after a final `-`. */
  datatype Abort = Unhandled(character: char) | UnwrapOnNone

  /** A character the word scan takes after the first one (the guard of the inner `while`). */
  predicate IsWordContinue(c: char)
  {
    IdentifierIsValidChar(c, false) || KeywordIsValidChar(c)
  }

  /** The end of the run of spaces of `s` that starts at `k`. */
  function SpaceRunEnd(s: string, k: nat): (j: nat)
    requires k <= |s|
    ensures k <= j <= |s|
    decreases |s| - k
  {
    if k < |s| && s[k] == ' ' then SpaceRunEnd(s, k + 1) else k
  }

  /** The space scan takes only spaces and stops at the end or at a non-space. */
  lemma {:induction false} SpaceRunIsMaximal(s: string, k: nat)
    requires k <= |s|
    ensures forall m :: k <= m < SpaceRunEnd(s, k) ==> s[m] == ' '
    ensures SpaceRunEnd(s, k) < |s| ==> s[SpaceRunEnd(s, k)] != ' '
    decreases |s| - k
  {
    if k < |s| && s[k] == ' ' {
      SpaceRunIsMaximal(s, k + 1);
    }
  }

  /** The end of the maximal run of word characters of `s` that starts at `k`. */
  function WordEnd(s: string, k: nat): (j: nat)
    requires k <= |s|
    ensures k <= j <= |s|
    decreases |s| - k
  {
    if k < |s| && IsWordContinue(s[k]) then WordEnd(s, k + 1) else k
  }

  /** The word scan takes only word characters and stops at the end or at another character. */
  lemma {:induction false} WordIsMaximal(s: string, k: nat)
    requires k <= |s|
    ensures forall m :: k <= m < WordEnd(s, k) ==> IsWordContinue(s[m])
    ensures WordEnd(s, k) < |s| ==> !IsWordContinue(s[WordEnd(s, k)])
    decreases |s| - k
  {
    if k < |s| && IsWordContinue(s[k]) {
      WordIsMaximal(s, k + 1);
    }
  }

  /**
   * One iteration of the loop on non-empty remaining input `s`: the token
   * pushed and how many characters were taken, or the abort. The branches
   * are tried in the order of the source's `if`/`else if` chain.
   */
  function Step(s: string): (r: Result<(Token, nat), Abort>)
    requires |s| > 0
    ensures r.Ok? ==> 1 <= r.value.1 <= |s| && r.value.0 != EndOfFile
  {
    var c := s[0];
    if c == '(' then Ok((ParenthesisOpen(), 1))
    else if c == ')' then Ok((ParenthesisClose(), 1))
    else if c == '<' then Ok((Operator(GenericBlockBegin), 1))
    else if c == '>' then Ok((Operator(GenericBlockEnd), 1))
    else if c == ';' then Ok((Operator(StatementTerminator), 1))
    else if c == ':' then Ok((Operator(TypeSpecifier), 1))
    else if c == ',' then Ok((Operator(CommaSeparator), 1))
    else if c == '-' && |s| == 1 then Err(UnwrapOnNone)
    else if c == '-' && s[1] == '>' then Ok((Operator(ReturnType), 2))
    else if c == '+' then Ok((Operator(Addition), 1))
    else if c == '{' then Ok((BraceOpen(), 1))
    else if c == '}' then Ok((BraceClose(), 1))
    else if c == ' ' then Ok((Whitespace, SpaceRunEnd(s, 1)))
    else if c == '\n' then Ok((NewLine, 1))
    else if IdentifierIsValidChar(c, true) || KeywordIsValidChar(c) then
      var n := WordEnd(s, 1);
      var word := s[..n];
      Ok((if IsKeyword(word) then Keyword(word) else Identifier(word), n))
    else Err(Unhandled(c))
  }

  /** `t` pushed in front of the tokens of `r`, or the abort of `r`. */
  function Prepend(t: Token, r: Result<seq<Token>, Abort>): Result<seq<Token>, Abort>
  {
    match r
    case Ok(ts) => Ok([t] + ts)
    case Err(e) => Err(e)
  }

  /** `ts` pushed in front of the tokens of `r`, or the abort of `r`. */
  function PrependAll(ts: seq<Token>, r: Result<seq<Token>, Abort>): Result<seq<Token>, Abort>
  {
    match r
    case Ok(us) => Ok(ts + us)
    case Err(e) => Err(e)
  }

  /** The outcome of tokenizing `s` (its shape is `LexerProperties.LexShape`). */
  function Lex(s: string): (r: Result<seq<Token>, Abort>)
    decreases |s|
  {
    if s == [] then Ok([EndOfFile])
    else
      match Step(s)
      case Err(e) => Err(e)
      case Ok((t, n)) => Prepend(t, Lex(s[n..]))
  }

  /**
   * The characters `tokenize` hands to `process_char`, in order: the first
   * character of every token, and the character it aborts on. The
   * characters taken by the scans never reach the caret tracker.
   */
  function Fed(s: string): (cs: seq<char>)
    ensures |cs| <= |s|
    decreases |s|
  {
    if s == [] then []
    else
      match Step(s)
      case Err(_) => [s[0]]
      case Ok((_, n)) => [s[0]] + Fed(s[n..])
  }
}
