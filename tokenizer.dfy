/**
 * `Tokenizer` (fll/src/tokenizer.rs): owns a caret and runs the
 * classification loop over the materialised source text, one character of
 * lookahead at a time.
 */
module Tokenizer {
  import opened Wrappers
  import opened Tokens
  import opened Caret
  import opened Lexer

  /**
   * When the iteration that starts at `start` pushes `t` and stops at `i`,
   * the outcome of the rest of the run and the characters fed to the caret
   * carry over from `start` to `i`.
   */
  lemma Advanced(s: string, start: nat, i: nat, before: seq<Token>, t: Token, p: Position)
    requires start < i <= |s|
    requires Step(s[start..]) == Ok((t, i - start))
    ensures PrependAll(before, Lex(s[start..])) == PrependAll(before + [t], Lex(s[i..]))
    ensures Track(p, Fed(s[start..])) == Track(Advance(p, Some(s[start])), Fed(s[i..]))
  {
    assert s[start..][i - start..] == s[i..];
    var r := Lex(s[i..]);
    if r.Ok? {
      assert before + ([t] + r.value) == (before + [t]) + r.value;
    }
    var cs := [s[start]] + Fed(s[i..]);
    assert cs[0] == s[start] && cs[1..] == Fed(s[i..]);
  }

  /** An iteration that aborts at `start` ends the run with that abort, after feeding `s[start]`. */
  lemma Aborted(s: string, start: nat, e: Abort)
    requires start < |s|
    requires Step(s[start..]) == Err(e)
    ensures Lex(s[start..]) == Err(e)
    ensures Fed(s[start..]) == [s[start]]
  {
  }

  /**
   * The body of one iteration of `tokenize` after `chars.next()` has
   * returned `source[i]`: the ordered `if`/`else if` chain with its
   * one-character lookahead and its two inner scans. The token pushed and
   * the index of the first character left to the iterator are those of
   * `Step`, and so is the abort.
   */
  method NextToken(source: string, i: nat) returns (r: Result<(Token, nat), Abort>)
    requires i < |source|
    ensures Step(source[i..]).Err? ==> r == Err(Step(source[i..]).error)
    ensures Step(source[i..]).Ok? ==> r == Ok((Step(source[i..]).value.0, i + Step(source[i..]).value.1))
  {
    ghost var rest := source[i..];
    assert rest[0] == source[i] && |rest| == |source| - i;
    var start := i;
    var c := source[i];
    var i := i + 1;
    if c == '(' {
      r := Ok((ParenthesisOpen(), i));
    } else if c == ')' {
      r := Ok((ParenthesisClose(), i));
    } else if c == '<' {
      r := Ok((Operator(GenericBlockBegin), i));
    } else if c == '>' {
      r := Ok((Operator(GenericBlockEnd), i));
    } else if c == ';' {
      r := Ok((Operator(StatementTerminator), i));
    } else if c == ':' {
      r := Ok((Operator(TypeSpecifier), i));
    } else if c == ',' {
      r := Ok((Operator(CommaSeparator), i));
    } else if c == '-' && i == |source| {
      // `chars.peek().unwrap()` on an exhausted iterator
      r := Err(UnwrapOnNone);
    } else if c == '-' && source[i] == '>' {
      i := i + 1;
      r := Ok((Operator(ReturnType), i));
    } else if c == '+' {
      r := Ok((Operator(Addition), i));
    } else if c == '{' {
      r := Ok((BraceOpen(), i));
    } else if c == '}' {
      r := Ok((BraceClose(), i));
    } else if c == ' ' {
      while i < |source| && source[i] == ' '
        invariant start < i <= |source|
        invariant SpaceRunEnd(rest, i - start) == SpaceRunEnd(rest, 1)
        decreases |source| - i
      {
        i := i + 1;
      }
      r := Ok((Whitespace, i));
    } else if c == '\n' {
      r := Ok((NewLine, i));
    } else if IdentifierIsValidChar(c, true) || KeywordIsValidChar(c) {
      var buf: string := [c];
      while i < |source|
        invariant start < i <= |source|
        invariant buf == rest[..i - start]
        invariant WordEnd(rest, i - start) == WordEnd(rest, 1)
        decreases |source| - i
      {
        if IdentifierIsValidChar(source[i], |buf| == 0) || KeywordIsValidChar(source[i]) {
          buf := buf + [source[i]];
          i := i + 1;
        } else {
          break;
        }
      }
      if |buf| != 0 {
        if IsKeyword(buf) {
          r := Ok((Keyword(buf), i));
        } else {
          r := Ok((Identifier(buf), i));
        }
      }
    } else {
      // `panic!("Character '{}' was not handled", char_cur)`
      r := Err(Unhandled(c));
    }
  }

  class Tokenizer {
    const caretPos: CaretPos

    /** `Tokenizer::default`: a tokenizer whose caret is at (1, 1). */
    constructor ()
      ensures fresh(caretPos) && caretPos.Pos() == Start
    {
      caretPos := new CaretPos();
    }

    /** `get_caret_pos`: a copy of the caret. */
    method GetCaretPos() returns (p: CaretPos)
      ensures fresh(p) && p.Pos() == caretPos.Pos()
    {
      p := new CaretPos.FromPair(caretPos.line, caretPos.column);
    }

    /**
     * `tokenize` on the materialised text `source`. The outcome is the one
     * `Lex` gives, and the caret has been advanced, from wherever it was,
     * by exactly the characters `Fed` lists.
     */
    method Tokenize(source: string) returns (r: Result<seq<Token>, Abort>)
      modifies caretPos
      ensures r == Lex(source)
      ensures caretPos.Pos() == Track(old(caretPos.Pos()), Fed(source))
    {
      var tokens: seq<Token> := [];
      var i := 0;
      assert source[i..] == source;
      assert Lex(source).Ok? ==> tokens + Lex(source).value == Lex(source).value;
      while true
        invariant i <= |source|
        invariant Lex(source) == PrependAll(tokens, Lex(source[i..]))
        invariant Track(old(caretPos.Pos()), Fed(source)) == Track(caretPos.Pos(), Fed(source[i..]))
        decreases |source| - i
      {
        var cur: Option<char> := if i < |source| then Some(source[i]) else None;
        ghost var before := caretPos.Pos();
        caretPos.ProcessChar(cur);
        if cur.None? {
          tokens := tokens + [EndOfFile];
          break;
        }
        var step := NextToken(source, i);
        match step
        case Err(e) =>
          Aborted(source, i, e);
          r := Err(e);
          return;
        case Ok((t, next)) =>
          Advanced(source, i, next, tokens, t, before);
          tokens := tokens + [t];
          i := next;
      }
      r := Ok(tokens);
    }
  }
}
