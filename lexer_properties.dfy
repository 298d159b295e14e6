/**
 * What the classification loop of fll/src/tokenizer.rs promises, proved
 * about its functional specification in module Lexer.
 */
module LexerProperties {
  import opened Wrappers
  import opened Tokens
  import opened Caret
  import opened Lexer

  /** When the first iteration on `w + v` takes exactly `w`, the run goes on with `v`. */
  lemma LexCons(w: string, v: string, t: Token)
    requires |w| > 0 && Step(w + v) == Ok((t, |w|))
    ensures Lex(w + v) == Prepend(t, Lex(v))
    ensures Fed(w + v) == [w[0]] + Fed(v)
  {
    assert (w + v)[|w|..] == v;
  }

  // ----- Characters the `if`/`else if` chain has a rule for -----

  /** A character some branch of the chain starts a token with. */
  predicate HandledStart(c: char)
  {
    c == '(' || c == ')' || c == '<' || c == '>' || c == ';' || c == ':' || c == ','
    || c == '-' || c == '+' || c == '{' || c == '}' || c == ' ' || c == '\n'
    || IdentifierIsValidChar(c, true)
  }

  /**
   * One iteration aborts exactly on an unhandled first character or on a
   * `-` that is not followed by `>`; a final `-` fails its `unwrap`, every
   * other abort names the character.
   */
  lemma StepAborts(s: string)
    requires |s| > 0
    ensures Step(s).Err? <==> !HandledStart(s[0]) || (s[0] == '-' && (|s| == 1 || s[1] != '>'))
    ensures Step(s) == Err(UnwrapOnNone) <==> s == "-"
    ensures Step(s).Err? && s != "-" ==> Step(s) == Err(Unhandled(s[0]))
  {
    KeywordCharIsIdentifierStart(s[0]);
  }

  /** An unhandled character aborts the whole run at once, before any token is kept. */
  lemma UnhandledAborts(c: char, v: string)
    requires !HandledStart(c)
    ensures Lex([c] + v) == Err(Unhandled(c))
  {
    StepAborts([c] + v);
  }

  /** Digits cannot start a token, nor can these other characters of the language. */
  lemma UnhandledExamples(d: char)
    requires '0' <= d <= '9'
    ensures !HandledStart(d)
    ensures !HandledStart('$') && !HandledStart('=') && !HandledStart('[') && !HandledStart(']')
    ensures !HandledStart('*') && !HandledStart('/') && !HandledStart('!') && !HandledStart('\t')
  {
  }

  // ----- `-` and `->` -----

  /** `->` is taken as one ReturnType operator, however the input goes on. */
  lemma ReturnTypeArrow(v: string)
    ensures Lex("->" + v) == Prepend(Operator(ReturnType), Lex(v))
    ensures Fed("->" + v) == ['-'] + Fed(v)
  {
    assert ("->" + v)[2..] == v;
  }

  /** A `-` at the end of the input, or before anything but `>`, aborts. */
  lemma BareMinusAborts(c: char, v: string)
    requires c != '>'
    ensures Lex("-") == Err(UnwrapOnNone)
    ensures Lex(['-', c] + v) == Err(Unhandled('-'))
  {
  }

  // ----- Which inputs can succeed -----

  /** A character a successful run may hold: a token start, or a digit inside a word. */
  predicate Accepted(s: string, k: int)
    requires 0 <= k < |s|
  {
    (HandledStart(s[k]) || '0' <= s[k] <= '9') && (s[k] == '-' ==> k + 1 < |s| && s[k + 1] == '>')
  }

  /** Every character a successful iteration takes is accepted. */
  lemma StepOkChars(s: string)
    requires s != [] && Step(s).Ok?
    ensures forall k :: 0 <= k < Step(s).value.1 ==> Accepted(s, k)
  {
    StepAborts(s);
    var c := s[0];
    if c == ' ' {
      SpaceRunIsMaximal(s, 1);
    } else if IdentifierIsValidChar(c, true) || KeywordIsValidChar(c) {
      WordIsMaximal(s, 1);
      forall k | 1 <= k < Step(s).value.1
        ensures Accepted(s, k)
      {
        WordCharReduces(s[k], false);
      }
    }
  }

  /**
   * A run that succeeds holds no character outside the handled set except
   * digits, and no `-` that is not followed by `>`: any other character
   * anywhere in the input makes the run abort.
   */
  lemma {:induction false} LexOkChars(s: string)
    requires Lex(s).Ok?
    ensures forall k :: 0 <= k < |s| ==> Accepted(s, k)
    decreases |s|
  {
    if s != [] {
      LexOkRest(s);
      StepOkChars(s);
      var n := Step(s).value.1;
      var r := s[n..];
      LexOkChars(r);
      forall k | n <= k < |s|
        ensures Accepted(s, k)
      {
        assert s[k] == r[k - n];
        assert k + 1 < |s| ==> s[k + 1] == r[k + 1 - n];
        assert Accepted(r, k - n);
      }
    }
  }

  /** `LexOkChars` at one position. */
  lemma LexOkCharAt(s: string, k: int)
    requires 0 <= k < |s|
    ensures Lex(s).Ok? ==> Accepted(s, k)
  {
    if Lex(s).Ok? {
      LexOkChars(s);
    }
  }

  /** A character outside the handled set, other than a digit, makes the run abort wherever it stands. */
  lemma UnhandledAnywhereAborts(s: string, k: int)
    requires 0 <= k < |s| && !HandledStart(s[k]) && !('0' <= s[k] <= '9')
    ensures Lex(s).Err?
  {
    LexOkCharAt(s, k);
  }

  /** A `-` that is last or not followed by `>` makes the run abort wherever it stands. */
  lemma BareMinusAnywhereAborts(s: string, k: int)
    requires 0 <= k < |s| && s[k] == '-' && (k + 1 == |s| || s[k + 1] != '>')
    ensures Lex(s).Err?
  {
    LexOkCharAt(s, k);
  }

  // ----- Runs of spaces -----

  /** The space scan ends at the first non-space at or after `k`. */
  lemma {:induction false} SpaceRunEndAt(s: string, k: nat, m: nat)
    requires k <= m <= |s|
    requires forall j :: k <= j < m ==> s[j] == ' '
    requires m == |s| || s[m] != ' '
    ensures SpaceRunEnd(s, k) == m
    decreases m - k
  {
    if k < m {
      SpaceRunEndAt(s, k + 1, m);
    }
  }

  /** Whitespace is pushed exactly when the token starts with a space. */
  lemma StepWhitespace(s: string)
    requires |s| > 0
    ensures Step(s).Ok? && Step(s).value.0 == Whitespace <==> s[0] == ' '
  {
  }

  /**
   * A successful outcome is non-empty, ends with EndOfFile and holds no
   * other EndOfFile, and has at most one token per input character plus
   * that EndOfFile.
   */
  lemma {:induction false} LexShape(s: string)
    requires Lex(s).Ok?
    ensures 1 <= |Lex(s).value| <= |s| + 1
    ensures Lex(s).value[|Lex(s).value| - 1] == EndOfFile
    ensures forall k :: 0 <= k < |Lex(s).value| - 1 ==> Lex(s).value[k] != EndOfFile
    decreases |s|
  {
    if s != [] {
      var (t, n) := Step(s).value;
      LexShape(s[n..]);
      var us := Lex(s[n..]).value;
      assert Lex(s).value == [t] + us;
    }
  }

  /** The first token of a successful run on non-empty input is the one its first iteration pushes. */
  lemma FirstToken(s: string)
    requires |s| > 0 && Lex(s).Ok?
    ensures Step(s).Ok? && Lex(s).value[0] == Step(s).value.0
  {
  }

  /** No two Whitespace tokens are ever adjacent. */
  lemma {:induction false} NoAdjacentWhitespace(s: string)
    requires Lex(s).Ok?
    ensures forall k :: 0 <= k < |Lex(s).value| - 1 ==>
              !(Lex(s).value[k] == Whitespace && Lex(s).value[k + 1] == Whitespace)
    decreases |s|
  {
    if s != [] {
      var n := Step(s).value.1;
      var t := Step(s).value.0;
      var rest := s[n..];
      NoAdjacentWhitespace(rest);
      var us := Lex(rest).value;
      assert Lex(s).value == [t] + us;
      if t == Whitespace && rest != [] {
        StepWhitespace(s);
        SpaceRunIsMaximal(s, 1);
        assert rest[0] == s[n] && s[n] != ' ';
        FirstToken(rest);
        StepWhitespace(rest);
      }
    }
  }

  /** The space scan from `k` ends where the scan from `m` does when only spaces lie between. */
  lemma {:induction false} SpaceRunSkip(s: string, k: nat, m: nat)
    requires k <= m <= |s|
    requires forall j :: k <= j < m ==> s[j] == ' '
    ensures SpaceRunEnd(s, k) == SpaceRunEnd(s, m)
    decreases m - k
  {
    if k < m {
      SpaceRunSkip(s, k + 1, m);
    }
  }

  /** A space scan that starts inside `y` of `x + y` is the scan of `y`, shifted. */
  lemma {:induction false} SpaceRunShift(x: string, y: string, k: nat)
    requires k <= |y|
    ensures SpaceRunEnd(x + y, |x| + k) == |x| + SpaceRunEnd(y, k)
    decreases |y| - k
  {
    if k < |y| && y[k] == ' ' {
      SpaceRunShift(x, y, k + 1);
    }
  }

  /** A space scan that meets a non-space before `p` depends only on the first `p` characters. */
  lemma {:induction false} SpaceRunLocal(s1: string, s2: string, p: nat, k: nat, m: nat)
    requires k <= m < p <= |s1| && p <= |s2| && s1[..p] == s2[..p]
    requires s1[m] != ' '
    ensures SpaceRunEnd(s1, k) == SpaceRunEnd(s2, k) <= m
    decreases m - k
  {
    assert s1[k] == s1[..p][k] == s2[k];
    if k < m && s1[k] == ' ' {
      SpaceRunLocal(s1, s2, p, k + 1, m);
    }
  }

  /** A word scan that meets a non-word character before `p` depends only on the first `p` characters. */
  lemma {:induction false} WordEndLocal(s1: string, s2: string, p: nat, k: nat)
    requires k < p <= |s1| && p <= |s2| && s1[..p] == s2[..p]
    requires !IsWordContinue(s1[p - 1])
    ensures WordEnd(s1, k) == WordEnd(s2, k) < p
    decreases p - k
  {
    assert s1[k] == s1[..p][k] == s2[k];
    if IsWordContinue(s1[k]) {
      WordEndLocal(s1, s2, p, k + 1);
    }
  }

  /**
   * One iteration on inputs that share a first `p` characters ending in a
   * space, and holding some non-space, behaves the same on both and stops
   * inside that shared part.
   */
  lemma StepLocal(s1: string, s2: string, p: nat, m: nat)
    requires 2 <= p <= |s1| && p <= |s2| && s1[..p] == s2[..p]
    requires s1[p - 1] == ' '
    requires m < p && s1[m] != ' '
    ensures Step(s1) == Step(s2)
    ensures Step(s1).Ok? ==> Step(s1).value.1 < p
  {
    assert s1[0] == s1[..p][0] == s2[0];
    assert s1[1] == s1[..p][1] == s2[1];
    if s1[0] == ' ' {
      SpaceRunLocal(s1, s2, p, 1, m);
    } else if IdentifierIsValidChar(s1[0], true) || KeywordIsValidChar(s1[0]) {
      WordEndLocal(s1, s2, p, 1);
      var n := WordEnd(s1, 1);
      assert s1[..n] == s1[..p][..n] == s2[..n];
    }
  }

  /** Two inputs whose first iterations push the same token and leave the same rest have the same outcome. */
  lemma SameRest(s1: string, s2: string, n1: nat, n2: nat)
    requires s1 != [] && s2 != [] && Step(s1).Ok? && Step(s2).Ok?
    requires Step(s1).value == (Step(s2).value.0, n1) && Step(s2).value.1 == n2
    requires n1 <= |s1| && n2 <= |s2| && s1[n1..] == s2[n2..]
    ensures Lex(s1) == Lex(s2)
  {
  }

  /** One iteration on a run of spaces `w` followed by `v` takes `w` and the spaces that open `v`. */
  lemma SpacesThen(w: string, v: string)
    requires |w| > 0 && forall k :: 0 <= k < |w| ==> w[k] == ' '
    ensures Step(w + v) == Ok((Whitespace, |w| + SpaceRunEnd(v, 0)))
    ensures (w + v)[|w| + SpaceRunEnd(v, 0)..] == v[SpaceRunEnd(v, 0)..]
  {
    SpaceRunSkip(w + v, 1, |w|);
    SpaceRunShift(w, v, 0);
  }

  /** When `u` is all spaces, `u + " "` and `u + "  "` start one run that both end at the same place of `v`. */
  lemma ExtraSpaceInRun(u: string, v: string)
    requires forall k :: 0 <= k < |u| ==> u[k] == ' '
    ensures Lex(u + " " + v) == Lex(u + "  " + v)
  {
    SpacesThen(u + " ", v);
    SpacesThen(u + "  ", v);
    SameRest(u + " " + v, u + "  " + v, |u| + 1 + SpaceRunEnd(v, 0), |u| + 2 + SpaceRunEnd(v, 0));
  }

  /**
   * Adding one space to a run of spaces never changes the outcome: runs of
   * N and N + 1 spaces are indistinguishable, wherever they occur.
   */
  lemma {:induction false} ExtraSpaceInvisible(u: string, v: string)
    ensures Lex(u + " " + v) == Lex(u + "  " + v)
    decreases |u|
  {
    if forall k :: 0 <= k < |u| ==> u[k] == ' ' {
      ExtraSpaceInRun(u, v);
    } else {
      var s1, s2 := u + " " + v, u + "  " + v;
      var m :| 0 <= m < |u| && u[m] != ' ';
      assert s1[..|u| + 1] == u + " " == s2[..|u| + 1];
      StepLocal(s1, s2, |u| + 1, m);
      if Step(s1).Ok? {
        var n := Step(s1).value.1;
        assert s1[n..] == u[n..] + " " + v;
        assert s2[n..] == u[n..] + "  " + v;
        ExtraSpaceInvisible(u[n..], v);
      }
      SameStepSameOutcome(s1, s2);
    }
  }

  /** Two inputs with the same first iteration, and the same outcome after it, have the same outcome. */
  lemma SameStepSameOutcome(s1: string, s2: string)
    requires s1 != [] && s2 != [] && Step(s1) == Step(s2)
    requires Step(s1).Ok? ==> Lex(s1[Step(s1).value.1..]) == Lex(s2[Step(s1).value.1..])
    ensures Lex(s1) == Lex(s2)
  {
  }

  // ----- Splitting at token boundaries -----

  /** A character that is a whole token by itself and never extends a scan. */
  predicate IsDelimiter(c: char)
  {
    c == '(' || c == ')' || c == '<' || c == '>' || c == ';' || c == ':' ||
    c == ',' || c == '+' || c == '{' || c == '}' || c == '\n'
  }

  /**
   * `a` followed by `b` has a token boundary between them: `a` ends with a
   * delimiter, or with a space that `b` does not continue.
   */
  predicate Boundary(a: string, b: string)
  {
    |a| > 0 && (IsDelimiter(a[|a| - 1]) || (a[|a| - 1] == ' ' && (b == [] || b[0] != ' ')))
  }

  /** An iteration on `a` that succeeds is unaffected by a `b` across a token boundary. */
  lemma StepPrefix(a: string, b: string)
    requires Boundary(a, b) && Step(a).Ok?
    ensures Step(a + b) == Step(a)
  {
    var s := a + b;
    assert s[..|a|] == a;
    assert s[0] == a[0];
    if a[0] == ' ' {
      if exists m :: 1 <= m < |a| && a[m] != ' ' {
        var m :| 1 <= m < |a| && a[m] != ' ';
        SpaceRunLocal(a, s, |a|, 1, m);
      } else {
        SpaceRunEndAt(a, 1, |a|);
        assert s[|a|..] == b;
        SpaceRunEndAt(s, 1, |a|);
      }
    } else if a[0] == '-' {
      assert s[1] == a[1];
    } else if IdentifierIsValidChar(a[0], true) || KeywordIsValidChar(a[0]) {
      WordEndLocal(a, s, |a|, 1);
      var n := WordEnd(a, 1);
      assert s[..n] == a[..n];
    }
  }

  /** A delimiter is a token by itself, whatever follows it. */
  lemma DelimiterAlone(c: char, v: string, t: Token)
    requires IsDelimiter(c) && Step([c]) == Ok((t, 1))
    ensures Lex([c] + v) == Prepend(t, Lex(v))
    ensures Fed([c] + v) == [c] + Fed(v)
  {
    assert Boundary([c], v);
    StepPrefix([c], v);
    LexCons([c], v, t);
  }

  /** A run of spaces followed by a non-space is one Whitespace token. */
  lemma SpacesAlone(w: string, v: string)
    requires |w| > 0 && forall k :: 0 <= k < |w| ==> w[k] == ' '
    requires v == [] || v[0] != ' '
    ensures Lex(w + v) == Prepend(Whitespace, Lex(v))
    ensures Fed(w + v) == [' '] + Fed(v)
  {
    var s := w + v;
    SpaceRunEndAt(s, 1, |w|);
    LexCons(w, v, Whitespace);
  }

  /** A word followed by a non-word character is one Keyword or Identifier token carrying its text. */
  lemma WordAlone(w: string, v: string)
    requires |w| > 0 && IdentifierIsValidChar(w[0], true)
    requires forall k :: 0 <= k < |w| ==> IsWordContinue(w[k])
    requires v == [] || !IsWordContinue(v[0])
    ensures Lex(w + v) == Prepend(if IsKeyword(w) then Keyword(w) else Identifier(w), Lex(v))
    ensures Fed(w + v) == [w[0]] + Fed(v)
  {
    var s := w + v;
    WordEndAt(s, 1, |w|);
    assert s[..|w|] == w;
    LexCons(w, v, if IsKeyword(w) then Keyword(w) else Identifier(w));
  }

  lemma PrependAllNil(r: Result<seq<Token>, Abort>)
    ensures PrependAll([], r) == r
  {
    if r.Ok? {
      assert [] + r.value == r.value;
    }
  }

  lemma PrependAllCons(t: Token, ts: seq<Token>, r: Result<seq<Token>, Abort>)
    ensures Prepend(t, PrependAll(ts, r)) == PrependAll([t] + ts, r)
  {
    if r.Ok? {
      assert [t] + (ts + r.value) == ([t] + ts) + r.value;
    }
  }

  lemma ConsSnoc(t: Token, us: seq<Token>, ts: seq<Token>, e: Token)
    requires [t] + us == ts + [e] && t != e
    ensures |ts| >= 1 && ts == [t] + ts[1..] && us == ts[1..] + [e]
  {
    assert |ts| == |us|;
    assert ([t] + us)[0] == t && (ts + [e])[|ts|] == e;
    assert ts[0] == (ts + [e])[0] == t;
    assert us == ([t] + us)[1..] == (ts + [e])[1..] == ts[1..] + [e];
  }

  /**
   * Tokenizing splits at a token boundary: when `a` yields `ts` and
   * EndOfFile, `a + b` yields `ts` followed by the outcome of `b`, whatever
   * `b` is, its abort included.
   */
  lemma {:induction false} LexConcat(a: string, b: string, ts: seq<Token>)
    requires Boundary(a, b) && Lex(a) == Ok(ts + [EndOfFile])
    ensures Lex(a + b) == PrependAll(ts, Lex(b))
    decreases |a|
  {
    StepPrefix(a, b);
    var (t, n) := Step(a).value;
    var a' := a[n..];
    assert (a + b)[n..] == a' + b;
    assert Lex(a) == Prepend(t, Lex(a'));
    assert Lex(a + b) == Prepend(t, Lex(a' + b));
    var us := Lex(a').value;
    ConsSnoc(t, us, ts, EndOfFile);
    if n == |a| {
      assert a' == [];
      assert ts[1..] == [];
      assert a' + b == b;
      assert ts == [t];
      PrependAllCons(t, [], Lex(b));
      PrependAllNil(Lex(b));
    } else {
      assert a'[|a'| - 1] == a[|a| - 1];
      LexConcat(a', b, ts[1..]);
      PrependAllCons(t, ts[1..], Lex(b));
    }
  }

  /** Two successful runs joined at a token boundary: the tokens of `a` before its EndOfFile, then those of `b`. */
  lemma LexJoin(a: string, b: string, ta: seq<Token>, tb: seq<Token>)
    requires Boundary(a, b) && Lex(a) == Ok(ta + [EndOfFile]) && Lex(b) == Ok(tb)
    ensures Lex(a + b) == Ok(ta + tb)
  {
    LexConcat(a, b, ta);
  }

  /** A successful run starts with a successful iteration, and the rest of the run succeeds too. */
  lemma LexOkRest(s: string)
    requires s != [] && Lex(s).Ok?
    ensures Step(s).Ok? && Lex(s[Step(s).value.1..]).Ok?
  {
  }

  /** Across a token boundary the first iteration on `a + b` feeds the first character of `a` and leaves the rest of `a`, then `b`. */
  lemma FedStep(a: string, b: string)
    requires Boundary(a, b) && Step(a).Ok?
    ensures Fed(a + b) == [a[0]] + Fed(a[Step(a).value.1..] + b)
  {
    StepPrefix(a, b);
    var n := Step(a).value.1;
    assert (a + b)[n..] == a[n..] + b;
    assert (a + b)[0] == a[0];
  }

  /** Across a token boundary the caret is fed the characters of `a`, then those of `b`. */
  lemma {:induction false} FedConcat(a: string, b: string)
    requires Boundary(a, b) && Lex(a).Ok?
    ensures Fed(a + b) == Fed(a) + Fed(b)
    decreases |a|
  {
    LexOkRest(a);
    var a' := a[Step(a).value.1..];
    FedStep(a, b);
    FedOk(a);
    if a' == [] {
      assert a' + b == b;
    } else {
      assert a'[|a'| - 1] == a[|a| - 1];
      FedConcat(a', b);
    }
    ConsAssoc(a[0], Fed(a'), Fed(b));
  }

  /** Pushing a character in front and concatenating commute. */
  lemma ConsAssoc(c: char, x: seq<char>, y: seq<char>)
    ensures [c] + (x + y) == ([c] + x) + y
  {
  }

  /** A successful iteration feeds the first character, then what the rest of the run feeds. */
  lemma FedOk(s: string)
    requires s != [] && Step(s).Ok?
    ensures Fed(s) == [s[0]] + Fed(s[Step(s).value.1..])
  {
  }

  // ----- The word scan -----

  /** The word scan ends at the first character that is not a word character. */
  lemma {:induction false} WordEndAt(s: string, k: nat, m: nat)
    requires k <= m <= |s|
    requires forall j :: k <= j < m ==> IsWordContinue(s[j])
    requires m == |s| || !IsWordContinue(s[m])
    ensures WordEnd(s, k) == m
    decreases m - k
  {
    if k < m {
      WordEndAt(s, k + 1, m);
    }
  }

  /**
   * On a letter or `_` the iteration takes the longest run of letters,
   * digits and `_`, and pushes it with its text as a Keyword when it is
   * one, as an Identifier otherwise.
   */
  lemma WordScan(s: string)
    requires |s| > 0 && IdentifierIsValidChar(s[0], true)
    ensures Step(s).Ok?
    ensures var n := Step(s).value.1;
      && IsIdentifierText(s[..n])
      && (n == |s| || !IdentifierIsValidChar(s[n], false))
      && Step(s).value.0 == (if IsKeyword(s[..n]) then Keyword(s[..n]) else Identifier(s[..n]))
  {
    var n := WordEnd(s, 1);
    WordIsMaximal(s, 1);
    if n < |s| {
      WordCharReduces(s[n], false);
    }
    forall k | 1 <= k < n
      ensures IdentifierIsValidChar(s[..n][k], false)
    {
      WordCharReduces(s[k], false);
    }
  }

  /**
   * A keyword followed by the end of input or a non-word character is
   * pushed as a Keyword, never as an Identifier.
   */
  lemma KeywordPrecedence(w: string, v: string)
    requires IsKeyword(w)
    requires v == [] || !IsWordContinue(v[0])
    ensures Lex(w + v) == Prepend(Keyword(w), Lex(v))
  {
    assert forall k :: 0 <= k < |w| ==> IsWordContinue(w[k]);
    WordAlone(w, v);
  }

  // ----- What the tokens can be -----

  /** The seven operator kinds a rule of the chain produces. */
  predicate ProducedOperator(o: OperatorType)
  {
    o == GenericBlockBegin || o == GenericBlockEnd || o == StatementTerminator
    || o == TypeSpecifier || o == CommaSeparator || o == ReturnType || o == Addition
  }

  /**
   * A token some rule of the chain pushes: Keyword text is a keyword,
   * Identifier text follows the identifier grammar and is not a keyword,
   * no Bracket token and only the seven produced operators.
   */
  predicate Producible(t: Token)
  {
    match t
    case Keyword(w) => IsKeyword(w)
    case Identifier(w) => IsIdentifierText(w) && !IsKeyword(w)
    case Bracket(_) => false
    case Operator(o) => ProducedOperator(o)
    case _ => true
  }

  lemma StepProducible(s: string)
    requires |s| > 0 && Step(s).Ok?
    ensures Producible(Step(s).value.0)
    ensures Step(s).value.0 != EndOfFile
  {
    KeywordCharIsIdentifierStart(s[0]);
    if IdentifierIsValidChar(s[0], true) {
      WordScan(s);
    }
  }

  /** Every token of a successful run is producible, and EndOfFile is pushed only at the end. */
  lemma {:induction false} LexProducible(s: string)
    requires Lex(s).Ok?
    ensures forall k :: 0 <= k < |Lex(s).value| ==> Producible(Lex(s).value[k])
    decreases |s|
  {
    if s != [] {
      var n := Step(s).value.1;
      StepProducible(s);
      LexProducible(s[n..]);
      assert Lex(s).value == [Step(s).value.0] + Lex(s[n..]).value;
    }
  }

  // ----- Caret accounting -----

  /** The characters a scan takes after the first are never newlines. */
  lemma StepSkipsNoNewline(s: string)
    requires |s| > 0 && Step(s).Ok?
    ensures forall k :: 1 <= k < Step(s).value.1 ==> s[k] != '\n'
  {
    if s[0] == ' ' {
      SpaceRunIsMaximal(s, 1);
    } else if IdentifierIsValidChar(s[0], true) || KeywordIsValidChar(s[0]) {
      WordIsMaximal(s, 1);
    }
  }

  lemma {:induction false} NoNewlineCount(cs: seq<char>)
    requires forall k :: 0 <= k < |cs| ==> cs[k] != '\n'
    ensures NewlineCount(cs) == 0
    decreases |cs|
  {
    if cs != [] {
      NoNewlineCount(cs[1..]);
    }
  }

  /** Every newline of a successfully tokenized input reaches the caret tracker. */
  lemma {:induction false} FedNewlines(s: string)
    requires Lex(s).Ok?
    ensures NewlineCount(Fed(s)) == NewlineCount(s)
    decreases |s|
  {
    if s != [] {
      var n := Step(s).value.1;
      FedNewlines(s[n..]);
      StepSkipsNoNewline(s);
      assert s == [s[0]] + s[1..n] + s[n..];
      NewlineCountAppend([s[0]] + s[1..n], s[n..]);
      NewlineCountAppend([s[0]], s[1..n]);
      NoNewlineCount(s[1..n]);
      NewlineCountAppend([s[0]], Fed(s[n..]));
    }
  }

  /** One character reaches the caret tracker per token before EndOfFile. */
  lemma {:induction false} FedOnePerToken(s: string)
    requires Lex(s).Ok?
    ensures |Fed(s)| + 1 == |Lex(s).value|
    decreases |s|
  {
    if s != [] {
      FedOnePerToken(s[Step(s).value.1..]);
    }
  }

  /**
   * After a successful run the caret is one line further down per newline
   * of the input, from wherever it started.
   */
  lemma LineAfterTokenize(p: Position, s: string)
    requires Lex(s).Ok?
    ensures Track(p, Fed(s)).line == p.line + NewlineCount(s)
  {
    TrackLine(p, Fed(s));
    FedNewlines(s);
  }
}
