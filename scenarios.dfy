/**
 * The tests of fll/src/tokenizer.rs, stated on concrete inputs.
 *
 * Each sample is proved in pieces: a piece starts with its word, if any,
 * and ends at a token boundary (`LexerProperties.Boundary`), so its run is
 * worked out on its own text; `LexerProperties.LexJoin` and
 * `LexerProperties.FedConcat` then join the pieces of a line, and the lines
 * of the sample. The `...Pieces` and `...PieceTokens` helpers only say that
 * the pieces add up to the sample and its expected tokens.
 */
module Scenarios {
  import opened Wrappers
  import opened Tokens
  import opened Caret
  import opened Lexer
  import opened LexerProperties
  import Tokenizer

  /** The contents of the `other_fn` sample: two one-call lines. */
  const OtherFnText := "man();\nother_fn();\n"

  /** The eleven tokens `tokenize_other_fn` expects. */
  const OtherFnTokens := [
    Identifier("man"), ParenthesisOpen(), ParenthesisClose(), Operator(StatementTerminator), NewLine,
    Identifier("other_fn"), ParenthesisOpen(), ParenthesisClose(), Operator(StatementTerminator), NewLine,
    EndOfFile]

  /** The contents of the `main_fn` sample. */
  const MainFnText := "main();\n"

  /** The six tokens `tokenize_main_fn` expects. */
  const MainFnTokens := [
    Identifier("main"), ParenthesisOpen(), ParenthesisClose(), Operator(StatementTerminator), NewLine,
    EndOfFile]

  /** An input whose tokens are the ones `tokenize_add` expects. */
  const AddText := "add(a: u8, b: u8): -> u8 {\n  return a + b;\n};\n"

  /** The thirty-five tokens `tokenize_add` expects. */
  const AddTokens := [
    Identifier("add"), ParenthesisOpen(), Identifier("a"), Operator(TypeSpecifier), Whitespace,
    Keyword("u8"), Operator(CommaSeparator), Whitespace, Identifier("b"), Operator(TypeSpecifier),
    Whitespace, Keyword("u8"), ParenthesisClose(), Operator(TypeSpecifier), Whitespace,
    Operator(ReturnType), Whitespace, Keyword("u8"), Whitespace, BraceOpen(), NewLine,
    Whitespace, Keyword("return"), Whitespace, Identifier("a"), Whitespace, Operator(Addition),
    Whitespace, Identifier("b"), Operator(StatementTerminator), NewLine,
    BraceClose(), Operator(StatementTerminator), NewLine, EndOfFile]

  /** The `from_file` sample of fll/src/source.rs. */
  const FromFileText := "main(): -> u8 := {\n  return 0;\n}\n"

  // ----- Pieces shared by the samples -----

  // Each piece lemma works out the run of one short text that some sample is cut into.

  lemma PieceManOpen()
    ensures Lex("man(") == Ok([Identifier("man"), ParenthesisOpen()] + [EndOfFile])
    ensures Fed("man(") == "m("
  {
    assert WordEnd("man(", 1) == 3 && "man("[..3] == "man";
    assert "man("[3..] == "(";
    assert "("[1..] == "";
    assert Lex("man(").value == [Identifier("man"), ParenthesisOpen(), EndOfFile];
    assert [Identifier("man"), ParenthesisOpen()] + [EndOfFile] == [Identifier("man"), ParenthesisOpen(), EndOfFile];
  }

  lemma PieceCloseSemi()
    ensures Lex(");") == Ok([ParenthesisClose(), Operator(StatementTerminator)] + [EndOfFile])
    ensures Fed(");") == ");"
  {
    assert ");"[1..] == ";";
    assert ";"[1..] == "";
    assert Lex(");").value == [ParenthesisClose(), Operator(StatementTerminator), EndOfFile];
    assert [ParenthesisClose(), Operator(StatementTerminator)] + [EndOfFile] == [ParenthesisClose(), Operator(StatementTerminator), EndOfFile];
  }

  lemma PieceNewline()
    ensures Lex("\n") == Ok([NewLine] + [EndOfFile])
    ensures Fed("\n") == "\n"
  {
    assert "\n"[1..] == "";
    assert Lex("\n").value == [NewLine, EndOfFile];
    assert [NewLine] + [EndOfFile] == [NewLine, EndOfFile];
  }

  lemma PieceOtherFnOpen()
    ensures Lex("other_fn(") == Ok([Identifier("other_fn"), ParenthesisOpen()] + [EndOfFile])
    ensures Fed("other_fn(") == "o("
  {
    assert WordEnd("other_fn(", 1) == 8 && "other_fn("[..8] == "other_fn";
    assert "other_fn("[8..] == "(";
    assert "("[1..] == "";
    assert Lex("other_fn(").value == [Identifier("other_fn"), ParenthesisOpen(), EndOfFile];
    assert [Identifier("other_fn"), ParenthesisOpen()] + [EndOfFile] == [Identifier("other_fn"), ParenthesisOpen(), EndOfFile];
  }

  lemma PieceMainOpen()
    ensures Lex("main(") == Ok([Identifier("main"), ParenthesisOpen()] + [EndOfFile])
  {
    assert WordEnd("main(", 1) == 4 && "main("[..4] == "main";
    assert "main("[4..] == "(";
    assert "("[1..] == "";
    assert Lex("main(").value == [Identifier("main"), ParenthesisOpen(), EndOfFile];
    assert [Identifier("main"), ParenthesisOpen()] + [EndOfFile] == [Identifier("main"), ParenthesisOpen(), EndOfFile];
  }

  lemma PieceAddOpen()
    ensures Lex("add(") == Ok([Identifier("add"), ParenthesisOpen()] + [EndOfFile])
  {
    assert WordEnd("add(", 1) == 3 && "add("[..3] == "add";
    assert "add("[3..] == "(";
    assert "("[1..] == "";
    assert Lex("add(").value == [Identifier("add"), ParenthesisOpen(), EndOfFile];
    assert [Identifier("add"), ParenthesisOpen()] + [EndOfFile] == [Identifier("add"), ParenthesisOpen(), EndOfFile];
  }

  lemma PieceAColon()
    ensures Lex("a:") == Ok([Identifier("a"), Operator(TypeSpecifier)] + [EndOfFile])
  {
    assert WordEnd("a:", 1) == 1 && "a:"[..1] == "a";
    assert "a:"[1..] == ":";
    assert ":"[1..] == "";
    assert Lex("a:").value == [Identifier("a"), Operator(TypeSpecifier), EndOfFile];
    assert [Identifier("a"), Operator(TypeSpecifier)] + [EndOfFile] == [Identifier("a"), Operator(TypeSpecifier), EndOfFile];
  }

  lemma PieceSpace()
    ensures Lex(" ") == Ok([Whitespace] + [EndOfFile])
  {
    assert SpaceRunEnd(" ", 1) == 1;
    assert " "[1..] == "";
    assert Lex(" ").value == [Whitespace, EndOfFile];
    assert [Whitespace] + [EndOfFile] == [Whitespace, EndOfFile];
  }

  lemma PieceU8Comma()
    ensures Lex("u8,") == Ok([Keyword("u8"), Operator(CommaSeparator)] + [EndOfFile])
  {
    assert WordEnd("u8,", 1) == 2 && "u8,"[..2] == "u8";
    assert "u8,"[2..] == ",";
    assert ","[1..] == "";
    assert Lex("u8,").value == [Keyword("u8"), Operator(CommaSeparator), EndOfFile];
    assert [Keyword("u8"), Operator(CommaSeparator)] + [EndOfFile] == [Keyword("u8"), Operator(CommaSeparator), EndOfFile];
  }

  lemma PieceBColon()
    ensures Lex("b:") == Ok([Identifier("b"), Operator(TypeSpecifier)] + [EndOfFile])
  {
    assert WordEnd("b:", 1) == 1 && "b:"[..1] == "b";
    assert "b:"[1..] == ":";
    assert ":"[1..] == "";
    assert Lex("b:").value == [Identifier("b"), Operator(TypeSpecifier), EndOfFile];
    assert [Identifier("b"), Operator(TypeSpecifier)] + [EndOfFile] == [Identifier("b"), Operator(TypeSpecifier), EndOfFile];
  }

  lemma PieceU8Close()
    ensures Lex("u8)") == Ok([Keyword("u8"), ParenthesisClose()] + [EndOfFile])
  {
    assert WordEnd("u8)", 1) == 2 && "u8)"[..2] == "u8";
    assert "u8)"[2..] == ")";
    assert ")"[1..] == "";
    assert Lex("u8)").value == [Keyword("u8"), ParenthesisClose(), EndOfFile];
    assert [Keyword("u8"), ParenthesisClose()] + [EndOfFile] == [Keyword("u8"), ParenthesisClose(), EndOfFile];
  }

  lemma PieceColonSpace()
    ensures Lex(": ") == Ok([Operator(TypeSpecifier), Whitespace] + [EndOfFile])
  {
    assert ": "[1..] == " ";
    assert SpaceRunEnd(" ", 1) == 1;
    assert " "[1..] == "";
    assert Lex(": ").value == [Operator(TypeSpecifier), Whitespace, EndOfFile];
    assert [Operator(TypeSpecifier), Whitespace] + [EndOfFile] == [Operator(TypeSpecifier), Whitespace, EndOfFile];
  }

  lemma PieceArrowSpace()
    ensures Lex("-> ") == Ok([Operator(ReturnType), Whitespace] + [EndOfFile])
  {
    assert "-> "[2..] == " ";
    assert SpaceRunEnd(" ", 1) == 1;
    assert " "[1..] == "";
    assert Lex("-> ").value == [Operator(ReturnType), Whitespace, EndOfFile];
    assert [Operator(ReturnType), Whitespace] + [EndOfFile] == [Operator(ReturnType), Whitespace, EndOfFile];
  }

  lemma PieceU8Space()
    ensures Lex("u8 ") == Ok([Keyword("u8"), Whitespace] + [EndOfFile])
  {
    assert WordEnd("u8 ", 1) == 2 && "u8 "[..2] == "u8";
    assert "u8 "[2..] == " ";
    assert SpaceRunEnd(" ", 1) == 1;
    assert " "[1..] == "";
    assert Lex("u8 ").value == [Keyword("u8"), Whitespace, EndOfFile];
    assert [Keyword("u8"), Whitespace] + [EndOfFile] == [Keyword("u8"), Whitespace, EndOfFile];
  }

  lemma PieceBraceOpenNewline()
    ensures Lex("{\n") == Ok([BraceOpen(), NewLine] + [EndOfFile])
  {
    assert "{\n"[1..] == "\n";
    assert "\n"[1..] == "";
    assert Lex("{\n").value == [BraceOpen(), NewLine, EndOfFile];
    assert [BraceOpen(), NewLine] + [EndOfFile] == [BraceOpen(), NewLine, EndOfFile];
  }

  lemma PieceSpaces2()
    ensures Lex("  ") == Ok([Whitespace] + [EndOfFile])
  {
    assert SpaceRunEnd("  ", 1) == 2;
    assert "  "[2..] == "";
    assert Lex("  ").value == [Whitespace, EndOfFile];
    assert [Whitespace] + [EndOfFile] == [Whitespace, EndOfFile];
  }

  lemma PieceReturnSpace()
    ensures Lex("return ") == Ok([Keyword("return"), Whitespace] + [EndOfFile])
  {
    assert WordEnd("return ", 1) == 6 && "return "[..6] == "return";
    assert "return "[6..] == " ";
    assert SpaceRunEnd(" ", 1) == 1;
    assert " "[1..] == "";
    assert Lex("return ").value == [Keyword("return"), Whitespace, EndOfFile];
    assert [Keyword("return"), Whitespace] + [EndOfFile] == [Keyword("return"), Whitespace, EndOfFile];
  }

  lemma PieceASpace()
    ensures Lex("a ") == Ok([Identifier("a"), Whitespace] + [EndOfFile])
  {
    assert WordEnd("a ", 1) == 1 && "a "[..1] == "a";
    assert "a "[1..] == " ";
    assert SpaceRunEnd(" ", 1) == 1;
    assert " "[1..] == "";
    assert Lex("a ").value == [Identifier("a"), Whitespace, EndOfFile];
    assert [Identifier("a"), Whitespace] + [EndOfFile] == [Identifier("a"), Whitespace, EndOfFile];
  }

  lemma PiecePlusSpace()
    ensures Lex("+ ") == Ok([Operator(Addition), Whitespace] + [EndOfFile])
  {
    assert "+ "[1..] == " ";
    assert SpaceRunEnd(" ", 1) == 1;
    assert " "[1..] == "";
    assert Lex("+ ").value == [Operator(Addition), Whitespace, EndOfFile];
    assert [Operator(Addition), Whitespace] + [EndOfFile] == [Operator(Addition), Whitespace, EndOfFile];
  }

  lemma PieceBSemi()
    ensures Lex("b;") == Ok([Identifier("b"), Operator(StatementTerminator)] + [EndOfFile])
  {
    assert WordEnd("b;", 1) == 1 && "b;"[..1] == "b";
    assert "b;"[1..] == ";";
    assert ";"[1..] == "";
    assert Lex("b;").value == [Identifier("b"), Operator(StatementTerminator), EndOfFile];
    assert [Identifier("b"), Operator(StatementTerminator)] + [EndOfFile] == [Identifier("b"), Operator(StatementTerminator), EndOfFile];
  }

  lemma PieceBraceCloseSemi()
    ensures Lex("};") == Ok([BraceClose(), Operator(StatementTerminator)] + [EndOfFile])
  {
    assert "};"[1..] == ";";
    assert ";"[1..] == "";
    assert Lex("};").value == [BraceClose(), Operator(StatementTerminator), EndOfFile];
    assert [BraceClose(), Operator(StatementTerminator)] + [EndOfFile] == [BraceClose(), Operator(StatementTerminator), EndOfFile];
  }

  lemma PieceCloseColon()
    ensures Lex("):") == Ok([ParenthesisClose(), Operator(TypeSpecifier)] + [EndOfFile])
  {
    assert "):"[1..] == ":";
    assert ":"[1..] == "";
    assert Lex("):").value == [ParenthesisClose(), Operator(TypeSpecifier), EndOfFile];
    assert [ParenthesisClose(), Operator(TypeSpecifier)] + [EndOfFile] == [ParenthesisClose(), Operator(TypeSpecifier), EndOfFile];
  }

  lemma PieceSpaceArrow()
    ensures Lex(" ->") == Ok([Whitespace, Operator(ReturnType)] + [EndOfFile])
  {
    assert SpaceRunEnd(" ->", 1) == 1;
    assert " ->"[1..] == "->";
    assert "->"[2..] == "";
    assert Lex(" ->").value == [Whitespace, Operator(ReturnType), EndOfFile];
    assert [Whitespace, Operator(ReturnType)] + [EndOfFile] == [Whitespace, Operator(ReturnType), EndOfFile];
  }

  // ----- tokenize_other_fn -----

  lemma TokenizeOtherFnLine1Pieces()
    ensures "man(" + (");" + "\n") == "man();\n"
  {
  }

  lemma TokenizeOtherFnLine1PieceTokens(t1: seq<Token>, t2: seq<Token>, t3: seq<Token>)
    requires t1 == [Identifier("man"), ParenthesisOpen()]
    requires t2 == [ParenthesisClose(), Operator(StatementTerminator)]
    requires t3 == [NewLine]
    ensures t1 + (t2 + (t3 + [EndOfFile])) == [Identifier("man"), ParenthesisOpen(), ParenthesisClose(), Operator(StatementTerminator), NewLine] + [EndOfFile]
  {
  }

  lemma TokenizeOtherFnLine1PieceFed(f1: string, f2: string, f3: string)
    requires f1 == "m("
    requires f2 == ");"
    requires f3 == "\n"
    ensures f1 + (f2 + f3) == "m();\n"
  {
  }

  /** Line 1 of the sample, joined from its pieces. */
  lemma TokenizeOtherFnLine1()
    ensures Lex("man();\n") == Ok([Identifier("man"), ParenthesisOpen(), ParenthesisClose(), Operator(StatementTerminator), NewLine] + [EndOfFile])
    ensures Fed("man();\n") == "m();\n"
  {
    var c1, t1 := "man(", [Identifier("man"), ParenthesisOpen()];
    var c2, t2 := ");", [ParenthesisClose(), Operator(StatementTerminator)];
    var c3, t3 := "\n", [NewLine];
    PieceManOpen();
    PieceCloseSemi();
    PieceNewline();
    LexJoin(c2, c3, t2, t3 + [EndOfFile]);
    FedConcat(c2, c3);
    LexJoin(c1, (c2 + c3), t1, t2 + (t3 + [EndOfFile]));
    FedConcat(c1, (c2 + c3));
    TokenizeOtherFnLine1Pieces();
    TokenizeOtherFnLine1PieceTokens(t1, t2, t3);
    TokenizeOtherFnLine1PieceFed(Fed(c1), Fed(c2), Fed(c3));
  }

  lemma TokenizeOtherFnLine2Pieces()
    ensures "other_fn(" + (");" + "\n") == "other_fn();\n"
  {
  }

  lemma TokenizeOtherFnLine2PieceTokens(t1: seq<Token>, t2: seq<Token>, t3: seq<Token>)
    requires t1 == [Identifier("other_fn"), ParenthesisOpen()]
    requires t2 == [ParenthesisClose(), Operator(StatementTerminator)]
    requires t3 == [NewLine]
    ensures t1 + (t2 + (t3 + [EndOfFile])) == [Identifier("other_fn"), ParenthesisOpen(), ParenthesisClose(), Operator(StatementTerminator), NewLine] + [EndOfFile]
  {
  }

  lemma TokenizeOtherFnLine2PieceFed(f1: string, f2: string, f3: string)
    requires f1 == "o("
    requires f2 == ");"
    requires f3 == "\n"
    ensures f1 + (f2 + f3) == "o();\n"
  {
  }

  /** Line 2 of the sample, joined from its pieces. */
  lemma TokenizeOtherFnLine2()
    ensures Lex("other_fn();\n") == Ok([Identifier("other_fn"), ParenthesisOpen(), ParenthesisClose(), Operator(StatementTerminator), NewLine] + [EndOfFile])
    ensures Fed("other_fn();\n") == "o();\n"
  {
    var c1, t1 := "other_fn(", [Identifier("other_fn"), ParenthesisOpen()];
    var c2, t2 := ");", [ParenthesisClose(), Operator(StatementTerminator)];
    var c3, t3 := "\n", [NewLine];
    PieceOtherFnOpen();
    PieceCloseSemi();
    PieceNewline();
    LexJoin(c2, c3, t2, t3 + [EndOfFile]);
    FedConcat(c2, c3);
    LexJoin(c1, (c2 + c3), t1, t2 + (t3 + [EndOfFile]));
    FedConcat(c1, (c2 + c3));
    TokenizeOtherFnLine2Pieces();
    TokenizeOtherFnLine2PieceTokens(t1, t2, t3);
    TokenizeOtherFnLine2PieceFed(Fed(c1), Fed(c2), Fed(c3));
  }

  lemma TokenizeOtherFnPieces()
    ensures "man();\n" + "other_fn();\n" == OtherFnText
  {
  }

  lemma TokenizeOtherFnPieceTokens(t1: seq<Token>, t2: seq<Token>)
    requires t1 == [Identifier("man"), ParenthesisOpen(), ParenthesisClose(), Operator(StatementTerminator), NewLine]
    requires t2 == [Identifier("other_fn"), ParenthesisOpen(), ParenthesisClose(), Operator(StatementTerminator), NewLine]
    ensures t1 + (t2 + [EndOfFile]) == OtherFnTokens
  {
  }

  lemma TokenizeOtherFnPieceFed(f1: string, f2: string)
    requires f1 == "m();\n"
    requires f2 == "o();\n"
    ensures f1 + f2 == "m();\no();\n"
  {
  }

  /** `tokenize_other_fn`: the eleven tokens the test expects; only the first character of each of the ten tokens before EndOfFile reaches the caret tracker. */
  lemma TokenizeOtherFn()
    ensures Lex(OtherFnText) == Ok(OtherFnTokens)
    ensures Fed(OtherFnText) == "m();\no();\n"
  {
    var c1, t1 := "man();\n", [Identifier("man"), ParenthesisOpen(), ParenthesisClose(), Operator(StatementTerminator), NewLine];
    var c2, t2 := "other_fn();\n", [Identifier("other_fn"), ParenthesisOpen(), ParenthesisClose(), Operator(StatementTerminator), NewLine];
    TokenizeOtherFnLine1();
    TokenizeOtherFnLine2();
    LexJoin(c1, c2, t1, t2 + [EndOfFile]);
    FedConcat(c1, c2);
    TokenizeOtherFnPieces();
    TokenizeOtherFnPieceTokens(t1, t2);
    TokenizeOtherFnPieceFed(Fed(c1), Fed(c2));
  }
  /** What the `other_fn` sample feeds the caret: one line, its newline, and nothing after it. */
  lemma OtherFnFedLines()
    ensures "m();\no();\n" == "m();\no();" + ['\n'] + []
    ensures NewlineCount("m();\no();") == 1
  {
    assert "m();\no();" == "m();" + ['\n'] + "o();";
    NewlineCountAppend("m();" + ['\n'], "o();");
    NewlineCountAppend("m();", ['\n']);
  }

  /** Tokenizing the `other_fn` sample moves the caret two lines down, to column 1. */
  lemma OtherFnCaret(p: Position)
    ensures Track(p, Fed(OtherFnText)) == Position(p.line + 2, 1)
  {
    TokenizeOtherFn();
    OtherFnFedLines();
    AfterLastNewline(p, "m();\no();", []);
  }

  /** `rows_and_colums`: a fresh tokenizer ends the `other_fn` sample at line 3, column 1. */
  method RowsAndColumns() returns (pos: Position)
    ensures pos == Position(3, 1)
  {
    var tokenizer := new Tokenizer.Tokenizer();
    var _ := tokenizer.Tokenize(OtherFnText);
    OtherFnCaret(Start);
    var caret := tokenizer.GetCaretPos();
    pos := caret.Pos();
  }

  /** A second `tokenize` on the same tokenizer goes on from where the first left the caret. */
  method TokenizeTwice() returns (pos: Position)
    ensures pos == Position(5, 1)
  {
    var tokenizer := new Tokenizer.Tokenizer();
    var _ := tokenizer.Tokenize(OtherFnText);
    OtherFnCaret(Start);
    var _ := tokenizer.Tokenize(OtherFnText);
    OtherFnCaret(Position(3, 1));
    pos := tokenizer.caretPos.Pos();
  }

  // ----- tokenize_main_fn -----

  lemma TokenizeMainFnPieces()
    ensures "main(" + (");" + "\n") == MainFnText
  {
  }

  lemma TokenizeMainFnPieceTokens(t1: seq<Token>, t2: seq<Token>, t3: seq<Token>)
    requires t1 == [Identifier("main"), ParenthesisOpen()]
    requires t2 == [ParenthesisClose(), Operator(StatementTerminator)]
    requires t3 == [NewLine]
    ensures t1 + (t2 + (t3 + [EndOfFile])) == MainFnTokens
  {
  }

  /** `tokenize_main_fn`: `main();` and a newline give six tokens. */
  lemma TokenizeMainFn()
    ensures Lex(MainFnText) == Ok(MainFnTokens)
  {
    var c1, t1 := "main(", [Identifier("main"), ParenthesisOpen()];
    var c2, t2 := ");", [ParenthesisClose(), Operator(StatementTerminator)];
    var c3, t3 := "\n", [NewLine];
    PieceMainOpen();
    PieceCloseSemi();
    PieceNewline();
    LexJoin(c2, c3, t2, t3 + [EndOfFile]);
    LexJoin(c1, (c2 + c3), t1, t2 + (t3 + [EndOfFile]));
    TokenizeMainFnPieces();
    TokenizeMainFnPieceTokens(t1, t2, t3);
  }
  // ----- tokenize_add -----

  lemma TokenizeAddLine1Pieces()
    ensures "add(" + ("a:" + (" " + ("u8," + (" " + ("b:" + (" " + ("u8)" + (": " + ("-> " + ("u8 " + "{\n")))))))))) == "add(a: u8, b: u8): -> u8 {\n"
  {
  }

  lemma TokenizeAddLine1PieceTokens(t1: seq<Token>, t2: seq<Token>, t3: seq<Token>, t4: seq<Token>, t5: seq<Token>, t6: seq<Token>, t7: seq<Token>, t8: seq<Token>, t9: seq<Token>, t10: seq<Token>, t11: seq<Token>, t12: seq<Token>)
    requires t1 == [Identifier("add"), ParenthesisOpen()]
    requires t2 == [Identifier("a"), Operator(TypeSpecifier)]
    requires t3 == [Whitespace]
    requires t4 == [Keyword("u8"), Operator(CommaSeparator)]
    requires t5 == [Whitespace]
    requires t6 == [Identifier("b"), Operator(TypeSpecifier)]
    requires t7 == [Whitespace]
    requires t8 == [Keyword("u8"), ParenthesisClose()]
    requires t9 == [Operator(TypeSpecifier), Whitespace]
    requires t10 == [Operator(ReturnType), Whitespace]
    requires t11 == [Keyword("u8"), Whitespace]
    requires t12 == [BraceOpen(), NewLine]
    ensures t1 + (t2 + (t3 + (t4 + (t5 + (t6 + (t7 + (t8 + (t9 + (t10 + (t11 + (t12 + [EndOfFile]))))))))))) == [Identifier("add"), ParenthesisOpen(), Identifier("a"), Operator(TypeSpecifier), Whitespace, Keyword("u8"), Operator(CommaSeparator), Whitespace, Identifier("b"), Operator(TypeSpecifier), Whitespace, Keyword("u8"), ParenthesisClose(), Operator(TypeSpecifier), Whitespace, Operator(ReturnType), Whitespace, Keyword("u8"), Whitespace, BraceOpen(), NewLine] + [EndOfFile]
  {
  }

  /** Line 1 of the sample, joined from its pieces. */
  lemma TokenizeAddLine1()
    ensures Lex("add(a: u8, b: u8): -> u8 {\n") == Ok([Identifier("add"), ParenthesisOpen(), Identifier("a"), Operator(TypeSpecifier), Whitespace, Keyword("u8"), Operator(CommaSeparator), Whitespace, Identifier("b"), Operator(TypeSpecifier), Whitespace, Keyword("u8"), ParenthesisClose(), Operator(TypeSpecifier), Whitespace, Operator(ReturnType), Whitespace, Keyword("u8"), Whitespace, BraceOpen(), NewLine] + [EndOfFile])
  {
    var c1, t1 := "add(", [Identifier("add"), ParenthesisOpen()];
    var c2, t2 := "a:", [Identifier("a"), Operator(TypeSpecifier)];
    var c3, t3 := " ", [Whitespace];
    var c4, t4 := "u8,", [Keyword("u8"), Operator(CommaSeparator)];
    var c5, t5 := " ", [Whitespace];
    var c6, t6 := "b:", [Identifier("b"), Operator(TypeSpecifier)];
    var c7, t7 := " ", [Whitespace];
    var c8, t8 := "u8)", [Keyword("u8"), ParenthesisClose()];
    var c9, t9 := ": ", [Operator(TypeSpecifier), Whitespace];
    var c10, t10 := "-> ", [Operator(ReturnType), Whitespace];
    var c11, t11 := "u8 ", [Keyword("u8"), Whitespace];
    var c12, t12 := "{\n", [BraceOpen(), NewLine];
    PieceAddOpen();
    PieceAColon();
    PieceSpace();
    PieceU8Comma();
    PieceSpace();
    PieceBColon();
    PieceSpace();
    PieceU8Close();
    PieceColonSpace();
    PieceArrowSpace();
    PieceU8Space();
    PieceBraceOpenNewline();
    LexJoin(c11, c12, t11, t12 + [EndOfFile]);
    LexJoin(c10, (c11 + c12), t10, t11 + (t12 + [EndOfFile]));
    LexJoin(c9, (c10 + (c11 + c12)), t9, t10 + (t11 + (t12 + [EndOfFile])));
    LexJoin(c8, (c9 + (c10 + (c11 + c12))), t8, t9 + (t10 + (t11 + (t12 + [EndOfFile]))));
    LexJoin(c7, (c8 + (c9 + (c10 + (c11 + c12)))), t7, t8 + (t9 + (t10 + (t11 + (t12 + [EndOfFile])))));
    LexJoin(c6, (c7 + (c8 + (c9 + (c10 + (c11 + c12))))), t6, t7 + (t8 + (t9 + (t10 + (t11 + (t12 + [EndOfFile]))))));
    LexJoin(c5, (c6 + (c7 + (c8 + (c9 + (c10 + (c11 + c12)))))), t5, t6 + (t7 + (t8 + (t9 + (t10 + (t11 + (t12 + [EndOfFile])))))));
    LexJoin(c4, (c5 + (c6 + (c7 + (c8 + (c9 + (c10 + (c11 + c12))))))), t4, t5 + (t6 + (t7 + (t8 + (t9 + (t10 + (t11 + (t12 + [EndOfFile]))))))));
    LexJoin(c3, (c4 + (c5 + (c6 + (c7 + (c8 + (c9 + (c10 + (c11 + c12)))))))), t3, t4 + (t5 + (t6 + (t7 + (t8 + (t9 + (t10 + (t11 + (t12 + [EndOfFile])))))))));
    LexJoin(c2, (c3 + (c4 + (c5 + (c6 + (c7 + (c8 + (c9 + (c10 + (c11 + c12))))))))), t2, t3 + (t4 + (t5 + (t6 + (t7 + (t8 + (t9 + (t10 + (t11 + (t12 + [EndOfFile]))))))))));
    LexJoin(c1, (c2 + (c3 + (c4 + (c5 + (c6 + (c7 + (c8 + (c9 + (c10 + (c11 + c12)))))))))), t1, t2 + (t3 + (t4 + (t5 + (t6 + (t7 + (t8 + (t9 + (t10 + (t11 + (t12 + [EndOfFile])))))))))));
    TokenizeAddLine1Pieces();
    TokenizeAddLine1PieceTokens(t1, t2, t3, t4, t5, t6, t7, t8, t9, t10, t11, t12);
  }

  lemma TokenizeAddLine2Pieces()
    ensures "  " + ("return " + ("a " + ("+ " + ("b;" + "\n")))) == "  return a + b;\n"
  {
  }

  lemma TokenizeAddLine2PieceTokens(t1: seq<Token>, t2: seq<Token>, t3: seq<Token>, t4: seq<Token>, t5: seq<Token>, t6: seq<Token>)
    requires t1 == [Whitespace]
    requires t2 == [Keyword("return"), Whitespace]
    requires t3 == [Identifier("a"), Whitespace]
    requires t4 == [Operator(Addition), Whitespace]
    requires t5 == [Identifier("b"), Operator(StatementTerminator)]
    requires t6 == [NewLine]
    ensures t1 + (t2 + (t3 + (t4 + (t5 + (t6 + [EndOfFile]))))) == [Whitespace, Keyword("return"), Whitespace, Identifier("a"), Whitespace, Operator(Addition), Whitespace, Identifier("b"), Operator(StatementTerminator), NewLine] + [EndOfFile]
  {
  }

  /** Line 2 of the sample, joined from its pieces. */
  lemma TokenizeAddLine2()
    ensures Lex("  return a + b;\n") == Ok([Whitespace, Keyword("return"), Whitespace, Identifier("a"), Whitespace, Operator(Addition), Whitespace, Identifier("b"), Operator(StatementTerminator), NewLine] + [EndOfFile])
  {
    var c1, t1 := "  ", [Whitespace];
    var c2, t2 := "return ", [Keyword("return"), Whitespace];
    var c3, t3 := "a ", [Identifier("a"), Whitespace];
    var c4, t4 := "+ ", [Operator(Addition), Whitespace];
    var c5, t5 := "b;", [Identifier("b"), Operator(StatementTerminator)];
    var c6, t6 := "\n", [NewLine];
    PieceSpaces2();
    PieceReturnSpace();
    PieceASpace();
    PiecePlusSpace();
    PieceBSemi();
    PieceNewline();
    LexJoin(c5, c6, t5, t6 + [EndOfFile]);
    LexJoin(c4, (c5 + c6), t4, t5 + (t6 + [EndOfFile]));
    LexJoin(c3, (c4 + (c5 + c6)), t3, t4 + (t5 + (t6 + [EndOfFile])));
    LexJoin(c2, (c3 + (c4 + (c5 + c6))), t2, t3 + (t4 + (t5 + (t6 + [EndOfFile]))));
    LexJoin(c1, (c2 + (c3 + (c4 + (c5 + c6)))), t1, t2 + (t3 + (t4 + (t5 + (t6 + [EndOfFile])))));
    TokenizeAddLine2Pieces();
    TokenizeAddLine2PieceTokens(t1, t2, t3, t4, t5, t6);
  }

  lemma TokenizeAddLine3Pieces()
    ensures "};" + "\n" == "};\n"
  {
  }

  lemma TokenizeAddLine3PieceTokens(t1: seq<Token>, t2: seq<Token>)
    requires t1 == [BraceClose(), Operator(StatementTerminator)]
    requires t2 == [NewLine]
    ensures t1 + (t2 + [EndOfFile]) == [BraceClose(), Operator(StatementTerminator), NewLine] + [EndOfFile]
  {
  }

  /** Line 3 of the sample, joined from its pieces. */
  lemma TokenizeAddLine3()
    ensures Lex("};\n") == Ok([BraceClose(), Operator(StatementTerminator), NewLine] + [EndOfFile])
  {
    var c1, t1 := "};", [BraceClose(), Operator(StatementTerminator)];
    var c2, t2 := "\n", [NewLine];
    PieceBraceCloseSemi();
    PieceNewline();
    LexJoin(c1, c2, t1, t2 + [EndOfFile]);
    TokenizeAddLine3Pieces();
    TokenizeAddLine3PieceTokens(t1, t2);
  }

  lemma TokenizeAddPieces()
    ensures "add(a: u8, b: u8): -> u8 {\n" + ("  return a + b;\n" + "};\n") == AddText
  {
  }

  lemma TokenizeAddPieceTokens(t1: seq<Token>, t2: seq<Token>, t3: seq<Token>)
    requires t1 == [Identifier("add"), ParenthesisOpen(), Identifier("a"), Operator(TypeSpecifier), Whitespace, Keyword("u8"), Operator(CommaSeparator), Whitespace, Identifier("b"), Operator(TypeSpecifier), Whitespace, Keyword("u8"), ParenthesisClose(), Operator(TypeSpecifier), Whitespace, Operator(ReturnType), Whitespace, Keyword("u8"), Whitespace, BraceOpen(), NewLine]
    requires t2 == [Whitespace, Keyword("return"), Whitespace, Identifier("a"), Whitespace, Operator(Addition), Whitespace, Identifier("b"), Operator(StatementTerminator), NewLine]
    requires t3 == [BraceClose(), Operator(StatementTerminator), NewLine]
    ensures t1 + (t2 + (t3 + [EndOfFile])) == AddTokens
  {
  }

  /** `tokenize_add`: keywords, operators, single Whitespace tokens for runs of spaces, and `->`, in one function. */
  lemma TokenizeAdd()
    ensures Lex(AddText) == Ok(AddTokens)
  {
    var c1, t1 := "add(a: u8, b: u8): -> u8 {\n", [Identifier("add"), ParenthesisOpen(), Identifier("a"), Operator(TypeSpecifier), Whitespace, Keyword("u8"), Operator(CommaSeparator), Whitespace, Identifier("b"), Operator(TypeSpecifier), Whitespace, Keyword("u8"), ParenthesisClose(), Operator(TypeSpecifier), Whitespace, Operator(ReturnType), Whitespace, Keyword("u8"), Whitespace, BraceOpen(), NewLine];
    var c2, t2 := "  return a + b;\n", [Whitespace, Keyword("return"), Whitespace, Identifier("a"), Whitespace, Operator(Addition), Whitespace, Identifier("b"), Operator(StatementTerminator), NewLine];
    var c3, t3 := "};\n", [BraceClose(), Operator(StatementTerminator), NewLine];
    TokenizeAddLine1();
    TokenizeAddLine2();
    TokenizeAddLine3();
    LexJoin(c2, c3, t2, t3 + [EndOfFile]);
    LexJoin(c1, (c2 + c3), t1, t2 + (t3 + [EndOfFile]));
    TokenizeAddPieces();
    TokenizeAddPieceTokens(t1, t2, t3);
  }
  // ----- The from_file sample -----

  lemma FromFileHeadPieces()
    ensures "main(" + ("):" + (" ->" + (" " + "u8 "))) == "main(): -> u8 "
  {
  }

  lemma FromFileHeadPieceTokens(t1: seq<Token>, t2: seq<Token>, t3: seq<Token>, t4: seq<Token>, t5: seq<Token>)
    requires t1 == [Identifier("main"), ParenthesisOpen()]
    requires t2 == [ParenthesisClose(), Operator(TypeSpecifier)]
    requires t3 == [Whitespace, Operator(ReturnType)]
    requires t4 == [Whitespace]
    requires t5 == [Keyword("u8"), Whitespace]
    ensures t1 + (t2 + (t3 + (t4 + (t5 + [EndOfFile])))) == [Identifier("main"), ParenthesisOpen(), ParenthesisClose(), Operator(TypeSpecifier), Whitespace, Operator(ReturnType), Whitespace, Keyword("u8"), Whitespace] + [EndOfFile]
  {
  }

  /** The part of the `from_file` sample before `:=` tokenizes. */
  lemma FromFileHead()
    ensures Lex("main(): -> u8 ") == Ok([Identifier("main"), ParenthesisOpen(), ParenthesisClose(), Operator(TypeSpecifier), Whitespace, Operator(ReturnType), Whitespace, Keyword("u8"), Whitespace] + [EndOfFile])
  {
    var c1, t1 := "main(", [Identifier("main"), ParenthesisOpen()];
    var c2, t2 := "):", [ParenthesisClose(), Operator(TypeSpecifier)];
    var c3, t3 := " ->", [Whitespace, Operator(ReturnType)];
    var c4, t4 := " ", [Whitespace];
    var c5, t5 := "u8 ", [Keyword("u8"), Whitespace];
    PieceMainOpen();
    PieceCloseColon();
    PieceSpaceArrow();
    PieceSpace();
    PieceU8Space();
    LexJoin(c4, c5, t4, t5 + [EndOfFile]);
    LexJoin(c3, (c4 + c5), t3, t4 + (t5 + [EndOfFile]));
    LexJoin(c2, (c3 + (c4 + c5)), t2, t3 + (t4 + (t5 + [EndOfFile])));
    LexJoin(c1, (c2 + (c3 + (c4 + c5))), t1, t2 + (t3 + (t4 + (t5 + [EndOfFile]))));
    FromFileHeadPieces();
    FromFileHeadPieceTokens(t1, t2, t3, t4, t5);
  }

  /** From `:=` on, the `from_file` sample aborts on `=`. */
  lemma FromFileTail()
    ensures Lex(":= {\n  return 0;\n}\n") == Err(Unhandled('='))
  {
    var v := " {\n  return 0;\n}\n";
    UnhandledAborts('=', v);
    assert ":" + ("=" + v) == ":= {\n  return 0;\n}\n";
    LexCons(":", "=" + v, Operator(TypeSpecifier));
  }

  lemma FromFileSplit()
    ensures "main(): -> u8 " + ":= {\n  return 0;\n}\n" == FromFileText
  {
  }

  /** The `from_file` sample does not tokenize: `=` has no rule, and the run aborts on it. */
  lemma FromFileSampleAborts()
    ensures Lex(FromFileText) == Err(Unhandled('='))
  {
    FromFileHead();
    FromFileTail();
    LexConcat("main(): -> u8 ", ":= {\n  return 0;\n}\n", [Identifier("main"), ParenthesisOpen(),
      ParenthesisClose(), Operator(TypeSpecifier), Whitespace, Operator(ReturnType), Whitespace,
      Keyword("u8"), Whitespace]);
    FromFileSplit();
  }

  // ----- Keywords -----

  /** A bare keyword is a Keyword token followed by EndOfFile. */
  lemma BareKeyword()
    ensures Lex("u8") == Ok([Keyword("u8"), EndOfFile])
    ensures Lex("return") == Ok([Keyword("return"), EndOfFile])
  {
    assert Lex([]) == Ok([EndOfFile]);
    KeywordPrecedence("u8", []);
    assert "u8" + [] == "u8";
    assert [Keyword("u8")] + [EndOfFile] == [Keyword("u8"), EndOfFile];
    KeywordPrecedence("return", []);
    assert "return" + [] == "return";
    assert [Keyword("return")] + [EndOfFile] == [Keyword("return"), EndOfFile];
  }
}
