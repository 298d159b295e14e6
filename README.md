# fadelang lexer, modelled in Dafny

This project models the lexer of the fadelang compiler front end: the
tokenizer loop and caret tracker of `fll/src/tokenizer.rs`, and the token
model of `fll/src/token.rs`.

- `wrappers.dfy`: `Option` and `Result`.
- `tokens.dfy` (module `Tokens`) covers the token kinds and their
  payloads: `BracketType`, the 41 `OperatorType` members and `Token`. It
  also holds the `open`/`close` constructors, the fixed keyword set
  `IsKeyword`, and the two character-class predicates
  `KeywordIsValidChar` and `IdentifierIsValidChar`.
- `caret.dfy` (module `Caret`) covers the caret tracker.
  - The value `Position` and its one-character transition `Advance`.
  - `Track`, the transition applied to a sequence of characters.
  - `Display`, the `:<line>:<column>` rendering.
  - The class `CaretPos`, whose methods update `line` and `column` in place
    as `process_char`, `new_line` and the increment/reset helpers do.
- `lexer.dfy` (module `Lexer`) is the functional specification of
  `tokenize`.
  - `Step` is one iteration of the ordered `if`/`else if` chain on the
    remaining input. It returns the token pushed and the number of
    characters taken, or the abort.
  - `Lex` is the whole loop.
  - `Fed` lists the characters the loop hands to `process_char`.
- `tokenizer.dfy` (module `Tokenizer`) is the imperative model.
  - `NextToken` is the body of one iteration, with its two inner scanning
    loops.
  - The class `Tokenizer` owns a `CaretPos`. Its `Tokenize` loops over the
    input by index, feeds the caret, and is proved to return `Lex(source)`
    and to leave the caret at `Track(old position, Fed(source))`.
- `lexer_properties.dfy` (module `LexerProperties`) proves what the loop
  promises:
  - the shape of the output;
  - space runs collapse into one token;
  - what `->` and `-` do;
  - the maximal word scan with keyword precedence;
  - which characters abort;
  - which tokens can occur at all;
  - splitting an input at a token boundary;
  - how the caret's line relates to the newlines of the input.
- `scenarios.dfy` (module `Scenarios`) states the tests of
  `fll/src/tokenizer.rs` on their inputs. It also proves that the sample of
  `fll/src/source.rs` aborts.

Two behaviours of the code are modelled exactly as written.

- **The caret counts only the first character of each token.** The caret
  is advanced once per loop iteration, with the character that starts the
  token. The characters a scan swallows never reach `process_char`: the
  `>` of `->`, the spaces after the first, and the characters of a word
  after the first. So the column counts tokens on the current line, not
  characters.
- **A second `tokenize` call continues from the previous caret position.**
  `tokenize` never resets the caret (`Scenarios.TokenizeTwice`).

The failure channel of `tokenize` is a `Result` whose error `Abort` has two
cases:

- `Unhandled(c)`: the `panic!` for a character no rule handles;
- `UnwrapOnNone`: the failed `unwrap` of the lookahead when `-` is the last
  character.

The declared `io::Result` is always `Ok` when `tokenize` returns.

## Model

| member | source | states |
|---|---|---|
| Tokens.ParenthesisOpen | fll/src/token.rs:152-155 | `Parenthesis::open()` is a Parenthesis token whose bracket type is Opening |
| Tokens.ParenthesisClose | fll/src/token.rs:157-159 | `Parenthesis::close()` is a Parenthesis token whose bracket type is Closing |
| Tokens.BracketOpen | fll/src/token.rs:182-184 | `Bracket::open()` is a Bracket token with bracket type Opening |
| Tokens.BracketClose | fll/src/token.rs:186-188 | `Bracket::close()` is a Bracket token with bracket type Closing |
| Tokens.BraceOpen | fll/src/token.rs:211-213 | `Brace::open()` is a Brace token with bracket type Opening |
| Tokens.BraceClose | fll/src/token.rs:215-217 | `Brace::close()` is a Brace token with bracket type Closing |
| Tokens.KeywordIsValidChar | fll/src/token.rs:58-60 | `Keyword::is_valid_char` holds exactly for the lower-case ASCII letters |
| Tokens.IdentifierIsValidChar | fll/src/token.rs:97-106 | `Identifier::is_valid_char` holds for ASCII letters and `_`, and also for ASCII digits when `beginning` is false |
| Tokens.IsKeyword | fll/src/token.rs:83-85 | `is_keyword` holds exactly for the whole strings `u8` and `return` |
| Tokens.KeywordCharIsIdentifierStart | fll/src/token.rs:58-60 | every character `Keyword::is_valid_char` admits is also admitted by `Identifier::is_valid_char(_, true)` |
| Tokens.IdentifierStartChars | fll/src/token.rs:97-106 | with `beginning = true` the identifier predicate holds exactly for ASCII letters and `_` |
| Tokens.IdentifierContinueChars | fll/src/token.rs:97-106 | with `beginning = false` it holds exactly for the start characters and the ASCII digits |
| Tokens.WordCharReduces | fll/src/tokenizer.rs:56-61 | the disjunction "identifier char or keyword char" that guards the word scan is equivalent to the identifier predicate alone |
| Tokens.KeywordsAreIdentifierTexts | fll/src/token.rs:83-85 | every keyword follows the identifier grammar |
| Tokens.KeywordMatchIsExact | fll/src/token.rs:83-85 | no keyword is a prefix of a different keyword: `is_keyword` matches whole strings |
| Tokens.KeywordAccessorRoundTrip | fll/src/token.rs:63-81 | `Keyword::from(s).keyword()` returns `s` |
| Tokens.IdentifierAccessorRoundTrip | fll/src/token.rs:109-127 | `Identifier::from(s).identifier()` returns `s` |
| Tokens.BracketAccessorRoundTrip | fll/src/token.rs:146-224 | `bracket_type()` of a Parenthesis, Bracket or Brace built from `b` returns `b` |
| Tokens.OperatorAccessorRoundTrip | fll/src/token.rs:298-307 | `Operator::from(o).operator_type()` returns `o` |
| Caret.Advance | fll/src/tokenizer.rs:130-140 | the end-of-input signal leaves the caret unchanged; a newline moves to the next line at column 1; any other character moves one column right on the same line; the line never decreases |
| Caret.CaretPos.Pos | fll/src/tokenizer.rs:122-128 | the pair that `get_line` and `get_column` read |
| Caret.CaretPos.ProcessChar | fll/src/tokenizer.rs:130-140 | `process_char` updates the fields in place to the position `Advance` gives |
| Caret.CaretPos.ResetColumn | fll/src/tokenizer.rs:105-107 | the column becomes 1 and the line is kept |
| Caret.CaretPos.IncrementLine | fll/src/tokenizer.rs:109-111 | the line grows by one and the column is kept |
| Caret.CaretPos.IncrementColumn | fll/src/tokenizer.rs:113-115 | the column grows by one and the line is kept |
| Caret.CaretPos.NewLine | fll/src/tokenizer.rs:117-120 | the line grows by one and the column becomes 1 |
| Caret.CaretPos.constructor | fll/src/tokenizer.rs:143-147 | `CaretPos::default` is at line 1, column 1 |
| Caret.CaretPos.FromPair | fll/src/tokenizer.rs:149-156 | `CaretPos::from((line, column))` holds exactly that pair |
| Caret.Track | fll/src/tokenizer.rs:130-140 | the caret after `process_char` has been called with each character of a sequence in turn |
| Caret.TrackAppend | fll/src/tokenizer.rs:17-20 | feeding `a` and then `b` to the caret is the same as feeding `a + b` |
| Caret.TrackLine | fll/src/tokenizer.rs:17-20 | feeding characters moves the line on by exactly the number of newlines among them |
| Caret.TrackWithinLine | fll/src/tokenizer.rs:17-20 | characters without a newline keep the line and move the column one step per character |
| Caret.AfterLastNewline | fll/src/tokenizer.rs:130-140 | after the last newline the column is 1 plus the number of characters fed since, whatever it was before |
| Caret.Decimal | fll/src/tokenizer.rs:158-161 | the rendering of a number is a non-empty string of decimal digits with no leading zero |
| Caret.DecimalRoundTrip | fll/src/tokenizer.rs:158-161 | reading that rendering back gives the number |
| Caret.Display | fll/src/tokenizer.rs:158-161 | `impl Display for CaretPos` writes `:`, the line in decimal, `:`, the column in decimal |
| Caret.DisplayShape | fll/src/tokenizer.rs:158-161 | the rendering is `:`, the line's digits, `:`, the column's digits, and holds no other non-digit |
| Caret.DisplayInjective | fll/src/tokenizer.rs:158-161 | two carets with the same rendering are equal, so the rendering determines line and column |
| Lexer.SpaceRunEnd | fll/src/tokenizer.rs:50-52 | where the `while let Some(' ')` loop stops, at or after its start and within the input |
| Lexer.SpaceRunIsMaximal | fll/src/tokenizer.rs:49-53 | the space scan takes only spaces and stops at the end of input or at a non-space |
| Lexer.WordEnd | fll/src/tokenizer.rs:59-67 | where the word loop stops, at or after its start and within the input |
| Lexer.WordIsMaximal | fll/src/tokenizer.rs:56-67 | the word scan takes only word characters and stops at the end of input or at a non-word character |
| Lexer.Step | fll/src/tokenizer.rs:26-78 | one successful iteration takes between 1 and all of the remaining characters and never pushes EndOfFile |
| Lexer.Lex | fll/src/tokenizer.rs:17-80 | the tokens of the whole loop: each iteration's token in order and EndOfFile at the end of input, or the first abort; its shape is `LexerProperties.LexShape` |
| Lexer.Fed | fll/src/tokenizer.rs:17-20 | the caret is handed at most one character per input character |
| Tokenizer.NextToken | fll/src/tokenizer.rs:26-78 | the imperative chain, with its two inner scanning loops, pushes the token `Step` names, leaves the iterator at the index `Step` gives, and aborts exactly where `Step` does |
| Tokenizer.Advanced | fll/src/tokenizer.rs:17-75 | after one successful iteration, the outcome still to come and the characters still to be fed carry over from the old index to the new one |
| Tokenizer.Aborted | fll/src/tokenizer.rs:76-77 | an iteration that aborts ends the run with that abort, after feeding its character to the caret |
| Tokenizer.Tokenizer.constructor | fll/src/tokenizer.rs:90-96 | `Tokenizer::default` holds a fresh caret at (1, 1) |
| Tokenizer.Tokenizer.GetCaretPos | fll/src/tokenizer.rs:85-87 | `get_caret_pos` returns a fresh copy holding the current caret value |
| Tokenizer.Tokenizer.Tokenize | fll/src/tokenizer.rs:11-83 | the outcome is `Lex(source)`, and the caret, without being reset, has moved from wherever it was by the characters `Fed(source)` lists |
| LexerProperties.LexCons | fll/src/tokenizer.rs:17-75 | when the first iteration takes exactly `w`, the run pushes its token and goes on with the rest; the caret gets the first character of `w` |
| LexerProperties.StepAborts | fll/src/tokenizer.rs:26-78 | an iteration aborts if and only if the first character has no rule, or is a `-` not followed by `>`; it fails the `unwrap` exactly on a lone final `-`, and otherwise the abort names the character |
| LexerProperties.UnhandledAborts | fll/src/tokenizer.rs:76-77 | a character with no rule aborts the whole run at once, and no token is kept |
| LexerProperties.UnhandledExamples | fll/src/tokenizer.rs:76-77 | digits, `$`, `=`, `[`, `]`, `*`, `/`, `!` and tab cannot start a token |
| LexerProperties.ReturnTypeArrow | fll/src/tokenizer.rs:40-42 | `->` is one ReturnType operator, whatever follows, and only its `-` reaches the caret |
| LexerProperties.BareMinusAborts | fll/src/tokenizer.rs:40-42 | a final `-` fails the `unwrap`; a `-` followed by anything but `>` falls through to the `panic!` |
| LexerProperties.StepOkChars | fll/src/tokenizer.rs:26-78 | every character a successful iteration takes is a handled start character or a digit, and a `-` among them is followed by `>` |
| LexerProperties.LexOkChars | fll/src/tokenizer.rs:17-80 | in an input that tokenizes, every character is a handled start character or a digit, and every `-` is followed by `>` |
| LexerProperties.UnhandledAnywhereAborts | fll/src/tokenizer.rs:76-78 | a character outside the handled set, other than a digit, anywhere in the input makes the run abort |
| LexerProperties.BareMinusAnywhereAborts | fll/src/tokenizer.rs:40 | a `-` anywhere in the input that is last or not followed by `>` makes the run abort |
| LexerProperties.SpaceRunEndAt | fll/src/tokenizer.rs:49-53 | the space scan ends at the first non-space |
| LexerProperties.StepWhitespace | fll/src/tokenizer.rs:49-53 | an iteration pushes Whitespace if and only if the token starts with a space |
| LexerProperties.LexShape | fll/src/tokenizer.rs:17-24 | a successful outcome ends with EndOfFile, holds no other EndOfFile, and has between 1 and the input length plus 1 tokens |
| LexerProperties.FirstToken | fll/src/tokenizer.rs:17-75 | the first token of a successful run is the one its first iteration pushes |
| LexerProperties.NoAdjacentWhitespace | fll/src/tokenizer.rs:49-53 | no two Whitespace tokens are ever adjacent in a successful outcome |
| LexerProperties.SpaceRunSkip | fll/src/tokenizer.rs:49-53 | a space scan passing over spaces ends where the scan from after them ends |
| LexerProperties.SpaceRunShift | fll/src/tokenizer.rs:49-53 | a space scan inside the second part of a concatenation is that part's scan, shifted |
| LexerProperties.SpaceRunLocal | fll/src/tokenizer.rs:49-53 | a space scan that meets a non-space depends only on the characters up to it |
| LexerProperties.WordEndLocal | fll/src/tokenizer.rs:56-67 | a word scan that meets a non-word character depends only on the characters up to it |
| LexerProperties.StepLocal | fll/src/tokenizer.rs:26-78 | two inputs sharing a prefix that ends in a space and contains a non-space have the same first iteration, which stays inside that prefix |
| LexerProperties.SameRest | fll/src/tokenizer.rs:17-75 | two inputs whose first iterations push the same token and leave the same rest have the same outcome |
| LexerProperties.SpacesThen | fll/src/tokenizer.rs:49-53 | a run of spaces followed by more input is taken together with the spaces that open that input |
| LexerProperties.ExtraSpaceInRun | fll/src/tokenizer.rs:49-53 | inside a leading run of spaces, one more space changes nothing |
| LexerProperties.ExtraSpaceInvisible | fll/src/tokenizer.rs:49-53 | runs of N and N + 1 spaces give the same outcome wherever they occur, aborts included |
| LexerProperties.SameStepSameOutcome | fll/src/tokenizer.rs:17-75 | two inputs whose first iterations agree, and whose rests after it have the same outcome, have the same outcome |
| LexerProperties.StepPrefix | fll/src/tokenizer.rs:26-78 | a successful iteration is unaffected by what follows a token boundary: a delimiter, or a space not followed by a space |
| LexerProperties.DelimiterAlone | fll/src/tokenizer.rs:26-48 | a delimiter is a token by itself, whatever follows |
| LexerProperties.SpacesAlone | fll/src/tokenizer.rs:49-53 | a run of one or more spaces before a non-space is one Whitespace token, and only its first space reaches the caret |
| LexerProperties.WordAlone | fll/src/tokenizer.rs:56-75 | a word before a non-word character is one token carrying its text: a Keyword if it is one, an Identifier otherwise; only its first character reaches the caret |
| LexerProperties.LexConcat | fll/src/tokenizer.rs:17-80 | at a token boundary the outcome of `a + b` is the tokens of `a` before its EndOfFile, followed by the outcome of `b`, including `b`'s abort |
| LexerProperties.LexJoin | fll/src/tokenizer.rs:17-80 | two successful runs joined at a token boundary give the tokens of the first before its EndOfFile, then the tokens of the second |
| LexerProperties.LexOkRest | fll/src/tokenizer.rs:17-75 | a successful run starts with a successful iteration, and the rest of the run succeeds too |
| LexerProperties.FedConcat | fll/src/tokenizer.rs:17-20 | at a token boundary the caret is fed the characters of `a`, then those of `b` |
| LexerProperties.FedStep | fll/src/tokenizer.rs:17-20 | at a token boundary, the first iteration over `a + b` feeds the first character of `a` and leaves the rest of `a` followed by `b` |
| LexerProperties.FedOk | fll/src/tokenizer.rs:17-20 | a successful first iteration feeds the caret exactly the character it starts at, then the rest of the input |
| LexerProperties.WordEndAt | fll/src/tokenizer.rs:56-67 | the word scan ends at the first non-word character |
| LexerProperties.WordScan | fll/src/tokenizer.rs:56-75 | on a letter or `_` the iteration takes a non-empty word of letters, digits and `_` that cannot be extended, and pushes it with its text, as a Keyword exactly when it is one |
| LexerProperties.KeywordPrecedence | fll/src/tokenizer.rs:69-74 | a keyword followed by the end of input or by a non-word character is pushed as a Keyword, never as an Identifier |
| LexerProperties.StepProducible | fll/src/tokenizer.rs:26-78 | every token an iteration pushes is one a rule produces |
| LexerProperties.LexProducible | fll/src/tokenizer.rs:17-80 | every token of a successful outcome is producible: keyword text is a keyword, identifier text follows the identifier grammar and is no keyword, it is no Bracket, and it is one of the seven produced operators |
| LexerProperties.StepSkipsNoNewline | fll/src/tokenizer.rs:49-67 | the characters a scan swallows past the first are never newlines |
| LexerProperties.FedNewlines | fll/src/tokenizer.rs:17-20 | on a successful run every newline of the input reaches the caret |
| LexerProperties.FedOnePerToken | fll/src/tokenizer.rs:17-24 | on a successful run exactly one character reaches the caret for each token before EndOfFile |
| LexerProperties.LineAfterTokenize | fll/src/tokenizer.rs:17-20 | after a successful run the caret's line has moved on by the number of newlines of the input, so it is 1 plus that number from a fresh tokenizer |
| Scenarios.TokenizeOtherFn | fll/src/tokenizer.rs:205-225 | `man();\nother_fn();\n` gives the eleven tokens the test expects, and the caret is handed `m();\no();\n` |
| Scenarios.OtherFnCaret | fll/src/tokenizer.rs:275-283 | tokenizing that sample moves the caret two lines down, to column 1 |
| Scenarios.RowsAndColumns | fll/src/tokenizer.rs:275-283 | a fresh tokenizer, after that sample, has its caret at (3, 1) |
| Scenarios.TokenizeTwice | fll/src/tokenizer.rs:11-20 | a second `tokenize` on the same tokenizer continues from (3, 1) and ends at (5, 1) |
| Scenarios.TokenizeMainFn | fll/src/tokenizer.rs:180-202 | `main();\n` gives the six tokens the test expects |
| Scenarios.TokenizeAdd | fll/src/tokenizer.rs:228-272 | a three-line `add` function gives the thirty-five tokens the test expects |
| Scenarios.FromFileSampleAborts | fll/src/source.rs:48 | the `from_file` sample does not tokenize: the run aborts on the `=` of `:=` |
| Scenarios.BareKeyword | fll/src/tokenizer.rs:69-71 | `u8` and `return` on their own are each one Keyword token, then EndOfFile |

Some lemmas are facts about sequences, `Result` values and counting that
the proofs above rely on, and model no line of the source by themselves:
`Caret.NewlineCountAppend` (newlines of a concatenation),
`LexerProperties.PrependAllNil`, `LexerProperties.PrependAllCons`,
`LexerProperties.ConsSnoc`, `LexerProperties.ConsAssoc`,
`LexerProperties.NoNewlineCount` and `LexerProperties.LexOkCharAt`
(`LexOkChars` at one position).

The members of `Scenarios` whose names start with `Piece`, or end in
`Pieces`, `PieceTokens`, `PieceFed` or `Line…`, are the steps of the
scenario proofs. So are `OtherFnFedLines`, `FromFileHead`, `FromFileTail`
and `FromFileSplit`. Each `Piece…` lemma works out the run of one short
text, once, for every sample cut into it; the sample lemmas join the
pieces with `LexJoin` and `FedConcat`.

## Left out

- `fll/src/source.rs`, and `source.read_to_string()` at
  fll/src/tokenizer.rs:12, are file I/O. `Tokenize` takes the materialised
  text as a `string`.
- The input of `tokenize_add` is reconstructed. The files under `test/`
  are not part of this model. `AddText` is an input that yields the
  test's expected tokens. The other two samples are fixed by their tests:
  for `main_fn` and `other_fn` by the expected tokens, and for `other_fn`
  also by the caret position.
- The tests compare only lengths, while the scenarios prove whole token
  sequences.
- The `PartialEq for dyn Token` impl (fll/src/token.rs:3-9) is left out.
  It compares static types, so it says all tokens are equal. The model
  uses Dafny's structural equality of `Token`.
- `Debug` derivations and the test output printing are left out.
- Line and column are `nat`, so the `usize` overflow of the increments is
  not modelled.
- The `Box<dyn Token>` trait objects become one `Token` datatype. The
  `Default` constructors of EndOfFile, NewLine and Whitespace are its
  nullary constructors.
- The unused OperatorType members and the Bracket token are in the
  datatype. No rule produces them (`LexerProperties.LexProducible`).
- The abort is a return value, not a process abort. The `Err` of
  `io::Result` never occurs in `tokenize` and is not modelled.
- `Lex`, `SpaceRunEnd` and `WordEnd` carry only bounds in their own
  contracts. What they mean is stated in the lemmas about them:
  `LexShape`, `SpaceRunIsMaximal` and `WordIsMaximal`.
- `Lexer.Step`: its own contract is weaker than the chain it models. It
  states only the bounds and that EndOfFile is never pushed. Its
  branch-by-branch behaviour is stated by `Tokenizer.NextToken`,
  `StepAborts`, `WordScan`, `ReturnTypeArrow` and the other lemmas of
  `LexerProperties`.
