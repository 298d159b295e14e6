/**
 * The caret tracker of the tokenizer (the `CaretPos` half of
 * fll/src/tokenizer.rs): a (line, column) pair, both starting at 1,
 * advanced by `process_char` once per character handed to it.
 */
module Caret {
  import opened Wrappers

  /** The value of a caret: what `get_line` and `get_column` read. */
  datatype Position = Position(line: nat, column: nat)

  /** Where every caret starts (`CaretPos::default`). */
  const Start := Position(1, 1)

  /**
   * The effect of `process_char`: the end-of-input signal changes nothing;
   * a character first moves the column on, and a newline then moves to
   * the next line and resets the column.
   */
  function Advance(p: Position, c: Option<char>): (q: Position)
    ensures c.None? ==> q == p
    ensures c == Some('\n') ==> q == Position(p.line + 1, 1)
    ensures c.Some? && c.value != '\n' ==> q == Position(p.line, p.column + 1)
    ensures q.line >= p.line
  {
    match c
    case None => p
    case Some(ch) =>
      var moved := Position(p.line, p.column + 1);
      if ch == '\n' then Position(moved.line + 1, 1) else moved
  }

  /** The caret after `process_char` has been given each of `cs` in turn. */
  function Track(p: Position, cs: seq<char>): Position
    decreases |cs|
  {
    if cs == [] then p else Track(Advance(p, Some(cs[0])), cs[1..])
  }

  /** Number of newline characters in `cs`. */
  function NewlineCount(cs: seq<char>): nat
    decreases |cs|
  {
    if cs == [] then 0 else (if cs[0] == '\n' then 1 else 0) + NewlineCount(cs[1..])
  }

  lemma {:induction false} NewlineCountAppend(a: seq<char>, b: seq<char>)
    ensures NewlineCount(a + b) == NewlineCount(a) + NewlineCount(b)
    decreases |a|
  {
    if a == [] {
      assert a + b == b;
    } else {
      assert (a + b)[1..] == a[1..] + b;
      NewlineCountAppend(a[1..], b);
    }
  }

  /** Feeding `a` and then `b` is feeding `a + b`. */
  lemma {:induction false} TrackAppend(p: Position, a: seq<char>, b: seq<char>)
    ensures Track(p, a + b) == Track(Track(p, a), b)
    decreases |a|
  {
    if a == [] {
      assert a + b == b;
    } else {
      assert (a + b)[1..] == a[1..] + b;
      TrackAppend(Advance(p, Some(a[0])), a[1..], b);
    }
  }

  /** The line moves on by exactly the number of newlines fed. */
  lemma {:induction false} TrackLine(p: Position, cs: seq<char>)
    ensures Track(p, cs).line == p.line + NewlineCount(cs)
    decreases |cs|
  {
    if cs != [] {
      TrackLine(Advance(p, Some(cs[0])), cs[1..]);
    }
  }

  /** Without a newline, the line stays and the column moves on by one per character. */
  lemma {:induction false} TrackWithinLine(p: Position, cs: seq<char>)
    requires NewlineCount(cs) == 0
    ensures Track(p, cs) == Position(p.line, p.column + |cs|)
    decreases |cs|
  {
    if cs != [] {
      TrackWithinLine(Advance(p, Some(cs[0])), cs[1..]);
    }
  }

  /**
   * After the last newline of the input the column is one plus the number
   * of characters fed since, whatever the column was before.
   */
  lemma AfterLastNewline(p: Position, a: seq<char>, b: seq<char>)
    requires NewlineCount(b) == 0
    ensures Track(p, a + ['\n'] + b) == Position(p.line + NewlineCount(a) + 1, 1 + |b|)
  {
    TrackAppend(p, a + ['\n'], b);
    TrackAppend(p, a, ['\n']);
    TrackLine(p, a);
    TrackWithinLine(Track(p, a + ['\n']), b);
  }

  // ----- Display: ":<line>:<column>" -----

  /** The decimal digit character for `d`. */
  function DigitChar(d: nat): (c: char)
    requires d < 10
    ensures '0' <= c <= '9'
  {
    (48 + d) as char
  }

  /** The value of a decimal digit character. */
  function DigitValue(c: char): (d: nat)
    requires '0' <= c <= '9'
    ensures d < 10
  {
    c as int - 48
  }

  /** All characters of `s` are decimal digits. */
  predicate AllDigits(s: string)
  {
    forall k :: 0 <= k < |s| ==> '0' <= s[k] <= '9'
  }

  /** Rust's decimal rendering of an unsigned integer: digits only, no leading zero. */
  function Decimal(n: nat): (s: string)
    ensures |s| > 0 && AllDigits(s)
    ensures |s| > 1 ==> s[0] != '0'
    decreases n
  {
    if n < 10 then [DigitChar(n)] else Decimal(n / 10) + [DigitChar(n % 10)]
  }

  /** Reads a string of decimal digits back as a number. */
  function ParseDecimal(s: string): nat
    requires AllDigits(s)
    decreases |s|
  {
    if s == [] then 0 else ParseDecimal(s[..|s| - 1]) * 10 + DigitValue(s[|s| - 1])
  }

  lemma {:induction false} DecimalRoundTrip(n: nat)
    ensures ParseDecimal(Decimal(n)) == n
    decreases n
  {
    if n >= 10 {
      var s := Decimal(n);
      assert s[..|s| - 1] == Decimal(n / 10);
      DecimalRoundTrip(n / 10);
    }
  }

  /** `impl Display for CaretPos`. */
  function Display(p: Position): string
  {
    ":" + Decimal(p.line) + ":" + Decimal(p.column)
  }

  /** The rendering starts with a colon and holds exactly two colons. */
  lemma DisplayShape(p: Position)
    ensures |Display(p)| >= 4 && Display(p)[0] == ':'
    ensures Display(p)[1 + |Decimal(p.line)|] == ':'
    ensures forall k :: 0 <= k < |Display(p)| && k != 0 && k != 1 + |Decimal(p.line)| ==> '0' <= Display(p)[k] <= '9'
  {
  }

  /** Distinct carets render differently: the rendering determines line and column. */
  lemma DisplayInjective(p: Position, q: Position)
    requires Display(p) == Display(q)
    ensures p == q
  {
    var a, b := Decimal(p.line), Decimal(p.column);
    var c, d := Decimal(q.line), Decimal(q.column);
    var s := Display(p);
    assert s == [':'] + a + [':'] + b;
    assert s == [':'] + c + [':'] + d;
    // the second colon is the first non-digit after the first one, so both numbers have the same length
    assert s[1 + |a|] == ':' && s[1 + |c|] == ':';
    assert forall k :: 0 <= k < |a| ==> s[1 + k] == a[k];
    assert forall k :: 0 <= k < |c| ==> s[1 + k] == c[k];
    assert |a| == |c|;
    assert a == s[1..1 + |a|] == c;
    assert b == s[2 + |a|..] == d;
    DecimalRoundTrip(p.line);
    DecimalRoundTrip(q.line);
    DecimalRoundTrip(p.column);
    DecimalRoundTrip(q.column);
  }

  /** `CaretPos`: the mutable (line, column) pair held by a tokenizer. */
  class CaretPos {
    var line: nat
    var column: nat

    /** The caret's value, as `get_line` and `get_column` read it. */
    function Pos(): Position
      reads this
    {
      Position(line, column)
    }

    /** `CaretPos::default` */
    constructor ()
      ensures Pos() == Start
    {
      line, column := 1, 1;
    }

    /** `CaretPos::from((line, column))` */
    constructor FromPair(line: nat, column: nat)
      ensures Pos() == Position(line, column)
    {
      this.line, this.column := line, column;
    }

    method ResetColumn()
      modifies this
      ensures column == 1 && line == old(line)
    {
      column := 1;
    }

    method IncrementLine()
      modifies this
      ensures line == old(line) + 1 && column == old(column)
    {
      line := line + 1;
    }

    method IncrementColumn()
      modifies this
      ensures column == old(column) + 1 && line == old(line)
    {
      column := column + 1;
    }

    method NewLine()
      modifies this
      ensures line == old(line) + 1 && column == 1
    {
      IncrementLine();
      ResetColumn();
    }

    /** `process_char`: advances the caret as `Advance` says. */
    method ProcessChar(c: Option<char>)
      modifies this
      ensures Pos() == Advance(old(Pos()), c)
    {
      if c.None? {
        return;
      }
      IncrementColumn();
      if c == Some('\n') {
        NewLine();
      }
    }
  }
}
