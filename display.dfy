/**
  The table layout helpers of the probe (main.go, visibleLen and padRight):
  the width a string takes on a terminal, skipping ANSI escape sequences and
  counting the check and cross marks as two columns, and padding a cell to a
  column width.  A string is a sequence of runes, as Go's `range` over a
  string yields them.
*/
module Display {
  import opened GoStrings
  import opened GoNumbers

  const Esc: char := '\U{1B}'
  /** The marks that flag a phase as passed or failed; each takes two columns. */
  const CheckMark: char := '\U{2705}'
  const CrossMark: char := '\U{274C}'

  /** The colour codes of the report. */
  const ColorReset: string := [Esc] + "[0m"
  const ColorGreen: string := [Esc] + "[32m"
  const ColorRed: string := [Esc] + "[31m"
  const ColorYellow: string := [Esc] + "[33m"
  const ColorCyan: string := [Esc] + "[36m"
  const ColorBold: string := [Esc] + "[1m"
  const ColorDim: string := [Esc] + "[2m"

  /** The runes that end an escape sequence. */
  predicate IsLetter(c: char)
  {
    'a' <= c <= 'z' || 'A' <= c <= 'Z'
  }

  /** The columns a visible rune takes. */
  function RuneWidth(c: char): nat
  {
    if c == CheckMark || c == CrossMark then 2 else 1
  }

  /** The variables of visibleLen's loop: the columns counted so far and whether an escape sequence is open. */
  datatype ScanState = ScanState(width: nat, inEscape: bool)

  const Start: ScanState := ScanState(0, false)

  /** One rune of visibleLen's loop. */
  function Step(st: ScanState, c: char): ScanState
  {
    if c == Esc then st.(inEscape := true)
    else if st.inEscape then st.(inEscape := !IsLetter(c))
    else st.(width := st.width + RuneWidth(c))
  }

  /** The loop over a whole string from state `st`. */
  function Run(st: ScanState, s: string): ScanState
    decreases |s|
  {
    if s == [] then st else Run(Step(st, s[0]), s[1..])
  }

  /** The number of terminal columns `s` takes. */
  function VisibleWidth(s: string): nat
  {
    Run(Start, s).width
  }

  /** Scanning a concatenation is scanning its parts one after the other. */
  lemma {:induction false} RunAppend(st: ScanState, a: string, b: string)
    ensures Run(st, a + b) == Run(Run(st, a), b)
    decreases |a|
  {
    if a == [] {
      assert a + b == b;
    } else {
      assert (a + b)[0] == a[0] && (a + b)[1..] == a[1..] + b;
      RunAppend(Step(st, a[0]), a[1..], b);
    }
  }

  /** visibleLen: the loop, proved to compute VisibleWidth. */
  method VisibleLen(s: string) returns (length: nat)
    ensures length == VisibleWidth(s)
  {
    length := 0;
    var inEscape := false;
    for i := 0 to |s|
      invariant ScanState(length, inEscape) == Run(Start, s[..i])
    {
      assert s[..i + 1] == s[..i] + [s[i]];
      RunAppend(Start, s[..i], [s[i]]);
      var r := s[i];
      if r == Esc {
        inEscape := true;
        continue;
      }
      if inEscape {
        if IsLetter(r) {
          inEscape := false;
        }
        continue;
      }
      if r == CheckMark || r == CrossMark {
        length := length + 2;
      } else {
        length := length + 1;
      }
    }
    assert s[..|s|] == s;
  }

  /** Scanning only adds columns, at most two per rune. */
  lemma {:induction false} RunWidthBounds(st: ScanState, s: string)
    ensures st.width <= Run(st, s).width <= st.width + 2 * |s|
    decreases |s|
  {
    if s != [] {
      RunWidthBounds(Step(st, s[0]), s[1..]);
    }
  }

  /** A string is at least zero and at most twice its rune count wide. */
  lemma VisibleWidthBound(s: string)
    ensures VisibleWidth(s) <= 2 * |s|
  {
    RunWidthBounds(Start, s);
  }

  /** Outside an escape sequence, text with no escape and no mark takes one column per rune. */
  lemma {:induction false} PlainRun(st: ScanState, s: string)
    requires !st.inEscape
    requires forall k | 0 <= k < |s| :: s[k] != Esc && s[k] != CheckMark && s[k] != CrossMark
    ensures Run(st, s) == ScanState(st.width + |s|, false)
    decreases |s|
  {
    if s != [] {
      PlainRun(Step(st, s[0]), s[1..]);
    }
  }

  /** Plain text is as wide as it is long. */
  lemma PlainWidth(s: string)
    requires forall k | 0 <= k < |s| :: s[k] != Esc && s[k] != CheckMark && s[k] != CrossMark
    ensures VisibleWidth(s) == |s|
  {
    PlainRun(Start, s);
  }

  /** Inside an escape sequence, runes other than letters and escapes change nothing. */
  lemma {:induction false} EscapeBody(st: ScanState, s: string)
    requires st.inEscape
    requires forall k | 0 <= k < |s| :: s[k] != Esc && !IsLetter(s[k])
    ensures Run(st, s) == st
    decreases |s|
  {
    if s != [] {
      EscapeBody(Step(st, s[0]), s[1..]);
    }
  }

  /** An escape sequence: the escape rune, runes that are not letters, and a closing letter. */
  predicate IsEscapeSequence(code: string)
  {
    && |code| >= 2
    && code[0] == Esc
    && IsLetter(code[|code| - 1])
    && forall k | 0 < k < |code| - 1 :: code[k] != Esc && !IsLetter(code[k])
  }

  /** An escape sequence takes no columns and leaves no escape open, whatever came before it. */
  lemma EscapeInvisible(st: ScanState, code: string)
    requires IsEscapeSequence(code)
    ensures Run(st, code) == ScanState(st.width, false)
  {
    var n := |code|;
    var open := st.(inEscape := true);
    assert Run(st, code) == Run(open, code[1..]);
    assert code[1..] == code[1..n - 1] + [code[n - 1]];
    RunAppend(open, code[1..n - 1], [code[n - 1]]);
    EscapeBody(open, code[1..n - 1]);
  }

  /** Every colour code of the report is an escape sequence. */
  lemma ColorsAreEscapes()
    ensures IsEscapeSequence(ColorReset) && IsEscapeSequence(ColorGreen) && IsEscapeSequence(ColorRed)
    ensures IsEscapeSequence(ColorYellow) && IsEscapeSequence(ColorCyan)
    ensures IsEscapeSequence(ColorBold) && IsEscapeSequence(ColorDim)
  {
  }

  /** Colouring text does not change its width. */
  lemma ColoredWidth(code: string, s: string)
    requires IsEscapeSequence(code)
    requires !Run(Start, s).inEscape
    ensures VisibleWidth(code + s + ColorReset) == VisibleWidth(s)
  {
    ColorsAreEscapes();
    RunAppend(Start, code + s, ColorReset);
    RunAppend(Start, code, s);
    EscapeInvisible(Start, code);
    EscapeInvisible(Run(Start, s), ColorReset);
  }

  /**
    Widths add up: text that does not end inside an escape sequence is
    followed by text measured on its own.
  */
  lemma WidthAppend(a: string, b: string)
    requires !Run(Start, a).inEscape
    ensures VisibleWidth(a + b) == VisibleWidth(a) + VisibleWidth(b)
    ensures Run(Start, a + b).inEscape == Run(Start, b).inEscape
  {
    RunAppend(Start, a, b);
    RunShift(Start, VisibleWidth(a), b);
  }

  /** A passed phase's cell, a check mark and a duration in milliseconds: the mark counts twice. */
  lemma PassedCellWidth(digits: string)
    requires AllDigits(digits)
    ensures VisibleWidth(" " + ColorGreen + [CheckMark] + " " + digits + "ms" + ColorReset) == |digits| + 6
  {
    var duration := " " + digits + "ms";
    forall k | 0 <= k < |duration| ensures duration[k] != Esc && duration[k] != CheckMark && duration[k] != CrossMark {
      if 1 <= k < 1 + |digits| {
        assert duration[k] == digits[k - 1];
      }
    }
    PlainWidth(" ");
    PlainRun(Start, duration);
    ColorsAreEscapes();
    EscapeInvisible(Start, ColorGreen);
    EscapeInvisible(Start, ColorReset);
    assert Run(Start, [CheckMark]) == ScanState(2, false);
    WidthAppend(" ", ColorGreen);
    WidthAppend(" " + ColorGreen, [CheckMark]);
    WidthAppend(" " + ColorGreen + [CheckMark], duration);
    WidthAppend(" " + ColorGreen + [CheckMark] + duration, ColorReset);
    assert " " + ColorGreen + [CheckMark] + " " + digits + "ms" + ColorReset
      == " " + ColorGreen + [CheckMark] + duration + ColorReset;
  }

  /** Starting with more columns counted shifts the result by as many. */
  lemma {:induction false} RunShift(st: ScanState, extra: nat, s: string)
    ensures Run(st.(width := st.width + extra), s) == Run(st, s).(width := Run(st, s).width + extra)
    decreases |s|
  {
    if s != [] {
      RunShift(Step(st, s[0]), extra, s[1..]);
    }
  }

  /**
    padRight: `s` followed by enough spaces to reach `width` columns, or `s`
    itself when it is already that wide.
  */
  function PadRight(s: string, width: int): (r: string)
    ensures |r| >= |s| && r[..|s|] == s
    ensures forall k | |s| <= k < |r| :: r[k] == ' '
    ensures VisibleWidth(s) >= width ==> r == s
    ensures VisibleWidth(s) < width ==> |r| == |s| + width - VisibleWidth(s)
  {
    var visible := VisibleWidth(s);
    if visible >= width then s else s + Spaces(width - visible)
  }

  /**
    A padded cell is exactly as wide as the column, or as the text when the
    text is wider; when the text ends inside an open escape sequence the
    spaces are swallowed by it and the width stays that of the text.
  */
  lemma PadRightWidth(s: string, width: int)
    ensures !Run(Start, s).inEscape ==>
      VisibleWidth(PadRight(s, width)) == if VisibleWidth(s) >= width then VisibleWidth(s) else width
    ensures Run(Start, s).inEscape ==> VisibleWidth(PadRight(s, width)) == VisibleWidth(s)
  {
    var visible := VisibleWidth(s);
    if visible < width {
      var pad := Spaces(width - visible);
      RunAppend(Start, s, pad);
      if Run(Start, s).inEscape {
        EscapeBody(Run(Start, s), pad);
      } else {
        PlainRun(Run(Start, s), pad);
      }
    }
  }

  /** Padding a cell that ends outside an escape sequence a second time changes nothing. */
  lemma PadRightIdempotent(s: string, width: int)
    requires !Run(Start, s).inEscape
    ensures PadRight(PadRight(s, width), width) == PadRight(s, width)
  {
    PadRightWidth(s, width);
  }
}
