/**
 * The terminal printer of the command line tool (src/CLI/Printer.h,
 * src/CLI/Printer.cpp): a state machine that indents every line by the
 * current indentation level and writes ANSI colour escape codes.
 *
 * The output stream is the text written to it so far. A printed value is
 * the text `operator<<` formats it to. The RAII guards are modelled by the
 * calls their destructors make: `PopIndent` for an indentation guard and
 * the colour reset for a colour guard.
 */
module Printing {
  import opened Strings

  /** `PrinterColor`: the SGR foreground codes of the sixteen terminal colours. */
  datatype PrinterColor =
    | Black | Red | Green | Yellow | Blue | Magenta | Cyan | White
    | BrightBlack | BrightRed | BrightGreen | BrightYellow
    | BrightBlue | BrightMagenta | BrightCyan | BrightWhite

  /** `GetForegroundCode`: the colour's enumerator value, 30-37 for the normal colours and 90-97 for the bright ones. */
  function ForegroundCode(c: PrinterColor): (code: nat)
    ensures 30 <= code <= 37 || 90 <= code <= 97
    ensures c.Black? || c.Red? || c.Green? || c.Yellow? || c.Blue? || c.Magenta? || c.Cyan? || c.White? <==> code <= 37
  {
    match c
    case Black => 30
    case Red => 31
    case Green => 32
    case Yellow => 33
    case Blue => 34
    case Magenta => 35
    case Cyan => 36
    case White => 37
    case BrightBlack => 90
    case BrightRed => 91
    case BrightGreen => 92
    case BrightYellow => 93
    case BrightBlue => 94
    case BrightMagenta => 95
    case BrightCyan => 96
    case BrightWhite => 97
  }

  /** `GetBackgroundCode`: ten above the foreground code, so 40-47 or 100-107, never a foreground code. */
  function BackgroundCode(c: PrinterColor): (code: nat)
    ensures 40 <= code <= 47 || 100 <= code <= 107
  {
    ForegroundCode(c) + 10
  }

  /** No background code is a foreground code, so the two kinds of escape never clash. */
  lemma BackgroundNeverForeground(c: PrinterColor, d: PrinterColor)
    ensures BackgroundCode(c) != ForegroundCode(d)
  {
  }

  /** Different colours have different foreground codes. */
  lemma ForegroundCodeInjective(a: PrinterColor, b: PrinterColor)
    requires a != b
    ensures ForegroundCode(a) != ForegroundCode(b)
  {
    match a
    case Black => case Red => case Green => case Yellow =>
    case Blue => case Magenta => case Cyan => case White =>
    case BrightBlack => case BrightRed => case BrightGreen => case BrightYellow =>
    case BrightBlue => case BrightMagenta => case BrightCyan => case BrightWhite =>
  }

  /** The escape character that starts a control sequence. */
  const Escape: char := 27 as char

  /** `SetColorCode`: `ESC [ code m`, the code in decimal. */
  function ColorCodeText(code: nat): string
  {
    [Escape, '['] + NatToString(code) + ['m']
  }

  /** The escape sequence that sets a code starts with `ESC [`, ends with `m`, and the code can be read back from it. */
  lemma ColorCodeRoundTrip(code: nat)
    ensures var s := ColorCodeText(code);
            |s| >= 4 && s[0] == Escape && s[1] == '[' && s[|s| - 1] == 'm' &&
            (forall i :: 2 <= i < |s| - 1 ==> IsDigit(s[i])) && ParseDigits(s[2..|s| - 1]) == code
  {
    var s := ColorCodeText(code);
    assert s[2..|s| - 1] == NatToString(code);
    assert forall i :: 2 <= i < |s| - 1 ==> s[i] == s[2..|s| - 1][i - 2];
    ParseNatToString(code);
  }

  /** `ClearColorCode`: `ESC [ m`, which resets every colour. */
  function ClearColorText(): (s: string)
    ensures s == [Escape, '[', 'm']
  {
    [Escape, '[', 'm']
  }

  /** `n` spaces. */
  function Spaces(n: nat): string
  {
    if n == 0 then "" else Spaces(n - 1) + " "
  }

  /** `Spaces(n)` is `n` blanks. */
  lemma {:induction false} SpacesBlank(n: nat)
    ensures |Spaces(n)| == n && forall i :: 0 <= i < n ==> Spaces(n)[i] == ' '
  {
    if n > 0 {
      SpacesBlank(n - 1);
    }
  }

  /**
   * What `Print` writes for `text`: the indentation when a line starts, then
   * the text. A negative indentation at the start of a line is not counted
   * down to zero by the loop of `Print`, so its callers rule it out.
   */
  function Emit(startOfLine: bool, indent: int, text: string): string
    requires startOfLine ==> indent >= 0
  {
    (if startOfLine then Spaces(indent) else "") + text
  }

  /** At the start of a line the text is preceded by exactly `indent` blanks; elsewhere it is written as it is. */
  lemma EmitIndents(startOfLine: bool, indent: int, text: string)
    requires startOfLine ==> indent >= 0
    ensures var s := Emit(startOfLine, indent, text);
            (startOfLine ==> |s| == indent + |text| && (forall i :: 0 <= i < indent ==> s[i] == ' ') && s[indent..] == text) &&
            (!startOfLine ==> s == text)
  {
    var s := Emit(startOfLine, indent, text);
    if startOfLine {
      SpacesBlank(indent);
      assert s[indent..] == text;
    }
  }

  /** Printing two texts in a row writes what printing them as one text writes: only the first is indented. */
  lemma EmitConcat(startOfLine: bool, indent: int, a: string, b: string)
    requires startOfLine ==> indent >= 0
    ensures Emit(startOfLine, indent, a) + Emit(false, indent, b) == Emit(startOfLine, indent, a + b)
  {
    assert (if startOfLine then Spaces(indent) else "") + a + b == (if startOfLine then Spaces(indent) else "") + (a + b);
  }

  /** `PrintWithColor` as written: the colour is set only when colouring is on, but the guard always resets it. */
  function ColorTextAsWritten(color: bool, fg: PrinterColor, text: string): string
  {
    (if color then ColorCodeText(ForegroundCode(fg)) else "") + text + ClearColorText()
  }

  /** With colouring off, the output as written still holds an escape code. */
  lemma ColorOffStillEscapes(fg: PrinterColor, text: string)
    ensures Escape in ColorTextAsWritten(false, fg, text)
    ensures ColorTextAsWritten(false, fg, text) != text
  {
    var s := ColorTextAsWritten(false, fg, text);
    assert s[|text|] == Escape;
    assert |s| == |text| + 3;
  }

  /** `PrintWithColor` as intended: escape codes around the text when colouring is on, the plain text when it is off. */
  function ColorText(color: bool, fg: PrinterColor, text: string): (s: string)
    ensures !color ==> s == text
    ensures color ==> s == ColorCodeText(ForegroundCode(fg)) + text + ClearColorText()
  {
    if color then ColorCodeText(ForegroundCode(fg)) + text + ClearColorText()
    else text
  }

  /** The state of a `Printer`. */
  class Printer {
    var out: string
    var color: bool
    var indentWidth: int
    var indentLevel: int
    var startOfLine: bool

    /** A printer on an empty stream: colouring on, indentation two spaces, level 0, at the start of a line. */
    constructor ()
      ensures Valid() && out == [] && color && indentWidth == 2 && indentLevel == 0 && startOfLine
    {
      out := [];
      color := true;
      indentWidth := 2;
      indentLevel := 0;
      startOfLine := true;
    }

    /** The indentation level never drops below zero; the width may be any `int`. */
    ghost predicate Valid()
      reads this
    {
      indentLevel >= 0
    }

    /** The number of spaces a new line starts with. */
    function Indent(): (n: int)
      requires Valid()
      reads this
      ensures indentWidth == 0 || indentLevel == 0 ==> n == 0
      ensures indentWidth >= 0 ==> n >= 0
      ensures indentWidth < 0 && indentLevel > 0 ==> n < 0
    {
      indentWidth * indentLevel
    }

    /**
     * `Print` can write the indentation: a line that starts now has an
     * indentation of zero or more. Otherwise `while (indentWidth--)` counts
     * down past the least `int`, which is undefined.
     */
    ghost predicate CanIndent()
      requires Valid()
      reads this
    {
      startOfLine ==> Indent() >= 0
    }

    /** `SetColorOn`. */
    method SetColorOn(on: bool)
      modifies this
      ensures color == on && out == old(out) && indentWidth == old(indentWidth) &&
              indentLevel == old(indentLevel) && startOfLine == old(startOfLine)
    {
      color := on;
    }

    /** `SetIndentWidth`: any width is accepted. */
    method SetIndentWidth(width: int)
      requires Valid()
      modifies this
      ensures Valid() && indentWidth == width && out == old(out) && color == old(color) &&
              indentLevel == old(indentLevel) && startOfLine == old(startOfLine)
    {
      indentWidth := width;
    }

    /** `PushIndent`: one level deeper, until the returned guard is released. */
    method PushIndent()
      requires Valid()
      modifies this
      ensures Valid() && indentLevel == old(indentLevel) + 1 && Indent() == old(Indent()) + indentWidth
      ensures out == old(out) && color == old(color) && indentWidth == old(indentWidth) && startOfLine == old(startOfLine)
    {
      indentLevel := indentLevel + 1;
    }

    /** `PopIndent`, run by the indentation guard's destructor: one level back; the level must not go negative. */
    method PopIndent()
      requires Valid() && indentLevel >= 1
      modifies this
      ensures Valid() && indentLevel == old(indentLevel) - 1
      ensures out == old(out) && color == old(color) && indentWidth == old(indentWidth) && startOfLine == old(startOfLine)
    {
      indentLevel := indentLevel - 1;
    }

    /** `SetForegroundColor`: the colour's code is written when colouring is on. */
    method SetForegroundColor(c: PrinterColor)
      modifies this
      ensures out == old(out) + (if color then ColorCodeText(ForegroundCode(c)) else "")
      ensures color == old(color) && indentWidth == old(indentWidth) &&
              indentLevel == old(indentLevel) && startOfLine == old(startOfLine)
    {
      if color {
        out := out + ColorCodeText(ForegroundCode(c));
      }
    }

    /** `SetBackgroundColor`: the colour's background code is written when colouring is on. */
    method SetBackgroundColor(c: PrinterColor)
      modifies this
      ensures out == old(out) + (if color then ColorCodeText(BackgroundCode(c)) else "")
      ensures color == old(color) && indentWidth == old(indentWidth) &&
              indentLevel == old(indentLevel) && startOfLine == old(startOfLine)
    {
      if color {
        out := out + ColorCodeText(BackgroundCode(c));
      }
    }

    /** `SetColor`: the foreground code, then the background code, when colouring is on. */
    method SetColor(fg: PrinterColor, bg: PrinterColor)
      modifies this
      ensures out == old(out) + (if color then ColorCodeText(ForegroundCode(fg)) + ColorCodeText(BackgroundCode(bg)) else "")
      ensures color == old(color) && indentWidth == old(indentWidth) &&
              indentLevel == old(indentLevel) && startOfLine == old(startOfLine)
    {
      if color {
        out := out + ColorCodeText(ForegroundCode(fg));
        out := out + ColorCodeText(BackgroundCode(bg));
      }
    }

    /** `ClearColor`, run by the colour guard's destructor: the reset code is written whether or not colouring is on. */
    method ClearColor()
      modifies this
      ensures out == old(out) + ClearColorText()
      ensures color == old(color) && indentWidth == old(indentWidth) &&
              indentLevel == old(indentLevel) && startOfLine == old(startOfLine)
    {
      out := out + ClearColorText();
    }

    /** The colour guard's release as intended: the reset code is written only when colouring is on. */
    method ResetColor()
      modifies this
      ensures out == old(out) + (if color then ClearColorText() else "")
      ensures color == old(color) && indentWidth == old(indentWidth) &&
              indentLevel == old(indentLevel) && startOfLine == old(startOfLine)
    {
      if color {
        ClearColor();
      }
    }

    /** `Print(value)`: at the start of a line, `indentWidth * indentLevel` spaces first; then the value. */
    method Print(value: string)
      requires Valid() && CanIndent()
      modifies this
      ensures Valid() && out == old(out) + Emit(old(startOfLine), old(Indent()), value) && !startOfLine
      ensures color == old(color) && indentWidth == old(indentWidth) && indentLevel == old(indentLevel)
    {
      if startOfLine {
        startOfLine := false;
        var remaining := indentWidth * indentLevel;
        while remaining > 0
          invariant Valid() && indentWidth == old(indentWidth) && indentLevel == old(indentLevel)
          invariant color == old(color) && !startOfLine
          invariant 0 <= remaining <= Indent()
          invariant out == old(out) + Spaces(Indent() - remaining)
          decreases remaining
        {
          out := out + " ";
          remaining := remaining - 1;
        }
      }
      out := out + value;
    }

    /** `Print(h, t...)`: the values in order; only the first can be indented. */
    method PrintValues(values: seq<string>)
      requires Valid() && CanIndent() && |values| >= 1
      modifies this
      ensures Valid() && out == old(out) + Emit(old(startOfLine), old(Indent()), Join(values, "")) && !startOfLine
      ensures color == old(color) && indentWidth == old(indentWidth) && indentLevel == old(indentLevel)
      decreases |values|
    {
      Print(values[0]);
      if |values| > 1 {
        ghost var mid := out;
        PrintValues(values[1..]);
        EmitConcat(old(startOfLine), Indent(), values[0], Join(values[1..], ""));
        JoinCons(values[0], values[1..], "");
        assert [values[0]] + values[1..] == values;
      } else {
        assert Join(values, "") == values[0];
      }
    }

    /** `PrintLine()`: a newline, which starts a new line; an indented empty line keeps its indentation. */
    method PrintLine()
      requires Valid() && CanIndent()
      modifies this
      ensures Valid() && out == old(out) + Emit(old(startOfLine), old(Indent()), "\n") && startOfLine
      ensures color == old(color) && indentWidth == old(indentWidth) && indentLevel == old(indentLevel)
    {
      Print("\n");
      startOfLine := true;
    }

    /** `PrintLine(values...)`: the values, then a newline. */
    method PrintLineValues(values: seq<string>)
      requires Valid() && CanIndent()
      modifies this
      ensures Valid() && out == old(out) + Emit(old(startOfLine), old(Indent()), Join(values, "") + "\n") && startOfLine
      ensures color == old(color) && indentWidth == old(indentWidth) && indentLevel == old(indentLevel)
    {
      if |values| == 0 {
        PrintLine();
      } else {
        PrintValues(values);
        PrintLine();
        EmitConcat(old(startOfLine), Indent(), Join(values, ""), "\n");
      }
    }

    /** `PrintWithColor` as written: the guard resets the colour even when colouring is off. */
    method PrintWithColorAsWritten(fg: PrinterColor, values: seq<string>)
      requires Valid() && CanIndent() && |values| >= 1
      modifies this
      ensures Valid() && !startOfLine
      ensures out == old(out) + ColorTextAsWritten(color, fg, Emit(old(startOfLine), old(Indent()), Join(values, "")))
      ensures color == old(color) && indentWidth == old(indentWidth) && indentLevel == old(indentLevel)
    {
      SetForegroundColor(fg);
      PrintValues(values);
      ClearColor();
    }

    /** `PrintWithColor` as intended: the colour is reset only when it was set. */
    method PrintWithColor(fg: PrinterColor, values: seq<string>)
      requires Valid() && CanIndent() && |values| >= 1
      modifies this
      ensures Valid() && !startOfLine
      ensures out == old(out) + ColorText(color, fg, Emit(old(startOfLine), old(Indent()), Join(values, "")))
      ensures color == old(color) && indentWidth == old(indentWidth) && indentLevel == old(indentLevel)
    {
      ghost var e := Emit(startOfLine, Indent(), Join(values, ""));
      ghost var before := out;
      SetForegroundColor(fg);
      PrintValues(values);
      ResetColor();
      if color {
        assert out == before + ColorCodeText(ForegroundCode(fg)) + e + ClearColorText();
      } else {
        assert out == before + e;
      }
    }

    /** `PrintLineWithColor`: the coloured values as written, then a newline after the reset. */
    method PrintLineWithColor(fg: PrinterColor, values: seq<string>)
      requires Valid() && CanIndent() && |values| >= 1
      modifies this
      ensures Valid() && startOfLine
      ensures out == old(out) + ColorTextAsWritten(color, fg, Emit(old(startOfLine), old(Indent()), Join(values, ""))) + "\n"
      ensures color == old(color) && indentWidth == old(indentWidth) && indentLevel == old(indentLevel)
    {
      PrintWithColorAsWritten(fg, values);
      PrintLine();
    }

    /** `PrintLineWithColor` on the intended `PrintWithColor`: the newline comes after the plain text when colouring is off. */
    method PrintLineWithColorIntended(fg: PrinterColor, values: seq<string>)
      requires Valid() && CanIndent() && |values| >= 1
      modifies this
      ensures Valid() && startOfLine
      ensures out == old(out) + ColorText(color, fg, Emit(old(startOfLine), old(Indent()), Join(values, ""))) + "\n"
      ensures color == old(color) && indentWidth == old(indentWidth) && indentLevel == old(indentLevel)
    {
      PrintWithColor(fg, values);
      PrintLine();
    }
  }
}
