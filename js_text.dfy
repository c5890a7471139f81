/**
 * The JavaScript text the synthesis builders emit
 * (src/Fuzzer/JavaScriptSynthesisBuilder.cpp,
 * src/Fuzzer/NodejsSynthesisBuilder.cpp): string escaping, literals, the
 * statement shapes, and the Node.js module of a function name.
 *
 * A string value holds bytes; the emitted text is a `string` whose
 * characters are those bytes. `char` is taken to be signed, as on x86.
 */
module JavaScriptText {
  import opened MachineInts
  import opened Results
  import opened Strings
  import opened FuzzerValue

  /** `ToHexDigit`: the lower-case hexadecimal digit of a value below 16. */
  function ToHexDigit(value: nat): (c: char)
    requires value < 16
    ensures IsHexDigit(c) && HexValue(c) == value
  {
    if value < 10 then (value + '0' as int) as char else (value - 10 + 'a' as int) as char
  }

  /** A lower-case hexadecimal digit. */
  predicate IsHexDigit(c: char)
  {
    '0' <= c <= '9' || 'a' <= c <= 'f'
  }

  /** The value of a lower-case hexadecimal digit. */
  function HexValue(c: char): (v: nat)
    requires IsHexDigit(c)
    ensures v < 16
  {
    if c <= '9' then c as int - '0' as int else c as int - 'a' as int + 10
  }

  /** `std::isprint` in the C locale: the bytes from space to tilde. */
  predicate IsPrint(code: int)
  {
    0x20 <= code <= 0x7e
  }

  /** The value of a byte held in a signed `char`. */
  function SignedChar(b: byte): (c: int)
    ensures -128 <= c < 128 && (b < 128 ==> c == b) && (b >= 128 ==> c == b - 256)
  {
    if b < 128 then b else b - 256
  }

  /** C's `/` on a negative or non-negative dividend and a divisor of 16: the quotient truncated toward zero. */
  function TruncDiv16(x: int): int
  {
    if x >= 0 then x / 16 else -((-x) / 16)
  }

  /** C's `%` with a divisor of 16: the remainder takes the sign of the dividend. */
  function TruncRem16(x: int): int
  {
    if x >= 0 then x % 16 else -((-x) % 16)
  }

  /**
   * The escape `EscapeString` writes for one byte, as written: a printable
   * byte other than a quote as it is (a backslash too), `\n`, `\t`, `\r`,
   * and `\x` with two digits for the rest; the digits come from the signed
   * `char`, and a digit out of range fails the assertion of `ToHexDigit`.
   */
  function EscapeByteAsWritten(b: byte): Option<string>
  {
    var ch := SignedChar(b);
    if IsPrint(ch) then
      if ch == '"' as int then Some("\\\"")
      else if ch == '\'' as int then Some("\\'")
      else Some([b as char])
    else if ch == 10 then Some("\\n")
    else if ch == 9 then Some("\\t")
    else if ch == 13 then Some("\\r")
    else
      var hi := TruncDiv16(ch);
      var lo := TruncRem16(ch);
      if 0 <= hi < 16 && 0 <= lo < 16 then Some("\\x" + [ToHexDigit(hi), ToHexDigit(lo)]) else None
  }

  /** `EscapeString` as written: the escapes of the bytes in order, or `None` when an assertion fails. */
  function EscapeStringAsWritten(s: seq<byte>): Option<string>
  {
    if s == [] then Some("")
    else match EscapeByteAsWritten(s[0])
      case None => None
      case Some(head) =>
        match EscapeStringAsWritten(s[1..])
        case None => None
        case Some(tail) => Some(head + tail)
  }

  /** As written, a backslash followed by `n` escapes to the same text as a newline. */
  lemma BackslashNotEscaped()
    ensures EscapeStringAsWritten([92, 110]) == EscapeStringAsWritten([10]) == Some("\\n")
  {
    PlainEscapesAsWritten(92, '\\', []);
    PlainEscapesAsWritten(110, 'n', []);
    assert [110 as byte] + [] == [110];
    assert [92 as byte] + [110] == [92, 110];
    AsWrittenCons(92, [110]);
    assert "\\" + "n" == "\\n";
    assert EscapeByteAsWritten(10) == Some("\\n");
    assert EscapeStringAsWritten([]) == Some("");
    assert [10 as byte] + [] == [10];
    AsWrittenCons(10, []);
    assert "\\n" + "" == "\\n";
  }

  /** As written, escaping a byte in front of more bytes puts its escape in front of theirs. */
  lemma AsWrittenCons(b: byte, rest: seq<byte>)
    requires EscapeByteAsWritten(b).Some? && EscapeStringAsWritten(rest).Some?
    ensures EscapeStringAsWritten([b] + rest) == Some(EscapeByteAsWritten(b).value + EscapeStringAsWritten(rest).value)
  {
    assert ([b] + rest)[1..] == rest;
  }

  /** As written, a printable byte other than a quote escapes to itself, alone or in front of nothing. */
  lemma PlainEscapesAsWritten(b: byte, c: char, rest: seq<byte>)
    requires 0x20 <= b <= 0x7e && b != 34 && b != 39 && c as int == b && rest == []
    ensures EscapeByteAsWritten(b) == Some([c]) && EscapeStringAsWritten([b] + rest) == Some([c])
  {
    assert SignedChar(b) == b;
    assert b as char == c;
    assert EscapeByteAsWritten(b) == Some([b as char]);
    var s := [b] + rest;
    assert s[0] == b && s[1..] == [];
    assert EscapeStringAsWritten(s[1..]) == Some("");
    assert EscapeStringAsWritten(s) == Some([b as char] + "");
    assert [b as char] + "" == [c];
  }

  /** As written, a byte of 128 or more has a negative digit and fails the assertion. */
  lemma HighByteFailsAssertion()
    ensures EscapeStringAsWritten([255]) == None
  {
    assert TruncRem16(SignedChar(255)) == -1;
  }

  /**
   * Away from the two defects the as-written escape and the intended one
   * agree: on bytes below 128 other than the backslash.
   */
  lemma {:induction false} AsWrittenAgreesOnPlainBytes(s: seq<byte>)
    requires forall i :: 0 <= i < |s| ==> s[i] < 128 && s[i] != 92
    ensures EscapeStringAsWritten(s) == Some(Escape(s))
    decreases |s|
  {
    if s != [] {
      assert EscapeByteAsWritten(s[0]) == Some(EscapeByte(s[0]));
      AsWrittenAgreesOnPlainBytes(s[1..]);
    }
  }

  /** The escape of one byte as evidently intended: a backslash is escaped too, and the digits come from the unsigned byte. */
  function EscapeByte(b: byte): (r: string)
    ensures |r| >= 1
  {
    if IsPrint(b) then
      if b == '"' as int then "\\\""
      else if b == '\'' as int then "\\'"
      else if b == '\\' as int then "\\\\"
      else [b as char]
    else if b == 10 then "\\n"
    else if b == 9 then "\\t"
    else if b == 13 then "\\r"
    else "\\x" + [ToHexDigit(b / 16), ToHexDigit(b % 16)]
  }

  /** The escapes of the bytes in order. */
  function Escape(s: seq<byte>): string
  {
    if s == [] then "" else EscapeByte(s[0]) + Escape(s[1..])
  }

  /** Escaping a concatenation escapes each part. */
  lemma {:induction false} EscapeAppend(a: seq<byte>, b: seq<byte>)
    ensures Escape(a + b) == Escape(a) + Escape(b)
    decreases |a|
  {
    if a == [] {
      assert a + b == b;
    } else {
      assert (a + b)[1..] == a[1..] + b;
      EscapeAppend(a[1..], b);
    }
  }

  /** The escaped text is never shorter than the bytes. */
  lemma {:induction false} EscapeLength(s: seq<byte>)
    ensures |Escape(s)| >= |s|
    decreases |s|
  {
    if s != [] {
      EscapeLength(s[1..]);
    }
  }

  /** Reading back the bytes of an escaped text: the inverse of `Escape`. */
  function Unescape(t: string): Option<seq<byte>>
    decreases |t|
  {
    if t == [] then Some([])
    else if t[0] != '\\' then
      if t[0] as int < 0x100 then Prepend(t[0] as int, Unescape(t[1..])) else None
    else if |t| < 2 then None
    else if t[1] == '"' then Prepend('"' as int, Unescape(t[2..]))
    else if t[1] == '\'' then Prepend('\'' as int, Unescape(t[2..]))
    else if t[1] == '\\' then Prepend('\\' as int, Unescape(t[2..]))
    else if t[1] == 'n' then Prepend(10, Unescape(t[2..]))
    else if t[1] == 't' then Prepend(9, Unescape(t[2..]))
    else if t[1] == 'r' then Prepend(13, Unescape(t[2..]))
    else if t[1] == 'x' && |t| >= 4 && IsHexDigit(t[2]) && IsHexDigit(t[3]) then
      Prepend(16 * HexValue(t[2]) + HexValue(t[3]), Unescape(t[4..]))
    else None
  }

  /** A byte in front of the bytes read, when they could be read. */
  function Prepend(b: byte, rest: Option<seq<byte>>): Option<seq<byte>>
  {
    match rest
    case None => None
    case Some(bs) => Some([b] + bs)
  }

  /** Reading back the escape of a byte followed by more text gives the byte followed by what that text gives. */
  lemma UnescapeByte(b: byte, rest: string)
    ensures Unescape(EscapeByte(b) + rest) == Prepend(b, Unescape(rest))
  {
    var t := EscapeByte(b) + rest;
    if |EscapeByte(b)| == 1 {
      assert t[1..] == rest;
    } else if |EscapeByte(b)| == 2 {
      assert t[2..] == rest;
    } else {
      assert t[4..] == rest;
      assert 16 * (b / 16) + b % 16 == b;
    }
  }

  /** Escaping loses nothing: the escaped text reads back as the bytes. */
  lemma {:induction false} UnescapeEscape(s: seq<byte>)
    ensures Unescape(Escape(s)) == Some(s)
    decreases |s|
  {
    if s != [] {
      UnescapeByte(s[0], Escape(s[1..]));
      UnescapeEscape(s[1..]);
      assert [s[0]] + s[1..] == s;
    }
  }

  /** Different byte strings escape to different texts. */
  lemma EscapeInjective(a: seq<byte>, b: seq<byte>)
    requires Escape(a) == Escape(b)
    ensures a == b
  {
    UnescapeEscape(a);
    UnescapeEscape(b);
  }

  /** A text in front of the text of an escape, when there is one. */
  function PrefixedBy(prefix: string, rest: Option<string>): Option<string>
  {
    match rest
    case None => None
    case Some(t) => Some(prefix + t)
  }

  /**
   * `EscapeString` as written: the escapes appended byte by byte; the first
   * byte whose digits fail the assertion of `ToHexDigit` ends it (`None`).
   */
  method EscapeString(s: seq<byte>) returns (ret: Option<string>)
    ensures ret == EscapeStringAsWritten(s)
  {
    var text := "";
    var i := 0;
    assert s[0..] == s;
    match EscapeStringAsWritten(s) {
      case None =>
      case Some(t) => assert "" + t == t;
    }
    while i < |s|
      invariant i <= |s|
      invariant EscapeStringAsWritten(s) == PrefixedBy(text, EscapeStringAsWritten(s[i..]))
    {
      assert s[i..][1..] == s[i + 1..];
      var e := EscapeByteAsWritten(s[i]);
      if e.None? {
        return None;
      }
      assert EscapeStringAsWritten(s[i..]) == PrefixedBy(e.value, EscapeStringAsWritten(s[i + 1..]));
      match EscapeStringAsWritten(s[i + 1..]) {
        case None =>
        case Some(t) => assert text + (e.value + t) == (text + e.value) + t;
      }
      text := text + e.value;
      i := i + 1;
    }
    assert EscapeStringAsWritten(s[i..]) == Some("");
    assert text + "" == text;
    ret := Some(text);
  }

  /** The loop of `EscapeString` as evidently intended, on `EscapeByte`. */
  method EscapeStringIntended(s: seq<byte>) returns (ret: string)
    ensures ret == Escape(s)
  {
    ret := [];
    for i := 0 to |s|
      invariant ret == Escape(s[..i])
    {
      EscapeAppend(s[..i], [s[i]]);
      assert s[..i + 1] == s[..i] + [s[i]];
      assert Escape([s[i]]) == EscapeByte(s[i]) by {
        assert [s[i]][1..] == [];
      }
      ret := ret + EscapeByte(s[i]);
    }
    assert s[..|s|] == s;
  }

  /** An `int` in decimal, with a minus sign when negative. */
  function IntegerText(x: int): (t: string)
    ensures |t| >= 1
  {
    if x < 0 then "-" + NatToString(-x) else NatToString(x)
  }

  /**
   * `WriteLiteralValue` as written, for the kinds it accepts: a string is
   * written as its escapes with no quotes around them. A float is written
   * as `formatFloat` gives it, a function as its name in the store.
   */
  function LiteralTextAsWritten(v: Value, formatFloat: u64 -> string, functionName: u32 -> string): (t: Option<string>)
    requires !v.ArrayValue? && !v.PlaceholderValue?
  {
    match v
    case UndefinedValue => Some("undefined")
    case NullValue => Some("null")
    case BooleanValue(b) => Some(if b then "true" else "false")
    case IntegerValue(x) => Some(IntegerText(x))
    case FloatValue(bits) => Some(formatFloat(bits))
    case StringValue(s) => EscapeStringAsWritten(s)
    case FunctionValue(id) => Some(functionName(id))
  }

  /** As written, the string `null` is written as the `null` literal. */
  lemma UnquotedStringIsNull(formatFloat: u64 -> string, functionName: u32 -> string)
    ensures LiteralTextAsWritten(StringValue([110, 117, 108, 108]), formatFloat, functionName) ==
            LiteralTextAsWritten(NullValue, formatFloat, functionName)
  {
    PlainEscapesAsWritten(108, 'l', []);
    PlainEscapesAsWritten(117, 'u', []);
    PlainEscapesAsWritten(110, 'n', []);
    assert [108 as byte] + [] == [108];
    AsWrittenCons(108, [108]);
    assert [108 as byte] + [108] == [108, 108];
    assert "l" + "l" == "ll";
    assert EscapeStringAsWritten([108, 108]) == Some("ll");
    AsWrittenCons(117, [108, 108]);
    assert [117 as byte] + [108, 108] == [117, 108, 108];
    assert "u" + "ll" == "ull";
    assert EscapeStringAsWritten([117, 108, 108]) == Some("ull");
    AsWrittenCons(110, [117, 108, 108]);
    assert [110 as byte] + [117, 108, 108] == [110, 117, 108, 108];
    assert "n" + "ull" == "null";
    assert EscapeStringAsWritten([110, 117, 108, 108]) == Some("null");
  }

  /** `WriteLiteralValue` as evidently intended: a string between double quotes. */
  function LiteralText(v: Value, formatFloat: u64 -> string, functionName: u32 -> string): (t: string)
    requires !v.ArrayValue? && !v.PlaceholderValue?
    ensures v.StringValue? ==> |t| >= 2 && t[0] == '"' && t[|t| - 1] == '"' && t[1..|t| - 1] == Escape(v.str)
  {
    match v
    case UndefinedValue => "undefined"
    case NullValue => "null"
    case BooleanValue(b) => if b then "true" else "false"
    case IntegerValue(x) => IntegerText(x)
    case FloatValue(bits) => formatFloat(bits)
    case StringValue(s) =>
      var t := "\"" + Escape(s) + "\"";
      assert t[1..|t| - 1] == Escape(s);
      t
    case FunctionValue(id) => functionName(id)
  }

  /** A string literal reads back as its bytes and no quote of its own ends it early. */
  lemma StringLiteralRoundTrip(s: seq<byte>, formatFloat: u64 -> string, functionName: u32 -> string)
    ensures var t := LiteralText(StringValue(s), formatFloat, functionName);
            Unescape(t[1..|t| - 1]) == Some(s)
  {
    UnescapeEscape(s);
  }

  /** `WriteVariableDef`: `let <name> = <literal>`. */
  function VariableDefText(varName: string, literal: string): string
  {
    "let " + varName + " = " + literal
  }

  /** `WriteEmptyArrayVariableDef`: `let <name> = [];`. */
  function EmptyArrayDefText(varName: string): string
  {
    "let " + varName + " = [];"
  }

  /** `WriteArrayPushStatement`: `<name>.push(<element>);`. */
  function ArrayPushText(varName: string, elementVarName: string): string
  {
    varName + ".push(" + elementVarName + ");"
  }

  /**
   * `WriteFunctionCallStatement`: `let <ret> = <function>(<args>);`, or with
   * a receiver `let <ret> = <function>.apply(<receiver>, <args>);`.
   */
  function CallText(retVarName: string, functionName: string, receiverVarName: string, argVarNames: seq<string>): string
  {
    "let " + retVarName + " = " + functionName + (if receiverVarName != "" then ".apply" else "") +
    "(" + Join(if receiverVarName != "" then [receiverVarName] + argVarNames else argVarNames, ", ") + ");"
  }

  /**
   * With a receiver the function is called through `.apply`, and the
   * receiver comes before the arguments, separated from them by `, `.
   */
  lemma CallTextWithReceiver(retVarName: string, functionName: string, receiverVarName: string, argVarNames: seq<string>)
    requires receiverVarName != ""
    ensures CallText(retVarName, functionName, receiverVarName, argVarNames) ==
            "let " + retVarName + " = " + functionName + ".apply(" + receiverVarName +
            (if argVarNames == [] then "" else ", " + Join(argVarNames, ", ")) + ");"
  {
    if argVarNames == [] {
      assert [receiverVarName] + argVarNames == [receiverVarName];
    } else {
      JoinCons(receiverVarName, argVarNames, ", ");
    }
  }

  /** `WriteRequireStatement`'s text: `let <module> = require('<module>');`. */
  function RequireText(moduleName: string): string
  {
    "let " + moduleName + " = require('" + moduleName + "');"
  }

  /** `IsInModule`: a name that starts with a lower-case letter and holds a dot. */
  predicate IsInModule(name: string)
  {
    |name| >= 1 && 'a' <= name[0] <= 'z' && '.' in name
  }

  /** The position of the first dot of a name that holds one. */
  function FirstDot(name: string): (i: nat)
    requires '.' in name
    ensures i < |name| && name[i] == '.' && '.' !in name[..i]
  {
    if name[0] == '.' then 0
    else
      assert '.' in name[1..] by {
        var k :| 0 <= k < |name| && name[k] == '.';
        assert name[1..][k - 1] == '.';
      }
      var i := 1 + FirstDot(name[1..]);
      assert name[..i] == [name[0]] + name[1..][..i - 1];
      i
  }

  /** `GetModuleName`: the part of a name before its first dot. */
  function GetModuleName(name: string): string
    requires '.' in name
  {
    name[..FirstDot(name)]
  }

  /** The module name of a name in a module is a non-empty prefix before a dot and holds no dot itself. */
  lemma ModuleNameSplits(name: string)
    requires IsInModule(name)
    ensures var m := GetModuleName(name);
            |m| >= 1 && '.' !in m && name == m + "." + name[|m| + 1..]
  {
    var i := FirstDot(name);
    assert name[0] != '.';
    assert name == name[..i] + [name[i]] + name[i + 1..];
  }
}
