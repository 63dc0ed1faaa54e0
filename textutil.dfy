/** `isNumber` of text/textutil.ts. */
module TextUtil {
  import opened Numerals

  /** `char.toLowerCase()` on the characters this predicate can accept. */
  function ToLower(c: char): char {
    if 'A' <= c <= 'Z' then (c as int + 32) as char else c
  }

  predicate IsHexDigitIgnoringCase(c: char) {
    ToLower(c) in "1234567890abcdef"
  }

  predicate IsBinaryDigit(c: char) {
    c in "01"
  }

  /** White space and line terminators that `parseInt` skips first
      (ECMAScript's WhiteSpace and LineTerminator productions). */
  predicate IsJsSpace(c: char) {
    '\U{9}' <= c <= '\U{D}' || c == ' ' || c == '\U{A0}' || c == '\U{1680}'
    || '\U{2000}' <= c <= '\U{200A}' || c == '\U{2028}' || c == '\U{2029}'
    || c == '\U{202F}' || c == '\U{205F}' || c == '\U{3000}' || c == '\U{FEFF}'
  }

  function TrimStart(s: string): (t: string)
    ensures |t| <= |s|
    ensures t != [] ==> !IsJsSpace(t[0])
  {
    if s != [] && IsJsSpace(s[0]) then TrimStart(s[1..]) else s
  }

  /** `!isNaN(parseInt(s))`: after leading space and one sign, either a `0x` or
      `0X` prefix followed by a hexadecimal digit, or a decimal digit. */
  predicate ParseIntIsNumber(s: string) {
    var t := TrimStart(s);
    var u := if t != [] && (t[0] == '+' || t[0] == '-') then t[1..] else t;
    if |u| >= 2 && u[0] == '0' && (u[1] == 'x' || u[1] == 'X') then
      |u| > 2 && ('0' <= u[2] <= '9' || 'a' <= u[2] <= 'f' || 'A' <= u[2] <= 'F')
    else
      u != [] && IsDigit(u[0])
  }

  predicate IsNumber(ident: string): (r: bool)
    ensures r ==> ident != []
    ensures |ident| == 1 ==> (r <==> IsDigit(ident[0]))
  {
    if |ident| > 1 then
      if ident[..2] == "0x" then
        forall i :: 2 <= i < |ident| ==> IsHexDigitIgnoringCase(ident[i])
      else if ident[..2] == "0b" then
        forall i :: 2 <= i < |ident| ==> IsBinaryDigit(ident[i])
      else
        ParseIntIsNumber(ident)
    else
      ParseIntIsNumber(ident)
  }

  /** On one character, which is how the lexer calls it, `isNumber` is exactly
      "is a decimal digit". */
  lemma IsNumberOnOneChar(c: char)
    ensures IsNumber([c]) <==> IsDigit(c)
  {
    var t := TrimStart([c]);
    if IsJsSpace(c) {
      assert TrimStart([c][1..]) == [];
      assert t == [];
    } else {
      assert t == [c];
    }
    assert IsNumber([c]) == ParseIntIsNumber([c]);
  }

  /** Any longer text that starts with a decimal digit and has no `0x`, `0X`
      or `0b` prefix is accepted, whatever follows the digit (`"12ab"`). */
  lemma IsNumberOnDigitFirst(s: string)
    requires |s| > 1 && IsDigit(s[0])
    requires s[..2] != "0x" && s[..2] != "0X" && s[..2] != "0b"
    ensures IsNumber(s)
  {
    assert TrimStart(s) == s;
    if s[0] == '0' {
      assert s[1] != 'x' && s[1] != 'X' by {
        assert s[..2] == [s[0], s[1]];
      }
    }
  }

  /** Under a lower-case `0x` or `0b` prefix every later character must be a
      digit of that base, either case for hexadecimal; the prefix alone is
      accepted. */
  lemma IsNumberPrefixed()
    ensures IsNumber("0x") && IsNumber("0xFf") && !IsNumber("0x1g")
    ensures IsNumber("0b") && IsNumber("0b101") && !IsNumber("0b12")
  {
    assert "0x"[..2] == "0x" && "0xFf"[..2] == "0x" && "0x1g"[..2] == "0x";
    assert "0b"[..2] == "0b" && "0b101"[..2] == "0b" && "0b12"[..2] == "0b";
    assert !IsHexDigitIgnoringCase("0x1g"[3]);
    assert !IsBinaryDigit("0b12"[3]);
  }

  /** A `0X` prefix is not the `0x` branch: `parseInt` then wants a
      hexadecimal digit after it, so `"0Xg"` is rejected. */
  lemma IsNumberUpperHexPrefix()
    ensures IsNumber("0X1") && !IsNumber("0Xg")
  {
    assert "0X1"[..2] == "0X" && "0Xg"[..2] == "0X";
    assert TrimStart("0X1") == "0X1" && TrimStart("0Xg") == "0Xg";
  }
}
