/** The escapes of C string literals as the runner decodes them. */
module InitializerEscapes {
  import opened CText
  import opened Initializer

  /** The decoded rest with `text` in front of it. */
  function Then(text: string, rest: Option<string>): Option<string> {
    if rest.None? then None else Some(text + rest.value)
  }

  lemma {:induction false} OneEscape(s: string, text: string, used: nat)
    requires s != "" && used <= |s| && EscapeText(s) == (Some(text), used)
    ensures Unescape("\\" + s) == Then(text, Unescape(s[used..]))
  {
    var raw := "\\" + s;
    hide EscapeText;
    assert raw[1..] == s && raw[1 + used..] == s[used..];
  }

  lemma {:induction false} NoEscape(s: string)
    requires s == "" || EscapeText(s).0.None?
    ensures Unescape("\\" + s) == None
  {
    var raw := "\\" + s;
    hide EscapeText;
    assert raw[1..] == s;
  }

  // ---- escapes of one character ----

  /** The one-character escapes of C, and the character each stands for. */
  predicate StandsFor(c: char, meant: int) {
    || (c == '\\' && meant == 92) || (c == '"' && meant == 34) || (c == '\'' && meant == 39)
    || (c == 'n' && meant == 10) || (c == 't' && meant == 9) || (c == 'r' && meant == 13)
    || (c == 'a' && meant == 7) || (c == 'b' && meant == 8) || (c == 'f' && meant == 12) || (c == 'v' && meant == 11)
  }

  lemma {:induction false} LetterEscape(c: char, meant: int, rest: string)
    requires StandsFor(c, meant)
    ensures Unescape("\\" + [c] + rest) == Then([meant as char], Unescape(rest))
  {
    var s := [c] + rest;
    assert s[1..] == rest && "\\" + [c] + rest == "\\" + s;
    OneEscape(s, [meant as char], 1);
  }

  /** A backslash before a line feed joins two lines. */
  lemma {:induction false} LineJoined(rest: string)
    ensures Unescape("\\\n" + rest) == Unescape(rest)
  {
    var s := "\n" + rest;
    assert s[1..] == rest && "\\\n" + rest == "\\" + s;
    OneEscape(s, "", 1);
    hide Unescape;
    if Unescape(rest).Some? {
      assert "" + Unescape(rest).value == Unescape(rest).value;
    }
  }

  /** A backslash before any other character stands for itself; at the end it is an error. */
  lemma {:induction false} BackslashKept(s: string)
    requires s != "" ==> !('0' <= s[0] <= '7') && s[0] !in "\\\"'ntrabfvxuUN\n"
    ensures Unescape("\\" + s) == if s == "" then None else Then("\\", Unescape(s))
  {
    if s == "" {
      NoEscape(s);
    } else {
      assert forall i :: 0 <= i < |"\\\"'ntrabfvxuUN\n"| ==> s[0] != "\\\"'ntrabfvxuUN\n"[i];
      NotListed(s[0]);
      assert s[0..] == s;
      OneEscape(s, "\\", 0);
    }
  }

  lemma {:induction false} NotListed(c: char)
    requires forall i :: 0 <= i < |"\\\"'ntrabfvxuUN\n"| ==> c != "\\\"'ntrabfvxuUN\n"[i]
    ensures c != '\\' && c != '"' && c != '\'' && c != 'n' && c != 't' && c != 'r' && c != 'a' && c != 'b'
    ensures c != 'f' && c != 'v' && c != 'x' && c != 'u' && c != 'U' && c != 'N' && c != '\n'
  {
    var list := "\\\"'ntrabfvxuUN\n";
    assert c != list[0] && c != list[1] && c != list[2] && c != list[3] && c != list[4] && c != list[5] && c != list[6];
    assert c != list[7] && c != list[8] && c != list[9] && c != list[10] && c != list[11] && c != list[12];
    assert c != list[13] && c != list[14];
  }

  // ---- escapes by number ----

  function Power(base: nat, k: nat): nat { if k == 0 then 1 else base * Power(base, k - 1) }

  function HexChar(d: nat, upper: bool): char
    requires d < 16
  {
    if upper then "0123456789ABCDEF"[d] else "0123456789abcdef"[d]
  }

  /** `n` in hexadecimal with `width` digits. */
  function HexOf(n: nat, width: nat, upper: bool): (s: string)
    ensures |s| == width
  {
    if width == 0 then "" else HexOf(n / 16, width - 1, upper) + [HexChar(n % 16, upper)]
  }

  lemma {:induction false} HexCharRead(d: nat, upper: bool)
    requires d < 16
    ensures HexDigit(HexChar(d, upper)) == Some(d)
  {
  }

  lemma {:induction false} HexRead(n: nat, width: nat, upper: bool)
    requires n < Power(16, width)
    ensures Hex(HexOf(n, width, upper)) == Some(n)
  {
    if width > 0 {
      var s := HexOf(n, width, upper);
      HexRead(n / 16, width - 1, upper);
      HexCharRead(n % 16, upper);
      assert s[..|s| - 1] == HexOf(n / 16, width - 1, upper);
    }
  }

  /** x, u and U with the number of digits each takes. */
  predicate Numeric(c: char, width: nat) { (c == 'x' && width == 2) || (c == 'u' && width == 4) || (c == 'U' && width == 8) }

  lemma {:induction false} NumericIs(c: char, width: nat, digits: string, rest: string)
    requires Numeric(c, width) && |digits| == width
    ensures EscapeText([c] + digits + rest) == (CodePoint(Hex(digits)), 1 + width)
  {
    var s := [c] + digits + rest;
    assert s[1..1 + width] == digits;
    hide Hex, CodePoint;
  }

  /** A code point in hexadecimal is that character; no character, no text. */
  lemma {:induction false} NumericEscapeRead(c: char, width: nat, n: nat, upper: bool, rest: string)
    requires Numeric(c, width) && n < Power(16, width)
    ensures Unescape("\\" + ([c] + HexOf(n, width, upper) + rest))
         == if n >= 0x110000 || 0xD800 <= n < 0xE000 then None else Then([n as char], Unescape(rest))
  {
    hide Unescape, Power, HexOf, Hex;
    var digits := HexOf(n, width, upper);
    var s := [c] + digits + rest;
    NumericIs(c, width, digits, rest);
    HexRead(n, width, upper);
    assert s[1 + width..] == rest;
    if n >= 0x110000 || 0xD800 <= n < 0xE000 {
      NoEscape(s);
    } else {
      OneEscape(s, [n as char], 1 + width);
    }
  }

  /** Too few digits, or another character among them, is an error. */
  lemma {:induction false} NumericBroken(c: char, width: nat, s: string)
    requires Numeric(c, width)
    requires |s| < width || exists i :: 0 <= i < width && HexDigit(s[i]).None?
    ensures Unescape("\\" + ([c] + s)) == None
  {
    hide Unescape;
    if |s| >= width {
      assert s == s[..width] + s[width..];
      assert [c] + s == [c] + s[..width] + s[width..];
      NumericIs(c, width, s[..width], s[width..]);
      var i :| 0 <= i < width && HexDigit(s[i]).None?;
      NotHex(s[..width], i);
    }
    NoEscape([c] + s);
  }

  lemma {:induction false} NotHex(s: string, i: nat)
    requires i < |s| && HexDigit(s[i]).None?
    ensures Hex(s).None?
  {
    if i < |s| - 1 {
      NotHex(s[..|s| - 1], i);
    }
  }

  /** `n` in octal with `width` digits. */
  function OctalOf(n: nat, width: nat): (s: string)
    ensures |s| == width && forall i :: 0 <= i < |s| ==> IsOctal(s[i])
  {
    if width == 0 then "" else OctalOf(n / 8, width - 1) + [('0' as int + n % 8) as char]
  }

  lemma {:induction false} OctalRead(n: nat, width: nat)
    requires n < Power(8, width)
    ensures Octal(OctalOf(n, width)) == n
  {
    if width > 0 {
      var s := OctalOf(n, width);
      OctalRead(n / 8, width - 1);
      assert s[..|s| - 1] == OctalOf(n / 8, width - 1);
    }
  }

  lemma {:induction false} OctalRunIs(digits: string, rest: string)
    requires 1 <= |digits| <= 3 && forall i :: 0 <= i < |digits| ==> IsOctal(digits[i])
    requires |digits| == 3 || rest == "" || !IsOctal(rest[0])
    ensures OctalRun(digits + rest) == |digits|
  {
    var s := digits + rest;
    assert forall i :: 0 <= i < |digits| ==> s[i] == digits[i];
    assert rest != "" ==> s[|digits|] == rest[0];
  }

  /** One to three octal digits, ended by another character or the third of them. */
  lemma {:induction false} OctalEscapeRead(n: nat, width: nat, rest: string)
    requires 1 <= width <= 3 && n < Power(8, width) && n < 512
    requires width == 3 || rest == "" || !('0' <= rest[0] <= '7')
    ensures Unescape("\\" + (OctalOf(n, width) + rest)) == Then([n as char], Unescape(rest))
  {
    hide Unescape, OctalOf, Octal, OctalRun, Power;
    var digits := OctalOf(n, width);
    var s := digits + rest;
    OctalRunIs(digits, rest);
    OctalRead(n, width);
    assert s[..width] == digits && s[width..] == rest && s[0] == digits[0];
    OneEscape(s, [n as char], width);
  }

  // ---- characters that are not escaped ----

  predicate Trailing(c: char) { 0x80 <= c as int < 0xC0 }

  /** The last six bits of a trailing byte. */
  function Bits(c: char): int { c as int - 0x80 }

  /** The bytes of `c` as section 3 of RFC 3629 lays them out. */
  predicate Utf8Of(c: char, s: string) {
    var n := c as int;
    if |s| == 1 then n < 0x80 && s[0] == c
    else if |s| == 2 then 0x80 <= n < 0x800 && Trailing(s[1]) && n == (s[0] as int - 0xC0) * 64 + Bits(s[1])
    else if |s| == 3 then
      0x800 <= n < 0x10000 && Trailing(s[1]) && Trailing(s[2])
      && n == ((s[0] as int - 0xE0) * 64 + Bits(s[1])) * 64 + Bits(s[2])
    else
      |s| == 4 && 0x10000 <= n && Trailing(s[1]) && Trailing(s[2]) && Trailing(s[3])
      && n == (((s[0] as int - 0xF0) * 64 + Bits(s[1])) * 64 + Bits(s[2])) * 64 + Bits(s[3])
  }

  lemma {:induction false} Sixes(n: nat)
    ensures n == n / 64 * 64 + n % 64
    ensures n / 4096 == n / 64 / 64 && n / 262144 == n / 4096 / 64
    ensures 0 <= n / 64 % 64 < 64 && 0 <= n / 4096 % 64 < 64 && 0 <= n % 64 < 64
    ensures n / 64 == n / 4096 * 64 + n / 64 % 64 && n / 4096 == n / 262144 * 64 + n / 4096 % 64
  {
  }

  /** A character outside ASCII comes out as its UTF-8 bytes, each a character of its own. */
  lemma {:induction false} BytesAreUtf8(c: char)
    ensures Utf8Of(c, Bytes(c))
  {
    Sixes(c as int);
    var n := c as int;
    if 0x800 <= n < 0x10000 {
      assert n == (n / 4096 * 64 + n / 64 % 64) * 64 + n % 64;
    } else if n >= 0x10000 {
      assert n == ((n / 262144 * 64 + n / 4096 % 64) * 64 + n / 64 % 64) * 64 + n % 64;
    }
  }

  lemma {:induction false} UnescapedRead(c: char, rest: string)
    requires c != '\\'
    ensures Unescape([c] + rest) == Then(Bytes(c), Unescape(rest))
  {
    var raw := [c] + rest;
    assert raw[1..] == rest;
    hide Bytes;
  }
}
