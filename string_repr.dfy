/** Python's `repr` of a string, which `str` of a mapping applies to every key and
    every string value: the literal is quoted with `'`, or with `"` when the string
    holds a `'` and no `"`; inside it the quote character and `\` are escaped, tab,
    newline and carriage return become `\t`, `\n`, `\r`, and characters that are not
    printable become `\xhh` or `\uhhhh` (lower-case hex).

    Printability is decided for the control characters, U+007F to U+00A0, the soft
    hyphen U+00AD, and the space separators and format characters of the ranges
    U+2000 to U+200F, U+2028 to U+202F and U+205F to U+206F, plus U+1680, U+3000 and
    U+FEFF; every other character counts as printable. */
module StringRepr {
  import opened Dicts

  /** The character of a hex digit, lower case. */
  function HexDigit(n: int): (c: char)
    requires 0 <= n < 16
    ensures IsHex(c) && HexValue(c) == n
  {
    if n < 10 then ('0' as int + n) as char else ('a' as int + n - 10) as char
  }

  predicate IsHex(c: char)
  {
    '0' <= c <= '9' || 'a' <= c <= 'f'
  }

  function HexValue(c: char): (n: int)
    requires IsHex(c)
    ensures 0 <= n < 16
  {
    if c <= '9' then c as int - '0' as int else c as int - 'a' as int + 10
  }

  /** Two hex digits of a byte. */
  function Hex2(n: int): (r: string)
    requires 0 <= n < 0x100
    ensures |r| == 2 && IsHex(r[0]) && IsHex(r[1])
    ensures HexValue(r[0]) * 16 + HexValue(r[1]) == n
  {
    [HexDigit(n / 16), HexDigit(n % 16)]
  }

  /** Four hex digits of a 16-bit value. */
  function Hex4(n: int): (r: string)
    requires 0 <= n < 0x10000
    ensures |r| == 4 && IsHex(r[0]) && IsHex(r[1]) && IsHex(r[2]) && IsHex(r[3])
    ensures Hex4Value(r) == n
  {
    Hex2(n / 0x100) + Hex2(n % 0x100)
  }

  function Hex4Value(t: string): int
    requires |t| >= 4 && IsHex(t[0]) && IsHex(t[1]) && IsHex(t[2]) && IsHex(t[3])
  {
    (HexValue(t[0]) * 16 + HexValue(t[1])) * 0x100 + HexValue(t[2]) * 16 + HexValue(t[3])
  }

  /** Characters below U+0100 that `repr` writes as `\xhh`. */
  predicate ByteEscaped(c: char)
  {
    (c < ' ' && c != '\t' && c != '\n' && c != '\r') || ('\U{007f}' <= c <= '\U{00a0}') || c == '\U{00ad}'
  }

  /** Characters above U+00FF that `repr` writes as `\uhhhh`. */
  predicate WideEscaped(c: char)
  {
    || c == '\U{1680}' || c == '\U{3000}' || c == '\U{feff}'
    || ('\U{2000}' <= c <= '\U{200f}') || ('\U{2028}' <= c <= '\U{202f}') || ('\U{205f}' <= c <= '\U{206f}')
  }

  /** The quote character `repr` chooses. */
  function ReprQuote(s: string): char
  {
    if '\'' in s && '"' !in s then '"' else '\''
  }

  /** One character inside a literal quoted with `q`. */
  function EscapeChar(c: char, q: char): string
  {
    if c == q || c == '\\' then ['\\', c]
    else if c == '\t' then "\\t"
    else if c == '\n' then "\\n"
    else if c == '\r' then "\\r"
    else if ByteEscaped(c) then "\\x" + Hex2(c as int)
    else if WideEscaped(c) then "\\u" + Hex4(c as int)
    else [c]
  }

  /** The body of a literal quoted with `q`. */
  function Escaped(s: string, q: char): string
  {
    if s == [] then "" else EscapeChar(s[0], q) + Escaped(s[1..], q)
  }

  /** `repr(s)` */
  function StrRepr(s: string): (r: string)
    ensures |r| >= 2 && r[0] == ReprQuote(s) && r[|r| - 1] == ReprQuote(s)
    ensures r[0] == '"' <==> '\'' in s && '"' !in s
  {
    var q := ReprQuote(s);
    [q] + Escaped(s, q) + [q]
  }

  // ---------------------------------------------------------------------------
  // Reading a literal back

  function Prepend(p: string, rest: Option<string>): Option<string>
  {
    if rest.Some? then Some(p + rest.value) else None
  }

  /** The characters the body `t` of a literal quoted with `q` stands for, as Python
      reads it; `None` when `t` holds an unescaped `q`, a lone `\`, or an escape
      sequence this reader does not know. */
  function Unescape(t: string, q: char): Option<string>
    decreases |t|
  {
    if t == [] then Some("")
    else if t[0] == q then None
    else if t[0] != '\\' then Prepend([t[0]], Unescape(t[1..], q))
    else if |t| < 2 then None
    else if t[1] == '\\' || t[1] == '\'' || t[1] == '"' then Prepend([t[1]], Unescape(t[2..], q))
    else if t[1] == 't' then Prepend("\t", Unescape(t[2..], q))
    else if t[1] == 'n' then Prepend("\n", Unescape(t[2..], q))
    else if t[1] == 'r' then Prepend("\r", Unescape(t[2..], q))
    else if t[1] == 'x' && |t| >= 4 && IsHex(t[2]) && IsHex(t[3]) then
      Prepend([(HexValue(t[2]) * 16 + HexValue(t[3])) as char], Unescape(t[4..], q))
    else if t[1] == 'u' && |t| >= 6 && IsHex(t[2]) && IsHex(t[3]) && IsHex(t[4]) && IsHex(t[5]) then
      var v := Hex4Value(t[2..6]);
      if v < 0xD800 || 0xE000 <= v then Prepend([v as char], Unescape(t[6..], q)) else None
    else None
  }

  /** A character that `repr` keeps as it is. */
  predicate Plain(c: char, q: char)
  {
    c != q && c != '\\' && c != '\t' && c != '\n' && c != '\r' && !ByteEscaped(c) && !WideEscaped(c)
  }

  lemma UnescapePlain(c: char, q: char, rest: string)
    requires c != q && c != '\\'
    ensures Unescape([c] + rest, q) == Prepend([c], Unescape(rest, q))
  {
    var t := [c] + rest;
    assert t[0] == c && t[1..] == rest;
  }

  lemma UnescapeBackslashed(c: char, q: char, rest: string)
    requires c == '\\' || c == '\'' || c == '"'
    requires q == '\'' || q == '"'
    ensures Unescape(['\\', c] + rest, q) == Prepend([c], Unescape(rest, q))
  {
    var t := ['\\', c] + rest;
    assert t[0] == '\\' && t[1] == c && t[2..] == rest;
  }

  lemma UnescapeNamed(c: char, letter: char, q: char, rest: string)
    requires (c == '\t' && letter == 't') || (c == '\n' && letter == 'n') || (c == '\r' && letter == 'r')
    requires q == '\'' || q == '"'
    ensures Unescape(['\\', letter] + rest, q) == Prepend([c], Unescape(rest, q))
  {
    var t := ['\\', letter] + rest;
    assert t[0] == '\\' && t[1] == letter && t[2..] == rest;
  }

  lemma UnescapeByte(c: char, q: char, rest: string)
    requires ByteEscaped(c)
    requires q == '\'' || q == '"'
    ensures Unescape("\\x" + Hex2(c as int) + rest, q) == Prepend([c], Unescape(rest, q))
  {
    var h := Hex2(c as int);
    var t := "\\x" + h + rest;
    assert t[0] == '\\' && t[1] == 'x' && t[2] == h[0] && t[3] == h[1];
    assert t[4..] == rest;
    assert (HexValue(t[2]) * 16 + HexValue(t[3])) as char == c;
  }

  lemma UnescapeWide(c: char, q: char, rest: string)
    requires WideEscaped(c)
    requires q == '\'' || q == '"'
    ensures Unescape("\\u" + Hex4(c as int) + rest, q) == Prepend([c], Unescape(rest, q))
  {
    var h := Hex4(c as int);
    var t := "\\u" + h + rest;
    assert t[0] == '\\' && t[1] == 'u';
    assert t[2..6] == h && t[6..] == rest;
    assert IsHex(t[2]) && IsHex(t[3]) && IsHex(t[4]) && IsHex(t[5]);
    assert Hex4Value(t[2..6]) == c as int;
  }

  /** Reading one escaped character back gives the character. */
  lemma UnescapeChar(c: char, q: char, rest: string)
    requires q == '\'' || q == '"'
    ensures Unescape(EscapeChar(c, q) + rest, q) == Prepend([c], Unescape(rest, q))
  {
    if c == q || c == '\\' {
      UnescapeBackslashed(c, q, rest);
    } else if c == '\t' {
      UnescapeNamed(c, 't', q, rest);
    } else if c == '\n' {
      UnescapeNamed(c, 'n', q, rest);
    } else if c == '\r' {
      UnescapeNamed(c, 'r', q, rest);
    } else if ByteEscaped(c) {
      UnescapeByte(c, q, rest);
    } else if WideEscaped(c) {
      UnescapeWide(c, q, rest);
    } else {
      UnescapePlain(c, q, rest);
    }
  }

  /** The body of a literal reads back as the string: every `q` in it is escaped,
      and every escape stands for the character it came from. */
  lemma {:induction false} UnescapeEscaped(s: string, q: char)
    requires q == '\'' || q == '"'
    ensures Unescape(Escaped(s, q), q) == Some(s)
    decreases |s|
  {
    if s != [] {
      var rest := Escaped(s[1..], q);
      assert Escaped(s, q) == EscapeChar(s[0], q) + rest;
      UnescapeChar(s[0], q, rest);
      UnescapeEscaped(s[1..], q);
      assert Unescape(rest, q) == Some(s[1..]);
      assert [s[0]] + s[1..] == s;
    }
  }

  /** `repr(s)` is a literal that reads back as `s`. */
  lemma StrReprRoundTrip(s: string)
    ensures var r := StrRepr(s);
      Unescape(r[1..|r| - 1], r[0]) == Some(s)
  {
    var q := ReprQuote(s);
    var r := StrRepr(s);
    assert r[1..|r| - 1] == Escaped(s, q);
    UnescapeEscaped(s, q);
  }

  /** Escaping works character by character. */
  lemma {:induction false} EscapedAppend(a: string, b: string, q: char)
    ensures Escaped(a + b, q) == Escaped(a, q) + Escaped(b, q)
    decreases |a|
  {
    if a != [] {
      assert (a + b)[0] == a[0] && (a + b)[1..] == a[1..] + b;
      EscapedAppend(a[1..], b, q);
      calc {
        Escaped(a + b, q);
        EscapeChar(a[0], q) + Escaped(a[1..] + b, q);
        EscapeChar(a[0], q) + (Escaped(a[1..], q) + Escaped(b, q));
        (EscapeChar(a[0], q) + Escaped(a[1..], q)) + Escaped(b, q);
      }
    } else {
      assert a + b == b;
    }
  }

  /** A run of characters `repr` keeps is its own body. */
  lemma {:induction false} EscapedPlain(s: string, q: char)
    requires forall i :: 0 <= i < |s| ==> Plain(s[i], q)
    ensures Escaped(s, q) == s
    decreases |s|
  {
    if s != [] {
      EscapedPlain(s[1..], q);
    }
  }

  /** Printable ASCII other than the quote and `\` is kept. */
  lemma PlainAscii(s: string, q: char)
    requires forall i :: 0 <= i < |s| ==> ' ' <= s[i] <= '~' && s[i] != q && s[i] != '\\'
    ensures forall i :: 0 <= i < |s| ==> Plain(s[i], q)
  {
  }

  /** A string of printable ASCII without `'` or `\` is quoted with `'` and kept. */
  lemma PlainRepr(s: string)
    requires forall i :: 0 <= i < |s| ==> ' ' <= s[i] <= '~' && s[i] != '\'' && s[i] != '\\'
    ensures StrRepr(s) == "'" + s + "'"
  {
    assert '\'' !in s;
    PlainAscii(s, '\'');
    EscapedPlain(s, '\'');
  }

  /** A printable ASCII string with a `'`, no `"` and no backslash is written
      between double quotes and otherwise as it is. */
  lemma DoubleQuotedRepr(s: string)
    requires forall i :: 0 <= i < |s| ==> ' ' <= s[i] <= '~' && s[i] != '"' && s[i] != '\\'
    requires '\'' in s
    ensures StrRepr(s) == "\"" + s + "\""
  {
    assert '"' !in s;
    PlainAscii(s, '"');
    EscapedPlain(s, '"');
  }

  /** `it's` is quoted with `"`. */
  lemma ApostropheExample()
    ensures StrRepr("it's") == "\"it's\""
  {
    assert ReprQuote("it's") == '"' by {
      assert "it's"[2] == '\'';
    }
    PlainAscii("it's", '"');
    EscapedPlain("it's", '"');
  }

  /** A backslash is doubled. */
  lemma BackslashExample()
    ensures StrRepr("a\\b") == "'a\\\\b'"
  {
    assert ReprQuote("a\\b") == '\'';
    assert "a\\b" == "a" + ("\\" + "b");
    EscapedAppend("a", "\\" + "b", '\'');
    EscapedAppend("\\", "b", '\'');
    EscapedPlain("a", '\'');
    EscapedPlain("b", '\'');
    assert Escaped("\\", '\'') == "\\\\";
  }

  /** A no-break space is written `\xa0`. */
  lemma NoBreakSpaceExample()
    ensures StrRepr("\U{00a0}") == "'\\xa0'"
  {
    assert ReprQuote("\U{00a0}") == '\'';
    assert Hex2(0xa0) == "a0";
  }
}
