/** JSON string escaping, decoded by the rules of section 7 of RFC 8259 and by the runner's own
    scanner.  Strings are byte strings: bytes of 0x80 and above pass through. */
module Escape {
  import opened Scalars

  function HexDigit(n: nat): char
    requires n < 16
  {
    "0123456789abcdef"[n]
  }

  /** The digits are lower-case. */
  lemma HexDigitExact(n: nat)
    requires n < 16
    ensures HexDigit(n) as int == if n < 10 then '0' as int + n else 'a' as int + (n - 10)
  {
  }

  predicate IsControl(c: char) {
    c < ' '
  }

  function EscapeChar(c: char): string {
    if c == '"' then "\\\""
    else if c == '\\' then "\\\\"
    else if c == '\n' then "\\n"
    else if c == '\r' then "\\r"
    else if c == '\t' then "\\t"
    else if IsControl(c) then "\\u00" + [HexDigit(c as int / 16), HexDigit(c as int % 16)]
    else [c]
  }

  function EscapeAll(s: string): string {
    if s == "" then "" else EscapeChar(s[0]) + EscapeAll(s[1..])
  }

  lemma {:induction false} EscapeMore(s: string, c: char)
    ensures EscapeAll(s + [c]) == EscapeAll(s) + EscapeChar(c)
  {
    if s == "" {
      assert [c][1..] == "";
    } else {
      assert (s + [c])[1..] == s[1..] + [c];
      EscapeMore(s[1..], c);
    }
  }

  /** `jsonEscape` of the plugin and `json_escape` of the runner. */
  method JsonEscape(s: string) returns (o: string)
    ensures o == EscapeAll(s)
  {
    o := "";
    for i := 0 to |s|
      invariant o == EscapeAll(s[..i])
    {
      assert s[..i + 1] == s[..i] + [s[i]];
      EscapeMore(s[..i], s[i]);
      var c := s[i];
      match c {
        case '"' => o := o + "\\\"";
        case '\\' => o := o + "\\\\";
        case '\n' => o := o + "\\n";
        case '\r' => o := o + "\\r";
        case '\t' => o := o + "\\t";
        case _ =>
          if c < ' ' {
            o := o + ("\\u00" + [HexDigit(c as int / 16), HexDigit(c as int % 16)]);
          } else {
            o := o + [c];
          }
      }
    }
    assert s[..|s|] == s;
  }

  // ---------------------------------------------------------------- section 7 of RFC 8259

  function HexVal(c: char): Option<nat> {
    if '0' <= c <= '9' then Some(c as int - '0' as int)
    else if 'a' <= c <= 'f' then Some(c as int - 'a' as int + 10)
    else if 'A' <= c <= 'F' then Some(c as int - 'A' as int + 10)
    else None
  }

  /** The code unit of four hexadecimal digits. */
  function Hex4(t: string): (r: Option<nat>)
    ensures r.Some? ==> |t| >= 4 && r.value < 0x1_0000
  {
    if |t| < 4 then None else
      var a, b, c, d := HexVal(t[0]), HexVal(t[1]), HexVal(t[2]), HexVal(t[3]);
      if a.None? || b.None? || c.None? || d.None? then None
      else Some(((a.value * 16 + b.value) * 16 + c.value) * 16 + d.value)
  }

  /** The UTF-8 bytes of a code point. */
  function Utf8(p: nat): string
    requires p < 0x11_0000
  {
    if p < 0x80 then [p as char]
    else if p < 0x800 then [(0xC0 + p / 64) as char, (0x80 + p % 64) as char]
    else if p < 0x1_0000 then [(0xE0 + p / 4096) as char, (0x80 + p / 64 % 64) as char, (0x80 + p % 64) as char]
    else [(0xF0 + p / 262144) as char, (0x80 + p / 4096 % 64) as char,
          (0x80 + p / 64 % 64) as char, (0x80 + p % 64) as char]
  }

  /** The characters between the quotes of a JSON string, decoded; None when they are not the
      inside of a JSON string (raw control, unescaped quote, bad escape, lone surrogate). */
  function Decode(t: string): Option<string>
    decreases |t|
  {
    if t == "" then Some("")
    else if IsControl(t[0]) || t[0] == '"' then None
    else if t[0] != '\\' then Prepend([t[0]], Decode(t[1..]))
    else if |t| == 1 then None
    else
      match t[1]
      case '"' => Prepend("\"", Decode(t[2..]))
      case '\\' => Prepend("\\", Decode(t[2..]))
      case '/' => Prepend("/", Decode(t[2..]))
      case 'b' => Prepend([8 as char], Decode(t[2..]))
      case 'f' => Prepend([12 as char], Decode(t[2..]))
      case 'n' => Prepend("\n", Decode(t[2..]))
      case 'r' => Prepend("\r", Decode(t[2..]))
      case 't' => Prepend("\t", Decode(t[2..]))
      case 'u' =>
        var u := Hex4(t[2..]);
        if u.None? then None
        else if u.value < 0xD800 || 0xE000 <= u.value then Prepend(Utf8(u.value), Decode(t[6..]))
        else if u.value < 0xDC00 && |t| >= 8 && t[6] == '\\' && t[7] == 'u' then
          var v := Hex4(t[8..]);
          if v.Some? && 0xDC00 <= v.value < 0xE000
          then Prepend(Utf8(0x1_0000 + (u.value - 0xD800) * 1024 + (v.value - 0xDC00)), Decode(t[12..]))
          else None
        else None
      case _ => None
  }

  function Prepend(s: string, r: Option<string>): Option<string> {
    if r.None? then None else Some(s + r.value)
  }

  lemma HexBack(n: nat)
    requires n < 16
    ensures HexVal(HexDigit(n)) == Some(n)
  {
  }

  lemma DecodeControl(c: char, rest: string)
    requires IsControl(c)
    ensures var t := "\\u00" + [HexDigit(c as int / 16), HexDigit(c as int % 16)] + rest;
            Decode(t) == Prepend([c], Decode(rest))
  {
    var t := "\\u00" + [HexDigit(c as int / 16), HexDigit(c as int % 16)] + rest;
    HexBack(c as int / 16);
    HexBack(c as int % 16);
    var d := t[2..];
    assert d[0] == '0' && d[1] == '0' && d[2] == HexDigit(c as int / 16) && d[3] == HexDigit(c as int % 16);
    assert Hex4(d) == Some(c as int);
    assert t[6..] == rest;
  }

  lemma DecodeChar(c: char, rest: string)
    ensures Decode(EscapeChar(c) + rest) == Prepend([c], Decode(rest))
  {
    var t := EscapeChar(c) + rest;
    if IsControl(c) && c != '\n' && c != '\r' && c != '\t' {
      DecodeControl(c, rest);
    } else if |EscapeChar(c)| == 2 {
      assert t[2..] == rest;
    } else {
      assert t[1..] == rest;
    }
  }

  /** A JSON decoder gives back what was escaped, for every string. */
  lemma {:induction false} EscapeIsValid(s: string)
    ensures Decode(EscapeAll(s)) == Some(s)
  {
    if s != "" {
      DecodeChar(s[0], EscapeAll(s[1..]));
      EscapeIsValid(s[1..]);
      assert [s[0]] + s[1..] == s;
    }
  }

  lemma EscapeInjective(s: string, t: string)
    requires EscapeAll(s) == EscapeAll(t)
    ensures s == t
  {
    EscapeIsValid(s);
    EscapeIsValid(t);
  }

  lemma {:induction false} NoRawControls(s: string, k: nat)
    requires k < |EscapeAll(s)|
    ensures !IsControl(EscapeAll(s)[k])
  {
    var e := EscapeChar(s[0]);
    if k >= |e| { NoRawControls(s[1..], k - |e|); }
  }

  // ---------------------------------------------------------------- the runner's scanner

  /** `json_string_field` after the opening quote: reads to the next quote that is not behind a
      backslash; only `\n` and `\t` are given their meaning. */
  function Unescape(t: string): string
    decreases |t|
  {
    if t == "" || t[0] == '"' then ""
    else if t[0] == '\\' && |t| > 1 then [Meaning(t[1])] + Unescape(t[2..])
    else [t[0]] + Unescape(t[1..])
  }

  function Meaning(c: char): char {
    if c == 'n' then '\n' else if c == 't' then '\t' else c
  }

  /** What that scanner makes of an escaped character: `\r` loses its backslash, and so do the
      other controls. */
  function LossyChar(c: char): string {
    if c == '\r' then "r"
    else if IsControl(c) && c != '\n' && c != '\t' then "u00" + [HexDigit(c as int / 16), HexDigit(c as int % 16)]
    else [c]
  }

  function Lossy(s: string): string {
    if s == "" then "" else LossyChar(s[0]) + Lossy(s[1..])
  }

  lemma UnescapeRaw(x: string, rest: string)
    requires forall k :: 0 <= k < |x| ==> x[k] != '"' && x[k] != '\\'
    ensures Unescape(x + rest) == x + Unescape(rest)
    decreases |x|
  {
    if x == "" {
      assert x + rest == rest;
    } else {
      assert (x + rest)[1..] == x[1..] + rest;
      UnescapeRaw(x[1..], rest);
    }
  }

  lemma UnescapeControl(c: char, rest: string)
    requires IsControl(c)
    ensures var x := "00" + [HexDigit(c as int / 16), HexDigit(c as int % 16)];
            Unescape("\\u" + x + rest) == "u" + x + Unescape(rest)
  {
    var x := "00" + [HexDigit(c as int / 16), HexDigit(c as int % 16)];
    assert ("\\u" + x + rest)[2..] == x + rest;
    UnescapeRaw(x, rest);
  }

  lemma UnescapeChar(c: char, rest: string)
    ensures Unescape(EscapeChar(c) + rest) == LossyChar(c) + Unescape(rest)
  {
    if IsControl(c) && c != '\n' && c != '\r' && c != '\t' {
      var x := "00" + [HexDigit(c as int / 16), HexDigit(c as int % 16)];
      UnescapeControl(c, rest);
      assert EscapeChar(c) == "\\u" + x && LossyChar(c) == "u" + x;
    } else if |EscapeChar(c)| == 2 {
      UnescapePair(EscapeChar(c)[1], rest);
      assert EscapeChar(c) == ['\\', EscapeChar(c)[1]] && LossyChar(c) == [Meaning(EscapeChar(c)[1])];
    } else {
      assert ([c] + rest)[1..] == rest;
    }
  }

  lemma UnescapePair(d: char, rest: string)
    ensures Unescape(['\\', d] + rest) == [Meaning(d)] + Unescape(rest)
  {
    assert (['\\', d] + rest)[2..] == rest;
  }

  /** The scanner stops at the closing quote, wherever quotes and backslashes are in the value. */
  lemma {:induction false} UnescapeEscaped(s: string, rest: string)
    ensures Unescape(EscapeAll(s) + "\"" + rest) == Lossy(s)
  {
    if s == "" {
      assert EscapeAll(s) + "\"" + rest == "\"" + rest;
    } else {
      var tail := EscapeAll(s[1..]) + "\"" + rest;
      assert EscapeAll(s) + "\"" + rest == EscapeChar(s[0]) + tail;
      UnescapeChar(s[0], tail);
      UnescapeEscaped(s[1..], rest);
    }
  }

  /** Free of carriage returns and of controls other than newline and tab. */
  predicate Plain(s: string) {
    forall k :: 0 <= k < |s| ==> !IsControl(s[k]) || s[k] == '\n' || s[k] == '\t'
  }

  lemma {:induction false} LossyLength(s: string)
    ensures |Lossy(s)| >= |s|
  {
    if s != "" { LossyLength(s[1..]); }
  }

  /** The scanner undoes the escaping exactly on plain strings. */
  lemma {:induction false} LossyExact(s: string)
    ensures Lossy(s) == s <==> Plain(s)
  {
    if s != "" {
      LossyExact(s[1..]);
      LossyLength(s[1..]);
      assert s == [s[0]] + s[1..];
      if Lossy(s) == s {
        assert |LossyChar(s[0])| == 1;
        assert Lossy(s)[1..] == Lossy(s[1..]);
        assert Lossy(s)[0] == LossyChar(s[0])[0];
      }
    }
  }

  /** There the scanner agrees with the JSON decoder. */
  lemma ScannersAgree(s: string, rest: string)
    requires Plain(s)
    ensures Decode(EscapeAll(s)) == Some(Unescape(EscapeAll(s) + "\"" + rest))
  {
    EscapeIsValid(s);
    UnescapeEscaped(s, rest);
    LossyExact(s);
  }
}
