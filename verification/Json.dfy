/** UTF-8 and the part of JSON that page cursors use: objects of string members as
    json.Marshal writes them, read back member by member. */
module Json {
  import opened World
  import opened Base64

  /****** UTF-8 ******/

  function Utf8Bytes(c: char): seq<byte> {
    var n := c as int;
    if n < 0x80 then [n]
    else if n < 0x800 then [0xC0 + n / 64, 0x80 + n % 64]
    else if n < 0x1_0000 then [0xE0 + n / 4096, 0x80 + n / 64 % 64, 0x80 + n % 64]
    else [0xF0 + n / 262144, 0x80 + n / 4096 % 64, 0x80 + n / 64 % 64, 0x80 + n % 64]
  }

  function ToUtf8(s: string): seq<byte> {
    if s == "" then [] else Utf8Bytes(s[0]) + ToUtf8(s[1..])
  }

  predicate IsScalar(n: int) {
    0 <= n < 0xD800 || 0xE000 <= n < 0x11_0000
  }

  /** The code point at the front, and how many bytes it took; -1 when malformed. */
  function FrontPoint(b: seq<byte>): (int, nat)
    requires b != []
  {
    var n, b0: int := |b|, b[0];
    var b1: int, b2: int, b3: int := if n > 1 then b[1] else 0, if n > 2 then b[2] else 0, if n > 3 then b[3] else 0;
    if b0 < 0x80 then (b0, 1)
    else if 0xC0 <= b0 < 0xE0 then ((b0 - 0xC0) * 64 + (b1 - 0x80), 2)
    else if 0xE0 <= b0 < 0xF0 then ((b0 - 0xE0) * 4096 + (b1 - 0x80) * 64 + (b2 - 0x80), 3)
    else if 0xF0 <= b0 < 0xF8 then ((b0 - 0xF0) * 262144 + (b1 - 0x80) * 4096 + (b2 - 0x80) * 64 + (b3 - 0x80), 4)
    else (-1, 1)
  }

  function FromUtf8(b: seq<byte>): Option<string> {
    if b == [] then Some("")
    else
      var (n, used) := FrontPoint(b);
      if used > |b| || !IsScalar(n) || !(Utf8Bytes(n as char) <= b) then None
      else
        var rest := FromUtf8(b[used..]);
        if rest.None? then None else Some([n as char] + rest.value)
  }

  lemma FrontOfChar(c: char, rest: seq<byte>)
    ensures Utf8Bytes(c) != [] && FrontPoint(Utf8Bytes(c) + rest) == (c as int, |Utf8Bytes(c)|)
  {
    var n := c as int;
    assert n == n / 64 * 64 + n % 64;
    assert n / 64 == n / 4096 * 64 + n / 64 % 64;
    assert n / 4096 == n / 262144 * 64 + n / 4096 % 64;
  }

  lemma {:induction false} FromToUtf8(s: string)
    ensures FromUtf8(ToUtf8(s)) == Some(s)
  {
    if s != "" {
      hide Utf8Bytes, FrontPoint;
      FromToUtf8(s[1..]);
      FrontOfChar(s[0], ToUtf8(s[1..]));
      var b := ToUtf8(s);
      assert b[|Utf8Bytes(s[0])|..] == ToUtf8(s[1..]);
      assert [s[0]] + s[1..] == s;
    }
  }

  /** Exactly the encodings are read: overlong forms, surrogates and cut-off sequences are not. */
  lemma {:induction false} FromUtf8Exactly(b: seq<byte>, s: string)
    ensures FromUtf8(b) == Some(s) <==> b == ToUtf8(s)
  {
    if b == ToUtf8(s) { FromToUtf8(s); }
    if FromUtf8(b) == Some(s) && b != [] {
      hide Utf8Bytes, FrontPoint;
      var (n, used) := FrontPoint(b);
      FromUtf8Exactly(b[used..], s[1..]);
      FrontOfChar(s[0], b[|Utf8Bytes(s[0])|..]);
      assert b == Utf8Bytes(s[0]) + b[|Utf8Bytes(s[0])|..];
    }
  }

  /****** strings ******/

  function HexDigit(n: int): char
    requires 0 <= n < 16
  {
    if n < 10 then ('0' as int + n) as char else ('a' as int + n - 10) as char
  }

  function HexValue(c: char): (v: int)
    ensures -1 <= v < 16
  {
    var n := c as int;
    if '0' as int <= n <= '9' as int then n - '0' as int
    else if 'a' as int <= n <= 'f' as int then n - 'a' as int + 10
    else if 'A' as int <= n <= 'F' as int then n - 'A' as int + 10
    else -1
  }

  function Hex4(n: int): string
    requires 0 <= n < 0x1_0000
  {
    [HexDigit(n / 4096), HexDigit(n / 256 % 16), HexDigit(n / 16 % 16), HexDigit(n % 16)]
  }

  /** Quotes, backslashes, control characters, the HTML characters, and the two
      separators that end a line in JavaScript are escaped. */
  function EscapedChar(c: char): string {
    var n := c as int;
    if c == '"' || c == '\\' then ['\\', c]
    else if n == 8 then "\\b"
    else if n == 9 then "\\t"
    else if n == 10 then "\\n"
    else if n == 12 then "\\f"
    else if n == 13 then "\\r"
    else if n < 0x20 || c == '<' || c == '>' || c == '&' || n == 0x2028 || n == 0x2029 then "\\u" + Hex4(n)
    else [c]
  }

  function Escaped(s: string): string {
    if s == "" then "" else EscapedChar(s[0]) + Escaped(s[1..])
  }

  function Quoted(s: string): string {
    "\"" + Escaped(s) + "\""
  }

  /** The character at the front of a string body, and how many characters it took;
      0 when there is none. */
  function FrontChar(s: string): (char, nat)
    requires s != ""
  {
    if s[0] == '"' || s[0] as int < 0x20 then (s[0], 0)
    else if s[0] != '\\' then (s[0], 1)
    else if |s| < 2 then (s[0], 0)
    else if s[1] == '"' || s[1] == '\\' || s[1] == '/' then (s[1], 2)
    else if s[1] == 'b' then (8 as char, 2)
    else if s[1] == 't' then (9 as char, 2)
    else if s[1] == 'n' then (10 as char, 2)
    else if s[1] == 'f' then (12 as char, 2)
    else if s[1] == 'r' then (13 as char, 2)
    else if s[1] == 'u' && |s| >= 6 && HexValue(s[2]) >= 0 && HexValue(s[3]) >= 0 && HexValue(s[4]) >= 0 && HexValue(s[5]) >= 0 then
      var n := HexValue(s[2]) * 4096 + HexValue(s[3]) * 256 + HexValue(s[4]) * 16 + HexValue(s[5]);
      if IsScalar(n) then (n as char, 6) else (s[0], 0)
    else (s[0], 0)
  }

  /** A string body up to its closing quote, and what follows the quote. */
  function ReadString(s: string): (r: Option<(string, string)>)
    ensures r.Some? ==> |r.value.1| < |s|
  {
    if s == "" then None
    else if s[0] == '"' then Some(("", s[1..]))
    else
      var (c, used) := FrontChar(s);
      if used == 0 || used > |s| then None
      else
        var rest := ReadString(s[used..]);
        if rest.None? then None else Some(([c] + rest.value.0, rest.value.1))
  }

  lemma HexRoundTrip(n: int)
    requires 0 <= n < 0x1_0000
    ensures var h := Hex4(n);
      && |h| == 4 && HexValue(h[0]) >= 0 && HexValue(h[1]) >= 0 && HexValue(h[2]) >= 0 && HexValue(h[3]) >= 0
      && HexValue(h[0]) * 4096 + HexValue(h[1]) * 256 + HexValue(h[2]) * 16 + HexValue(h[3]) == n
  {
    HexDigitValue(n / 4096);
    HexDigitValue(n / 256 % 16);
    HexDigitValue(n / 16 % 16);
    HexDigitValue(n % 16);
    hide HexDigit, HexValue;
    assert n == n / 16 * 16 + n % 16;
    assert n / 16 == n / 256 * 16 + n / 16 % 16;
    assert n / 256 == n / 4096 * 16 + n / 256 % 16;
  }

  lemma HexDigitValue(n: int)
    requires 0 <= n < 16
    ensures HexValue(HexDigit(n)) == n
  {
  }

  lemma FrontOfEscaped(c: char, rest: string)
    ensures var e := EscapedChar(c);
      e != "" && e[0] != '"' && FrontChar(e + rest) == (c, |e|)
  {
    hide Hex4, HexValue;
    var n := c as int;
    if n < 0x1_0000 { HexRoundTrip(n); }
    var e := EscapedChar(c);
    assert forall i | 0 <= i < |e| :: (e + rest)[i] == e[i];
  }

  lemma ReadOneMore(c: char, e: string, tail: string, more: string, rest: string)
    requires e != "" && e[0] != '"' && FrontChar(e + tail) == (c, |e|) && ReadString(tail) == Some((more, rest))
    ensures ReadString(e + tail) == Some(([c] + more, rest))
  {
    hide FrontChar;
    assert (e + tail)[|e|..] == tail;
  }

  lemma {:induction false} ReadEscaped(s: string, rest: string)
    ensures ReadString(Escaped(s) + "\"" + rest) == Some((s, rest))
  {
    var text := Escaped(s) + "\"" + rest;
    if s == "" {
      assert text[0] == '"' && text[1..] == rest;
    } else {
      hide EscapedChar, FrontChar, ReadString;
      var tail := Escaped(s[1..]) + "\"" + rest;
      FrontOfEscaped(s[0], tail);
      ReadEscaped(s[1..], rest);
      ReadOneMore(s[0], EscapedChar(s[0]), tail, s[1..], rest);
      assert text == EscapedChar(s[0]) + tail;
      assert [s[0]] + s[1..] == s;
    }
  }

  predicate IsSpecial(c: char) {
    c as int < 0x20 || c in ['"', '\\', '<', '>', '&', 0x2028 as char, 0x2029 as char]
  }

  /** Escaping leaves a text without special characters alone, and is the only thing that
      keeps the others out: apart from quotes and backslashes none is left. */
  lemma {:induction false} EscapesExactly(s: string)
    ensures Escaped(s) == s <==> forall c | c in s :: !IsSpecial(c)
    ensures forall c | c in Escaped(s) && IsSpecial(c) :: c == '"' || c == '\\'
    ensures |s| <= |Escaped(s)|
  {
    if s != "" {
      hide EscapedChar, IsSpecial;
      EscapesExactly(s[1..]);
      EscapedOne(s[0]);
      assert s == [s[0]] + s[1..];
      if Escaped(s) == s {
        assert |EscapedChar(s[0])| == 1;
        assert Escaped(s)[1..] == Escaped(s[1..]);
      }
    }
  }

  lemma EscapedOne(c: char)
    ensures EscapedChar(c) != ""
    ensures |EscapedChar(c)| == 1 <==> !IsSpecial(c)
    ensures !IsSpecial(c) ==> EscapedChar(c) == [c]
    ensures forall d | d in EscapedChar(c) && IsSpecial(d) :: d == '"' || d == '\\'
  {
  }

  /****** objects of string members ******/

  function Member(key: string, value: string): string {
    Quoted(key) + ":" + Quoted(value)
  }

  type Members = seq<(string, string)>

  function WriteMembers(ms: Members): string {
    if ms == [] then ""
    else Member(ms[0].0, ms[0].1) + (if |ms| == 1 then "}" else "," + WriteMembers(ms[1..]))
  }

  /** json.Marshal of a struct whose fields are strings. */
  function Write(ms: Members): string {
    "{" + WriteMembers(ms)
  }

  /** `"key":"value"` at the front, and what follows it. */
  function ReadMember(s: string): (r: Option<(string, string, string)>)
    ensures r.Some? ==> |r.value.2| < |s|
  {
    if !(['"'] <= s) then None
    else
      var key := ReadString(s[1..]);
      if key.None? || !([':', '"'] <= key.value.1) then None
      else
        var value := ReadString(key.value.1[2..]);
        if value.None? then None else Some((key.value.0, value.value.0, value.value.1))
  }

  /** Members up to the closing brace, and what follows it. */
  function ReadMembers(s: string): Option<(Members, string)>
    decreases |s|
  {
    var m := ReadMember(s);
    if m.None? || m.value.2 == "" then None
    else
      var (key, value, rest) := m.value;
      if rest[0] == '}' then Some(([(key, value)], rest[1..]))
      else if rest[0] != ',' then None
      else
        var more := ReadMembers(rest[1..]);
        if more.None? then None else Some(([(key, value)] + more.value.0, more.value.1))
  }

  /** One object and nothing after it. */
  function Read(s: string): Option<Members> {
    if s == "" || s[0] != '{' then None
    else
      var r := ReadMembers(s[1..]);
      if r.None? || r.value.1 != "" then None else Some(r.value.0)
  }

  lemma ReadOneMember(key: string, value: string, rest: string)
    ensures ReadMember(Member(key, value) + rest) == Some((key, value, rest))
  {
    hide ReadString, Escaped;
    var s := Member(key, value) + rest;
    var after := ":" + Quoted(value) + rest;
    ReadEscaped(key, after);
    assert s[1..] == Escaped(key) + "\"" + after;
    ReadEscaped(value, rest);
    assert after[2..] == Escaped(value) + "\"" + rest;
  }

  lemma ReadLast(key: string, value: string, tail: string)
    ensures ReadMembers(Member(key, value) + ("}" + tail)) == Some(([(key, value)], tail))
  {
    hide ReadMember, Member;
    ReadOneMember(key, value, "}" + tail);
    assert ("}" + tail)[1..] == tail;
  }

  lemma ReadFurther(key: string, value: string, more: string, ms: Members, tail: string)
    requires ReadMembers(more) == Some((ms, tail))
    ensures ReadMembers(Member(key, value) + ("," + more)) == Some(([(key, value)] + ms, tail))
  {
    hide ReadMember, Member;
    ReadOneMember(key, value, "," + more);
    assert ("," + more)[1..] == more;
  }

  lemma {:induction false} ReadWriteMembers(ms: Members, tail: string)
    requires ms != []
    ensures ReadMembers(WriteMembers(ms) + tail) == Some((ms, tail))
  {
    hide ReadMembers, Member;
    var (key, value) := ms[0];
    if |ms| == 1 {
      ReadLast(key, value, tail);
      assert ms == [(key, value)] && WriteMembers(ms) + tail == Member(key, value) + ("}" + tail);
    } else {
      var more := WriteMembers(ms[1..]) + tail;
      ReadWriteMembers(ms[1..], tail);
      ReadFurther(key, value, more, ms[1..], tail);
      assert [(key, value)] + ms[1..] == ms;
      assert WriteMembers(ms) + tail == Member(key, value) + ("," + more);
    }
  }

  /** Reading gives back the members that were written, and refuses anything behind them. */
  lemma ReadWrite(ms: Members, tail: string)
    requires ms != []
    ensures Read(Write(ms) + tail) == if tail == "" then Some(ms) else None
  {
    ReadWriteMembers(ms, tail);
    assert (Write(ms) + tail)[1..] == WriteMembers(ms) + tail;
  }
}
