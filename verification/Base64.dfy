/** Unpadded base64, in the standard and the URL alphabet (sections 4 and 5 of RFC 4648),
    as the Go library reads it: line breaks are skipped, and a strict decoder also
    wants the unused bits to be zero. */
module Base64 {
  import opened World

  type byte = b: int | 0 <= b < 256

  datatype Alphabet = Standard | Url

  function Symbol(v: int, a: Alphabet): char
    requires 0 <= v < 64
  {
    if v < 26 then ('A' as int + v) as char
    else if v < 52 then ('a' as int + v - 26) as char
    else if v < 62 then ('0' as int + v - 52) as char
    else if v == 62 then (if a.Standard? then '+' else '-')
    else (if a.Standard? then '/' else '_')
  }

  /** The value of a symbol, or -1. */
  function Value(c: char, a: Alphabet): (v: int)
    ensures -1 <= v < 64
  {
    var n := c as int;
    if 'A' as int <= n <= 'Z' as int then n - 'A' as int
    else if 'a' as int <= n <= 'z' as int then n - 'a' as int + 26
    else if '0' as int <= n <= '9' as int then n - '0' as int + 52
    else if c == (if a.Standard? then '+' else '-') then 62
    else if c == (if a.Standard? then '/' else '_') then 63
    else -1
  }

  function Encode(b: seq<byte>, a: Alphabet): string {
    if b == [] then ""
    else if |b| == 1 then [Symbol(b[0] / 4, a), Symbol(b[0] % 4 * 16, a)]
    else if |b| == 2 then [Symbol(b[0] / 4, a), Symbol(b[0] % 4 * 16 + b[1] / 16, a), Symbol(b[1] % 16 * 4, a)]
    else
      [Symbol(b[0] / 4, a), Symbol(b[0] % 4 * 16 + b[1] / 16, a), Symbol(b[1] % 16 * 4 + b[2] / 64, a), Symbol(b[2] % 64, a)]
      + Encode(b[3..], a)
  }

  function WithoutBreaks(s: string): string {
    if s == "" then ""
    else if s[0] == '\r' || s[0] == '\n' then WithoutBreaks(s[1..])
    else [s[0]] + WithoutBreaks(s[1..])
  }

  /** Some symbol of the leading group is not in the alphabet. */
  predicate BadGroup(s: string, a: Alphabet) {
    || (|s| > 0 && Value(s[0], a) < 0) || (|s| > 1 && Value(s[1], a) < 0)
    || (|s| > 2 && Value(s[2], a) < 0) || (|s| > 3 && Value(s[3], a) < 0)
  }

  function DecodeClean(s: string, a: Alphabet, strict: bool): Option<seq<byte>> {
    if s == "" then Some([])
    else if |s| == 1 || BadGroup(s, a) then None
    else
      var v, w := Value(s[0], a), Value(s[1], a);
      var first := v * 4 + w / 16;
      if |s| == 2 then (if strict && w % 16 != 0 then None else Some([first]))
      else
        var x := Value(s[2], a);
        var second := w % 16 * 16 + x / 4;
        if |s| == 3 then (if strict && x % 4 != 0 then None else Some([first, second]))
        else
          var rest := DecodeClean(s[4..], a, strict);
          if rest.None? then None else Some([first, second, x % 4 * 64 + Value(s[3], a)] + rest.value)
  }

  function Decode(s: string, a: Alphabet, strict: bool): Option<seq<byte>> {
    DecodeClean(WithoutBreaks(s), a, strict)
  }

  lemma ValueOfSymbol(v: int, a: Alphabet)
    requires 0 <= v < 64
    ensures Value(Symbol(v, a), a) == v
    ensures Symbol(v, a) !in ['\r', '\n', '$', ',', '=']
  {
  }

  /** Three bytes survive being cut into four symbols and put together again. */
  lemma GroupSurvives(x: byte, y: byte, z: byte)
    ensures 0 <= x / 4 < 64 && 0 <= x % 4 * 16 + y / 16 < 64 && 0 <= y % 16 * 4 + z / 64 < 64 && 0 <= z % 64 < 64
    ensures x / 4 * 4 + (x % 4 * 16 + y / 16) / 16 == x
    ensures (x % 4 * 16 + y / 16) % 16 * 16 + (y % 16 * 4 + z / 64) / 4 == y
    ensures (y % 16 * 4 + z / 64) % 4 * 64 + z % 64 == z
  {
  }

  lemma ShortGroup(b: seq<byte>, a: Alphabet, strict: bool)
    requires 1 <= |b| <= 2
    ensures DecodeClean(Encode(b, a), a, strict) == Some(b)
  {
    hide Symbol, Value;
    ValueOfSymbol(b[0] / 4, a);
    if |b| == 1 {
      GroupSurvives(b[0], 0, 0);
      ValueOfSymbol(b[0] % 4 * 16, a);
      assert b[0] % 4 * 16 % 16 == 0 && b == [b[0]];
    } else {
      GroupSurvives(b[0], b[1], 0);
      ValueOfSymbol(b[0] % 4 * 16 + b[1] / 16, a);
      ValueOfSymbol(b[1] % 16 * 4, a);
      assert b[1] % 16 * 4 % 4 == 0 && b == [b[0], b[1]];
    }
  }

  lemma FullGroup(b: seq<byte>, a: Alphabet, strict: bool)
    requires |b| >= 3 && DecodeClean(Encode(b[3..], a), a, strict) == Some(b[3..])
    ensures DecodeClean(Encode(b, a), a, strict) == Some(b)
  {
    hide Symbol, Value;
    GroupSurvives(b[0], b[1], b[2]);
    ValueOfSymbol(b[0] / 4, a);
    ValueOfSymbol(b[0] % 4 * 16 + b[1] / 16, a);
    ValueOfSymbol(b[1] % 16 * 4 + b[2] / 64, a);
    ValueOfSymbol(b[2] % 64, a);
    assert Encode(b, a)[4..] == Encode(b[3..], a);
    assert [b[0], b[1], b[2]] + b[3..] == b;
  }

  lemma {:induction false} DecodeCleanEncode(b: seq<byte>, a: Alphabet, strict: bool)
    ensures DecodeClean(Encode(b, a), a, strict) == Some(b)
  {
    if |b| >= 3 {
      DecodeCleanEncode(b[3..], a, strict);
      FullGroup(b, a, strict);
    } else if b != [] {
      ShortGroup(b, a, strict);
    }
  }

  predicate IsSymbol(c: char, a: Alphabet) {
    Value(c, a) >= 0
  }

  lemma {:induction false} EncodeSymbols(b: seq<byte>, a: Alphabet)
    ensures forall c | c in Encode(b, a) :: IsSymbol(c, a)
    ensures |Encode(b, a)| == |b| / 3 * 4 + (if |b| % 3 == 0 then 0 else |b| % 3 + 1)
  {
    hide Symbol, Value;
    if |b| >= 3 {
      EncodeSymbols(b[3..], a);
      GroupSurvives(b[0], b[1], b[2]);
      ValueOfSymbol(b[0] / 4, a);
      ValueOfSymbol(b[0] % 4 * 16 + b[1] / 16, a);
      ValueOfSymbol(b[1] % 16 * 4 + b[2] / 64, a);
      ValueOfSymbol(b[2] % 64, a);
    } else if |b| > 0 {
      GroupSurvives(b[0], if |b| == 2 then b[1] else 0, 0);
      ValueOfSymbol(b[0] / 4, a);
      ValueOfSymbol(if |b| == 1 then b[0] % 4 * 16 else b[0] % 4 * 16 + b[1] / 16, a);
      if |b| == 2 { ValueOfSymbol(b[1] % 16 * 4, a); }
    }
  }

  lemma {:induction false} NoBreaks(s: string, a: Alphabet)
    requires forall c | c in s :: IsSymbol(c, a)
    ensures WithoutBreaks(s) == s
  {
    if s != "" {
      assert IsSymbol(s[0], a);
      NoBreaks(s[1..], a);
    }
  }

  /** Decoding gives back what was encoded, strictly or not. */
  lemma DecodeEncode(b: seq<byte>, a: Alphabet, strict: bool)
    ensures Decode(Encode(b, a), a, strict) == Some(b)
  {
    EncodeSymbols(b, a);
    NoBreaks(Encode(b, a), a);
    DecodeCleanEncode(b, a, strict);
  }

  lemma {:induction false} DecodedSymbols(s: string, a: Alphabet)
    requires DecodeClean(s, a, true).Some?
    ensures Encode(DecodeClean(s, a, true).value, a) == s
  {
    hide Symbol, Value;
    if s != "" {
      SymbolOfValue(s[0], a);
      SymbolOfValue(s[1], a);
      if |s| == 2 {
        Pack(Value(s[0], a), Value(s[1], a), 0, 0);
      } else {
        SymbolOfValue(s[2], a);
        if |s| == 3 {
          Pack(Value(s[0], a), Value(s[1], a), Value(s[2], a), 0);
        } else {
          SymbolOfValue(s[3], a);
          DecodedGroup(s, a);
          DecodedSymbols(s[4..], a);
        }
      }
    }
  }

  lemma DecodedGroup(s: string, a: Alphabet)
    requires |s| >= 4 && DecodeClean(s, a, true).Some?
    ensures DecodeClean(s[4..], a, true).Some?
    ensures Encode(DecodeClean(s, a, true).value, a) == s[..4] + Encode(DecodeClean(s[4..], a, true).value, a)
  {
    hide Symbol, Value;
    Pack(Value(s[0], a), Value(s[1], a), Value(s[2], a), Value(s[3], a));
    SymbolOfValue(s[0], a);
    SymbolOfValue(s[1], a);
    SymbolOfValue(s[2], a);
    SymbolOfValue(s[3], a);
    var rest := DecodeClean(s[4..], a, true).value;
    assert DecodeClean(s, a, true).value[3..] == rest;
  }

  lemma SymbolOfValue(c: char, a: Alphabet)
    requires Value(c, a) >= 0
    ensures Symbol(Value(c, a), a) == c
  {
  }

  /** Four values survive being packed into three bytes. */
  lemma Pack(v: int, w: int, x: int, y: int)
    requires 0 <= v < 64 && 0 <= w < 64 && 0 <= x < 64 && 0 <= y < 64
    ensures var a, b, c := v * 4 + w / 16, w % 16 * 16 + x / 4, x % 4 * 64 + y;
      && 0 <= a < 256 && 0 <= b < 256 && 0 <= c < 256
      && a / 4 == v && a % 4 * 16 + b / 16 == w && b % 16 * 4 + c / 64 == x && c % 64 == y
  {
  }

  /** A strict decoder is one-to-one but for the line breaks that it skips. */
  lemma StrictIsCanonical(s: string, a: Alphabet)
    requires Decode(s, a, true).Some?
    ensures Encode(Decode(s, a, true).value, a) == WithoutBreaks(s)
  {
    DecodedSymbols(WithoutBreaks(s), a);
  }

  /** Line breaks are skipped wherever they stand, and nothing else is. */
  lemma {:induction false} BreaksSkipped(a: string, c: char, b: string)
    ensures WithoutBreaks("") == ""
    ensures WithoutBreaks(a + [c] + b) == WithoutBreaks(a) + (if c == '\r' || c == '\n' then "" else [c]) + WithoutBreaks(b)
  {
    if a == "" {
      assert (a + [c] + b)[1..] == b;
    } else {
      assert (a + [c] + b)[1..] == a[1..] + [c] + b;
      BreaksSkipped(a[1..], c, b);
    }
  }

  /** The lenient decoder reads whatever consists of symbols and line breaks, but for a
      single symbol left over. */
  lemma LenientReads(s: string, a: Alphabet)
    ensures Decode(s, a, false).Some? <==> |WithoutBreaks(s)| % 4 != 1 && forall c | c in WithoutBreaks(s) :: IsSymbol(c, a)
  {
    CleanReads(WithoutBreaks(s), a);
  }

  lemma {:induction false} CleanReads(s: string, a: Alphabet)
    ensures DecodeClean(s, a, false).Some? <==> |s| % 4 != 1 && forall c | c in s :: IsSymbol(c, a)
  {
    hide Value;
    if |s| >= 4 {
      CleanReads(s[4..], a);
      assert s == s[..4] + s[4..];
      assert BadGroup(s, a) <==> exists i | 0 <= i < 4 :: !IsSymbol(s[i], a);
    } else {
      assert forall i | 0 <= i < |s| :: s[i] in s;
    }
  }

  /** The strict decoder reads exactly the encodings, line breaks aside. */
  lemma StrictReads(s: string, a: Alphabet, b: seq<byte>)
    ensures Decode(s, a, true) == Some(b) <==> WithoutBreaks(s) == Encode(b, a)
  {
    if Decode(s, a, true).Some? { StrictIsCanonical(s, a); }
    if WithoutBreaks(s) == Encode(b, a) { DecodeCleanEncode(b, a, true); }
  }
}
