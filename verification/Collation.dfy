/** The binary collation compares the UTF-8 encodings byte by byte, which is the order of
    the characters. */
module Collation {
  import opened Ordering
  import opened Base64
  import opened Json

  /** memcmp: the first difference decides, and a proper prefix comes first. */
  ghost predicate BytesBefore(a: seq<byte>, b: seq<byte>) {
    exists k: nat :: ByteDecides(a, b, k)
  }

  ghost predicate ByteDecides(a: seq<byte>, b: seq<byte>, k: nat) {
    k <= |a| && k < |b| && a[..k] == b[..k] && (k == |a| || a[k] < b[k])
  }

  lemma Asymmetric(a: seq<byte>, b: seq<byte>)
    requires BytesBefore(a, b)
    ensures !BytesBefore(b, a)
  {
    var k: nat :| ByteDecides(a, b, k);
    forall l: nat ensures !ByteDecides(b, a, l) {
      if k < l <= |a| && l <= |b| { assert a[..l][k] == a[k] && b[..l][k] == b[k]; }
      if l < k { assert a[..k][l] == a[l] && b[..k][l] == b[l]; }
    }
  }

  lemma SamePrefix(x: seq<byte>, a: seq<byte>, b: seq<byte>)
    ensures BytesBefore(x + a, x + b) <==> BytesBefore(a, b)
  {
    if k: nat :| ByteDecides(a, b, k) {
      assert (x + a)[..|x| + k] == x + a[..k] && (x + b)[..|x| + k] == x + b[..k];
      assert ByteDecides(x + a, x + b, |x| + k);
    }
    if k: nat :| ByteDecides(x + a, x + b, k) {
      assert k >= |x|;
      assert a[..k - |x|] == (x + a)[..k][|x|..] && b[..k - |x|] == (x + b)[..k][|x|..];
      assert ByteDecides(a, b, k - |x|);
    }
  }

  /** The last six bits decide when the others are equal. */
  lemma SixBits(m: int, n: int)
    requires 0 <= m < n
    ensures m / 64 < n / 64 || (m / 64 == n / 64 && m % 64 < n % 64)
  {
  }

  lemma Quotients(m: int)
    requires 0 <= m
    ensures m / 64 / 64 == m / 4096 && m / 4096 / 64 == m / 262144
  {
  }

  /** The encodings of two characters differ at a byte that both have, in their order. */
  lemma CharsDecide(c: char, d: char) returns (k: nat)
    requires c < d
    ensures k < |Utf8Bytes(c)| && k < |Utf8Bytes(d)| && Utf8Bytes(c)[..k] == Utf8Bytes(d)[..k] && Utf8Bytes(c)[k] < Utf8Bytes(d)[k]
  {
    var x, y := Utf8Bytes(c), Utf8Bytes(d);
    if |x| == |y| > 1 {
      k := LaterDecides(c, d);
    } else {
      k := 0;
    }
  }

  lemma LaterDecides(c: char, d: char) returns (k: nat)
    requires c < d && |Utf8Bytes(c)| == |Utf8Bytes(d)| > 1
    ensures k < |Utf8Bytes(c)| && Utf8Bytes(c)[..k] == Utf8Bytes(d)[..k] && Utf8Bytes(c)[k] < Utf8Bytes(d)[k]
  {
    var m, n := c as int, d as int;
    var x := Utf8Bytes(c);
    Quotients(m);
    Quotients(n);
    SixBits(m, n);
    if m / 64 == n / 64 { return |x| - 1; }
    SixBits(m / 64, n / 64);
    if |x| == 2 { return 0; }
    if m / 4096 == n / 4096 { return |x| - 2; }
    SixBits(m / 4096, n / 4096);
    if |x| == 3 { return 0; }
    k := if m / 262144 == n / 262144 then 1 else 0;
  }

  lemma CharsBefore(c: char, d: char, a: seq<byte>, b: seq<byte>)
    requires c < d
    ensures BytesBefore(Utf8Bytes(c) + a, Utf8Bytes(d) + b)
  {
    hide Utf8Bytes;
    var k := CharsDecide(c, d);
    var x, y := Utf8Bytes(c), Utf8Bytes(d);
    assert (x + a)[..k] == x[..k] && (y + b)[..k] == y[..k];
    assert ByteDecides(x + a, y + b, k);
  }

  /** SQLite's binary order of two texts is the order of their characters. */
  lemma {:induction false} BinaryIsBytes(a: string, b: string)
    ensures Less(a, b) <==> BytesBefore(ToUtf8(a), ToUtf8(b))
  {
    hide Utf8Bytes;
    if a != "" && b != "" {
      if a[0] == b[0] {
        BinaryIsBytes(a[1..], b[1..]);
        SamePrefix(Utf8Bytes(a[0]), ToUtf8(a[1..]), ToUtf8(b[1..]));
      } else if a[0] < b[0] {
        CharsBefore(a[0], b[0], ToUtf8(a[1..]), ToUtf8(b[1..]));
      } else {
        CharsBefore(b[0], a[0], ToUtf8(b[1..]), ToUtf8(a[1..]));
        Asymmetric(ToUtf8(b), ToUtf8(a));
      }
    } else if b != "" {
      FrontOfChar(b[0], ToUtf8(b[1..]));
      assert ByteDecides([], ToUtf8(b), 0);
    }
  }
}
