/** Which strings are accepted as password hashes, and what they say. */
module PasswordForm {
  import opened World
  import opened Text
  import opened Base64
  import opened Password

  /** The four places of $argon2id$v=...$...$...$... are filled: the version is 19, the
      parameters are assigned, and salt and key are encoded. */
  ghost predicate Fills(v: string, f: string, e: string, k: string, p: Parameters, salt: seq<byte>, key: seq<byte>) {
    && '$' !in v && '$' !in f && '$' !in e && '$' !in k
    && IsNumber(v, 19) && Lists(SplitOn(f, ','), p.memoryKiB, p.iterations, p.parallelism)
    && WithoutBreaks(e) == Encode(salt, Standard) && WithoutBreaks(k) == Encode(key, Standard)
  }

  /** The string is such a form, and the parameters are within their bounds. */
  ghost predicate IsHash(s: string, p: Parameters, salt: seq<byte>, key: seq<byte>) {
    && |s| <= 512
    && 8192 <= p.memoryKiB <= 262144 && 8 * p.parallelism <= p.memoryKiB && 1 <= p.iterations <= 10 && 1 <= p.parallelism <= 16
    && 16 <= |salt| == p.saltLength <= 64 && 16 <= |key| == p.keyLength <= 64
    && exists v, f, e, k :: s == Form(v, f, e, k) && Fills(v, f, e, k, p, salt, key)
  }

  function Form(v: string, f: string, e: string, k: string): string {
    "$argon2id$v=" + v + "$" + f + "$" + e + "$" + k
  }

  lemma FormParts(v: string, f: string, e: string, k: string)
    requires '$' !in v && '$' !in f && '$' !in e && '$' !in k
    ensures SplitOn(Form(v, f, e, k), '$') == ["", "argon2id", "v=" + v, f, e, k]
  {
    hide SplitOn, JoinOn;
    var parts := ["", "argon2id", "v=" + v, f, e, k];
    JoinSix("", "argon2id", "v=" + v, f, e, k, '$');
    assert "$argon2id$v=" == "" + "$" + "argon2id" + "$" + "v=";
    assert Form(v, f, e, k) == JoinOn(parts, '$');
    SplitOnJoin(parts, '$');
  }

  lemma PartsForm(s: string, v: string)
    requires var parts := SplitOn(s, '$'); |parts| == 6 && parts[0] == "" && parts[1] == "argon2id" && parts[2] == "v=" + v
    ensures var parts := SplitOn(s, '$'); s == Form(v, parts[3], parts[4], parts[5])
    ensures var parts := SplitOn(s, '$'); '$' !in v && '$' !in parts[3] && '$' !in parts[4] && '$' !in parts[5]
  {
    hide SplitOn, JoinOn;
    var parts := SplitOn(s, '$');
    JoinOnSplit(s, '$');
    PartsPlain(s, '$');
    assert forall c | c in v :: c in parts[2];
    assert parts == ["", "argon2id", "v=" + v, parts[3], parts[4], parts[5]];
    JoinSix("", "argon2id", "v=" + v, parts[3], parts[4], parts[5], '$');
    assert "$argon2id$v=" == "" + "$" + "argon2id" + "$" + "v=";
  }

  lemma NumberExactly(digits: string, n: nat)
    ensures ParseUint(digits) == Some(n) <==> IsNumber(digits, n)
  {
  }

  /** Exactly the hashes are accepted, and what they say is what is returned. */
  lemma ParsesExactly(s: string, p: Parameters, salt: seq<byte>, key: seq<byte>)
    ensures Parse(s) == Some((p, salt, key)) <==> IsHash(s, p, salt, key)
  {
    hide SplitOn, ParseFields, ParseUint, IsNumber, Lists, Decode, Encode, WithoutBreaks, Form;
    if Parse(s) == Some((p, salt, key)) { ParsedIsHash(s, p, salt, key); }
    if IsHash(s, p, salt, key) { HashParses(s, p, salt, key); }
  }

  lemma ParsedIsHash(s: string, p: Parameters, salt: seq<byte>, key: seq<byte>)
    requires Parse(s) == Some((p, salt, key))
    ensures IsHash(s, p, salt, key)
  {
    hide SplitOn, WithFields, ParseUint, IsNumber, Lists, Decode, Encode, WithoutBreaks, Form;
    var parts := SplitOn(s, '$');
    var v := parts[2][2..];
    assert parts[2] == "v=" + v;
    PartsForm(s, v);
    NumberExactly(v, 19);
    FieldsExactly(parts[3], p.memoryKiB, p.iterations, p.parallelism);
    StrictReads(parts[4], Standard, salt);
    StrictReads(parts[5], Standard, key);
    assert Fills(v, parts[3], parts[4], parts[5], p, salt, key);
  }

  lemma HashParses(s: string, p: Parameters, salt: seq<byte>, key: seq<byte>)
    requires IsHash(s, p, salt, key)
    ensures Parse(s) == Some((p, salt, key))
  {
    hide SplitOn, ParseFields, ParseUint, IsNumber, Lists, Decode, Encode, WithoutBreaks;
    var v, f, e, k :| s == Form(v, f, e, k) && Fills(v, f, e, k, p, salt, key);
    FormParts(v, f, e, k);
    assert ("v=" + v)[2..] == v;
    NumberExactly(v, 19);
    FieldsExactly(f, p.memoryKiB, p.iterations, p.parallelism);
    StrictReads(e, Standard, salt);
    StrictReads(k, Standard, key);
  }
}
