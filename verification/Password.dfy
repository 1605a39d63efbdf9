/** The printed form of a password hash and its parser. */
module Password {
  import opened World
  import opened Text
  import opened Base64

  const MAXIMUM_ENCODED := 512
  const ARGON2_VERSION: nat := 19
  const UINT32: nat := 0x1_0000_0000

  datatype Parameters = Parameters(memoryKiB: nat, iterations: nat, parallelism: nat, saltLength: nat, keyLength: nat)

  predicate Admitted(p: Parameters) {
    && 8 * 1024 <= p.memoryKiB <= 256 * 1024
    && 1 <= p.iterations <= 10
    && 1 <= p.parallelism <= 16
    && p.memoryKiB >= 8 * p.parallelism
    && 16 <= p.saltLength <= 64
    && 16 <= p.keyLength <= 64
  }

  /****** decimals ******/

  function Digit(n: nat): char
    requires n < 10
  {
    ('0' as int + n) as char
  }

  /** %d */
  function Decimal(n: nat): string {
    if n < 10 then [Digit(n)] else Decimal(n / 10) + [Digit(n % 10)]
  }

  predicate IsDigit(c: char) {
    '0' as int <= c as int <= '9' as int
  }

  function Digits(s: string): nat
    requires forall i | 0 <= i < |s| :: IsDigit(s[i])
  {
    if s == "" then 0
    else
      assert IsDigit(s[|s| - 1]);
      10 * Digits(s[..|s| - 1]) + (s[|s| - 1] as int - '0' as int)
  }

  /** strconv.ParseUint(s, 10, 32) */
  function ParseUint(s: string): Option<nat> {
    if s == "" || exists i | 0 <= i < |s| :: !IsDigit(s[i]) then None
    else if Digits(s) >= UINT32 then None
    else Some(Digits(s))
  }

  lemma {:induction false} DecimalDigits(n: nat)
    ensures Decimal(n) != "" && (forall i | 0 <= i < |Decimal(n)| :: IsDigit(Decimal(n)[i]))
    ensures Digits(Decimal(n)) == n
  {
    if n >= 10 {
      DecimalDigits(n / 10);
      assert Decimal(n)[..|Decimal(n)| - 1] == Decimal(n / 10);
    } else {
      assert [Digit(n)][..0] == "";
    }
  }

  lemma ParseDecimal(n: nat)
    requires n < UINT32
    ensures ParseUint(Decimal(n)) == Some(n)
  {
    DecimalDigits(n);
  }

  lemma {:induction false} DecimalLength(n: nat, digits: nat, bound: nat)
    requires digits > 0 && n < bound && bound == Pow10(digits)
    ensures |Decimal(n)| <= digits
  {
    if n >= 10 {
      DecimalLength(n / 10, digits - 1, bound / 10);
    }
  }

  function Pow10(k: nat): nat {
    if k == 0 then 1 else 10 * Pow10(k - 1)
  }

  /****** printing ******/

  function PrintFields(p: Parameters): string {
    "m=" + Decimal(p.memoryKiB) + ",t=" + Decimal(p.iterations) + ",p=" + Decimal(p.parallelism)
  }

  function Print(p: Parameters, salt: seq<byte>, key: seq<byte>): string {
    "$" + "argon2id" + "$v=" + Decimal(ARGON2_VERSION) + "$" + PrintFields(p) + "$" + Encode(salt, Standard) + "$" + Encode(key, Standard)
  }

  /****** parsing ******/

  /** One name=value field added to those read so far. */
  function WithField(values: map<string, nat>, field: string): Option<map<string, nat>> {
    var i := FirstIndex(field, '=');
    if i == |field| || i == 0 || i + 1 == |field| then None
    else
      var name := field[..i];
      if name in values then None
      else
        var value := ParseUint(field[i + 1..]);
        if value.None? then None else Some(values[name := value.value])
  }

  function WithFields(fields: seq<string>): Option<map<string, nat>> {
    if fields == [] then Some(map[])
    else
      var values := WithFields(fields[..|fields| - 1]);
      if values.None? then None else WithField(values.value, fields[|fields| - 1])
  }

  /** Memory, iterations and parallelism; the lengths are not known yet. */
  function ParseFields(encoded: string): Option<Parameters> {
    var fields := SplitOn(encoded, ',');
    if |fields| != 3 then None
    else
      var values := WithFields(fields);
      if values.None? || "m" !in values.value || "t" !in values.value || "p" !in values.value || values.value["p"] > 255 then None
      else Some(Parameters(values.value["m"], values.value["t"], values.value["p"], 0, 0))
  }

  /****** what the parameter list says ******/

  /** The field is `name`, an equals sign, and the digits of `n`, which fits 32 bits. */
  ghost predicate Assigns(field: string, name: string, n: nat) {
    exists digits: string :: field == name + "=" + digits && IsNumber(digits, n)
  }

  predicate IsNumber(digits: string, n: nat) {
    digits != "" && (forall i | 0 <= i < |digits| :: IsDigit(digits[i])) && Digits(digits) == n < UINT32
  }

  /** Three fields that assign m, t and p, in any order, with p in a byte. */
  ghost predicate Lists(fields: seq<string>, m: nat, t: nat, p: nat) {
    && |fields| == 3 && p <= 255
    && exists i, j, k ::
         && 0 <= i < 3 && 0 <= j < 3 && 0 <= k < 3 && i != j && j != k && i != k
         && Assigns(fields[i], "m", m) && Assigns(fields[j], "t", t) && Assigns(fields[k], "p", p)
  }

  /** The field has a name of its own, and a number. */
  ghost predicate Named(field: string, name: string, n: nat) {
    name != "" && '=' !in name && Assigns(field, name, n)
  }

  lemma FieldIsNamed(values: map<string, nat>, field: string)
    ensures WithField(values, field).Some? ==>
      exists name, n: nat :: Named(field, name, n) && name !in values && WithField(values, field).value == values[name := n]
    ensures WithField(values, field).None? ==> forall name, n: nat :: Named(field, name, n) ==> name in values
  {
    var i := FirstIndex(field, '=');
    if i < |field| {
      assert field == field[..i] + "=" + field[i + 1..];
    }
    forall name, n: nat | Named(field, name, n) ensures 0 < i == |name| && field[..i] == name && ParseUint(field[i + 1..]) == Some(n) {
      var digits :| field == name + "=" + digits && IsNumber(digits, n);
      FirstIndexAt(name, digits, '=');
      assert field[..|name|] == name && field[|name| + 1..] == digits;
    }
    if WithField(values, field).Some? {
      assert IsNumber(field[i + 1..], ParseUint(field[i + 1..]).value);
      assert Named(field, field[..i], ParseUint(field[i + 1..]).value);
    }
  }

  lemma OneName(field: string, a: string, m: nat, b: string, n: nat)
    requires Named(field, a, m) && Named(field, b, n)
    ensures a == b && m == n
  {
    var x :| field == a + "=" + x && IsNumber(x, m);
    var y :| field == b + "=" + y && IsNumber(y, n);
    FirstIndexAt(a, x, '=');
    FirstIndexAt(b, y, '=');
    assert field[..|a|] == a && field[..|b|] == b && field[|a| + 1..] == x && field[|b| + 1..] == y;
  }

  ghost predicate NamedAmong(fields: seq<string>, name: string, n: nat) {
    exists j :: 0 <= j < |fields| && Named(fields[j], name, n)
  }

  ghost predicate Unnamed(field: string) {
    forall name, n: nat :: !Named(field, name, n)
  }

  ghost predicate SameName(a: string, b: string) {
    exists name, m: nat, n: nat :: Named(a, name, m) && Named(b, name, n)
  }

  /** Some field assigns nothing, or two assign the same name. */
  ghost predicate Faulty(fields: seq<string>) {
    || (exists j :: 0 <= j < |fields| && Unnamed(fields[j]))
    || (exists i, j :: 0 <= i < j < |fields| && SameName(fields[i], fields[j]))
  }

  ghost predicate Holds(fields: seq<string>, values: map<string, nat>) {
    forall name, n: nat :: NamedAmong(fields, name, n) <==> name in values && values[name] == n
  }

  /** The map holds exactly what the fields assign, unless one of them is at fault. */
  lemma {:induction false} FieldsAssign(fields: seq<string>)
    ensures WithFields(fields).None? <==> Faulty(fields)
    ensures WithFields(fields).Some? ==> Holds(fields, WithFields(fields).value)
  {
    if fields == [] {
      assert Holds([], map[]);
    } else {
      hide Named, WithField, Faulty, Holds;
      var init, last := fields[..|fields| - 1], fields[|fields| - 1];
      assert fields == init + [last];
      FieldsAssign(init);
      FaultyMore(init, last);
      if WithFields(init).Some? {
        var values := WithFields(init).value;
        LastFaulty(init, last, values);
        if WithField(values, last).Some? { LastHolds(init, last, values); }
      }
    }
  }

  lemma FaultyMore(init: seq<string>, last: string)
    ensures Faulty(init + [last]) <==> Faulty(init) || Unnamed(last) || exists i :: 0 <= i < |init| && SameName(init[i], last)
  {
    hide Unnamed, SameName;
    var fields := init + [last];
    assert fields[|init|] == last;
    assert forall i | 0 <= i < |init| :: fields[i] == init[i];
    if j :| 0 <= j < |init| && Unnamed(init[j]) {
      assert Unnamed(fields[j]);
    }
    if i, j :| 0 <= i < j < |init| && SameName(init[i], init[j]) {
      assert SameName(fields[i], fields[j]);
    }
    if i :| 0 <= i < |init| && SameName(init[i], last) {
      assert SameName(fields[i], fields[|init|]);
    }
  }

  /** The last field fails exactly when it assigns nothing or a name from before. */
  lemma LastFaulty(init: seq<string>, last: string, values: map<string, nat>)
    requires Holds(init, values)
    ensures WithField(values, last).None? <==> Unnamed(last) || exists i :: 0 <= i < |init| && SameName(init[i], last)
  {
    hide Named, WithField;
    FieldIsNamed(values, last);
    if i :| 0 <= i < |init| && SameName(init[i], last) {
      var name, m: nat, n: nat :| Named(init[i], name, m) && Named(last, name, n);
      assert NamedAmong(init, name, m);
      forall a, x: nat | Named(last, a, x) ensures a == name { OneName(last, a, x, name, n); }
    }
    if WithField(values, last).None? && !Unnamed(last) {
      var name, n: nat :| Named(last, name, n);
      assert NamedAmong(init, name, values[name]);
      var i :| 0 <= i < |init| && Named(init[i], name, values[name]);
      assert SameName(init[i], last);
    }
  }

  lemma LastHolds(init: seq<string>, last: string, values: map<string, nat>)
    requires Holds(init, values) && WithField(values, last).Some?
    ensures Holds(init + [last], WithField(values, last).value)
  {
    hide Named, WithField, NamedAmong;
    FieldIsNamed(values, last);
    var name, n: nat :| Named(last, name, n) && name !in values && WithField(values, last).value == values[name := n];
    forall a, m: nat ensures NamedAmong(init + [last], a, m) <==> a in values[name := n] && values[name := n][a] == m {
      AmongMore(init, last, a, m);
      assert NamedAmong(init, a, m) <==> a in values && values[a] == m;
      if Named(last, a, m) { OneName(last, a, m, name, n); }
    }
  }

  lemma AmongMore(init: seq<string>, last: string, name: string, n: nat)
    ensures NamedAmong(init + [last], name, n) <==> NamedAmong(init, name, n) || Named(last, name, n)
  {
    hide Named;
    var fields := init + [last];
    assert fields[|init|] == last;
    if j :| 0 <= j < |init| && Named(init[j], name, n) {
      assert Named(fields[j], name, n);
    }
    if j :| 0 <= j < |fields| && Named(fields[j], name, n) && j < |init| {
      assert Named(init[j], name, n);
    }
  }

  /** Exactly the lists of three fields that assign m, t and p are read, in any order,
      and the values are theirs. */
  lemma FieldsExactly(encoded: string, m: nat, t: nat, p: nat)
    ensures ParseFields(encoded) == Some(Parameters(m, t, p, 0, 0)) <==> Lists(SplitOn(encoded, ','), m, t, p)
  {
    hide WithFields, SplitOn, Assigns, Faulty;
    var fields := SplitOn(encoded, ',');
    if |fields| == 3 {
      FieldsAssign(fields);
      if Lists(fields, m, t, p) { ListsRead(fields, m, t, p); }
      if ParseFields(encoded) == Some(Parameters(m, t, p, 0, 0)) { ReadLists(fields, WithFields(fields).value, m, t, p); }
    }
  }

  lemma MtpNames()
    ensures '=' !in "m" && '=' !in "t" && '=' !in "p" && "m" != "t" && "t" != "p" && "m" != "p"
  {
    assert "m"[0] == 'm' && "t"[0] == 't' && "p"[0] == 'p';
  }

  lemma ListsRead(fields: seq<string>, m: nat, t: nat, p: nat)
    requires Lists(fields, m, t, p)
    ensures !Faulty(fields)
    ensures NamedAmong(fields, "m", m) && NamedAmong(fields, "t", t) && NamedAmong(fields, "p", p)
  {
    hide Assigns;
    MtpNames();
    var i, j, k :|
      && 0 <= i < 3 && 0 <= j < 3 && 0 <= k < 3 && i != j && j != k && i != k
      && Assigns(fields[i], "m", m) && Assigns(fields[j], "t", t) && Assigns(fields[k], "p", p);
    assert Named(fields[i], "m", m) && Named(fields[j], "t", t) && Named(fields[k], "p", p);
    hide Named, Faulty, SameName, Unnamed;
    Apart(fields[i], "m", m, fields[j], "t", t);
    Apart(fields[j], "t", t, fields[k], "p", p);
    Apart(fields[i], "m", m, fields[k], "p", p);
    NoFault(fields, i, j, k);
  }

  lemma NoFault(fields: seq<string>, i: nat, j: nat, k: nat)
    requires |fields| == 3 && i < 3 && j < 3 && k < 3 && i != j && j != k && i != k
    requires !Unnamed(fields[i]) && !Unnamed(fields[j]) && !Unnamed(fields[k])
    requires !SameName(fields[i], fields[j]) && !SameName(fields[j], fields[k]) && !SameName(fields[i], fields[k])
    requires !SameName(fields[j], fields[i]) && !SameName(fields[k], fields[j]) && !SameName(fields[k], fields[i])
    ensures !Faulty(fields)
  {
    hide Unnamed, SameName;
  }

  lemma Apart(a: string, name: string, m: nat, b: string, other: string, n: nat)
    requires Named(a, name, m) && Named(b, other, n) && name != other
    ensures !SameName(a, b) && !SameName(b, a) && !Unnamed(a) && !Unnamed(b)
  {
    hide Named;
    forall x, u: nat, v: nat ensures !(Named(a, x, u) && Named(b, x, v)) {
      if Named(a, x, u) && Named(b, x, v) {
        OneName(a, x, u, name, m);
        OneName(b, x, v, other, n);
      }
    }
  }

  lemma ReadLists(fields: seq<string>, values: map<string, nat>, m: nat, t: nat, p: nat)
    requires |fields| == 3 && Holds(fields, values) && p <= 255
    requires "m" in values && values["m"] == m && "t" in values && values["t"] == t && "p" in values && values["p"] == p
    ensures Lists(fields, m, t, p)
  {
    hide Assigns;
    MtpNames();
    assert NamedAmong(fields, "m", m) && NamedAmong(fields, "t", t) && NamedAmong(fields, "p", p);
    var i :| 0 <= i < 3 && Named(fields[i], "m", m);
    var j :| 0 <= j < 3 && Named(fields[j], "t", t);
    var k :| 0 <= k < 3 && Named(fields[k], "p", p);
    if i == j { OneName(fields[i], "m", m, "t", t); }
    if j == k { OneName(fields[j], "t", t, "p", p); }
    if i == k { OneName(fields[i], "m", m, "p", p); }
  }

  /** The loop of parseParameterFields, which fills a local map. */
  method FillFields(fields: seq<string>) returns (r: Option<map<string, nat>>)
    ensures r.None? <==> Faulty(fields)
    ensures r.Some? ==> Holds(fields, r.value)
    ensures r == WithFields(fields)
  {
    hide Faulty, Holds;
    FieldsAssign(fields);
    var values: map<string, nat> := map[];
    for i := 0 to |fields|
      invariant WithFields(fields[..i]) == Some(values)
    {
      assert fields[..i + 1][..i] == fields[..i];
      FieldsFail(fields, i + 1);
      var field := fields[i];
      var cut := FirstIndex(field, '=');
      if cut == |field| || cut == 0 || cut + 1 == |field| { return None; }
      var name := field[..cut];
      if name in values { return None; }
      var value := ParseUint(field[cut + 1..]);
      if value.None? { return None; }
      values := values[name := value.value];
    }
    assert fields[..|fields|] == fields;
    r := Some(values);
  }

  /** parseParameterFields */
  method ParseParameterFields(encoded: string) returns (r: Option<Parameters>)
    ensures forall m, t, p :: r == Some(Parameters(m, t, p, 0, 0)) <==> Lists(SplitOn(encoded, ','), m, t, p)
    ensures r == ParseFields(encoded)
  {
    hide Lists, SplitOn, WithFields, Faulty, Holds;
    forall m, t, p ensures ParseFields(encoded) == Some(Parameters(m, t, p, 0, 0)) <==> Lists(SplitOn(encoded, ','), m, t, p) {
      FieldsExactly(encoded, m, t, p);
    }
    var fields := SplitOn(encoded, ',');
    if |fields| != 3 { return None; }
    var filled := FillFields(fields);
    if filled.None? { return None; }
    var values := filled.value;
    if "m" !in values || "t" !in values || "p" !in values || values["p"] > 255 { return None; }
    r := Some(Parameters(values["m"], values["t"], values["p"], 0, 0));
  }

  /** A field that fails makes the whole fail. */
  lemma {:induction false} FieldsFail(fields: seq<string>, n: nat)
    requires n <= |fields|
    ensures WithFields(fields[..n]).None? ==> WithFields(fields).None?
    decreases |fields| - n
  {
    if n == |fields| {
      assert fields[..n] == fields;
    } else {
      FieldsFail(fields, n + 1);
      assert fields[..n + 1][..n] == fields[..n];
    }
  }

  function Parse(s: string): Option<(Parameters, seq<byte>, seq<byte>)> {
    if |s| == 0 || |s| > MAXIMUM_ENCODED then None
    else
      var parts := SplitOn(s, '$');
      if |parts| != 6 || parts[0] != "" || parts[1] != "argon2id" then None
      else if !("v=" <= parts[2]) || ParseUint(parts[2][2..]) != Some(ARGON2_VERSION) then None
      else
        var fields, salt, key := ParseFields(parts[3]), Decode(parts[4], Standard, true), Decode(parts[5], Standard, true);
        if fields.None? || salt.None? || key.None? then None
        else
          var p := fields.value.(saltLength := |salt.value|, keyLength := |key.value|);
          if Admitted(p) then Some((p, salt.value, key.value)) else None
  }

  /****** the round trip ******/

  lemma FieldRead(values: map<string, nat>, name: string, n: nat)
    requires name != "" && '=' !in name && name !in values && n < UINT32
    ensures WithField(values, name + "=" + Decimal(n)) == Some(values[name := n])
  {
    var field := name + "=" + Decimal(n);
    FirstIndexAt(name, Decimal(n), '=');
    DecimalDigits(n);
    ParseDecimal(n);
    assert field[..|name|] == name && field[|name| + 1..] == Decimal(n);
  }

  lemma DecimalPlain(n: nat, c: char)
    requires !IsDigit(c)
    ensures c !in Decimal(n)
  {
    DecimalDigits(n);
    assert forall i | 0 <= i < |Decimal(n)| :: IsDigit(Decimal(n)[i]) && Decimal(n)[i] != c;
  }

  lemma FieldsMore(fields: seq<string>, field: string)
    requires WithFields(fields).Some?
    ensures WithFields(fields + [field]) == WithField(WithFields(fields).value, field)
  {
    var all := fields + [field];
    assert all[..|all| - 1] == fields && all[|all| - 1] == field;
  }

  lemma FieldsRead(p: Parameters)
    requires p.memoryKiB < UINT32 && p.iterations < UINT32 && p.parallelism <= 255
    ensures ParseFields(PrintFields(p)) == Some(p.(saltLength := 0, keyLength := 0))
  {
    hide Decimal, SplitOn, WithField;
    var m, t, q := "m=" + Decimal(p.memoryKiB), "t=" + Decimal(p.iterations), "p=" + Decimal(p.parallelism);
    DecimalPlain(p.memoryKiB, ',');
    DecimalPlain(p.iterations, ',');
    DecimalPlain(p.parallelism, ',');
    var fields := [m, t, q];
    JoinThree(m, t, q, ',');
    assert PrintFields(p) == m + [','] + t + [','] + q;
    SplitOnJoin(fields, ',');
    var v1 := map["m" := p.memoryKiB];
    var v2 := v1["t" := p.iterations];
    assert "m"[0] == 'm' && "t"[0] == 't' && "p"[0] == 'p';
    assert "m" != "t" && "m" != "p" && "t" != "p";
    assert "m" + "=" == "m=" && "t" + "=" == "t=" && "p" + "=" == "p=";
    FieldRead(map[], "m", p.memoryKiB);
    FieldRead(v1, "t", p.iterations);
    FieldRead(v2, "p", p.parallelism);
    FieldsMore([], m);
    assert [] + [m] == [m];
    FieldsMore([m], t);
    FieldsMore([m] + [t], q);
    assert [m] + [t] + [q] == fields;
  }

  lemma JoinMore(p: seq<string>, x: string, sep: char)
    requires p != []
    ensures JoinOn(p + [x], sep) == JoinOn(p, sep) + [sep] + x
  {
    assert (p + [x])[..|p|] == p;
  }

  lemma JoinThree(a: string, b: string, c: string, sep: char)
    ensures JoinOn([a, b, c], sep) == a + [sep] + b + [sep] + c
  {
    JoinMore([a], b, sep);
    JoinMore([a] + [b], c, sep);
    assert [a] + [b] + [c] == [a, b, c];
  }

  lemma JoinSix(a: string, b: string, c: string, d: string, e: string, f: string, sep: char)
    ensures JoinOn([a, b, c, d, e, f], sep) == a + [sep] + b + [sep] + c + [sep] + d + [sep] + e + [sep] + f
  {
    hide JoinOn;
    JoinThree(a, b, c, sep);
    JoinMore([a, b, c], d, sep);
    JoinMore([a, b, c] + [d], e, sep);
    JoinMore([a, b, c] + [d] + [e], f, sep);
    assert [a, b, c] + [d] + [e] + [f] == [a, b, c, d, e, f];
  }

  lemma FieldsPlain(p: Parameters)
    ensures '$' !in PrintFields(p)
  {
    DecimalPlain(p.memoryKiB, '$');
    DecimalPlain(p.iterations, '$');
    DecimalPlain(p.parallelism, '$');
  }

  lemma PartsOfPrint(p: Parameters, salt: seq<byte>, key: seq<byte>)
    ensures SplitOn(Print(p, salt, key), '$') ==
      ["", "argon2id", "v=" + Decimal(ARGON2_VERSION), PrintFields(p), Encode(salt, Standard), Encode(key, Standard)]
  {
    hide Decimal, SplitOn, PrintFields, Encode, Value, JoinOn;
    var v, f, s, k := "v=" + Decimal(ARGON2_VERSION), PrintFields(p), Encode(salt, Standard), Encode(key, Standard);
    var parts := ["", "argon2id", v, f, s, k];
    JoinSix("", "argon2id", v, f, s, k, '$');
    assert Print(p, salt, key) == JoinOn(parts, '$');
    DecimalPlain(ARGON2_VERSION, '$');
    FieldsPlain(p);
    SymbolsPlain(salt);
    SymbolsPlain(key);
    SplitOnJoin(parts, '$');
  }

  lemma SymbolsPlain(b: seq<byte>)
    ensures '$' !in Encode(b, Standard)
  {
    EncodeSymbols(b, Standard);
    assert !IsSymbol('$', Standard);
  }

  /** The length limit never rejects a printed hash. */
  lemma PrintFits(p: Parameters, salt: seq<byte>, key: seq<byte>)
    requires Admitted(p) && |salt| == p.saltLength && |key| == p.keyLength
    ensures 0 < |Print(p, salt, key)| <= MAXIMUM_ENCODED
  {
    hide Decimal, Encode;
    assert Pow10(6) == 1_000_000 && Pow10(2) == 100;
    DecimalLength(p.memoryKiB, 6, 1_000_000);
    DecimalLength(p.iterations, 2, 100);
    DecimalLength(p.parallelism, 2, 100);
    DecimalLength(ARGON2_VERSION, 2, 100);
    EncodeSymbols(salt, Standard);
    EncodeSymbols(key, Standard);
  }

  /** Parsing the printed form gives back the parameters, the salt and the key. */
  lemma ParsePrint(p: Parameters, salt: seq<byte>, key: seq<byte>)
    requires Admitted(p) && |salt| == p.saltLength && |key| == p.keyLength
    ensures Parse(Print(p, salt, key)) == Some((p, salt, key))
  {
    hide Decimal, SplitOn, PrintFields, Encode, Decode, Print, ParseFields;
    PrintFits(p, salt, key);
    PartsOfPrint(p, salt, key);
    FieldsRead(p);
    DecodeEncode(salt, Standard, true);
    DecodeEncode(key, Standard, true);
    ParseDecimal(ARGON2_VERSION);
    var v := "v=" + Decimal(ARGON2_VERSION);
    assert v[2..] == Decimal(ARGON2_VERSION);
  }
}
