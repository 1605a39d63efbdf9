/** Page cursors as opaque strings: JSON in the URL alphabet of base64. */
module Cursors {
  import opened World
  import opened LogicalPath
  import opened IndexRows
  import opened Paging
  import opened Base64
  import opened Json

  const MAXIMUM_CURSOR := 12288

  datatype IndexCursor = IndexCursor(mode: string, scope: string, primary: string, secondary: string, tertiary: string)

  function NameOf(mode: Mode): string {
    if mode.ListMode? then "list" else "search"
  }

  /** The cursor that List or Search emits after the row `e`. */
  function Emitted(mode: Mode, scope: string, e: Entry): IndexCursor {
    var c := CursorAt(mode, e);
    IndexCursor(NameOf(mode), scope, c.primary, c.secondary, c.tertiary)
  }

  /** The JSON members; an empty tertiary is omitted. */
  function MembersOf(c: IndexCursor): Members {
    [("m", c.mode), ("q", c.scope), ("p", c.primary), ("s", c.secondary)] + (if c.tertiary == "" then [] else [("t", c.tertiary)])
  }

  /** A member in quotes, and what follows it. */
  function Field(key: string, value: string, rest: string): string {
    "\"" + key + "\":\"" + Escaped(value) + "\"" + rest
  }

  /** What json.Marshal makes of a cursor. */
  lemma CursorText(c: IndexCursor)
    ensures Write(MembersOf(c)) ==
      "{" + Field("m", c.mode, "," + Field("q", c.scope, "," + Field("p", c.primary, "," + Field("s", c.secondary,
        if c.tertiary == "" then "}" else "," + Field("t", c.tertiary, "}")))))
  {
    hide WriteMembers, Field;
    var last: Members := if c.tertiary == "" then [] else [("t", c.tertiary)] + [];
    var three := [("s", c.secondary)] + last;
    var two := [("p", c.primary)] + three;
    var one := [("q", c.scope)] + two;
    assert MembersOf(c) == [("m", c.mode)] + one;
    WriteOne("t", c.tertiary, []);
    WriteOne("s", c.secondary, last);
    WriteOne("p", c.primary, three);
    WriteOne("q", c.scope, two);
    WriteOne("m", c.mode, one);
  }

  lemma WriteOne(key: string, value: string, ms: Members)
    requires forall k | k in key :: !IsSpecial(k)
    ensures WriteMembers([(key, value)] + ms) == Field(key, value, if ms == [] then "}" else "," + WriteMembers(ms))
  {
    hide Escaped, IsSpecial;
    EscapesExactly(key);
    var rest := if ms == [] then "}" else "," + WriteMembers(ms);
    assert ([(key, value)] + ms)[1..] == ms;
    assert Member(key, value) + rest == Field(key, value, rest);
  }

  function WithMember(c: IndexCursor, key: string, value: string): Option<IndexCursor> {
    if key == "m" then Some(c.(mode := value))
    else if key == "q" then Some(c.(scope := value))
    else if key == "p" then Some(c.(primary := value))
    else if key == "s" then Some(c.(secondary := value))
    else if key == "t" then Some(c.(tertiary := value))
    else None
  }

  /** Unknown members are refused; the last of equal members counts. */
  function FromMembers(ms: Members): Option<IndexCursor> {
    if ms == [] then Some(IndexCursor("", "", "", "", ""))
    else
      var c := FromMembers(ms[..|ms| - 1]);
      if c.None? then None else WithMember(c.value, ms[|ms| - 1].0, ms[|ms| - 1].1)
  }

  function EncodeCursor(c: IndexCursor): string {
    Encode(ToUtf8(Write(MembersOf(c))), Url)
  }

  predicate Accepts(c: IndexCursor, mode: Mode, scope: string, fold: char -> char) {
    && c.mode == NameOf(mode) && c.scope == scope && c.primary != "" && c.secondary != ""
    && match mode
       case ListMode => ParsePath(c.tertiary) && BaseName(c.tertiary) == c.secondary && Fold(fold, c.secondary) == c.primary
       case SearchMode => ParsePath(c.secondary) && Fold(fold, c.secondary) == c.primary && c.tertiary == ""
  }

  function DecodeCursor(value: string, mode: Mode, scope: string, fold: char -> char): Option<IndexCursor> {
    if value == "" then Some(IndexCursor(NameOf(mode), scope, "", "", ""))
    else if ByteLength(value) > MAXIMUM_CURSOR then None
    else
      var decoded := Decode(value, Url, false);
      if decoded.None? || |decoded.value| > MAXIMUM_CURSOR then None
      else
        var text := FromUtf8(decoded.value);
        var ms := if text.None? then None else Read(text.value);
        var c := if ms.None? then None else FromMembers(ms.value);
        if c.Some? && Accepts(c.value, mode, scope, fold) then c else None
  }

  /** The last member with this key has this value, or there is none and it is empty. */
  ghost predicate LastIs(ms: Members, key: string, value: string) {
    || (value == "" && forall i | 0 <= i < |ms| :: ms[i].0 != key)
    || exists i :: 0 <= i < |ms| && ms[i] == (key, value) && forall j | i < j < |ms| :: ms[j].0 != key
  }

  const KEYS := {"m", "q", "p", "s", "t"}

  /** Exactly the known keys are read, and the last of equal ones counts. */
  lemma {:induction false} MembersExactly(ms: Members)
    ensures FromMembers(ms).Some? <==> forall i | 0 <= i < |ms| :: ms[i].0 in KEYS
    ensures FromMembers(ms).Some? ==>
      var c := FromMembers(ms).value;
      && LastIs(ms, "m", c.mode) && LastIs(ms, "q", c.scope) && LastIs(ms, "p", c.primary) && LastIs(ms, "s", c.secondary)
      && LastIs(ms, "t", c.tertiary)
  {
    if ms != [] {
      hide LastIs;
      var init := ms[..|ms| - 1];
      var (key, value) := ms[|ms| - 1];
      MembersExactly(init);
      KeysDiffer();
      if FromMembers(ms).Some? {
        forall k, v | k in KEYS && (if k == key then v == value else LastIs(init, k, v)) ensures LastIs(ms, k, v) {
          LastMore(init, key, value, k, v);
          assert init + [(key, value)] == ms;
        }
      }
    }
  }

  lemma KeysDiffer()
    ensures "m" != "q" && "m" != "p" && "m" != "s" && "m" != "t" && "q" != "p" && "q" != "s" && "q" != "t"
    ensures "p" != "s" && "p" != "t" && "s" != "t"
  {
    assert "m"[0] == 'm' && "q"[0] == 'q' && "p"[0] == 'p' && "s"[0] == 's' && "t"[0] == 't';
  }

  lemma LastMore(init: Members, key: string, value: string, k: string, v: string)
    requires if k == key then v == value else LastIs(init, k, v)
    ensures LastIs(init + [(key, value)], k, v)
  {
    var ms := init + [(key, value)];
    if k == key {
      assert ms[|init|] == (k, v);
    } else if i :| 0 <= i < |init| && init[i] == (k, v) && forall j | i < j < |init| :: init[j].0 != k {
      assert ms[i] == (k, v);
    }
  }

  lemma MembersBack(c: IndexCursor)
    ensures FromMembers(MembersOf(c)) == Some(c)
  {
    var four: Members := [("m", c.mode), ("q", c.scope), ("p", c.primary), ("s", c.secondary)];
    assert "m"[0] == 'm' && "q"[0] == 'q' && "p"[0] == 'p' && "s"[0] == 's' && "t"[0] == 't';
    OneMore([], "m", c.mode);
    OneMore([("m", c.mode)], "q", c.scope);
    OneMore([("m", c.mode)] + [("q", c.scope)], "p", c.primary);
    OneMore([("m", c.mode)] + [("q", c.scope)] + [("p", c.primary)], "s", c.secondary);
    OneMore(four, "t", c.tertiary);
    assert [] + [("m", c.mode)] == [("m", c.mode)];
    assert [("m", c.mode)] + [("q", c.scope)] + [("p", c.primary)] + [("s", c.secondary)] == four;
    assert four + [] == four;
  }

  lemma OneMore(ms: Members, key: string, value: string)
    ensures FromMembers(ms + [(key, value)]) ==
      if FromMembers(ms).None? then None else WithMember(FromMembers(ms).value, key, value)
  {
    var all := ms + [(key, value)];
    assert all[..|all| - 1] == ms && all[|all| - 1] == (key, value);
  }

  lemma EncodedPlain(c: IndexCursor)
    ensures ByteLength(EncodeCursor(c)) == |EncodeCursor(c)| && EncodeCursor(c) != ""
    ensures |ToUtf8(Write(MembersOf(c)))| <= |EncodeCursor(c)|
  {
    hide WriteMembers, MembersOf, Encode, Value;
    var bytes := ToUtf8(Write(MembersOf(c)));
    assert Utf8Bytes('{') == [0x7B];
    assert bytes != [];
    EncodeSymbols(bytes, Url);
    forall i | 0 <= i < |EncodeCursor(c)| ensures EncodeCursor(c)[i] as int < 0x80 {
      assert EncodeCursor(c)[i] in EncodeCursor(c);
      SymbolPlain(EncodeCursor(c)[i]);
    }
    PlainLength(EncodeCursor(c));
  }

  lemma SymbolPlain(c: char)
    requires IsSymbol(c, Url)
    ensures c as int < 0x80
  {
  }

  /** Decoding an encoded cursor is exactly the two limits and the acceptance test. */
  lemma DecodeEncoded(c: IndexCursor, mode: Mode, scope: string, fold: char -> char)
    ensures DecodeCursor(EncodeCursor(c), mode, scope, fold) ==
      if |EncodeCursor(c)| <= MAXIMUM_CURSOR && Accepts(c, mode, scope, fold) then Some(c) else None
  {
    hide Write, MembersOf, FromMembers, Encode, Decode, ToUtf8, FromUtf8, Read, Accepts, ByteLength;
    EncodedPlain(c);
    var ms := MembersOf(c);
    DecodeEncode(ToUtf8(Write(ms)), Url, false);
    FromToUtf8(Write(ms));
    assert ms != [] by { SomeMembers(c); }
    ReadWrite(ms, "");
    assert Write(ms) + "" == Write(ms);
    MembersBack(c);
  }

  lemma SomeMembers(c: IndexCursor)
    ensures MembersOf(c) != []
  {
  }

  /** A cursor that the service emits comes back unchanged exactly when it fits the
      limit and its row still has a path that parses; otherwise it is refused. */
  lemma EmittedComesBack(mode: Mode, scope: string, e: Entry, fold: char -> char)
    requires EntryOk(e, fold)
    ensures var c := Emitted(mode, scope, e);
      DecodeCursor(EncodeCursor(c), mode, scope, fold) ==
        if |EncodeCursor(c)| <= MAXIMUM_CURSOR && ParsePath(e.path) then Some(c) else None
  {
    hide EncodeCursor, DecodeCursor, Split, LastSlash, Clean, ParsePath;
    var c := Emitted(mode, scope, e);
    ColumnsNamed(e, fold);
    NameNamed(e, fold);
    DecodeEncoded(c, mode, scope, fold);
  }

  lemma NameNamed(e: Entry, fold: char -> char)
    requires EntryOk(e, fold)
    ensures e.name != "" && e.path != ""
  {
    hide Split, LastSlash, Clean, ParentPath, BaseName;
    ColumnsNamed(e, fold);
  }

  /****** some emitted cursors do not fit ******/

  /** A name of `n` opening angle brackets. */
  function Opens(n: nat): string {
    if n == 0 then "" else "<" + Opens(n - 1)
  }

  function Wide(k: nat): string
    requires k > 0
  {
    Repeated(Opens(200), k)
  }

  lemma EscapedFront(s: string)
    requires s != ""
    ensures Escaped(s) == EscapedChar(s[0]) + Escaped(s[1..])
  {
  }

  lemma {:induction false} EscapedConcat(a: string, b: string)
    ensures Escaped(a + b) == Escaped(a) + Escaped(b)
  {
    hide EscapedChar;
    if a == "" {
      assert a + b == b;
    } else {
      EscapedConcat(a[1..], b);
      assert (a + b)[0] == a[0] && (a + b)[1..] == a[1..] + b;
      hide Escaped;
      EscapedFront(a + b);
      EscapedFront(a);
    }
  }

  lemma {:induction false} EscapedOpens(n: nat)
    ensures |Escaped(Opens(n))| == 6 * n
  {
    if n > 0 {
      EscapedOpens(n - 1);
      assert Opens(n)[1..] == Opens(n - 1);
    }
  }

  lemma {:induction false} WideEscapes(k: nat)
    requires k > 0
    ensures |Escaped(Wide(k))| >= 1200 * k
  {
    hide Escaped, Opens;
    EscapedOpens(200);
    if k > 1 {
      WideEscapes(k - 1);
      EscapedConcat(Wide(k - 1), "/" + Opens(200));
      EscapedConcat("/", Opens(200));
      assert Wide(k) == Wide(k - 1) + ("/" + Opens(200));
    }
  }

  lemma {:induction false} Utf8Longer(s: string)
    ensures |ToUtf8(s)| >= |s|
  {
    if s != "" { Utf8Longer(s[1..]); }
  }

  lemma {:induction false} MembersLength(ms: Members, i: nat, j: nat)
    requires i < j < |ms|
    ensures |WriteMembers(ms)| >= |Escaped(ms[i].1)| + |Escaped(ms[j].1)|
  {
    hide Escaped;
    if i == 0 {
      MemberLength(ms[1..], j - 1);
    } else {
      MembersLength(ms[1..], i - 1, j - 1);
    }
  }

  lemma {:induction false} MemberLength(ms: Members, i: nat)
    requires i < |ms|
    ensures |WriteMembers(ms)| >= |Escaped(ms[i].1)|
  {
    hide Escaped;
    if i > 0 { MemberLength(ms[1..], i - 1); }
  }

  lemma {:induction false} OpensPlain(n: nat)
    ensures |Opens(n)| == n && forall i | 0 <= i < n :: Opens(n)[i] == '<'
  {
    if n > 0 { OpensPlain(n - 1); }
  }

  lemma WideNameOk()
    ensures ComponentOk(Opens(200)) && '/' !in Opens(200) && '\\' !in Opens(200) && ByteLength(Opens(200)) == 200
  {
    OpensPlain(200);
    PlainLength(Opens(200));
    assert Opens(200)[0] == '<';
  }

  function WideEntry(fold: char -> char): Entry {
    var name := BaseName(Wide(5));
    Entry(1, Wide(5), ParentPath(Wide(5)), name, Fold(fold, name), Fold(fold, Wide(5)), DirMeta, None)
  }

  /** Listing a directory whose path is four names of two hundred '<' can emit a cursor
      that the next request refuses: each '<' takes six characters of JSON. */
  lemma WideCursorRefused(fold: char -> char)
    ensures ParsePath(Wide(5))
    ensures var e := WideEntry(fold);
      EntryOk(e, fold) && DecodeCursor(EncodeCursor(Emitted(ListMode, Wide(4), e)), ListMode, Wide(4), fold).None?
  {
    hide Split, LastSlash, EncodeCursor, DecodeCursor, ParsePath, Clean, ParentPath, BaseName, Fold, Wide;
    WideParsed();
    ParsedIsClean(Wide(5));
    var e := WideEntry(fold);
    var c := Emitted(ListMode, Wide(4), e);
    WideEncodes(c);
    DecodeEncoded(c, ListMode, Wide(4), fold);
  }

  lemma WideParsed()
    ensures ParsePath(Wide(5))
  {
    hide Split, ComponentOk, Opens, Wide, ParsePath, ByteLength;
    WideNameOk();
    WideComponents(5);
    ParsePathIsComponents(Wide(5));
  }

  lemma WideComponents(k: nat)
    requires k > 0
    ensures Split(Wide(k)) == Copies(Opens(200), k) && ByteLength(Wide(k)) == 201 * k - 1
  {
    hide Split, ByteLength;
    WideNameOk();
    RepeatedComponents(Opens(200), k);
  }

  lemma WideEncodes(c: IndexCursor)
    requires c.scope == Wide(4) && c.tertiary == Wide(5)
    ensures |EncodeCursor(c)| > MAXIMUM_CURSOR
  {
    hide Encode, Value, WriteMembers, ToUtf8, Escaped, Wide;
    var ms := MembersOf(c);
    WideEscapes(4);
    WideEscapes(5);
    assert Wide(5) != "" by { WideComponents(5); }
    assert ms[1].1 == c.scope && ms[4].1 == c.tertiary;
    MembersLength(ms, 1, 4);
    Utf8Longer(Write(ms));
    EncodeSymbols(ToUtf8(Write(ms)), Url);
  }
}
