/** What a parsed path keeps out: walking its components from a root never leaves the
    root, and its characters and bytes are within the limits. */
module Traversal {
  import opened Paths
  import opened World
  import opened Text
  import opened LogicalPath
  import Json

  /** Where a walk of the components ends, seen from its root: an empty component and "."
      stay, ".." goes up, and going up from the root leaves it. */
  function Walk(p: Path): Option<Path> {
    if p == [] then Some([])
    else
      var at, c := Walk(p[..|p| - 1]), p[|p| - 1];
      if at.None? then None
      else if c == "" || c == "." then at
      else if c == ".." then (if at.value == [] then None else Some(at.value[..|at.value| - 1]))
      else Some(at.value + [c])
  }

  predicate Names(c: string) {
    c != "" && c != "." && c != ".."
  }

  lemma {:induction false} WalkEnds(p: Path)
    ensures Walk(p).Some? ==> |Walk(p).value| <= |p|
    ensures (forall i | 0 <= i < |p| :: Names(p[i])) <==> Walk(p) == Some(p)
  {
    if p != [] {
      var init := p[..|p| - 1];
      WalkEnds(init);
      assert p == init + [p[|p| - 1]];
      assert forall i | 0 <= i < |init| :: init[i] == p[i];
      if Walk(p) == Some(p) {
        assert Names(p[|p| - 1]);
        assert (Walk(init).value + [p[|p| - 1]])[..|init|] == Walk(init).value;
      }
    }
  }

  /** The walk of every prefix is that prefix, so it never leaves the root. */
  lemma WalkStays(p: Path, k: nat)
    requires Walk(p) == Some(p) && k <= |p|
    ensures Walk(p[..k]) == Some(p[..k])
  {
    WalkEnds(p);
    WalkEnds(p[..k]);
  }

  /** No character of the string is a control character or a backslash. */
  predicate PlainCharacters(s: string) {
    forall i | 0 <= i < |s| :: s[i] as int > 0x1F && !(0x7F <= s[i] as int <= 0x9F) && s[i] as int != 0x5C
  }

  lemma CharactersOfComponents(s: string)
    ensures PlainCharacters(s) <==>
      '\\' !in s && forall i, j | 0 <= i < |Split(s)| && 0 <= j < |Split(s)[i]| :: !IsControl(Split(s)[i][j])
  {
    hide Split;
    forall c | c != '/' ensures c in s <==> exists i | 0 <= i < |Split(s)| :: c in Split(s)[i] {
      CharsOfComponents(s, c);
    }
    if PlainCharacters(s) {
      forall i, j | 0 <= i < |Split(s)| && 0 <= j < |Split(s)[i]| ensures !IsControl(Split(s)[i][j]) {
        var c := Split(s)[i][j];
        assert c in Split(s)[i];
        if c != '/' { assert c in s; }
      }
    }
    if '\\' !in s && forall i, j | 0 <= i < |Split(s)| && 0 <= j < |Split(s)[i]| :: !IsControl(Split(s)[i][j]) {
      forall i | 0 <= i < |s| ensures s[i] as int > 0x1F && !(0x7F <= s[i] as int <= 0x9F) && s[i] as int != 0x5C {
        var c := s[i];
        assert c in s;
        if c != '/' {
          var k :| 0 <= k < |Split(s)| && c in Split(s)[k];
          var j :| 0 <= j < |Split(s)[k]| && Split(s)[k][j] == c;
          assert !IsControl(Split(s)[k][j]);
        }
      }
    }
  }

  /** ParsePath accepts exactly the strings within the three limits that walk from the root
      to their own components and have only plain characters. */
  lemma ParsePathStaysInside(s: string)
    ensures ParsePath(s) <==>
      && ByteLength(s) <= 4096 && |Split(s)| <= 128 && (forall i | 0 <= i < |Split(s)| :: ByteLength(Split(s)[i]) <= 255)
      && Walk(Split(s)) == Some(Split(s)) && PlainCharacters(s)
    ensures ParsePath(s) ==> s[0] != '/' && forall k | 0 <= k <= |Split(s)| :: Walk(Split(s)[..k]) == Some(Split(s)[..k])
  {
    hide Split, Walk, ByteLength, PlainCharacters, ParsePath, ComponentsOk, IsControl, Names;
    ParsePathIsComponents(s);
    CharactersOfComponents(s);
    SplitSome(s);
    ComponentsAre(Split(s));
    WalkEnds(Split(s));
    NoBackslash(s);
    if Walk(Split(s)) == Some(Split(s)) {
      forall k | 0 <= k <= |Split(s)| ensures Walk(Split(s)[..k]) == Some(Split(s)[..k]) {
        WalkStays(Split(s), k);
      }
    }
    NotAbsolute(s);
  }

  lemma ComponentsAre(p: Path)
    requires p != [] && forall i | 0 <= i < |p| :: '/' !in p[i]
    ensures ComponentsOk(p) <==>
      && (forall i | 0 <= i < |p| :: ByteLength(p[i]) <= 255) && (forall i | 0 <= i < |p| :: Names(p[i]))
      && (forall i, j | 0 <= i < |p| && 0 <= j < |p[i]| :: !IsControl(p[i][j])) && (forall i | 0 <= i < |p| :: '\\' !in p[i])
  {
    hide ByteLength, IsControl;
    if ComponentsOk(p) {
      forall i, j | 0 <= i < |p| && 0 <= j < |p[i]| ensures !IsControl(p[i][j]) {
        assert ComponentOk(p[i]);
      }
    }
  }

  lemma SplitSome(s: string)
    ensures Split(s) != [] && forall i | 0 <= i < |Split(s)| :: '/' !in Split(s)[i]
  {
    PartsPlain(s, '/');
  }

  lemma NoBackslash(s: string)
    ensures '\\' !in s <==> forall i | 0 <= i < |Split(s)| :: '\\' !in Split(s)[i]
  {
    hide Split;
    CharsOfComponents(s, '\\');
  }

  lemma NotAbsolute(s: string)
    ensures ParsePath(s) ==> s[0] != '/'
  {
    hide Split, ByteLength;
  }

  /** The byte limits count the bytes of UTF-8. */
  lemma {:induction false} ByteLengthIsUtf8(s: string)
    ensures ByteLength(s) == |Json.ToUtf8(s)|
  {
    hide Json.Utf8Bytes;
    if s != "" {
      ByteLengthIsUtf8(s[1..]);
      CharBytesAre(s[0]);
      assert s == [s[0]] + s[1..];
      BytesConcat([s[0]], s[1..]);
      assert [s[0]][..|[s[0]]| - 1] == "" && ByteLength("") == 0;
    }
  }

  lemma CharBytesAre(c: char)
    ensures CharBytes(c) == |Json.Utf8Bytes(c)|
  {
  }
}
