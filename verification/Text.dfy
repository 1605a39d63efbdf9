/** Splitting strings at a separator character, joining them, and cutting them once. */
module Text {

  /** strings.Split(s, sep) for a separator of one character. */
  function SplitOn(s: string, sep: char): (r: seq<string>)
    ensures r != []
  {
    if s == "" then [""] else Extended(SplitOn(s[..|s| - 1], sep), s[|s| - 1], sep)
  }

  function Extended(p: seq<string>, c: char, sep: char): (r: seq<string>)
    requires p != []
    ensures r != []
  {
    if c == sep then p + [""] else p[..|p| - 1] + [p[|p| - 1] + [c]]
  }

  function JoinOn(p: seq<string>, sep: char): string {
    if p == [] then ""
    else if |p| == 1 then p[0]
    else JoinOn(p[..|p| - 1], sep) + [sep] + p[|p| - 1]
  }

  lemma ExtendedConcat(p: seq<string>, q: seq<string>, c: char, sep: char)
    requires q != []
    ensures Extended(p + q, c, sep) == p + Extended(q, c, sep)
  {
    assert (p + q)[..|p + q| - 1] == p + q[..|q| - 1];
  }

  lemma SplitOnLast(s: string, c: char, sep: char)
    ensures SplitOn(s + [c], sep) == Extended(SplitOn(s, sep), c, sep)
  {
    assert (s + [c])[..|s|] == s;
  }

  lemma {:induction false} SplitOnConcat(a: string, b: string, sep: char)
    ensures SplitOn(a + [sep] + b, sep) == SplitOn(a, sep) + SplitOn(b, sep)
  {
    if b == "" {
      SplitOnLast(a, sep, sep);
      assert a + [sep] + b == a + [sep];
    } else {
      hide SplitOn, Extended;
      var b', c := b[..|b| - 1], b[|b| - 1];
      assert b == b' + [c] && a + [sep] + b == (a + [sep] + b') + [c];
      SplitOnConcat(a, b', sep);
      SplitOnLast(a + [sep] + b', c, sep);
      SplitOnLast(b', c, sep);
      ExtendedConcat(SplitOn(a, sep), SplitOn(b', sep), c, sep);
    }
  }

  lemma {:induction false} SplitOnPlain(s: string, sep: char)
    requires sep !in s
    ensures SplitOn(s, sep) == [s]
  {
    if s != "" {
      SplitOnPlain(s[..|s| - 1], sep);
      assert s == s[..|s| - 1] + [s[|s| - 1]];
    }
  }

  /** Splitting gives back what was joined. */
  lemma {:induction false} SplitOnJoin(p: seq<string>, sep: char)
    requires p != [] && forall i | 0 <= i < |p| :: sep !in p[i]
    ensures SplitOn(JoinOn(p, sep), sep) == p
  {
    SplitOnPlain(p[|p| - 1], sep);
    if |p| > 1 {
      SplitOnJoin(p[..|p| - 1], sep);
      SplitOnConcat(JoinOn(p[..|p| - 1], sep), p[|p| - 1], sep);
    }
  }

  /** Joining gives back what was split. */
  lemma {:induction false} JoinOnSplit(s: string, sep: char)
    ensures JoinOn(SplitOn(s, sep), sep) == s
  {
    if s != "" {
      var init, c := s[..|s| - 1], s[|s| - 1];
      JoinOnSplit(init, sep);
      JoinExtended(SplitOn(init, sep), c, sep);
    }
  }

  lemma JoinExtended(p: seq<string>, c: char, sep: char)
    requires p != []
    ensures JoinOn(Extended(p, c, sep), sep) == JoinOn(p, sep) + [c]
  {
    var last := p[|p| - 1];
    if c == sep {
      assert (p + [""])[..|p|] == p;
    } else if |p| > 1 {
      assert (p[..|p| - 1] + [last + [c]])[..|p| - 1] == p[..|p| - 1];
    }
  }

  lemma {:induction false} PartsPlain(s: string, sep: char)
    ensures forall i | 0 <= i < |SplitOn(s, sep)| :: sep !in SplitOn(s, sep)[i]
  {
    if s != "" {
      PartsPlain(s[..|s| - 1], sep);
    }
  }

  /** The index of the first `sep`, or the length. */
  function FirstIndex(s: string, sep: char): (i: nat)
    ensures i <= |s| && sep !in s[..i] && (i < |s| ==> s[i] == sep)
  {
    if s == "" || s[0] == sep then 0
    else
      var i := 1 + FirstIndex(s[1..], sep);
      assert s[..i] == [s[0]] + s[1..][..i - 1];
      i
  }

  lemma {:induction false} FirstIndexAt(a: string, b: string, sep: char)
    requires sep !in a
    ensures FirstIndex(a + [sep] + b, sep) == |a|
  {
    var s := a + [sep] + b;
    if a != "" {
      assert s[0] == a[0] && a[0] in a && s[1..] == a[1..] + [sep] + b;
      FirstIndexAt(a[1..], b, sep);
    }
  }
}
