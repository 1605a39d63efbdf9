/** Logical paths as strings: splitting, parents, names, and the subtree test and
    prefix rewrite that the index does on them inside SQL. */
module LogicalPath {
  import opened Paths
  import opened Text

  const MAXIMUM_PATH_BYTES := 4096
  const MAXIMUM_COMPONENT_BYTES := 255
  const MAXIMUM_PATH_DEPTH := 128

  /****** components ******/

  function Split(s: string): (r: Path)
    ensures r != []
  {
    SplitOn(s, '/')
  }

  function Join(p: Path): string {
    JoinOn(p, '/')
  }

  /** The index of the last '/', or -1. */
  function LastSlash(s: string): (i: int)
    ensures -1 <= i < |s|
    ensures i >= 0 ==> s[i] == '/'
    ensures forall j | i < j < |s| :: s[j] != '/'
  {
    if s == "" then -1 else if s[|s| - 1] == '/' then |s| - 1 else LastSlash(s[..|s| - 1])
  }

  /** path.Dir on a clean relative path, with "." written as "". */
  function ParentPath(s: string): string {
    if LastSlash(s) < 0 then "" else s[..LastSlash(s)]
  }

  /** path.Base on a clean path. */
  function BaseName(s: string): string {
    s[LastSlash(s) + 1..]
  }

  lemma SplitConcat(a: string, b: string)
    ensures Split(a + "/" + b) == Split(a) + Split(b)
  {
    SplitOnConcat(a, b, '/');
  }

  lemma SplitPlain(s: string)
    requires '/' !in s
    ensures Split(s) == [s]
  {
    SplitOnPlain(s, '/');
  }

  lemma {:induction false} JoinSplit(s: string)
    ensures Join(Split(s)) == s
    decreases |s|
  {
    var i := LastSlash(s);
    if i < 0 {
      SplitPlain(s);
    } else {
      SplitPlain(s[i + 1..]);
      assert s == s[..i] + "/" + s[i + 1..];
      SplitConcat(s[..i], s[i + 1..]);
      JoinSplit(s[..i]);
      assert (Split(s[..i]) + [s[i + 1..]])[..|Split(s[..i])|] == Split(s[..i]);
    }
  }

  lemma SplitInjective(a: string, b: string)
    requires Split(a) == Split(b)
    ensures a == b
  {
    JoinSplit(a);
    JoinSplit(b);
  }

  /** The parent column and the name column are the two halves of the components. */
  lemma SplitParent(s: string)
    ensures Split(s) == (if LastSlash(s) < 0 then [] else Split(ParentPath(s))) + [BaseName(s)]
  {
    hide Split, LastSlash;
    var i := LastSlash(s);
    SplitPlain(s[i + 1..]);
    if i < 0 {
      assert s[i + 1..] == s;
    } else {
      assert s == s[..i] + "/" + s[i + 1..];
      SplitConcat(s[..i], s[i + 1..]);
    }
  }

  /****** subtrees ******/

  /** logical_path = root OR substr(logical_path, 1, length(root) + 1) = root || '/' */
  predicate Below(root: string, s: string) {
    s == root || (|s| > |root| && s[..|root| + 1] == root + "/")
  }

  lemma {:induction false} JoinConcat(p: Path, q: Path)
    requires p != [] && q != []
    ensures Join(p + q) == Join(p) + "/" + Join(q)
  {
    if |q| == 1 {
      assert (p + q)[..|p + q| - 1] == p;
    } else {
      JoinConcat(p, q[..|q| - 1]);
      assert (p + q)[..|p + q| - 1] == p + q[..|q| - 1];
    }
  }

  lemma BelowRest(root: string, s: string)
    requires Below(root, s) && s != root
    ensures s == root + "/" + s[|root| + 1..]
    ensures Split(s) == Split(root) + Split(s[|root| + 1..])
  {
    assert s == s[..|root| + 1] + s[|root| + 1..];
    SplitConcat(root, s[|root| + 1..]);
  }

  /** The string test selects exactly the component subtree. */
  lemma BelowIsSubtree(root: string, s: string)
    ensures Below(root, s) <==> Split(root) <= Split(s)
  {
    hide Split, Join;
    if Below(root, s) && s != root {
      BelowRest(root, s);
    }
    if Split(root) <= Split(s) {
      JoinSplit(root);
      JoinSplit(s);
      var rest := Split(s)[|Split(root)|..];
      assert Split(s) == Split(root) + rest;
      if rest == [] {
        assert Split(s) == Split(root);
      } else {
        JoinConcat(Split(root), rest);
        assert s == root + "/" + Join(rest);
        assert s[..|root| + 1] == root + "/";
      }
    }
  }

  /****** the rewrite of a moved subtree ******/

  function RewrittenPath(src: string, dst: string, s: string): string
    requires Below(src, s)
  {
    if s == src then dst else dst + s[|src|..]
  }

  /** The three-way CASE of the parent column. */
  function RewrittenParent(src: string, dst: string, s: string, parent: string): string
    requires s == src || |src| <= |parent|
  {
    if s == src then ParentPath(dst)
    else if parent == src then dst
    else dst + parent[|src|..]
  }

  lemma RewrittenIsBelow(src: string, dst: string, s: string)
    requires Below(src, s)
    ensures Below(dst, RewrittenPath(src, dst, s))
    ensures Split(src) <= Split(s)
    ensures Split(RewrittenPath(src, dst, s)) == Split(dst) + Split(s)[|Split(src)|..]
  {
    hide Split;
    if s != src {
      BelowRest(src, s);
      var rest := s[|src| + 1..];
      assert s[|src|..] == "/" + rest;
      assert RewrittenPath(src, dst, s) == dst + "/" + rest;
      SplitConcat(dst, rest);
    }
  }

  lemma LastSlashAfter(a: string, rest: string)
    ensures LastSlash(a + "/" + rest) == |a| + 1 + LastSlash(rest)
  {
    var s := a + "/" + rest;
    var i, j := LastSlash(s), |a| + 1 + LastSlash(rest);
    assert s[j] == '/';
    assert forall k | j < k < |s| :: s[k] == rest[k - |a| - 1];
  }

  lemma ColumnsAfter(a: string, rest: string)
    ensures BaseName(a + "/" + rest) == BaseName(rest)
    ensures ParentPath(a + "/" + rest) == if LastSlash(rest) < 0 then a else a + "/" + rest[..LastSlash(rest)]
  {
    hide LastSlash;
    LastSlashAfter(a, rest);
  }

  /** The CASE expressions compute the parent and the name of the rewritten path. */
  lemma RewrittenColumns(src: string, dst: string, s: string)
    requires Below(src, s)
    ensures s == src || |src| <= |ParentPath(s)|
    ensures ParentPath(RewrittenPath(src, dst, s)) == RewrittenParent(src, dst, s, ParentPath(s))
    ensures BaseName(RewrittenPath(src, dst, s)) == if s == src then BaseName(dst) else BaseName(s)
  {
    hide Split, LastSlash, ParentPath, BaseName;
    if s != src {
      BelowRest(src, s);
      var rest := s[|src| + 1..];
      assert s[|src|..] == "/" + rest;
      assert RewrittenPath(src, dst, s) == dst + "/" + rest;
      ColumnsAfter(src, rest);
      ColumnsAfter(dst, rest);
      if LastSlash(rest) >= 0 {
        assert ParentPath(s)[|src|..] == "/" + rest[..LastSlash(rest)];
      }
    }
  }

  /** Going up from below `root` stays below it. */
  lemma ParentBelow(root: string, s: string)
    requires Below(root, s) && s != root
    ensures Below(root, ParentPath(s)) && |ParentPath(s)| < |s|
  {
    hide Split, LastSlash;
    BelowRest(root, s);
    var rest := s[|root| + 1..];
    LastSlashAfter(root, rest);
    if LastSlash(rest) < 0 {
      assert ParentPath(s) == root;
    } else {
      assert ParentPath(s) == root + "/" + rest[..LastSlash(rest)];
      assert ParentPath(s)[..|root| + 1] == root + "/";
    }
  }

  lemma ChildBelow(root: string, s: string)
    requires ParentPath(s) != "" && Below(root, ParentPath(s))
    ensures Below(root, s)
  {
    hide Split, LastSlash;
    var i := LastSlash(s);
    assert s[..|root| + 1] == if ParentPath(s) == root then root + "/" else ParentPath(s)[..|root| + 1];
  }

  lemma RewrittenInjective(src: string, dst: string, s: string, s': string)
    requires Below(src, s) && Below(src, s') && RewrittenPath(src, dst, s) == RewrittenPath(src, dst, s')
    ensures s == s'
  {
    var t, t' := RewrittenPath(src, dst, s), RewrittenPath(src, dst, s');
    assert s == src + s[|src|..] && s' == src + s'[|src|..];
    assert t == dst + s[|src|..] && t' == dst + s'[|src|..];
    assert t[|dst|..] == s[|src|..] && t'[|dst|..] == s'[|src|..];
  }

  /****** case folding, one character at a time ******/

  function Fold(fold: char -> char, s: string): (r: string)
    ensures |r| == |s|
    ensures forall i | 0 <= i < |s| :: r[i] == fold(s[i])
  {
    seq(|s|, i requires 0 <= i < |s| => fold(s[i]))
  }

  /** The normalized path column is rewritten as the fold of the rewritten path. */
  lemma RewrittenFold(fold: char -> char, src: string, dst: string, s: string)
    requires Below(src, s)
    ensures Fold(fold, RewrittenPath(src, dst, s)) ==
      if s == src then Fold(fold, dst) else Fold(fold, dst) + Fold(fold, s)[|Fold(fold, src)|..]
  {
  }

  /****** ParsePath ******/

  /** Bytes of one character in UTF-8. */
  function CharBytes(c: char): nat {
    var n := c as int;
    if n < 0x80 then 1 else if n < 0x800 then 2 else if n < 0x1_0000 then 3 else 4
  }

  function ByteLength(s: string): nat {
    if s == "" then 0 else ByteLength(s[..|s| - 1]) + CharBytes(s[|s| - 1])
  }

  predicate IsControl(c: char) {
    c as int <= 0x1F || 0x7F <= c as int <= 0x9F
  }

  predicate ComponentOk(c: string) {
    && c != "" && c != "." && c != ".." && ByteLength(c) <= MAXIMUM_COMPONENT_BYTES
    && forall i | 0 <= i < |c| :: !IsControl(c[i])
  }

  predicate ParsePath(s: string) {
    && s != "" && ByteLength(s) <= MAXIMUM_PATH_BYTES && s[0] != '/' && '\\' !in s
    && |Split(s)| <= MAXIMUM_PATH_DEPTH
    && forall i | 0 <= i < |Split(s)| :: ComponentOk(Split(s)[i])
  }

  /****** the limits of an index row ******/

  /** NewEntry accepts a parsed path whose folded forms are within the limits. */
  predicate NewEntryOk(s: string, fold: char -> char) {
    && ParsePath(s)
    && ByteLength(Fold(fold, BaseName(s))) <= MAXIMUM_COMPONENT_BYTES
    && ByteLength(Fold(fold, s)) <= MAXIMUM_PATH_BYTES
  }

  /** The CHECK constraints of file_entries on the text columns of a row at this path. */
  predicate ColumnsHold(s: string, fold: char -> char) {
    && 1 <= ByteLength(s) <= MAXIMUM_PATH_BYTES && ByteLength(ParentPath(s)) <= MAXIMUM_PATH_BYTES
    && 1 <= ByteLength(BaseName(s)) <= MAXIMUM_COMPONENT_BYTES
    && 1 <= ByteLength(Fold(fold, BaseName(s))) <= MAXIMUM_COMPONENT_BYTES
    && 1 <= ByteLength(Fold(fold, s)) <= MAXIMUM_PATH_BYTES
  }

  predicate ComponentsOk(p: Path) {
    p != [] && forall i | 0 <= i < |p| :: ComponentOk(p[i]) && '/' !in p[i] && '\\' !in p[i]
  }

  lemma {:induction false} CharsOfComponents(s: string, c: char)
    requires c != '/'
    ensures c in s <==> exists i | 0 <= i < |Split(s)| :: c in Split(s)[i]
  {
    if s == "" {
      assert Split(s) == [""];
    } else {
      hide Extended;
      var init, last := s[..|s| - 1], s[|s| - 1];
      assert s == init + [last];
      CharsOfComponents(init, c);
      CharsExtended(Split(init), last, c);
      assert Split(s) == Extended(Split(init), last, '/');
      hide Split;
    }
  }

  lemma CharsExtended(p: Path, d: char, c: char)
    requires p != [] && c != '/'
    ensures (exists i | 0 <= i < |Extended(p, d, '/')| :: c in Extended(p, d, '/')[i]) <==> c == d || exists i | 0 <= i < |p| :: c in p[i]
  {
    var q := Extended(p, d, '/');
    if i :| 0 <= i < |p| && c in p[i] {
      assert c in q[i];
    }
    if d != '/' {
      assert q[|p| - 1] == p[|p| - 1] + [d];
      assert d in q[|p| - 1];
    }
    if i :| 0 <= i < |q| && c in q[i] && c != d {
      assert i < |p| && c in p[i];
    }
  }

  /** ParsePath accepts exactly the joins of well-formed components within the limits. */
  lemma ParsePathIsComponents(s: string)
    ensures ParsePath(s) <==>
      ComponentsOk(Split(s)) && ByteLength(s) <= MAXIMUM_PATH_BYTES && |Split(s)| <= MAXIMUM_PATH_DEPTH
  {
    PartsPlain(s, '/');
    CharsOfComponents(s, '\\');
    assert ComponentsOk(Split(s)) || ParsePath(s) ==> ComponentOk(Split(s)[0]);
    if s != "" && s[0] == '/' {
      assert s == "" + "/" + s[1..];
      SplitConcat("", s[1..]);
      assert Split(s)[0] == "";
    }
  }

  lemma {:induction false} BytesConcat(a: string, b: string)
    ensures ByteLength(a + b) == ByteLength(a) + ByteLength(b)
  {
    if b == "" {
      assert a + b == a;
    } else {
      assert (a + b)[..|a + b| - 1] == a + b[..|b| - 1];
      assert (a + b)[|a + b| - 1] == b[|b| - 1];
      BytesConcat(a, b[..|b| - 1]);
    }
  }

  /** Whether a path below a moved directory still parses depends only on its new
      depth and length; the rewrite itself does not check either. */
  lemma MovedPathParses(src: string, dst: string, s: string)
    requires ParsePath(src) && ParsePath(dst) && ParsePath(s) && Below(src, s)
    ensures ParsePath(RewrittenPath(src, dst, s)) <==>
      && |Split(dst)| + |Split(s)| - |Split(src)| <= MAXIMUM_PATH_DEPTH
      && ByteLength(dst) + ByteLength(s) - ByteLength(src) <= MAXIMUM_PATH_BYTES
  {
    hide Split, ParsePath, ByteLength;
    var t := RewrittenPath(src, dst, s);
    RewrittenIsBelow(src, dst, s);
    ParsePathIsComponents(dst);
    ParsePathIsComponents(s);
    ParsePathIsComponents(t);
    assert s == src + s[|src|..];
    BytesConcat(src, s[|src|..]);
    BytesConcat(dst, s[|src|..]);
    assert t == dst + s[|src|..];
  }

  lemma {:induction false} BytesAtLeast(s: string)
    ensures |s| <= ByteLength(s) <= 4 * |s|
  {
    if s != "" { BytesAtLeast(s[..|s| - 1]); }
  }

  lemma ParentBytes(s: string)
    ensures ByteLength(ParentPath(s)) <= ByteLength(s)
  {
    hide LastSlash;
    var i := LastSlash(s);
    if i >= 0 {
      assert s == s[..i] + s[i..];
      BytesConcat(s[..i], s[i..]);
    }
  }

  /** The columns hold the row of every path that NewEntry accepts. */
  lemma AcceptedIsHeld(s: string, fold: char -> char)
    requires NewEntryOk(s, fold)
    ensures ColumnsHold(s, fold)
  {
    hide ParsePath, ByteLength, LastSlash, ParentPath, BaseName;
    NameOk(s);
    ParentBytes(s);
    BytesAtLeast(s);
    BytesAtLeast(BaseName(s));
    BytesAtLeast(Fold(fold, s));
    BytesAtLeast(Fold(fold, BaseName(s)));
  }

  /** NewEntry accepts exactly the paths that parse and whose rows the columns can hold. */
  lemma AcceptedExactly(s: string, fold: char -> char)
    ensures NewEntryOk(s, fold) <==> ParsePath(s) && ColumnsHold(s, fold)
  {
    hide ParsePath, ByteLength, LastSlash, ParentPath, BaseName;
    if NewEntryOk(s, fold) { AcceptedIsHeld(s, fold); }
  }

  lemma NameOk(s: string)
    requires ParsePath(s)
    ensures s != "" && ByteLength(s) <= MAXIMUM_PATH_BYTES
    ensures BaseName(s) != "" && ByteLength(BaseName(s)) <= MAXIMUM_COMPONENT_BYTES
  {
    hide Split, LastSlash;
    SplitParent(s);
    assert Split(s)[|Split(s)| - 1] == BaseName(s);
  }

  /****** paths of equal components ******/

  function Repeated(name: string, n: nat): string
    requires n > 0
  {
    if n == 1 then name else Repeated(name, n - 1) + "/" + name
  }

  function Copies(name: string, n: nat): Path {
    seq(n, _ => name)
  }

  lemma {:induction false} RepeatedComponents(name: string, n: nat)
    requires n > 0 && '/' !in name
    ensures Split(Repeated(name, n)) == Copies(name, n)
    ensures ByteLength(Repeated(name, n)) == n * (ByteLength(name) + 1) - 1
    ensures |Repeated(name, n)| == n * (|name| + 1) - 1
  {
    hide Split, ByteLength;
    SplitPlain(name);
    if n == 1 {
      assert Copies(name, 1) == [name];
    } else {
      RepeatedComponents(name, n - 1);
      SplitConcat(Repeated(name, n - 1), name);
      assert Copies(name, n - 1) + [name] == Copies(name, n);
      OneByte('/');
      BytesConcat(Repeated(name, n - 1), "/");
      BytesConcat(Repeated(name, n - 1) + "/", name);
      assert n * (ByteLength(name) + 1) == (n - 1) * (ByteLength(name) + 1) + ByteLength(name) + 1;
      assert n * (|name| + 1) == (n - 1) * (|name| + 1) + |name| + 1;
    }
  }

  lemma OneByte(c: char)
    requires c as int < 0x80
    ensures ByteLength([c]) == 1
  {
    assert [c][..|[c]| - 1] == "" && ByteLength("") == 0;
  }

  lemma {:induction false} PlainLength(s: string)
    requires forall i | 0 <= i < |s| :: s[i] as int < 0x80
    ensures ByteLength(s) == |s|
  {
    if s != "" { PlainLength(s[..|s| - 1]); }
  }
}
