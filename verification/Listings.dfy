/** What the rows behind List and Search are in terms of paths, and which cursors they take. */
module Listings {
  import opened World
  import opened Text
  import opened LogicalPath
  import opened IndexRows
  import opened Paging
  import opened Cursors
  import opened Base64
  import opened Json

  ghost predicate Shown(rows: Table, g: nat, e: Entry) {
    exists id :: id in rows && rows[id] == e && In(e, g, None)
  }

  /** Listing a directory selects exactly the shown rows one level below it. */
  lemma ChildrenAreBelow(rows: Table, fold: char -> char, g: nat, parent: string, e: Entry)
    requires TableOk(rows, fold)
    ensures e in Children(rows, g, parent) <==>
      && Shown(rows, g, e)
      && exists name :: Split(e.path) == (if parent == "" then [] else Split(parent)) + [name]
  {
    hide Split, LastSlash, UniqueRows, ParentsShown, ParentPath, BaseName, Clean;
    if Shown(rows, g, e) {
      assert e in Children(rows, g, parent) <==> e.parent == parent;
      var id :| id in rows && rows[id] == e;
      assert EntryOk(e, fold);
      ParentExactly(e.path, parent);
    }
  }

  lemma ParentExactly(path: string, parent: string)
    requires Clean(path)
    ensures ParentPath(path) == parent <==> exists name :: Split(path) == (if parent == "" then [] else Split(parent)) + [name]
  {
    hide Split, LastSlash, ParentPath, BaseName;
    SplitParent(path);
    ParentNamed(path);
    var up := if LastSlash(path) < 0 then [] else Split(ParentPath(path));
    assert Split(path) == up + [BaseName(path)];
    if ParentPath(path) == parent {
      assert Split(path) == (if parent == "" then [] else Split(parent)) + [BaseName(path)];
    }
    if name :| Split(path) == (if parent == "" then [] else Split(parent)) + [name] {
      var low := if parent == "" then [] else Split(parent);
      assert up == Split(path)[..|Split(path)| - 1] == low;
      if LastSlash(path) >= 0 && parent != "" { SplitInjective(parent, ParentPath(path)); }
    }
  }

  /** A clean path has a parent with a name, or none. */
  lemma ParentNamed(path: string)
    requires Clean(path)
    ensures LastSlash(path) < 0 ==> ParentPath(path) == ""
    ensures LastSlash(path) >= 0 ==> ParentPath(path) != "" && Split(ParentPath(path)) != []
    ensures forall s :: Split(s) != []
  {
    hide SplitOn;
    SplitPlain("");
    if LastSlash(path) >= 0 {
      SplitParent(path);
      assert Split(path)[0] == Split(ParentPath(path))[0] && Split(path)[0] != "";
    }
  }

  ghost predicate Within(s: string, part: string) {
    exists a, b :: s == a + part + b
  }

  lemma ContainsIsWithin(s: string, part: string)
    ensures Contains(s, part) <==> Within(s, part)
  {
    if Contains(s, part) {
      var i :| 0 <= i <= |s| && part <= s[i..];
      assert s == s[..i] + part + s[i + |part|..];
    }
    if Within(s, part) {
      var a, b :| s == a + part + b;
      assert s[|a|..] == part + b;
    }
  }

  lemma WithinLonger(s: string, part: string, front: string)
    requires Within(s, part)
    ensures Within(front + s, part)
  {
    var a, b :| s == a + part + b;
    assert front + s == (front + a) + part + b;
  }

  /** The folded name is the end of the folded path. */
  lemma FoldedName(e: Entry, fold: char -> char)
    requires EntryOk(e, fold)
    ensures e.normalizedPath == e.normalizedPath[..|e.path| - |e.name|] + e.normalizedName
  {
    hide LastSlash, Clean;
    var k := |e.path| - |e.name|;
    assert e.name == e.path[k..];
    assert e.normalizedPath[k..] == e.normalizedName;
  }

  /** Searching selects exactly the shown rows whose folded path contains the folded query:
      a match in the name is one in the path. */
  lemma HitsArePathHits(rows: Table, fold: char -> char, g: nat, query: string, e: Entry)
    requires TableOk(rows, fold)
    ensures e in Hits(rows, g, Fold(fold, query)) <==> Shown(rows, g, e) && Within(Fold(fold, e.path), Fold(fold, query))
  {
    hide EntryOk, UniqueRows, ParentsShown, Contains, Within;
    if Shown(rows, g, e) {
      var id :| id in rows && rows[id] == e;
      assert EntryOk(e, fold);
      NormalizedPath(e, fold);
      FoldedName(e, fold);
      ContainsIsWithin(e.normalizedName, Fold(fold, query));
      ContainsIsWithin(e.normalizedPath, Fold(fold, query));
      if Contains(e.normalizedName, Fold(fold, query)) {
        WithinLonger(e.normalizedName, Fold(fold, query), e.normalizedPath[..|e.path| - |e.name|]);
      }
    }
  }

  lemma NormalizedPath(e: Entry, fold: char -> char)
    requires EntryOk(e, fold)
    ensures e.normalizedPath == Fold(fold, e.path) && |e.name| <= |e.path| == |e.normalizedPath|
  {
    hide LastSlash, Clean;
  }

  /****** cursors ******/

  /** The service could have emitted this cursor, for some row of this mode and scope. */
  ghost predicate CouldEmit(c: IndexCursor, mode: Mode, scope: string, fold: char -> char) {
    exists e: Entry :: EntryOk(e, fold) && ParsePath(e.path) && c == Emitted(mode, scope, e)
  }

  /** Besides the empty one, exactly the cursors of this mode and scope are taken, forged or not. */
  lemma TakenCouldBeEmitted(value: string, mode: Mode, scope: string, fold: char -> char, c: IndexCursor)
    requires value != "" && DecodeCursor(value, mode, scope, fold) == Some(c)
    ensures CouldEmit(c, mode, scope, fold)
  {
    hide ParsePath, BaseName, Fold, Decode, FromUtf8, Read, FromMembers, ByteLength;
    AcceptsExactly(c, mode, scope, fold);
  }

  lemma AcceptsExactly(c: IndexCursor, mode: Mode, scope: string, fold: char -> char)
    ensures Accepts(c, mode, scope, fold) <==> CouldEmit(c, mode, scope, fold)
  {
    hide ParsePath, LastSlash, Clean, ParentPath;
    if Accepts(c, mode, scope, fold) {
      var path := if mode.ListMode? then c.tertiary else c.secondary;
      ParsedIsClean(path);
      var e := Entry(0, path, ParentPath(path), BaseName(path), Fold(fold, BaseName(path)), Fold(fold, path), DirMeta, None);
      assert EntryOk(e, fold) && c == Emitted(mode, scope, e);
    }
    if CouldEmit(c, mode, scope, fold) {
      var e: Entry :| EntryOk(e, fold) && ParsePath(e.path) && c == Emitted(mode, scope, e);
      ColumnsNamed(e, fold);
      NameNamed(e, fold);
    }
  }
}
