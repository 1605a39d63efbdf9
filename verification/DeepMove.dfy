/** A move that the storage, the checks and the statement all accept, and that leaves a
    row whose path ParsePath refuses: the depth limit of 128 is checked on the two
    ends of a move only. */
module DeepMove {
  import opened World
  import opened LogicalPath
  import opened IndexRows
  import opened Reindex
  import opened Paging
  import opened Cursors

  const DEPTH: nat := 128

  /** The row of a directory in generation 1. */
  function Row(path: string, fold: char -> char): Entry {
    NewEntry(path, DirMeta, None, fold).(generation := 1)
  }

  /** Directories d, d/d, d/d/d and so on. */
  function ChainRows(n: nat, fold: char -> char): Table {
    if n == 0 then map[] else ChainRows(n - 1, fold)[n := Row(Repeated("d", n), fold)]
  }

  /** Beside a chain of depth 127, a directory e with two children. */
  function DeepRows(fold: char -> char): Table {
    ChainRows(127, fold)[128 := Row("e", fold)][129 := Row("e/d", fold)][130 := Row("e/e", fold)]
  }

  lemma LeafColumns(a: string, name: string)
    requires '/' !in name
    ensures ParentPath(a + "/" + name) == a && BaseName(a + "/" + name) == name
    ensures ParentPath(name) == "" && BaseName(name) == name
  {
    LastSlashAfter(a, name);
    assert forall i | 0 <= i < |name| :: name[i] in name;
    assert LastSlash(name) == -1;
  }

  lemma {:induction false} RepeatedStarts(n: nat)
    requires n > 0
    ensures Repeated("d", n) != "" && Repeated("d", n)[0] == 'd'
  {
    if n > 1 { RepeatedStarts(n - 1); }
  }

  lemma RepeatedD(n: nat)
    requires n > 0
    ensures Split(Repeated("d", n)) == Copies("d", n) && |Repeated("d", n)| == ByteLength(Repeated("d", n)) == 2 * n - 1
    ensures ParsePath(Repeated("d", n)) <==> n <= DEPTH
    ensures Clean(Repeated("d", n))
    ensures BaseName(Repeated("d", n)) == "d" && ParentPath(Repeated("d", n)) == (if n == 1 then "" else Repeated("d", n - 1))
  {
    hide Split, ByteLength, LastSlash, ParsePath, ParentPath, BaseName;
    OneByte('d');
    RepeatedComponents("d", n);
    ParsePathIsComponents(Repeated("d", n));
    if n > 1 { LeafColumns(Repeated("d", n - 1), "d"); } else { LeafColumns("", "d"); }
  }

  lemma RowOk(path: string, fold: char -> char)
    requires Clean(path)
    ensures var e := Row(path, fold); EntryOk(e, fold) && e.generation == 1 && e.path == path && e.trashId.None? && e.parent == ParentPath(path)
  {
  }

  ghost predicate IsChain(rows: Table, n: nat, fold: char -> char) {
    && (forall id {:trigger id in rows} :: id in rows <==> 1 <= id <= n)
    && (forall id {:trigger rows[id]} | 1 <= id <= n :: rows[id] == Row(Repeated("d", id), fold))
  }

  lemma {:induction false} ChainRowsOk(n: nat, fold: char -> char)
    ensures TableOk(ChainRows(n, fold), fold) && IsChain(ChainRows(n, fold), n, fold)
  {
    hide TableOk, Available, Repeated, EntryOk, Row, Clean, ParsePath, ByteLength, Split, ParentPath, BaseName;
    if n == 0 {
      assert TableOk(map[], fold) by { NoRows(fold); }
    } else {
      ChainRowsOk(n - 1, fold);
      var rows, path := ChainRows(n - 1, fold), Repeated("d", n);
      RepeatedD(n);
      RowOk(path, fold);
      assert Available(rows, 1, path) by { ChainAvailable(n, fold); }
      InsertKeepsTable(rows, n, Row(path, fold), fold);
    }
  }

  lemma NoRows(fold: char -> char)
    ensures TableOk(map[], fold)
  {
  }

  lemma ChainAvailable(n: nat, fold: char -> char)
    requires n > 0 && IsChain(ChainRows(n - 1, fold), n - 1, fold)
    ensures Available(ChainRows(n - 1, fold), 1, Repeated("d", n))
  {
    hide Split, ByteLength, ParsePath, ParentPath, BaseName, Repeated, ChainRows, Clean;
    var rows, path := ChainRows(n - 1, fold), Repeated("d", n);
    RepeatedD(n);
    forall id | id in rows ensures rows[id].path != path {
      RepeatedD(id);
    }
    if n > 1 { assert At(rows, n - 1, 1, None, Repeated("d", n - 1)); }
  }

  lemma SmallPaths()
    ensures ParsePath("e") && ParsePath("e/d") && ParsePath("e/e") && Clean("e") && Clean("e/d") && Clean("e/e")
    ensures ParentPath("e") == "" && ParentPath("e/d") == "e" && ParentPath("e/e") == "e"
    ensures BaseName("e") == "e" && BaseName("e/d") == "d" && BaseName("e/e") == "e"
  {
    hide Split, ParsePath, ByteLength, LastSlash, ParentPath, BaseName;
    LeafColumns("e", "d");
    LeafColumns("e", "e");
    assert "e" + "/" + "d" == "e/d" && "e" + "/" + "e" == "e/e";
    SplitPlain("e");
    SplitPlain("d");
    SplitConcat("e", "d");
    SplitConcat("e", "e");
    PlainLength("e");
    PlainLength("d");
    PlainLength("e/d");
    PlainLength("e/e");
    ParsePathIsComponents("e");
    ParsePathIsComponents("e/d");
    ParsePathIsComponents("e/e");
  }

  function PathAt(id: nat): string
    requires 1 <= id <= 130
  {
    if id <= 127 then Repeated("d", id) else if id == 128 then "e" else if id == 129 then "e/d" else "e/e"
  }

  lemma PathAtOk(id: nat, fold: char -> char)
    requires 1 <= id <= 130
    ensures ParsePath(PathAt(id)) && EntryOk(Row(PathAt(id), fold), fold) && In(Row(PathAt(id), fold), 1, None)
    ensures Row(PathAt(id), fold).path == PathAt(id) && Row(PathAt(id), fold).meta.DirMeta?
    ensures PathAt(id) != "" && (id <= 127 ==> PathAt(id)[0] == 'd')
  {
    hide Repeated, Split, ParsePath, ByteLength, Clean, EntryOk;
    SmallPaths();
    if id <= 127 {
      RepeatedD(id);
      RepeatedStarts(id);
    }
    RowOk(PathAt(id), fold);
  }

  lemma DeepRowsOk(fold: char -> char)
    ensures TableOk(DeepRows(fold), fold)
    ensures forall id :: id in DeepRows(fold) <==> 1 <= id <= 130
    ensures forall id {:trigger DeepRows(fold)[id]} | 1 <= id <= 130 :: DeepRows(fold)[id] == Row(PathAt(id), fold)
  {
    hide TableOk, Repeated, EntryOk, Clean, ParsePath, ParentPath, BaseName, ChainRows;
    ChainRowsOk(127, fold);
    SmallPaths();
    RowOk("e", fold);
    RowOk("e/d", fold);
    RowOk("e/e", fold);
    var r0 := ChainRows(127, fold);
    var r1 := r0[128 := Row("e", fold)];
    var r2 := r1[129 := Row("e/d", fold)];
    forall id | id in r0 ensures r0[id].path != "" && r0[id].path[0] == 'd' {
      RepeatedStarts(id);
    }
    InsertKeepsTable(r0, 128, Row("e", fold), fold);
    assert At(r1, 128, 1, None, "e") && At(r2, 128, 1, None, "e");
    InsertKeepsTable(r1, 129, Row("e/d", fold), fold);
    InsertKeepsTable(r2, 130, Row("e/e", fold), fold);
  }

  /****** the move ******/

  const DEEP := Repeated("d", DEPTH)

  function Moved(fold: char -> char): Table
    requires EntriesOk(DeepRows(fold), fold)
  {
    MovedTable(DeepRows(fold), 1, "e", DEEP, fold)
  }

  /** The two rows below e get paths of 129 components. */
  lemma MovedChildren(fold: char -> char)
    ensures EntriesOk(DeepRows(fold), fold) && Moved(fold).Keys == DeepRows(fold).Keys
    ensures forall id | 1 <= id <= 130 :: id in Moved(fold) && EntryOk(Moved(fold)[id], fold) && In(Moved(fold)[id], 1, None)
    ensures forall id {:trigger Moved(fold)[id]} | 1 <= id <= 127 :: Moved(fold)[id].path == Repeated("d", id)
    ensures Moved(fold)[128].path == DEEP && Moved(fold)[129].path == DEEP + "/d" && Moved(fold)[130].path == DEEP + "/e"
  {
    hide TableOk, Repeated, EntryOk, Clean, ParsePath, ParentPath, BaseName, DeepRows, MovedTable, Row;
    DeepRowsOk(fold);
    TableEntries(DeepRows(fold), fold);
    MovedKeys(DeepRows(fold), 1, "e", DEEP, fold);
    RepeatedD(DEPTH);
    forall id | 1 <= id <= 130
      ensures id in Moved(fold) && EntryOk(Moved(fold)[id], fold) && In(Moved(fold)[id], 1, None)
      ensures Moved(fold)[id].path == if id <= 127 then Repeated("d", id) else if id == 128 then DEEP else if id == 129 then DEEP + "/d" else DEEP + "/e"
    {
      MovedRow(DeepRows(fold), 1, "e", DEEP, fold, id);
      PathAtOk(id, fold);
    }
  }

  lemma ShortHolds(e: Entry, fold: char -> char)
    requires EntryOk(e, fold) && 0 < |e.path| <= 1024 && |e.name| == 1
    ensures ChecksOk(e)
  {
    hide Split, Clean, ByteLength, LastSlash, BaseName;
    BytesAtLeast(e.path);
    BytesAtLeast(e.parent);
    BytesAtLeast(e.name);
    BytesAtLeast(e.normalizedName);
    BytesAtLeast(e.normalizedPath);
  }

  lemma MovedHolds(fold: char -> char)
    ensures EntriesOk(DeepRows(fold), fold) && AllChecksOk(Moved(fold))
  {
    hide TableOk, Repeated, EntryOk, Clean, ParsePath, ParentPath, BaseName, DeepRows, MovedTable, Row, ChecksOk, Split, EntriesOk;
    DeepRowsOk(fold);
    MovedChildren(fold);
    RepeatedD(DEPTH);
    TooDeep();
    forall id | id in Moved(fold) ensures ChecksOk(Moved(fold)[id]) {
      if id <= 127 { RepeatedD(id); }
      NameColumn(Moved(fold)[id], fold);
      ShortHolds(Moved(fold)[id], fold);
    }
  }

  lemma NameColumn(e: Entry, fold: char -> char)
    requires EntryOk(e, fold)
    ensures e.name == BaseName(e.path) && e.parent == ParentPath(e.path)
  {
  }

  /** Every row parses, the move passes every check of the table and the storage, and
      afterwards a row has a path that ParsePath refuses. */
  lemma MoveOutgrowsParsePath(fold: char -> char) returns (rows: Table, src: string, dst: string, id: nat)
    ensures TableOk(rows, fold) && forall i | i in rows :: ParsePath(rows[i].path)
    ensures ParsePath(src) && ParsePath(dst) && MayMove(rows, 1, src, dst) && !Below(src, dst)
    ensures EntriesOk(rows, fold) && AllChecksOk(MovedTable(rows, 1, src, dst, fold))
    ensures id in MovedTable(rows, 1, src, dst, fold) && !ParsePath(MovedTable(rows, 1, src, dst, fold)[id].path)
  {
    hide TableOk, MayMove, Below, Clean, ParsePath, DeepRows, MovedTable, AllChecksOk, EntriesOk, Repeated, Row, EntryOk;
    rows, src, dst, id := DeepRows(fold), "e", DEEP, 129;
    DeepRowsOk(fold);
    MovedChildren(fold);
    MovedHolds(fold);
    SmallPaths();
    RepeatedD(DEPTH);
    DeepAvailable(fold);
    TooDeep();
    forall i | i in rows ensures ParsePath(rows[i].path) {
      PathAtOk(i, fold);
    }
  }

  lemma DeepAvailable(fold: char -> char)
    ensures MayMove(DeepRows(fold), 1, "e", DEEP) && !Below("e", DEEP)
  {
    hide TableOk, Repeated, EntryOk, Clean, ParsePath, ParentPath, BaseName, DeepRows, Row, Split;
    var rows := DeepRows(fold);
    DeepRowsOk(fold);
    RepeatedD(DEPTH);
    RepeatedD(127);
    RepeatedStarts(DEPTH);
    PathAtOk(127, fold);
    PathAtOk(128, fold);
    assert At(rows, 128, 1, None, "e");
    assert At(rows, 127, 1, None, Repeated("d", 127));
    forall id | id in rows ensures rows[id].path != DEEP {
      PathAtOk(id, fold);
      if id <= 127 { RepeatedD(id); }
    }
  }

  lemma TooDeep()
    ensures !ParsePath(DEEP + "/d") && !ParsePath(DEEP + "/e")
    ensures ParentPath(DEEP + "/d") == DEEP && BaseName(DEEP + "/d") == "d"
    ensures ParentPath(DEEP + "/e") == DEEP && BaseName(DEEP + "/e") == "e"
  {
    hide Split, ByteLength, Repeated, ParsePath, ParentPath, BaseName;
    RepeatedD(DEPTH);
    DeeperBy("d");
    DeeperBy("e");
    assert DEEP + "/" + "d" == DEEP + "/d" && DEEP + "/" + "e" == DEEP + "/e";
  }

  lemma DeeperBy(name: string)
    requires '/' !in name
    ensures !ParsePath(DEEP + "/" + name)
    ensures ParentPath(DEEP + "/" + name) == DEEP && BaseName(DEEP + "/" + name) == name
  {
    hide Split, ByteLength, Repeated, ParsePath, ParentPath, BaseName;
    RepeatedD(DEPTH);
    SplitPlain(name);
    SplitConcat(DEEP, name);
    ParsePathIsComponents(DEEP + "/" + name);
    LeafColumns(DEEP, name);
  }

  /** Whoever lists that directory row by row is refused with the first cursor. */
  lemma DeepCursorRefused(fold: char -> char)
    ensures EntriesOk(DeepRows(fold), fold) && |Children(Moved(fold), 1, DEEP)| >= 2
    ensures forall e | e in Children(Moved(fold), 1, DEEP) ::
      DecodeCursor(EncodeCursor(Emitted(ListMode, DEEP, e)), ListMode, DEEP, fold).None?
  {
    hide TableOk, Repeated, EntryOk, Clean, ParsePath, ParentPath, BaseName, DeepRows, MovedTable, Row, Split, EntriesOk,
         EncodeCursor, DecodeCursor, ByteLength, Emitted;
    DeepRowsOk(fold);
    MovedChildren(fold);
    RepeatedD(DEPTH);
    TooDeep();
    var t := Moved(fold);
    NameColumn(t[129], fold);
    NameColumn(t[130], fold);
    assert {t[129], t[130]} <= Children(t, 1, DEEP);
    assert t[129] != t[130];
    SubsetSize({t[129], t[130]}, Children(t, 1, DEEP));
    forall e | e in Children(t, 1, DEEP)
      ensures DecodeCursor(EncodeCursor(Emitted(ListMode, DEEP, e)), ListMode, DEEP, fold).None?
    {
      var id :| id in t && t[id] == e && e.parent == DEEP;
      NameColumn(e, fold);
      if id <= 127 { RepeatedD(id); }
      ParentShorter(e.path);
      assert !ParsePath(e.path);
      EmittedComesBack(ListMode, DEEP, e, fold);
    }
  }

  lemma ParentShorter(s: string)
    requires s != ""
    ensures |ParentPath(s)| < |s|
  {
  }

  lemma SubsetSize<T>(a: set<T>, b: set<T>)
    requires a <= b
    ensures |a| <= |b|
  {
    assert b == a + (b - a);
  }
}
