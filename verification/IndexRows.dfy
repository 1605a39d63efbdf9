/** The file_entries table: rows with redundant columns, and the statements that
    insert, move, hide and unhide them. */
module IndexRows {
  import opened Paths
  import opened World
  import opened LogicalPath

  datatype Entry = Entry(
    generation: nat,
    path: string,
    parent: string,
    name: string,
    normalizedName: string,
    normalizedPath: string,
    meta: Meta,
    trashId: Option<Id>)

  /** Rows by their integer key. */
  type Table = map<nat, Entry>

  predicate Clean(s: string) {
    forall i | 0 <= i < |Split(s)| :: Split(s)[i] != ""
  }

  lemma ParsedIsClean(s: string)
    requires ParsePath(s)
    ensures Clean(s)
  {
  }

  /** The redundant columns say what the path says. */
  predicate EntryOk(e: Entry, fold: char -> char) {
    && Clean(e.path)
    && e.parent == ParentPath(e.path) && e.name == BaseName(e.path)
    && e.normalizedName == Fold(fold, e.name) && e.normalizedPath == Fold(fold, e.path)
  }

  /** Membership in the rows of generation `g` that are shown (`t` is None) or hidden
      under one trash id. */
  predicate In(e: Entry, g: nat, t: Option<Id>) {
    e.generation == g && e.trashId == t
  }

  predicate At(rows: Table, id: nat, g: nat, t: Option<Id>, p: string) {
    id in rows && In(rows[id], g, t) && rows[id].path == p
  }

  /** The partial unique index on (generation_id, logical_path), and the same for each trash id. */
  ghost predicate UniqueRows(rows: Table) {
    forall g, t, id, id', p :: At(rows, id, g, t, p) && At(rows, id', g, t, p) ==> id == id'
  }

  predicate PathShown(rows: Table, g: nat, p: string) {
    exists id {:trigger At(rows, id, g, None, p)} | id in rows :: At(rows, id, g, None, p)
  }

  predicate DirectoryAt(rows: Table, g: nat, p: string) {
    exists id {:trigger At(rows, id, g, None, p)} | id in rows :: At(rows, id, g, None, p) && rows[id].meta.DirMeta?
  }

  /** requireAvailableInGeneration */
  predicate Available(rows: Table, g: nat, p: string) {
    !PathShown(rows, g, p) && (ParentPath(p) != "" ==> DirectoryAt(rows, g, ParentPath(p)))
  }

  ghost predicate ParentsShown(rows: Table, g: nat) {
    forall id | id in rows && In(rows[id], g, None) && rows[id].parent != "" :: DirectoryAt(rows, g, rows[id].parent)
  }

  ghost predicate EntriesOk(rows: Table, fold: char -> char) {
    forall id | id in rows :: EntryOk(rows[id], fold)
  }

  /****** the rows as the tables keyed by components that the protocol speaks of ******/

  /** With `t` None, what readers of generation `g` see; otherwise the rows that one
      trash id hides from them. */
  ghost function View(rows: Table, g: nat, t: Option<Id>): Rows
    requires UniqueRows(rows)
  {
    assert forall id, id' |
      id in rows && In(rows[id], g, t) && id' in rows && In(rows[id'], g, t) && Split(rows[id].path) == Split(rows[id'].path) ::
      rows[id].meta == rows[id'].meta by { SameRowAtSamePath(rows, g, t); }
    map id | id in rows && In(rows[id], g, t) :: Split(rows[id].path) := rows[id].meta
  }

  lemma SameRowAtSamePath(rows: Table, g: nat, t: Option<Id>)
    requires UniqueRows(rows)
    ensures forall id, id' |
      id in rows && In(rows[id], g, t) && id' in rows && In(rows[id'], g, t) && Split(rows[id].path) == Split(rows[id'].path) ::
      id == id'
  {
    forall id, id' | id in rows && In(rows[id], g, t) && id' in rows && In(rows[id'], g, t) && Split(rows[id].path) == Split(rows[id'].path)
      ensures id == id'
    {
      SplitInjective(rows[id].path, rows[id'].path);
      assert At(rows, id, g, t, rows[id].path) && At(rows, id', g, t, rows[id].path);
    }
  }

  lemma ViewHas(rows: Table, g: nat, t: Option<Id>, id: nat)
    requires UniqueRows(rows) && id in rows && In(rows[id], g, t)
    ensures Split(rows[id].path) in View(rows, g, t) && View(rows, g, t)[Split(rows[id].path)] == rows[id].meta
  {
    SameRowAtSamePath(rows, g, t);
  }

  lemma ViewFrom(rows: Table, g: nat, t: Option<Id>, p: Path) returns (id: nat)
    requires UniqueRows(rows) && p in View(rows, g, t)
    ensures id in rows && In(rows[id], g, t) && Split(rows[id].path) == p && rows[id].meta == View(rows, g, t)[p]
  {
    id :| id in rows && In(rows[id], g, t) && Split(rows[id].path) == p && rows[id].meta == View(rows, g, t)[p];
  }

  /****** the move statement ******/

  predicate Selected(e: Entry, g: nat, root: string) {
    In(e, g, None) && Below(root, e.path)
  }

  /** The SET clause, column by column. */
  function Rewritten(e: Entry, src: string, dst: string, fold: char -> char): Entry
    requires Below(src, e.path) && (e.path == src || (|src| <= |e.parent| && |src| <= |e.normalizedPath|))
  {
    var whole := e.path == src;
    e.(path := if whole then dst else dst + e.path[|src|..],
       parent := if whole then ParentPath(dst) else if e.parent == src then dst else dst + e.parent[|src|..],
       name := if whole then BaseName(dst) else e.name,
       normalizedName := if whole then Fold(fold, BaseName(dst)) else e.normalizedName,
       normalizedPath := if whole then Fold(fold, dst) else Fold(fold, dst) + e.normalizedPath[|Fold(fold, src)|..])
  }

  lemma RewrittenColumnsFit(e: Entry, src: string, fold: char -> char)
    requires EntryOk(e, fold) && Below(src, e.path)
    ensures e.path == src || (|src| <= |e.parent| && |src| <= |e.normalizedPath|)
  {
    hide Split;
    if e.path != src { ParentBelow(src, e.path); }
  }

  lemma CleanRewritten(src: string, dst: string, s: string)
    requires Clean(s) && Clean(dst) && Below(src, s)
    ensures Clean(RewrittenPath(src, dst, s))
  {
    hide Split;
    RewrittenIsBelow(src, dst, s);
    var t := RewrittenPath(src, dst, s);
    forall i | 0 <= i < |Split(t)| ensures Split(t)[i] != "" {
      if i >= |Split(dst)| {
        assert Split(t)[i] == Split(s)[i - |Split(dst)| + |Split(src)|];
      }
    }
  }

  /** Every column of a moved row is what its new path says. */
  lemma RewrittenOk(e: Entry, src: string, dst: string, fold: char -> char)
    requires EntryOk(e, fold) && Below(src, e.path) && Clean(dst)
    ensures e.path == src || (|src| <= |e.parent| && |src| <= |e.normalizedPath|)
    ensures var r := Rewritten(e, src, dst, fold);
      && EntryOk(r, fold) && r.path == RewrittenPath(src, dst, e.path)
      && r.generation == e.generation && r.meta == e.meta && r.trashId == e.trashId
  {
    hide Split, LastSlash, Clean;
    RewrittenColumnsFit(e, src, fold);
    CleanRewritten(src, dst, e.path);
    RewrittenColumns(src, dst, e.path);
    RewrittenFold(fold, src, dst, e.path);
  }

  function MovedTable(rows: Table, g: nat, src: string, dst: string, fold: char -> char): Table
    requires EntriesOk(rows, fold)
  {
    map id | id in rows ::
      if Selected(rows[id], g, src) then
        RewrittenColumnsFit(rows[id], src, fold);
        Rewritten(rows[id], src, dst, fold)
      else rows[id]
  }

  ghost predicate TableOk(rows: Table, fold: char -> char) {
    && EntriesOk(rows, fold)
    && UniqueRows(rows)
    && forall g :: ParentsShown(rows, g)
  }

  lemma {:induction false} NoneBelow(rows: Table, fold: char -> char, g: nat, root: string, id: nat)
    requires EntriesOk(rows, fold) && ParentsShown(rows, g) && root != "" && !PathShown(rows, g, root)
    requires id in rows && In(rows[id], g, None)
    ensures !Below(root, rows[id].path)
    decreases |rows[id].path|
  {
    hide Split, LastSlash, Clean;
    var e := rows[id];
    if Below(root, e.path) {
      assert At(rows, id, g, None, e.path);
      ParentBelow(root, e.path);
      var j :| j in rows && At(rows, j, g, None, e.parent) && rows[j].meta.DirMeta?;
      NoneBelow(rows, fold, g, root, j);
    }
  }

  /** What the move checks before its statement. */
  predicate MayMove(rows: Table, g: nat, src: string, dst: string) {
    PathShown(rows, g, src) && Available(rows, g, dst)
  }

  lemma MovedRow(rows: Table, g: nat, src: string, dst: string, fold: char -> char, id: nat)
    requires EntriesOk(rows, fold) && Clean(dst) && id in rows
    ensures var r := MovedTable(rows, g, src, dst, fold)[id];
      && EntryOk(r, fold)
      && r.generation == rows[id].generation && r.trashId == rows[id].trashId && r.meta == rows[id].meta
      && r.path == (if Selected(rows[id], g, src) then RewrittenPath(src, dst, rows[id].path) else rows[id].path)
      && (!Selected(rows[id], g, src) ==> r == rows[id])
  {
    hide EntryOk, Rewritten, RewrittenPath, Below;
    if Selected(rows[id], g, src) {
      RewrittenOk(rows[id], src, dst, fold);
    }
  }

  /** The unique index accepts the statement, row by row and at the end: no rewritten
      path is an old or a new path of another row. */
  lemma MoveCollidesNever(rows: Table, g: nat, src: string, dst: string, fold: char -> char, id: nat, id': nat)
    requires TableOk(rows, fold) && Clean(dst) && MayMove(rows, g, src, dst)
    requires id in rows && id' in rows && id != id' && In(rows[id'], rows[id].generation, rows[id].trashId)
    ensures var t := MovedTable(rows, g, src, dst, fold);
      t[id].path != t[id'].path && (Selected(rows[id], g, src) ==> t[id].path != rows[id'].path)
  {
    hide EntryOk, Split, RewrittenPath, MovedTable, Below, Clean;
    MovedRow(rows, g, src, dst, fold, id);
    MovedRow(rows, g, src, dst, fold, id');
    var e, e' := rows[id], rows[id'];
    assert e.path == e'.path ==> At(rows, id, e.generation, e.trashId, e.path) && At(rows, id', e.generation, e.trashId, e.path);
    CleanNamed(dst);
    if Selected(e, g, src) {
      RewrittenIsBelow(src, dst, e.path);
      NoneBelow(rows, fold, g, dst, id');
    }
    if Selected(e', g, src) {
      RewrittenIsBelow(src, dst, e'.path);
      NoneBelow(rows, fold, g, dst, id);
    }
    if Selected(e, g, src) && Selected(e', g, src) && RewrittenPath(src, dst, e.path) == RewrittenPath(src, dst, e'.path) {
      RewrittenInjective(src, dst, e.path, e'.path);
    }
  }

  lemma CleanNamed(s: string)
    requires Clean(s)
    ensures s != ""
  {
    assert Split("")[0] == "";
  }

  lemma NothingAbove(root: string)
    requires root != ""
    ensures !Below(root, "")
  {
  }

  lemma MoveKeepsUnique(rows: Table, g: nat, src: string, dst: string, fold: char -> char)
    requires TableOk(rows, fold) && Clean(dst) && MayMove(rows, g, src, dst)
    ensures UniqueRows(MovedTable(rows, g, src, dst, fold))
    ensures EntriesOk(MovedTable(rows, g, src, dst, fold), fold)
  {
    hide EntryOk, Selected, MovedTable, Clean, MayMove, UniqueRows, ParentsShown;
    TableEntries(rows, fold);
    var t := MovedTable(rows, g, src, dst, fold);
    MovedKeys(rows, g, src, dst, fold);
    forall id | id in t ensures EntryOk(t[id], fold) {
      MovedRow(rows, g, src, dst, fold, id);
    }
    assert UniqueRows(t) by { UniqueFrom(rows, g, src, dst, fold); }
  }

  lemma MovedKeys(rows: Table, g: nat, src: string, dst: string, fold: char -> char)
    requires EntriesOk(rows, fold)
    ensures MovedTable(rows, g, src, dst, fold).Keys == rows.Keys
  {
    hide EntryOk, Selected;
  }

  lemma UniqueFrom(rows: Table, g: nat, src: string, dst: string, fold: char -> char)
    requires TableOk(rows, fold) && Clean(dst) && MayMove(rows, g, src, dst)
    ensures UniqueRows(MovedTable(rows, g, src, dst, fold))
  {
    hide EntryOk, Selected, MovedTable, Clean, MayMove, ParentsShown, TableOk, EntriesOk;
    TableEntries(rows, fold);
    var t := MovedTable(rows, g, src, dst, fold);
    MovedKeys(rows, g, src, dst, fold);
    forall h, o, id, id', p | At(t, id, h, o, p) && At(t, id', h, o, p) ensures id == id' {
      MovedRow(rows, g, src, dst, fold, id);
      MovedRow(rows, g, src, dst, fold, id');
      if id != id' {
        MoveCollidesNever(rows, g, src, dst, fold, id, id');
      }
    }
  }

  lemma TableEntries(rows: Table, fold: char -> char)
    requires TableOk(rows, fold)
    ensures EntriesOk(rows, fold) && UniqueRows(rows)
  {
    hide EntryOk, UniqueRows, ParentsShown;
  }

  /** The parent row of a moved or unmoved row, after the move. */
  lemma MoveKeepsParent(rows: Table, g: nat, src: string, dst: string, fold: char -> char, id: nat)
    requires EntriesOk(rows, fold) && id in rows && rows[id].trashId.None? && ParentsShown(rows, rows[id].generation)
    requires Clean(dst) && MayMove(rows, g, src, dst) && !Below(src, dst)
    ensures var t := MovedTable(rows, g, src, dst, fold);
      t[id].parent != "" ==> DirectoryAt(t, rows[id].generation, t[id].parent)
  {
    hide Split, LastSlash, MovedTable, Clean, Below, ParentPath, BaseName;
    var e, t := rows[id], MovedTable(rows, g, src, dst, fold);
    var h := e.generation;
    MovedKeys(rows, g, src, dst, fold);
    MovedRow(rows, g, src, dst, fold, id);
    if Selected(e, g, src) && e.path == src {
      if ParentPath(dst) != "" {
        var j :| j in rows && At(rows, j, g, None, ParentPath(dst)) && rows[j].meta.DirMeta?;
        MovedRow(rows, g, src, dst, fold, j);
        if Below(src, ParentPath(dst)) { ChildBelow(src, dst); }
        assert At(t, j, g, None, ParentPath(dst));
      }
    } else if e.parent != "" {
      var j :| j in rows && At(rows, j, h, None, e.parent) && rows[j].meta.DirMeta?;
      MovedRow(rows, g, src, dst, fold, j);
      if Selected(e, g, src) {
        ParentBelow(src, e.path);
        RewrittenColumns(src, dst, e.path);
        assert At(t, j, h, None, t[id].parent);
      } else {
        if Below(src, e.parent) { ChildBelow(src, e.path); }
        assert At(t, j, h, None, t[id].parent);
      }
    } else if Selected(e, g, src) {
      ParentBelow(src, e.path);
      var k :| k in rows && At(rows, k, g, None, src);
      CleanNamed(rows[k].path);
      NothingAbove(src);
    }
  }

  lemma MoveKeepsTable(rows: Table, g: nat, src: string, dst: string, fold: char -> char)
    requires TableOk(rows, fold) && Clean(dst) && MayMove(rows, g, src, dst) && !Below(src, dst)
    ensures TableOk(MovedTable(rows, g, src, dst, fold), fold)
  {
    hide EntryOk, MovedTable, Clean, MayMove, UniqueRows, DirectoryAt, EntriesOk, Below, Selected;
    TableEntries(rows, fold);
    MoveKeepsUnique(rows, g, src, dst, fold);
    MovedKeys(rows, g, src, dst, fold);
    var t := MovedTable(rows, g, src, dst, fold);
    forall h, id | id in t && In(t[id], h, None) && t[id].parent != "" ensures DirectoryAt(t, h, t[id].parent) {
      MovedRow(rows, g, src, dst, fold, id);
      MoveKeepsParent(rows, g, src, dst, fold, id);
    }
  }

  /** The string UPDATE is a rename of the tree that the rows describe. */
  lemma MoveIsRename(rows: Table, g: nat, src: string, dst: string, fold: char -> char)
    requires TableOk(rows, fold) && Clean(dst) && MayMove(rows, g, src, dst)
    ensures EntriesOk(rows, fold) && UniqueRows(rows) && UniqueRows(MovedTable(rows, g, src, dst, fold))
    ensures View(MovedTable(rows, g, src, dst, fold), g, None) == Renamed(View(rows, g, None), Split(src), Split(dst))
  {
    hide EntryOk, MovedTable, Clean, MayMove, UniqueRows, ParentsShown, EntriesOk, Below, TableOk, View, Split, Renamed;
    TableEntries(rows, fold);
    MoveKeepsUnique(rows, g, src, dst, fold);
    var t := MovedTable(rows, g, src, dst, fold);
    var v, w := View(rows, g, None), View(t, g, None);
    var r := Renamed(v, Split(src), Split(dst));
    forall p | p in w ensures p in r && r[p] == w[p] {
      MovedViewIn(rows, g, src, dst, fold, p);
    }
    forall p | p in r ensures p in w {
      RenamedViewIn(rows, g, src, dst, fold, p);
    }
    assert w.Keys == r.Keys;
  }

  lemma MovedViewIn(rows: Table, g: nat, src: string, dst: string, fold: char -> char, p: Path)
    requires TableOk(rows, fold) && EntriesOk(rows, fold) && UniqueRows(rows) && Clean(dst) && MayMove(rows, g, src, dst)
    requires UniqueRows(MovedTable(rows, g, src, dst, fold)) && p in View(MovedTable(rows, g, src, dst, fold), g, None)
    ensures var r := Renamed(View(rows, g, None), Split(src), Split(dst));
      p in r && r[p] == View(MovedTable(rows, g, src, dst, fold), g, None)[p]
  {
    hide EntryOk, MovedTable, Clean, MayMove, UniqueRows, EntriesOk, Below, TableOk, View, Split;
    var t, v := MovedTable(rows, g, src, dst, fold), View(rows, g, None);
    MovedKeys(rows, g, src, dst, fold);
    var id := ViewFrom(t, g, None, p);
    MovedRow(rows, g, src, dst, fold, id);
    ViewHas(rows, g, None, id);
    BelowIsSubtree(src, rows[id].path);
    if Selected(rows[id], g, src) {
      var k := Split(rows[id].path)[|Split(src)|..];
      RewrittenIsBelow(src, dst, rows[id].path);
      assert Split(src) + k == Split(rows[id].path);
      AttachKey(Detach(v, Split(src)), Split(dst), k);
    } else {
      MovedApart(rows, g, src, dst, fold, id);
    }
  }

  /** A row that the statement leaves alone is not below the destination. */
  lemma MovedApart(rows: Table, g: nat, src: string, dst: string, fold: char -> char, id: nat)
    requires TableOk(rows, fold) && Clean(dst) && MayMove(rows, g, src, dst)
    requires id in rows && In(rows[id], g, None)
    ensures !(Split(dst) <= Split(rows[id].path))
  {
    hide EntryOk, Clean, Split, UniqueRows;
    CleanNamed(dst);
    BelowIsSubtree(dst, rows[id].path);
    NoneBelow(rows, fold, g, dst, id);
  }

  lemma RenamedViewIn(rows: Table, g: nat, src: string, dst: string, fold: char -> char, p: Path)
    requires TableOk(rows, fold) && EntriesOk(rows, fold) && UniqueRows(rows) && Clean(dst) && MayMove(rows, g, src, dst)
    requires UniqueRows(MovedTable(rows, g, src, dst, fold)) && p in Renamed(View(rows, g, None), Split(src), Split(dst))
    ensures p in View(MovedTable(rows, g, src, dst, fold), g, None)
  {
    hide EntryOk, MovedTable, Clean, MayMove, UniqueRows, EntriesOk, Below, TableOk, View, Split;
    var t, v := MovedTable(rows, g, src, dst, fold), View(rows, g, None);
    MovedKeys(rows, g, src, dst, fold);
    var moved := p in Attach(Detach(v, Split(src)), Split(dst));
    var q := if moved then Split(src) + p[|Split(dst)|..] else p;
    var id := ViewFrom(rows, g, None, q);
    MovedRow(rows, g, src, dst, fold, id);
    BelowIsSubtree(src, rows[id].path);
    if moved {
      RewrittenIsBelow(src, dst, rows[id].path);
      assert q[|Split(src)|..] == p[|Split(dst)|..];
    }
    ViewHas(t, g, None, id);
  }

  /****** the statements of trash and restore ******/

  function HiddenTable(rows: Table, g: nat, root: string, t: Id): Table {
    map id | id in rows :: if Selected(rows[id], g, root) then rows[id].(trashId := Some(t)) else rows[id]
  }

  function UnhiddenTable(rows: Table, g: nat, t: Id): Table {
    map id | id in rows :: if In(rows[id], g, Some(t)) then rows[id].(trashId := None) else rows[id]
  }

  /** No row of the generation is hidden under `t` yet. */
  predicate FreshTrash(rows: Table, g: nat, t: Id) {
    forall id | id in rows :: !In(rows[id], g, Some(t))
  }

  /** A row about to come back has a path that a shown row already has. */
  predicate Collides(rows: Table, g: nat, t: Id) {
    exists id, id' | id in rows && id' in rows ::
      In(rows[id], g, Some(t)) && In(rows[id'], g, None) && rows[id].path == rows[id'].path
  }

  predicate AnySelected(rows: Table, g: nat, root: string) {
    exists id | id in rows :: Selected(rows[id], g, root)
  }

  /** Unhiding gives back exactly the rows that hiding took, in every column. */
  lemma HideThenUnhide(rows: Table, g: nat, root: string, t: Id)
    requires FreshTrash(rows, g, t)
    ensures UnhiddenTable(HiddenTable(rows, g, root, t), g, t) == rows
  {
    hide Below;
    var h := HiddenTable(rows, g, root, t);
    var u := UnhiddenTable(h, g, t);
    forall id | id in rows ensures u[id] == rows[id] {
      assert h[id].trashId == (if Selected(rows[id], g, root) then Some(t) else rows[id].trashId);
    }
  }

  lemma HiddenRow(rows: Table, g: nat, root: string, t: Id, id: nat)
    requires id in rows
    ensures var e := HiddenTable(rows, g, root, t)[id];
      && e == rows[id].(trashId := e.trashId)
      && e.trashId == if Selected(rows[id], g, root) then Some(t) else rows[id].trashId
  {
    hide Below;
  }

  lemma HideKeepsUnique(rows: Table, g: nat, root: string, t: Id)
    requires UniqueRows(rows) && FreshTrash(rows, g, t)
    ensures UniqueRows(HiddenTable(rows, g, root, t))
  {
    hide Below;
    var h := HiddenTable(rows, g, root, t);
    forall k, o, id, id', p | At(h, id, k, o, p) && At(h, id', k, o, p) ensures id == id' {
      HiddenRow(rows, g, root, t, id);
      HiddenRow(rows, g, root, t, id');
      var before := rows[id].trashId;
      assert At(rows, id, k, before, p) && At(rows, id', k, before, p);
    }
  }

  lemma HideKeepsTable(rows: Table, g: nat, root: string, t: Id, fold: char -> char)
    requires TableOk(rows, fold) && FreshTrash(rows, g, t)
    ensures TableOk(HiddenTable(rows, g, root, t), fold)
  {
    hide UniqueRows, Below, FreshTrash, ParentPath, BaseName, Clean;
    var h := HiddenTable(rows, g, root, t);
    HideKeepsUnique(rows, g, root, t);
    forall k, id | id in h && In(h[id], k, None) && h[id].parent != "" ensures DirectoryAt(h, k, h[id].parent) {
      HiddenRow(rows, g, root, t, id);
      assert ParentsShown(rows, k);
      var j :| j in rows && At(rows, j, k, None, rows[id].parent) && rows[j].meta.DirMeta?;
      HiddenRow(rows, g, root, t, j);
      if Below(root, rows[j].path) { ChildBelow(root, rows[id].path); }
      assert At(h, j, k, None, h[id].parent);
    }
  }

  /** Hiding takes the component subtree out of what readers see, and keeps it. */
  lemma HideIsWithout(rows: Table, g: nat, root: string, t: Id)
    requires UniqueRows(rows) && FreshTrash(rows, g, t)
    ensures UniqueRows(HiddenTable(rows, g, root, t))
    ensures View(HiddenTable(rows, g, root, t), g, None) == Without(View(rows, g, None), Split(root))
    ensures View(HiddenTable(rows, g, root, t), g, Some(t)) == Under(View(rows, g, None), Split(root))
  {
    hide Below, UniqueRows, View, Split;
    HideKeepsUnique(rows, g, root, t);
    var h, v := HiddenTable(rows, g, root, t), View(rows, g, None);
    var shown, taken := View(h, g, None), View(h, g, Some(t));
    forall p | p in shown ensures p in Without(v, Split(root)) && v[p] == shown[p] {
      var id := ViewFrom(h, g, None, p);
      BelowIsSubtree(root, rows[id].path);
      ViewHas(rows, g, None, id);
    }
    forall p | p in taken ensures p in Under(v, Split(root)) && v[p] == taken[p] {
      var id := ViewFrom(h, g, Some(t), p);
      BelowIsSubtree(root, rows[id].path);
      ViewHas(rows, g, None, id);
    }
    forall p | p in v ensures if Split(root) <= p then p in taken else p in shown {
      var id := ViewFrom(rows, g, None, p);
      BelowIsSubtree(root, rows[id].path);
      ViewHas(h, g, if Split(root) <= p then Some(t) else None, id);
    }
    assert shown.Keys == Without(v, Split(root)).Keys;
    assert taken.Keys == Under(v, Split(root)).Keys;
  }

  lemma UnhiddenRow(rows: Table, g: nat, t: Id, id: nat)
    requires id in rows
    ensures var e := UnhiddenTable(rows, g, t)[id];
      && e == rows[id].(trashId := e.trashId)
      && e.trashId == if In(rows[id], g, Some(t)) then None else rows[id].trashId
  {
  }

  lemma UnhideKeepsUnique(rows: Table, g: nat, t: Id)
    requires UniqueRows(rows)
    ensures UniqueRows(UnhiddenTable(rows, g, t)) <==> !Collides(rows, g, t)
  {
    var u := UnhiddenTable(rows, g, t);
    if !Collides(rows, g, t) {
      forall k, o, id, id', p | At(u, id, k, o, p) && At(u, id', k, o, p) ensures id == id' {
        UnhiddenRow(rows, g, t, id);
        UnhiddenRow(rows, g, t, id');
        assert At(rows, id, k, rows[id].trashId, p) && At(rows, id', k, rows[id'].trashId, p);
      }
    } else {
      var id, id' :| id in rows && id' in rows && In(rows[id], g, Some(t)) && In(rows[id'], g, None) && rows[id].path == rows[id'].path;
      assert At(u, id, g, None, rows[id].path) && At(u, id', g, None, rows[id].path);
    }
  }

  /** Unhiding adds the hidden rows to what readers see. */
  lemma UnhideIsUnion(rows: Table, g: nat, t: Id)
    requires UniqueRows(rows) && !Collides(rows, g, t)
    ensures UniqueRows(UnhiddenTable(rows, g, t))
    ensures View(UnhiddenTable(rows, g, t), g, None) == View(rows, g, None) + View(rows, g, Some(t))
    ensures View(UnhiddenTable(rows, g, t), g, Some(t)) == map[]
  {
    hide UniqueRows, View, Split, Collides;
    UnhideKeepsUnique(rows, g, t);
    var u, v, h := UnhiddenTable(rows, g, t), View(rows, g, None), View(rows, g, Some(t));
    var w := View(u, g, None);
    forall p | p in w ensures p in v + h {
      var id := ViewFrom(u, g, None, p);
      ViewHas(rows, g, rows[id].trashId, id);
    }
    forall p | p in v + h ensures p in w && w[p] == (v + h)[p] {
      var id := ViewFrom(rows, g, if p in h then Some(t) else None, p);
      ViewHas(u, g, None, id);
    }
    forall p ensures p !in View(u, g, Some(t)) {
      if p in View(u, g, Some(t)) {
        var id := ViewFrom(u, g, Some(t), p);
      }
    }
    assert w.Keys == (v + h).Keys;
  }

  /****** the checks, in the protocol's terms ******/

  /** A statement of trash or restore finds rows, or a collision, exactly when the tables
      that readers see have them: the guards of the protocol's commit steps. */
  lemma TrashGuardsAreSteps(rows: Table, g: nat, root: string, t: Id)
    requires UniqueRows(rows)
    ensures AnySelected(rows, g, root) <==> Under(View(rows, g, None), Split(root)) != map[]
    ensures FreshTrash(rows, g, t) <==> View(rows, g, Some(t)) == map[]
    ensures Collides(rows, g, t) <==> !(View(rows, g, Some(t)).Keys !! View(rows, g, None).Keys)
  {
    hide UniqueRows, View, Split, Below;
    var shown, hidden := View(rows, g, None), View(rows, g, Some(t));
    forall id | id in rows && Selected(rows[id], g, root) ensures Split(rows[id].path) in Under(shown, Split(root)) {
      BelowIsSubtree(root, rows[id].path);
      ViewHas(rows, g, None, id);
    }
    forall p | p in Under(shown, Split(root)) ensures AnySelected(rows, g, root) {
      var id := ViewFrom(rows, g, None, p);
      BelowIsSubtree(root, rows[id].path);
      assert Selected(rows[id], g, root);
    }
    forall id | id in rows && In(rows[id], g, Some(t)) ensures Split(rows[id].path) in hidden {
      ViewHas(rows, g, Some(t), id);
    }
    forall p | p in hidden ensures !FreshTrash(rows, g, t) {
      var id := ViewFrom(rows, g, Some(t), p);
    }
    CollisionsSeen(rows, g, t);
  }

  lemma CollisionsSeen(rows: Table, g: nat, t: Id)
    requires UniqueRows(rows)
    ensures Collides(rows, g, t) <==> !(View(rows, g, Some(t)).Keys !! View(rows, g, None).Keys)
  {
    hide UniqueRows, View, Split;
    if Collides(rows, g, t) {
      var id, id' :| id in rows && id' in rows && In(rows[id], g, Some(t)) && In(rows[id'], g, None) && rows[id].path == rows[id'].path;
      ViewHas(rows, g, Some(t), id);
      ViewHas(rows, g, None, id');
    }
    forall p | p in View(rows, g, Some(t)) && p in View(rows, g, None) ensures Collides(rows, g, t) {
      var id := ViewFrom(rows, g, Some(t), p);
      var id' := ViewFrom(rows, g, None, p);
      SplitInjective(rows[id].path, rows[id'].path);
    }
  }


  lemma ShownInView(rows: Table, g: nat, p: string)
    requires UniqueRows(rows)
    ensures PathShown(rows, g, p) <==> Split(p) in View(rows, g, None)
    ensures DirectoryAt(rows, g, p) <==> Split(p) in View(rows, g, None) && View(rows, g, None)[Split(p)].DirMeta?
  {
    hide Split, View, UniqueRows;
    if Split(p) in View(rows, g, None) {
      var id := ViewFrom(rows, g, None, Split(p));
      SplitInjective(rows[id].path, p);
      assert At(rows, id, g, None, p);
    }
    if PathShown(rows, g, p) {
      var id :| id in rows && At(rows, id, g, None, p);
      ViewHas(rows, g, None, id);
    }
    if DirectoryAt(rows, g, p) {
      var id :| id in rows && At(rows, id, g, None, p) && rows[id].meta.DirMeta?;
      ViewHas(rows, g, None, id);
    }
  }

  /** requireAvailableInGeneration on strings is RowAvailable on components. */
  lemma AvailableIsRowAvailable(rows: Table, g: nat, p: string)
    requires UniqueRows(rows) && Clean(p)
    ensures Available(rows, g, p) <==> RowAvailable(View(rows, g, None), Split(p))
  {
    hide Split, View, UniqueRows, PathShown, DirectoryAt, Clean, ParentPath;
    ShownInView(rows, g, p);
    ShownInView(rows, g, ParentPath(p));
    ParentComponents(p);
  }

  lemma ParentComponents(p: string)
    requires Clean(p)
    ensures if ParentPath(p) == "" then |Split(p)| == 1 else |Split(p)| > 1 && Parent(Split(p)) == Split(ParentPath(p))
  {
    hide Split, LastSlash, Clean, ParentPath, BaseName;
    SplitParent(p);
    EmptySplit();
    NamedFirst(p);
    NoSlashNoParent(p);
    var up := Split(ParentPath(p));
    if LastSlash(p) >= 0 {
      assert Split(p)[..|Split(p)| - 1] == up;
      assert Split(p)[0] == up[0];
    }
  }

  lemma NamedFirst(p: string)
    requires Clean(p)
    ensures Split(p)[0] != ""
  {
  }

  lemma NoSlashNoParent(p: string)
    ensures LastSlash(p) < 0 ==> ParentPath(p) == ""
  {
  }

  lemma EmptySplit()
    ensures Split("") == [""]
  {
  }

  /****** the table as the repository updates it ******/

  /** The CHECK constraints on the lengths of the text columns. */
  predicate ChecksOk(e: Entry) {
    && 1 <= ByteLength(e.path) <= MAXIMUM_PATH_BYTES && ByteLength(e.parent) <= MAXIMUM_PATH_BYTES
    && 1 <= ByteLength(e.name) <= MAXIMUM_COMPONENT_BYTES && 1 <= ByteLength(e.normalizedName) <= MAXIMUM_COMPONENT_BYTES
    && 1 <= ByteLength(e.normalizedPath) <= MAXIMUM_PATH_BYTES
  }

  predicate AllChecksOk(rows: Table) {
    forall id | id in rows :: ChecksOk(rows[id])
  }

  /** Some updated row takes the old or the new path of another shown row. */
  predicate UniqueViolated(rows: Table, updated: Table)
    requires updated.Keys == rows.Keys
  {
    exists id, id' | id in rows && id' in rows && id != id' && In(rows[id], rows[id'].generation, None) && rows[id'].trashId.None? ::
      updated[id].path == updated[id'].path || (updated[id] != rows[id] && updated[id].path == rows[id'].path)
  }

  /** The parent of every row hidden under `t` is hidden with it or shown. */
  ghost predicate HiddenParents(rows: Table, g: nat, t: Id) {
    forall id | id in rows && In(rows[id], g, Some(t)) && rows[id].parent != "" ::
      DirectoryAt(rows, g, rows[id].parent)
      || exists j {:trigger At(rows, j, g, Some(t), rows[id].parent)} :: At(rows, j, g, Some(t), rows[id].parent) && rows[j].meta.DirMeta?
  }

  lemma UnhideKeepsTable(rows: Table, g: nat, t: Id, fold: char -> char)
    requires TableOk(rows, fold) && HiddenParents(rows, g, t) && !Collides(rows, g, t)
    ensures TableOk(UnhiddenTable(rows, g, t), fold)
  {
    hide UniqueRows, Collides, ParentPath, BaseName, Clean, In;
    var u := UnhiddenTable(rows, g, t);
    UnhideKeepsUnique(rows, g, t);
    forall id | id in u ensures EntryOk(u[id], fold) {
      UnhiddenRow(rows, g, t, id);
      assert EntryOk(rows[id], fold);
    }
    forall k, id | id in u && In(u[id], k, None) && u[id].parent != "" ensures DirectoryAt(u, k, u[id].parent) {
      UnhiddenParent(rows, g, t, k, id);
    }
  }

  lemma UnhiddenParent(rows: Table, g: nat, t: Id, k: nat, id: nat)
    requires ParentsShown(rows, k) && HiddenParents(rows, g, t) && id in rows
    requires var u := UnhiddenTable(rows, g, t); In(u[id], k, None) && u[id].parent != ""
    ensures var u := UnhiddenTable(rows, g, t); DirectoryAt(u, k, u[id].parent)
  {
    var u := UnhiddenTable(rows, g, t);
    UnhiddenRow(rows, g, t, id);
    var p := rows[id].parent;
    if DirectoryAt(rows, k, p) {
      var j :| j in rows && At(rows, j, k, None, p) && rows[j].meta.DirMeta?;
      UnhiddenRow(rows, g, t, j);
      assert At(u, j, k, None, p);
    } else {
      assert In(rows[id], g, Some(t)) && k == g;
      var j :| At(rows, j, g, Some(t), p) && rows[j].meta.DirMeta?;
      UnhiddenRow(rows, g, t, j);
      assert At(u, j, k, None, p);
    }
  }

  lemma InsertKeepsTable(rows: Table, id: nat, e: Entry, fold: char -> char)
    requires TableOk(rows, fold) && id !in rows && EntryOk(e, fold) && e.trashId.None? && Available(rows, e.generation, e.path)
    ensures TableOk(rows[id := e], fold)
  {
    hide EntryOk;
    var u := rows[id := e];
    forall g, t, i, i', p | At(u, i, g, t, p) && At(u, i', g, t, p) ensures i == i' {
      assert i != id ==> At(rows, i, g, t, p);
      assert i' != id ==> At(rows, i', g, t, p);
    }
    forall g, i | i in u && In(u[i], g, None) && u[i].parent != "" ensures DirectoryAt(u, g, u[i].parent) {
      assert e.parent == ParentPath(e.path) by { ParentColumn(e, fold); }
      assert i != id ==> ParentsShown(rows, g) && In(rows[i], g, None);
      assert DirectoryAt(rows, g, u[i].parent);
      var j :| j in rows && At(rows, j, g, None, u[i].parent) && rows[j].meta.DirMeta?;
      assert At(u, j, g, None, u[i].parent);
    }
  }

  lemma ParentColumn(e: Entry, fold: char -> char)
    requires EntryOk(e, fold)
    ensures e.parent == ParentPath(e.path)
  {
  }

  lemma InsertView(rows: Table, id: nat, e: Entry)
    requires UniqueRows(rows) && UniqueRows(rows[id := e]) && id !in rows && e.trashId.None?
    requires !PathShown(rows, e.generation, e.path)
    ensures View(rows[id := e], e.generation, None) == View(rows, e.generation, None)[Split(e.path) := e.meta]
  {
    hide View, Split, UniqueRows;
    var u, g := rows[id := e], e.generation;
    var v, w := View(rows, g, None), View(u, g, None);
    ViewHas(u, g, None, id);
    forall p | p in w && p != Split(e.path) ensures p in v && v[p] == w[p] {
      var i := ViewFrom(u, g, None, p);
      ViewHas(rows, g, None, i);
    }
    forall p | p in v ensures p in w {
      var i := ViewFrom(rows, g, None, p);
      ViewHas(u, g, None, i);
    }
    assert w.Keys == v[Split(e.path) := e.meta].Keys;
  }

  /****** the CHECK constraints, in the protocol's terms ******/

  lemma ChecksAreColumns(e: Entry, fold: char -> char)
    requires EntryOk(e, fold)
    ensures ChecksOk(e) <==> ColumnsHold(e.path, fold)
  {
  }

  /** A moved row passes the CHECKs exactly when the columns fit its rewritten path. */
  lemma MovedRowFits(rows: Table, g: nat, src: string, dst: string, fold: char -> char, id: nat)
    requires EntriesOk(rows, fold) && Clean(dst) && id in rows && Selected(rows[id], g, src)
    ensures Split(src) <= Split(rows[id].path) && MovedTable(rows, g, src, dst, fold).Keys == rows.Keys
    ensures ChecksOk(MovedTable(rows, g, src, dst, fold)[id]) <==>
      ColumnsFit(Split(dst) + Split(rows[id].path)[|Split(src)|..], fold)
  {
    hide EntryOk, ChecksOk, ColumnsHold, Split, Join, MovedTable, Clean;
    MovedKeys(rows, g, src, dst, fold);
    var r := MovedTable(rows, g, src, dst, fold)[id];
    MovedRow(rows, g, src, dst, fold, id);
    RewrittenIsBelow(src, dst, rows[id].path);
    ChecksAreColumns(r, fold);
    JoinSplit(r.path);
  }

  lemma MovedFit(rows: Table, g: nat, src: string, dst: string, fold: char -> char)
    requires TableOk(rows, fold) && AllChecksOk(rows) && Clean(dst)
    ensures EntriesOk(rows, fold) && UniqueRows(rows)
    ensures AllChecksOk(MovedTable(rows, g, src, dst, fold)) <==> MoveFits(View(rows, g, None), Split(src), Split(dst), fold)
  {
    hide EntryOk, ChecksOk, ColumnsFit, Split, Join, MovedTable, Clean, View, UniqueRows, TableOk, EntriesOk, Below;
    TableEntries(rows, fold);
    MovedKeys(rows, g, src, dst, fold);
    var t, v := MovedTable(rows, g, src, dst, fold), View(rows, g, None);
    if AllChecksOk(t) {
      forall q | q in v && Split(src) <= q ensures ColumnsFit(Split(dst) + q[|Split(src)|..], fold) {
        var id := ViewFrom(rows, g, None, q);
        BelowIsSubtree(src, rows[id].path);
        MovedRowFits(rows, g, src, dst, fold, id);
      }
    }
    if MoveFits(v, Split(src), Split(dst), fold) {
      forall id | id in t ensures ChecksOk(t[id]) {
        if Selected(rows[id], g, src) {
          ViewHas(rows, g, None, id);
          MovedRowFits(rows, g, src, dst, fold, id);
        } else {
          MovedRow(rows, g, src, dst, fold, id);
        }
      }
    }
  }

  /** The checks, the unique index and the CHECK constraints accept a move exactly when
      the protocol's commit step does. */
  lemma MoveGuardIsCommitGuard(rows: Table, g: nat, src: string, dst: string, fold: char -> char)
    requires TableOk(rows, fold) && AllChecksOk(rows) && Clean(dst)
    ensures EntriesOk(rows, fold) && UniqueRows(rows)
    ensures MayMove(rows, g, src, dst) && AllChecksOk(MovedTable(rows, g, src, dst, fold)) <==>
      var v := View(rows, g, None);
      Split(src) in v && RowAvailable(v, Split(dst)) && MoveFits(v, Split(src), Split(dst), fold)
  {
    hide Split, View, UniqueRows, PathShown, Available, Clean, RowAvailable, TableOk, EntriesOk, MovedTable, AllChecksOk, MoveFits;
    TableEntries(rows, fold);
    ShownInView(rows, g, src);
    AvailableIsRowAvailable(rows, g, dst);
    MovedFit(rows, g, src, dst, fold);
  }

  class FileEntries {
    var rows: Table
    var next: nat
    const fold: char -> char

    ghost predicate Valid()
      reads this
    {
      TableOk(rows, fold) && AllChecksOk(rows) && forall id | id in rows :: id < next
    }

    constructor (fold: char -> char)
      ensures Valid() && rows == map[] && this.fold == fold
    {
      this.rows, this.next, this.fold := map[], 1, fold;
    }

    /** insertActiveInTransaction */
    method InsertActive(e: Entry) returns (ok: bool)
      requires Valid()
      modifies this
      ensures Valid()
      ensures ok <==> ParsePath(e.path) && EntryOk(e, fold) && e.trashId.None? && ChecksOk(e) && Available(old(rows), e.generation, e.path)
      ensures ok ==>
        && UniqueRows(old(rows)) && UniqueRows(rows)
        && View(rows, e.generation, None) == View(old(rows), e.generation, None)[Split(e.path) := e.meta]
      ensures ok ==> old(next) !in old(rows) && rows == old(rows)[old(next) := e]
      ensures !ok ==> rows == old(rows)
    {
      hide EntryOk, Available, UniqueRows, View, ParentsShown, Split;
      TableEntries(rows, fold);
      ok := ParsePath(e.path) && EntryOk(e, fold) && e.trashId.None? && ChecksOk(e) && Available(rows, e.generation, e.path);
      if ok {
        InsertKeepsTable(rows, next, e, fold);
        TableEntries(rows[next := e], fold);
        assert !PathShown(rows, e.generation, e.path) by { FreePath(rows, e.generation, e.path); }
        InsertView(rows, next, e);
        rows, next := rows[next := e], next + 1;
      }
    }

    /** MoveSubtreeWithAuditAndRepair after the storage rename, which refuses a
        destination inside the source. */
    method MoveSubtree(g: nat, src: string, dst: string) returns (ok: bool)
      requires Valid() && Clean(dst) && !Below(src, dst)
      modifies this
      ensures Valid()
      ensures EntriesOk(old(rows), fold)
      ensures ok <==> MayMove(old(rows), g, src, dst) && AllChecksOk(MovedTable(old(rows), g, src, dst, fold))
      ensures ok ==>
        && UniqueRows(old(rows)) && UniqueRows(rows)
        && View(rows, g, None) == Renamed(View(old(rows), g, None), Split(src), Split(dst))
      ensures rows.Keys == old(rows).Keys
      ensures forall id | id in rows && !Selected(old(rows)[id], g, src) :: rows[id] == old(rows)[id]
      ensures !ok ==> rows == old(rows)
    {
      hide EntryOk, MayMove, UniqueRows, View, ParentsShown, Split, Renamed, TableOk, EntriesOk, MovedTable, Selected, Below, Clean;
      assert EntriesOk(rows, fold) && UniqueRows(rows) by { TableEntries(rows, fold); }
      if !MayMove(rows, g, src, dst) { return false; }
      var moved := MovedTable(rows, g, src, dst, fold);
      MovedKeys(rows, g, src, dst, fold);
      assert !UniqueViolated(rows, moved) by { MoveUniqueHolds(rows, g, src, dst, fold); }
      if UniqueViolated(rows, moved) || !AllChecksOk(moved) { return false; }
      MoveKeepsTable(rows, g, src, dst, fold);
      MoveIsRename(rows, g, src, dst, fold);
      forall id | id in rows && !Selected(rows[id], g, src) ensures moved[id] == rows[id] {
        MovedRow(rows, g, src, dst, fold, id);
      }
      rows, ok := moved, true;
    }

    /** The UPDATE of CommitTrashWithAudit. What it means is stated for a trash id that
        hides nothing yet; nothing in the table stops a second use of an id. */
    method HideSubtree(g: nat, root: string, t: Id) returns (ok: bool)
      requires Valid()
      modifies this
      ensures ok <==> AnySelected(old(rows), g, root)
      ensures rows == if ok then HiddenTable(old(rows), g, root, t) else old(rows)
      ensures FreshTrash(old(rows), g, t) || !ok ==> Valid() && UniqueRows(old(rows)) && UniqueRows(rows)
      ensures FreshTrash(old(rows), g, t) && ok ==>
        && View(rows, g, None) == Without(View(old(rows), g, None), Split(root))
        && View(rows, g, Some(t)) == Under(View(old(rows), g, None), Split(root))
        && UnhiddenTable(rows, g, t) == old(rows)
    {
      hide UniqueRows, View, ParentsShown, Split, EntriesOk, TableOk, HiddenTable, UnhiddenTable, AnySelected, FreshTrash, AllChecksOk;
      TableEntries(rows, fold);
      ok := AnySelected(rows, g, root);
      if ok {
        if FreshTrash(rows, g, t) {
          HideKeepsTable(rows, g, root, t, fold);
          HideIsWithout(rows, g, root, t);
          HideThenUnhide(rows, g, root, t);
        }
        HiddenChecks(rows, g, root, t);
        rows := HiddenTable(rows, g, root, t);
      }
    }

    /** The UPDATE of FinishRestoreWithAudit, refused by the unique index on a collision.
        The parents of the rows are not checked. */
    method Unhide(g: nat, t: Id) returns (ok: bool)
      requires Valid()
      modifies this
      ensures UniqueRows(old(rows)) && UniqueRows(rows)
      ensures HiddenParents(old(rows), g, t) || !ok ==> Valid()
      ensures ok <==> !FreshTrash(old(rows), g, t) && !Collides(old(rows), g, t)
      ensures ok ==>
        && rows == UnhiddenTable(old(rows), g, t)
        && View(rows, g, None) == View(old(rows), g, None) + View(old(rows), g, Some(t))
        && View(rows, g, Some(t)) == map[]
      ensures !ok ==> rows == old(rows)
    {
      hide UniqueRows, View, ParentsShown, EntriesOk, TableOk, UnhiddenTable, Collides, HiddenParents, FreshTrash, AllChecksOk, Split;
      TableEntries(rows, fold);
      ok := !FreshTrash(rows, g, t) && !Collides(rows, g, t);
      if ok {
        if HiddenParents(rows, g, t) { UnhideKeepsTable(rows, g, t, fold); }
        UnhideIsUnion(rows, g, t);
        UnhiddenChecks(rows, g, t);
        rows := UnhiddenTable(rows, g, t);
      }
    }
  }

  lemma FreePath(rows: Table, g: nat, p: string)
    requires Available(rows, g, p)
    ensures !PathShown(rows, g, p)
  {
  }

  lemma MoveUniqueHolds(rows: Table, g: nat, src: string, dst: string, fold: char -> char)
    requires TableOk(rows, fold) && Clean(dst) && MayMove(rows, g, src, dst)
    ensures EntriesOk(rows, fold) && MovedTable(rows, g, src, dst, fold).Keys == rows.Keys
    ensures !UniqueViolated(rows, MovedTable(rows, g, src, dst, fold))
  {
    hide EntryOk, MayMove, UniqueRows, ParentsShown, TableOk, EntriesOk, MovedTable, Selected, Clean;
    TableEntries(rows, fold);
    MovedKeys(rows, g, src, dst, fold);
    var t := MovedTable(rows, g, src, dst, fold);
    forall id, id' | id in rows && id' in rows && id != id' && In(rows[id], rows[id'].generation, None) && rows[id'].trashId.None?
      ensures t[id].path != t[id'].path && (t[id] != rows[id] ==> t[id].path != rows[id'].path)
    {
      MovedRow(rows, g, src, dst, fold, id);
      MoveCollidesNever(rows, g, src, dst, fold, id, id');
    }
  }

  lemma HiddenChecks(rows: Table, g: nat, root: string, t: Id)
    requires AllChecksOk(rows)
    ensures AllChecksOk(HiddenTable(rows, g, root, t)) && HiddenTable(rows, g, root, t).Keys == rows.Keys
  {
    forall id | id in rows ensures ChecksOk(HiddenTable(rows, g, root, t)[id]) {
      HiddenRow(rows, g, root, t, id);
      assert ChecksOk(rows[id]);
    }
  }

  lemma UnhiddenChecks(rows: Table, g: nat, t: Id)
    requires AllChecksOk(rows)
    ensures AllChecksOk(UnhiddenTable(rows, g, t)) && UnhiddenTable(rows, g, t).Keys == rows.Keys
  {
    forall id | id in rows ensures ChecksOk(UnhiddenTable(rows, g, t)[id]) {
      UnhiddenRow(rows, g, t, id);
      assert ChecksOk(rows[id]);
    }
  }
}
