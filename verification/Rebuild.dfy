/** The rebuild loop over the walked storage, and what the activated generation shows. */
module Rebuild {
  import opened Paths
  import opened World
  import opened Invariant
  import opened LogicalPath
  import opened IndexRows
  import opened Ordering
  import opened Reindex

  /** The primary key order of trash_entries. */
  ghost predicate ById(trash: seq<TrashItem>) {
    && (forall i, j | 0 <= i < j < |trash| :: Less(trash[i].id, trash[j].id))
    && (forall i | 0 <= i < |trash| :: trash[i].id != "")
  }

  /** Every listed row is settled and its payload was found, so its walk can start. */
  ghost predicate Settled(trash: seq<TrashItem>) {
    forall i | 0 <= i < |trash| :: trash[i].state == Trashed && trash[i].payload.Some?
  }

  /** At most `limit` of the rows after the key, in key order, and all of them when fewer. */
  ghost predicate PageAfter(page: seq<TrashItem>, trash: seq<TrashItem>, after: Id, limit: nat) {
    && |page| <= limit && ById(page)
    && (forall e | e in page :: e in trash && Less(after, e.id))
    && (|page| < limit ==> forall e | e in trash && Less(after, e.id) :: e in page)
  }

  /** ListTrashForReindex: WHERE id > after ORDER BY id LIMIT limit. */
  method ListTrash(trash: seq<TrashItem>, after: Id, limit: nat) returns (page: seq<TrashItem>, ghost skipped: nat)
    requires ById(trash)
    ensures skipped <= |trash| && |page| == (if |trash| - skipped < limit then |trash| - skipped else limit)
    ensures page == trash[skipped..skipped + |page|]
    ensures forall i | 0 <= i < |trash| :: Less(after, trash[i].id) <==> skipped <= i
    ensures PageAfter(page, trash, after, limit)
  {
    hide PageAfter;
    var k := 0;
    while k < |trash| && !Less(after, trash[k].id)
      invariant k <= |trash|
      invariant forall i | 0 <= i < k :: !Less(after, trash[i].id)
    {
      k := k + 1;
    }
    forall i | k <= i < |trash| ensures Less(after, trash[i].id) {
      if i > k { LessTransitive(after, trash[k].id, trash[i].id); }
    }
    skipped := k;
    page := if |trash| - k < limit then trash[k..] else trash[k..k + limit];
    PageIsAfter(page, trash, after, limit, k);
  }

  lemma PageIsAfter(page: seq<TrashItem>, trash: seq<TrashItem>, after: Id, limit: nat, k: nat)
    requires ById(trash) && k <= |trash| && page == if |trash| - k < limit then trash[k..] else trash[k..k + limit]
    requires forall i | 0 <= i < |trash| :: Less(after, trash[i].id) <==> k <= i
    ensures PageAfter(page, trash, after, limit)
  {
    hide Less;
    if |page| < limit {
      forall e | e in trash && Less(after, e.id) ensures e in page {
        var i :| 0 <= i < |trash| && trash[i] == e;
        assert page[i - k] == e;
      }
    }
  }

  /** NewEntry made every row. */
  ghost predicate AllAccepted(entries: seq<Entry>, fold: char -> char) {
    forall e | e in entries :: NewEntryOk(e.path, fold)
  }

  /** Every row is what NewEntry makes of its path. */
  ghost predicate AllMade(entries: seq<Entry>, fold: char -> char) {
    forall e | e in entries :: e == NewEntry(e.path, e.meta, e.trashId, fold)
  }

  /** No two shown rows have the same path. */
  ghost predicate DistinctShown(entries: seq<Entry>) {
    forall i, j | 0 <= i < j < |entries| && entries[i].trashId.None? && entries[j].trashId.None? :: entries[i].path != entries[j].path
  }

  /** The parent of every shown row is a shown directory. */
  ghost predicate NoOrphans(entries: seq<Entry>) {
    forall e | e in entries && e.trashId.None? && e.parent != "" ::
      exists d :: d in entries && d.trashId.None? && d.path == e.parent && d.meta.DirMeta?
  }

  /** No row is refused. */
  ghost predicate Insertable(entries: seq<Entry>, fold: char -> char) {
    AllAccepted(entries, fold) && DistinctShown(entries)
  }

  ghost function AllRows(items: seq<Item>, trash: seq<TrashItem>, fold: char -> char): seq<Entry> {
    Wanted(items, "", None, fold) + WantedTrash(trash, fold)
  }

  /** What the walks report can become a generation. */
  ghost predicate Buildable(items: seq<Item>, trash: seq<TrashItem>, fold: char -> char) {
    Settled(trash) && Insertable(AllRows(items, trash, fold), fold) && NoOrphans(AllRows(items, trash, fold))
  }

  lemma InsertablePrefix(a: seq<Entry>, b: seq<Entry>, fold: char -> char)
    requires Insertable(a + b, fold)
    ensures Insertable(a, fold)
  {
    hide NewEntryOk;
    forall e | e in a ensures NewEntryOk(e.path, fold) {
      assert e in a + b;
    }
    forall i, j | 0 <= i < j < |a| && a[i].trashId.None? && a[j].trashId.None? ensures a[i].path != a[j].path {
      assert (a + b)[i] == a[i] && (a + b)[j] == a[j];
    }
  }

  /** A row that NewEntry made passes validateEntry and the CHECK constraints. */
  lemma MadeRowOk(e: Entry, fold: char -> char)
    requires NewEntryOk(e.path, fold) && e == NewEntry(e.path, e.meta, e.trashId, fold)
    ensures ParsePath(e.path) && EntryOk(e, fold) && ChecksOk(e)
  {
    hide ParsePath, Clean, ColumnsHold;
    ParsedIsClean(e.path);
    AcceptedIsHeld(e.path, fold);
    ChecksAreColumns(e, fold);
  }

  /** Only a path that was sent before can be taken. */
  lemma TakenIsClash(before: Table, first: nat, g: nat, sent: seq<Entry>, k: nat)
    requires forall id | id in before :: id < first && before[id].generation != g
    requires k < |sent| && ShownPathTaken(WithBatch(before, first, g, sent[..k]), sent[k].(generation := g))
    ensures !DistinctShown(sent)
  {
    hide WithBatch;
    BatchRows(before, first, g, sent[..k]);
    var rows := WithBatch(before, first, g, sent[..k]);
    var id :| id in rows && In(rows[id], g, None) && rows[id].path == sent[k].path;
    var i := id - first;
    assert rows[first + i] == sent[..k][i].(generation := g) && sent[..k][i] == sent[i];
  }

  lemma UniqueIsDistinct(before: Table, first: nat, g: nat, sent: seq<Entry>)
    requires forall id | id in before :: id < first
    requires UniqueShown(WithBatch(before, first, g, sent))
    ensures DistinctShown(sent)
  {
    hide WithBatch;
    BatchRows(before, first, g, sent);
    var rows := WithBatch(before, first, g, sent);
    forall i, j | 0 <= i < j < |sent| && sent[i].trashId.None? && sent[j].trashId.None? ensures sent[i].path != sent[j].path {
      assert rows[first + i] == sent[i].(generation := g) && rows[first + j] == sent[j].(generation := g);
      assert At(rows, first + i, g, None, sent[i].path) && At(rows, first + j, g, None, sent[j].path);
    }
  }

  lemma DirectoryOfBatch(before: Table, first: nat, g: nat, sent: seq<Entry>, p: string)
    requires forall id | id in before :: id < first && before[id].generation != g
    ensures DirectoryAt(WithBatch(before, first, g, sent), g, p) <==>
      exists d :: d in sent && d.trashId.None? && d.path == p && d.meta.DirMeta?
  {
    hide WithBatch;
    BatchRows(before, first, g, sent);
    var rows := WithBatch(before, first, g, sent);
    if DirectoryAt(rows, g, p) {
      var id :| id in rows && At(rows, id, g, None, p) && rows[id].meta.DirMeta?;
      var i := id - first;
      assert rows[first + i] == sent[i].(generation := g);
      assert sent[i] in sent;
    }
    if d :| d in sent && d.trashId.None? && d.path == p && d.meta.DirMeta? {
      var i :| 0 <= i < |sent| && sent[i] == d;
      assert rows[first + i] == sent[i].(generation := g);
      assert At(rows, first + i, g, None, p);
    }
  }

  /** The activation finds an orphan exactly when a sent row has no sent parent. */
  lemma OrphansAreSent(before: Table, first: nat, g: nat, sent: seq<Entry>)
    requires forall id | id in before :: id < first && before[id].generation != g
    ensures (forall id | id in WithBatch(before, first, g, sent) && WithBatch(before, first, g, sent)[id].generation == g ::
               !Orphan(WithBatch(before, first, g, sent), id))
            <==> NoOrphans(sent)
  {
    hide WithBatch, DirectoryAt;
    BatchRows(before, first, g, sent);
    var rows := WithBatch(before, first, g, sent);
    if forall id | id in rows && rows[id].generation == g :: !Orphan(rows, id) {
      forall e | e in sent && e.trashId.None? && e.parent != ""
        ensures exists d :: d in sent && d.trashId.None? && d.path == e.parent && d.meta.DirMeta?
      {
        var i :| 0 <= i < |sent| && sent[i] == e;
        assert rows[first + i] == sent[i].(generation := g);
        assert !Orphan(rows, first + i);
        DirectoryOfBatch(before, first, g, sent, e.parent);
      }
    }
    if NoOrphans(sent) {
      forall id | id in rows && rows[id].generation == g ensures !Orphan(rows, id) {
        var i := id - first;
        assert rows[first + i] == sent[i].(generation := g);
        assert sent[i] in sent;
        DirectoryOfBatch(before, first, g, sent, sent[i].parent);
      }
    }
  }

  lemma {:induction false} TrashPrefix(trash: seq<TrashItem>, k: nat, fold: char -> char) returns (rest: seq<Entry>)
    requires k <= |trash|
    ensures WantedTrash(trash, fold) == WantedTrash(trash[..k], fold) + rest
    decreases |trash| - k
  {
    hide Wanted;
    if k == |trash| {
      assert trash[..k] == trash;
      rest := [];
    } else {
      var more := TrashPrefix(trash, k + 1, fold);
      assert trash[..k + 1][..k] == trash[..k];
      var last := trash[k];
      rest := (if last.payload.Some? then Wanted(last.payload.value, last.path, Some(last.id), fold) else []) + more;
    }
  }

  class Rebuilder {
    const db: IndexDatabase
    var generation: nat
    var batch: seq<Entry>
    var indexed: nat
    ghost var sent: seq<Entry>
    ghost const before: Table
    ghost const first: nat

    /** The rows sent so far are in the table or in the batch, in order, in the only
        generation that is being built. */
    ghost predicate Valid()
      reads this, db
    {
      && db.Valid()
      && generation in db.generations && db.generations[generation].Building?
      && (forall h | h in db.generations && db.generations[h].Building? :: h == generation)
      && (forall id | id in before :: id < first && before[id].generation != generation)
      && indexed + |batch| == |sent| && batch == sent[indexed..] && |batch| < ROW_BATCH
      && db.nextRow == first + indexed && db.rows == WithBatch(before, first, generation, sent[..indexed])
      && AllAccepted(sent, db.fold) && AllMade(sent, db.fold)
    }

    constructor (db: IndexDatabase, g: nat)
      requires db.Valid() && g in db.generations && db.generations[g].Building?
      requires forall h | h in db.generations && db.generations[h].Building? :: h == g
      requires forall id | id in db.rows :: db.rows[id].generation != g
      ensures Valid() && this.db == db && generation == g && sent == [] && before == db.rows && first == db.nextRow
    {
      this.db, generation, batch, indexed, sent, before, first := db, g, [], 0, [], db.rows, db.nextRow;
      new;
      assert sent[..0] == [];
      EmptyBatch(before, first, generation);
    }

    method Flush() returns (r: Result)
      requires db.Valid() && generation in db.generations && db.generations[generation].Building?
      requires forall h | h in db.generations && db.generations[h].Building? :: h == generation
      requires forall id | id in before :: id < first && before[id].generation != generation
      requires indexed + |batch| == |sent| && batch == sent[indexed..] && |batch| <= ROW_BATCH
      requires db.nextRow == first + indexed && db.rows == WithBatch(before, first, generation, sent[..indexed])
      requires AllAccepted(sent, db.fold) && AllMade(sent, db.fold)
      modifies this, db
      ensures db.Valid() && db.Visible() == old(db.Visible()) && generation == old(generation) && sent == old(sent)
      ensures r.Done? ==> Valid() && batch == [] && indexed == |sent|
      ensures r.Refused? ==> !DistinctShown(sent)
      ensures db.calm ==> !r.Faulted?
    {
      hide AllAccepted, AllMade, WithBatch, IndexDatabase.Valid, IndexDatabase.Visible, EntryOk, ParsePath, ChecksOk, RowRefused, DistinctShown, SomeRowRefused;
      if |batch| == 0 { return Done; }
      r := db.InsertGenerationBatch(generation, batch);
      if r.Done? {
        WithBatches(before, first, generation, sent[..indexed], batch);
        assert sent[..indexed] + batch == sent == sent[..indexed + |batch|];
        indexed, batch := indexed + |batch|, [];
      } else if r.Refused? {
        RefusedIsClash(before, first, generation, sent, indexed, db.fold);
      }
    }

    method AppendEntry(path: string, meta: Meta, t: Option<Id>) returns (r: Result)
      requires Valid()
      modifies this, db
      ensures db.Valid() && db.Visible() == old(db.Visible()) && generation == old(generation)
      ensures r.Done? ==> Valid() && sent == old(sent) + [NewEntry(path, meta, t, db.fold)]
      ensures r.Refused? ==> !Insertable(old(sent) + [NewEntry(path, meta, t, db.fold)], db.fold)
      ensures db.calm ==> !r.Faulted?
    {
      hide WithBatch, NewEntryOk, DistinctShown;
      var e := NewEntry(path, meta, t, db.fold);
      if !NewEntryOk(path, db.fold) {
        assert e in sent + [e];
        return Refused;
      }
      assert (sent + [e])[..indexed] == sent[..indexed];
      batch, sent := batch + [e], sent + [e];
      assert batch == sent[indexed..];
      r := Done;
      if |batch| == ROW_BATCH {
        r := Flush();
      }
    }

    /** One walk below `base`. */
    method AppendItems(items: seq<Item>, base: string, t: Option<Id>) returns (r: Result)
      requires Valid()
      modifies this, db
      ensures db.Valid() && db.Visible() == old(db.Visible()) && generation == old(generation)
      ensures r.Done? ==> Valid() && sent == old(sent) + Wanted(items, base, t, db.fold)
      ensures r.Refused? ==> !Insertable(old(sent) + Wanted(items, base, t, db.fold), db.fold)
      ensures db.calm ==> !r.Faulted?
    {
      hide AllAccepted, AllMade, WithBatch, NewEntry, PathOf, Insertable;
      var wanted := Wanted(items, base, t, db.fold);
      for i := 0 to |items|
        invariant Valid() && db.Visible() == old(db.Visible()) && generation == old(generation)
        invariant sent == old(sent) + wanted[..i]
      {
        ghost var was := sent;
        r := AppendEntry(PathOf(base, items[i]), items[i].meta, t);
        assert old(sent) + wanted == (was + [wanted[i]]) + wanted[i + 1..];
        if !r.Done? {
          if r.Refused? && Insertable(old(sent) + wanted, db.fold) {
            InsertablePrefix(was + [wanted[i]], wanted[i + 1..], db.fold);
          }
          return;
        }
        assert wanted[..i + 1] == wanted[..i] + [wanted[i]];
      }
      assert wanted[..|items|] == wanted;
      r := Done;
    }

    /** rebuildTrash: keyset pages of trash entries, each walked in turn. */
    method AppendTrash(trash: seq<TrashItem>) returns (r: Result)
      requires Valid() && ById(trash)
      modifies this, db
      ensures db.Valid() && db.Visible() == old(db.Visible()) && generation == old(generation)
      ensures r.Done? ==> Valid() && sent == old(sent) + WantedTrash(trash, db.fold) && Settled(trash)
      ensures r.Refused? ==> !Settled(trash) || !Insertable(old(sent) + WantedTrash(trash, db.fold), db.fold)
      ensures db.calm ==> !r.Faulted?
    {
      hide WithBatch, Wanted, Valid, IndexDatabase.Valid, IndexDatabase.Visible, WantedTrash, Less, ById, Settled, PageAfter, Progress, Insertable;
      DatabaseValid(this);
      var after: Id := "";
      ghost var start, done := sent, 0;
      NoProgress(start, trash, db.fold);
      while true
        invariant Valid() && db.Valid() && db.Visible() == old(db.Visible()) && generation == old(generation)
        invariant done <= |trash| && Progress(start, sent, trash, done, after, db.fold)
        decreases |trash| - done
      {
        var page; ghost var skipped;
        page, skipped := ListTrash(trash, after, TRASH_BATCH);
        AfterIsDone(start, sent, trash, done, after, db.fold, skipped);
        for k := 0 to |page|
          invariant Valid() && db.Valid() && db.Visible() == old(db.Visible()) && generation == old(generation)
          invariant done == skipped + k && Progress(start, sent, trash, done, after, db.fold)
        {
          var item := page[k];
          if item.state != Trashed || item.payload.None? {
            NotSettled(trash, done);
            return Refused;
          }
          ghost var was := sent;
          r := AppendItems(item.payload.value, item.path, Some(item.id));
          if !r.Done? {
            if r.Refused? { RefusedWithin(start, was, trash, done, after, db.fold, item); }
            return;
          }
          MoreProgress(start, was, trash, done, after, db.fold, item);
          after, done := item.id, done + 1;
        }
        if |page| < TRASH_BATCH {
          AllProgress(start, sent, trash, after, db.fold);
          return Done;
        }
      }
    }
  }

  /** A batch of made rows is refused only for a path that was sent twice. */
  lemma RefusedIsClash(before: Table, first: nat, g: nat, sent: seq<Entry>, indexed: nat, fold: char -> char)
    requires indexed <= |sent| && AllAccepted(sent, fold) && AllMade(sent, fold)
    requires forall id | id in before :: id < first && before[id].generation != g
    requires SomeRowRefused(WithBatch(before, first, g, sent[..indexed]), first + indexed, g, sent[indexed..], fold)
    ensures !DistinctShown(sent)
  {
    hide WithBatch, EntryOk, ParsePath, ChecksOk, ShownPathTaken, NewEntry, NewEntryOk, DistinctShown;
    var batch, rows := sent[indexed..], WithBatch(before, first, g, sent[..indexed]);
    var i :| 0 <= i < |batch| && RowRefused(WithBatch(rows, first + indexed, g, batch[..i]), g, batch[i], fold);
    assert batch[i] in sent;
    MadeRowOk(batch[i], fold);
    WithBatches(before, first, g, sent[..indexed], batch[..i]);
    assert sent[..indexed] + batch[..i] == sent[..indexed + i];
    TakenIsClash(before, first, g, sent, indexed + i);
  }

  lemma NotSettled(trash: seq<TrashItem>, k: nat)
    requires k < |trash| && (trash[k].state != Trashed || trash[k].payload.None?)
    ensures !Settled(trash)
  {
  }

  lemma RefusedWithin(start: seq<Entry>, was: seq<Entry>, trash: seq<TrashItem>, done: nat, after: Id, fold: char -> char, item: TrashItem)
    requires done < |trash| && trash[done] == item && item.state == Trashed && item.payload.Some?
    requires Progress(start, was, trash, done, after, fold)
    requires !Insertable(was + Wanted(item.payload.value, item.path, Some(item.id), fold), fold)
    ensures !Insertable(start + WantedTrash(trash, fold), fold)
  {
    hide Wanted, WantedTrash, Insertable;
    MoreProgress(start, was, trash, done, after, fold, item);
    var rest := TrashPrefix(trash, done + 1, fold);
    var sent := start + WantedTrash(trash[..done + 1], fold);
    assert start + WantedTrash(trash, fold) == sent + rest;
    if Insertable(sent + rest, fold) { InsertablePrefix(sent, rest, fold); }
  }

  lemma DatabaseValid(r: Rebuilder)
    requires r.Valid()
    ensures r.db.Valid()
  {
  }

  /** The first `done` trash rows are settled and sent after `start`, and `after` is the last one's key. */
  ghost predicate Progress(start: seq<Entry>, sent: seq<Entry>, trash: seq<TrashItem>, done: nat, after: Id, fold: char -> char)
    requires done <= |trash|
  {
    && sent == start + WantedTrash(trash[..done], fold)
    && after == (if done == 0 then "" else trash[done - 1].id)
    && Settled(trash[..done])
  }

  lemma NoProgress(start: seq<Entry>, trash: seq<TrashItem>, fold: char -> char)
    ensures Progress(start, start, trash, 0, "", fold)
  {
  }

  lemma MoreProgress(start: seq<Entry>, sent: seq<Entry>, trash: seq<TrashItem>, done: nat, after: Id, fold: char -> char, item: TrashItem)
    requires done < |trash| && trash[done] == item && item.state == Trashed && item.payload.Some?
    requires Progress(start, sent, trash, done, after, fold)
    ensures Progress(start, sent + Wanted(item.payload.value, item.path, Some(item.id), fold), trash, done + 1, item.id, fold)
  {
    hide Wanted;
    var more := trash[..done + 1];
    assert more[..done] == trash[..done] && more[done] == item;
    WantedLast(more, done, fold);
  }

  lemma WantedLast(trash: seq<TrashItem>, done: nat, fold: char -> char)
    requires |trash| == done + 1 && trash[done].payload.Some?
    ensures WantedTrash(trash, fold) ==
      WantedTrash(trash[..done], fold) + Wanted(trash[done].payload.value, trash[done].path, Some(trash[done].id), fold)
  {
    hide Wanted;
  }

  lemma AllProgress(start: seq<Entry>, sent: seq<Entry>, trash: seq<TrashItem>, after: Id, fold: char -> char)
    requires Progress(start, sent, trash, |trash|, after, fold)
    ensures sent == start + WantedTrash(trash, fold) && Settled(trash)
  {
    hide WantedTrash;
    assert trash[..|trash|] == trash;
  }

  lemma AfterIsDone(start: seq<Entry>, sent: seq<Entry>, trash: seq<TrashItem>, done: nat, after: Id, fold: char -> char, skipped: nat)
    requires ById(trash) && done <= |trash| && skipped <= |trash| && Progress(start, sent, trash, done, after, fold)
    requires forall i | 0 <= i < |trash| :: Less(after, trash[i].id) <==> skipped <= i
    ensures skipped == done
  {
    hide WantedTrash, Settled;
    LessIrreflexive(after);
    assert done > 0 ==> !Less(after, trash[done - 1].id);
    assert done < |trash| ==> Less(after, trash[done].id);
  }

  lemma NewGenerationRows(before: Table, first: nat, g: nat, entries: seq<Entry>)
    requires forall id | id in before :: id < first && before[id].generation != g
    ensures GenerationRows(WithBatch(before, first, g, entries), g) == WithBatch(map[], first, g, entries)
  {
    hide WithBatch;
    BatchRows(before, first, g, entries);
    BatchRows(map[], first, g, entries);
    var a, b := WithBatch(before, first, g, entries), WithBatch(map[], first, g, entries);
    forall id | id in b ensures id in a && a[id].generation == g && a[id] == b[id] {
      var i := id - first;
      assert a[first + i] == entries[i].(generation := g) == b[first + i];
    }
    assert GenerationRows(a, g).Keys == b.Keys;
  }

  /** Deletes the obsolete rows batch by batch until a batch deletes none. */
  method Cleanup(db: IndexDatabase) returns (ok: bool)
    requires db.Valid() && forall h | h in db.generations :: !db.generations[h].Building?
    modifies db
    ensures db.Valid() && db.Visible() == old(db.Visible())
    ensures ok ==> db.generations.Keys == {db.active} && db.rows == GenerationRows(db.rows, db.active)
    ensures db.calm ==> ok
  {
    hide IndexDatabase.Visible, UniqueShown, ObsoleteRows;
    while true
      invariant db.Valid() && db.Visible() == old(db.Visible())
      invariant forall h | h in db.generations :: !db.generations[h].Building?
      decreases |db.rows|
    {
      var deleted: nat;
      ok, deleted := db.CleanupObsoleteBatch(CLEANUP_BATCH);
      if !ok { return; }
      if deleted == 0 { break; }
      var cancelled: bool := *;
      if cancelled && !db.calm { return false; }
    }
    assert db.active in db.generations;
    assert forall h | h in db.generations :: db.generations[h].Active?;
  }

  /** `files` is None when the walk of files/ fails, which is a fault. */
  method Run(db: IndexDatabase, files: Option<seq<Item>>, trash: seq<TrashItem>)
      returns (activated: bool, ok: bool, faulted: bool, ghost first: nat)
    requires db.Valid() && ById(trash)
    modifies db
    ensures db.Valid()
    ensures !activated ==> !ok && db.Visible() == old(db.Visible())
    ensures activated ==>
      && files.Some? && Buildable(files.value, trash, db.fold)
      && GenerationRows(db.rows, db.active) == WithBatch(map[], first, db.active, AllRows(files.value, trash, db.fold))
      && db.health.Healthy? && db.active !in old(db.generations)
    ensures !activated && !faulted ==> files.Some? && !Buildable(files.value, trash, db.fold)
    ensures db.calm && files.Some? ==> (activated <==> Buildable(files.value, trash, db.fold)) && (activated ==> ok) && !faulted
    ensures ok ==> db.generations.Keys == {db.active} && db.rows == GenerationRows(db.rows, db.active)
  {
    hide AllAccepted, AllMade, WithBatch, Wanted, WantedTrash, UniqueShown, Orphan, DistinctShown, NoOrphans, Settled, Insertable, Rebuilder.Valid;
    activated, ok, faulted, first := false, false, true, 0;
    var g := db.StartGeneration();
    if g.None? || files.None? { return; }
    var r := new Rebuilder(db, g.value);
    first := r.first;
    ghost var all := AllRows(files.value, trash, db.fold);
    assert [] + Wanted(files.value, "", None, db.fold) == Wanted(files.value, "", None, db.fold);
    var result := r.AppendItems(files.value, "", None);
    if !result.Done? {
      faulted := result.Faulted?;
      if result.Refused? && Insertable(all, db.fold) { InsertablePrefix(Wanted(files.value, "", None, db.fold), WantedTrash(trash, db.fold), db.fold); }
      return;
    }
    result := r.AppendTrash(trash);
    if !result.Done? { return false, false, result.Faulted?, first; }
    FlushReady(r);
    result := r.Flush();
    if !result.Done? {
      faulted := result.Faulted?;
      if result.Refused? { ClashIsFinal(all, db.fold); }
      return;
    }
    SentReady(r);
    result := db.ActivateGeneration(g.value, r.indexed);
    if !result.Done? { return false, false, result.Faulted?, first; }
    activated := true;
    NewGenerationRows(r.before, first, g.value, r.sent);
    ok := Cleanup(db);
    faulted := !ok;
  }

  lemma ClashIsFinal(entries: seq<Entry>, fold: char -> char)
    requires !DistinctShown(entries)
    ensures !Insertable(entries, fold)
  {
  }

  /** What the last flush asks for. */
  lemma FlushReady(r: Rebuilder)
    requires r.Valid()
    ensures r.db.Valid() && r.generation in r.db.generations && r.db.generations[r.generation].Building?
    ensures forall h | h in r.db.generations && r.db.generations[h].Building? :: h == r.generation
    ensures forall id | id in r.before :: id < r.first && r.before[id].generation != r.generation
    ensures r.indexed + |r.batch| == |r.sent| && r.batch == r.sent[r.indexed..] && |r.batch| <= ROW_BATCH
    ensures r.db.nextRow == r.first + r.indexed && r.db.rows == WithBatch(r.before, r.first, r.generation, r.sent[..r.indexed])
    ensures AllAccepted(r.sent, r.db.fold) && AllMade(r.sent, r.db.fold)
  {
    hide AllAccepted, AllMade, WithBatch, IndexDatabase.Valid;
  }

  /** With every row in the table, the count is right, the rows are insertable, and the
      activation finds an orphan exactly when a row has no parent. */
  lemma SentReady(r: Rebuilder)
    requires r.Valid() && r.batch == [] && r.indexed == |r.sent|
    ensures r.db.rows == WithBatch(r.before, r.first, r.generation, r.sent)
    ensures r.generation in r.db.generations && r.db.generations[r.generation].Building?
    ensures forall h | h in r.db.generations && r.db.generations[h].Building? :: h == r.generation
    ensures forall id | id in r.before :: id < r.first && r.before[id].generation != r.generation
    ensures |GenerationRows(r.db.rows, r.generation)| == r.indexed && Insertable(r.sent, r.db.fold)
    ensures (forall id | id in r.db.rows && r.db.rows[id].generation == r.generation :: !Orphan(r.db.rows, id)) <==> NoOrphans(r.sent)
  {
    hide AllAccepted, AllMade, WithBatch, Orphan, NoOrphans, UniqueShown, DistinctShown;
    assert r.sent[..r.indexed] == r.sent;
    BatchCount(r.before, r.first, r.generation, r.sent);
    OrphansAreSent(r.before, r.first, r.generation, r.sent);
    UniqueIsDistinct(r.before, r.first, r.generation, r.sent);
  }
}
