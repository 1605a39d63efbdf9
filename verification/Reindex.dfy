/** The offline rebuild of the index: a generation is built aside, activated in one
    transaction, and the obsolete ones are removed in batches. */
module Reindex {
  import opened Paths
  import opened World
  import opened LogicalPath
  import opened IndexRows
  import opened Ordering

  const ROW_BATCH: nat := 100
  const TRASH_BATCH: nat := 100
  const CLEANUP_BATCH: nat := 500

  datatype GenerationStatus = Building | Active | Obsolete

  /** One item that a walk of files/ or of a payload reports, with its relative path. */
  datatype Item = Item(path: string, meta: Meta)

  /** A row of trash_entries; `payload` is None when its walk fails. */
  datatype TrashItem = TrashItem(id: Id, path: string, state: TrashState, payload: Option<seq<Item>>)

  /****** entries from items ******/

  function NewEntry(path: string, meta: Meta, t: Option<Id>, fold: char -> char): Entry {
    Entry(0, path, ParentPath(path), BaseName(path), Fold(fold, BaseName(path)), Fold(fold, path), meta, t)
  }

  function PathOf(base: string, item: Item): string {
    if base == "" then item.path else if item.path == "" then base else base + "/" + item.path
  }

  /** The rows that a walk below `base` asks for. */
  function Wanted(items: seq<Item>, base: string, t: Option<Id>, fold: char -> char): (r: seq<Entry>)
    ensures |r| == |items|
  {
    seq(|items|, i requires 0 <= i < |items| => NewEntry(PathOf(base, items[i]), items[i].meta, t, fold))
  }

  /** The rows that the trash entries ask for, in order. */
  function WantedTrash(trash: seq<TrashItem>, fold: char -> char): seq<Entry> {
    if trash == [] then []
    else
      var last := trash[|trash| - 1];
      WantedTrash(trash[..|trash| - 1], fold)
      + (if last.payload.Some? then Wanted(last.payload.value, last.path, Some(last.id), fold) else [])
  }

  /****** tables that grow by numbered rows ******/

  /** `entries` inserted into generation `g` under the keys from `first` on. */
  function WithBatch(rows: Table, first: nat, g: nat, entries: seq<Entry>): Table {
    if entries == [] then rows
    else
      var n: nat := |entries| - 1;
      WithBatch(rows, first, g, entries[..n])[first + n := entries[n].(generation := g)]
  }

  lemma WithOneMore(rows: Table, first: nat, g: nat, entries: seq<Entry>, e: Entry)
    ensures WithBatch(rows, first, g, entries + [e]) == WithBatch(rows, first, g, entries)[first + |entries| := e.(generation := g)]
  {
    assert (entries + [e])[..|entries|] == entries;
  }

  lemma {:induction false} WithBatches(rows: Table, first: nat, g: nat, a: seq<Entry>, b: seq<Entry>)
    ensures WithBatch(WithBatch(rows, first, g, a), first + |a|, g, b) == WithBatch(rows, first, g, a + b)
  {
    if b == [] {
      assert a + b == a;
    } else {
      var n := |b| - 1;
      WithBatches(rows, first, g, a, b[..n]);
      assert (a + b)[..|a| + n] == a + b[..n];
    }
  }

  /** A batch holds its entries in order, and leaves the other rows alone. */
  lemma {:induction false} BatchRows(rows: Table, first: nat, g: nat, entries: seq<Entry>)
    requires forall id | id in rows :: id < first
    ensures var t := WithBatch(rows, first, g, entries);
      && (forall id :: id in t <==> id in rows || first <= id < first + |entries|)
      && (forall id | id in rows :: t[id] == rows[id])
      && (forall i | 0 <= i < |entries| :: t[first + i] == entries[i].(generation := g))
  {
    if entries != [] {
      BatchRows(rows, first, g, entries[..|entries| - 1]);
    }
  }

  function GenerationRows(rows: Table, g: nat): Table {
    map id | id in rows && rows[id].generation == g :: rows[id]
  }

  lemma BatchAside(rows: Table, first: nat, g: nat, entries: seq<Entry>, h: nat)
    requires g != h && forall id | id in rows :: id < first
    ensures GenerationRows(WithBatch(rows, first, g, entries), h) == GenerationRows(rows, h)
  {
    hide WithBatch;
    BatchRows(rows, first, g, entries);
    var t := WithBatch(rows, first, g, entries);
    forall id | id in t && id !in rows ensures t[id].generation == g {
      var i := id - first;
      assert t[first + i] == entries[i].(generation := g);
    }
  }

  lemma {:induction false} BatchCount(rows: Table, first: nat, g: nat, entries: seq<Entry>)
    requires forall id | id in rows :: id < first && rows[id].generation != g
    ensures |GenerationRows(WithBatch(rows, first, g, entries), g)| == |entries|
  {
    if entries == [] {
      assert |GenerationRows(rows, g).Keys| == 0;
    } else {
      var n: nat := |entries| - 1;
      BatchCount(rows, first, g, entries[..n]);
      BatchRows(rows, first, g, entries[..n]);
      CountOneMore(WithBatch(rows, first, g, entries[..n]), first + n, entries[n].(generation := g));
    }
  }

  lemma CountOneMore(rows: Table, id: nat, e: Entry)
    requires id !in rows
    ensures |GenerationRows(rows[id := e], e.generation)| == |GenerationRows(rows, e.generation)| + 1
  {
    assert GenerationRows(rows[id := e], e.generation) == GenerationRows(rows, e.generation)[id := e];
  }

  lemma EmptyBatch(rows: Table, first: nat, g: nat)
    ensures WithBatch(rows, first, g, []) == rows
  {
  }

  ghost predicate UniqueShown(rows: Table) {
    forall g, id, id', p :: At(rows, id, g, None, p) && At(rows, id', g, None, p) ==> id == id'
  }

  predicate ShownPathTaken(rows: Table, e: Entry) {
    e.trashId.None? && exists id | id in rows :: In(rows[id], e.generation, None) && rows[id].path == e.path
  }

  lemma InsertKeepsUnique(rows: Table, id: nat, e: Entry)
    requires UniqueShown(rows) && id !in rows && !ShownPathTaken(rows, e)
    ensures UniqueShown(rows[id := e])
  {
    var u := rows[id := e];
    forall g, i, i', p | At(u, i, g, None, p) && At(u, i', g, None, p) ensures i == i' {
      assert i != id ==> At(rows, i, g, None, p);
      assert i' != id ==> At(rows, i', g, None, p);
    }
  }

  /** A shown row whose parent is not a shown directory of its generation. */
  predicate Orphan(rows: Table, id: nat)
    requires id in rows
  {
    rows[id].trashId.None? && rows[id].parent != "" && !DirectoryAt(rows, rows[id].generation, rows[id].parent)
  }

  /** A call is refused for what it was given, or it fails for a reason of its own. */
  datatype Result = Done | Refused | Faulted

  /** The insert of one row of a batch is refused: by validateEntry, by a CHECK constraint
      or by the unique index. */
  predicate RowRefused(table: Table, g: nat, e: Entry, fold: char -> char) {
    !ParsePath(e.path) || !EntryOk(e, fold) || !ChecksOk(e) || ShownPathTaken(table, e.(generation := g))
  }

  ghost predicate SomeRowRefused(rows: Table, first: nat, g: nat, entries: seq<Entry>, fold: char -> char) {
    exists i | 0 <= i < |entries| :: RowRefused(WithBatch(rows, first, g, entries[..i]), g, entries[i], fold)
  }

  class IndexDatabase {
    var rows: Table
    var generations: map<nat, GenerationStatus>
    var active: nat
    var health: Health
    var nextRow: nat
    var nextGeneration: nat
    const fold: char -> char
    /** No call fails for a reason of its own. */
    const calm: bool

    ghost predicate Valid()
      reads this
    {
      && active in generations && generations[active].Active?
      && (forall g | g in generations :: g < nextGeneration && (generations[g].Active? ==> g == active))
      && (forall id | id in rows :: id < nextRow && rows[id].generation in generations)
      && UniqueShown(rows)
    }

    /** Everything that a reader can see: the active generation and the health flag. */
    ghost function Visible(): (Table, nat, Health)
      reads this
    {
      (GenerationRows(rows, active), active, health)
    }

    constructor (fold: char -> char, calm: bool)
      ensures Valid() && rows == map[] && health.Healthy? && this.fold == fold && this.calm == calm
    {
      this.fold, this.calm := fold, calm;
      rows, generations, active, health, nextRow, nextGeneration := map[], map[1 := Active], 1, Healthy, 1, 2;
    }

    method StartGeneration() returns (g: Option<nat>)
      requires Valid()
      modifies this
      ensures Valid() && Visible() == old(Visible()) && rows == old(rows) && nextRow == old(nextRow)
      ensures g.None? ==> generations == old(generations) && !calm
      ensures g.Some? ==>
        && g.value !in old(generations) && g.value in generations && generations[g.value].Building?
        && (forall h | h in generations && generations[h].Building? :: h == g.value)
        && (forall id | id in rows :: rows[id].generation != g.value)
    {
      var fault: bool := *;
      if fault && !calm { return None; }
      generations := map h | h in generations :: if generations[h].Building? then Obsolete else generations[h];
      generations := generations[nextGeneration := Building];
      g, nextGeneration := Some(nextGeneration), nextGeneration + 1;
    }

    /** All rows of the batch, or none. */
    method InsertGenerationBatch(g: nat, entries: seq<Entry>) returns (r: Result)
      requires Valid()
      modifies this
      ensures Valid()
      ensures r.Done? ==>
        && 0 < |entries| <= ROW_BATCH && g in generations && generations[g].Building?
        && (forall i | 0 <= i < |entries| :: ParsePath(entries[i].path) && EntryOk(entries[i], fold) && ChecksOk(entries[i]))
        && rows == WithBatch(old(rows), old(nextRow), g, entries) && nextRow == old(nextRow) + |entries|
      ensures r.Refused? ==>
        || |entries| == 0 || |entries| > ROW_BATCH || g !in generations || !generations[g].Building?
        || SomeRowRefused(old(rows), old(nextRow), g, entries, fold)
      ensures !r.Done? ==> rows == old(rows) && nextRow == old(nextRow)
      ensures calm ==> !r.Faulted?
      ensures generations == old(generations) && Visible() == old(Visible())
    {
      hide EntryOk, ParsePath, ChecksOk, UniqueShown, ShownPathTaken, WithBatch;
      if |entries| == 0 || |entries| > ROW_BATCH { return Refused; }
      if g !in generations || !generations[g].Building? { return Refused; }
      var table, key := rows, nextRow;
      EmptyBatch(rows, nextRow, g);
      assert entries[..0] == [];
      for i := 0 to |entries|
        modifies {}
        invariant key == nextRow + i && table == WithBatch(rows, nextRow, g, entries[..i])
        invariant UniqueShown(table)
        invariant forall id | id in table :: id < key && table[id].generation in generations
        invariant forall j | 0 <= j < i :: ParsePath(entries[j].path) && EntryOk(entries[j], fold) && ChecksOk(entries[j])
      {
        var fault: bool := *;
        if fault && !calm { return Faulted; }
        if RowRefused(table, g, entries[i], fold) { return Refused; }
        var e := entries[i].(generation := g);
        InsertKeepsUnique(table, key, e);
        WithOneMore(rows, nextRow, g, entries[..i], entries[i]);
        assert entries[..i + 1] == entries[..i] + [entries[i]];
        table, key := table[key := e], key + 1;
      }
      assert entries[..|entries|] == entries;
      BatchAside(rows, nextRow, g, entries, active);
      rows, nextRow, r := table, key, Done;
    }

    method ActivateGeneration(g: nat, expected: nat) returns (r: Result)
      requires Valid()
      modifies this
      ensures Valid() && rows == old(rows) && nextRow == old(nextRow)
      ensures r.Done? ==>
        && g in old(generations) && old(generations)[g].Building? && |GenerationRows(rows, g)| == expected
        && (forall id | id in rows && rows[id].generation == g :: !Orphan(rows, id))
        && active == g && health.Healthy?
        && (forall h :: h in generations <==> h in old(generations))
        && (forall h | h in generations && generations[h].Building? :: h != g && old(generations)[h].Building?)
      ensures r.Refused? ==>
        || g !in old(generations) || !old(generations)[g].Building? || |GenerationRows(rows, g)| != expected
        || exists id | id in rows :: rows[id].generation == g && Orphan(rows, id)
      ensures !r.Done? ==> Visible() == old(Visible()) && generations == old(generations)
      ensures calm ==> !r.Faulted?
    {
      hide UniqueShown, Orphan;
      var fault: bool := *;
      if fault && !calm { return Faulted; }
      if g !in generations || !generations[g].Building? { return Refused; }
      if |GenerationRows(rows, g)| != expected { return Refused; }
      if exists id | id in rows :: rows[id].generation == g && Orphan(rows, id) { return Refused; }
      generations := map h | h in generations :: if generations[h].Active? then Obsolete else generations[h];
      generations := generations[g := Active];
      active, health, r := g, Healthy, Done;
    }

    /** Removes the obsolete rows with the smallest keys, and generations left empty. */
    method CleanupObsoleteBatch(limit: nat) returns (ok: bool, deleted: nat)
      requires Valid() && 1 <= limit <= CLEANUP_BATCH
      modifies this
      ensures Valid() && Visible() == old(Visible())
      ensures !ok ==> rows == old(rows) && generations == old(generations) && !calm
      ensures |old(rows)| == |rows| + deleted
      ensures forall id | id in rows :: id in old(rows) && rows[id] == old(rows)[id]
      ensures forall id | id in old(rows) && id !in rows ::
        old(rows)[id].generation in old(generations) && old(generations)[old(rows)[id].generation].Obsolete?
      ensures ok ==> generations.Keys <= old(generations).Keys && forall h | h in generations :: generations[h] == old(generations)[h]
      ensures deleted <= limit && (ok && deleted < limit ==> ObsoleteRows(rows, old(generations)) == {})
      ensures forall id, kept | id in old(rows) && id !in rows && kept in ObsoleteRows(rows, old(generations)) :: id < kept
      ensures ok && deleted == 0 ==> forall h | h in generations :: !generations[h].Obsolete?
    {
      hide UniqueShown;
      var fault: bool := *;
      if fault && !calm { return false, 0; }
      var victims: set<nat>;
      victims := TakeLeast(ObsoleteRows(rows, generations), limit);
      deleted := |victims|;
      var kept := rows - victims;
      CleanedRows(rows, generations, victims, active);
      assert ObsoleteRows(kept, generations) == ObsoleteRows(rows, generations) - victims;
      var emptied := set h | h in generations && generations[h].Obsolete? && forall id | id in kept :: kept[id].generation != h;
      rows, generations := kept, generations - emptied;
      ok := true;
    }
  }

  function ObsoleteRows(rows: Table, generations: map<nat, GenerationStatus>): set<nat> {
    set id | id in rows && rows[id].generation in generations && generations[rows[id].generation].Obsolete?
  }

  predicate Precedes(a: set<nat>, b: set<nat>) {
    forall x, y | x in a && y in b :: x < y
  }

  predicate Least(id: nat, s: set<nat>) {
    forall other | other in s :: id <= other
  }

  lemma PrecedesMore(a: set<nat>, b: set<nat>, id: nat)
    requires Precedes(a, b) && id in b && Least(id, b)
    ensures Precedes(a + {id}, b - {id})
  {
  }

  /** The smallest keys of a set, at most `limit` of them. */
  method TakeLeast(s: set<nat>, limit: nat) returns (taken: set<nat>)
    ensures taken <= s && |taken| <= limit && (|taken| < limit ==> taken == s)
    ensures Precedes(taken, s - taken)
  {
    taken := {};
    while |taken| < limit && s - taken != {}
      invariant taken <= s && |taken| <= limit && Precedes(taken, s - taken)
      decreases limit - |taken|
    {
      LeastExists(s - taken);
      var id :| id in s - taken && Least(id, s - taken);
      PrecedesMore(taken, s - taken, id);
      assert s - (taken + {id}) == s - taken - {id};
      taken := taken + {id};
    }
  }

  lemma CleanedRows(rows: Table, generations: map<nat, GenerationStatus>, victims: set<nat>, active: nat)
    requires victims <= ObsoleteRows(rows, generations)
    requires active in generations && generations[active].Active?
    ensures UniqueShown(rows) ==> UniqueShown(rows - victims)
    ensures |rows| == |rows - victims| + |victims|
    ensures GenerationRows(rows - victims, active) == GenerationRows(rows, active)
  {
    var kept := rows - victims;
    if UniqueShown(rows) { SubtableUnique(rows, kept); }
    assert rows.Keys == kept.Keys + victims;
    assert |rows.Keys| == |kept.Keys| + |victims|;
  }

  lemma {:induction false} LeastExists(s: set<nat>)
    requires s != {}
    ensures exists least :: least in s && Least(least, s)
  {
    var x :| x in s;
    var rest := s - {x};
    if rest == {} {
      assert s == {x};
      assert Least(x, s);
    } else {
      LeastExists(rest);
      var y :| y in rest && Least(y, rest);
      var least := if x <= y then x else y;
      assert s == rest + {x};
      assert least in s && Least(least, s);
    }
  }

  lemma SubtableUnique(rows: Table, kept: Table)
    requires UniqueShown(rows) && kept.Keys <= rows.Keys && forall id | id in kept :: kept[id] == rows[id]
    ensures UniqueShown(kept)
  {
    forall g, id, id', p | At(kept, id, g, None, p) && At(kept, id', g, None, p) ensures id == id' {
      assert At(rows, id, g, None, p) && At(rows, id', g, None, p);
    }
  }
}
