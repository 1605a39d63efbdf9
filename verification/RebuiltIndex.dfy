/** The activated generation shows exactly the walked storage: the table rebuild is
    the protocol's reindex step. */
module RebuiltIndex {
  import opened Paths
  import opened World
  import opened Invariant
  import opened LogicalPath
  import opened IndexRows
  import opened Reindex
  import opened Ordering
  import opened Rebuild

  /****** items list a table ******/

  function KeyOf(item: Item): Path {
    if item.path == "" then [] else Split(item.path)
  }

  /** A walk reports every key of the table once, with what is there. */
  ghost predicate Lists(items: seq<Item>, t: Rows) {
    && (forall i, j | 0 <= i < j < |items| :: items[i].path != items[j].path)
    && (forall i | 0 <= i < |items| :: KeyOf(items[i]) in t && t[KeyOf(items[i])] == items[i].meta)
    && (forall p | p in t :: exists i :: 0 <= i < |items| && KeyOf(items[i]) == p)
  }

  ghost predicate ListsTrash(trash: seq<TrashItem>, payloads: map<Id, Tree>) {
    && (forall i, j | 0 <= i < j < |trash| :: trash[i].id != trash[j].id)
    && (forall i | 0 <= i < |trash| :: trash[i].path != "" && trash[i].payload.Some? && trash[i].id in payloads
          && Lists(trash[i].payload.value, MetaOf(payloads[trash[i].id])))
  }

  lemma SplitKeyed(base: string, item: Item)
    requires base != "" || item.path != ""
    ensures Split(PathOf(base, item)) == (if base == "" then [] else Split(base)) + KeyOf(item)
  {
    hide Split;
    if base != "" && item.path != "" {
      SplitConcat(base, item.path);
    }
  }

  lemma PathOfInjective(base: string, a: Item, b: Item)
    requires PathOf(base, a) == PathOf(base, b)
    ensures a.path == b.path
  {
    if base != "" {
      var p, q := PathOf(base, a), PathOf(base, b);
      assert a.path != "" ==> p[|base| + 1..] == a.path;
      assert b.path != "" ==> q[|base| + 1..] == b.path;
    }
  }

  /****** sequences of entries as tables ******/

  predicate SameKey(a: Entry, b: Entry) {
    a.trashId == b.trashId && a.path == b.path
  }

  ghost predicate DistinctKeys(entries: seq<Entry>) {
    forall i, j | 0 <= i < j < |entries| :: !SameKey(entries[i], entries[j])
  }

  /** Some entry under `t` describes `p` as `m`. */
  ghost predicate Describes(entries: seq<Entry>, t: Option<Id>, p: Path, m: Meta) {
    exists e :: e in entries && e.trashId == t && Split(e.path) == p && e.meta == m
  }

  lemma BatchUnique(first: nat, g: nat, entries: seq<Entry>)
    requires DistinctKeys(entries)
    ensures UniqueRows(WithBatch(map[], first, g, entries))
  {
    hide WithBatch;
    BatchRows(map[], first, g, entries);
    var rows := WithBatch(map[], first, g, entries);
    forall h: nat, t, id: nat, id': nat, p | At(rows, id, h, t, p) && At(rows, id', h, t, p) ensures id == id' {
      var i, i' := id - first, id' - first;
      assert rows[first + i] == entries[i].(generation := g) && rows[first + i'] == entries[i'].(generation := g);
      assert SameKey(entries[i], entries[i']) && SameKey(entries[i'], entries[i]);
    }
  }

  lemma BatchView(first: nat, g: nat, entries: seq<Entry>, t: Option<Id>, p: Path)
    requires DistinctKeys(entries)
    ensures UniqueRows(WithBatch(map[], first, g, entries))
    ensures var v := View(WithBatch(map[], first, g, entries), g, t);
      && (p in v ==> Describes(entries, t, p, v[p]))
      && (forall m :: Describes(entries, t, p, m) ==> p in v && v[p] == m)
  {
    hide WithBatch, View, UniqueRows, DistinctKeys, Split;
    BatchUnique(first, g, entries);
    BatchRows(map[], first, g, entries);
    var rows := WithBatch(map[], first, g, entries);
    var v := View(rows, g, t);
    if p in v {
      var id := ViewFrom(rows, g, t, p);
      var i := id - first;
      assert rows[first + i] == entries[i].(generation := g);
      assert entries[i] in entries;
    }
    forall m | Describes(entries, t, p, m) ensures p in v && v[p] == m {
      var e :| e in entries && e.trashId == t && Split(e.path) == p && e.meta == m;
      var i :| 0 <= i < |entries| && entries[i] == e;
      assert rows[first + i] == entries[i].(generation := g);
      ViewHas(rows, g, t, first + i);
    }
  }

  /****** what the rebuild asks for ******/

  lemma WantedDistinct(items: seq<Item>, base: string, t: Option<Id>, fold: char -> char)
    requires forall i, j | 0 <= i < j < |items| :: items[i].path != items[j].path
    ensures DistinctKeys(Wanted(items, base, t, fold))
  {
    var w := Wanted(items, base, t, fold);
    forall i, j | 0 <= i < j < |w| ensures !SameKey(w[i], w[j]) {
      if w[i].path == w[j].path { PathOfInjective(base, items[i], items[j]); }
    }
  }

  function RootOf(base: string): Path {
    if base == "" then [] else Split(base)
  }

  lemma WantedAttached(items: seq<Item>, base: string, t: Option<Id>, fold: char -> char, rows: Rows, i: nat)
    requires Lists(items, rows) && (base != "" || [] !in rows) && i < |items|
    ensures var e := Wanted(items, base, t, fold)[i];
      && e.trashId == t && e.meta == items[i].meta && Split(e.path) == RootOf(base) + KeyOf(items[i])
      && Split(e.path) in Attach(rows, RootOf(base)) && Attach(rows, RootOf(base))[Split(e.path)] == e.meta
  {
    hide Split, Attach, Lists, KeyOf, PathOf;
    ListedKey(items, rows, i);
    SplitKeyed(base, items[i]);
    AttachKey(rows, RootOf(base), KeyOf(items[i]));
  }

  lemma WantedDescribes(items: seq<Item>, base: string, t: Option<Id>, fold: char -> char, rows: Rows, p: Path, m: Meta)
    requires Lists(items, rows) && (base != "" || [] !in rows)
    ensures Describes(Wanted(items, base, t, fold), t, p, m) <==>
      p in Attach(rows, RootOf(base)) && Attach(rows, RootOf(base))[p] == m
  {
    hide Split, Attach, Lists, KeyOf, Wanted, RootOf;
    var w := Wanted(items, base, t, fold);
    if Describes(w, t, p, m) {
      var e :| e in w && e.trashId == t && Split(e.path) == p && e.meta == m;
      var i :| 0 <= i < |w| && w[i] == e;
      WantedAttached(items, base, t, fold, rows, i);
    }
    if p in Attach(rows, RootOf(base)) && Attach(rows, RootOf(base))[p] == m {
      var i := KeyListed(items, rows, p[|RootOf(base)|..]);
      WantedAttached(items, base, t, fold, rows, i);
      assert RootOf(base) + p[|RootOf(base)|..] == p;
      assert w[i] in w;
    }
  }

  lemma ListedKey(items: seq<Item>, rows: Rows, i: nat)
    requires Lists(items, rows) && i < |items|
    ensures KeyOf(items[i]) in rows && rows[KeyOf(items[i])] == items[i].meta
    ensures [] !in rows ==> items[i].path != ""
  {
    hide Split;
  }

  lemma KeyListed(items: seq<Item>, rows: Rows, k: Path) returns (i: nat)
    requires Lists(items, rows) && k in rows
    ensures i < |items| && KeyOf(items[i]) == k && items[i].meta == rows[k]
    ensures [] !in rows ==> items[i].path != ""
  {
    hide Split;
    i :| 0 <= i < |items| && KeyOf(items[i]) == k;
  }

  lemma WantedUnder(items: seq<Item>, base: string, t: Option<Id>, fold: char -> char)
    ensures forall e | e in Wanted(items, base, t, fold) :: e.trashId == t
  {
    hide PathOf;
  }

  lemma {:induction false} TrashDistinct(trash: seq<TrashItem>, payloads: map<Id, Tree>, fold: char -> char)
    requires ListsTrash(trash, payloads)
    ensures DistinctKeys(WantedTrash(trash, fold))
    ensures forall e | e in WantedTrash(trash, fold) :: e.trashId.Some? && exists i :: 0 <= i < |trash| && trash[i].id == e.trashId.value
  {
    hide Wanted, KeyOf;
    if trash != [] {
      var n := |trash| - 1;
      TrashDistinct(trash[..n], payloads, fold);
      var a := WantedTrash(trash[..n], fold);
      var b := Wanted(trash[n].payload.value, trash[n].path, Some(trash[n].id), fold);
      WantedDistinct(trash[n].payload.value, trash[n].path, Some(trash[n].id), fold);
      WantedUnder(trash[n].payload.value, trash[n].path, Some(trash[n].id), fold);
      forall i, j | 0 <= i < |a| && 0 <= j < |b| ensures !SameKey(a[i], b[j]) {
        assert a[i] in a && b[j] in b;
      }
      ConcatDistinct(a, b);
      forall e | e in a + b ensures e.trashId.Some? && exists i :: 0 <= i < |trash| && trash[i].id == e.trashId.value {
        if e in a {
          var i :| 0 <= i < n && trash[..n][i].id == e.trashId.value;
          assert trash[i].id == e.trashId.value;
        } else {
          assert trash[n].id == e.trashId.value;
        }
      }
    }
  }

  lemma ConcatDistinct(a: seq<Entry>, b: seq<Entry>)
    requires DistinctKeys(a) && DistinctKeys(b)
    requires forall i, j | 0 <= i < |a| && 0 <= j < |b| :: !SameKey(a[i], b[j])
    ensures DistinctKeys(a + b)
  {
  }

  lemma DescribesConcat(a: seq<Entry>, b: seq<Entry>, t: Option<Id>, p: Path, m: Meta)
    ensures Describes(a + b, t, p, m) <==> Describes(a, t, p, m) || Describes(b, t, p, m)
  {
    hide Split;
  }

  lemma {:induction false} TrashDescribes(trash: seq<TrashItem>, payloads: map<Id, Tree>, fold: char -> char, k: nat, p: Path, m: Meta)
    requires ListsTrash(trash, payloads) && k < |trash|
    ensures Describes(WantedTrash(trash, fold), Some(trash[k].id), p, m) <==>
      var rows, root := MetaOf(payloads[trash[k].id]), Split(trash[k].path);
      p in Attach(rows, root) && Attach(rows, root)[p] == m
  {
    hide Split, Describes, Attach, Wanted;
    var n, t := |trash| - 1, Some(trash[k].id);
    var a := WantedTrash(trash[..n], fold);
    var b := Wanted(trash[n].payload.value, trash[n].path, Some(trash[n].id), fold);
    DescribesConcat(a, b, t, p, m);
    if k == n {
      WantedDescribes(trash[n].payload.value, trash[n].path, t, fold, MetaOf(payloads[trash[n].id]), p, m);
      assert !Describes(a, t, p, m) by { NotAmong(trash[..n], payloads, fold, trash[k].id, p, m); }
    } else {
      assert trash[..n][k] == trash[k];
      TrashDescribes(trash[..n], payloads, fold, k, p, m);
      assert !Describes(b, t, p, m) by { NotWanted(trash[n].payload.value, trash[n].path, Some(trash[n].id), fold, t, p, m); }
    }
  }

  lemma NotAmong(trash: seq<TrashItem>, payloads: map<Id, Tree>, fold: char -> char, id: Id, p: Path, m: Meta)
    requires ListsTrash(trash, payloads) && forall i | 0 <= i < |trash| :: trash[i].id != id
    ensures !Describes(WantedTrash(trash, fold), Some(id), p, m)
  {
    hide Split;
    TrashDistinct(trash, payloads, fold);
  }

  lemma NotWanted(items: seq<Item>, base: string, t: Option<Id>, fold: char -> char, t': Option<Id>, p: Path, m: Meta)
    requires t != t'
    ensures !Describes(Wanted(items, base, t, fold), t', p, m)
  {
    hide Split;
  }

  /****** the theorem ******/

  /** If the walks list the content tree and the payloads, the new generation's shown
      rows are the content tree and each trash id's rows are its payload below its
      path: what the protocol's Reindex step installs. */
  lemma RebuiltIsReindex(first: nat, g: nat, items: seq<Item>, trash: seq<TrashItem>, fold: char -> char, files: Tree, payloads: map<Id, Tree>)
    requires Lists(items, MetaOf(files)) && [] !in files && ListsTrash(trash, payloads)
    ensures var rows := WithBatch(map[], first, g, Wanted(items, "", None, fold) + WantedTrash(trash, fold));
      && UniqueRows(rows)
      && View(rows, g, None) == MetaOf(files)
      && forall k | 0 <= k < |trash| ::
           View(rows, g, Some(trash[k].id)) == Attach(MetaOf(payloads[trash[k].id]), Split(trash[k].path))
  {
    hide WithBatch, View, Split, Wanted, WantedTrash, UniqueRows, DistinctKeys, Describes, Lists, MetaOf, Attach;
    var a, b := Wanted(items, "", None, fold), WantedTrash(trash, fold);
    AllDistinct(items, trash, fold, files, payloads);
    BatchUnique(first, g, a + b);
    var rows := WithBatch(map[], first, g, a + b);
    forall p ensures SameEntry(View(rows, g, None), MetaOf(files), p) {
      ShownEntry(first, g, items, trash, fold, files, payloads, p);
    }
    SameEntries(View(rows, g, None), MetaOf(files));
    forall k | 0 <= k < |trash|
      ensures View(rows, g, Some(trash[k].id)) == Attach(MetaOf(payloads[trash[k].id]), Split(trash[k].path))
    {
      var w := Attach(MetaOf(payloads[trash[k].id]), Split(trash[k].path));
      forall p ensures SameEntry(View(rows, g, Some(trash[k].id)), w, p) {
        HiddenEntry(first, g, items, trash, fold, files, payloads, k, p);
      }
      SameEntries(View(rows, g, Some(trash[k].id)), w);
    }
  }

  predicate SameEntry(v: Rows, w: Rows, p: Path) {
    (p in v <==> p in w) && (p in v ==> v[p] == w[p])
  }

  lemma SameEntries(v: Rows, w: Rows)
    requires forall p :: SameEntry(v, w, p)
    ensures v == w
  {
    forall p ensures p in v <==> p in w {
      assert SameEntry(v, w, p);
    }
    forall p | p in v ensures v[p] == w[p] {
      assert SameEntry(v, w, p);
    }
    assert v.Keys == w.Keys;
  }

  lemma AllDistinct(items: seq<Item>, trash: seq<TrashItem>, fold: char -> char, files: Tree, payloads: map<Id, Tree>)
    requires Lists(items, MetaOf(files)) && ListsTrash(trash, payloads)
    ensures DistinctKeys(Wanted(items, "", None, fold) + WantedTrash(trash, fold))
  {
    hide WantedTrash;
    var a, b := Wanted(items, "", None, fold), WantedTrash(trash, fold);
    WantedDistinct(items, "", None, fold);
    TrashDistinct(trash, payloads, fold);
    forall i, j | 0 <= i < |a| && 0 <= j < |b| ensures !SameKey(a[i], b[j]) {
      assert b[j] in b;
    }
    ConcatDistinct(a, b);
  }

  lemma ShownEntry(first: nat, g: nat, items: seq<Item>, trash: seq<TrashItem>, fold: char -> char, files: Tree,
                   payloads: map<Id, Tree>, p: Path)
    requires Lists(items, MetaOf(files)) && [] !in files && ListsTrash(trash, payloads)
    requires DistinctKeys(Wanted(items, "", None, fold) + WantedTrash(trash, fold))
    requires UniqueRows(WithBatch(map[], first, g, Wanted(items, "", None, fold) + WantedTrash(trash, fold)))
    ensures SameEntry(View(WithBatch(map[], first, g, Wanted(items, "", None, fold) + WantedTrash(trash, fold)), g, None), MetaOf(files), p)
  {
    hide WithBatch, View, Split, Wanted, WantedTrash, UniqueRows, DistinctKeys, Describes, Lists, Attach, ListsTrash;
    var a, b := Wanted(items, "", None, fold), WantedTrash(trash, fold);
    var v, w := View(WithBatch(map[], first, g, a + b), g, None), MetaOf(files);
    BatchView(first, g, a + b, None, p);
    AttachNothing(w);
    if p in v {
      DescribesConcat(a, b, None, p, v[p]);
      NoneShown(trash, payloads, fold, p, v[p]);
      WantedDescribes(items, "", None, fold, w, p, v[p]);
    }
    if p in w {
      WantedDescribes(items, "", None, fold, w, p, w[p]);
      DescribesConcat(a, b, None, p, w[p]);
    }
  }

  lemma AttachNothing(t: Rows)
    ensures Attach(t, []) == t
  {
    assert forall q: Path :: q[0..] == q;
  }

  lemma NoneShown(trash: seq<TrashItem>, payloads: map<Id, Tree>, fold: char -> char, p: Path, m: Meta)
    requires ListsTrash(trash, payloads)
    ensures !Describes(WantedTrash(trash, fold), None, p, m)
  {
    hide Split;
    TrashDistinct(trash, payloads, fold);
  }

  lemma HiddenEntry(first: nat, g: nat, items: seq<Item>, trash: seq<TrashItem>, fold: char -> char, files: Tree,
                    payloads: map<Id, Tree>, k: nat, p: Path)
    requires k < |trash| && ListsTrash(trash, payloads)
    requires DistinctKeys(Wanted(items, "", None, fold) + WantedTrash(trash, fold))
    requires UniqueRows(WithBatch(map[], first, g, Wanted(items, "", None, fold) + WantedTrash(trash, fold)))
    ensures SameEntry(View(WithBatch(map[], first, g, Wanted(items, "", None, fold) + WantedTrash(trash, fold)), g, Some(trash[k].id)),
                      Attach(MetaOf(payloads[trash[k].id]), Split(trash[k].path)), p)
  {
    hide WithBatch, View, Split, Wanted, WantedTrash, UniqueRows, DistinctKeys, Describes, Attach, MetaOf, Lists;
    var a, b, t := Wanted(items, "", None, fold), WantedTrash(trash, fold), Some(trash[k].id);
    var v := View(WithBatch(map[], first, g, a + b), g, t);
    var w := Attach(MetaOf(payloads[trash[k].id]), Split(trash[k].path));
    BatchView(first, g, a + b, t, p);
    if p in v {
      DescribesConcat(a, b, t, p, v[p]);
      NotWanted(items, "", None, fold, t, p, v[p]);
      TrashDescribes(trash, payloads, fold, k, p, v[p]);
    }
    if p in w {
      TrashDescribes(trash, payloads, fold, k, p, w[p]);
      DescribesConcat(a, b, t, p, w[p]);
    }
  }

  /****** the protocol's step ******/

  /** The rows of trash_entries and the payloads that the walks read. */
  ghost predicate ListsRows(trash: seq<TrashItem>, s: State) {
    && ListsTrash(trash, s.trash)
    && (forall id | id in s.trashRows :: exists k :: 0 <= k < |trash| && trash[k].id == id)
    && (forall k | 0 <= k < |trash| :: trash[k].id in s.trashRows && s.trashRows[trash[k].id] == TrashRow(Split(trash[k].path), trash[k].state))
  }

  lemma FilesAccepted(items: seq<Item>, fold: char -> char, files: Tree)
    requires Lists(items, MetaOf(files)) && [] !in files
    ensures AllAccepted(Wanted(items, "", None, fold), fold) <==> forall q | q in files :: Accepted(q, fold)
  {
    hide Split, Wanted, Lists, NewEntryOk, Attach, Join;
    var w, rows := Wanted(items, "", None, fold), MetaOf(files);
    AttachNothing(rows);
    if AllAccepted(w, fold) {
      forall q | q in files ensures Accepted(q, fold) {
        WantedDescribes(items, "", None, fold, rows, q, rows[q]);
        var e :| e in w && Split(e.path) == q;
        JoinSplit(e.path);
      }
    }
    if forall q | q in files :: Accepted(q, fold) {
      forall e | e in w ensures NewEntryOk(e.path, fold) {
        WantedUnder(items, "", None, fold);
        assert Describes(w, None, Split(e.path), e.meta);
        WantedDescribes(items, "", None, fold, rows, Split(e.path), e.meta);
        JoinSplit(e.path);
        assert Accepted(Split(e.path), fold);
      }
    }
  }

  lemma PayloadsAccepted(trash: seq<TrashItem>, fold: char -> char, s: State)
    requires ListsRows(trash, s)
    ensures AllAccepted(WantedTrash(trash, fold), fold) <==>
      forall id, q | id in s.trashRows && id in s.trash && q in s.trash[id] :: Accepted(s.trashRows[id].path + q, fold)
  {
    hide Split, WantedTrash, Lists, NewEntryOk, Attach, Join, MetaOf;
    var w := WantedTrash(trash, fold);
    if AllAccepted(w, fold) {
      forall id, q | id in s.trashRows && id in s.trash && q in s.trash[id] ensures Accepted(s.trashRows[id].path + q, fold) {
        var k :| 0 <= k < |trash| && trash[k].id == id;
        var p, rows := s.trashRows[id].path + q, MetaOf(s.trash[id]);
        MetaHas(s.trash[id], q);
        AttachKey(rows, s.trashRows[id].path, q);
        TrashDescribes(trash, s.trash, fold, k, p, rows[q]);
        var e :| e in w && Split(e.path) == p;
        JoinSplit(e.path);
      }
    }
    if forall id, q | id in s.trashRows && id in s.trash && q in s.trash[id] :: Accepted(s.trashRows[id].path + q, fold) {
      forall e | e in w ensures NewEntryOk(e.path, fold) {
        TrashDistinct(trash, s.trash, fold);
        var k :| 0 <= k < |trash| && trash[k].id == e.trashId.value;
        assert Describes(w, e.trashId, Split(e.path), e.meta);
        TrashDescribes(trash, s.trash, fold, k, Split(e.path), e.meta);
        AcceptedBelow(s.trash[trash[k].id], Split(trash[k].path), Split(e.path));
        JoinSplit(e.path);
        assert Accepted(Split(trash[k].path) + Split(e.path)[|Split(trash[k].path)|..], fold);
      }
    }
  }

  lemma MetaHas(t: Tree, q: Path)
    ensures q in MetaOf(t) <==> q in t
  {
  }

  lemma AcceptedBelow(payload: Tree, root: Path, p: Path)
    requires p in Attach(MetaOf(payload), root)
    ensures root <= p && p[|root|..] in payload && root + p[|root|..] == p
  {
    hide Attach, MetaOf;
    MetaHas(payload, p[|root|..]);
  }

  lemma AcceptedConcat(a: seq<Entry>, b: seq<Entry>, fold: char -> char)
    ensures AllAccepted(a + b, fold) <==> AllAccepted(a, fold) && AllAccepted(b, fold)
  {
    hide NewEntryOk;
    assert forall e :: e in a + b <==> e in a || e in b;
  }

  lemma RowListed(items: seq<Item>, fold: char -> char, files: Tree, e: Entry)
    requires Lists(items, MetaOf(files)) && [] !in files && e in Wanted(items, "", None, fold)
    ensures Split(e.path) in files && e.meta == MetaOfNode(files[Split(e.path)]) && e.trashId.None? && e.parent == ParentPath(e.path)
  {
    hide Split, Lists, Attach, KeyOf, PathOf, ParentPath;
    var w := Wanted(items, "", None, fold);
    var i :| 0 <= i < |w| && w[i] == e;
    AttachNothing(MetaOf(files));
    WantedAttached(items, "", None, fold, MetaOf(files), i);
  }

  lemma DirectoryListed(items: seq<Item>, fold: char -> char, files: Tree, p: Path) returns (d: Entry)
    requires Lists(items, MetaOf(files)) && [] !in files && p in files && files[p].Dir?
    ensures d in Wanted(items, "", None, fold) && d.trashId.None? && Split(d.path) == p && d.meta.DirMeta?
  {
    hide Split, Lists, Attach, Wanted;
    var rows := MetaOf(files);
    AttachNothing(rows);
    WantedDescribes(items, "", None, fold, rows, p, rows[p]);
    d :| d in Wanted(items, "", None, fold) && d.trashId == None && Split(d.path) == p && d.meta == rows[p];
  }

  lemma UpOne(s: string)
    requires ParentPath(s) != ""
    ensures |Split(s)| > 1 && Parent(Split(s)) == Split(ParentPath(s))
  {
    hide Split, LastSlash, BaseName;
    SplitParent(s);
    assert LastSlash(s) >= 0;
  }

  /** A tree has no orphans and no path twice, so nothing but a path can be refused. */
  lemma WalkedRows(items: seq<Item>, trash: seq<TrashItem>, fold: char -> char, files: Tree, payloads: map<Id, Tree>)
    requires Lists(items, MetaOf(files)) && TreeOk(files) && ListsTrash(trash, payloads)
    ensures DistinctShown(AllRows(items, trash, fold)) && NoOrphans(AllRows(items, trash, fold))
  {
    hide Split, Lists, MetaOf, ListsTrash, WantedTrash, Wanted, ParentPath;
    AllDistinct(items, trash, fold, files, payloads);
    var a: seq<Entry>, b: seq<Entry> := Wanted(items, "", None, fold), WantedTrash(trash, fold);
    var all: seq<Entry> := a + b;
    forall i, j | 0 <= i < j < |all| && all[i].trashId.None? && all[j].trashId.None? ensures all[i].path != all[j].path {
      assert !SameKey(all[i], all[j]);
    }
    TrashDistinct(trash, payloads, fold);
    forall e: Entry | e in all && e.trashId.None? && e.parent != ""
      ensures exists d :: d in all && d.trashId.None? && d.path == e.parent && d.meta.DirMeta?
    {
      assert e in a;
      RowListed(items, fold, files, e);
      UpOne(e.path);
      assert InDirectory(files, Split(e.path));
      var d := DirectoryListed(items, fold, files, Parent(Split(e.path)));
      SplitInjective(d.path, e.parent);
      assert d in all;
    }
  }

  /** An offline rebuild over the storage of a state whose trash rows are settled can make
      a generation exactly when the protocol's Reindex step is possible, and what it
      activates is what that step installs. */
  lemma RebuildIsStep(s: State, first: nat, g: nat, items: seq<Item>, trash: seq<TrashItem>)
    requires s.phase.Down? && Lists(items, MetaOf(s.files)) && TreeOk(s.files) && ListsRows(trash, s) && Settled(trash)
    ensures World.Reindex(s).Some? <==> Buildable(items, trash, s.fold)
    ensures var rows := WithBatch(map[], first, g, AllRows(items, trash, s.fold));
      && UniqueRows(rows)
      && (World.Reindex(s).Some? ==>
            var t := World.Reindex(s).value;
            && t.visible == View(rows, g, None) && t.hidden.Keys == s.trashRows.Keys && t.health.Healthy?
            && forall k | 0 <= k < |trash| :: trash[k].id in t.hidden && t.hidden[trash[k].id] == View(rows, g, Some(trash[k].id)))
  {
    hide Split, WantedTrash, Wanted, Lists, Attach, MetaOf, WithBatch, View, UniqueRows, PathsAccepted, Buildable;
    StepPossible(s, items, trash);
    RebuiltIsReindex(first, g, items, trash, s.fold, s.files, s.trash);
  }

  lemma StepPossible(s: State, items: seq<Item>, trash: seq<TrashItem>)
    requires s.phase.Down? && Lists(items, MetaOf(s.files)) && TreeOk(s.files) && ListsRows(trash, s) && Settled(trash)
    ensures World.Reindex(s).Some? <==> Buildable(items, trash, s.fold)
  {
    hide Split, WantedTrash, Wanted, Lists, NewEntryOk, Attach, Join, MetaOf, AllAccepted, Accepted, DistinctShown, NoOrphans;
    FilesAccepted(items, s.fold, s.files);
    PayloadsAccepted(trash, s.fold, s);
    AcceptedConcat(Wanted(items, "", None, s.fold), WantedTrash(trash, s.fold), s.fold);
    WalkedRows(items, trash, s.fold, s.files, s.trash);
    assert forall id | id in s.trashRows :: s.trashRows[id].state == Trashed && id in s.trash;
  }

  /** The whole offline rebuild over the storage of a state: only a fault keeps it from
      activating what the protocol's step installs, unless that step is impossible. */
  method RebuildStorage(db: IndexDatabase, items: seq<Item>, trash: seq<TrashItem>, ghost s: State)
      returns (activated: bool, faulted: bool)
    requires db.Valid() && ById(trash) && db.fold == s.fold
    requires s.phase.Down? && Lists(items, MetaOf(s.files)) && TreeOk(s.files) && ListsRows(trash, s) && Settled(trash)
    modifies db
    ensures db.Valid()
    ensures !activated ==> db.Visible() == old(db.Visible()) && (faulted || World.Reindex(s).None?)
    ensures db.calm ==> (activated <==> World.Reindex(s).Some?)
    ensures activated ==>
      && World.Reindex(s).Some? && db.health.Healthy? && UniqueRows(GenerationRows(db.rows, db.active))
      && var t, rows := World.Reindex(s).value, GenerationRows(db.rows, db.active);
         && t.visible == View(rows, db.active, None)
         && forall k | 0 <= k < |trash| :: trash[k].id in t.hidden && t.hidden[trash[k].id] == View(rows, db.active, Some(trash[k].id))
  {
    hide World.Reindex, Lists, ListsRows, Settled, TreeOk, MetaOf, Buildable, AllRows, WithBatch, View, UniqueRows, IndexDatabase.Valid,
         IndexDatabase.Visible, ById;
    var ok; ghost var first;
    activated, ok, faulted, first := Run(db, Some(items), trash);
    RebuildIsStep(s, first, db.active, items, trash);
  }
}
