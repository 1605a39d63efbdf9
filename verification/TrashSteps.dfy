/** Trash, restore and publication keep the invariant. */
module TrashSteps {
  import opened Paths
  import opened World
  import opened Invariant
  import opened Trees
  import opened Recovery
  import opened FileSteps

  ghost predicate NothingMoved(trash: map<Id, Tree>, rows: map<Id, TrashRow>) {
    forall id :: !Moved(trash, rows, id) && !Returned(trash, rows, id)
  }

  /****** a subtree leaves for trash ******/

  lemma TrashAgrees(files: Tree, trash: map<Id, Tree>, rows: map<Id, TrashRow>, hidden: map<Id, Rows>, id: Id, published: set<Path>)
    requires NothingMoved(trash, rows) && HiddenOk(trash, rows, hidden)
    requires id in rows && rows[id].state == Trashing && id !in trash
    ensures Agree(Without(files, rows[id].path), trash[id := Detach(files, rows[id].path)], rows, MetaOf(files), hidden, published)
  {
    hide MetaOf, Attach, Detach, HiddenOk;
    var p := rows[id].path;
    var trash' := trash[id := Detach(files, p)];
    forall i ensures Moved(trash', rows, i) <==> i == id ensures !Returned(trash', rows, i) {
      assert !Moved(trash, rows, i) && !Returned(trash, rows, i);
    }
    MetaOfParts(files, p);
    DetachAttach(MetaOf(files), p);
    assert Attach(MetaOf(trash'[id]), p) == Under(MetaOf(files), p);
    MetaKeys(files);
    TrashHidden(trash, rows, hidden, id, Detach(files, p));
    UnderItems(MetaOf(files), p);
    forall q | q in MetaOf(files) && p <= q
      ensures exists i :: GhostAt(trash', rows, i, q, MetaOf(files)[q])
    {
      assert GhostAt(trash', rows, id, q, MetaOf(files)[q]);
    }
  }

  lemma MetaKeys(t: Tree)
    ensures forall q :: q in MetaOf(t) <==> q in t
    ensures forall q | q in t :: MetaOf(t)[q] == MetaOfNode(t[q])
  {
  }

  lemma UnderItems<V>(t: map<Path, V>, p: Path)
    ensures Under(t, p).Items <= t.Items
  {
  }

  lemma TrashHidden(trash: map<Id, Tree>, rows: map<Id, TrashRow>, hidden: map<Id, Rows>, id: Id, payload: Tree)
    requires HiddenOk(trash, rows, hidden) && id in rows && rows[id].state == Trashing
    ensures HiddenOk(trash[id := payload], rows, hidden)
  {
    hide MetaOf, Attach;
  }

  lemma TrashOrigins(files: Tree, trash: map<Id, Tree>, parts: map<Id, Bytes>, uploads: map<Id, UploadRow>, p: Path, id: Id)
    requires TreeOk(files) && id !in trash && OriginsOk(files, trash, parts, uploads)
    ensures OriginsOk(Without(files, p), trash[id := Detach(files, p)], parts, uploads)
  {
    hide OriginsOk;
    var files', trash' := Without(files, p), trash[id := Detach(files, p)];
    var back := (pl: Place) => if pl.InTrash? && pl.id == id then InFiles(p + pl.rel) else pl;
    forall pl, pl', f, f' |
      Holds(files', trash', pl, f) && Holds(files', trash', pl', f') && back(pl) == back(pl')
      ensures pl == pl'
    {
      if pl.InTrash? && pl.id == id { assert (p + pl.rel)[|p|..] == pl.rel && p <= p + pl.rel; }
      if pl'.InTrash? && pl'.id == id { assert (p + pl'.rel)[|p|..] == pl'.rel && p <= p + pl'.rel; }
    }
    OriginsMoved(files, trash, files', trash', parts, uploads, back);
  }

  lemma FsTrashAgrees(s: State)
    requires Inv(s) && FsTrash(s).Some? && Trusted(s.health)
    ensures AgreeState(FsTrash(s).value)
  {
    hide OriginsOk, FinalizingOk, Agree, TreeOk, HiddenOk, Detach, Without, MetaOf, Attach, PublishedTargets, IntentOk, PhaseOk;
    var id := s.op.id;
    AgreeWithoutDoubt(s);
    TrashAgrees(s.files, s.trash, s.trashRows, s.hidden, id, PublishedTargets(s.parts, s.uploads));
  }

  lemma FsTrashKeeps(s: State)
    requires Inv(s) && FsTrash(s).Some?
    ensures Inv(FsTrash(s).value)
  {
    hide OriginsOk, FinalizingOk, AgreeState, TreeOk, PayloadOk, Detach, Without, MetaOf, Attach;
    var id, s' := s.op.id, FsTrash(s).value;
    var p := s.trashRows[id].path;
    WithoutTree(s.files, p);
    DetachedPayload(s.files, p);
    TrashOrigins(s.files, s.trash, s.parts, s.uploads, p, id);
    FinalizingKept(s.files, s'.files, s.parts, s.uploads);
    assert forall q | q in s'.files :: !(p <= q) by { WithoutKeys(s.files, p); }
    if Trusted(s.health) {
      FsTrashAgrees(s);
    }
  }

  lemma WithoutKeys<V>(t: map<Path, V>, p: Path)
    ensures forall q | q in Without(t, p) :: !(p <= q)
  {
  }

  /****** its rows are hidden ******/

  lemma UnderIsPayload(visible: Rows, payload: Rows, p: Path)
    requires payload.Items <= visible.Items
    requires forall q | q in payload :: p <= q
    requires forall q | q in visible && p <= q :: q in payload
    ensures Under(visible, p) == payload
  {
    forall q | q in payload ensures q in visible && visible[q] == payload[q] {
      assert (q, payload[q]) in payload.Items;
    }
  }

  lemma OnlyGhost(files: Tree, trash: map<Id, Tree>, rows: map<Id, TrashRow>, visible: Rows, id: Id, q: Path)
    requires ShownOk(files, trash, rows, visible) && OneInDoubt(trash, rows) && Moved(trash, rows, id)
    requires q in visible && q !in files
    ensures q in Attach(MetaOf(trash[id]), rows[id].path)
  {
    hide MetaOf, Attach;
    var i :| GhostAt(trash, rows, i, q, visible[q]);
    assert i == id;
  }

  lemma MovedRows(files: Tree, trash: map<Id, Tree>, rows: map<Id, TrashRow>, visible: Rows, id: Id)
    requires ShownOk(files, trash, rows, visible) && GhostsShown(trash, rows, visible) && OneInDoubt(trash, rows)
    requires Moved(trash, rows, id)
    requires forall q | q in files :: !(rows[id].path <= q)
    ensures Under(visible, rows[id].path) == Attach(MetaOf(trash[id]), rows[id].path)
  {
    hide MetaOf, Attach, Under, ShownOk, OneInDoubt;
    var p := rows[id].path;
    forall q | q in visible && p <= q ensures q in Attach(MetaOf(trash[id]), p) {
      OnlyGhost(files, trash, rows, visible, id, q);
    }
    UnderIsPayload(visible, Attach(MetaOf(trash[id]), p), p);
  }

  /** With nothing moved or returned, agreement is these three facts. */
  lemma AgreeSettled(files: Tree, trash: map<Id, Tree>, rows: map<Id, TrashRow>, visible: Rows,
                     hidden: map<Id, Rows>, published: set<Path>)
    requires NothingMoved(trash, rows)
    requires forall q | q in visible :: q in files && visible[q] == MetaOfNode(files[q])
    requires forall q | q in files :: q in visible || q in published
    requires HiddenOk(trash, rows, hidden)
    ensures Agree(files, trash, rows, visible, hidden, published)
  {
    hide MetaOf, Attach, HiddenOk;
    assert forall i :: !Moved(trash, rows, i) && !Returned(trash, rows, i);
  }

  lemma CommitTrashHidden(trash: map<Id, Tree>, rows: map<Id, TrashRow>, hidden: map<Id, Rows>, id: Id, subtree: Rows)
    requires HiddenOk(trash, rows, hidden) && Moved(trash, rows, id)
    requires subtree == Attach(MetaOf(trash[id]), rows[id].path)
    ensures id !in hidden
    ensures HiddenOk(trash, rows[id := TrashRow(rows[id].path, Trashed)], hidden[id := subtree])
  {
    hide MetaOf, Attach;
  }

  lemma OthersSettled(trash: map<Id, Tree>, rows: map<Id, TrashRow>, rows': map<Id, TrashRow>, id: Id)
    requires OneInDoubt(trash, rows) && (Moved(trash, rows, id) || Returned(trash, rows, id))
    requires rows' == rows - {id} || (id in trash && rows' == rows[id := TrashRow(rows[id].path, Trashed)])
    ensures NothingMoved(trash, rows')
  {
    assert forall i :: Moved(trash, rows', i) || Returned(trash, rows', i) ==>
      i != id && (Moved(trash, rows, i) || Returned(trash, rows, i));
  }

  lemma ShownBesides(files: Tree, trash: map<Id, Tree>, rows: map<Id, TrashRow>, visible: Rows, id: Id, q: Path)
    requires ShownOk(files, trash, rows, visible) && OneInDoubt(trash, rows)
    requires Moved(trash, rows, id) || Returned(trash, rows, id)
    requires q in visible && (Moved(trash, rows, id) ==> !(rows[id].path <= q))
    ensures q in files && visible[q] == MetaOfNode(files[q])
  {
    hide MetaOf, Attach;
    assert forall i :: Moved(trash, rows, i) ==> i == id;
  }

  lemma CommitTrashAgrees(files: Tree, trash: map<Id, Tree>, rows: map<Id, TrashRow>, visible: Rows,
                          hidden: map<Id, Rows>, published: set<Path>, id: Id)
    requires Agree(files, trash, rows, visible, hidden, published) && Moved(trash, rows, id)
    requires forall q | q in files :: !(rows[id].path <= q)
    ensures id !in hidden
    ensures Agree(files, trash, rows[id := TrashRow(rows[id].path, Trashed)], Without(visible, rows[id].path),
                  hidden[id := Under(visible, rows[id].path)], published)
  {
    hide MetaOf, Attach, Under, HiddenOk, ShownOk, GhostsShown, ReturnedOk, NothingMoved;
    var p := rows[id].path;
    var rows' := rows[id := TrashRow(p, Trashed)];
    MovedRows(files, trash, rows, visible, id);
    CommitTrashHidden(trash, rows, hidden, id, Under(visible, p));
    OthersSettled(trash, rows, rows', id);
    forall q | q in visible && !(p <= q) ensures q in files && visible[q] == MetaOfNode(files[q]) {
      ShownBesides(files, trash, rows, visible, id, q);
    }
    assert forall i :: !Returned(trash, rows, i);
    AgreeSettled(files, trash, rows', Without(visible, p), hidden[id := Under(visible, p)], published);
  }

  lemma CommitTrashRowKeeps(s: State, id: Id)
    requires Inv(s) && CommitTrashRow(s, id).Some? && Moved(s.trash, s.trashRows, id)
    requires forall q | q in s.files :: !(s.trashRows[id].path <= q)
    ensures var s' := CommitTrashRow(s, id).value;
      && ContentOk(s'.files, s'.trash, s'.trashRows)
      && AgreeState(s')
      && (forall i :: Moved(s'.trash, s'.trashRows, i) || Returned(s'.trash, s'.trashRows, i) ==>
            i != id && (Moved(s.trash, s.trashRows, i) || Returned(s.trash, s.trashRows, i)))
  {
    hide OriginsOk, FinalizingOk, Agree, TreeOk, PayloadOk, MetaOf, Under, Without, PublishedTargets, DoubtOk, OpOk, PhaseOk, IntentOk;
    CommitTrashAgrees(s.files, s.trash, s.trashRows, s.visible, s.hidden, PublishedTargets(s.parts, s.uploads), id);
    assert map[] + Under(s.visible, s.trashRows[id].path) == Under(s.visible, s.trashRows[id].path);
  }

  lemma CommitTrashKeeps(s: State)
    requires Inv(s) && CommitTrash(s).Some?
    ensures Inv(CommitTrash(s).value)
  {
    hide ContentOk, OriginsOk, FinalizingOk, Agree, PublishedTargets, Under, Without;
    CommitTrashRowKeeps(s, s.op.id);
  }

  /****** a payload returns ******/

  lemma RestoreAgrees(files: Tree, trash: map<Id, Tree>, rows: map<Id, TrashRow>, hidden: map<Id, Rows>, id: Id, published: set<Path>)
    requires NothingMoved(trash, rows) && HiddenOk(trash, rows, hidden)
    requires id in rows && rows[id].state == Restoring && id in trash && [] in trash[id]
    requires forall q | q in files :: q !in Attach(trash[id], rows[id].path)
    ensures Agree(files + Attach(trash[id], rows[id].path), trash - {id}, rows, MetaOf(files), hidden, published)
  {
    var p := rows[id].path;
    var trash' := trash - {id};
    forall i ensures Returned(trash', rows, i) <==> i == id ensures !Moved(trash', rows, i) {
      assert !Moved(trash, rows, i) && !Returned(trash, rows, i);
    }
    MetaOfParts(trash[id], p);
    assert p[|p|..] == [];
    assert hidden[id] == MetaOf(Attach(trash[id], p));
  }

  lemma RestoreOrigins(files: Tree, trash: map<Id, Tree>, parts: map<Id, Bytes>, uploads: map<Id, UploadRow>, p: Path, id: Id)
    requires id in trash && OriginsOk(files, trash, parts, uploads)
    requires forall q | q in files :: !(p <= q)
    ensures OriginsOk(files + Attach(trash[id], p), trash - {id}, parts, uploads)
  {
    hide OriginsOk;
    var files', trash' := files + Attach(trash[id], p), trash - {id};
    var back := (pl: Place) => if pl.InFiles? && p <= pl.path then InTrash(id, pl.path[|p|..]) else pl;
    forall pl, pl', f, f' |
      Holds(files', trash', pl, f) && Holds(files', trash', pl', f') && back(pl) == back(pl')
      ensures pl == pl'
    {
      if pl.InFiles? && p <= pl.path && pl'.InFiles? && p <= pl'.path {
        assert pl.path == p + pl.path[|p|..] && pl'.path == p + pl'.path[|p|..];
      }
    }
    OriginsMoved(files, trash, files', trash', parts, uploads, back);
  }

  lemma FsRestoreAgrees(s: State)
    requires Inv(s) && FsRestore(s).Some? && Trusted(s.health)
    ensures AgreeState(FsRestore(s).value)
  {
    hide OriginsOk, FinalizingOk, Agree, TreeOk, HiddenOk, Detach, Without, MetaOf, Attach, PublishedTargets, IntentOk, PhaseOk;
    var id := s.op.id;
    AttachedTree(s.files, s.trash[id], s.trashRows[id].path);
    AgreeWithoutDoubt(s);
    RestoreAgrees(s.files, s.trash, s.trashRows, s.hidden, id, PublishedTargets(s.parts, s.uploads));
  }

  lemma FsRestoreKeeps(s: State)
    requires Inv(s) && FsRestore(s).Some?
    ensures Inv(FsRestore(s).value)
  {
    hide OriginsOk, FinalizingOk, AgreeState, TreeOk, Detach, Without, MetaOf, Attach;
    var id, s' := s.op.id, FsRestore(s).value;
    var p := s.trashRows[id].path;
    AttachedTree(s.files, s.trash[id], p);
    CreatedTree(s.files, p, Dir);
    RestoreOrigins(s.files, s.trash, s.parts, s.uploads, p, id);
    FinalizingKept(s.files, s'.files, s.parts, s.uploads);
    if Trusted(s.health) {
      FsRestoreAgrees(s);
    }
  }

  lemma FinishRestoreHidden(trash: map<Id, Tree>, rows: map<Id, TrashRow>, hidden: map<Id, Rows>, id: Id)
    requires HiddenOk(trash, rows, hidden)
    ensures HiddenOk(trash, rows - {id}, hidden - {id})
  {
    hide MetaOf, Attach;
  }

  lemma FinishRestoreAgrees(files: Tree, trash: map<Id, Tree>, rows: map<Id, TrashRow>, visible: Rows,
                            hidden: map<Id, Rows>, published: set<Path>, id: Id)
    requires Agree(files, trash, rows, visible, hidden, published) && Returned(trash, rows, id)
    ensures id in hidden && hidden[id].Keys !! visible.Keys
    ensures Agree(files, trash, rows - {id}, visible + hidden[id], hidden - {id}, published)
  {
    hide MetaOf, Attach, HiddenOk, ShownOk, GhostsShown, NothingMoved;
    var rows' := rows - {id};
    FinishRestoreHidden(trash, rows, hidden, id);
    OthersSettled(trash, rows, rows', id);
    forall q | q in visible ensures q in files && visible[q] == MetaOfNode(files[q]) {
      ShownBesides(files, trash, rows, visible, id, q);
    }
    assert forall i :: Returned(trash, rows, i) ==> i == id;
    assert forall q :: q in hidden[id].Keys ==> q !in visible.Keys;
    AgreeSettled(files, trash, rows', visible + hidden[id], hidden - {id}, published);
  }

  lemma FinishRestoreRowKeeps(s: State, id: Id)
    requires Inv(s) && FinishRestoreRow(s, id).Some? && Returned(s.trash, s.trashRows, id)
    ensures var s' := FinishRestoreRow(s, id).value;
      && ContentOk(s'.files, s'.trash, s'.trashRows)
      && AgreeState(s')
      && (forall i :: Moved(s'.trash, s'.trashRows, i) || Returned(s'.trash, s'.trashRows, i) ==>
            i != id && (Moved(s.trash, s.trashRows, i) || Returned(s.trash, s.trashRows, i)))
  {
    hide OriginsOk, FinalizingOk, Agree, TreeOk, PayloadOk, PublishedTargets, DoubtOk, OpOk, PhaseOk, IntentOk;
    FinishRestoreAgrees(s.files, s.trash, s.trashRows, s.visible, s.hidden, PublishedTargets(s.parts, s.uploads), id);
  }

  lemma FinishRestoreKeeps(s: State)
    requires Inv(s) && FinishRestore(s).Some?
    ensures Inv(FinishRestore(s).value)
  {
    hide ContentOk, OriginsOk, FinalizingOk, Agree, PublishedTargets;
    FinishRestoreRowKeeps(s, s.op.id);
  }

  /****** publication ******/

  lemma PublishShown(files: Tree, trash: map<Id, Tree>, rows: map<Id, TrashRow>, visible: Rows,
                     hidden: map<Id, Rows>, published: set<Path>, target: Path, n: Node)
    requires ShownOk(files, trash, rows, visible) && ContentShown(files, trash, rows, visible, hidden, published)
    requires target !in files
    ensures ShownOk(files[target := n], trash, rows, visible)
    ensures ContentShown(files[target := n], trash, rows, visible, hidden, published + {target})
  {
    hide GhostAt, Returned;
  }

  lemma PublishAgrees(files: Tree, trash: map<Id, Tree>, rows: map<Id, TrashRow>, visible: Rows,
                      hidden: map<Id, Rows>, published: set<Path>, target: Path, n: Node)
    requires Agree(files, trash, rows, visible, hidden, published) && target !in files
    ensures Agree(files[target := n], trash, rows, visible, hidden, published + {target})
  {
    hide HiddenOk, GhostsShown, OneInDoubt, ShownOk, ContentShown, Returned;
    PublishShown(files, trash, rows, visible, hidden, published, target, n);
  }

  lemma PublishedTargetsGrow(parts: map<Id, Bytes>, uploads: map<Id, UploadRow>, u: Id)
    requires u in uploads && uploads[u].status == Finalizing
    ensures PublishedTargets(parts - {u}, uploads) == PublishedTargets(parts, uploads) + {uploads[u].target}
  {
    forall p ensures p in PublishedTargets(parts - {u}, uploads) <==> p in PublishedTargets(parts, uploads) + {uploads[u].target} {
      if p in PublishedTargets(parts - {u}, uploads) {
        var v :| v in uploads && Published(parts - {u}, uploads, v) && uploads[v].target == p;
        assert v == u || Published(parts, uploads, v);
      }
      if p in PublishedTargets(parts, uploads) {
        var v :| v in uploads && Published(parts, uploads, v) && uploads[v].target == p;
        assert Published(parts - {u}, uploads, v);
      }
      assert Published(parts - {u}, uploads, u);
    }
  }

  lemma PublishOrigins(files: Tree, trash: map<Id, Tree>, parts: map<Id, Bytes>, uploads: map<Id, UploadRow>, target: Path, u: Id)
    requires OriginsOk(files, trash, parts, uploads) && target !in files
    requires u in parts && u in uploads && uploads[u].status == Finalizing
    ensures OriginsOk(files[target := File(u, parts[u])], trash, parts - {u}, uploads)
  {
    var files' := files[target := File(u, parts[u])];
    assert forall pl, f :: Holds(files', trash, pl, f) && pl != InFiles(target) ==> Holds(files, trash, pl, f);
  }

  lemma FsFinalizeKeeps(s: State)
    requires Inv(s) && FsFinalize(s).Some?
    ensures Inv(FsFinalize(s).value)
  {
    hide OriginsOk, Agree, TreeOk, PayloadOk, PublishedTargets;
    var u, s' := s.op.id, FsFinalize(s).value;
    var target := s.uploads[u].target;
    CreatedTree(s.files, target, File(u, s.parts[u]));
    PublishOrigins(s.files, s.trash, s.parts, s.uploads, target, u);
    PublishedTargetsGrow(s.parts, s.uploads, u);
    if Trusted(s.health) {
      PublishAgrees(s.files, s.trash, s.trashRows, s.visible, s.hidden, PublishedTargets(s.parts, s.uploads), target, File(u, s.parts[u]));
    }
  }

  lemma CompleteAgrees(files: Tree, trash: map<Id, Tree>, rows: map<Id, TrashRow>, visible: Rows,
                       hidden: map<Id, Rows>, published: set<Path>, published': set<Path>, target: Path)
    requires Agree(files, trash, rows, visible, hidden, published) && NothingMoved(trash, rows)
    requires target in files && published <= published' + {target}
    ensures Agree(files, trash, rows, visible[target := MetaOfNode(files[target])], hidden, published')
  {
    hide MetaOf, Attach, HiddenOk, OneInDoubt, GhostsShown, ReturnedOk;
    assert forall i :: !Moved(trash, rows, i) && !Returned(trash, rows, i);
    AgreeSettled(files, trash, rows, visible[target := MetaOfNode(files[target])], hidden, published');
  }

  lemma CompleteUploadRowKeeps(s: State, u: Id)
    requires Inv(s) && CompleteUploadRow(s, u).Some? && Published(s.parts, s.uploads, u)
    requires NothingMoved(s.trash, s.trashRows)
    ensures var s' := CompleteUploadRow(s, u).value;
      && OriginsOk(s'.files, s'.trash, s'.parts, s'.uploads)
      && FinalizingOk(s'.files, s'.parts, s'.uploads)
      && AgreeState(s')
      && (forall v :: Published(s'.parts, s'.uploads, v) ==> Published(s.parts, s.uploads, v) && v != u)
  {
    hide ContentOk, OriginsOk, Agree, DoubtOk, OpOk, PhaseOk, IntentOk;
    var s' := CompleteUploadRow(s, u).value;
    var target := s.uploads[u].target;
    OriginsKept(s.files, s.trash, s.parts, s.uploads, s'.parts, s'.uploads);
    forall p | p in PublishedTargets(s.parts, s.uploads) && p != target ensures p in PublishedTargets(s'.parts, s'.uploads) {
      var v :| v in s.uploads && Published(s.parts, s.uploads, v) && s.uploads[v].target == p;
      assert Published(s'.parts, s'.uploads, v);
    }
    CompleteAgrees(s.files, s.trash, s.trashRows, s.visible, s.hidden, PublishedTargets(s.parts, s.uploads),
                   PublishedTargets(s'.parts, s'.uploads), target);
  }

  lemma CommitCompleteKeeps(s: State)
    requires Inv(s) && CommitComplete(s).Some?
    ensures Inv(CommitComplete(s).value)
  {
    hide ContentOk, OriginsOk, FinalizingOk, Agree, PublishedTargets;
    CompleteUploadRowKeeps(s, s.op.id);
  }

  /****** startup ******/

  lemma ReconcileCommitKeeps(s: State, id: Id)
    requires Inv(s) && s.phase.StartingTrash? && Moved(s.trash, s.trashRows, id)
    requires s.trashRows[id].path !in s.files && CommitTrashRow(s, id).Some?
    ensures Inv(CommitTrashRow(s, id).value)
  {
    hide OriginsOk, FinalizingOk, AgreeState, ContentOk, MetaOf, Under, Without;
    assert ContentOk(s.files, s.trash, s.trashRows);
    RowPathFree(s, id);
    CommitTrashRowKeeps(s, id);
  }

  lemma RowPathFree(s: State, id: Id)
    requires ContentOk(s.files, s.trash, s.trashRows) && id in s.trashRows && s.trashRows[id].path !in s.files
    ensures forall q | q in s.files :: !(s.trashRows[id].path <= q)
  {
    CreatedPathsFree(s.files, s.trashRows[id].path);
  }

  lemma ReconcileFinishKeeps(s: State, id: Id)
    requires Inv(s) && s.phase.StartingTrash? && Returned(s.trash, s.trashRows, id) && FinishRestoreRow(s, id).Some?
    ensures Inv(FinishRestoreRow(s, id).value)
  {
    hide OriginsOk, FinalizingOk, AgreeState, ContentOk;
    FinishRestoreRowKeeps(s, id);
  }

  /** A transitional row that is not in doubt is dropped or goes back to `trashed`. */
  lemma ReconcileRowKeeps(s: State, s': State, id: Id)
    requires Inv(s) && s.phase.StartingTrash? && s' == s.(trashRows := s'.trashRows) && id in s.trashRows
    requires
      var row := s.trashRows[id];
      || (row.state == Trashing && id !in s.trash && s'.trashRows == s.trashRows - {id})
      || (row.state == Restoring && id in s.trash && s'.trashRows == s.trashRows[id := row.(state := Trashed)])
    ensures Inv(s')
  {
    hide ContentOk, OriginsOk, FinalizingOk, AgreeState, DoubtWithin;
    assert s.trashRows[id].path != [] by { RowPaths(s.files, s.trash, s.trashRows); }
    ContentRow(s.files, s.trash, s.trashRows, s'.trashRows, id);
    RowStepAgrees(s, s');
  }

  lemma ReconcileTrashKeeps(s: State, id: Id)
    requires Inv(s) && ReconcileTrash(s, id).Some?
    ensures Inv(ReconcileTrash(s, id).value)
  {
    hide ContentOk, OriginsOk, FinalizingOk, AgreeState, ThroughFile, CommitTrashRow, FinishRestoreRow,
         DoubtOk, OpOk, IntentOk, PhaseOk;
    var row, s' := s.trashRows[id], ReconcileTrash(s, id).value;
    if row.state == Trashing && id in s.trash {
      ReconcileCommitKeeps(s, id);
    } else if row.state == Restoring && id !in s.trash {
      ReconcileFinishKeeps(s, id);
    } else {
      ReconcileRowKeeps(s, s', id);
    }
  }

  lemma CreatedPathsFree(t: Tree, p: Path)
    requires TreeOk(t) && p != [] && p !in t
    ensures forall q | q in t :: !(p <= q)
  {
    forall q | q in t ensures !(p <= q) {
      NothingBelow(t, p, q);
    }
  }

  lemma ReconcileUploadKeeps(s: State, u: Id)
    requires Inv(s) && ReconcileUpload(s, u).Some?
    ensures Inv(ReconcileUpload(s, u).value)
  {
    hide ListedBefore, ContentOk, OriginsOk, FinalizingOk, Agree, PublishedTargets, ThroughFile;
    if u in s.parts {
      ResetUploadRowKeeps(s, u);
    } else {
      CompleteUploadRowKeeps(s, u);
    }
  }
}
