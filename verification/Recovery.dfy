/** Every atomic step of the recovery protocol keeps the invariant. */
module Recovery {
  import opened Paths
  import opened World
  import opened Invariant

  /****** agreement, with and without work in doubt ******/

  lemma AgreeWithoutDoubt(s: State)
    requires AgreeState(s) && NoDoubt(s)
    ensures s.visible == MetaOf(s.files) && HiddenOk(s.trash, s.trashRows, s.hidden)
  {
    assert forall id :: !Moved(s.trash, s.trashRows, id) && !Returned(s.trash, s.trashRows, id);
    assert PublishedTargets(s.parts, s.uploads) == {};
    forall q ensures q in s.visible <==> q in MetaOf(s.files) {}
    assert s.visible.Keys == MetaOf(s.files).Keys;
  }

  lemma AgreeFromEqual(s: State)
    requires NoDoubt(s) && s.visible == MetaOf(s.files) && HiddenOk(s.trash, s.trashRows, s.hidden)
    ensures AgreeState(s)
  {
    assert forall id :: !Moved(s.trash, s.trashRows, id) && !Returned(s.trash, s.trashRows, id);
  }

  lemma SamePublished(parts: map<Id, Bytes>, uploads: map<Id, UploadRow>, parts': map<Id, Bytes>, uploads': map<Id, UploadRow>)
    requires forall u :: Published(parts, uploads, u) <==> Published(parts', uploads', u)
    requires forall u | Published(parts, uploads, u) && Published(parts', uploads', u) :: uploads[u].target == uploads'[u].target
    ensures PublishedTargets(parts, uploads) == PublishedTargets(parts', uploads')
  {
    forall p ensures p in PublishedTargets(parts, uploads) <==> p in PublishedTargets(parts', uploads') {
      if p in PublishedTargets(parts, uploads) {
        var u :| u in uploads && Published(parts, uploads, u) && uploads[u].target == p;
        assert Published(parts', uploads', u);
      }
      if p in PublishedTargets(parts', uploads') {
        var u :| u in uploads' && Published(parts', uploads', u) && uploads'[u].target == p;
        assert Published(parts, uploads, u);
      }
    }
  }

  ghost predicate OwnsFile(parts: map<Id, Bytes>, uploads: map<Id, UploadRow>, u: Id) {
    u !in parts && u in uploads && uploads[u].status in {Finalizing, Completed}
  }

  lemma OriginsKept(files: Tree, trash: map<Id, Tree>, parts: map<Id, Bytes>, uploads: map<Id, UploadRow>,
                    parts': map<Id, Bytes>, uploads': map<Id, UploadRow>)
    requires OriginsOk(files, trash, parts, uploads)
    requires forall u :: OwnsFile(parts, uploads, u) ==> OwnsFile(parts', uploads', u)
    ensures OriginsOk(files, trash, parts', uploads')
  {
    forall pl, f | Holds(files, trash, pl, f) ensures OwnsFile(parts', uploads', f.origin) {
      assert OwnsFile(parts, uploads, f.origin);
    }
  }

  /** A step of the upload tables alone that publishes nothing and settles nothing. */
  lemma UploadStepKeeps(s: State, s': State)
    requires Inv(s)
    requires s' == s.(parts := s'.parts, uploads := s'.uploads, exclusive := s'.exclusive, op := s'.op)
    requires s'.op == s.op || (s.op.CompleteVerified? && s'.op == CompletePrepared(s.op.id, s.op.from))
    requires forall u :: Published(s.parts, s.uploads, u) <==> Published(s'.parts, s'.uploads, u)
    requires forall u | Published(s.parts, s.uploads, u) && Published(s'.parts, s'.uploads, u) ::
      s.uploads[u].target == s'.uploads[u].target
    requires forall u :: OwnsFile(s.parts, s.uploads, u) ==> OwnsFile(s'.parts, s'.uploads, u)
    requires FinalizingOk(s'.files, s'.parts, s'.uploads) && PhaseOk(s') && OpOk(s')
    ensures Inv(s')
  {
    hide ContentOk, OriginsOk, FinalizingOk, Agree, PublishedTargets, OwnsFile, OpOk, PhaseOk;
    SamePublished(s.parts, s.uploads, s'.parts, s'.uploads);
    OriginsKept(s.files, s.trash, s.parts, s.uploads, s'.parts, s'.uploads);
  }

  /** The same trash ids are in doubt, with the same paths. */
  ghost predicate SameDoubt(trash: map<Id, Tree>, rows: map<Id, TrashRow>, rows': map<Id, TrashRow>) {
    forall id ::
      && (Moved(trash, rows, id) <==> Moved(trash, rows', id))
      && (Returned(trash, rows, id) <==> Returned(trash, rows', id))
      && (Moved(trash, rows, id) || Returned(trash, rows, id) ==> rows[id].path == rows'[id].path)
  }

  lemma ShownRows(files: Tree, trash: map<Id, Tree>, rows: map<Id, TrashRow>, rows': map<Id, TrashRow>, visible: Rows)
    requires SameDoubt(trash, rows, rows') && ShownOk(files, trash, rows, visible)
    ensures ShownOk(files, trash, rows', visible)
  {
    hide MetaOf, Attach;
    forall q | q in visible && exists id :: GhostAt(trash, rows, id, q, visible[q])
      ensures exists id :: GhostAt(trash, rows', id, q, visible[q])
    {
      var id :| GhostAt(trash, rows, id, q, visible[q]);
      assert GhostAt(trash, rows', id, q, visible[q]);
    }
  }

  lemma ContentRows(files: Tree, trash: map<Id, Tree>, rows: map<Id, TrashRow>, rows': map<Id, TrashRow>,
                    visible: Rows, hidden: map<Id, Rows>, published: set<Path>)
    requires SameDoubt(trash, rows, rows') && ContentShown(files, trash, rows, visible, hidden, published)
    ensures ContentShown(files, trash, rows', visible, hidden, published)
  {
  }

  lemma ReturnedRows(files: Tree, trash: map<Id, Tree>, rows: map<Id, TrashRow>, rows': map<Id, TrashRow>,
                     visible: Rows, hidden: map<Id, Rows>)
    requires SameDoubt(trash, rows, rows') && ReturnedOk(files, trash, rows, visible, hidden)
    requires GhostsShown(trash, rows, visible)
    ensures ReturnedOk(files, trash, rows', visible, hidden)
    ensures GhostsShown(trash, rows', visible)
  {
    hide MetaOf, Attach;
  }

  /** Apart from new or dropped `trashing` rows, the rows keep their ids and paths. */
  ghost predicate SameSettled(rows: map<Id, TrashRow>, rows': map<Id, TrashRow>) {
    forall id ::
      && (id in rows && rows[id].state != Trashing <==> id in rows' && rows'[id].state != Trashing)
      && (id in rows && rows[id].state != Trashing ==> rows[id].path == rows'[id].path)
  }

  lemma HiddenRows(trash: map<Id, Tree>, rows: map<Id, TrashRow>, rows': map<Id, TrashRow>, hidden: map<Id, Rows>)
    requires SameSettled(rows, rows') && HiddenOk(trash, rows, hidden)
    ensures HiddenOk(trash, rows', hidden)
  {
    hide MetaOf, Attach;
  }

  /** Trash rows that are not in doubt may change without touching agreement. */
  lemma AgreeRows(files: Tree, trash: map<Id, Tree>, rows: map<Id, TrashRow>, rows': map<Id, TrashRow>,
                  visible: Rows, hidden: map<Id, Rows>, published: set<Path>)
    requires SameDoubt(trash, rows, rows') && SameSettled(rows, rows')
    requires Agree(files, trash, rows, visible, hidden, published)
    ensures Agree(files, trash, rows', visible, hidden, published)
  {
    hide HiddenOk, ShownOk, ContentShown, GhostsShown, ReturnedOk;
    HiddenRows(trash, rows, rows', hidden);
    ShownRows(files, trash, rows, rows', visible);
    ContentRows(files, trash, rows, rows', visible, hidden, published);
    ReturnedRows(files, trash, rows, rows', visible, hidden);
  }

  lemma RowStepAgrees(s: State, s': State)
    requires s' == s.(trashRows := s'.trashRows, op := s'.op)
    requires SameDoubt(s.trash, s.trashRows, s'.trashRows) && SameSettled(s.trashRows, s'.trashRows)
    ensures AgreeState(s) ==> AgreeState(s')
    ensures forall ts, us :: DoubtWithin(s.trash, s.trashRows, s.parts, s.uploads, ts, us) ==>
      DoubtWithin(s'.trash, s'.trashRows, s'.parts, s'.uploads, ts, us)
  {
    hide Agree, PublishedTargets;
    if AgreeState(s) {
      AgreeRows(s.files, s.trash, s.trashRows, s'.trashRows, s.visible, s.hidden, PublishedTargets(s.parts, s.uploads));
    }
  }

  /****** steps that only move the program counter, the phase or the flag ******/

  lemma CrashKeeps(s: State)
    requires Inv(s)
    ensures Inv(Crash(s))
  {
    hide ContentOk, OriginsOk, FinalizingOk, Agree;
  }

  lemma StartKeeps(s: State, up: bool)
    requires Inv(s) && Start(s, up).Some?
    ensures Inv(Start(s, up).value)
  {
    hide ContentOk, OriginsOk, FinalizingOk, Agree;
  }

  lemma StorageLostKeeps(s: State)
    requires Inv(s) && StorageLost(s).Some?
    ensures Inv(StorageLost(s).value)
  {
    hide ContentOk, OriginsOk, FinalizingOk, Agree;
  }

  lemma TrashReconciledKeeps(s: State)
    requires Inv(s) && TrashReconciled(s).Some?
    ensures Inv(TrashReconciled(s).value)
  {
    hide ContentOk, OriginsOk, FinalizingOk, Agree;
  }

  lemma ReconcileUploadFailsKeeps(s: State, u: Id)
    requires Inv(s) && ReconcileUploadFails(s, u).Some?
    ensures Inv(ReconcileUploadFails(s, u).value)
  {
    hide ListedBefore, ContentOk, OriginsOk, FinalizingOk, Agree;
  }

  lemma ServeKeeps(s: State, gate: bool)
    requires Inv(s) && Serve(s, gate).Some?
    ensures Inv(Serve(s, gate).value)
  {
    hide ContentOk, OriginsOk, FinalizingOk, Agree;
  }

  lemma BeginMkdirKeeps(s: State, p: Path)
    requires Inv(s) && BeginMkdir(s, p).Some?
    ensures Inv(BeginMkdir(s, p).value)
  {
    hide ContentOk, OriginsOk, FinalizingOk, Agree;
  }

  lemma BeginMoveKeeps(s: State, src: Path, dst: Path)
    requires Inv(s) && BeginMove(s, src, dst).Some?
    ensures Inv(BeginMove(s, src, dst).value)
  {
    hide ContentOk, OriginsOk, FinalizingOk, Agree;
  }

  lemma AbortKeeps(s: State)
    requires Inv(s) && Abort(s).Some?
    ensures Inv(Abort(s).value)
  {
    hide DoubtWithin, PublishedTargets, ContentOk, OriginsOk, FinalizingOk, Agree;
  }

  lemma ClearMutationKeeps(s: State)
    requires Inv(s) && ClearMutation(s).Some?
    ensures Inv(ClearMutation(s).value)
  {
    hide ContentOk, OriginsOk, FinalizingOk, Agree;
  }

  lemma GiveUpKeeps(s: State)
    requires Inv(s) && GiveUp(s).Some?
    ensures Inv(GiveUp(s).value)
  {
    hide ContentOk, OriginsOk, FinalizingOk, Agree;
  }

  lemma FailTrashKeeps(s: State)
    requires Inv(s) && FailTrash(s).Some?
    ensures Inv(FailTrash(s).value)
  {
    hide ContentOk, OriginsOk, FinalizingOk, Agree;
  }

  lemma FailRestoreKeeps(s: State)
    requires Inv(s) && FailRestore(s).Some?
    ensures Inv(FailRestore(s).value)
  {
    hide ContentOk, OriginsOk, FinalizingOk, Agree;
  }

  lemma LockUploadKeeps(s: State, u: Id)
    requires Inv(s) && LockUpload(s, u).Some?
    ensures Inv(LockUpload(s, u).value)
  {
    hide ContentOk, OriginsOk, FinalizingOk, Agree;
  }

  lemma UnlockUploadKeeps(s: State, u: Id)
    requires Inv(s) && UnlockUpload(s, u).Some?
    ensures Inv(UnlockUpload(s, u).value)
  {
    hide ContentOk, OriginsOk, FinalizingOk, Agree;
  }

  lemma VerifyPartKeeps(s: State, u: Id)
    requires Inv(s) && VerifyPart(s, u).Some?
    ensures Inv(VerifyPart(s, u).value)
  {
    hide ContentOk, OriginsOk, FinalizingOk, Agree;
  }

  lemma AdoptPublishedKeeps(s: State, u: Id)
    requires Inv(s) && AdoptPublished(s, u).Some?
    ensures Inv(AdoptPublished(s, u).value)
  {
    hide ContentOk, OriginsOk, FinalizingOk, Agree;
  }

  lemma FailCompleteKeeps(s: State)
    requires Inv(s) && FailComplete(s).Some?
    ensures Inv(FailComplete(s).value)
  {
    hide ContentOk, OriginsOk, FinalizingOk, Agree;
  }

  lemma DownloadMarkOp(s: State, r: Reason)
    requires OpOk(s) && DownloadMark(s, r).Some?
    ensures OpOk(DownloadMark(s, r).value) && IntentOk(DownloadMark(s, r).value) && !Trusted(DownloadMark(s, r).value.health)
  {
    hide AgreeState, Moved, Returned, Published, HiddenOk, Renamed, MetaOf;
  }

  lemma DownloadMarkDoubt(s: State, r: Reason)
    requires DoubtOk(s) && DownloadMark(s, r).Some? && !Trusted(DownloadMark(s, r).value.health)
    ensures DoubtOk(DownloadMark(s, r).value)
  {
    hide DoubtWithin, Mark, Trusted;
  }

  lemma DownloadMarkKeeps(s: State, r: Reason)
    requires Inv(s) && DownloadMark(s, r).Some?
    ensures Inv(DownloadMark(s, r).value)
  {
    hide ContentOk, OriginsOk, FinalizingOk, AgreeState, OpOk, DoubtOk, IntentOk, Mark, Trusted;
    DownloadMarkOp(s, r);
    DownloadMarkDoubt(s, r);
  }

  lemma ReindexAgrees(files: Tree, trash: map<Id, Tree>, rows: map<Id, TrashRow>, published: set<Path>)
    requires forall id | id in rows :: rows[id].state == Trashed && id in trash
    ensures Agree(files, trash, rows, MetaOf(files),
                  map id | id in rows :: Attach(MetaOf(trash[id]), rows[id].path), published)
  {
    hide Attach;
    assert forall id :: !Moved(trash, rows, id) && !Returned(trash, rows, id);
  }

  lemma ReindexKeeps(s: State)
    requires Inv(s) && Reindex(s).Some?
    ensures Inv(Reindex(s).value)
  {
    hide PathsAccepted, ContentOk, OriginsOk, FinalizingOk, MetaOf, Attach, Agree, PublishedTargets;
    ReindexAgrees(s.files, s.trash, s.trashRows, PublishedTargets(s.parts, s.uploads));
  }

  /****** uploads that publish nothing ******/

  lemma CreatePartKeeps(s: State, u: Id)
    requires Inv(s) && CreatePart(s, u).Some?
    ensures Inv(CreatePart(s, u).value)
  {
    hide ContentOk, OriginsOk, Agree, PublishedTargets;
    var s' := CreatePart(s, u).value;
    UploadStepKeeps(s, s');
  }

  lemma CreateUploadOp(s: State, u: Id, row: UploadRow)
    requires OpOk(s) && u !in s.uploads
    ensures OpOk(s.(uploads := s.uploads[u := row]))
  {
  }

  lemma CreateUploadKeeps(s: State, u: Id, target: Path, total: nat)
    requires Inv(s) && CreateUpload(s, u, target, total).Some?
    ensures Inv(CreateUpload(s, u, target, total).value)
  {
    hide Accepted, ContentOk, OriginsOk, AgreeState, PublishedTargets, DoubtOk, IntentOk, OpOk;
    var s' := CreateUpload(s, u, target, total).value;
    CreateUploadOp(s, u, s'.uploads[u]);
    UploadStepKeeps(s, s');
  }

  lemma DropPartKeeps(s: State, u: Id)
    requires Inv(s) && DropPart(s, u).Some?
    ensures Inv(DropPart(s, u).value)
  {
    hide ContentOk, OriginsOk, Agree, PublishedTargets;
    var s' := DropPart(s, u).value;
    UploadStepKeeps(s, s');
  }

  lemma WritePartKeeps(s: State, u: Id, data: Bytes)
    requires Inv(s) && WritePart(s, u, data).Some?
    ensures Inv(WritePart(s, u, data).value)
  {
    hide ContentOk, OriginsOk, Agree, PublishedTargets;
    var s' := WritePart(s, u, data).value;
    UploadStepKeeps(s, s');
  }

  lemma RemovePartKeeps(s: State, u: Id)
    requires Inv(s) && RemovePart(s, u).Some?
    ensures Inv(RemovePart(s, u).value)
  {
    hide ContentOk, OriginsOk, Agree, PublishedTargets;
    var s' := RemovePart(s, u).value;
    UploadStepKeeps(s, s');
  }

  lemma FinishUncompletedKeeps(s: State, u: Id, status: Status)
    requires Inv(s) && FinishUncompleted(s, u, status).Some?
    ensures Inv(FinishUncompleted(s, u, status).value)
  {
    hide ContentOk, OriginsOk, Agree, PublishedTargets;
    var s' := FinishUncompleted(s, u, status).value;
    UploadStepKeeps(s, s');
  }

  lemma PrepareFinalizationKeeps(s: State, now: int)
    requires Inv(s) && PrepareFinalization(s, now).Some?
    ensures Inv(PrepareFinalization(s, now).value)
  {
    hide ContentOk, OriginsOk, Agree, PublishedTargets;
    var s' := PrepareFinalization(s, now).value;
    UploadStepKeeps(s, s');
  }

  lemma ResetUploadRowKeeps(s: State, u: Id)
    requires Inv(s) && ResetUploadRow(s, u).Some? && u in s.parts
    ensures var s' := ResetUploadRow(s, u).value;
      && OriginsOk(s'.files, s'.trash, s'.parts, s'.uploads)
      && FinalizingOk(s'.files, s'.parts, s'.uploads)
      && PublishedTargets(s'.parts, s'.uploads) == PublishedTargets(s.parts, s.uploads)
      && (forall v :: Published(s'.parts, s'.uploads, v) ==> Published(s.parts, s.uploads, v) && v != u)
  {
    hide ContentOk, Agree;
    var s' := ResetUploadRow(s, u).value;
    SamePublished(s.parts, s.uploads, s'.parts, s'.uploads);
  }

  lemma ResetFinalizingKeeps(s: State)
    requires Inv(s) && ResetFinalizing(s).Some?
    ensures Inv(ResetFinalizing(s).value)
  {
    hide ContentOk, OriginsOk, FinalizingOk, Agree, PublishedTargets;
    ResetUploadRowKeeps(s, s.op.id);
  }

  /****** trash rows ******/

  lemma RowPaths(files: Tree, trash: map<Id, Tree>, rows: map<Id, TrashRow>)
    requires ContentOk(files, trash, rows)
    ensures forall id | id in rows :: rows[id].path != [] && (rows[id].state == Trashed ==> id in trash)
    ensures forall id | id in trash :: id in rows
  {
  }

  lemma ContentRow(files: Tree, trash: map<Id, Tree>, rows: map<Id, TrashRow>, rows': map<Id, TrashRow>, id: Id)
    requires ContentOk(files, trash, rows)
    requires
      || (id !in trash && rows' == rows - {id})
      || (id in rows' && rows' == rows[id := rows'[id]] && rows'[id].path != [] && (rows'[id].state == Trashed ==> id in trash))
    ensures ContentOk(files, trash, rows')
  {
    hide PayloadOk, TreeOk;
  }

  /** A row whose payload lies in trash may pass between `trashed` and `restoring`. */
  lemma FlippedRow(trash: map<Id, Tree>, rows: map<Id, TrashRow>, id: Id, state: TrashState)
    requires id in rows && id in trash && rows[id].state != Trashing && state != Trashing
    ensures SameDoubt(trash, rows, rows[id := rows[id].(state := state)])
    ensures SameSettled(rows, rows[id := rows[id].(state := state)])
  {
  }

  lemma NoDoubtWithin(s: State)
    requires NoDoubt(s)
    ensures forall ts, us :: DoubtWithin(s.trash, s.trashRows, s.parts, s.uploads, ts, us)
  {
  }

  lemma PrepareTrashKeeps(s: State, id: Id, p: Path)
    requires Inv(s) && PrepareTrash(s, id, p).Some?
    ensures Inv(PrepareTrash(s, id, p).value)
  {
    hide ContentOk, OriginsOk, FinalizingOk, AgreeState, DoubtWithin;
    RowPaths(s.files, s.trash, s.trashRows);
    var s' := PrepareTrash(s, id, p).value;
    ContentRow(s.files, s.trash, s.trashRows, s'.trashRows, id);
    RowStepAgrees(s, s');
  }

  lemma AbortTrashKeeps(s: State)
    requires Inv(s) && AbortTrash(s).Some?
    ensures Inv(AbortTrash(s).value)
  {
    hide ContentOk, OriginsOk, FinalizingOk, AgreeState, DoubtWithin;
    RowPaths(s.files, s.trash, s.trashRows);
    var s' := AbortTrash(s).value;
    if s.storageUp { NoDoubtWithin(s); }
    ContentRow(s.files, s.trash, s.trashRows, s'.trashRows, s.op.id);
    RowStepAgrees(s, s');
  }

  lemma BeginRestoreKeeps(s: State, id: Id)
    requires Inv(s) && BeginRestore(s, id).Some?
    ensures Inv(BeginRestore(s, id).value)
  {
    hide ContentOk, OriginsOk, FinalizingOk, AgreeState, DoubtWithin, SameDoubt, SameSettled;
    RowPaths(s.files, s.trash, s.trashRows);
    var s' := BeginRestore(s, id).value;
    FlippedRow(s.trash, s.trashRows, id, Restoring);
    ContentRow(s.files, s.trash, s.trashRows, s'.trashRows, id);
    RowStepAgrees(s, s');
  }

  lemma RollbackRestoreKeeps(s: State)
    requires Inv(s) && RollbackRestore(s).Some?
    ensures Inv(RollbackRestore(s).value)
  {
    hide ContentOk, OriginsOk, FinalizingOk, AgreeState, DoubtWithin, SameDoubt, SameSettled;
    RowPaths(s.files, s.trash, s.trashRows);
    var s' := RollbackRestore(s).value;
    if s.storageUp { NoDoubtWithin(s); }
    FlippedRow(s.trash, s.trashRows, s.op.id, Trashed);
    ContentRow(s.files, s.trash, s.trashRows, s'.trashRows, s.op.id);
    RowStepAgrees(s, s');
  }
}
