/** Exactly which crashed states some run of restarts and offline reindexes brings back
    to serving: the condition, the runs that get there, and why nothing else does. */
module Recoverability {
  import opened Paths
  import opened World
  import opened Invariant
  import opened Outcomes
  import opened Protocol
  import opened Runs
  import opened Service
  import opened Settling

  /****** the condition ******/

  /** Exactly one of the two existence bits of the row is set, and its path can be looked up. */
  predicate BitsDiffer(s: State, id: Id)
    requires id in s.trashRows
  {
    var p := s.trashRows[id].path;
    !ThroughFile(s.files, p) && ((id in s.trash) != (p in s.files))
  }

  /** Each row in doubt may be repaired under the recorded reason. */
  ghost predicate FlagAllows(s: State, id: Id) {
    && (Moved(s.trash, s.trashRows, id) ==> MayRepair(s.health, TrashOf(id)))
    && (Returned(s.trash, s.trashRows, id) ==> MayRepair(s.health, RestoreOf(id)))
  }

  /** The target can be looked up, and part and target are not both there. */
  predicate PartOrTarget(s: State, u: Id)
    requires u in s.uploads
  {
    var row := s.uploads[u];
    !ThroughFile(s.files, row.target) && (u in s.parts ==> row.target !in s.files)
  }

  /** No publication is listed before this upload; its commit would be refused. */
  ghost predicate ComesFirst(s: State, u: Id) {
    forall v | Published(s.parts, s.uploads, v) && v != u && u in s.uploads ::
      ListedBefore(s.uploads[u].stamp, u, s.uploads[v].stamp, v)
  }

  /** The recorded reason belongs to work that a startup settles before anything is refused. */
  ghost predicate ReasonOwned(s: State) {
    s.health.Unhealthy? &&
    match s.health.reason
    case TrashOf(id) => Moved(s.trash, s.trashRows, id)
    case RestoreOf(id) => Returned(s.trash, s.trashRows, id)
    case UploadOf(u) => IsFinalizing(s.uploads, u) && ComesFirst(s, u)
    case _ => false
  }

  /** The flag is clear, or settling its work clears it, or a reindex can. */
  ghost predicate FlagClears(s: State) {
    s.health.Healthy? || ReasonOwned(s) || PathsAccepted(s.files, s.trash, s.trashRows, s.fold)
  }

  ghost predicate Recoverable(s: State) {
    && (forall id | Transitional(s.trashRows, id) :: BitsDiffer(s, id))
    && (forall id :: FlagAllows(s, id))
    && (forall u | IsFinalizing(s.uploads, u) :: PartOrTarget(s, u))
    && FlagClears(s)
  }

  /****** a run that gets there ******/

  ghost predicate Starting(s: State) {
    Inv(s) && Recoverable(s) && s.phase.StartingTrash? && s.storageUp
  }

  lemma SettledRow(s: State, id: Id)
    requires Inv(s) && ReconcileTrash(s, id).Some? && Transitional(s.trashRows, id)
    ensures var t, p := ReconcileTrash(s, id).value, s.trashRows[id].path;
      && t.files == s.files && t.trash == s.trash && t.parts == s.parts && t.uploads == s.uploads
      && t.phase == s.phase && t.storageUp == s.storageUp && t.fold == s.fold && t.op == s.op
      && t.trashRows == (if id in s.trash then s.trashRows[id := TrashRow(p, Trashed)] else s.trashRows - {id})
      && t.health == (if Moved(s.trash, s.trashRows, id) then Clear(s.health, TrashOf(id))
                      else if Returned(s.trash, s.trashRows, id) then Clear(s.health, RestoreOf(id)) else s.health)
  {
    hide Inv, ThroughFile, Clear, CommitTrashRow, FinishRestoreRow;
    RowResults(s, id);
  }

  lemma RowResults(s: State, id: Id)
    requires id in s.trashRows
    ensures var r := CommitTrashRow(s, id); r.Some? ==>
      r.value == s.(visible := r.value.visible, hidden := r.value.hidden, health := Clear(s.health, TrashOf(id)),
                    trashRows := s.trashRows[id := TrashRow(s.trashRows[id].path, Trashed)])
    ensures var r := FinishRestoreRow(s, id); r.Some? ==>
      r.value == s.(visible := r.value.visible, hidden := r.value.hidden, health := Clear(s.health, RestoreOf(id)),
                    trashRows := s.trashRows - {id})
  {
    hide MayRepair, Clear, Without, Under;
  }

  lemma SettleOne(s: State, id: Id)
    requires Starting(s) && Transitional(s.trashRows, id)
    ensures ReconcileTrash(s, id).Some? && Starting(ReconcileTrash(s, id).value)
    ensures PendingTrash(ReconcileTrash(s, id).value.trashRows) == PendingTrash(s.trashRows) - {id}
  {
    hide Inv, ThroughFile, ReconcileTrash, ApplyTreeStep, ApplyTrashStep, ApplyUploadStep, PathsAccepted, MayRepair;
    assert BitsDiffer(s, id) && FlagAllows(s, id);
    ReconcileTrashExactly(s, id);
    var t := ReconcileTrash(s, id).value;
    assert Inv(t) by { ApplyKeeps(s, Process(EvReconcileTrash(id))); }
    SettledRow(s, id);
    StaysRecoverable(s, t, id);
  }

  lemma StaysRecoverable(s: State, t: State, id: Id)
    requires Recoverable(s) && Transitional(s.trashRows, id)
    requires t.files == s.files && t.trash == s.trash && t.parts == s.parts && t.uploads == s.uploads && t.fold == s.fold
    requires t.trashRows == (if id in s.trash then s.trashRows[id := TrashRow(s.trashRows[id].path, Trashed)] else s.trashRows - {id})
    requires t.health == (if Moved(s.trash, s.trashRows, id) then Clear(s.health, TrashOf(id))
                          else if Returned(s.trash, s.trashRows, id) then Clear(s.health, RestoreOf(id)) else s.health)
    ensures Recoverable(t)
  {
    hide ThroughFile, PathsAccepted, Accepted;
    forall i | Transitional(t.trashRows, i) ensures BitsDiffer(t, i) {
      assert BitsDiffer(s, i);
    }
    forall i ensures FlagAllows(t, i) {
      assert FlagAllows(s, i);
    }
    forall u | IsFinalizing(t.uploads, u) ensures PartOrTarget(t, u) {
      assert PartOrTarget(s, u);
    }
    if PathsAccepted(s.files, s.trash, s.trashRows, s.fold) {
      StillAccepted(s.files, s.trash, s.trashRows, t.trashRows, s.fold);
    }
  }

  lemma StillAccepted(files: Tree, trash: map<Id, Tree>, rows: map<Id, TrashRow>, rows': map<Id, TrashRow>, fold: char -> char)
    requires PathsAccepted(files, trash, rows, fold)
    requires forall id | id in rows' :: id in rows && rows'[id].path == rows[id].path
    ensures PathsAccepted(files, trash, rows', fold)
  {
    hide Accepted;
  }

  lemma {:induction false} SettleAll(s: State) returns (t: State)
    requires Starting(s)
    ensures Leads(s, t) && Starting(t) && NoTransitionalTrash(t)
    decreases |PendingTrash(s.trashRows)|
  {
    hide Starting, Leads, Apply, ReconcileTrash, NoTransitionalTrash;
    LeadsNowhere(s);
    if PendingTrash(s.trashRows) == {} {
      NonePending(s);
      t := s;
    } else {
      var id :| id in PendingTrash(s.trashRows);
      SettleOne(s, id);
      var next := ReconcileTrash(s, id).value;
      ReconcileApplies(s, id);
      LeadsStep(s, s, Process(EvReconcileTrash(id)));
      t := SettleAll(next);
      LeadsOn(s, next, t);
    }
  }

  lemma ReconcileApplies(s: State, id: Id)
    ensures Apply(s, Process(EvReconcileTrash(id))) == ReconcileTrash(s, id)
    ensures Apply(s, Process(EvReconcileUpload(id))) == ReconcileUpload(s, id)
  {
    hide ReconcileTrash, ReconcileUpload;
  }

  /** Only finalizing uploads are left, and the flag is clear or belongs to one of them
      that comes before every other publication. */
  ghost predicate Uploading(s: State) {
    && Inv(s) && s.phase.StartingUploads? && s.storageUp
    && (forall u | IsFinalizing(s.uploads, u) :: PartOrTarget(s, u))
    && (s.health.Healthy? ||
        (s.health.reason.UploadOf? && IsFinalizing(s.uploads, s.health.reason.id) && ComesFirst(s, s.health.reason.id)))
  }

  lemma {:induction false} FinishAll(s: State) returns (t: State)
    requires Uploading(s)
    ensures Leads(s, t) && t.phase == Serving(true)
    decreases |PendingUploads(s.uploads)|
  {
    hide Uploading, Leads, Apply, ReconcileUpload, NoFinalizing;
    LeadsNowhere(s);
    if PendingUploads(s.uploads) == {} {
      NonePendingUploads(s);
      t := ServeAll(s);
    } else {
      var u := NextUpload(s);
      FinishOne(s, u);
      var next := ReconcileUpload(s, u).value;
      ReconcileApplies(s, u);
      LeadsStep(s, s, Process(EvReconcileUpload(u)));
      t := FinishAll(next);
      LeadsOn(s, next, t);
    }
  }

  /** The next upload of the listing; a refusal would need another reason. */
  lemma NextUpload(s: State) returns (u: Id)
    requires Uploading(s) && PendingUploads(s.uploads) != {}
    ensures ListedFirst(s.uploads, u) && IsFinalizing(s.uploads, u)
    ensures u !in s.parts ==> MayRepair(s.health, UploadOf(u))
  {
    hide Inv, PartOrTarget, ListedBefore;
    u := FirstListed(PendingUploads(s.uploads), StampIn(s.uploads));
    forall v | v in s.uploads && s.uploads[v].status == Finalizing && v != u
      ensures ListedBefore(s.uploads[u].stamp, u, s.uploads[v].stamp, v)
    {
      assert v in PendingUploads(s.uploads);
    }
    if u !in s.parts && s.health.Unhealthy? && s.health.reason.id != u {
      var w := s.health.reason.id;
      ListedOnce(s.uploads[u].stamp, u, s.uploads[w].stamp, w);
    }
  }

  lemma ServeAll(s: State) returns (t: State)
    requires Uploading(s) && NoFinalizing(s)
    ensures Leads(s, t) && t.phase == Serving(true)
  {
    hide Leads, Inv, PartOrTarget;
    t := s.(phase := Serving(true));
    assert Apply(s, Process(EvServe(true))) == Some(t);
    hide Apply;
    LeadsNowhere(s);
    LeadsStep(s, s, Process(EvServe(true)));
  }

  lemma FinishOne(s: State, u: Id)
    requires Uploading(s) && ListedFirst(s.uploads, u) && IsFinalizing(s.uploads, u) && (u !in s.parts ==> MayRepair(s.health, UploadOf(u)))
    ensures ReconcileUpload(s, u).Some? && Uploading(ReconcileUpload(s, u).value)
    ensures PendingUploads(ReconcileUpload(s, u).value.uploads) == PendingUploads(s.uploads) - {u}
  {
    hide Inv, ThroughFile, ReconcileUpload, UploadSettledByBits, ListedBefore, ListedFirst, ApplyTreeStep, ApplyTrashStep, ApplyUploadStep;
    assert PartOrTarget(s, u);
    ReconcileUploadExactly(s, u);
    var t := ReconcileUpload(s, u).value;
    assert Inv(t) by { ApplyKeeps(s, Process(EvReconcileUpload(u))); }
    ReconcileUploadSettles(s, u);
    FlagAfterUpload(s, u);
    PendingUploadsShrink(s, t.uploads, u);
    forall i | IsFinalizing(t.uploads, i) ensures SameAt(s.uploads, t.uploads, i) && i != u && IsFinalizing(s.uploads, i) {
      PendingIsFinalizing(t.uploads, i);
      PendingIsFinalizing(s.uploads, i);
    }
    forall i | IsFinalizing(t.uploads, i) ensures PartOrTarget(t, i) {
      assert PartOrTarget(s, i);
    }
    if t.health.Unhealthy? {
      var w := t.health.reason.id;
      PendingIsFinalizing(t.uploads, w);
      PendingIsFinalizing(s.uploads, w);
      assert SameAt(s.uploads, t.uploads, w);
      forall v | Published(t.parts, t.uploads, v) && v != w ensures ListedBefore(t.uploads[w].stamp, w, t.uploads[v].stamp, v) {
        assert IsFinalizing(t.uploads, v);
      }
    }
  }

  lemma FlagAfterUpload(s: State, u: Id)
    requires ReconcileUpload(s, u).Some?
    ensures ReconcileUpload(s, u).value.health == Clear(s.health, UploadOf(u))
  {
    hide ListedBefore, ThroughFile, MayRepair, Clear, RowAvailable;
  }

  lemma PendingUploadsShrink(s: State, uploads: map<Id, UploadRow>, u: Id)
    requires IsFinalizing(s.uploads, u) && UploadSettledByBits(s, uploads, u)
    requires forall i | i != u :: SameAt(s.uploads, uploads, i)
    ensures PendingUploads(uploads) == PendingUploads(s.uploads) - {u}
  {
    forall i ensures i in PendingUploads(uploads) <==> i in PendingUploads(s.uploads) - {u} {
      if i != u { assert SameAt(s.uploads, uploads, i); }
    }
  }

  /** Between the two loops; the reindex comes in when no row clears the reason in time. */
  lemma TurnToUploading(s: State) returns (t: State)
    requires Starting(s) && NoTransitionalTrash(s)
    ensures Leads(s, t) && Uploading(t)
  {
    hide Leads, Inv, Apply, BitsDiffer, ThroughFile, NoTransitionalTrash, PathsAccepted;
    LeadsNowhere(s);
    if s.health.Healthy? || ReasonOwned(s) {
      t := s.(phase := StartingUploads);
      assert Apply(s, Process(EvTrashReconciled)) == Some(t) by { TurnApplies(s); }
      ApplyKeeps(s, Process(EvTrashReconciled));
      LeadsStep(s, s, Process(EvTrashReconciled));
      NothingInDoubt(s);
      forall u | IsFinalizing(t.uploads, u) ensures PartOrTarget(t, u) {
        assert PartOrTarget(s, u);
      }
    } else {
      t := ReindexAll(s);
    }
  }

  lemma TurnApplies(s: State)
    requires s.phase.StartingTrash? && s.storageUp && NoTransitionalTrash(s)
    ensures Apply(s, Process(EvTrashReconciled)) == Some(s.(phase := StartingUploads))
  {
    hide NoTransitionalTrash;
  }

  lemma NothingInDoubt(s: State)
    requires NoTransitionalTrash(s)
    ensures forall id :: !Moved(s.trash, s.trashRows, id) && !Returned(s.trash, s.trashRows, id)
  {
  }

  lemma ReindexAll(s: State) returns (t: State)
    requires Inv(s) && s.phase.StartingTrash? && s.storageUp && NoTransitionalTrash(s)
    requires PathsAccepted(s.files, s.trash, s.trashRows, s.fold)
    requires forall u | IsFinalizing(s.uploads, u) :: PartOrTarget(s, u)
    ensures Leads(s, t) && Uploading(t)
  {
    hide Leads, Inv, PathsAccepted, ApplyTreeStep, ApplyTrashStep, ApplyUploadStep, MetaOf, Attach, ThroughFile;
    var s1 := Crash(s);
    assert Reindex(s1).Some? by { TrashedHavePayloads(s); }
    var s2 := Reindex(s1).value;
    var s3 := s2.(phase := StartingTrash, storageUp := true);
    t := s3.(phase := StartingUploads);
    assert Apply(s, Process(EvCrash)) == Some(s1);
    assert Apply(s1, Process(EvReindex)) == Some(s2);
    assert Apply(s2, Process(EvStart(true))) == Some(s3);
    assert Apply(s3, Process(EvTrashReconciled)) == Some(t) by { SameTables(s, s3); TurnApplies(s3); }
    hide Apply, Reindex;
    ApplyKeeps(s, Process(EvCrash));
    ApplyKeeps(s1, Process(EvReindex));
    ApplyKeeps(s2, Process(EvStart(true)));
    ApplyKeeps(s3, Process(EvTrashReconciled));
    LeadsNowhere(s);
    LeadsStep(s, s, Process(EvCrash));
    LeadsStep(s, s1, Process(EvReindex));
    LeadsStep(s, s2, Process(EvStart(true)));
    LeadsStep(s, s3, Process(EvTrashReconciled));
    forall u | IsFinalizing(t.uploads, u) ensures PartOrTarget(t, u) {
      assert PartOrTarget(s, u);
    }
  }

  lemma TrashedHavePayloads(s: State)
    requires Inv(s) && NoTransitionalTrash(s)
    ensures forall id | id in s.trashRows :: s.trashRows[id].state == Trashed && id in s.trash
  {
    hide OriginsOk, FinalizingOk, AgreeState, OpOk, DoubtOk, IntentOk, PhaseOk, TreeOk, PayloadOk;
  }

  lemma RecoverableServes(s: State) returns (t: State)
    requires Inv(s) && s.phase.Down? && Recoverable(s)
    ensures Leads(s, t) && t.phase == Serving(true)
  {
    hide Leads, Inv, Recoverable;
    var s1 := s.(phase := StartingTrash, storageUp := true);
    assert Apply(s, Process(EvStart(true))) == Some(s1);
    assert Recoverable(s1) by { PhaseIsFree(s, s1); }
    hide Apply;
    ApplyKeeps(s, Process(EvStart(true)));
    LeadsNowhere(s);
    LeadsStep(s, s, Process(EvStart(true)));
    var s2 := SettleAll(s1);
    var s3 := TurnToUploading(s2);
    t := FinishAll(s3);
    LeadsOn(s, s1, s2);
    LeadsOn(s, s2, s3);
    LeadsOn(s, s3, t);
  }

  lemma PhaseIsFree(s: State, t: State)
    requires Recoverable(s) && t == s.(phase := t.phase, storageUp := t.storageUp)
    ensures Recoverable(t)
  {
    hide PathsAccepted, ThroughFile;
    forall id | Transitional(t.trashRows, id) ensures BitsDiffer(t, id) {
      assert BitsDiffer(s, id);
    }
    forall id ensures FlagAllows(t, id) {
      assert FlagAllows(s, id);
    }
    forall u | IsFinalizing(t.uploads, u) ensures PartOrTarget(t, u) {
      assert PartOrTarget(s, u);
    }
  }
}
