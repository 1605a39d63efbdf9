/** What the recovery protocol guarantees over whole runs: every interleaving of
    requests, downloads, storage loss, crashes, restarts and offline reindexes. */
module Protocol {
  import opened Paths
  import opened World
  import opened Invariant
  import opened Trees
  import opened Recovery
  import opened FileSteps
  import opened TrashSteps

  lemma ProcessStepKeeps(s: State, e: ProcessStep)
    requires Inv(s) && ApplyProcessStep(s, e).Some?
    ensures Inv(ApplyProcessStep(s, e).value)
  {
    hide Inv;
    match e
    case EvCrash => CrashKeeps(s);
    case EvStart(up) => StartKeeps(s, up);
    case EvStorageLost => StorageLostKeeps(s);
    case EvReconcileTrash(id) => ReconcileTrashKeeps(s, id);
    case EvTrashReconciled => TrashReconciledKeeps(s);
    case EvReconcileUpload(u) => ReconcileUploadKeeps(s, u);
    case EvReconcileUploadFails(u) => ReconcileUploadFailsKeeps(s, u);
    case EvServe(gate) => ServeKeeps(s, gate);
    case EvReindex => ReindexKeeps(s);
    case EvDownloadMark(r) => DownloadMarkKeeps(s, r);
  }

  lemma TreeStepKeeps(s: State, e: TreeStep)
    requires Inv(s) && ApplyTreeStep(s, e).Some?
    ensures Inv(ApplyTreeStep(s, e).value)
  {
    hide Inv;
    match e
    case EvBeginMkdir(p) => BeginMkdirKeeps(s, p);
    case EvFsMkdir => FsMkdirKeeps(s);
    case EvCommitMkdir => CommitMkdirKeeps(s);
    case EvUndoMkdir => UndoMkdirKeeps(s);
    case EvBeginMove(src, dst) => BeginMoveKeeps(s, src, dst);
    case EvFsMove => FsMoveKeeps(s);
    case EvCommitMove => CommitMoveKeeps(s);
    case EvUndoMove => UndoMoveKeeps(s);
    case EvAbort => AbortKeeps(s);
    case EvClearMutation => ClearMutationKeeps(s);
    case EvGiveUp => GiveUpKeeps(s);
  }

  lemma TrashStepKeeps(s: State, e: TrashStep)
    requires Inv(s) && ApplyTrashStep(s, e).Some?
    ensures Inv(ApplyTrashStep(s, e).value)
  {
    hide Inv;
    match e
    case EvPrepareTrash(id, p) => PrepareTrashKeeps(s, id, p);
    case EvFsTrash => FsTrashKeeps(s);
    case EvAbortTrash => AbortTrashKeeps(s);
    case EvCommitTrash => CommitTrashKeeps(s);
    case EvFailTrash => FailTrashKeeps(s);
    case EvBeginRestore(id) => BeginRestoreKeeps(s, id);
    case EvFsRestore => FsRestoreKeeps(s);
    case EvRollbackRestore => RollbackRestoreKeeps(s);
    case EvFinishRestore => FinishRestoreKeeps(s);
    case EvFailRestore => FailRestoreKeeps(s);
  }

  lemma UploadStepAllKeeps(s: State, e: UploadStep)
    requires Inv(s) && ApplyUploadStep(s, e).Some?
    ensures Inv(ApplyUploadStep(s, e).value)
  {
    hide Inv;
    match e
    case EvCreatePart(u) => CreatePartKeeps(s, u);
    case EvCreateUpload(u, target, total) => CreateUploadKeeps(s, u, target, total);
    case EvDropPart(u) => DropPartKeeps(s, u);
    case EvWritePart(u, data) => WritePartKeeps(s, u, data);
    case EvLockUpload(u) => LockUploadKeeps(s, u);
    case EvRemovePart(u) => RemovePartKeeps(s, u);
    case EvFinishUncompleted(u, status) => FinishUncompletedKeeps(s, u, status);
    case EvUnlockUpload(u) => UnlockUploadKeeps(s, u);
    case EvVerifyPart(u) => VerifyPartKeeps(s, u);
    case EvPrepareFinalization(now) => PrepareFinalizationKeeps(s, now);
    case EvFsFinalize => FsFinalizeKeeps(s);
    case EvResetFinalizing => ResetFinalizingKeeps(s);
    case EvAdoptPublished(u) => AdoptPublishedKeeps(s, u);
    case EvCommitComplete => CommitCompleteKeeps(s);
    case EvFailComplete => FailCompleteKeeps(s);
  }

  lemma ApplyKeeps(s: State, e: Event)
    requires Inv(s) && Apply(s, e).Some?
    ensures Inv(Apply(s, e).value)
  {
    hide Inv, ApplyProcessStep, ApplyTreeStep, ApplyTrashStep, ApplyUploadStep;
    match e
    case Process(p) => ProcessStepKeeps(s, p);
    case OnTree(t) => TreeStepKeeps(s, t);
    case OnTrash(b) => TrashStepKeeps(s, b);
    case OnUpload(u) => UploadStepAllKeeps(s, u);
  }

  /** Every state of every run that starts with an empty store. */
  lemma {:induction false} RunKeeps(fold: char -> char, es: seq<Event>)
    requires Exec(Empty(fold), es).Some?
    ensures Inv(Exec(Empty(fold), es).value)
  {
    hide Inv, Apply;
    if es == [] {
      EmptyHolds(fold);
    } else {
      RunKeeps(fold, es[..|es| - 1]);
      ApplyKeeps(Exec(Empty(fold), es[..|es| - 1]).value, es[|es| - 1]);
    }
  }

  lemma EmptyHolds(fold: char -> char)
    ensures Inv(Empty(fold))
  {
  }

  /****** fail-closed agreement and the startup gate ******/

  predicate Settled(s: State) {
    s.health.Healthy? && NoTransitionalTrash(s) && NoFinalizing(s)
  }

  /** The shown rows are the content tree; each trash id's rows are its payload. */
  ghost predicate IndexIsContent(s: State) {
    && s.visible == MetaOf(s.files)
    && s.trash.Keys == s.trashRows.Keys == s.hidden.Keys
    && (forall id | id in s.trashRows :: s.hidden[id] == Attach(MetaOf(s.trash[id]), s.trashRows[id].path))
  }

  lemma SettledAgrees(s: State)
    requires Inv(s) && Settled(s)
    ensures IndexIsContent(s) && NoDoubt(s)
  {
    hide OriginsOk, FinalizingOk, Agree, TreeOk, PayloadOk, OpOk, DoubtOk, IntentOk, MetaOf, Attach;
    AgreeWithoutDoubt(s);
    assert forall id | id in s.trashRows :: id in s.trash;
  }

  lemma FailClosedAgreement(fold: char -> char, es: seq<Event>)
    requires Exec(Empty(fold), es).Some? && Settled(Exec(Empty(fold), es).value)
    ensures IndexIsContent(Exec(Empty(fold), es).value)
  {
    hide Inv, IndexIsContent, Settled, Exec, NoDoubt;
    RunKeeps(fold, es);
    SettledAgrees(Exec(Empty(fold), es).value);
  }

  /** A gate that opened without error opened on a settled, agreeing state. */
  lemma StartupGate(fold: char -> char, es: seq<Event>)
    requires Exec(Empty(fold), es + [Process(EvServe(true))]).Some?
    ensures var s := Exec(Empty(fold), es + [Process(EvServe(true))]).value;
      s.phase == Serving(true) && Settled(s) && IndexIsContent(s)
  {
    hide Inv, IndexIsContent;
    var all := es + [Process(EvServe(true))];
    assert all[..|all| - 1] == es;
    RunKeeps(fold, es);
    var s0, s := Exec(Empty(fold), es).value, Exec(Empty(fold), all).value;
    assert NoTransitionalTrash(s0) by { UploadsFollowTrash(s0); }
    assert Settled(s);
    FailClosedAgreement(fold, all);
  }

  lemma UploadsFollowTrash(s: State)
    requires Inv(s)
    ensures s.phase.StartingUploads? ==> NoTransitionalTrash(s)
  {
    hide ContentOk, OriginsOk, FinalizingOk, AgreeState, OpOk, DoubtOk, IntentOk;
  }

  /** While the server runs, the reason names the only disagreement: the rows are
      the content, plus the trashed subtree it names, minus the returned subtree
      or the published target it names. */
  lemma ReasonNamesDisagreement(fold: char -> char, es: seq<Event>)
    requires Exec(Empty(fold), es).Some?
    ensures var s := Exec(Empty(fold), es).value;
      s.phase.Serving? && s.storageUp && s.op.Idle? ==>
        match s.health
        case Healthy => NoDoubt(s) && s.visible == MetaOf(s.files)
        case Unhealthy(TrashOf(id)) => AgreeState(s) && DoubtWithin(s.trash, s.trashRows, s.parts, s.uploads, {id}, {})
        case Unhealthy(RestoreOf(id)) => AgreeState(s) && DoubtWithin(s.trash, s.trashRows, s.parts, s.uploads, {id}, {})
        case Unhealthy(UploadOf(u)) => AgreeState(s) && DoubtWithin(s.trash, s.trashRows, s.parts, s.uploads, {}, {u})
        case _ => true
  {
    hide ContentOk, OriginsOk, FinalizingOk, Agree, OpOk, IntentOk, DoubtWithin, Exec, MetaOf;
    RunKeeps(fold, es);
    var s := Exec(Empty(fold), es).value;
    if s.phase.Serving? && s.storageUp && s.op.Idle? && s.health.Healthy? {
      AgreeWithoutDoubt(s);
    }
  }

  /** An offline reindex is refused exactly for a transitional row or a path that gets
      no entry; otherwise it repairs the index whatever was wrong. */
  lemma ReindexRepairs(fold: char -> char, es: seq<Event>)
    requires Exec(Empty(fold), es).Some? && Exec(Empty(fold), es).value.phase.Down?
    ensures var s := Exec(Empty(fold), es).value;
      && (Reindex(s).Some? <==> NoTransitionalTrash(s) && PathsAccepted(s.files, s.trash, s.trashRows, s.fold))
      && (Reindex(s).Some? ==>
            var t := Reindex(s).value; t.health.Healthy? && NoTransitionalTrash(t) && IndexIsContent(t))
  {
    hide Inv, Exec, Attach, MetaOf, PathsAccepted;
    RunKeeps(fold, es);
    PayloadsHaveRows(Exec(Empty(fold), es).value);
  }

  lemma PayloadsHaveRows(s: State)
    requires Inv(s)
    ensures s.trash.Keys <= s.trashRows.Keys
    ensures forall id | id in s.trashRows && s.trashRows[id].state == Trashed :: id in s.trash
  {
    hide OriginsOk, FinalizingOk, AgreeState, OpOk, DoubtOk, IntentOk, PhaseOk, TreeOk, PayloadOk;
  }

  /****** finalizing uploads ******/

  /** A finalizing upload owns its verified part, or its target is that part: the
      branch "part gone, destination present" never adopts another file. */
  lemma FinalizingNeverAdoptsAnother(fold: char -> char, es: seq<Event>, u: Id)
    requires Exec(Empty(fold), es).Some?
    requires var s := Exec(Empty(fold), es).value; u in s.uploads && s.uploads[u].status == Finalizing
    ensures var s := Exec(Empty(fold), es).value;
      var row := s.uploads[u];
      && |row.verified| == row.total
      && (u in s.parts ==> s.parts[u] == row.verified)
      && (u !in s.parts ==> row.target in s.files && s.files[row.target] == File(u, row.verified))
  {
    hide ContentOk, OriginsOk, AgreeState, OpOk, DoubtOk, IntentOk, PhaseOk, Exec;
    RunKeeps(fold, es);
  }
}
