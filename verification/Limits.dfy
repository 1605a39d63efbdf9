/** The limits of file_entries over whole runs: every row that the index ever shows or
    hides satisfies the CHECK constraints, so only a move can run into them. */
module Limits {
  import opened Paths
  import opened World
  import LogicalPath

  ghost predicate RowsFit(s: State) {
    && (forall q | q in s.visible :: ColumnsFit(q, s.fold))
    && (forall id, q | id in s.hidden && q in s.hidden[id] :: ColumnsFit(q, s.fold))
    && (forall u | u in s.uploads :: Accepted(s.uploads[u].target, s.fold))
  }

  lemma AcceptedFits(p: Path, fold: char -> char)
    requires Accepted(p, fold)
    ensures ColumnsFit(p, fold)
  {
    LogicalPath.AcceptedIsHeld(LogicalPath.Join(p), fold);
  }

  lemma SameRowsFit(s: State, t: State)
    requires RowsFit(s) && t.fold == s.fold && t.visible == s.visible && t.hidden == s.hidden
    requires forall u | u in t.uploads :: u in s.uploads && t.uploads[u].target == s.uploads[u].target
    ensures RowsFit(t)
  {
    hide ColumnsFit, Accepted;
  }

  lemma HideFits(s: State, id: Id)
    requires RowsFit(s) && CommitTrashRow(s, id).Some?
    ensures RowsFit(CommitTrashRow(s, id).value)
  {
    hide ColumnsFit, Accepted, Clear, MayRepair;
  }

  lemma UnhideFits(s: State, id: Id)
    requires RowsFit(s) && FinishRestoreRow(s, id).Some?
    ensures RowsFit(FinishRestoreRow(s, id).value)
  {
    hide ColumnsFit, Accepted, Clear, MayRepair;
  }

  lemma CompleteFits(s: State, u: Id)
    requires RowsFit(s) && CompleteUploadRow(s, u).Some?
    ensures RowsFit(CompleteUploadRow(s, u).value)
  {
    hide ColumnsFit, Accepted, Clear, MayRepair, RowAvailable;
    AcceptedFits(s.uploads[u].target, s.fold);
  }

  lemma ReindexFits(s: State)
    requires RowsFit(s) && Reindex(s).Some?
    ensures RowsFit(Reindex(s).value)
  {
    hide ColumnsFit, Accepted;
    var t := Reindex(s).value;
    forall q | q in t.visible ensures ColumnsFit(q, t.fold) {
      AcceptedFits(q, s.fold);
    }
    forall id, q | id in t.hidden && q in t.hidden[id] ensures ColumnsFit(q, t.fold) {
      var p := s.trashRows[id].path;
      assert p + q[|p|..] == q;
      AcceptedFits(p + q[|p|..], s.fold);
    }
  }

  lemma MoveFitsRows(s: State)
    requires RowsFit(s) && CommitMove(s).Some?
    ensures RowsFit(CommitMove(s).value)
  {
    hide ColumnsFit, Accepted, Clear, MayRepair, RowAvailable;
    var t, src, dst := CommitMove(s).value, s.op.src, s.op.dst;
    forall q | q in t.visible ensures ColumnsFit(q, t.fold) {
      if q !in Without(s.visible, src) {
        var k := q[|dst|..];
        assert src <= src + k && (src + k)[|src|..] == k && dst + k == q;
      }
    }
  }

  lemma ReconcileFits(s: State, id: Id)
    requires RowsFit(s) && ReconcileTrash(s, id).Some?
    ensures RowsFit(ReconcileTrash(s, id).value)
  {
    hide RowsFit, ThroughFile, CommitTrashRow, FinishRestoreRow;
    if CommitTrashRow(s, id).Some? { HideFits(s, id); }
    if FinishRestoreRow(s, id).Some? { UnhideFits(s, id); }
    if ReconcileTrash(s, id) != CommitTrashRow(s, id) && ReconcileTrash(s, id) != FinishRestoreRow(s, id) {
      SameRowsFit(s, ReconcileTrash(s, id).value);
    }
  }

  lemma ReconcileUploadFits(s: State, u: Id)
    requires RowsFit(s) && ReconcileUpload(s, u).Some?
    ensures RowsFit(ReconcileUpload(s, u).value)
  {
    hide RowsFit, ThroughFile, CompleteUploadRow;
    if CompleteUploadRow(s, u).Some? { CompleteFits(s, u); }
    if ReconcileUpload(s, u) != CompleteUploadRow(s, u) { SameRowsFit(s, ReconcileUpload(s, u).value); }
  }

  lemma CrashFits(s: State)
    requires RowsFit(s)
    ensures RowsFit(Crash(s))
  {
    hide RowsFit;
    SameRowsFit(s, Crash(s));
  }

  lemma StartFits(s: State, up: bool)
    requires RowsFit(s) && Start(s, up).Some?
    ensures RowsFit(Start(s, up).value)
  {
    hide RowsFit;
    SameRowsFit(s, Start(s, up).value);
  }

  lemma LostFits(s: State)
    requires RowsFit(s) && StorageLost(s).Some?
    ensures RowsFit(StorageLost(s).value)
  {
    hide RowsFit;
    SameRowsFit(s, StorageLost(s).value);
  }

  lemma TurnFits(s: State)
    requires RowsFit(s) && TrashReconciled(s).Some?
    ensures RowsFit(TrashReconciled(s).value)
  {
    hide RowsFit, NoTransitionalTrash;
    SameRowsFit(s, TrashReconciled(s).value);
  }

  lemma ServeFits(s: State, gate: bool)
    requires RowsFit(s) && Serve(s, gate).Some?
    ensures RowsFit(Serve(s, gate).value)
  {
    hide RowsFit, NoTransitionalTrash, NoFinalizing;
    SameRowsFit(s, Serve(s, gate).value);
  }

  lemma MarkFits(s: State, u: Id, r: Reason)
    requires RowsFit(s)
    ensures ReconcileUploadFails(s, u).Some? ==> RowsFit(ReconcileUploadFails(s, u).value)
    ensures DownloadMark(s, r).Some? ==> RowsFit(DownloadMark(s, r).value)
  {
    hide RowsFit, Mark;
    if ReconcileUploadFails(s, u).Some? { SameRowsFit(s, ReconcileUploadFails(s, u).value); }
    if DownloadMark(s, r).Some? { SameRowsFit(s, DownloadMark(s, r).value); }
  }

  lemma ProcessStepFits(s: State, e: ProcessStep)
    requires RowsFit(s) && ApplyProcessStep(s, e).Some?
    ensures RowsFit(ApplyProcessStep(s, e).value)
  {
    hide RowsFit, Crash, Start, StorageLost, ReconcileTrash, TrashReconciled, ReconcileUpload, ReconcileUploadFails, Serve, Reindex, DownloadMark;
    match e
    case EvReindex => ReindexFits(s);
    case EvReconcileTrash(id) => ReconcileFits(s, id);
    case EvReconcileUpload(u) => ReconcileUploadFits(s, u);
    case EvCrash => CrashFits(s);
    case EvStart(up) => StartFits(s, up);
    case EvStorageLost => LostFits(s);
    case EvTrashReconciled => TurnFits(s);
    case EvServe(gate) => ServeFits(s, gate);
    case EvReconcileUploadFails(u) => MarkFits(s, u, DownloadOpen);
    case EvDownloadMark(r) => MarkFits(s, "", r);
  }

  lemma TreeStepFits(s: State, e: TreeStep)
    requires RowsFit(s) && ApplyTreeStep(s, e).Some?
    ensures RowsFit(ApplyTreeStep(s, e).value)
  {
    hide RowsFit, Accepted, ColumnsFit, CommitMove, Renamed, CanRename, CanCreate, RowAvailable;
    match e
    case EvCommitMove => MoveFitsRows(s);
    case EvCommitMkdir => MkdirFits(s);
    case _ => SameRowsFit(s, ApplyTreeStep(s, e).value);
  }

  lemma MkdirFits(s: State)
    requires RowsFit(s) && CommitMkdir(s).Some?
    ensures RowsFit(CommitMkdir(s).value)
  {
    hide ColumnsFit, Accepted, RowAvailable;
    AcceptedFits(s.op.path, s.fold);
  }

  lemma TrashStepFits(s: State, e: TrashStep)
    requires RowsFit(s) && ApplyTrashStep(s, e).Some?
    ensures RowsFit(ApplyTrashStep(s, e).value)
  {
    hide RowsFit, Accepted, ColumnsFit, CommitTrashRow, FinishRestoreRow, CanCreate;
    match e
    case EvCommitTrash =>
      HideFits(s, s.op.id);
      SameRowsFit(CommitTrashRow(s, s.op.id).value, CommitTrash(s).value);
    case EvFinishRestore =>
      UnhideFits(s, s.op.id);
      SameRowsFit(FinishRestoreRow(s, s.op.id).value, FinishRestore(s).value);
    case _ => SameRowsFit(s, ApplyTrashStep(s, e).value);
  }

  lemma UploadStepFits(s: State, e: UploadStep)
    requires RowsFit(s) && ApplyUploadStep(s, e).Some?
    ensures RowsFit(ApplyUploadStep(s, e).value)
  {
    hide RowsFit, Accepted, ColumnsFit, CompleteUploadRow, CreateUpload, CanCreate, World.Locked;
    match e
    case EvCommitComplete =>
      CompleteFits(s, s.op.id);
      SameRowsFit(CompleteUploadRow(s, s.op.id).value, CommitComplete(s).value);
    case EvCreateUpload(u, target, total) => CreateFits(s, u, target, total);
    case _ => SameRowsFit(s, ApplyUploadStep(s, e).value);
  }

  lemma CreateFits(s: State, u: Id, target: Path, total: nat)
    requires RowsFit(s) && CreateUpload(s, u, target, total).Some?
    ensures RowsFit(CreateUpload(s, u, target, total).value)
  {
    hide ColumnsFit, Accepted, RowAvailable;
  }

  lemma StepFits(s: State, e: Event)
    requires RowsFit(s) && Apply(s, e).Some?
    ensures RowsFit(Apply(s, e).value)
  {
    hide RowsFit, ApplyProcessStep, ApplyTreeStep, ApplyTrashStep, ApplyUploadStep;
    match e
    case Process(p) => ProcessStepFits(s, p);
    case OnTree(t) => TreeStepFits(s, t);
    case OnTrash(b) => TrashStepFits(s, b);
    case OnUpload(u) => UploadStepFits(s, u);
  }

  /** The rows of every reachable state satisfy the CHECK constraints. */
  lemma {:induction false} RunFits(fold: char -> char, es: seq<Event>)
    requires Exec(Empty(fold), es).Some?
    ensures RowsFit(Exec(Empty(fold), es).value)
  {
    hide Apply;
    if es != [] {
      RunFits(fold, es[..|es| - 1]);
      hide RowsFit;
      StepFits(Exec(Empty(fold), es[..|es| - 1]).value, es[|es| - 1]);
    }
  }
}
