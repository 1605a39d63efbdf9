/** The other half of recovery: a crashed state that does not meet the condition of
    Recoverability is never served again, whatever runs from it. */
module Stuck {
  import opened Paths
  import opened World
  import opened Invariant
  import opened Outcomes
  import opened Protocol
  import opened Runs
  import opened Settling
  import opened Recoverability

  /** No metadata is served; a server that runs all the same has no storage. */
  predicate NotServed(s: State) {
    && s.phase != Serving(true)
    && (if s.phase.Serving? then !s.storageUp else s.op.Idle? && s.exclusive == {})
    && (s.op.Idle? || s.op.MkdirBegun? || s.op.MoveBegun? || s.op.Aborting? || s.op.TrashPrepared? || s.op.RestoreBegun?)
  }

  /****** the four dead ends ******/

  /** A transitional row whose existence bits agree, or whose path runs through a file,
      and that no running request owns. */
  predicate DeadTrash(s: State, id: Id) {
    Transitional(s.trashRows, id) && !BitsDiffer(s, id) && s.op != TrashPrepared(id) && s.op != RestoreBegun(id)
  }

  /** A row in doubt that the recorded reason does not let through. */
  ghost predicate DeadDoubt(s: State, id: Id) {
    s.op.Idle? && !FlagAllows(s, id)
  }

  /** A finalizing upload with part and target, or with a target that runs through a file. */
  predicate DeadUpload(s: State, u: Id) {
    IsFinalizing(s.uploads, u) && !PartOrTarget(s, u)
  }

  /** A reason that no settled row clears, with a path that a reindex refuses. */
  ghost predicate DeadFlag(s: State) {
    s.op.Idle? && !FlagClears(s)
  }

  ghost predicate Dead(s: State) {
    (exists id :: DeadTrash(s, id)) || (exists id :: DeadDoubt(s, id)) || (exists u :: DeadUpload(s, u)) || DeadFlag(s)
  }

  lemma UnrecoverableIsDead(s: State)
    requires s.op.Idle?
    ensures !Recoverable(s) ==> Dead(s)
  {
    hide BitsDiffer, FlagAllows, PartOrTarget, FlagClears;
    if !Dead(s) {
      forall id | Transitional(s.trashRows, id) ensures BitsDiffer(s, id) {
        assert !DeadTrash(s, id);
      }
      forall id ensures FlagAllows(s, id) {
        assert !DeadDoubt(s, id);
      }
      forall u | IsFinalizing(s.uploads, u) ensures PartOrTarget(s, u) {
        assert !DeadUpload(s, u);
      }
    }
  }

  lemma DeadNotServed(s: State, gate: bool)
    requires Inv(s) && Dead(s) && Serve(s, gate).Some?
    ensures !gate
  {
    hide Inv, ThroughFile, PathsAccepted, MayRepair;
    UploadsFollowTrash(s);
  }

  /****** no step leads out ******/

  lemma NotServedProcess(s: State, e: ProcessStep)
    requires NotServed(s) && ApplyProcessStep(s, e).Some?
    ensures var t := ApplyProcessStep(s, e).value;
      && (NotServed(t) || e == EvServe(true))
      && t.files == s.files && t.trash == s.trash && t.parts == s.parts && t.fold == s.fold
  {
    hide ReconcileTrash, ReconcileUpload, Mark, PathsAccepted, MetaOf, Attach, NoTransitionalTrash, NoFinalizing;
    match e
    case EvReconcileTrash(id) => ReconcileFrame(s, id);
    case EvReconcileUpload(u) => UploadFrame(s, u);
    case _ =>
  }

  lemma ReconcileFrame(s: State, id: Id)
    requires ReconcileTrash(s, id).Some?
    ensures var t := ReconcileTrash(s, id).value;
      t == s.(visible := t.visible, hidden := t.hidden, trashRows := t.trashRows, health := t.health)
  {
    hide ThroughFile, MayRepair, Clear, Without, Under;
  }

  lemma UploadFrame(s: State, u: Id)
    requires ReconcileUpload(s, u).Some?
    ensures var t := ReconcileUpload(s, u).value;
      && s.phase.StartingUploads? && s.storageUp && IsFinalizing(s.uploads, u) && ListedFirst(s.uploads, u)
      && t == s.(visible := t.visible, uploads := s.uploads[u := t.uploads[u]], health := Clear(s.health, UploadOf(u)))
      && u in t.uploads && t.uploads[u].status != Finalizing
  {
    hide ThroughFile, MayRepair, Clear, RowAvailable;
  }

  /** What a request can do while nothing is served and the storage is gone. */
  ghost predicate Frame(s: State, t: State) {
    && NotServed(t)
    && t.files == s.files && t.trash == s.trash && t.parts == s.parts && t.fold == s.fold
    && t.phase == s.phase && s.phase.Serving?
    && (s.health.Unhealthy? && s.op.Idle? ==> t.health == s.health && t.op.Idle? && t.trashRows == s.trashRows)
    && (forall id | Transitional(s.trashRows, id) && s.op != TrashPrepared(id) && s.op != RestoreBegun(id) ::
          id in t.trashRows && t.trashRows[id] == s.trashRows[id] && t.op != TrashPrepared(id) && t.op != RestoreBegun(id))
    && (forall u | IsFinalizing(s.uploads, u) :: u in t.uploads && t.uploads[u] == s.uploads[u])
    && (forall u | IsFinalizing(t.uploads, u) :: IsFinalizing(s.uploads, u))
  }

  lemma TreeFrame(s: State, e: TreeStep)
    requires NotServed(s) && ApplyTreeStep(s, e).Some?
    ensures Frame(s, ApplyTreeStep(s, e).value)
  {
    hide Renamed, CanCreate, CanRename, RowAvailable, Accepted, MayRepair, MoveFits;
  }

  lemma TrashFrame(s: State, e: TrashStep)
    requires NotServed(s) && ApplyTrashStep(s, e).Some?
    ensures Frame(s, ApplyTrashStep(s, e).value)
  {
    hide Without, Detach, Attach, CanCreate, CommitTrashRow, FinishRestoreRow;
  }

  lemma UploadStepFrame(s: State, e: UploadStep)
    requires NotServed(s) && ApplyUploadStep(s, e).Some?
    ensures Frame(s, ApplyUploadStep(s, e).value)
  {
    hide CanCreate, CompleteUploadRow, ResetUploadRow, RowAvailable, Accepted, World.Locked;
  }

  lemma DeadAfterRequest(s: State, t: State)
    requires Dead(s) && Frame(s, t)
    ensures Dead(t)
  {
    hide ThroughFile, PathsAccepted, NotServed;
    if id :| DeadTrash(s, id) {
      assert DeadTrash(t, id);
    } else if id :| DeadDoubt(s, id) {
      assert DeadDoubt(t, id);
    } else if u :| DeadUpload(s, u) {
      assert DeadUpload(t, u);
    } else {
      assert DeadFlag(t);
    }
  }

  /** The durable state is the same, and a flag may have been raised. */
  lemma DeadAfterMark(s: State, t: State)
    requires Dead(s) && t.files == s.files && t.trash == s.trash && t.parts == s.parts && t.fold == s.fold
    requires t.trashRows == s.trashRows && t.uploads == s.uploads && (t.op == s.op || t.op.Idle?)
    requires t.health == s.health || (exists r :: Raised(s, r) && t.health == Mark(s.health, r))
    ensures Dead(t)
  {
    hide ThroughFile, PathsAccepted;
    if id :| DeadTrash(s, id) {
      assert DeadTrash(t, id);
    } else if id :| DeadDoubt(s, id) {
      assert DeadDoubt(t, id);
    } else if u :| DeadUpload(s, u) {
      assert DeadUpload(t, u);
    } else {
      assert DeadFlag(t);
    }
  }

  /** The reasons that are recorded while nothing is served. */
  predicate Raised(s: State, r: Reason) {
    r.DownloadOpen? || r.DownloadMetadata? || (r.UploadOf? && IsFinalizing(s.uploads, r.id))
  }

  lemma DeadAfterReindex(s: State)
    requires Dead(s) && s.op.Idle? && Reindex(s).Some?
    ensures Dead(Reindex(s).value)
  {
    hide ThroughFile, PathsAccepted, MetaOf, Attach;
    assert forall id :: !DeadTrash(s, id) && !DeadDoubt(s, id);
    var u :| DeadUpload(s, u);
    assert DeadUpload(Reindex(s).value, u);
  }

  lemma DeadAfterReconcile(s: State, id: Id)
    requires Inv(s) && Dead(s) && ReconcileTrash(s, id).Some? && s.op.Idle?
    ensures Dead(ReconcileTrash(s, id).value)
  {
    hide Inv, ThroughFile, ReconcileTrash, MayRepair;
    var t := ReconcileTrash(s, id).value;
    ReconciledWasTransitional(s, id);
    ReconcileTrashExactly(s, id);
    SettledRow(s, id);
    if i :| DeadTrash(s, i) {
      assert DeadTrash(t, i);
    } else if i :| DeadDoubt(s, i) {
      DoubtStays(s, t, id, i);
    } else if u :| DeadUpload(s, u) {
      assert DeadUpload(t, u);
    } else {
      FlagStays(s, t, id);
    }
  }

  lemma ReconciledWasTransitional(s: State, id: Id)
    requires ReconcileTrash(s, id).Some?
    ensures Transitional(s.trashRows, id) && s.phase.StartingTrash? && s.storageUp
  {
    hide ThroughFile, MayRepair, CommitTrashRow, FinishRestoreRow;
  }

  lemma FlagBelongs(s: State, i: Id, j: Id)
    requires Inv(s) && Trusted(s.health)
    requires Moved(s.trash, s.trashRows, i) || Returned(s.trash, s.trashRows, i)
    requires Moved(s.trash, s.trashRows, j) || Returned(s.trash, s.trashRows, j)
    ensures i == j
  {
    hide ContentOk, OriginsOk, FinalizingOk, PhaseOk, OpOk, DoubtOk, IntentOk, ShownOk, ContentShown, GhostsShown, ReturnedOk, HiddenOk;
  }

  lemma DoubtStays(s: State, t: State, id: Id, i: Id)
    requires Inv(s) && ReconcileTrash(s, id).Some? && DeadDoubt(s, i) && FlagAllows(s, id)
    requires t == ReconcileTrash(s, id).value && Transitional(s.trashRows, id)
    ensures DeadDoubt(t, i)
  {
    hide Inv, ReconcileTrash;
    SettledRow(s, id);
    assert i != id;
    if Trusted(s.health) && (Moved(s.trash, s.trashRows, id) || Returned(s.trash, s.trashRows, id)) {
      FlagBelongs(s, id, i);
    }
  }

  lemma FlagStays(s: State, t: State, id: Id)
    requires Inv(s) && ReconcileTrash(s, id).Some? && DeadFlag(s)
    requires t == ReconcileTrash(s, id).value && Transitional(s.trashRows, id)
    ensures DeadFlag(t)
  {
    hide Inv, ReconcileTrash, Accepted;
    SettledRow(s, id);
    if PathsAccepted(t.files, t.trash, t.trashRows, t.fold) {
      PathsWereAccepted(s, t);
    }
  }

  lemma PathsWereAccepted(s: State, t: State)
    requires t.files == s.files && t.trash == s.trash && t.fold == s.fold
    requires forall i | i in s.trashRows && i in s.trash :: i in t.trashRows && t.trashRows[i].path == s.trashRows[i].path
    requires PathsAccepted(t.files, t.trash, t.trashRows, t.fold)
    ensures PathsAccepted(s.files, s.trash, s.trashRows, s.fold)
  {
    hide Accepted;
  }

  lemma DeadAfterUpload(s: State, u: Id)
    requires Inv(s) && Dead(s) && ReconcileUpload(s, u).Some? && s.op.Idle?
    ensures Dead(ReconcileUpload(s, u).value)
  {
    hide Inv, ThroughFile, ReconcileUpload, MayRepair, PathsAccepted, ListedBefore, ListedFirst, ReasonOwned;
    var t := ReconcileUpload(s, u).value;
    UploadFrame(s, u);
    UploadsFollowTrash(s);
    ReconcileUploadExactly(s, u);
    SettledRows(s);
    ReconcileFrameParts(s, u);
    assert forall i :: !DeadTrash(s, i) && !DeadDoubt(s, i);
    if v :| DeadUpload(s, v) {
      assert v != u;
      assert DeadUpload(t, v);
    } else {
      ReasonStays(s, t, u);
      assert DeadFlag(t);
    }
  }

  lemma ReconcileFrameParts(s: State, u: Id)
    requires ReconcileUpload(s, u).Some?
    ensures var t := ReconcileUpload(s, u).value; t.parts == s.parts && t.files == s.files && t.trash == s.trash && t.fold == s.fold
    ensures var t := ReconcileUpload(s, u).value; t.trashRows == s.trashRows && t.op == s.op
  {
    hide ListedFirst, ThroughFile, MayRepair, Clear, RowAvailable;
  }

  /** A settled upload does not give the reason an owner: a publication listed before the
      blamed upload is still refused. */
  lemma ReasonStays(s: State, t: State, u: Id)
    requires s.health.Unhealthy? && !ReasonOwned(s) && ListedFirst(s.uploads, u)
    requires NoTransitionalTrash(s) && t.trashRows == s.trashRows && t.trash == s.trash && t.parts == s.parts
    requires u !in s.parts ==> MayRepair(s.health, UploadOf(u))
    requires u in t.uploads && t.uploads[u].status != Finalizing && t.uploads == s.uploads[u := t.uploads[u]]
    requires t.health == Clear(s.health, UploadOf(u))
    ensures t.health.Unhealthy? && !ReasonOwned(t)
  {
    hide ListedBefore;
    SettledRows(s);
    if s.health.reason.UploadOf? {
      var w := s.health.reason.id;
      if IsFinalizing(s.uploads, w) {
        var v :| Published(s.parts, s.uploads, v) && v != w && !ListedBefore(s.uploads[w].stamp, w, s.uploads[v].stamp, v);
        assert u != w;
        assert Published(t.parts, t.uploads, v);
      }
    }
  }

  lemma SettledRows(s: State)
    requires NoTransitionalTrash(s)
    ensures forall i :: !Transitional(s.trashRows, i) && !Moved(s.trash, s.trashRows, i) && !Returned(s.trash, s.trashRows, i)
  {
  }

  lemma DeadAfterProcess(s: State, e: ProcessStep)
    requires Inv(s) && NotServed(s) && Dead(s) && ApplyProcessStep(s, e).Some?
    ensures Dead(ApplyProcessStep(s, e).value)
  {
    hide Inv, Dead, DownloadMark, ReconcileUploadFails, ReconcileTrash, ReconcileUpload, Reindex, NoTransitionalTrash, NoFinalizing, Mark;
    match e
    case EvReconcileTrash(id) =>
      ReconciledWasTransitional(s, id);
      DeadAfterReconcile(s, id);
    case EvReconcileUpload(u) =>
      UploadFrame(s, u);
      DeadAfterUpload(s, u);
    case EvReindex =>
      ReindexedDown(s);
      DeadAfterReindex(s);
    case EvDownloadMark(r) => DeadAfterDownload(s, r);
    case EvReconcileUploadFails(u) => DeadAfterFailure(s, u);
    case _ => DeadAfterLife(s, e);
  }

  lemma DeadAfterLife(s: State, e: ProcessStep)
    requires Dead(s) && ApplyProcessStep(s, e).Some?
    requires e.EvCrash? || e.EvStart? || e.EvStorageLost? || e.EvTrashReconciled? || e.EvServe?
    ensures Dead(ApplyProcessStep(s, e).value)
  {
    hide Dead, LifeOnly, Crash, Start, StorageLost, TrashReconciled, Serve, DownloadMark, ReconcileUploadFails, ReconcileTrash,
         ReconcileUpload, Reindex;
    match e {
      case EvCrash => CrashOnly(s);
      case EvStart(up) => StartOnly(s, up);
      case EvStorageLost => LostOnly(s);
      case EvTrashReconciled => TurnOnly(s);
      case EvServe(gate) => ServeOnly(s, gate);
      case _ => assert false;
    }
    DeadAfterLost(s, ApplyProcessStep(s, e).value);
  }

  /** Only what a crash loses has changed. */
  ghost predicate LifeOnly(s: State, t: State) {
    && t.files == s.files && t.trash == s.trash && t.parts == s.parts && t.fold == s.fold
    && t.trashRows == s.trashRows && t.uploads == s.uploads && t.health == s.health && (t.op == s.op || t.op.Idle?)
  }

  lemma DeadAfterLost(s: State, t: State)
    requires Dead(s) && LifeOnly(s, t)
    ensures Dead(t)
  {
    hide Dead;
    DeadAfterMark(s, t);
  }

  lemma CrashOnly(s: State)
    ensures LifeOnly(s, Crash(s))
  {
  }

  lemma StartOnly(s: State, up: bool)
    requires Start(s, up).Some?
    ensures LifeOnly(s, Start(s, up).value)
  {
  }

  lemma LostOnly(s: State)
    requires StorageLost(s).Some?
    ensures LifeOnly(s, StorageLost(s).value)
  {
  }

  lemma TurnOnly(s: State)
    requires TrashReconciled(s).Some?
    ensures LifeOnly(s, TrashReconciled(s).value)
  {
    hide NoTransitionalTrash;
  }

  lemma ServeOnly(s: State, gate: bool)
    requires Serve(s, gate).Some?
    ensures LifeOnly(s, Serve(s, gate).value)
  {
    hide NoTransitionalTrash, NoFinalizing;
  }

  lemma DeadAfterDownload(s: State, r: Reason)
    requires Dead(s) && DownloadMark(s, r).Some?
    ensures Dead(DownloadMark(s, r).value)
  {
    hide Dead, Mark;
    assert Raised(s, r);
    DeadAfterMark(s, DownloadMark(s, r).value);
  }

  lemma DeadAfterFailure(s: State, u: Id)
    requires Dead(s) && ReconcileUploadFails(s, u).Some?
    ensures Dead(ReconcileUploadFails(s, u).value)
  {
    hide Dead, Mark;
    assert Raised(s, UploadOf(u));
    DeadAfterMark(s, ReconcileUploadFails(s, u).value);
  }

  lemma ReindexedDown(s: State)
    requires Reindex(s).Some?
    ensures s.phase.Down?
  {
    hide PathsAccepted;
  }

  lemma DeadStep(s: State, e: Event)
    requires Inv(s) && NotServed(s) && Dead(s) && Apply(s, e).Some?
    ensures NotServed(Apply(s, e).value) && Dead(Apply(s, e).value)
  {
    hide Inv, NotServed, Dead, ApplyProcessStep, ApplyTreeStep, ApplyTrashStep, ApplyUploadStep, Serve;
    match e
    case Process(p) =>
      if p == EvServe(true) { ServeApplies(s); DeadNotServed(s, true); }
      NotServedProcess(s, p);
      DeadAfterProcess(s, p);
    case OnTree(t) => TreeFrame(s, t); DeadAfterRequest(s, Apply(s, e).value);
    case OnTrash(b) => TrashFrame(s, b); DeadAfterRequest(s, Apply(s, e).value);
    case OnUpload(u) => UploadStepFrame(s, u); DeadAfterRequest(s, Apply(s, e).value);
  }

  lemma ServeApplies(s: State)
    ensures ApplyProcessStep(s, EvServe(true)) == Serve(s, true)
  {
    hide Serve;
  }

  /** From a state that is not recoverable no run, with any restarts, reindexes and
      requests, ever opens the gate. */
  lemma {:induction false} DeadForever(s: State, es: seq<Event>)
    requires Inv(s) && NotServed(s) && Dead(s) && Exec(s, es).Some?
    ensures NotServed(Exec(s, es).value) && Dead(Exec(s, es).value)
  {
    hide Inv, NotServed, Dead, Apply;
    if es != [] {
      DeadForever(s, es[..|es| - 1]);
      ExecKeeps(s, es[..|es| - 1]);
      DeadStep(Exec(s, es[..|es| - 1]).value, es[|es| - 1]);
    }
  }

  /****** the theorem ******/

  lemma DownIsIdle(s: State)
    requires Inv(s) && s.phase.Down?
    ensures s.op.Idle? && s.exclusive == {}
  {
    hide ContentOk, OriginsOk, FinalizingOk, AgreeState, OpOk, DoubtOk, IntentOk;
  }

  /** Some run opens the gate exactly when every transitional row has one existence bit,
      the reason lets each row in doubt through, no finalizing upload is ambiguous, and
      the flag can be cleared. */
  lemma RecoverableExactly(s: State)
    requires Inv(s) && s.phase.Down?
    ensures (exists t :: Leads(s, t) && t.phase == Serving(true)) <==> Recoverable(s)
  {
    hide Inv, Recoverable, Dead, Exec;
    if Recoverable(s) {
      var t := RecoverableServes(s);
    } else {
      DownIsIdle(s);
      UnrecoverableIsDead(s);
      forall t | Leads(s, t) ensures t.phase != Serving(true) {
        var es :| Exec(s, es) == Some(t);
        DeadForever(s, es);
      }
    }
  }
}
