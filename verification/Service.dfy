/** The mutation services as sequences of atomic steps that faults, storage loss,
    downloads and chunk writers may interrupt between any two of them. */
module Service {
  import opened Paths
  import opened World
  import opened Invariant
  import opened Recovery
  import opened TrashSteps
  import opened Outcomes
  import opened Protocol

  /** Failed had no effect. Unsettled left a row that startup settles. Inconsistent
      left index and content apart, and the health flag says so. */
  datatype Outcome = Done | Failed | Unsettled | Inconsistent

  /** The flag names the reason, or several reasons. */
  predicate Owed(h: Health, r: Reason) {
    h == Unhealthy(r) || h == Unhealthy(Multiple)
  }

  /** The flag changed at most by marks of downloads. */
  predicate OnlyMarked(before: Health, after: Health) {
    after == before
    || (after.Unhealthy? && (after.reason.DownloadOpen? || after.reason.DownloadMetadata? || after.reason.Multiple?))
  }

  /** Steps of other requests, which do not take the mutation lock. */
  predicate Background(e: Event) {
    match e
    case Process(p) => p.EvStorageLost? || p.EvDownloadMark?
    case OnUpload(u) =>
      u.EvCreatePart? || u.EvCreateUpload? || u.EvDropPart? || u.EvWritePart? || u.EvLockUpload? || u.EvRemovePart?
      || u.EvFinishUncompleted? || u.EvUnlockUpload?
    case _ => false
  }

  /** The upload that the lock holder is completing. */
  predicate Completing(op: Op, u: Id) {
    (op.CompleteVerified? || op.CompletePrepared? || op.CompletePublished?) && op.id == u
  }

  /** What background steps leave alone between two steps of the lock holder. */
  ghost predicate Quiet(s: State, t: State) {
    && t.files == s.files && t.trash == s.trash && t.visible == s.visible && t.hidden == s.hidden
    && t.trashRows == s.trashRows && t.op == s.op && t.phase == s.phase
    && (t.storageUp ==> s.storageUp)
    && OnlyMarked(s.health, t.health)
    && SameCompleting(s.op, s.parts, s.uploads, t.parts, t.uploads)
  }

  ghost predicate SameCompleting(op: Op, parts: map<Id, Bytes>, uploads: map<Id, UploadRow>,
                                 parts': map<Id, Bytes>, uploads': map<Id, UploadRow>)
  {
    forall u | Completing(op, u) :: SameAt(parts, parts', u) && SameAt(uploads, uploads', u)
  }

  predicate SameAt<V(==)>(m: map<Id, V>, m': map<Id, V>, u: Id) {
    if u in m then u in m' && m[u] == m'[u] else u !in m'
  }

  lemma BackgroundProcess(s: State, e: ProcessStep)
    requires (e.EvStorageLost? || e.EvDownloadMark?) && ApplyProcessStep(s, e).Some?
    ensures Quiet(s, ApplyProcessStep(s, e).value)
  {
    hide Crash, Start, ReconcileTrash, TrashReconciled, ReconcileUpload, ReconcileUploadFails, Serve, Reindex;
  }

  lemma BackgroundUpload(s: State, e: UploadStep)
    requires Inv(s) && Background(OnUpload(e)) && ApplyUploadStep(s, e).Some?
    ensures Quiet(s, ApplyUploadStep(s, e).value)
  {
    hide Accepted, ContentOk, OriginsOk, FinalizingOk, AgreeState, DoubtOk, IntentOk, PhaseOk, RowAvailable, VerifyPart, PrepareFinalization,
         FsFinalize, ResetFinalizing, AdoptPublished, CommitComplete, FailComplete;
  }

  lemma BackgroundIsQuiet(s: State, e: Event)
    requires Inv(s) && Background(e) && Apply(s, e).Some?
    ensures Quiet(s, Apply(s, e).value)
  {
    hide Inv, Quiet, ApplyProcessStep, ApplyUploadStep;
    if e.Process? { BackgroundProcess(s, e.p); } else { BackgroundUpload(s, e.u); }
  }

  lemma QuietChain(r: State, s: State, t: State)
    requires Quiet(r, s) && Quiet(s, t)
    ensures Quiet(r, t)
  {
    hide SameCompleting;
    assert SameCompleting(r.op, r.parts, r.uploads, t.parts, t.uploads) by {
      CompletingChain(r.op, r.parts, r.uploads, s.parts, s.uploads, t.parts, t.uploads);
    }
  }

  lemma CompletingChain(op: Op, p: map<Id, Bytes>, u: map<Id, UploadRow>, p': map<Id, Bytes>, u': map<Id, UploadRow>,
                        p'': map<Id, Bytes>, u'': map<Id, UploadRow>)
    requires SameCompleting(op, p, u, p', u') && SameCompleting(op, p', u', p'', u'')
    ensures SameCompleting(op, p, u, p'', u'')
  {
  }

  lemma LogMore(fold: char -> char, log: seq<Event>, s: State, e: Event)
    requires Exec(Empty(fold), log) == Some(s)
    ensures Exec(Empty(fold), log + [e]) == Apply(s, e)
  {
    hide Apply;
    assert (log + [e])[..|log|] == log;
  }

  predicate OwnFile(s: State, u: Id)
    requires u in s.uploads
  {
    var row := s.uploads[u];
    row.target in s.files && s.files[row.target] == File(u, row.verified) && |row.verified| == row.total
  }

  /** Completion finds the part as it should be, and nothing at the target of a row that
      was finalizing before. */
  predicate CanVerify(s: State, u: Id) {
    && s.storageUp && u in s.uploads && u in s.parts && |s.parts[u]| == s.uploads[u].total
    && (s.uploads[u].status == Pending || (s.uploads[u].status == Finalizing && s.uploads[u].target !in s.files))
  }

  /** The upload can be published, or was published already. */
  predicate Completable(s: State, u: Id) {
    && u in s.uploads && s.storageUp
    && if u in s.parts then CanVerify(s, u) && CanCreate(s.files, s.uploads[u].target) else s.uploads[u].status == Finalizing
  }

  class Server {
    var world: State
    const fold: char -> char
    /** No call faults, and nobody else steps while a method runs. */
    const calm: bool
    ghost var log: seq<Event>

    /** The state was reached from an empty store by the logged steps. */
    ghost predicate Valid()
      reads this
    {
      Exec(Empty(fold), log) == Some(world)
    }

    constructor (fold: char -> char, calm: bool)
      ensures Valid() && this.fold == fold && this.calm == calm && world == Empty(fold)
    {
      this.fold, this.calm, world, log := fold, calm, Empty(fold), [];
    }

    /** Takes over any state that a run reaches, whatever happened in it. */
    constructor TakeOver(fold: char -> char, calm: bool, s: State, ghost es: seq<Event>)
      requires Exec(Empty(fold), es) == Some(s)
      ensures Valid() && this.fold == fold && this.calm == calm && world == s
    {
      this.fold, this.calm, world, log := fold, calm, s, es;
    }

    /** One atomic step, which may be impossible and may fault; then it has no effect. */
    method Step(e: Event) returns (ok: bool)
      requires Valid()
      modifies this
      ensures Valid() && Inv(world)
      ensures if ok then Apply(old(world), e) == Some(world) else world == old(world)
      ensures calm ==> ok == Apply(old(world), e).Some?
    {
      hide Inv, Apply, Exec;
      RunKeeps(fold, log);
      var next, fault: bool := Apply(world, e), *;
      ok := next.Some? && (calm || !fault);
      if ok {
        ApplyKeeps(world, e);
        LogMore(fold, log, world, e);
        world, log := next.value, log + [e];
      }
    }

    /** A step that cannot fault: releasing a lock, or recording the failure. */
    method Record(e: Event)
      requires Valid() && Apply(world, e).Some?
      modifies this
      ensures Valid() && Inv(world) && Apply(old(world), e) == Some(world)
    {
      hide Inv, Apply, Exec;
      RunKeeps(fold, log);
      ApplyKeeps(world, e);
      LogMore(fold, log, world, e);
      world, log := Apply(world, e).value, log + [e];
    }

    /** Any number of background steps. */
    method Interfere()
      requires Valid()
      modifies this
      ensures Valid() && Inv(world) && Quiet(old(world), world)
      ensures calm ==> world == old(world)
    {
      hide Inv, Apply, Background, Quiet;
      RunKeeps(fold, log);
      assert Quiet(world, world) by { QuietRefl(world); }
      if calm { return; }
      var others: seq<Event> := *;
      for i := 0 to |others|
        invariant Valid() && Inv(world) && Quiet(old(world), world)
      {
        if Background(others[i]) {
          var before := world;
          var ok := Step(others[i]);
          if ok {
            BackgroundIsQuiet(before, others[i]);
            QuietChain(old(world), before, world);
          }
        }
      }
    }

    /** The holder of the mutation lock returns without a further step. */
    method Release()
      requires Valid() && GiveUp(world).Some?
      modifies this
      ensures Valid() && world == old(world).(op := Idle)
    {
      Record(OnTree(EvGiveUp));
    }

    /** Clears the intent after a storage call failed or was undone. */
    method AbortMutation() returns (r: Outcome)
      requires Valid() && world.op.Aborting?
      modifies this
      ensures Valid() && world.op.Idle? && SameTrash(old(world), world)
      ensures world.files == old(world.files) && world.visible == old(world.visible)
      ensures if r == Failed then world.health.Healthy? else r == Inconsistent && Owed(world.health, old(world.op.reason))
      ensures calm && old(world.health) == Unhealthy(old(world.op.reason)) ==>
        r == Failed && world == old(world).(op := Idle, health := Healthy)
    {
      hide Inv, Valid, Exec, ApplyProcessStep, ApplyTrashStep, ApplyUploadStep, SameCompleting, OnlyMarked;
      Interfere();
      IntentRecorded(world);
      var ok := Step(OnTree(EvClearMutation));
      if ok { return Failed; }
      Release();
      return Inconsistent;
    }

    /** The storage call under an intent failed. */
    method AbortBegun() returns (r: Outcome)
      requires Valid() && (world.op.MkdirBegun? || world.op.MoveBegun?)
      modifies this
      ensures Valid() && world.op.Idle? && SameTrash(old(world), world)
      ensures world.files == old(world.files) && world.visible == old(world.visible)
      ensures var reason := if old(world.op.MkdirBegun?) then MkdirPending else MovePending;
        && (if r == Failed then world.health.Healthy? else r == Inconsistent && Owed(world.health, reason))
        && (calm && old(world.health) == Unhealthy(reason) ==> r == Failed && world == old(world).(op := Idle, health := Healthy))
    {
      hide Inv, Valid, Exec, ApplyProcessStep, ApplyTrashStep, ApplyUploadStep, SameCompleting, OnlyMarked,
           BeginMkdir, FsMkdir, CommitMkdir, UndoMkdir, BeginMove, FsMove, CommitMove, UndoMove, ClearMutation, GiveUp;
      Record(OnTree(EvAbort));
      r := AbortMutation();
    }

    /** The row of a directory just made could not be inserted. */
    method CompensateMkdir() returns (r: Outcome)
      requires Valid() && world.op.MkdirMade?
      modifies this
      ensures Valid() && world.op.Idle? && SameTrash(old(world), world) && world.visible == old(world.visible)
      ensures world.files in {old(world.files), old(world.files) - {old(world.op.path)}}
      ensures r == Failed ==> world.health.Healthy? && world.files == old(world.files) - {old(world.op.path)}
      ensures r != Failed ==> r == Inconsistent && Owed(world.health, MkdirPending)
      ensures calm && old(world.storageUp) && old(world.health) == Unhealthy(MkdirPending) ==>
        r == Failed && world == old(world).(files := old(world.files) - {old(world.op.path)}, op := Idle, health := Healthy)
    {
      hide Inv, Valid, Exec, ApplyProcessStep, ApplyTrashStep, ApplyUploadStep, SameCompleting,
           BeginMkdir, FsMkdir, CommitMkdir, BeginMove, FsMove, CommitMove, UndoMove, Abort, ClearMutation, GiveUp;
      Interfere();
      IntentRecorded(world);
      MadeDirectory(world);
      var ok := Step(OnTree(EvUndoMkdir));
      if ok {
        r := AbortMutation();
      } else {
        assert GiveUp(world).Some? by { MayGiveUp(world); }
        Release();
        r := Inconsistent;
      }
    }

    /** The new directory under the intent. */
    method MakeBegun() returns (ok: bool, r: Outcome)
      requires Valid() && world.op.MkdirBegun?
      modifies this
      ensures Valid() && SameTrash(old(world), world) && world.visible == old(world.visible)
      ensures var p := old(world.op.path);
        && (ok ==> world.op == MkdirMade(p) && CanCreate(old(world.files), p) && world.files == old(world.files)[p := Dir])
        && (!ok ==> world.op.Idle? && world.files == old(world.files))
        && (!ok ==> if r == Failed then world.health.Healthy? else r == Inconsistent && Owed(world.health, MkdirPending))
      ensures calm && old(world.health) == Unhealthy(MkdirPending) ==>
        var p := old(world.op.path);
        && (ok <==> old(world.storageUp) && CanCreate(old(world.files), p))
        && (if ok then world == old(world).(files := old(world.files)[p := Dir], op := MkdirMade(p))
            else r == Failed && world == old(world).(op := Idle, health := Healthy))
    {
      hide Inv, Valid, Exec, ApplyProcessStep, ApplyTrashStep, ApplyUploadStep, SameCompleting, CanCreate, Mark, OnlyMarked,
           BeginMkdir, CommitMkdir, UndoMkdir, BeginMove, FsMove, CommitMove, UndoMove, Abort, ClearMutation, GiveUp;
      r := Failed;
      Interfere();
      ok := Step(OnTree(EvFsMkdir));
      if !ok {
        r := AbortBegun();
      }
    }

    /** The intent and the new directory. */
    method MakeDirectory(p: Path) returns (ok: bool, r: Outcome)
      requires Valid() && world.phase.Serving? && world.op.Idle? && p != []
      modifies this
      ensures Valid() && SameTrash(old(world), world) && world.visible == old(world.visible)
      ensures ok ==>
        && world.op == MkdirMade(p) && CanCreate(old(world.files), p) && world.files == old(world.files)[p := Dir]
        && old(world.health).Healthy?
      ensures !ok ==> world.op.Idle? && world.files == old(world.files)
      ensures !ok ==>
        if r == Failed then OnlyMarked(old(world.health), world.health) else r == Inconsistent && Owed(world.health, MkdirPending)
      ensures calm ==> (ok <==> old(world.health).Healthy? && old(world.storageUp) && CanCreate(old(world.files), p))
      ensures calm ==>
        if ok then world == old(world).(files := old(world.files)[p := Dir], op := MkdirMade(p), health := Unhealthy(MkdirPending))
        else r == Failed && world == old(world)
    {
      hide Inv, Valid, Exec, Apply, SameCompleting, CanCreate, Mark,
           FsMkdir, CommitMkdir, UndoMkdir, BeginMove, FsMove, CommitMove, UndoMove, Abort, ClearMutation, GiveUp;
      r := Failed;
      Interfere();
      IntentEvents(world, p, p, p);
      ok := Step(OnTree(EvBeginMkdir(p)));
      if !ok { return; }
      ok, r := MakeBegun();
    }

    method CreateDirectory(p: Path) returns (r: Outcome)
      requires Valid() && world.phase.Serving? && world.op.Idle? && p != []
      modifies this
      ensures Valid() && world.op.Idle? && SameTrash(old(world), world)
      ensures r.Done? ==>
        && CanCreate(old(world.files), p) && world.files == old(world.files)[p := Dir]
        && p !in old(world.visible) && world.visible == old(world.visible)[p := DirMeta]
        && old(world.health).Healthy? && world.health.Healthy?
      ensures r.Failed? ==>
        world.files == old(world.files) && world.visible == old(world.visible) && OnlyMarked(old(world.health), world.health)
      ensures r.Inconsistent? ==>
        && world.files in {old(world.files), old(world.files)[p := Dir]} && world.visible == old(world.visible)
        && Owed(world.health, MkdirPending)
      ensures !r.Unsettled?
      ensures calm ==>
        (r.Done? <==> old(world.health).Healthy? && old(world.storageUp) && CanCreate(old(world.files), p) && Accepted(p, old(world.fold)))
      ensures calm ==>
        if r.Done? then world == old(world).(files := old(world.files)[p := Dir], visible := old(world.visible)[p := DirMeta])
        else r.Failed? && world == old(world)
    {
      hide Accepted, Inv, Valid, Exec, ApplyProcessStep, ApplyTrashStep, ApplyUploadStep, SameCompleting, CanCreate, RowAvailable, Mark,
           BeginMkdir, FsMkdir, UndoMkdir, BeginMove, FsMove, CommitMove, UndoMove, Abort, ClearMutation, GiveUp;
      var ok: bool;
      ok, r := MakeDirectory(p);
      if !ok { return; }
      Interfere();
      MkdirCommitsExactly(world);
      ok := Step(OnTree(EvCommitMkdir));
      if ok {
        RowsAreFree(old(world.visible), p);
        return Done;
      }
      DirectoryRemoved(old(world.files), p);
      r := CompensateMkdir();
    }

    /** The rows of a subtree just renamed could not be rewritten. */
    method CompensateMove() returns (r: Outcome)
      requires Valid() && world.op.MoveMade?
      modifies this
      ensures Valid() && world.op.Idle? && SameTrash(old(world), world) && world.visible == old(world.visible)
      ensures world.files in {old(world.files), Renamed(old(world.files), old(world.op.dst), old(world.op.src))}
      ensures r == Failed ==> world.health.Healthy? && world.files == Renamed(old(world.files), old(world.op.dst), old(world.op.src))
      ensures r != Failed ==> r == Inconsistent && Owed(world.health, MovePending)
      ensures var src, dst := old(world.op.src), old(world.op.dst);
        calm && old(world.storageUp) && old(world.health) == Unhealthy(MovePending) && CanRename(old(world.files), dst, src) ==>
          r == Failed && world == old(world).(files := Renamed(old(world.files), dst, src), op := Idle, health := Healthy)
    {
      hide Inv, Valid, Exec, ApplyProcessStep, ApplyTrashStep, ApplyUploadStep, SameCompleting, CanRename, Renamed,
           BeginMkdir, FsMkdir, CommitMkdir, UndoMkdir, BeginMove, FsMove, CommitMove, Abort, ClearMutation, GiveUp;
      Interfere();
      IntentRecorded(world);
      var ok := Step(OnTree(EvUndoMove));
      if ok {
        r := AbortMutation();
      } else {
        assert GiveUp(world).Some? by { MayGiveUp(world); }
        Release();
        r := Inconsistent;
      }
    }

    /** The storage rename under the intent. */
    method RenameBegun() returns (ok: bool, r: Outcome)
      requires Valid() && world.op.MoveBegun?
      modifies this
      ensures Valid() && SameTrash(old(world), world) && world.visible == old(world.visible)
      ensures var src, dst := old(world.op.src), old(world.op.dst);
        && (ok ==> world.op == MoveMade(src, dst) && CanRename(old(world.files), src, dst) && world.files == Renamed(old(world.files), src, dst))
        && (!ok ==> world.op.Idle? && world.files == old(world.files))
        && (!ok ==> if r == Failed then world.health.Healthy? else r == Inconsistent && Owed(world.health, MovePending))
      ensures calm && old(world.health) == Unhealthy(MovePending) ==>
        var src, dst := old(world.op.src), old(world.op.dst);
        && (ok <==> old(world.storageUp) && CanRename(old(world.files), src, dst))
        && (if ok then world == old(world).(files := Renamed(old(world.files), src, dst), op := MoveMade(src, dst))
            else r == Failed && world == old(world).(op := Idle, health := Healthy))
    {
      hide Inv, Valid, Exec, ApplyProcessStep, ApplyTrashStep, ApplyUploadStep, SameCompleting, CanRename, Mark, Renamed, OnlyMarked,
           BeginMkdir, FsMkdir, CommitMkdir, UndoMkdir, BeginMove, CommitMove, UndoMove, Abort, ClearMutation, GiveUp;
      r := Failed;
      Interfere();
      ok := Step(OnTree(EvFsMove));
      if !ok {
        r := AbortBegun();
      }
    }

    /** The intent and the storage rename. */
    method RenameContent(src: Path, dst: Path) returns (ok: bool, r: Outcome)
      requires Valid() && world.phase.Serving? && world.op.Idle? && src != [] && dst != []
      modifies this
      ensures Valid() && SameTrash(old(world), world) && world.visible == old(world.visible)
      ensures ok ==>
        && world.op == MoveMade(src, dst)
        && CanRename(old(world.files), src, dst) && world.files == Renamed(old(world.files), src, dst)
        && old(world.health).Healthy?
      ensures !ok ==> world.op.Idle? && world.files == old(world.files)
      ensures !ok ==>
        if r == Failed then OnlyMarked(old(world.health), world.health) else r == Inconsistent && Owed(world.health, MovePending)
      ensures calm ==> (ok <==> old(world.health).Healthy? && old(world.storageUp) && CanRename(old(world.files), src, dst))
      ensures calm ==>
        if ok then world == old(world).(files := Renamed(old(world.files), src, dst), op := MoveMade(src, dst), health := Unhealthy(MovePending))
        else r == Failed && world == old(world)
    {
      hide Inv, Valid, Exec, Apply, SameCompleting, CanRename, Mark, Renamed,
           BeginMkdir, FsMkdir, CommitMkdir, UndoMkdir, FsMove, CommitMove, UndoMove, Abort, ClearMutation, GiveUp;
      r := Failed;
      Interfere();
      IntentEvents(world, src, src, dst);
      ok := Step(OnTree(EvBeginMove(src, dst)));
      if !ok { return; }
      ok, r := RenameBegun();
    }

    method Move(src: Path, dst: Path) returns (r: Outcome)
      requires Valid() && world.phase.Serving? && world.op.Idle? && src != [] && dst != []
      modifies this
      ensures Valid() && world.op.Idle? && SameTrash(old(world), world)
      ensures r.Done? ==>
        && CanRename(old(world.files), src, dst) && world.files == Renamed(old(world.files), src, dst)
        && src in old(world.visible) && world.visible == Renamed(old(world.visible), src, dst)
        && old(world.health).Healthy? && world.health.Healthy?
      ensures r.Failed? ==>
        world.files == old(world.files) && world.visible == old(world.visible) && OnlyMarked(old(world.health), world.health)
      ensures r.Inconsistent? ==>
        && world.files in {old(world.files), Renamed(old(world.files), src, dst)} && world.visible == old(world.visible)
        && Owed(world.health, MovePending)
      ensures !r.Unsettled?
      ensures calm ==>
        (r.Done? <==> old(world.health).Healthy? && old(world.storageUp) && CanRename(old(world.files), src, dst)
                      && MoveFits(old(world.visible), src, dst, old(world.fold)))
      ensures calm ==>
        if r.Done? then world == old(world).(files := Renamed(old(world.files), src, dst), visible := Renamed(old(world.visible), src, dst))
        else r.Failed? && world == old(world)
    {
      hide MoveFits, Inv, Valid, Exec, ApplyProcessStep, ApplyTrashStep, ApplyUploadStep, SameCompleting, CanRename, RowAvailable, Mark,
           Renamed, Without, Attach, Detach, MayBegin,
           BeginMkdir, FsMkdir, CommitMkdir, UndoMkdir, BeginMove, FsMove, UndoMove, Abort, ClearMutation, GiveUp;
      assert TreeOk(world.files) by { ValidTree(); }
      var ok: bool;
      ok, r := RenameContent(src, dst);
      if !ok { return; }
      Interfere();
      MoveCommitsExactly(world);
      ok := Step(OnTree(EvCommitMove));
      if ok { return Done; }
      CanRenameBack(old(world.files), src, dst);
      r := CompensateMove();
    }

    lemma ValidTree()
      requires Valid()
      ensures TreeOk(world.files)
    {
      hide Inv, Exec;
      RunKeeps(fold, log);
      TreeFact(world);
    }

    /** What a healthy server with storage shows is what is there. */
    lemma ValidServing()
      requires Valid() && world.phase.Serving? && world.op.Idle?
      ensures world.storageUp && world.health.Healthy? ==> world.visible.Keys == world.files.Keys
      ensures world.trash.Keys <= world.trashRows.Keys
    {
      hide Inv, Exec;
      RunKeeps(fold, log);
      if world.storageUp && world.health.Healthy? { ServingAgrees(world); }
      PayloadsHaveRows(world);
    }

    /** Hides the rows of the moved subtree, or records that they are still shown. */
    method CommitTrashOrMark() returns (ok: bool)
      requires Valid() && world.op.TrashMoved?
      modifies this
      ensures Valid() && world.op.Idle? && world.files == old(world.files) && world.trash == old(world.trash)
      ensures var id := old(world.op.id);
        if ok then
          id in old(world.trashRows) &&
          var p := old(world.trashRows)[id].path;
          && world.visible == Without(old(world.visible), p)
          && world.hidden == old(world.hidden)[id :=
               (if id in old(world.hidden) then old(world.hidden)[id] else map[]) + Under(old(world.visible), p)]
          && world.trashRows == old(world.trashRows)[id := TrashRow(p, Trashed)]
          && world.health.Healthy?
        else
          && world.visible == old(world.visible) && world.hidden == old(world.hidden)
          && world.trashRows == old(world.trashRows) && Owed(world.health, TrashOf(id))
      ensures calm ==> (ok <==> MayRepair(old(world.health), TrashOf(old(world.op.id))))
      ensures calm ==> world == old(world).(visible := world.visible, hidden := world.hidden, trashRows := world.trashRows, health := world.health, op := Idle)
    {
      hide Inv, Valid, Exec, ApplyProcessStep, ApplyTreeStep, ApplyUploadStep, SameCompleting, Without, Under,
           PrepareTrash, FsTrash, AbortTrash, BeginRestore, FsRestore, RollbackRestore, FinishRestore, FailRestore;
      Interfere();
      MovedCommits(world);
      ok := Step(OnTrash(EvCommitTrash));
      if !ok {
        Interfere();
        Record(OnTrash(EvFailTrash));
      }
    }

    /** The payload did not move: the row goes away again. */
    method AbortPrepared() returns (r: Outcome)
      requires Valid() && world.op.TrashPrepared?
      modifies this
      ensures Valid() && world.op.Idle? && OnlyMarked(old(world.health), world.health)
      ensures world.files == old(world.files) && world.trash == old(world.trash)
      ensures world.visible == old(world.visible) && world.hidden == old(world.hidden)
      ensures if r == Failed then world.trashRows == old(world.trashRows) - {old(world.op.id)}
        else r == Unsettled && world.trashRows == old(world.trashRows)
      ensures calm ==> r == Failed && world == old(world).(trashRows := old(world.trashRows) - {old(world.op.id)}, op := Idle)
    {
      hide Inv, Valid, Exec, ApplyProcessStep, ApplyTreeStep, ApplyUploadStep, SameCompleting, OnlyMarked,
           PrepareTrash, FsTrash, CommitTrash, FailTrash, BeginRestore, FsRestore, RollbackRestore, FinishRestore, FailRestore, GiveUp;
      Interfere();
      PreparedRow(world);
      var ok := Step(OnTrash(EvAbortTrash));
      if ok { return Failed; }
      MayGiveUp(world);
      Release();
      return Unsettled;
    }

    /** The durable row and the storage rename into trash. */
    method MoveToTrash(id: Id, p: Path) returns (r: Outcome)
      requires Valid() && world.phase.Serving? && world.op.Idle? && p != []
      modifies this
      ensures Valid() && world.visible == old(world.visible) && world.hidden == old(world.hidden)
      ensures r == Done ==>
        && world.op == TrashMoved(id) && old(world.health).Healthy?
        && p in old(world.files) && p in old(world.visible)
        && id !in old(world.trash) && id !in old(world.hidden) && id !in old(world.trashRows)
        && world.files == Without(old(world.files), p) && world.trash == old(world.trash)[id := Detach(old(world.files), p)]
      ensures r != Done ==>
        && (r == Failed || r == Unsettled) && world.op.Idle?
        && world.files == old(world.files) && world.trash == old(world.trash) && OnlyMarked(old(world.health), world.health)
      ensures world.trashRows == if r == Failed then old(world.trashRows) else old(world.trashRows)[id := TrashRow(p, Trashing)]
      ensures calm ==>
        (r == Done <==> old(world.health).Healthy? && old(world.storageUp) && id !in old(world.trashRows) && id !in old(world.trash)
                        && p in old(world.visible) && p in old(world.files))
      ensures calm ==>
        if r == Done then
          world == old(world).(files := Without(old(world.files), p), trash := old(world.trash)[id := Detach(old(world.files), p)],
                               trashRows := old(world.trashRows)[id := TrashRow(p, Trashing)], op := TrashMoved(id))
        else r == Failed && world == old(world)
    {
      hide Inv, Valid, Exec, Apply, SameCompleting,
           Without, Detach, Under, AbortTrash, CommitTrash, FailTrash, BeginRestore, FsRestore, RollbackRestore, FinishRestore, FailRestore, GiveUp;
      Interfere();
      TrashEvents(world, id, p);
      var ok := Step(OnTrash(EvPrepareTrash(id, p)));
      if !ok { return Failed; }
      FreshHidden(world, id);
      Interfere();
      TrashEvents(world, id, p);
      ok := Step(OnTrash(EvFsTrash));
      if !ok {
        DropAdded(old(world.trashRows), id, TrashRow(p, Trashing));
        r := AbortPrepared();
        return;
      }
      return Done;
    }

    /** `id` is drawn at random; a row that already has it fails the transaction. */
    method Trash(id: Id, p: Path) returns (r: Outcome)
      requires Valid() && world.phase.Serving? && world.op.Idle? && p != []
      modifies this
      ensures Valid() && world.op.Idle?
      ensures r.Done? ==>
        && p in old(world.files) && p in old(world.visible)
        && id !in old(world.trash) && id !in old(world.hidden) && id !in old(world.trashRows)
        && world.files == Without(old(world.files), p) && world.trash == old(world.trash)[id := Detach(old(world.files), p)]
        && world.visible == Without(old(world.visible), p) && world.hidden == old(world.hidden)[id := Under(old(world.visible), p)]
        && world.trashRows == old(world.trashRows)[id := TrashRow(p, Trashed)]
        && old(world.health).Healthy? && world.health.Healthy?
      ensures !r.Done? ==> world.visible == old(world.visible) && world.hidden == old(world.hidden)
      ensures r.Failed? ==> world.trashRows == old(world.trashRows)
      ensures r.Unsettled? || r.Inconsistent? ==> world.trashRows == old(world.trashRows)[id := TrashRow(p, Trashing)]
      ensures r.Failed? || r.Unsettled? ==>
        world.files == old(world.files) && world.trash == old(world.trash) && OnlyMarked(old(world.health), world.health)
      ensures r.Inconsistent? ==>
        && world.files == Without(old(world.files), p) && world.trash == old(world.trash)[id := Detach(old(world.files), p)]
        && Owed(world.health, TrashOf(id))
      ensures calm ==>
        (r.Done? <==> old(world.health).Healthy? && old(world.storageUp) && id !in old(world.trashRows) && p in old(world.files))
      ensures calm ==>
        if r.Done? then
          world == old(world).(files := Without(old(world.files), p), trash := old(world.trash)[id := Detach(old(world.files), p)],
                               visible := Without(old(world.visible), p), hidden := old(world.hidden)[id := Under(old(world.visible), p)],
                               trashRows := old(world.trashRows)[id := TrashRow(p, Trashed)])
        else r.Failed? && world == old(world)
    {
      hide Inv, Valid, Exec, Without, Detach, Under, Quiet, OnlyMarked, Owed;
      ValidServing();
      r := MoveToTrash(id, p);
      if r != Done { return; }
      RowReplaced(old(world.trashRows), id, TrashRow(p, Trashing), TrashRow(p, Trashed));
      EmptyUnion(Under(old(world.visible), p));
      var ok := CommitTrashOrMark();
      r := if ok then Done else Inconsistent;
    }

    /** Shows the rows of the returned subtree, or records that they are missing. */
    method FinishRestoreOrMark() returns (ok: bool)
      requires Valid() && world.op.RestoreMoved?
      modifies this
      ensures Valid() && world.op.Idle? && world.files == old(world.files) && world.trash == old(world.trash)
      ensures var id := old(world.op.id);
        if ok then
          && id in old(world.hidden) && old(world.hidden)[id].Keys !! old(world.visible).Keys
          && world.visible == old(world.visible) + old(world.hidden)[id] && world.hidden == old(world.hidden) - {id}
          && world.trashRows == old(world.trashRows) - {id}
          && world.health.Healthy?
        else
          && world.visible == old(world.visible) && world.hidden == old(world.hidden)
          && world.trashRows == old(world.trashRows) && Owed(world.health, RestoreOf(id))
      ensures calm ==> (ok <==> MayRepair(old(world.health), RestoreOf(old(world.op.id))))
      ensures calm ==> world == old(world).(visible := world.visible, hidden := world.hidden, trashRows := world.trashRows, health := world.health, op := Idle)
    {
      hide Inv, Valid, Exec, ApplyProcessStep, ApplyTreeStep, ApplyUploadStep, SameCompleting,
           PrepareTrash, FsTrash, AbortTrash, CommitTrash, FailTrash, BeginRestore, FsRestore, RollbackRestore;
      Interfere();
      ReturnedCommits(world);
      ok := Step(OnTrash(EvFinishRestore));
      if !ok {
        Interfere();
        Record(OnTrash(EvFailRestore));
      }
    }

    /** The payload did not move: the row settles again. */
    method RollBack() returns (r: Outcome)
      requires Valid() && world.op.RestoreBegun?
      modifies this
      ensures Valid() && world.op.Idle? && OnlyMarked(old(world.health), world.health)
      ensures world.files == old(world.files) && world.trash == old(world.trash)
      ensures world.visible == old(world.visible) && world.hidden == old(world.hidden)
      ensures var id := old(world.op.id);
        if r == Failed then
          id in old(world.trashRows) && world.trashRows == old(world.trashRows)[id := old(world.trashRows)[id].(state := Trashed)]
        else r == Unsettled && world.trashRows == old(world.trashRows)
      ensures calm ==> r == Failed && world == old(world).(trashRows := world.trashRows, op := Idle)
    {
      hide Inv, Valid, Exec, Apply, SameCompleting, OnlyMarked, GiveUp;
      Interfere();
      BegunRow(world);
      TrashEvents(world, world.op.id, []);
      var ok := Step(OnTrash(EvRollbackRestore));
      if ok { return Failed; }
      MayGiveUp(world);
      Release();
      return Unsettled;
    }

    /** The transitional row and the storage rename out of trash. */
    method ReturnContent(id: Id) returns (r: Outcome)
      requires Valid() && world.phase.Serving? && world.op.Idle?
      modifies this
      ensures Valid() && world.visible == old(world.visible) && world.hidden == old(world.hidden)
      ensures r == Done ==>
        && world.op == RestoreMoved(id) && old(world.health).Healthy?
        && id in old(world.trashRows) && old(world.trashRows)[id].state == Trashed
        && id in old(world.trash) && id in old(world.hidden)
        && CanCreate(old(world.files), old(world.trashRows)[id].path)
        && world.files == old(world.files) + Attach(old(world.trash)[id], old(world.trashRows)[id].path)
        && world.trash == old(world.trash) - {id}
      ensures r != Done ==>
        && (r == Failed || r == Unsettled) && world.op.Idle?
        && world.files == old(world.files) && world.trash == old(world.trash) && OnlyMarked(old(world.health), world.health)
      ensures r == Failed ==> world.trashRows == old(world.trashRows)
      ensures r != Failed ==>
        id in old(world.trashRows) && world.trashRows == old(world.trashRows)[id := old(world.trashRows)[id].(state := Restoring)]
      ensures calm ==>
        (r == Done <==> old(world.health).Healthy? && old(world.storageUp) && id in old(world.trashRows)
                        && old(world.trashRows)[id].state == Trashed && CanCreate(old(world.files), old(world.trashRows)[id].path))
      ensures calm ==>
        if r == Done then world == old(world).(files := world.files, trash := world.trash, trashRows := world.trashRows, op := RestoreMoved(id))
        else r == Failed && world == old(world)
    {
      hide Inv, Valid, Exec, Apply, SameCompleting, CanCreate, Attach, RollbackRestore;
      Interfere();
      HealthyPayload(world, id);
      TrashEvents(world, id, []);
      var ok := Step(OnTrash(EvBeginRestore(id)));
      if !ok { return Failed; }
      Interfere();
      TrashEvents(world, id, []);
      ok := Step(OnTrash(EvFsRestore));
      if ok { return Done; }
      RowPutBack(old(world.trashRows), id, old(world.trashRows)[id].(state := Restoring));
      r := RollBack();
    }

    method Restore(id: Id) returns (r: Outcome)
      requires Valid() && world.phase.Serving? && world.op.Idle?
      modifies this
      ensures Valid() && world.op.Idle?
      ensures r.Done? ==>
        && id in old(world.trashRows) && old(world.trashRows)[id].state == Trashed
        && id in old(world.trash) && id in old(world.hidden)
        && CanCreate(old(world.files), old(world.trashRows)[id].path)
        && world.files == old(world.files) + Attach(old(world.trash)[id], old(world.trashRows)[id].path)
        && world.trash == old(world.trash) - {id}
        && old(world.hidden)[id].Keys !! old(world.visible).Keys
        && world.visible == old(world.visible) + old(world.hidden)[id] && world.hidden == old(world.hidden) - {id}
        && world.trashRows == old(world.trashRows) - {id}
        && old(world.health).Healthy? && world.health.Healthy?
      ensures !r.Done? ==> world.visible == old(world.visible) && world.hidden == old(world.hidden)
      ensures r.Failed? ==> world.trashRows == old(world.trashRows)
      ensures r.Unsettled? || r.Inconsistent? ==>
        id in old(world.trashRows) && world.trashRows == old(world.trashRows)[id := old(world.trashRows)[id].(state := Restoring)]
      ensures r.Failed? || r.Unsettled? ==>
        world.files == old(world.files) && world.trash == old(world.trash) && OnlyMarked(old(world.health), world.health)
      ensures r.Inconsistent? ==>
        && id in old(world.trash) && world.trash == old(world.trash) - {id}
        && world.files == old(world.files) + Attach(old(world.trash)[id], old(world.trashRows)[id].path)
        && Owed(world.health, RestoreOf(id))
      ensures calm ==>
        (r.Done? <==> old(world.health).Healthy? && old(world.storageUp) && id in old(world.trashRows)
                      && old(world.trashRows)[id].state == Trashed && CanCreate(old(world.files), old(world.trashRows)[id].path))
      ensures calm ==>
        if r.Done? then
          world == old(world).(files := world.files, trash := world.trash, visible := world.visible, hidden := world.hidden,
                               trashRows := world.trashRows)
        else r.Failed? && world == old(world)
    {
      hide Inv, Valid, Exec, Apply, SameCompleting, CanCreate, Attach, Quiet, OnlyMarked, Owed;
      r := ReturnContent(id);
      if r != Done { return; }
      RowDropped(old(world.trashRows), id, old(world.trashRows)[id].(state := Restoring));
      var ok := FinishRestoreOrMark();
      r := if ok then Done else Inconsistent;
    }

    /** Records the published file, or that its row is missing. */
    method CompletePublished() returns (ok: bool)
      requires Valid() && world.op.CompletePublished?
      modifies this
      ensures Valid() && world.op.Idle? && SameTrash(old(world), world) && world.files == old(world.files)
      ensures var u := old(world.op.id);
        if ok then
          && u in old(world.uploads) && SameRow(world.uploads, u, old(world.uploads)[u].(status := Completed))
          && world.visible == old(world.visible)[old(world.uploads)[u].target := FileMeta(old(world.uploads)[u].total)]
          && world.health.Healthy?
        else
          world.visible == old(world.visible) && SameAt(old(world.uploads), world.uploads, u) && Owed(world.health, UploadOf(u))
      ensures calm ==> (ok <==> MayRepair(old(world.health), UploadOf(old(world.op.id))))
      ensures calm ==> world == old(world).(visible := world.visible, uploads := world.uploads, health := world.health, op := Idle)
    {
      hide Inv, Valid, Exec, Apply, MayRepair, Clear;
      assert Completing(world.op, world.op.id);
      Interfere();
      RepairedIsHealthy(world.health, UploadOf(world.op.id));
      PublishedCommits(world);
      CommitEffect(world);
      ok := Step(OnUpload(EvCommitComplete));
      if !ok {
        assert Completing(world.op, world.op.id);
        Interfere();
        FailEffect(world);
        Record(OnUpload(EvFailComplete));
      }
    }

    /** The rename failed: a row that this call made finalizing goes back to pending. */
    method ResetOrLeave() returns (r: Outcome)
      requires Valid() && world.op.CompletePrepared? && world.op.from in {Pending, Finalizing}
      modifies this
      ensures Valid() && world.op.Idle? && SameTrash(old(world), world)
      ensures world.files == old(world.files) && world.visible == old(world.visible)
      ensures HasStatus(world.uploads, old(world.op.id), if r == Failed then old(world.op.from) else Finalizing)
      ensures r == Failed || r == Unsettled
      ensures calm ==> r == Failed && world == old(world).(uploads := world.uploads, health := world.health, op := Idle)
    {
      hide Inv, Valid, Exec, Apply, HasStatus, OnlyMarked, SameCompleting, GiveUp;
      Interfere();
      ghost var before := world;
      r := if world.op.from == Finalizing then Failed else Unsettled;
      PreparedStatus(world);
      ResetPossible(world);
      var ok := Step(OnUpload(EvResetFinalizing));
      if ok {
        r := Failed;
        ResetEffect(before, world);
      } else {
        MayGiveUp(world);
        Release();
      }
    }

    /** Verifies the part and records the upload as finalizing. */
    method Prepare(u: Id) returns (ok: bool)
      requires Valid() && world.phase.Serving? && world.op.Idle? && !Locked(world, u)
      modifies this
      ensures Valid() && SameTrash(old(world), world)
      ensures world.visible == old(world.visible) && world.files == old(world.files)
      ensures if ok then u in old(world.uploads) && world.op == CompletePrepared(u, old(world.uploads)[u].status) else world.op.Idle?
      ensures !ok ==> SameAt(old(world.uploads), world.uploads, u)
      ensures ok ==> old(world.uploads)[u].status in {Pending, Finalizing}
      ensures calm ==> (ok <==> CanVerify(old(world), u))
      ensures calm ==>
        if ok then u in world.uploads && world == old(world).(uploads := world.uploads, op := world.op) && world.uploads[u].target == old(world.uploads)[u].target
        else world == old(world)
    {
      hide Inv, Valid, Exec, ApplyProcessStep, ApplyTreeStep, ApplyTrashStep, Locked, OnlyMarked,
           CreatePart, CreateUpload, DropPart, WritePart, LockUpload, RemovePart, FinishUncompleted, UnlockUpload,
           FsFinalize, ResetFinalizing, AdoptPublished, CommitComplete, FailComplete, GiveUp;
      UploadEvents(world, u);
      ok := Step(OnUpload(EvVerifyPart(u)));
      if !ok { return; }
      assert Completing(world.op, u);
      Interfere();
      var now: int := *;
      ok := Step(OnUpload(EvPrepareFinalization(now)));
      if !ok {
        MayGiveUp(world);
        Release();
      }
    }

    /** Renames the verified part to its target. */
    method Publish(u: Id) returns (r: Outcome)
      requires Valid() && world.phase.Serving? && world.op.Idle? && !Locked(world, u)
      modifies this
      ensures Valid() && SameTrash(old(world), world) && world.visible == old(world.visible)
      ensures r == Done ==>
        && world.op == Op.CompletePublished(u)
        && u in world.uploads && |world.uploads[u].verified| == world.uploads[u].total
        && CanCreate(old(world.files), world.uploads[u].target)
        && world.files == old(world.files)[world.uploads[u].target := File(u, world.uploads[u].verified)]
      ensures r != Done ==> world.op.Idle? && world.files == old(world.files)
      ensures r == Failed ==> u in old(world.uploads) ==> HasStatus(world.uploads, u, old(world.uploads)[u].status)
      ensures r == Unsettled ==> HasStatus(world.uploads, u, Finalizing)
      ensures r != Inconsistent
      ensures calm ==> (r == Done <==> CanVerify(old(world), u) && CanCreate(old(world.files), old(world.uploads)[u].target))
      ensures calm && r == Done ==> world.health == old(world.health) && world == old(world).(files := world.files, parts := world.parts, uploads := world.uploads, op := world.op)
      ensures calm && r != Done ==> r == Failed && world == old(world).(uploads := world.uploads, health := world.health)
    {
      hide Inv, Valid, Exec, ApplyProcessStep, ApplyTreeStep, ApplyTrashStep, CanCreate, SameCompleting, OnlyMarked,
           CreatePart, CreateUpload, DropPart, WritePart, LockUpload, RemovePart, FinishUncompleted, UnlockUpload,
           VerifyPart, PrepareFinalization, ResetFinalizing, AdoptPublished, CommitComplete, FailComplete, GiveUp;
      var ok := Prepare(u);
      if !ok { return Failed; }
      Interfere();
      ok := Step(OnUpload(EvFsFinalize));
      if ok {
        PublishedIsOwn(world, u);
        return Done;
      }
      r := ResetOrLeave();
    }

    /** Takes up an upload whose part was already renamed to its target. */
    method Adopt(u: Id) returns (ok: bool)
      requires Valid() && world.phase.Serving? && world.op.Idle?
      modifies this
      ensures Valid() && SameTrash(old(world), world)
      ensures world.visible == old(world.visible) && world.files == old(world.files)
      ensures if ok then
          && world.op == Op.CompletePublished(u)
          && u in world.uploads && |world.uploads[u].verified| == world.uploads[u].total
          && world.uploads[u].target in world.files && world.files[world.uploads[u].target] == File(u, world.uploads[u].verified)
        else
          world == old(world)
      ensures calm && HasStatus(old(world.uploads), u, Finalizing) && u !in old(world.parts) && !Locked(old(world), u) ==> (ok <==> old(world.storageUp))
      ensures calm && ok ==> world == old(world).(op := world.op)
    {
      hide Inv, Valid, Exec, ApplyProcessStep, ApplyTreeStep, ApplyTrashStep, Locked,
           CreatePart, CreateUpload, DropPart, WritePart, LockUpload, RemovePart, FinishUncompleted, UnlockUpload,
           VerifyPart, PrepareFinalization, FsFinalize, ResetFinalizing, CommitComplete, FailComplete;
      assert HasStatus(world.uploads, u, Finalizing) && u !in world.parts ==> OwnFile(world, u) by { ValidOwn(u); }
      ok := Step(OnUpload(EvAdoptPublished(u)));
      if ok {
        PublishedIsOwn(world, u);
      }
    }

    /** The file is at its target, by this call or by an earlier one. */
    method PublishOrAdopt(u: Id) returns (r: Outcome)
      requires Valid() && world.phase.Serving? && world.op.Idle? && !Locked(world, u)
      requires u in world.uploads && world.uploads[u].status in {Pending, Finalizing}
      modifies this
      ensures Valid() && SameTrash(old(world), world) && world.visible == old(world.visible)
      ensures r == Done ==>
        && world.op == Op.CompletePublished(u) && u in world.uploads
        && var row := world.uploads[u];
        && |row.verified| == row.total && world.files == old(world.files)[row.target := File(u, row.verified)]
        && (row.target in old(world.files) ==> old(world.files)[row.target] == File(u, row.verified))
      ensures r != Done ==> world.op.Idle? && world.files == old(world.files)
      ensures r == Failed ==> HasStatus(world.uploads, u, old(world.uploads)[u].status)
      ensures r == Unsettled ==> HasStatus(world.uploads, u, Finalizing)
      ensures r != Inconsistent
      ensures calm ==> (r == Done <==> Completable(old(world), u))
      ensures calm && r == Done ==> world.health == old(world.health)
      ensures calm && r != Done ==> r == Failed && world == old(world).(uploads := world.uploads, health := world.health)
    {
      hide CanVerify;
      VerifyMeans(world, u);
      hide Inv, Valid, Exec, Apply, CanCreate, Quiet, Locked, OnlyMarked, Owed;
      ValidOwn(u);
      var row := world.uploads[u];
      if row.status == Finalizing && u !in world.parts && row.target in world.files {
        var ok := Adopt(u);
        r := if ok then Done else Failed;
      } else if row.status == Finalizing && (u !in world.parts || row.target in world.files) {
        r := Failed;
      } else {
        r := Publish(u);
        if r == Done { NothingAt(old(world.files), world.uploads[u].target); }
      }
    }

    /** The caller holds the exclusive lock of the upload. */
    method Complete(u: Id) returns (r: Outcome)
      requires Valid() && world.phase.Serving? && world.op.Idle? && !Locked(world, u)
      modifies this
      ensures Valid() && world.op.Idle? && SameTrash(old(world), world)
      ensures r.Done? ==> HasStatus(world.uploads, u, Completed)
      ensures r.Done? && !HasStatus(old(world.uploads), u, Completed) ==>
        var row := world.uploads[u];
        && |row.verified| == row.total
        && world.files == old(world.files)[row.target := File(u, row.verified)]
        && (row.target in old(world.files) ==> old(world.files)[row.target] == File(u, row.verified))
        && world.visible == old(world.visible)[row.target := FileMeta(row.total)]
        && world.health.Healthy?
      ensures !r.Done? ==> world.visible == old(world.visible)
      ensures r.Failed? || r.Unsettled? ==> world.files == old(world.files)
      ensures r.Failed? && u in old(world.uploads) ==> HasStatus(world.uploads, u, old(world.uploads)[u].status)
      ensures r.Unsettled? || r.Inconsistent? ==> HasStatus(world.uploads, u, Finalizing)
      ensures r.Inconsistent? ==>
        var row := world.uploads[u];
        && world.files == old(world.files)[row.target := File(u, row.verified)]
        && Owed(world.health, UploadOf(u))
      ensures calm && !HasStatus(old(world.uploads), u, Completed) ==>
        r == if !Completable(old(world), u) then Failed else if MayRepair(old(world.health), UploadOf(u)) then Done else Inconsistent
      ensures calm && r.Failed? ==> world == old(world).(uploads := world.uploads, health := world.health)
    {
      hide Inv, Valid, Exec, Apply, CanCreate, Quiet, Locked, OnlyMarked, Owed, CanVerify, MayRepair, Completable;
      StatusMeans(world, u);
      if u !in world.uploads { return Failed; }
      if world.uploads[u].status == Completed { return Done; }
      if world.uploads[u].status != Pending && world.uploads[u].status != Finalizing { return Failed; }
      r := PublishOrAdopt(u);
      if r != Done { return; }
      assert Published(world.parts, world.uploads, u) by { ValidOp(); }
      var ok := CompletePublished();
      r := if ok then Done else Inconsistent;
    }

    /** The target of an upload whose part is gone is its own file. */
    lemma ValidOwn(u: Id)
      requires Valid()
      ensures HasStatus(world.uploads, u, Finalizing) && u !in world.parts ==> OwnFile(world, u)
    {
      hide Inv, Exec;
      RunKeeps(fold, log);
      if HasStatus(world.uploads, u, Finalizing) && u !in world.parts { OwnTarget(world, u); }
    }

    lemma ValidOp()
      requires Valid()
      ensures world.op.CompletePublished? ==> Published(world.parts, world.uploads, world.op.id)
    {
      hide Inv, Exec;
      RunKeeps(fold, log);
      IntentRecorded(world);
    }

    /** Any number of steps of everyone but the holder of the exclusive lock of `u`. */
    method Interleave(u: Id)
      requires Valid() && u in world.exclusive
      modifies this
      ensures Valid() && u in world.exclusive
      ensures SameAt(old(world.uploads), world.uploads, u) && SameAt(old(world.parts), world.parts, u)
      ensures calm ==> world == old(world)
    {
      hide Inv, Apply, Excluded;
      RunKeeps(fold, log);
      if calm { return; }
      var others: seq<Event> := *;
      for i := 0 to |others|
        invariant Valid() && Inv(world) && u in world.exclusive
        invariant SameAt(old(world.uploads), world.uploads, u) && SameAt(old(world.parts), world.parts, u)
      {
        if Excluded(others[i], u) {
          var before := world;
          var ok := Step(others[i]);
          if ok {
            ExclusiveHolds(before, others[i], u);
          }
        }
      }
    }

    /** Cancel, and the cleanup of one expired upload. */
    method Retire(u: Id, status: Status) returns (ok: bool)
      requires Valid() && (status == Cancelled || status == Expired)
      modifies this
      ensures Valid()
      ensures ok ==> HasStatus(world.uploads, u, status) && u !in world.parts
      ensures !ok ==> SameAt(old(world.uploads), world.uploads, u)
      ensures u !in world.exclusive || u in old(world.exclusive)
      ensures calm ==> (ok <==> Retirable(old(world), u))
      ensures calm ==>
        if ok then world == old(world).(parts := old(world.parts) - {u}, uploads := old(world.uploads)[u := old(world.uploads)[u].(status := status)])
        else world == old(world)
    {
      hide Inv, Valid, Exec, Apply, Retirable;
      RetireEvents(world, u, status);
      ok := Step(OnUpload(EvLockUpload(u)));
      if !ok { return; }
      Interleave(u);
      RetireEvents(world, u, status);
      ok := Step(OnUpload(EvRemovePart(u)));
      if ok {
        Interleave(u);
        RetireEvents(world, u, status);
        ok := Step(OnUpload(EvFinishUncompleted(u, status)));
        if ok { return; }
      }
      RetireEvents(world, u, status);
      Record(OnUpload(EvUnlockUpload(u)));
    }

    /** Announces an upload: the part first, and it goes again when the row is refused. */
    method Create(u: Id, target: Path, total: nat) returns (ok: bool)
      requires Valid() && world.phase.Serving?
      modifies this
      ensures Valid()
      ensures ok ==> u !in old(world.uploads) && u in world.uploads && world.uploads[u].target == target && world.uploads[u].total == total
      ensures calm ==>
        (ok <==> old(world.storageUp) && old(world.health).Healthy? && u !in old(world.uploads) && u !in old(world.parts)
                 && Accepted(target, old(world.fold)) && RowAvailable(old(world.visible), target))
      ensures calm ==>
        if ok then world == old(world).(parts := old(world.parts)[u := []], uploads := old(world.uploads)[u := UploadRow(target, total, [], Pending, 0)])
        else world == old(world)
    {
      hide Inv, Valid, Exec, Apply, Accepted, RowAvailable;
      CreateEvents(world, u, target, total);
      ok := Step(OnUpload(EvCreatePart(u)));
      if !ok { return; }
      CreateEvents(world, u, target, total);
      ok := Step(OnUpload(EvCreateUpload(u, target, total)));
      if !ok {
        assert old(world.parts)[u := []] - {u} == old(world.parts);
        var dropped := Step(OnUpload(EvDropPart(u)));
      }
    }
  }

  /** The upload can be cancelled or expire. */
  predicate Retirable(s: State, u: Id) {
    s.phase.Serving? && s.storageUp && u in s.uploads && s.uploads[u].status == Pending && !Locked(s, u)
  }

  lemma RetireEvents(s: State, u: Id, status: Status)
    ensures Apply(s, OnUpload(EvLockUpload(u))) ==
      if s.phase.Serving? && u in s.uploads && s.uploads[u].status == Pending && !Locked(s, u) then Some(s.(exclusive := s.exclusive + {u})) else None
    ensures Apply(s, OnUpload(EvRemovePart(u))) == if u in s.exclusive && s.storageUp then Some(s.(parts := s.parts - {u})) else None
    ensures Apply(s, OnUpload(EvUnlockUpload(u))) == if u in s.exclusive then Some(s.(exclusive := s.exclusive - {u})) else None
    ensures Apply(s, OnUpload(EvFinishUncompleted(u, status))) ==
      if u in s.exclusive && u in s.uploads && s.uploads[u].status == Pending && (status == Cancelled || status == Expired) then
        Some(s.(uploads := s.uploads[u := s.uploads[u].(status := status)], exclusive := s.exclusive - {u}))
      else None
    ensures !Locked(s, u) ==> s.exclusive + {u} - {u} == s.exclusive
    ensures Retirable(s, u) <==> Apply(s, OnUpload(EvLockUpload(u))).Some? && s.storageUp
  {
    hide ApplyProcessStep, ApplyTreeStep, ApplyTrashStep;
  }

  lemma CreateEvents(s: State, u: Id, target: Path, total: nat)
    ensures Apply(s, OnUpload(EvCreatePart(u))) ==
      if s.phase.Serving? && s.storageUp && u !in s.uploads && u !in s.parts then Some(s.(parts := s.parts[u := []])) else None
    ensures Apply(s, OnUpload(EvCreateUpload(u, target, total))) ==
      if s.phase.Serving? && s.health.Healthy? && u !in s.uploads && Accepted(target, s.fold) && RowAvailable(s.visible, target) then
        Some(s.(uploads := s.uploads[u := UploadRow(target, total, [], Pending, 0)]))
      else None
    ensures Apply(s, OnUpload(EvDropPart(u))) == if s.phase.Serving? && s.storageUp && u !in s.uploads then Some(s.(parts := s.parts - {u})) else None
  {
    hide ApplyProcessStep, ApplyTreeStep, ApplyTrashStep, Accepted, RowAvailable;
  }

  /** A step that does not need the exclusive lock of `u`, and not the end of the process. */
  predicate Excluded(e: Event, u: Id) {
    match e
    case Process(p) => !p.EvCrash? && !p.EvReconcileUploadFails?
    case OnUpload(b) => !((b.EvRemovePart? || b.EvFinishUncompleted? || b.EvUnlockUpload?) && b.id == u)
    case _ => true
  }

  ghost predicate Untouched(s: State, t: State, u: Id) {
    u in t.exclusive && SameAt(s.uploads, t.uploads, u) && SameAt(s.parts, t.parts, u)
  }

  lemma ServingOnly(s: State, u: Id)
    requires Inv(s) && u in s.exclusive
    ensures s.phase.Serving? && u in s.uploads && s.uploads[u].status == Pending
    ensures !Completing(s.op, u)
  {
    hide ContentOk, OriginsOk, FinalizingOk, AgreeState, DoubtOk, IntentOk;
  }

  lemma ProcessLeavesUpload(s: State, e: ProcessStep, u: Id)
    requires s.phase.Serving? && u in s.exclusive && Excluded(Process(e), u) && ApplyProcessStep(s, e).Some?
    ensures Untouched(s, ApplyProcessStep(s, e).value, u)
  {
    hide PathsAccepted, NoTransitionalTrash, NoFinalizing, MetaOf, Attach, ThroughFile, CommitTrashRow, FinishRestoreRow, CompleteUploadRow,
         ResetUploadRow;
  }

  lemma TreeLeavesUpload(s: State, e: TreeStep, u: Id)
    requires u in s.exclusive && ApplyTreeStep(s, e).Some?
    ensures Untouched(s, ApplyTreeStep(s, e).value, u)
  {
    hide Accepted, MoveFits, CanCreate, CanRename, RowAvailable, Renamed, Without, Attach, Detach, Clear, MayRepair;
  }

  lemma TrashLeavesUpload(s: State, e: TrashStep, u: Id)
    requires u in s.exclusive && ApplyTrashStep(s, e).Some?
    ensures Untouched(s, ApplyTrashStep(s, e).value, u)
  {
    hide CanCreate, Under, Without, Attach, Detach, Clear, Mark, MayRepair;
  }

  lemma UploadLeavesUpload(s: State, e: UploadStep, u: Id)
    requires u in s.uploads && s.uploads[u].status == Pending && !Completing(s.op, u) && OpOk(s)
    requires u in s.exclusive && Excluded(OnUpload(e), u) && ApplyUploadStep(s, e).Some?
    ensures Untouched(s, ApplyUploadStep(s, e).value, u)
  {
    hide Accepted, CanCreate, RowAvailable, Clear, Mark, MayRepair;
  }

  /** While a cancel or an expiry holds the exclusive lock, no step of any other
      request changes its row or its part, or takes the lock away. */
  lemma ExclusiveHolds(s: State, e: Event, u: Id)
    requires Inv(s) && u in s.exclusive && Excluded(e, u) && Apply(s, e).Some?
    ensures var t := Apply(s, e).value;
      u in t.exclusive && SameAt(s.uploads, t.uploads, u) && SameAt(s.parts, t.parts, u)
  {
    hide ContentOk, OriginsOk, FinalizingOk, AgreeState, DoubtOk, IntentOk, PhaseOk, OpOk, Excluded,
         ApplyProcessStep, ApplyTreeStep, ApplyTrashStep, ApplyUploadStep;
    ServingOnly(s, u);
    match e
    case Process(p) => ProcessLeavesUpload(s, p, u);
    case OnTree(t) => TreeLeavesUpload(s, t, u);
    case OnTrash(b) => TrashLeavesUpload(s, b, u);
    case OnUpload(b) => UploadLeavesUpload(s, b, u);
  }

  lemma RepairedIsHealthy(h: Health, r: Reason)
    ensures MayRepair(h, r) ==> Clear(h, r).Healthy?
  {
  }

  predicate HasStatus(uploads: map<Id, UploadRow>, u: Id, status: Status) {
    u in uploads && uploads[u].status == status
  }

  lemma ResetEffect(s: State, t: State)
    requires Apply(s, OnUpload(EvResetFinalizing)) == Some(t)
    ensures s.op.CompletePrepared? && s.op.from == Pending && HasStatus(t.uploads, s.op.id, Pending)
    ensures t.op.Idle? && SameTrash(s, t) && t.files == s.files && t.visible == s.visible
    ensures t == s.(uploads := t.uploads, health := t.health, op := Idle)
  {
    hide Clear, CreatePart, CreateUpload, DropPart, WritePart, LockUpload, RemovePart, FinishUncompleted, UnlockUpload,
         VerifyPart, PrepareFinalization, FsFinalize, AdoptPublished, CommitComplete, FailComplete;
  }

  lemma PreparedStatus(s: State)
    requires Inv(s) && s.op.CompletePrepared?
    ensures HasStatus(s.uploads, s.op.id, Finalizing)
  {
    hide ContentOk, OriginsOk, FinalizingOk, AgreeState, DoubtOk, IntentOk, PhaseOk;
  }

  predicate SameRow(uploads: map<Id, UploadRow>, u: Id, row: UploadRow) {
    u in uploads && uploads[u] == row
  }

  lemma NothingAt(t: Tree, p: Path)
    requires CanCreate(t, p)
    ensures p !in t
  {
  }

  lemma PublishedIsOwn(s: State, u: Id)
    requires Inv(s) && s.op == CompletePublished(u)
    ensures u in s.uploads && |s.uploads[u].verified| == s.uploads[u].total
    ensures var row := s.uploads[u]; row.target in s.files && s.files[row.target] == File(u, row.verified)
  {
    hide ContentOk, OriginsOk, AgreeState, DoubtOk, IntentOk, PhaseOk;
  }

  /** A new trash id has no hidden rows yet. */
  lemma FreshHidden(s: State, id: Id)
    requires Inv(s) && id in s.trashRows && s.trashRows[id].state == Trashing && Trusted(s.health)
    ensures id !in s.hidden
  {
    hide ContentOk, OriginsOk, FinalizingOk, OpOk, DoubtOk, IntentOk, PhaseOk, ShownOk, ContentShown, GhostsShown, ReturnedOk;
  }

  lemma RowReplaced(rows: map<Id, TrashRow>, id: Id, a: TrashRow, b: TrashRow)
    ensures rows[id := a][id := b] == rows[id := b]
  {
  }

  lemma RowPutBack(rows: map<Id, TrashRow>, id: Id, a: TrashRow)
    requires id in rows
    ensures rows[id := a][id := rows[id]] == rows
  {
  }

  lemma RowDropped(rows: map<Id, TrashRow>, id: Id, a: TrashRow)
    ensures rows[id := a] - {id} == rows - {id}
  {
  }

  lemma EmptyUnion(rows: Rows)
    ensures map[] + rows == rows
  {
  }

  lemma MayGiveUp(s: State)
    requires s.op.MkdirMade? || s.op.MoveMade? || s.op.Aborting? || s.op.TrashPrepared? || s.op.RestoreBegun?
      || s.op.CompleteVerified? || s.op.CompletePrepared?
    ensures GiveUp(s).Some?
  {
  }

  lemma MadeDirectory(s: State)
    requires Inv(s) && s.op.MkdirMade?
    ensures s.op.path in s.files && forall q | q in s.files :: s.op.path <= q ==> q == s.op.path
  {
    hide ContentOk, OriginsOk, FinalizingOk, AgreeState, DoubtOk, IntentOk, PhaseOk;
  }

  lemma IntentEvents(s: State, p: Path, src: Path, dst: Path)
    ensures Apply(s, OnTree(EvBeginMkdir(p))) == BeginMkdir(s, p) && Apply(s, OnTree(EvBeginMove(src, dst))) == BeginMove(s, src, dst)
  {
    hide BeginMkdir, BeginMove;
  }

  lemma ServingAgrees(s: State)
    requires Inv(s) && s.phase.Serving? && s.op.Idle? && s.storageUp && s.health.Healthy?
    ensures s.visible.Keys == s.files.Keys
  {
    hide ContentOk, OriginsOk, FinalizingOk, Agree, OpOk, IntentOk;
    AgreeWithoutDoubt(s);
    assert MetaOf(s.files).Keys == s.files.Keys;
  }

  lemma MovedCommits(s: State)
    requires Inv(s) && s.op.TrashMoved?
    ensures CommitTrashRow(s, s.op.id).Some? <==> MayRepair(s.health, TrashOf(s.op.id))
  {
    hide CommitTrashRow, MayRepair, ContentOk, OriginsOk, FinalizingOk, AgreeState, DoubtOk, IntentOk, PhaseOk;
    TrashCommitsExactly(s, s.op.id);
  }

  lemma PreparedRow(s: State)
    requires Inv(s) && s.op.TrashPrepared?
    ensures s.op.id in s.trashRows && s.trashRows[s.op.id].state == Trashing
  {
    hide ContentOk, OriginsOk, FinalizingOk, AgreeState, DoubtOk, IntentOk, PhaseOk;
  }

  lemma TrashEvents(s: State, id: Id, p: Path)
    ensures Apply(s, OnTrash(EvPrepareTrash(id, p))) == PrepareTrash(s, id, p) && Apply(s, OnTrash(EvFsTrash)) == FsTrash(s)
    ensures Apply(s, OnTrash(EvBeginRestore(id))) == BeginRestore(s, id) && Apply(s, OnTrash(EvFsRestore)) == FsRestore(s)
    ensures Apply(s, OnTrash(EvRollbackRestore)) == RollbackRestore(s)
  {
    hide PrepareTrash, FsTrash, BeginRestore, FsRestore, RollbackRestore;
  }

  lemma BegunRow(s: State)
    requires Inv(s) && s.op.RestoreBegun?
    ensures s.op.id in s.trashRows && s.trashRows[s.op.id].state == Restoring
  {
    hide ContentOk, OriginsOk, FinalizingOk, AgreeState, DoubtOk, IntentOk, PhaseOk;
  }

  /** A settled trash row of a healthy index has its payload and its rows. */
  lemma HealthyPayload(s: State, id: Id)
    requires Inv(s)
    ensures s.health.Healthy? && id in s.trashRows && s.trashRows[id].state == Trashed ==>
      id in s.trash && id in s.hidden && s.hidden[id] != map[]
  {
    hide OriginsOk, FinalizingOk, OpOk, DoubtOk, IntentOk, PhaseOk, TreeOk, PayloadOk, MetaOf, Attach, ShownOk, ContentShown, GhostsShown, ReturnedOk;
    if s.health.Healthy? && id in s.trashRows && s.trashRows[id].state == Trashed {
      RootAttached(s.trash[id], s.trashRows[id].path);
    }
  }

  lemma ReturnedCommits(s: State)
    requires Inv(s) && s.op.RestoreMoved?
    ensures FinishRestoreRow(s, s.op.id).Some? <==> MayRepair(s.health, RestoreOf(s.op.id))
  {
    hide FinishRestoreRow, MayRepair, ContentOk, OriginsOk, FinalizingOk, AgreeState, DoubtOk, IntentOk, PhaseOk;
    RestoreCommitsExactly(s, s.op.id);
  }

  lemma PublishedCommits(s: State)
    requires Inv(s) && s.op.CompletePublished?
    ensures CompleteUploadRow(s, s.op.id).Some? <==> MayRepair(s.health, UploadOf(s.op.id))
  {
    hide CompleteUploadRow, ContentOk, OriginsOk, FinalizingOk, AgreeState, IntentOk, PhaseOk;
    if MayRepair(s.health, UploadOf(s.op.id)) {
      assert NothingMoved(s.trash, s.trashRows);
      PublicationCommitsExactly(s, s.op.id);
    } else {
      NotRepaired(s);
    }
  }

  lemma NotRepaired(s: State)
    requires s.op.CompletePublished? && !MayRepair(s.health, UploadOf(s.op.id))
    ensures CompleteUploadRow(s, s.op.id).None?
  {
  }

  lemma ResetPossible(s: State)
    requires Inv(s) && s.op.CompletePrepared?
    ensures s.op.from == Pending <==> Apply(s, OnUpload(EvResetFinalizing)).Some?
  {
    hide ContentOk, OriginsOk, FinalizingOk, AgreeState, DoubtOk, IntentOk, PhaseOk, ApplyProcessStep, ApplyTreeStep, ApplyTrashStep, Clear,
         CreatePart, CreateUpload, DropPart, WritePart, LockUpload, RemovePart, FinishUncompleted, UnlockUpload,
         VerifyPart, PrepareFinalization, FsFinalize, AdoptPublished, CommitComplete, FailComplete;
  }

  lemma UploadEvents(s: State, u: Id)
    requires s.phase.Serving? && s.op.Idle? && !Locked(s, u)
    ensures Apply(s, OnUpload(EvVerifyPart(u))).Some? <==> CanVerify(s, u)
  {
    hide ApplyProcessStep, ApplyTreeStep, ApplyTrashStep, Locked,
         CreatePart, CreateUpload, DropPart, WritePart, LockUpload, RemovePart, FinishUncompleted, UnlockUpload,
         PrepareFinalization, FsFinalize, ResetFinalizing, AdoptPublished, CommitComplete, FailComplete;
  }

  lemma CommitEffect(s: State)
    requires s.op.CompletePublished?
    ensures Apply(s, OnUpload(EvCommitComplete)).Some? <==> CompleteUploadRow(s, s.op.id).Some?
    ensures Apply(s, OnUpload(EvCommitComplete)).Some? ==>
      var t, u := Apply(s, OnUpload(EvCommitComplete)).value, s.op.id;
      && u in s.uploads && MayRepair(s.health, UploadOf(u))
      && t == s.(visible := s.visible[s.uploads[u].target := FileMeta(s.uploads[u].total)],
                 uploads := s.uploads[u := s.uploads[u].(status := Completed)], health := Clear(s.health, UploadOf(u)), op := Idle)
  {
    hide ApplyProcessStep, ApplyTreeStep, ApplyTrashStep, RowAvailable, MayRepair, Clear,
         CreatePart, CreateUpload, DropPart, WritePart, LockUpload, RemovePart, FinishUncompleted, UnlockUpload,
         VerifyPart, PrepareFinalization, FsFinalize, ResetFinalizing, AdoptPublished, FailComplete;
  }

  lemma FailEffect(s: State)
    requires s.op.CompletePublished?
    ensures Apply(s, OnUpload(EvFailComplete)) == Some(s.(health := Mark(s.health, UploadOf(s.op.id)), op := Idle))
  {
    hide ApplyProcessStep, ApplyTreeStep, ApplyTrashStep, Mark,
         CreatePart, CreateUpload, DropPart, WritePart, LockUpload, RemovePart, FinishUncompleted, UnlockUpload,
         VerifyPart, PrepareFinalization, FsFinalize, ResetFinalizing, AdoptPublished, CommitComplete;
  }

  lemma StatusMeans(s: State, u: Id)
    ensures Completable(s, u) ==> u in s.uploads && s.uploads[u].status in {Pending, Finalizing}
  {
  }

  lemma VerifyMeans(s: State, u: Id)
    ensures CanVerify(s, u) ==>
      && u in s.uploads && u in s.parts && s.storageUp && s.uploads[u].status in {Pending, Finalizing}
      && (s.uploads[u].status == Finalizing ==> s.uploads[u].target !in s.files)
  {
  }

  lemma DirectoryRemoved(t: Tree, p: Path)
    requires CanCreate(t, p)
    ensures t[p := Dir] - {p} == t
  {
  }

  lemma RowsAreFree(v: Rows, p: Path)
    requires RowAvailable(v, p)
    ensures p !in v
  {
  }

  lemma IntentRecorded(s: State)
    requires Inv(s)
    ensures s.op.MkdirMade? ==> Owed(s.health, MkdirPending)
    ensures s.op.MoveMade? ==> Owed(s.health, MovePending)
    ensures s.op.Aborting? ==> Owed(s.health, s.op.reason)
    ensures s.op.CompletePublished? ==> Published(s.parts, s.uploads, s.op.id)
  {
    hide ContentOk, OriginsOk, FinalizingOk, AgreeState, DoubtOk, IntentOk, PhaseOk;
  }

  predicate SameTrash(s: State, t: State) {
    t.trash == s.trash && t.hidden == s.hidden && t.trashRows == s.trashRows
  }

  lemma QuietRefl(s: State)
    ensures Quiet(s, s)
  {
  }
}
