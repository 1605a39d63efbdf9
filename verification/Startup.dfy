/** Startup: the two reconciliation loops and the gate that opens after them. */
module Startup {
  import opened Paths
  import opened World
  import opened Invariant
  import opened Outcomes
  import opened Protocol
  import opened Service
  import opened Ordering
  import opened Settling
  import opened Recoverability
  import opened Stuck
  import opened Reconciling

  const BATCH: nat := 100
  const MAXIMUM: nat := 1000

  /****** listing ******/

  /** SELECT ... ORDER BY updated_at, id LIMIT limit; `key` is the updated_at column. */
  method Take(pending: set<Id>, key: Id -> int, limit: nat) returns (ids: seq<Id>)
    ensures Distinct(ids) && |ids| <= limit && IsListing(ids, pending, key)
    ensures forall i | 0 <= i < |ids| :: ids[i] in pending
    ensures |ids| < limit ==> forall id | id in pending :: id in ids
  {
    hide ListedBefore;
    ids := [];
    var rest := pending;
    while |ids| < limit && rest != {}
      invariant |ids| <= limit && Distinct(ids) && InOrder(ids, key)
      invariant rest <= pending
      invariant forall i | 0 <= i < |ids| :: ids[i] in pending && ids[i] !in rest
      invariant forall id | id in pending :: id in rest || id in ids
      invariant forall i, id | 0 <= i < |ids| && id in rest :: ListedBefore(key(ids[i]), ids[i], key(id), id)
      decreases limit - |ids|
    {
      ghost var first := FirstListed(rest, key);
      assert FirstOf(first, rest, key);
      var id :| id in rest && forall other | other in rest && other != id :: ListedBefore(key(id), id, key(other), other);
      ids, rest := ids + [id], rest - {id};
    }
  }

  /****** the loops ******/

  /** One listed row under the mutation lock. */
  method ReconcileTrashEntry(server: Server, id: Id) returns (ok: bool)
    requires server.Valid() && server.world.phase.StartingTrash? && Transitional(server.world.trashRows, id)
    modifies server
    ensures server.Valid() && Inv(server.world) && server.world.phase.StartingTrash?
    ensures if ok then
        && server.world.files == old(server.world.files) && server.world.trash == old(server.world.trash)
        && server.world.parts == old(server.world.parts)
        && SettledByBits(old(server.world), server.world.trashRows, id)
        && forall i | i != id :: SameAt(old(server.world.trashRows), server.world.trashRows, i)
      else server.world == old(server.world)
    ensures ok ==> ReconcileTrash(old(server.world), id) == Some(server.world)
    ensures server.calm ==> ok == ReconcileTrash(old(server.world), id).Some?
  {
    hide Inv, Exec, ReconcileTrash, SettledByBits;
    RunKeeps(server.fold, server.log);
    ghost var before := server.world;
    ok := server.Step(Process(EvReconcileTrash(id)));
    if ok {
      ReconcileTrashSettles(before, id);
    }
  }

  /** Settling trash rows neither helps nor hurts, and leaves the uploads alone. */
  ghost predicate KeepsReady(s: State, t: State) {
    (TrashReady(t) <==> TrashReady(s)) && (Settleable(t) <==> Settleable(s)) && t.uploads == s.uploads
  }

  lemma ServerInv(server: Server)
    requires server.Valid()
    ensures Inv(server.world)
  {
    hide Inv, Exec;
    RunKeeps(server.fold, server.log);
  }

  lemma ReadySame(s: State)
    ensures KeepsReady(s, s)
  {
    hide TrashReady, Settleable;
  }

  lemma ReadyLost(r: State, s: State, t: State)
    requires KeepsReady(r, s) && t == s.(storageUp := t.storageUp)
    ensures KeepsReady(r, t)
  {
    hide TrashReady, Settleable, UploadsReady;
    SameSettleable(s, t);
  }

  lemma ReadyOn(r: State, s: State, t: State, id: Id)
    requires KeepsReady(r, s) && Inv(s) && ReconcileTrash(s, id) == Some(t)
    ensures KeepsReady(r, t)
  {
    hide TrashReady, Settleable, Inv, ReconcileTrash;
    TrashKeepsReady(s, id);
    TrashKeepsSettleable(s, id);
    ReconciledWasTransitional(s, id);
    SettledRow(s, id);
  }

  lemma NotReady(r: State, s: State, id: Id)
    requires KeepsReady(r, s) && Inv(s) && s.phase.StartingTrash? && s.storageUp && Transitional(s.trashRows, id)
    requires ReconcileTrash(s, id).None?
    ensures !TrashReady(r)
  {
    hide TrashReady, Settleable, Inv, ReconcileTrash;
    if TrashReady(s) { ReadyTrashSettles(s, id); }
  }

  method StorageMayFail(server: Server)
    requires server.Valid() && !server.world.phase.Down?
    modifies server
    ensures server.Valid()
    ensures server.world == old(server.world).(storageUp := server.world.storageUp)
    ensures server.calm ==> server.world == old(server.world)
  {
    hide Exec;
    var lost: bool := *;
    if lost && !server.calm {
      var ok := server.Step(Process(EvStorageLost));
    }
  }

  /** One row of a batch; the storage may go away before it. */
  method SettleNext(server: Server, id: Id, ghost start: State, ghost listed: State) returns (ok: bool)
    requires server.Valid() && server.world.phase.StartingTrash? && Progress(start, server.world) && KeepsReady(listed, server.world)
    requires id in PendingTrash(server.world.trashRows)
    modifies server
    ensures server.Valid() && server.world.phase.StartingTrash? && Progress(start, server.world) && KeepsReady(listed, server.world)
    ensures PendingTrash(server.world.trashRows) == PendingTrash(old(server.world.trashRows)) - if ok then {id} else {}
    ensures server.calm ==> server.world.storageUp == old(server.world.storageUp)
    ensures server.calm && server.world.storageUp && TrashReady(listed) ==> ok
  {
    hide TrashReady, Settleable, KeepsReady, Inv, Server.Valid, Exec, SettledByBits, Progress, PendingTrash, ReconcileTrash;
    ghost var earlier := server.world;
    StorageMayFail(server);
    ghost var before := server.world;
    ProgressLost(start, earlier, before);
    ReadyLost(listed, earlier, before);
    PendingIsTransitional(before.trashRows, id);
    ServerInv(server);
    ok := ReconcileTrashEntry(server, id);
    if ok {
      SettledRow(before, id);
      ReadyOn(listed, before, server.world, id);
      ProgressStep(start, before, server.world, id);
    } else if before.storageUp && ReconcileTrash(before, id).None? {
      NotReady(listed, before, id);
    }
  }

  /** With the first `i` rows done, the next one is not, and then the first `i + 1` are. */
  lemma NotYetDone(ids: seq<Id>, i: nat, done: set<Id>)
    requires i < |ids| && Distinct(ids) && forall id :: id in done <==> id in ids[..i]
    ensures ids[i] !in done && forall id :: id in done + {ids[i]} <==> id in ids[..i + 1]
  {
    assert ids[..i + 1] == ids[..i] + [ids[i]];
  }

  /** The rows of one listed batch, in order, up to the first that fails. */
  method ReconcileBatch(server: Server, ids: seq<Id>, ghost start: State) returns (ok: bool, settled: nat)
    requires server.Valid() && server.world.phase.StartingTrash? && Progress(start, server.world)
    requires Distinct(ids) && forall i | 0 <= i < |ids| :: ids[i] in PendingTrash(server.world.trashRows)
    modifies server
    ensures server.Valid() && server.world.phase.StartingTrash? && Progress(start, server.world)
    ensures settled <= |ids| && (ok ==> settled == |ids|)
    ensures settled == |PendingTrash(old(server.world.trashRows))| - |PendingTrash(server.world.trashRows)|
    ensures ok ==> forall id :: id in PendingTrash(server.world.trashRows) ==> id in PendingTrash(old(server.world.trashRows)) && id !in ids
    ensures KeepsReady(old(server.world), server.world)
    ensures server.calm ==> server.world.storageUp == old(server.world.storageUp)
    ensures server.calm && server.world.storageUp && TrashReady(old(server.world)) ==> ok
  {
    hide Distinct, TrashReady, Settleable, KeepsReady, Inv, Server.Valid, Exec, SettledByBits, Progress, PendingTrash, ReconcileTrash;
    settled := 0;
    ghost var pending := PendingTrash(server.world.trashRows);
    ghost var done: set<Id> := {};
    ReadySame(server.world);
    for i := 0 to |ids|
      invariant server.Valid() && server.world.phase.StartingTrash? && Progress(start, server.world)
      invariant settled == i == |pending| - |PendingTrash(server.world.trashRows)|
      invariant PendingTrash(server.world.trashRows) == pending - done
      invariant forall id :: id in done <==> id in ids[..i]
      invariant KeepsReady(old(server.world), server.world)
      invariant server.calm ==> server.world.storageUp == old(server.world.storageUp)
    {
      NotYetDone(ids, i, done);
      ok := SettleNext(server, ids[i], start, old(server.world));
      if !ok { return false, settled; }
      done := done + {ids[i]};
      settled := settled + 1;
    }
    ok := true;
  }

  /** Counts the rows it settled; success means that no transitional row is left.
      `updatedAt` is the column that the listing goes by. */
  method ReconcileAllTrash(server: Server, updatedAt: Id -> int) returns (ok: bool, reconciled: nat)
    requires server.Valid() && server.world.phase.StartingTrash?
    modifies server
    ensures server.Valid() && server.world.phase.StartingTrash? && Progress(old(server.world), server.world)
    ensures reconciled <= MAXIMUM
    ensures reconciled == |PendingTrash(old(server.world.trashRows))| - |PendingTrash(server.world.trashRows)|
    ensures ok ==> NoTransitionalTrash(server.world)
    ensures KeepsReady(old(server.world), server.world)
    ensures server.calm ==> server.world.storageUp == old(server.world.storageUp)
    ensures server.calm && server.world.storageUp ==>
      (ok <==> TrashReady(old(server.world)) && |PendingTrash(old(server.world.trashRows))| <= 1000)
  {
    hide Inv, Server.Valid, Exec, SettledByBits, NoTransitionalTrash, Progress, PendingTrash, TrashReady, Settleable, KeepsReady;
    StartProgress(server.world);
    ReadySame(server.world);
    reconciled := 0;
    while reconciled < MAXIMUM
      invariant server.Valid() && server.world.phase.StartingTrash? && Progress(old(server.world), server.world)
      invariant reconciled <= MAXIMUM
      invariant reconciled == |PendingTrash(old(server.world.trashRows))| - |PendingTrash(server.world.trashRows)|
      invariant KeepsReady(old(server.world), server.world)
      invariant server.calm ==> server.world.storageUp == old(server.world.storageUp)
      decreases MAXIMUM - reconciled
    {
      var limit := if BATCH < MAXIMUM - reconciled then BATCH else MAXIMUM - reconciled;
      var fault: bool := *;
      if fault && !server.calm { return false, reconciled; }
      ghost var before := server.world;
      var ids := Take(PendingTrash(server.world.trashRows), updatedAt, limit);
      var settled: nat;
      ok, settled := ReconcileBatch(server, ids, old(server.world));
      reconciled := reconciled + settled;
      ReadyChain(old(server.world), before, server.world);
      if !ok { return false, reconciled; }
      if |ids| < limit {
        NonePending(server.world);
        NoneLeftReady(old(server.world), server.world);
        return true, reconciled;
      }
    }
    var fault: bool := *;
    var remaining := Take(PendingTrash(server.world.trashRows), updatedAt, 1);
    ok := !(fault && !server.calm) && remaining == [];
    if remaining == [] {
      NonePending(server.world);
      NoneLeftReady(old(server.world), server.world);
    } else {
      assert remaining[0] in PendingTrash(server.world.trashRows);
    }
  }

  lemma ReadyChain(r: State, s: State, t: State)
    requires KeepsReady(r, s) && KeepsReady(s, t)
    ensures KeepsReady(r, t) && (TrashReady(r) <==> TrashReady(s))
  {
    hide TrashReady, Settleable;
  }

  lemma NoneLeftReady(r: State, s: State)
    requires KeepsReady(r, s) && NoTransitionalTrash(s)
    ensures TrashReady(r)
  {
    hide TrashReady, Settleable, NoTransitionalTrash;
    NothingLeft(s);
  }

  /****** finalizing uploads ******/

  /** The next listed upload under its exclusive lock. An ambiguous state, or a completion
      that is refused, marks the index and stops the process. */
  method ReconcileUploadEntry(server: Server, u: Id) returns (ok: bool)
    requires server.Valid() && server.world.phase.StartingUploads? && ListedFirst(server.world.uploads, u)
    modifies server
    ensures server.Valid() && Inv(server.world)
    ensures if ok then
        && server.world.files == old(server.world.files) && server.world.trash == old(server.world.trash)
        && server.world.parts == old(server.world.parts)
        && server.world.trashRows == old(server.world.trashRows) && server.world.phase == old(server.world.phase)
        && UploadSettledByBits(old(server.world), server.world.uploads, u)
        && forall i | i != u :: SameAt(old(server.world.uploads), server.world.uploads, i)
      else
        server.world == old(server.world)
        || server.world == Crash(old(server.world).(health := Mark(old(server.world.health), UploadOf(u))))
    ensures ok ==> ReconcileUpload(old(server.world), u) == Some(server.world)
    ensures server.calm ==> ok == ReconcileUpload(old(server.world), u).Some?
    ensures server.calm && !ok ==>
      server.world == if Undecided(old(server.world), u) then Crash(old(server.world).(health := Mark(old(server.world.health), UploadOf(u))))
                      else old(server.world)
  {
    hide Inv, Exec, ReconcileUpload, UploadSettledByBits, Apply, ListedBefore, ThroughFile;
    RunKeeps(server.fold, server.log);
    ghost var before := server.world;
    assert Apply(before, Process(EvReconcileUpload(u))) == ReconcileUpload(before, u) by { ReconcileUploadApplies(before, u); }
    ok := server.Step(Process(EvReconcileUpload(u)));
    if ok {
      ReconcileUploadSettles(before, u);
    } else {
      var early: bool := *; // the row, the state or the checksum could not be read
      if Undecided(server.world, u) && (server.calm || !early) {
        ReconcileUploadApplies(before, u);
        server.Record(Process(EvReconcileUploadFails(u)));
      }
    }
  }

  /** The states can be read, and they are not those of an upload that was only prepared. */
  predicate Undecided(s: State, u: Id)
    requires u in s.uploads
  {
    var target := s.uploads[u].target;
    s.storageUp && !ThroughFile(s.files, target) && (target in s.files ==> s.files[target].File?) && !(u in s.parts && target !in s.files)
  }

  lemma ReconcileUploadApplies(s: State, u: Id)
    ensures Apply(s, Process(EvReconcileUpload(u))) == ReconcileUpload(s, u)
    ensures s.phase.StartingUploads? && ListedFirst(s.uploads, u) ==>
      Apply(s, Process(EvReconcileUploadFails(u))) == Some(Crash(s.(health := Mark(s.health, UploadOf(u)))))
  {
    hide ReconcileUpload;
  }

  lemma StampKept(start: State, s: State, u: Id)
    requires UploadProgress(start, s) && u in PendingUploads(s.uploads)
    ensures u in start.uploads && s.uploads[u] == start.uploads[u]
  {
    assert SameAt(start.uploads, s.uploads, u) || UploadSettledByBits(start, s.uploads, u);
  }

  /** What is left of a listing is a listing of what is left. */
  lemma NextListed(start: State, listed: State, s: State, ids: seq<Id>, i: nat, done: set<Id>)
    requires UploadProgress(start, listed) && UploadProgress(start, s) && i < |ids| && Distinct(ids)
    requires IsListing(ids, PendingUploads(listed.uploads), StampIn(listed.uploads))
    requires PendingUploads(s.uploads) == PendingUploads(listed.uploads) - done
    requires forall u :: u in done <==> u in ids[..i]
    ensures ListedFirst(s.uploads, ids[i])
  {
    hide UploadProgress, ListedBefore;
    var u := ids[i];
    forall j | 0 <= j < i ensures ids[j] in done {
      assert ids[..i][j] == ids[j];
    }
    assert u !in done;
    StampKept(start, s, u);
    StampKept(start, listed, u);
    forall v | v in s.uploads && s.uploads[v].status == Finalizing && v != u
      ensures ListedBefore(s.uploads[u].stamp, u, s.uploads[v].stamp, v)
    {
      StampKept(start, s, v);
      StampKept(start, listed, v);
      if v in ids {
        var j :| 0 <= j < |ids| && ids[j] == v;
      }
    }
  }

  /** Settling uploads neither helps nor hurts, and leaves the trash rows alone. */
  ghost predicate KeepsUploads(s: State, t: State) {
    (UploadsReady(t) <==> UploadsReady(s)) && (Settleable(t) <==> Settleable(s))
  }

  lemma UploadsSame(s: State)
    ensures KeepsUploads(s, s)
  {
    hide UploadsReady, Settleable;
  }

  lemma UploadsLost(r: State, s: State, t: State)
    requires KeepsUploads(r, s) && t == s.(storageUp := t.storageUp)
    ensures KeepsUploads(r, t)
  {
    hide TrashReady, Settleable, UploadsReady;
    SameSettleable(s, t);
  }

  lemma UploadsOn(r: State, s: State, t: State, u: Id)
    requires KeepsUploads(r, s) && Inv(s) && ReconcileUpload(s, u) == Some(t)
    ensures KeepsUploads(r, t) && t.storageUp == s.storageUp
  {
    hide UploadsReady, Settleable, Inv, ReconcileUpload;
    UploadKeepsReady(s, u);
    UploadKeepsSettleable(s, u);
    UploadFrame(s, u);
  }

  lemma UploadNotReady(r: State, s: State, u: Id)
    requires KeepsUploads(r, s) && Inv(s) && s.phase.StartingUploads? && s.storageUp && ListedFirst(s.uploads, u)
    requires ReconcileUpload(s, u).None?
    ensures !UploadsReady(r)
  {
    hide UploadsReady, Settleable, Inv, ReconcileUpload, ListedFirst;
    if UploadsReady(s) { ReadyUploadSettles(s, u); }
  }

  lemma UploadsChain(r: State, s: State, t: State)
    requires KeepsUploads(r, s) && KeepsUploads(s, t)
    ensures KeepsUploads(r, t) && (UploadsReady(r) <==> UploadsReady(s))
  {
    hide UploadsReady, Settleable;
  }

  lemma NoneFinalizingReady(r: State, s: State)
    requires KeepsUploads(r, s) && NoFinalizing(s)
    ensures UploadsReady(r)
  {
    hide UploadsReady, Settleable, NoFinalizing;
    NothingFinalizing(s);
  }

  lemma FirstIsFinalizing(uploads: map<Id, UploadRow>, u: Id)
    requires ListedFirst(uploads, u)
    ensures IsFinalizing(uploads, u)
  {
    hide ListedBefore;
  }

  lemma UploadsStopped(start: State, s: State, t: State, u: Id)
    requires UploadProgress(start, s) && s.phase.StartingUploads?
    requires t == s || t == Crash(s.(health := Mark(s.health, UploadOf(u))))
    ensures UploadProgress(start, t) && t.uploads == s.uploads
    ensures t == s || (t.phase.Down? && t.health.Unhealthy?)
  {
    hide UploadProgress;
    UploadProgressKept(start, s, t);
  }

  /** One upload of a batch; the storage may go away before it. */
  method FinishNext(server: Server, u: Id, ghost start: State, ghost listed: State) returns (ok: bool)
    requires server.Valid() && server.world.phase.StartingUploads? && UploadProgress(start, server.world) && KeepsUploads(listed, server.world)
    requires ListedFirst(server.world.uploads, u)
    modifies server
    ensures server.Valid() && UploadProgress(start, server.world)
    ensures server.world.phase.StartingUploads? || (!ok && server.world.phase.Down? && server.world.health.Unhealthy?)
    ensures PendingUploads(server.world.uploads) == PendingUploads(old(server.world.uploads)) - if ok then {u} else {}
    ensures ok ==> KeepsUploads(listed, server.world)
    ensures server.calm && server.world.phase.StartingUploads? ==> server.world.storageUp == old(server.world.storageUp)
    ensures server.calm && old(server.world.storageUp) && UploadsReady(listed) ==> ok
  {
    hide Crash, Mark, ListedBefore, ListedFirst, Inv, Server.Valid, Exec, UploadSettledByBits, UploadProgress, PendingUploads,
         KeepsUploads, UploadsReady, Settleable, ReconcileUpload;
    ghost var earlier := server.world;
    StorageMayFail(server);
    ghost var before := server.world;
    UploadProgressKept(start, earlier, before);
    UploadsLost(listed, earlier, before);
    FirstIsFinalizing(before.uploads, u);
    ServerInv(server);
    ok := ReconcileUploadEntry(server, u);
    if ok {
      UploadsOn(listed, before, server.world, u);
      UploadProgressStep(start, before, server.world, u);
    } else {
      UploadsStopped(start, before, server.world, u);
      if before.storageUp && ReconcileUpload(before, u).None? { UploadNotReady(listed, before, u); }
    }
  }

  method ReconcileUploadBatch(server: Server, ids: seq<Id>, ghost start: State) returns (ok: bool, settled: nat)
    requires server.Valid() && server.world.phase.StartingUploads? && UploadProgress(start, server.world)
    requires Distinct(ids) && forall i | 0 <= i < |ids| :: ids[i] in PendingUploads(server.world.uploads)
    requires IsListing(ids, PendingUploads(server.world.uploads), StampIn(server.world.uploads))
    modifies server
    ensures server.Valid() && UploadProgress(start, server.world)
    ensures server.world.phase.StartingUploads? || (!ok && server.world.phase.Down? && server.world.health.Unhealthy?)
    ensures settled <= |ids| && (ok ==> settled == |ids|)
    ensures settled == |PendingUploads(old(server.world.uploads))| - |PendingUploads(server.world.uploads)|
    ensures ok ==>
      forall u :: u in PendingUploads(server.world.uploads) ==> u in PendingUploads(old(server.world.uploads)) && u !in ids
    ensures ok ==> KeepsUploads(old(server.world), server.world)
    ensures server.calm && server.world.phase.StartingUploads? ==> server.world.storageUp == old(server.world.storageUp)
    ensures server.calm && old(server.world.storageUp) && UploadsReady(old(server.world)) ==> ok
  {
    hide IsListing, ListedBefore, ListedFirst, StampIn, Inv, Server.Valid, Exec, UploadSettledByBits, UploadProgress, PendingUploads,
         KeepsUploads, UploadsReady, Settleable, ReconcileUpload;
    settled := 0;
    ghost var pending, listed := PendingUploads(server.world.uploads), server.world;
    ghost var done: set<Id> := {};
    UploadsSame(server.world);
    for i := 0 to |ids|
      invariant server.Valid() && server.world.phase.StartingUploads? && UploadProgress(start, server.world)
      invariant settled == i == |pending| - |PendingUploads(server.world.uploads)|
      invariant PendingUploads(server.world.uploads) == pending - done
      invariant forall u :: u in done <==> u in ids[..i]
      invariant KeepsUploads(listed, server.world) && (server.calm ==> server.world.storageUp == listed.storageUp)
    {
      NextListed(start, listed, server.world, ids, i, done);
      ok := FinishNext(server, ids[i], start, listed);
      if !ok { return false, settled; }
      done := done + {ids[i]};
      settled := settled + 1;
    }
    ok := true;
  }

  method ReconcileAllFinalizing(server: Server) returns (ok: bool, reconciled: nat)
    requires server.Valid() && server.world.phase.StartingUploads?
    modifies server
    ensures server.Valid() && UploadProgress(old(server.world), server.world)
    ensures server.world.phase.StartingUploads? || (!ok && server.world.phase.Down? && server.world.health.Unhealthy?)
    ensures reconciled <= MAXIMUM
    ensures reconciled == |PendingUploads(old(server.world.uploads))| - |PendingUploads(server.world.uploads)|
    ensures ok ==> NoFinalizing(server.world) && KeepsUploads(old(server.world), server.world)
    ensures server.calm && server.world.phase.StartingUploads? ==> server.world.storageUp == old(server.world.storageUp)
    ensures server.calm && old(server.world.storageUp) ==>
      (ok <==> UploadsReady(old(server.world)) && |PendingUploads(old(server.world.uploads))| <= 1000)
  {
    hide Inv, Server.Valid, Exec, UploadSettledByBits, NoFinalizing, UploadProgress, PendingUploads, KeepsUploads, UploadsReady, Settleable;
    StartUploadProgress(server.world);
    UploadsSame(server.world);
    reconciled := 0;
    while reconciled < MAXIMUM
      invariant server.Valid() && server.world.phase.StartingUploads? && UploadProgress(old(server.world), server.world)
      invariant reconciled <= MAXIMUM
      invariant reconciled == |PendingUploads(old(server.world.uploads))| - |PendingUploads(server.world.uploads)|
      invariant KeepsUploads(old(server.world), server.world)
      invariant server.calm ==> server.world.storageUp == old(server.world.storageUp)
      decreases MAXIMUM - reconciled
    {
      var limit := if BATCH < MAXIMUM - reconciled then BATCH else MAXIMUM - reconciled;
      var fault: bool := *;
      if fault && !server.calm { return false, reconciled; }
      ghost var before := server.world;
      var ids := Take(PendingUploads(server.world.uploads), StampIn(server.world.uploads), limit);
      var settled: nat;
      ok, settled := ReconcileUploadBatch(server, ids, old(server.world));
      reconciled := reconciled + settled;
      if !ok {
        UploadsAgree(old(server.world), before);
        return false, reconciled;
      }
      UploadsChain(old(server.world), before, server.world);
      if |ids| < limit {
        NonePendingUploads(server.world);
        NoneFinalizingReady(old(server.world), server.world);
        return true, reconciled;
      }
    }
    var fault: bool := *;
    var remaining := Take(PendingUploads(server.world.uploads), StampIn(server.world.uploads), 1);
    ok := !(fault && !server.calm) && remaining == [];
    if remaining == [] {
      NonePendingUploads(server.world);
      NoneFinalizingReady(old(server.world), server.world);
    } else {
      assert remaining[0] in PendingUploads(server.world.uploads);
    }
  }

  lemma UploadsAgree(r: State, s: State)
    requires KeepsUploads(r, s)
    ensures UploadsReady(r) <==> UploadsReady(s)
  {
    hide UploadsReady, Settleable;
  }

  /****** the gate ******/

  datatype Gate = Open | Shut | Stop

  /** The process exits. */
  method Exit(server: Server)
    requires server.Valid()
    modifies server
    ensures server.Valid() && server.world == Crash(old(server.world))
  {
    hide Exec;
    server.Record(Process(EvCrash));
  }

  /** Starts to serve, with or without metadata. */
  method ServeWith(server: Server, gate: bool)
    requires server.Valid() && Serve(server.world, gate).Some?
    modifies server
    ensures server.Valid() && Inv(server.world)
    ensures server.world == old(server.world).(phase := Serving(gate))
    ensures gate ==> Protocol.Settled(server.world)
  {
    hide Exec, Inv, ReconcileTrash, ReconcileUpload, Reindex, NoTransitionalTrash, NoFinalizing;
    RunKeeps(server.fold, server.log);
    UploadsFollowTrash(server.world);
    ghost var before := server.world;
    server.Record(Process(EvServe(gate)));
    SameTables(before, server.world);
  }

  method Begin(server: Server, up: bool)
    requires server.Valid() && server.world.phase.Down?
    modifies server
    ensures server.Valid() && server.world == old(server.world).(phase := StartingTrash, storageUp := up)
  {
    hide Exec, Inv;
    server.Record(Process(EvStart(up)));
  }

  method TurnToUploads(server: Server)
    requires server.Valid() && TrashReconciled(server.world).Some?
    modifies server
    ensures server.Valid() && server.world == old(server.world).(phase := StartingUploads)
  {
    hide Exec, Inv, NoTransitionalTrash;
    server.Record(Process(EvTrashReconciled));
  }

  /** An error stops the process, unless it says that the storage went away. */
  method GiveUpStartup(server: Server) returns (r: Gate)
    requires server.Valid() && (server.world.phase.StartingTrash? || server.world.phase.StartingUploads?)
    modifies server
    ensures server.Valid()
    ensures if r == Shut then server.world.phase == Serving(false) && !old(server.world.storageUp) else r == Stop && server.world.phase.Down?
  {
    hide Exec, Server.Valid;
    var unavailable: bool := *;
    if unavailable && !server.world.storageUp {
      ServeWith(server, false);
      return Shut;
    }
    Exit(server);
    return Stop;
  }

  /** Without storage nothing can be settled: metadata is served only if nothing is pending. */
  method GateWithoutStorage(server: Server) returns (r: Gate)
    requires server.Valid() && server.world.phase.StartingTrash? && !server.world.storageUp
    modifies server
    ensures server.Valid()
    ensures r == if !NoTransitionalTrash(old(server.world)) || !NoFinalizing(old(server.world)) then Shut
                 else if old(server.world.health).Healthy? then Open else Stop
    ensures r == Stop ==> server.world.phase.Down?
    ensures r != Stop ==> server.world == old(server.world).(phase := Serving(r == Open))
    ensures r == Open ==> Protocol.Settled(server.world) && IndexIsContent(server.world)
  {
    hide Inv, Server.Valid, Exec, IndexIsContent, NoTransitionalTrash, NoFinalizing, Apply, Protocol.Settled;
    if !NoTransitionalTrash(server.world) || !NoFinalizing(server.world) {
      ServeWith(server, false);
      return Shut;
    }
    if server.world.health.Unhealthy? {
      Exit(server);
      return Stop;
    }
    ServeWith(server, true);
    SettledAgrees(server.world);
    return Open;
  }

  /** The second loop and the last checks. */
  method GateAfterTrash(server: Server) returns (r: Gate)
    requires server.Valid() && server.world.phase.StartingUploads?
    modifies server
    ensures server.Valid()
    ensures r == Open ==>
      && server.world.phase == Serving(true) && Protocol.Settled(server.world) && IndexIsContent(server.world)
      && UploadProgress(old(server.world), server.world)
    ensures r == Shut ==> server.world.phase == Serving(false)
    ensures r == Stop ==> server.world.phase.Down?
    ensures server.calm && old(server.world.storageUp) ==>
      r == if Settleable(old(server.world)) && |PendingUploads(old(server.world.uploads))| <= 1000 then Open else Stop
  {
    hide Inv, Server.Valid, Exec, UploadProgress, IndexIsContent, NoTransitionalTrash, NoFinalizing, PendingUploads,
         Apply, Protocol.Settled, Settleable, UploadsReady, KeepsUploads;
    ServerInv(server);
    UploadsFollowTrash(server.world);
    ghost var before := server.world;
    if Settleable(before) { SettleableUploads(before); }
    var ok, n := ReconcileAllFinalizing(server);
    if server.world.phase.Down? { return Stop; }
    if !ok {
      r := GiveUpStartup(server);
      return;
    }
    GateDecides(before, server);
    if !server.world.storageUp {
      ServeWith(server, false);
      return Shut;
    }
    if server.world.health.Unhealthy? {
      Exit(server);
      return Stop;
    }
    ghost var after := server.world;
    ServeWith(server, true);
    SettledAgrees(server.world);
    UploadProgressKept(before, after, server.world);
    return Open;
  }

  lemma GateDecides(before: State, server: Server)
    requires server.Valid() && server.world.phase.StartingUploads? && NoFinalizing(server.world) && KeepsUploads(before, server.world)
    ensures Settleable(before) <==> server.world.health.Healthy?
  {
    hide Settleable, UploadsReady, Inv, Server.Valid, NoTransitionalTrash, NoFinalizing;
    ServerInv(server);
    UploadsFollowTrash(server.world);
    SettledIsHealthy(server.world);
  }

  /** Both loops and the checks after them. */
  method GateWithStorage(server: Server, updatedAt: Id -> int) returns (r: Gate)
    requires server.Valid() && server.world.phase.StartingTrash? && server.world.storageUp
    modifies server
    ensures server.Valid()
    ensures r == Open ==>
      && server.world.phase == Serving(true) && Protocol.Settled(server.world) && IndexIsContent(server.world)
      && AllSettled(old(server.world), server.world)
    ensures r == Shut ==> server.world.phase == Serving(false)
    ensures r == Stop ==> server.world.phase.Down?
    ensures server.calm ==> r == if SettledByOneStart(old(server.world)) then Open else Stop
  {
    hide Inv, Server.Valid, Exec, Progress, UploadProgress, IndexIsContent, NoTransitionalTrash, NoFinalizing, PendingTrash, PendingUploads,
         Apply, Protocol.Settled, Settleable, UploadsReady, TrashReady, AllSettled, KeepsReady, SettledByOneStart;
    ghost var begun := server.world;
    OneStart(begun);
    var ok, n := ReconcileAllTrash(server, updatedAt);
    if !ok {
      r := GiveUpStartup(server);
      return;
    }
    ghost var settled := server.world;
    ReadyMeans(begun, settled);
    if !server.world.storageUp {
      ServeWith(server, false);
      return Shut;
    }
    TurnToUploads(server);
    ghost var turned := server.world;
    SameSettleable(settled, turned);
    r := GateAfterTrash(server);
    if r == Open { BothSettled(begun, settled, turned, server.world); }
  }

  /** Everything can be settled, and there is no more of either kind than one start takes on. */
  ghost predicate SettledByOneStart(s: State) {
    Settleable(s) && |PendingTrash(s.trashRows)| <= 1000 && |PendingUploads(s.uploads)| <= 1000
  }

  lemma OneStart(s: State)
    ensures SettledByOneStart(s) <==> Settleable(s) && |PendingTrash(s.trashRows)| <= 1000 && |PendingUploads(s.uploads)| <= 1000
    ensures SettledByOneStart(s) ==> TrashReady(s)
  {
    hide TrashReady, PartOrTarget, PendingTrash, PendingUploads;
  }

  /** reconcileAvailableStorage. Without faults and with storage it opens the gate exactly
      when one start settles everything and then finds the flag clear; without storage,
      exactly when nothing is pending and the flag is clear. */
  method OpenGate(server: Server, up: bool, updatedAt: Id -> int) returns (r: Gate)
    requires server.Valid() && server.world.phase.Down?
    modifies server
    ensures server.Valid()
    ensures r == Open ==>
      && server.world.phase == Serving(true) && Protocol.Settled(server.world) && IndexIsContent(server.world)
      && AllSettled(old(server.world), server.world)
    ensures r == Shut ==> server.world.phase == Serving(false)
    ensures r == Stop ==> server.world.phase.Down?
    ensures server.calm && up ==> r == if SettledByOneStart(old(server.world)) then Open else Stop
    ensures server.calm && !up ==>
      r == if !NoTransitionalTrash(old(server.world)) || !NoFinalizing(old(server.world)) then Shut
           else if old(server.world.health).Healthy? then Open else Stop
  {
    hide Inv, Server.Valid, Exec, IndexIsContent, NoTransitionalTrash, NoFinalizing, Apply, Protocol.Settled, AllSettled, SettledByOneStart;
    ghost var first := server.world;
    Begin(server, up);
    StorageMayFail(server);
    ghost var begun := server.world;
    SameStart(first, begun);
    if server.world.storageUp {
      r := GateWithStorage(server, updatedAt);
      if r == Open { SameSettled(first, begun, server.world); }
    } else {
      r := GateWithoutStorage(server);
      if r == Open { NothingToSettle(first, server.world); }
    }
  }

  lemma SameStart(s: State, t: State)
    requires t == s.(phase := t.phase, storageUp := t.storageUp)
    ensures (SettledByOneStart(t) <==> SettledByOneStart(s)) && (NoTransitionalTrash(t) <==> NoTransitionalTrash(s))
    ensures (NoFinalizing(t) <==> NoFinalizing(s))
  {
    hide Settleable, PendingTrash, PendingUploads;
    SameSettleable(s, t);
  }

  /** Every pending row of both kinds is settled by its bits, and no content has changed. */
  ghost predicate AllSettled(s: State, t: State) {
    && (forall id | Transitional(s.trashRows, id) :: SettledByBits(s, t.trashRows, id))
    && (forall u | IsFinalizing(s.uploads, u) :: UploadSettledByBits(s, t.uploads, u))
    && t.files == s.files && t.trash == s.trash && t.parts == s.parts
  }

  lemma ReadyMeans(r: State, s: State)
    requires KeepsReady(r, s)
    ensures (Settleable(s) <==> Settleable(r)) && s.uploads == r.uploads
  {
    hide TrashReady, Settleable;
  }

  lemma NothingToSettle(s: State, t: State)
    requires NoTransitionalTrash(s) && NoFinalizing(s) && t.files == s.files && t.trash == s.trash && t.parts == s.parts
    ensures AllSettled(s, t)
  {
    hide SettledByBits, UploadSettledByBits;
  }

  lemma BothSettled(begun: State, settled: State, turned: State, last: State)
    requires Progress(begun, settled) && turned == settled.(phase := turned.phase) && settled.uploads == begun.uploads
    requires NoTransitionalTrash(settled) && UploadProgress(turned, last) && Protocol.Settled(last)
    ensures AllSettled(begun, last)
  {
    hide SettledByBits, UploadSettledByBits;
    forall id | Transitional(begun.trashRows, id) ensures SettledByBits(begun, last.trashRows, id) {
      assert SameAt(begun.trashRows, settled.trashRows, id) || SettledByBits(begun, settled.trashRows, id);
    }
    forall u | IsFinalizing(begun.uploads, u) ensures UploadSettledByBits(begun, last.uploads, u) {
      assert SameAt(turned.uploads, last.uploads, u) || UploadSettledByBits(turned, last.uploads, u);
      SameUploadBits(begun, turned, last.uploads, u);
    }
  }

  lemma SameSettled(first: State, begun: State, last: State)
    requires begun == first.(phase := begun.phase, storageUp := begun.storageUp) && AllSettled(begun, last)
    ensures AllSettled(first, last)
  {
    hide SettledByBits, UploadSettledByBits;
    forall id | Transitional(first.trashRows, id) ensures SettledByBits(first, last.trashRows, id) {
      SameBits(first, begun, last.trashRows, id);
    }
    forall u | IsFinalizing(first.uploads, u) ensures UploadSettledByBits(first, last.uploads, u) {
      SameUploadBits(first, begun, last.uploads, u);
    }
  }

  lemma SameBits(s: State, t: State, rows: map<Id, TrashRow>, id: Id)
    requires t.trash == s.trash && t.files == s.files && t.trashRows == s.trashRows && id in s.trashRows
    ensures SettledByBits(s, rows, id) <==> SettledByBits(t, rows, id)
  {
  }

  lemma SameUploadBits(s: State, t: State, uploads: map<Id, UploadRow>, u: Id)
    requires t.parts == s.parts && t.files == s.files && t.uploads == s.uploads && u in s.uploads
    ensures UploadSettledByBits(s, uploads, u) <==> UploadSettledByBits(t, uploads, u)
  {
  }
}
