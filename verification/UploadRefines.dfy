/** The upload machine refines the protocol: the loop over the stored rows decides its
    Verify step, and every run of the machine is a run of the protocol on one upload, so
    that the file which the protocol publishes is the concatenation of the accepted
    chunks. */
module UploadRefines {
  import opened Paths
  import opened World
  import opened Chunks
  import opened UploadMachine
  import opened Runs

  /****** the rows of upload_chunks ******/

  function RowFor(u: Upload, m: Machine, i: nat): Chunk
    requires WellFormed(u) && i < u.totalChunks as int && i in m.chunks
  {
    BoundsExist(u, i as int64);
    Chunk(u.id, i as int64, ChunkBounds(u, i as int64).value.0, ChunkBounds(u, i as int64).value.1, m.chunks[i])
  }

  /** SELECT … ORDER BY chunk_index: the recorded chunks, each once, by index. */
  ghost predicate Stored(u: Upload, m: Machine, rows: seq<Chunk>)
    requires WellFormed(u)
  {
    && (forall i | i in m.chunks :: i < u.totalChunks as int && |m.chunks[i]| == 32)
    && (forall k | 0 <= k < |rows| ::
          var i := rows[k].index as int; 0 <= i < u.totalChunks as int && i in m.chunks && rows[k] == RowFor(u, m, i))
    && (forall j, k | 0 <= j < k < |rows| :: rows[j].index < rows[k].index)
    && (forall i | i in m.chunks :: exists k :: 0 <= k < |rows| && rows[k].index as int == i)
  }

  lemma {:induction false} IndexAtLeast(u: Upload, m: Machine, rows: seq<Chunk>, k: nat)
    requires WellFormed(u) && Stored(u, m, rows) && k < |rows|
    ensures rows[k].index as int >= k
  {
    if k > 0 { IndexAtLeast(u, m, rows, k - 1); }
  }

  lemma {:induction false} IndexIs(u: Upload, m: Machine, rows: seq<Chunk>, k: nat)
    requires WellFormed(u) && Stored(u, m, rows) && Complete(u, m) && k < u.totalChunks as int
    ensures k < |rows| && rows[k].index as int == k
    decreases k
  {
    hide RowFor;
    assert k in m.chunks;
    var j :| 0 <= j < |rows| && rows[j].index as int == k;
    if j < k {
      IndexIs(u, m, rows, j);
    } else {
      IndexAtLeast(u, m, rows, k);
    }
  }

  lemma IndexBelow(u: Upload, m: Machine, rows: seq<Chunk>, k: nat)
    requires WellFormed(u) && Stored(u, m, rows) && k < |rows|
    ensures rows[k].index as int < u.totalChunks as int && rows[k].index >= 0
  {
  }

  /** The stored rows are the tiling exactly when every chunk is recorded. */
  lemma TilingIsComplete(u: Upload, m: Machine, rows: seq<Chunk>)
    requires WellFormed(u) && Stored(u, m, rows)
    ensures IsTiling(u, rows) <==> Complete(u, m)
  {
    hide ChunkBounds, WellFormed;
    Counted(u);
    if Complete(u, m) {
      forall k: nat | k < u.totalChunks as int ensures k < |rows| && RowAt(u, rows[k], k as int64) {
        IndexIs(u, m, rows, k);
        BoundsExist(u, k as int64);
        assert rows[k] == RowFor(u, m, k);
      }
      if |rows| > u.totalChunks as int {
        IndexAtLeast(u, m, rows, u.totalChunks as int);
        IndexBelow(u, m, rows, u.totalChunks as int);
      }
      if u.totalChunks > 0 { IndexIs(u, m, rows, u.totalChunks as int - 1); }
    }
    if IsTiling(u, rows) {
      forall i: nat | i < u.totalChunks as int ensures i in m.chunks {
        assert RowAt(u, rows[i], i as int64);
      }
    }
  }

  /** What VerifyPart accepts: its postcondition. */
  predicate LoopAccepts(u: Upload, rows: seq<Chunk>, part: Bytes, whole: Option<Hash>, H: Bytes -> Hash) {
    && IsTiling(u, rows) && (forall i | 0 <= i < |rows| :: SectionHashes(part, rows[i], H))
    && u.totalSize >= 0 && u.totalSize as int <= |part| && (whole.Some? ==> H(part[..u.totalSize as int]) == whole.value)
  }

  /** With the exclusive lock held, the loop accepts a part of the announced size exactly
      when the machine's Verify step is possible, and computes the same hash. */
  lemma VerifyIsLoop(u: Upload, H: Bytes -> Hash, m: Machine, rows: seq<Chunk>)
    requires WellFormed(u) && Stored(u, m, rows)
    requires m.holder.Locked? && (m.status == Pending || m.status == Finalizing) && m.part.Some? && |m.part.value| == u.totalSize as int
    ensures Next(u, H, m, Verify).Some? <==> LoopAccepts(u, rows, m.part.value, m.whole, H)
    ensures Next(u, H, m, Verify).Some? ==>
      Next(u, H, m, Verify).value == m.(holder := Verified(H(m.part.value[..u.totalSize as int])))
  {
    hide ChunkBounds, WellFormed, Stored, Complete, IsTiling, RegionsHash;
    TilingIsComplete(u, m, rows);
    assert m.part.value[..u.totalSize as int] == m.part.value;
    if Complete(u, m) { SectionsAreRegions(u, H, m, rows); }
  }

  lemma SectionsAreRegions(u: Upload, H: Bytes -> Hash, m: Machine, rows: seq<Chunk>)
    requires WellFormed(u) && Stored(u, m, rows) && Complete(u, m) && IsTiling(u, rows)
    requires m.part.Some? && |m.part.value| == u.totalSize as int
    ensures (forall i | 0 <= i < |rows| :: SectionHashes(m.part.value, rows[i], H)) <==> RegionsHash(u, m, H)
  {
    hide ChunkBounds, WellFormed, Complete, RegionsHash;
    forall i: nat | i < u.totalChunks as int
      ensures SectionHashes(m.part.value, rows[i], H) <==>
        Offset(u, i) + Size(u, i) <= |m.part.value| && H(m.part.value[Offset(u, i)..Offset(u, i) + Size(u, i)]) == m.chunks[i]
    {
      assert RowAt(u, rows[i], i as int64);
      BoundsExist(u, i as int64);
    }
    RegionsEach(u, H, m);
  }

  lemma RegionsEach(u: Upload, H: Bytes -> Hash, m: Machine)
    requires WellFormed(u) && m.part.Some? && |m.part.value| == u.totalSize as int && Complete(u, m)
    ensures RegionsHash(u, m, H) <==>
      forall i: nat | i < u.totalChunks as int ::
        Offset(u, i) + Size(u, i) <= |m.part.value| && H(m.part.value[Offset(u, i)..Offset(u, i) + Size(u, i)]) == m.chunks[i]
  {
    hide ChunkBounds, WellFormed, Offset, Size;
  }

  /****** what a finalizing upload keeps ******/

  /** A finalizing upload has the whole file, in its part or published; a completed one
      is published, and a retired one has no part. */
  ghost predicate FileKept(u: Upload, m: Machine, H: Bytes -> Hash)
    requires WellFormed(u)
  {
    && (m.status == Finalizing ==> m.published.Some? || (m.part.Some? && IsWhole(u, m, H, m.part.value)))
    && (m.status == Completed ==> m.published.Some?)
    && (m.status == Cancelled || m.status == Expired ==> m.part.None?)
  }

  /** A crash takes nothing from a part that is the whole file: every byte of it was
      synced before a row recorded its chunk. */
  lemma WholeSurvives(u: Upload, H: Bytes -> Hash, m: Machine, p: Option<Bytes>)
    requires WellFormed(u) && UploadMachine.Inv(u, m, H) && Next(u, H, m, UploadMachine.Crash(p)).Some?
    requires m.part.Some? && IsWhole(u, m, H, m.part.value)
    ensures p == m.part
  {
    hide WellFormed, ChunkBounds, Size, Offset, HasRegion, Concat, WritersOk, HolderOk, PublishedOk;
    CrashKeeps(u, H, m, p);
    var m' := Next(u, H, m, UploadMachine.Crash(p)).value;
    LastByteSurvives(u, H, m, p);
    assert Complete(u, m');
    VerifiedIsWhole(u, m', H);
  }

  lemma LastByteSurvives(u: Upload, H: Bytes -> Hash, m: Machine, p: Option<Bytes>)
    requires WellFormed(u) && RowsOk(u, m, H) && Survives(u, m, p)
    requires m.part.Some? && IsWhole(u, m, H, m.part.value)
    ensures p.Some? && |p.value| == u.totalSize as int
  {
    hide WellFormed, ChunkBounds, Size, Offset, Concat;
    Counted(u);
    if u.totalChunks > 0 {
      var last: nat := u.totalChunks as int - 1;
      assert last in m.accepted && last in m.chunks;
      RegionEnds(u, last);
    }
  }

  lemma FileKeptStep(u: Upload, H: Bytes -> Hash, m: Machine, e: Step)
    requires WellFormed(u) && UploadMachine.Inv(u, m, H) && FileKept(u, m, H) && Next(u, H, m, e).Some?
    ensures FileKept(u, Next(u, H, m, e).value, H)
  {
    hide WellFormed, ChunkBounds, IsWhole, RegionsHash, Complete, HasRegion, Size, Offset, Overwrite, RowsOk, PartOk, WriterOk;
    var m' := Next(u, H, m, e).value;
    if m'.status == Finalizing && m'.part.Some? && m.part.Some? {
      if e.Crash? && m.published.None? { WholeSurvives(u, H, m, e.part); }
      SameAccepted(u, m, m', H, m.part.value);
    }
  }

  /****** the protocol on one upload ******/

  /** A store that holds one upload, of the file that is to be at `target`. */
  datatype Setting = Setting(fold: char -> char, id: Id, target: Path, u: Upload)

  ghost predicate SettingOk(c: Setting) {
    WellFormed(c.u) && |c.target| == 1 && World.Accepted(c.target, c.fold)
  }

  function OneUpload(c: Setting, row: UploadRow, part: Option<Bytes>, published: Option<Bytes>, health: Health, op: Op): State {
    Empty(c.fold).(
      files := if published.Some? then map[c.target := File(c.id, published.value)] else map[],
      parts := if part.Some? then map[c.id := part.value] else map[],
      visible := if row.status == Completed then map[c.target := FileMeta(row.total)] else map[],
      health := health, uploads := map[c.id := row], phase := Serving(true), storageUp := true, op := op)
  }

  /** While the machine leaves the upload finalizing, a restart of the protocol may
      already have settled it. */
  predicate Ahead(m: Machine, status: Status) {
    || status == m.status
    || (m.status == Finalizing && status == Pending && m.part.Some? && !m.holder.Prepared?)
    || (m.status == Finalizing && status == Completed && m.published.Some? && !m.holder.Published?)
  }

  predicate OpFits(id: Id, m: Machine, row: UploadRow, op: Op) {
    match m.holder
    case Verified(_) => op == CompleteVerified(id, row.status)
    case Prepared => op.CompletePrepared? && op.id == id && row.status == Finalizing && m.part == Some(row.verified)
    case Published => op == CompletePublished(id)
    case _ => op.Idle?
  }

  /** The row, the health flag and the operation in flight belong to the machine's state. */
  ghost predicate Fitting(c: Setting, m: Machine, row: UploadRow, health: Health, op: Op)
    requires WellFormed(c.u)
  {
    && c.u.totalSize >= 0 && row.target == c.target && row.total == c.u.totalSize as int && Ahead(m, row.status)
    && (health.Healthy? || (health == Unhealthy(UploadOf(c.id)) && row.status == Finalizing && m.published.Some?))
    && OpFits(c.id, m, row, op) && (m.published.Some? ==> row.verified == m.published.value)
  }

  /** The protocol's state is that of the machine. */
  ghost predicate Coupled(c: Setting, s: State, m: Machine)
    requires WellFormed(c.u)
  {
    exists row, health, op :: Fitting(c, m, row, health, op) && s == OneUpload(c, row, m.part, m.published, health, op)
  }

  lemma Couple(c: Setting, m: Machine, row: UploadRow, health: Health, op: Op)
    requires WellFormed(c.u) && Fitting(c, m, row, health, op)
    ensures Coupled(c, OneUpload(c, row, m.part, m.published, health, op), m)
  {
    hide WellFormed, Fitting, OneUpload;
  }

  /****** pieces of runs ******/

  lemma OneStep(s: State, e: Event, t: State)
    requires Apply(s, e) == Some(t)
    ensures Leads(s, t)
  {
    hide Leads, Apply;
    LeadsNowhere(s);
    LeadsStep(s, s, e);
  }

  lemma WriteRun(c: Setting, row: UploadRow, before: Bytes, after: Bytes, published: Option<Bytes>, health: Health)
    requires row.status == Pending
    ensures Leads(OneUpload(c, row, Some(before), published, health, Idle), OneUpload(c, row, Some(after), published, health, Idle))
  {
    hide Leads, ApplyProcessStep, ApplyTreeStep, ApplyTrashStep;
    var s, t := OneUpload(c, row, Some(before), published, health, Idle), OneUpload(c, row, Some(after), published, health, Idle);
    assert s.parts[c.id := after] == t.parts;
    OneStep(s, OnUpload(EvWritePart(c.id, after)), t);
  }

  lemma VerifyRun(c: Setting, row: UploadRow, part: Bytes, health: Health)
    requires row.status in {Pending, Finalizing} && |part| == row.total && row.target == c.target
    ensures Leads(OneUpload(c, row, Some(part), None, health, Idle),
                  OneUpload(c, row, Some(part), None, health, CompleteVerified(c.id, row.status)))
  {
    hide Leads, ApplyProcessStep, ApplyTreeStep, ApplyTrashStep;
    OneStep(OneUpload(c, row, Some(part), None, health, Idle), OnUpload(EvVerifyPart(c.id)),
            OneUpload(c, row, Some(part), None, health, CompleteVerified(c.id, row.status)));
  }

  lemma PrepareRun(c: Setting, row: UploadRow, part: Bytes, health: Health)
    requires row.status in {Pending, Finalizing}
    ensures Leads(OneUpload(c, row, Some(part), None, health, CompleteVerified(c.id, row.status)),
                  OneUpload(c, row.(status := Finalizing, verified := part, stamp := 0), Some(part), None, health, CompletePrepared(c.id, row.status)))
  {
    hide Leads, ApplyProcessStep, ApplyTreeStep, ApplyTrashStep;
    var s := OneUpload(c, row, Some(part), None, health, CompleteVerified(c.id, row.status));
    var row' := row.(status := Finalizing, verified := part, stamp := 0);
    var t := OneUpload(c, row', Some(part), None, health, CompletePrepared(c.id, row.status));
    assert s.uploads[c.id := row'] == t.uploads;
    OneStep(s, OnUpload(EvPrepareFinalization(0)), t);
  }

  lemma PublishRun(c: Setting, row: UploadRow, part: Bytes, health: Health, from: Status)
    requires |c.target| == 1 && row.target == c.target && row.status == Finalizing
    ensures Leads(OneUpload(c, row, Some(part), None, health, CompletePrepared(c.id, from)),
                  OneUpload(c, row, None, Some(part), health, CompletePublished(c.id)))
  {
    hide Leads, ApplyProcessStep, ApplyTreeStep, ApplyTrashStep;
    var s := OneUpload(c, row, Some(part), None, health, CompletePrepared(c.id, from));
    var t := OneUpload(c, row, None, Some(part), health, CompletePublished(c.id));
    assert s.parts - {c.id} == t.parts && s.files[c.target := File(c.id, part)] == t.files;
    OneStep(s, OnUpload(EvFsFinalize), t);
  }

  lemma CommitRun(c: Setting, row: UploadRow, data: Bytes, health: Health)
    requires |c.target| == 1 && row.target == c.target && row.status == Finalizing && MayRepair(health, UploadOf(c.id))
    ensures Leads(OneUpload(c, row, None, Some(data), health, CompletePublished(c.id)),
                  OneUpload(c, row.(status := Completed), None, Some(data), Healthy, Idle))
  {
    hide Leads, ApplyProcessStep, ApplyTreeStep, ApplyTrashStep;
    var s := OneUpload(c, row, None, Some(data), health, CompletePublished(c.id));
    var t := OneUpload(c, row.(status := Completed), None, Some(data), Healthy, Idle);
    assert s.uploads[c.id := row.(status := Completed)] == t.uploads && s.visible[c.target := FileMeta(row.total)] == t.visible;
    OneStep(s, OnUpload(EvCommitComplete), t);
  }

  lemma AdoptRun(c: Setting, row: UploadRow, data: Bytes, health: Health)
    requires row.target == c.target && row.status == Finalizing && |data| == row.total
    ensures Leads(OneUpload(c, row, None, Some(data), health, Idle), OneUpload(c, row, None, Some(data), health, CompletePublished(c.id)))
  {
    hide Leads, ApplyProcessStep, ApplyTreeStep, ApplyTrashStep;
    OneStep(OneUpload(c, row, None, Some(data), health, Idle), OnUpload(EvAdoptPublished(c.id)),
            OneUpload(c, row, None, Some(data), health, CompletePublished(c.id)));
  }

  lemma ResetRun(c: Setting, row: UploadRow, part: Bytes)
    requires row.status == Finalizing
    ensures Leads(OneUpload(c, row, Some(part), None, Healthy, CompletePrepared(c.id, Pending)),
                  OneUpload(c, row.(status := Pending), Some(part), None, Healthy, Idle))
  {
    hide Leads, ApplyProcessStep, ApplyTreeStep, ApplyTrashStep;
    var s := OneUpload(c, row, Some(part), None, Healthy, CompletePrepared(c.id, Pending));
    var t := OneUpload(c, row.(status := Pending), Some(part), None, Healthy, Idle);
    assert s.uploads[c.id := row.(status := Pending)] == t.uploads;
    OneStep(s, OnUpload(EvResetFinalizing), t);
  }

  lemma GiveUpRun(c: Setting, row: UploadRow, part: Option<Bytes>, published: Option<Bytes>, health: Health, op: Op)
    requires op.CompleteVerified? || op.CompletePrepared?
    ensures Leads(OneUpload(c, row, part, published, health, op), OneUpload(c, row, part, published, health, Idle))
  {
    hide Leads, ApplyProcessStep, ApplyUploadStep, ApplyTrashStep;
    OneStep(OneUpload(c, row, part, published, health, op), OnTree(EvGiveUp), OneUpload(c, row, part, published, health, Idle));
  }

  lemma FailRun(c: Setting, row: UploadRow, data: Bytes, health: Health)
    requires health.Healthy? || health == Unhealthy(UploadOf(c.id))
    ensures Leads(OneUpload(c, row, None, Some(data), health, CompletePublished(c.id)),
                  OneUpload(c, row, None, Some(data), Unhealthy(UploadOf(c.id)), Idle))
  {
    hide Leads, ApplyProcessStep, ApplyTreeStep, ApplyTrashStep;
    OneStep(OneUpload(c, row, None, Some(data), health, CompletePublished(c.id)), OnUpload(EvFailComplete),
            OneUpload(c, row, None, Some(data), Unhealthy(UploadOf(c.id)), Idle));
  }

  lemma RemoveRun(c: Setting, row: UploadRow, part: Option<Bytes>, published: Option<Bytes>, health: Health)
    requires row.status == Pending
    ensures Leads(OneUpload(c, row, part, published, health, Idle), OneUpload(c, row, None, published, health, Idle))
  {
    hide Leads, ApplyProcessStep, ApplyTreeStep, ApplyTrashStep;
    var s, t := OneUpload(c, row, part, published, health, Idle), OneUpload(c, row, None, published, health, Idle);
    var s1, s2 := s.(exclusive := {c.id}), t.(exclusive := {c.id});
    assert s.exclusive + {c.id} == {c.id} && s2.exclusive - {c.id} == {};
    assert s1.parts - {c.id} == t.parts;
    OneStep(s, OnUpload(EvLockUpload(c.id)), s1);
    OneStep(s1, OnUpload(EvRemovePart(c.id)), s2);
    OneStep(s2, OnUpload(EvUnlockUpload(c.id)), t);
    LeadsOn(s, s1, s2);
    LeadsOn(s, s2, t);
  }

  lemma RetireRun(c: Setting, row: UploadRow, part: Option<Bytes>, published: Option<Bytes>, health: Health, status: Status)
    requires row.status == Pending && (status == Cancelled || status == Expired)
    ensures Leads(OneUpload(c, row, part, published, health, Idle), OneUpload(c, row.(status := status), part, published, health, Idle))
  {
    hide Leads, ApplyProcessStep, ApplyTreeStep, ApplyTrashStep;
    var s, t := OneUpload(c, row, part, published, health, Idle), OneUpload(c, row.(status := status), part, published, health, Idle);
    var s1 := s.(exclusive := {c.id});
    assert s.exclusive + {c.id} == {c.id} && s1.exclusive - {c.id} == {};
    assert s.uploads[c.id := row.(status := status)] == t.uploads;
    OneStep(s, OnUpload(EvLockUpload(c.id)), s1);
    OneStep(s1, OnUpload(EvFinishUncompleted(c.id, status)), t);
    LeadsOn(s, s1, t);
  }

  /****** a restart ******/

  /** What startup makes of the row. */
  function Settled(row: UploadRow, part: Option<Bytes>): UploadRow {
    if row.status != Finalizing then row else row.(status := if part.Some? then Pending else Completed)
  }

  ghost predicate Restartable(c: Setting, row: UploadRow, part: Option<Bytes>, published: Option<Bytes>, health: Health) {
    && |c.target| == 1 && row.target == c.target
    && (row.status == Finalizing ==>
          if part.Some? then published.None? && health.Healthy?
          else published.Some? && |published.value| == row.total && MayRepair(health, UploadOf(c.id)))
    && (row.status != Finalizing ==> health.Healthy?)
  }

  lemma ReconcileRun(c: Setting, row: UploadRow, part: Option<Bytes>, published: Option<Bytes>, health: Health)
    requires Restartable(c, row, part, published, health) && row.status == Finalizing
    ensures Leads(OneUpload(c, row, part, published, health, Idle).(phase := StartingUploads),
                  OneUpload(c, Settled(row, part), part, published, Healthy, Idle).(phase := StartingUploads))
  {
    hide Leads, ApplyTreeStep, ApplyUploadStep, ApplyTrashStep;
    var s := OneUpload(c, row, part, published, health, Idle).(phase := StartingUploads);
    var t := OneUpload(c, Settled(row, part), part, published, Healthy, Idle).(phase := StartingUploads);
    assert s.uploads[c.id := Settled(row, part)] == t.uploads;
    if part.None? { assert s.visible[c.target := FileMeta(row.total)] == t.visible; }
    assert ReconcileUpload(s, c.id) == Some(t);
    OneStep(s, Process(EvReconcileUpload(c.id)), t);
  }

  /** A crash and a startup that settles the upload. */
  lemma RestartRun(c: Setting, row: UploadRow, part: Option<Bytes>, published: Option<Bytes>, health: Health, op: Op)
    requires Restartable(c, row, part, published, health)
    ensures Leads(OneUpload(c, row, part, published, health, op), OneUpload(c, Settled(row, part), part, published, Healthy, Idle))
  {
    hide Leads, ApplyTreeStep, ApplyUploadStep, ApplyTrashStep;
    var s, t := OneUpload(c, row, part, published, health, op), OneUpload(c, Settled(row, part), part, published, Healthy, Idle);
    var idle := OneUpload(c, row, part, published, health, Idle);
    var s1, s2, s3 := World.Crash(s), idle.(phase := StartingTrash), idle.(phase := StartingUploads);
    var s4 := t.(phase := StartingUploads);
    assert Apply(s, Process(EvCrash)) == Some(s1) && Apply(s1, Process(EvStart(true))) == Some(s2);
    assert Apply(s2, Process(EvTrashReconciled)) == Some(s3);
    assert Apply(s4, Process(EvServe(true))) == Some(t);
    hide Apply;
    OneStep(s, Process(EvCrash), s1);
    OneStep(s1, Process(EvStart(true)), s2);
    OneStep(s2, Process(EvTrashReconciled), s3);
    if row.status == Finalizing { ReconcileRun(c, row, part, published, health); } else { LeadsNowhere(s3); }
    OneStep(s4, Process(EvServe(true)), t);
    LeadsOn(s, s1, s2);
    LeadsOn(s, s2, s3);
    LeadsOn(s, s3, s4);
    LeadsOn(s, s4, t);
  }

  /** A new store announces the upload. */
  lemma FreshRun(c: Setting, whole: Option<Hash>) returns (s: State)
    requires SettingOk(c)
    ensures Leads(Empty(c.fold), s) && Coupled(c, s, Fresh(whole))
  {
    hide Leads, Inv, WellFormed, World.Accepted, ApplyProcessStep, ApplyTreeStep, ApplyTrashStep;
    Counted(c.u);
    OpenedReachable(c.fold);
    var s0 := Opened(c.fold);
    var s1 := s0.(parts := map[c.id := []]);
    var row := UploadRow(c.target, c.u.totalSize as int, [], Pending, 0);
    s := OneUpload(c, row, Some([]), None, Healthy, Idle);
    assert s0.parts[c.id := []] == s1.parts && s1.uploads[c.id := row] == s.uploads;
    OneStep(s0, OnUpload(EvCreatePart(c.id)), s1);
    OneStep(s1, OnUpload(EvCreateUpload(c.id, c.target, c.u.totalSize as int)), s);
    LeadsOn(Empty(c.fold), s0, s1);
    LeadsOn(Empty(c.fold), s1, s);
    Couple(c, Fresh(whole), row, Healthy, Idle);
  }

  /****** the simulation ******/

  /** What both models know before a step. */
  ghost predicate Known(c: Setting, m: Machine, H: Bytes -> Hash, row: UploadRow, health: Health, op: Op) {
    SettingOk(c) && UploadMachine.Inv(c.u, m, H) && FileKept(c.u, m, H) && Fitting(c, m, row, health, op)
  }

  lemma KnownRestartable(c: Setting, m: Machine, H: Bytes -> Hash, row: UploadRow, health: Health, op: Op)
    requires Known(c, m, H, row, health, op)
    ensures Restartable(c, row, m.part, m.published, health)
  {
    hide WellFormed, World.Accepted, RowsOk, PartOk, WritersOk, HolderOk, Concat, OpFits;
  }

  /** Nothing happens in the protocol. */
  lemma Stutters(c: Setting, m: Machine, m': Machine, row: UploadRow, health: Health, op: Op)
    requires WellFormed(c.u) && Fitting(c, m, row, health, op)
    requires m'.part == m.part && m'.published == m.published && m'.status == m.status
    requires m'.holder == m.holder || (op.Idle? && (m'.holder.Free? || m'.holder.Locked?))
    ensures Coupled(c, OneUpload(c, row, m.part, m.published, health, op), m')
  {
    hide WellFormed;
    Couple(c, m', row, health, op);
  }

  lemma SimulatesThread(c: Setting, m: Machine, H: Bytes -> Hash, row: UploadRow, health: Health, op: Op, e: Step) returns (t: State)
    requires Known(c, m, H, row, health, op) && Next(c.u, H, m, e).Some?
    requires e.Begin? || e.Write? || e.Record? || e.Leave? || e.Lock?
    ensures Leads(OneUpload(c, row, m.part, m.published, health, op), t) && Coupled(c, t, Next(c.u, H, m, e).value)
  {
    hide Leads, WellFormed, ChunkBounds, Overwrite, Offset, Size, RowsOk, PartOk, HolderOk, FileKept, World.Accepted, Coupled, OneUpload, WriterOk;
    var m' := Next(c.u, H, m, e).value;
    t := OneUpload(c, row, m'.part, m'.published, health, op);
    if m'.part == m.part {
      LeadsNowhere(t);
      Stutters(c, m, m', row, health, op);
    } else {
      assert m.part.Some? && m'.part.Some? && m.status == Pending && m.holder.Free?;
      WriteRun(c, row, m.part.value, m'.part.value, m.published, health);
      Couple(c, m', row, health, op);
    }
  }

  lemma SimulatesVerify(c: Setting, m: Machine, H: Bytes -> Hash, row: UploadRow, health: Health, op: Op) returns (t: State)
    requires Known(c, m, H, row, health, op) && Next(c.u, H, m, Verify).Some?
    ensures Leads(OneUpload(c, row, m.part, m.published, health, op), t) && Coupled(c, t, Next(c.u, H, m, Verify).value)
  {
    hide Leads, WellFormed, ChunkBounds, RegionsHash, Complete, RowsOk, PartOk, WritersOk, IsWhole, FileKept, World.Accepted, Coupled, OneUpload;
    var m' := Next(c.u, H, m, Verify).value;
    VerifyRun(c, row, m.part.value, health);
    t := OneUpload(c, row, m.part, None, health, CompleteVerified(c.id, row.status));
    Couple(c, m', row, health, CompleteVerified(c.id, row.status));
  }

  lemma SimulatesPrepare(c: Setting, m: Machine, H: Bytes -> Hash, row: UploadRow, health: Health, op: Op) returns (t: State)
    requires Known(c, m, H, row, health, op) && Next(c.u, H, m, Prepare).Some?
    ensures Leads(OneUpload(c, row, m.part, m.published, health, op), t) && Coupled(c, t, Next(c.u, H, m, Prepare).value)
  {
    hide Leads, WellFormed, ChunkBounds, RowsOk, PartOk, WritersOk, IsWhole, FileKept, World.Accepted, Coupled, OneUpload;
    var m' := Next(c.u, H, m, Prepare).value;
    PrepareRun(c, row, m.part.value, health);
    var row' := row.(status := Finalizing, verified := m.part.value, stamp := 0);
    t := OneUpload(c, row', m.part, None, health, CompletePrepared(c.id, row.status));
    Couple(c, m', row', health, CompletePrepared(c.id, row.status));
  }

  lemma SimulatesPublish(c: Setting, m: Machine, H: Bytes -> Hash, row: UploadRow, health: Health, op: Op) returns (t: State)
    requires Known(c, m, H, row, health, op) && Next(c.u, H, m, Publish).Some?
    ensures Leads(OneUpload(c, row, m.part, m.published, health, op), t) && Coupled(c, t, Next(c.u, H, m, Publish).value)
  {
    hide Leads, WellFormed, ChunkBounds, RowsOk, PartOk, WritersOk, IsWhole, FileKept, World.Accepted, Coupled, OneUpload;
    var m' := Next(c.u, H, m, Publish).value;
    PublishRun(c, row, m.part.value, health, op.from);
    t := OneUpload(c, row, None, m.part, health, CompletePublished(c.id));
    Couple(c, m', row, health, CompletePublished(c.id));
  }

  lemma SimulatesFinish(c: Setting, m: Machine, H: Bytes -> Hash, row: UploadRow, health: Health, op: Op) returns (t: State)
    requires Known(c, m, H, row, health, op) && Next(c.u, H, m, Finish).Some?
    ensures Leads(OneUpload(c, row, m.part, m.published, health, op), t) && Coupled(c, t, Next(c.u, H, m, Finish).value)
  {
    hide Leads, WellFormed, ChunkBounds, RowsOk, PartOk, WritersOk, Concat, World.Accepted, Coupled, OneUpload;
    var m' := Next(c.u, H, m, Finish).value;
    var s, data := OneUpload(c, row, m.part, m.published, health, op), m.published.value;
    if row.status == Completed {
      t := s;
      LeadsNowhere(s);
      Couple(c, m', row, health, op);
    } else {
      var done := row.(status := Completed);
      t := OneUpload(c, done, None, m.published, Healthy, Idle);
      if m.holder.Locked? {
        AdoptRun(c, row, data, health);
      } else {
        LeadsNowhere(s);
      }
      CommitRun(c, row, data, health);
      LeadsOn(s, OneUpload(c, row, None, Some(data), health, CompletePublished(c.id)), t);
      Couple(c, m', done, Healthy, Idle);
    }
  }

  lemma SimulatesReset(c: Setting, m: Machine, H: Bytes -> Hash, row: UploadRow, health: Health, op: Op) returns (t: State)
    requires Known(c, m, H, row, health, op) && Next(c.u, H, m, Reset).Some?
    ensures Leads(OneUpload(c, row, m.part, m.published, health, op), t) && Coupled(c, t, Next(c.u, H, m, Reset).value)
  {
    hide Leads, WellFormed, ChunkBounds, RowsOk, PartOk, WritersOk, IsWhole, FileKept, World.Accepted, Coupled, OneUpload;
    var m' := Next(c.u, H, m, Reset).value;
    var reset := row.(status := Pending);
    t := OneUpload(c, reset, m.part, m.published, health, Idle);
    if row.status == Pending {
      LeadsNowhere(t);
    } else if op == CompletePrepared(c.id, Pending) {
      ResetRun(c, row, m.part.value);
    } else {
      RestartRun(c, row, m.part, m.published, health, op);
    }
    Couple(c, m', reset, health, Idle);
  }

  lemma SimulatesRemove(c: Setting, m: Machine, H: Bytes -> Hash, row: UploadRow, health: Health, op: Op, e: Step) returns (t: State)
    requires Known(c, m, H, row, health, op) && Next(c.u, H, m, e).Some? && (e.RemovePart? || e.Retire?)
    ensures Leads(OneUpload(c, row, m.part, m.published, health, op), t) && Coupled(c, t, Next(c.u, H, m, e).value)
  {
    hide Leads, WellFormed, ChunkBounds, RowsOk, PartOk, WritersOk, IsWhole, FileKept, World.Accepted, Coupled, OneUpload;
    var m' := Next(c.u, H, m, e).value;
    var row' := if e.Retire? then row.(status := e.status) else row;
    t := OneUpload(c, row', None, m.published, health, Idle);
    if e.Retire? {
      RetireRun(c, row, m.part, m.published, health, e.status);
    } else {
      RemoveRun(c, row, m.part, m.published, health);
    }
    Couple(c, m', row', health, Idle);
  }

  lemma SimulatesUnlock(c: Setting, m: Machine, H: Bytes -> Hash, row: UploadRow, health: Health, op: Op) returns (t: State)
    requires Known(c, m, H, row, health, op) && Next(c.u, H, m, Unlock).Some?
    ensures Leads(OneUpload(c, row, m.part, m.published, health, op), t) && Coupled(c, t, Next(c.u, H, m, Unlock).value)
  {
    hide Leads, WellFormed, ChunkBounds, RowsOk, PartOk, WritersOk, IsWhole, FileKept, World.Accepted, Coupled, OneUpload;
    var m' := Next(c.u, H, m, Unlock).value;
    var health' := if m.holder.Published? then Unhealthy(UploadOf(c.id)) else health;
    t := OneUpload(c, row, m.part, m.published, health', Idle);
    if m.holder.Locked? {
      LeadsNowhere(t);
    } else if m.holder.Published? {
      FailRun(c, row, m.published.value, health);
    } else {
      GiveUpRun(c, row, m.part, m.published, health, op);
    }
    Couple(c, m', row, health', Idle);
  }

  /** A crash that loses unsynced bytes is a write and a crash. */
  lemma SimulatesCrash(c: Setting, m: Machine, H: Bytes -> Hash, row: UploadRow, health: Health, op: Op, p: Option<Bytes>) returns (t: State)
    requires Known(c, m, H, row, health, op) && Next(c.u, H, m, UploadMachine.Crash(p)).Some?
    ensures Leads(OneUpload(c, row, m.part, m.published, health, op), t)
    ensures Coupled(c, t, Next(c.u, H, m, UploadMachine.Crash(p)).value)
  {
    hide Leads, WellFormed, ChunkBounds, RowsOk, PartOk, WritersOk, Concat, World.Accepted, Coupled, OneUpload, HasRegion, Size, Offset, Restartable;
    var m' := Next(c.u, H, m, UploadMachine.Crash(p)).value;
    var s := OneUpload(c, row, m.part, m.published, health, op);
    KnownRestartable(c, m, H, row, health, op);
    var row' := Settled(row, m.part);
    t := OneUpload(c, row', p, m.published, Healthy, Idle);
    if p == m.part {
      RestartRun(c, row, m.part, m.published, health, op);
    } else {
      if m.status == Finalizing && m.published.None? { WholeSurvives(c.u, H, m, p); }
      LossyCrash(c, row, m.part.value, p.value, m.published, health, op);
    }
    Couple(c, m', row', Healthy, Idle);
  }

  lemma LossyCrash(c: Setting, row: UploadRow, before: Bytes, after: Bytes, published: Option<Bytes>, health: Health, op: Op)
    requires row.status == Pending && (op.Idle? || op.CompleteVerified?)
    requires Restartable(c, row, Some(before), published, health)
    ensures Leads(OneUpload(c, row, Some(before), published, health, op), OneUpload(c, row, Some(after), published, Healthy, Idle))
  {
    hide Leads, OneUpload;
    var s := OneUpload(c, row, Some(before), published, health, op);
    var s1 := OneUpload(c, row, Some(before), published, health, Idle);
    var s2 := OneUpload(c, row, Some(after), published, health, Idle);
    if op.Idle? { LeadsNowhere(s); } else { GiveUpRun(c, row, Some(before), published, health, op); }
    WriteRun(c, row, before, after, published, health);
    RestartRun(c, row, Some(after), published, health, Idle);
    LeadsOn(s, s1, s2);
    LeadsOn(s, s2, OneUpload(c, row, Some(after), published, Healthy, Idle));
  }

  lemma Simulates(c: Setting, s: State, m: Machine, H: Bytes -> Hash, e: Step) returns (t: State)
    requires SettingOk(c) && Coupled(c, s, m) && UploadMachine.Inv(c.u, m, H) && FileKept(c.u, m, H) && Next(c.u, H, m, e).Some?
    ensures Leads(s, t) && Coupled(c, t, Next(c.u, H, m, e).value)
  {
    hide Leads, WellFormed, UploadMachine.Inv, FileKept, Next, Fitting, OneUpload;
    var row, health, op :| Fitting(c, m, row, health, op) && s == OneUpload(c, row, m.part, m.published, health, op);
    hide Coupled;
    match e
    case Verify => t := SimulatesVerify(c, m, H, row, health, op);
    case Prepare => t := SimulatesPrepare(c, m, H, row, health, op);
    case Publish => t := SimulatesPublish(c, m, H, row, health, op);
    case Finish => t := SimulatesFinish(c, m, H, row, health, op);
    case Reset => t := SimulatesReset(c, m, H, row, health, op);
    case RemovePart => t := SimulatesRemove(c, m, H, row, health, op, e);
    case Retire(_) => t := SimulatesRemove(c, m, H, row, health, op, e);
    case Unlock => t := SimulatesUnlock(c, m, H, row, health, op);
    case Crash(p) => t := SimulatesCrash(c, m, H, row, health, op, p);
    case _ => t := SimulatesThread(c, m, H, row, health, op, e);
  }

  /** For every run of the machine whose bodies fit there is a run of the protocol, from
      an empty store, that ends in the same state of the upload. */
  lemma {:induction false} MachineRefines(c: Setting, H: Bytes -> Hash, whole: Option<Hash>, es: seq<Step>) returns (s: State)
    requires SettingOk(c) && After(c.u, H, Fresh(whole), es).Some? && AllFit(c.u, H, Fresh(whole), es)
    ensures Leads(Empty(c.fold), s) && Coupled(c, s, After(c.u, H, Fresh(whole), es).value)
    ensures FileKept(c.u, After(c.u, H, Fresh(whole), es).value, H)
  {
    hide Leads, WellFormed, UploadMachine.Inv, Coupled, Next, Fits, World.Accepted;
    if es == [] {
      s := FreshRun(c, whole);
    } else {
      var init, e := es[..|es| - 1], es[|es| - 1];
      var before := MachineRefines(c, H, whole, init);
      hide FileKept;
      UploadMachine.RunKeeps(c.u, H, whole, init);
      var m := After(c.u, H, Fresh(whole), init).value;
      FileKeptStep(c.u, H, m, e);
      s := Simulates(c, before, m, H, e);
      LeadsOn(Empty(c.fold), before, s);
    }
  }

  /** A checksum announced at the start is never replaced by another. */
  ghost predicate Announced(whole: Option<Hash>, m: Machine) {
    whole.Some? ==> m.whole == whole && (m.holder.Verified? ==> m.holder.hash == whole.value)
  }

  lemma AnnouncedStep(u: Upload, H: Bytes -> Hash, whole: Option<Hash>, m: Machine, e: Step)
    requires WellFormed(u) && Announced(whole, m) && Next(u, H, m, e).Some?
    ensures Announced(whole, Next(u, H, m, e).value)
  {
    hide WellFormed, ChunkBounds, RegionsHash, Complete, Survives, Size, Offset, Overwrite;
  }

  lemma {:induction false} AnnouncedStays(u: Upload, H: Bytes -> Hash, whole: Option<Hash>, es: seq<Step>)
    requires WellFormed(u) && After(u, H, Fresh(whole), es).Some?
    ensures Announced(whole, After(u, H, Fresh(whole), es).value)
  {
    hide WellFormed, Next;
    if es != [] {
      AnnouncedStays(u, H, whole, es[..|es| - 1]);
      AnnouncedStep(u, H, whole, After(u, H, Fresh(whole), es[..|es| - 1]).value, es[|es| - 1]);
    }
  }

  /** When the machine has published, the protocol's run has put at the target, under the
      origin of this upload, the concatenation in index order of the accepted chunk bodies;
      it is what the protocol holds as verified, and it has the announced length and the
      announced checksum. */
  lemma PublishedFile(c: Setting, H: Bytes -> Hash, whole: Option<Hash>, es: seq<Step>) returns (s: State)
    requires SettingOk(c) && After(c.u, H, Fresh(whole), es).Some? && AllFit(c.u, H, Fresh(whole), es)
    requires After(c.u, H, Fresh(whole), es).value.published.Some?
    ensures Leads(Empty(c.fold), s)
    ensures var m := After(c.u, H, Fresh(whole), es).value;
      && (forall i: nat | i < c.u.totalChunks as int :: i in m.accepted && i in m.chunks && m.chunks[i] == H(m.accepted[i]))
      && var file := Concat(m.accepted, c.u.totalChunks as int);
         && s.files == map[c.target := File(c.id, file)] && |file| == c.u.totalSize as int && (whole.Some? ==> whole == Some(H(file)))
         && c.id in s.uploads && s.uploads[c.id].verified == file && s.uploads[c.id].total == |file|
  {
    hide Leads, WellFormed, After, AllFit, Concat, World.Accepted, Ahead, OpFits, Size;
    s := MachineRefines(c, H, whole, es);
    PublishedBytes(c.u, H, whole, es);
    AnnouncedStays(c.u, H, whole, es);
    Counted(c.u);
  }
}
