/** One resumable upload: concurrent chunk writers, completion, cancellation, expiry
    and crashes, down to the bytes of the part file. `H` is the checksum. */
module UploadMachine {
  import opened World
  import opened Chunks

  type Hash = seq<nat>

  /****** regions of the part file ******/

  function Offset(u: Upload, i: nat): nat
    requires WellFormed(u)
  {
    i * (u.chunkSize as int)
  }

  function Size(u: Upload, i: nat): nat
    requires WellFormed(u) && i < u.totalChunks as int
  {
    BoundsExist(u, i as int64);
    ChunkBounds(u, i as int64).value.1 as int
  }

  lemma RegionEnds(u: Upload, i: nat)
    requires WellFormed(u) && i < u.totalChunks as int
    ensures 0 < Size(u, i)
    ensures Offset(u, i) + Size(u, i) == if i == u.totalChunks as int - 1 then u.totalSize as int else Offset(u, i + 1)
  {
    BoundsExist(u, i as int64);
  }

  lemma RegionsApart(u: Upload, i: nat, j: nat)
    requires WellFormed(u) && i < j < u.totalChunks as int
    ensures Offset(u, i) + Size(u, i) <= Offset(u, j)
  {
    hide WellFormed, ChunkBounds, Size;
    RegionEnds(u, i);
    OffsetGrows(u, i + 1, j);
  }

  lemma OffsetGrows(u: Upload, i: nat, j: nat)
    requires WellFormed(u) && i <= j
    ensures Offset(u, i) <= Offset(u, j)
  {
    var c := u.chunkSize as int;
    assert j * c == i * c + (j - i) * c;
  }

  predicate HasRegion(p: Bytes, offset: nat, data: Bytes) {
    offset + |data| <= |p| && p[offset..offset + |data|] == data
  }

  function Zeros(n: nat): Bytes {
    seq(n, _ => 0)
  }

  /** WriteAt: a gap past the end of the file reads as zeros. */
  function Overwrite(p: Bytes, at: nat, data: Bytes): Bytes {
    var q := if |p| < at then p + Zeros(at - |p|) else p;
    q[..at] + data + (if at + |data| <= |q| then q[at + |data|..] else [])
  }

  lemma OverwriteApart(p: Bytes, at: nat, data: Bytes, offset: nat, kept: Bytes)
    requires HasRegion(p, offset, kept) && (offset + |kept| <= at || at + |data| <= offset)
    ensures HasRegion(Overwrite(p, at, data), offset, kept)
  {
    var r := Overwrite(p, at, data);
    assert |r| >= offset + |kept|;
    forall k | 0 <= k < |kept| ensures r[offset + k] == kept[k] {
      assert p[offset..offset + |kept|][k] == p[offset + k];
    }
    assert r[offset..offset + |kept|] == kept;
  }

  lemma OverwriteAppends(p: Bytes, offset: nat, body: Bytes, data: Bytes)
    requires body == [] || HasRegion(p, offset, body)
    ensures data != [] || body != [] ==> HasRegion(Overwrite(p, offset + |body|, data), offset, body + data)
  {
    var at := offset + |body|;
    var r := Overwrite(p, at, data);
    if data != [] || body != [] {
      forall k | 0 <= k < |body + data| ensures r[offset + k] == (body + data)[k] {
        if k < |body| {
          assert p[offset..offset + |body|][k] == p[offset + k];
        }
      }
      assert r[offset..offset + |body + data|] == body + data;
    }
  }

  /****** the state ******/

  /** A PutChunk call that holds the shared lock and the lock of its index. */
  datatype Writer = Writer(index: nat, body: Bytes, recorded: bool)

  /** The exclusive lock, with how far its holder has come. */
  datatype Holder = Free | Locked | Verified(hash: Hash) | Prepared | Published

  /** `accepted` remembers the body of every recorded chunk. */
  datatype Machine = Machine(
    status: Status,
    whole: Option<Hash>,
    part: Option<Bytes>,
    chunks: map<nat, Hash>,
    accepted: map<nat, Bytes>,
    published: Option<Bytes>,
    writers: map<Id, Writer>,
    holder: Holder)

  function Fresh(whole: Option<Hash>): Machine {
    Machine(Pending, whole, Some([]), map[], map[], None, map[], Free)
  }

  datatype Step =
    | Begin(thread: Id, index: int64)
    | Write(thread: Id, data: Bytes)
    | Record(thread: Id, checksum: Hash)
    | Leave(thread: Id)
    | Lock
    | Verify
    | Prepare
    | Publish
    | Finish
    | Reset
    | RemovePart
    | Retire(status: Status)
    | Unlock
    | Crash(part: Option<Bytes>)

  predicate Complete(u: Upload, m: Machine)
    requires WellFormed(u)
  {
    forall i: nat | i < u.totalChunks as int :: i in m.chunks
  }

  /** verifyAndSyncPart: every region of the part hashes to its row. */
  predicate RegionsHash(u: Upload, m: Machine, H: Bytes -> Hash)
    requires WellFormed(u) && m.part.Some? && |m.part.value| == u.totalSize as int && Complete(u, m)
  {
    forall i: nat | i < u.totalChunks as int ::
      && Offset(u, i) + Size(u, i) <= |m.part.value|
      && H(m.part.value[Offset(u, i)..Offset(u, i) + Size(u, i)]) == m.chunks[i]
  }

  /** After a crash the part still has what was synced before a row recorded it. */
  predicate Survives(u: Upload, m: Machine, p: Option<Bytes>)
    requires WellFormed(u)
  {
    match m.part
    case None => p.None?
    case Some(before) =>
      p.Some? && |p.value| <= |before| &&
      forall i: nat | i in m.chunks && i < u.totalChunks as int ::
        Offset(u, i) + Size(u, i) <= |before| ==>
          HasRegion(p.value, Offset(u, i), before[Offset(u, i)..Offset(u, i) + Size(u, i)])
  }

  function Next(u: Upload, H: Bytes -> Hash, m: Machine, e: Step): Option<Machine>
    requires WellFormed(u)
  {
    match e
    case Begin(t, index) =>
      // OpenPart does not create the part
      if m.holder.Free? && t !in m.writers && m.status == Pending && ChunkBounds(u, index).Some?
         && ((index as int) in m.chunks || m.part.Some?)
         && forall s | s in m.writers :: m.writers[s].index != index as int
      then
        BoundsExist(u, index);
        Some(m.(writers := m.writers[t := Writer(index as int, [], (index as int) in m.chunks)]))
      else None
    case Write(t, data) =>
      if t !in m.writers || m.writers[t].index >= u.totalChunks as int then None
      else
        var w := m.writers[t];
        // LimitReader(body, expectedSize + 1)
        if |w.body| + |data| > Size(u, w.index) + 1 || (!w.recorded && m.part.None?) then None
        else
          var m' := m.(writers := m.writers[t := w.(body := w.body + data)]);
          if w.recorded then Some(m')
          else Some(m'.(part := Some(Overwrite(m.part.value, Offset(u, w.index) + |w.body|, data))))
    case Record(t, checksum) =>
      if t !in m.writers || m.writers[t].index >= u.totalChunks as int then None
      else
        var w := m.writers[t];
        if |w.body| != Size(u, w.index) || H(w.body) != checksum then None
        else
          var m' := m.(writers := m.writers - {t});
          if w.recorded || w.index in m.chunks then Some(m')
          else Some(m'.(chunks := m.chunks[w.index := checksum], accepted := m.accepted[w.index := w.body]))
    case Leave(t) => if t in m.writers then Some(m.(writers := m.writers - {t})) else None
    case Lock => if m.holder.Free? && m.writers == map[] then Some(m.(holder := Locked)) else None
    case Verify =>
      if m.holder.Locked? && (m.status == Pending || m.status == Finalizing) && m.part.Some? && |m.part.value| == u.totalSize as int
         && Complete(u, m) && RegionsHash(u, m, H) && (m.whole.Some? ==> H(m.part.value) == m.whole.value)
      then Some(m.(holder := Verified(H(m.part.value)))) else None
    case Prepare =>
      if m.holder.Verified? then Some(m.(status := Finalizing, whole := Some(m.holder.hash), holder := Prepared)) else None
    case Publish =>
      if m.holder.Prepared? && m.part.Some? then Some(m.(published := m.part, part := None, holder := Published)) else None
    case Finish =>
      if m.holder.Published? || (m.holder.Locked? && m.status == Finalizing && m.part.None? && m.published.Some?) then
        Some(m.(status := Completed, holder := Free))
      else None
    case Reset =>
      if m.holder.Prepared? || (m.holder.Locked? && m.status == Finalizing && m.part.Some?) then
        Some(m.(status := Pending, holder := Free))
      else None
    case RemovePart => if m.holder.Locked? && m.status == Pending then Some(m.(part := None)) else None
    case Retire(status) =>
      if m.holder.Locked? && m.status == Pending && m.part.None? && (status == Cancelled || status == Expired) then
        Some(m.(status := status, chunks := map[], accepted := map[], holder := Free))
      else None
    case Unlock => if m.holder.Free? then None else Some(m.(holder := Free))
    case Crash(p) => if Survives(u, m, p) then Some(m.(part := p, writers := map[], holder := Free)) else None
  }

  /** The handler cuts a body off at the size of its chunk. */
  predicate Fits(u: Upload, m: Machine, e: Step)
    requires WellFormed(u)
  {
    e.Write? && e.thread in m.writers && m.writers[e.thread].index < u.totalChunks as int ==>
      |m.writers[e.thread].body| + |e.data| <= Size(u, m.writers[e.thread].index)
  }

  function After(u: Upload, H: Bytes -> Hash, m: Machine, es: seq<Step>): Option<Machine>
    requires WellFormed(u)
  {
    if es == [] then Some(m)
    else
      var r := After(u, H, m, es[..|es| - 1]);
      if r.None? then None else Next(u, H, r.value, es[|es| - 1])
  }

  predicate AllFit(u: Upload, H: Bytes -> Hash, m: Machine, es: seq<Step>)
    requires WellFormed(u)
  {
    es == [] || (AllFit(u, H, m, es[..|es| - 1]) &&
      var r := After(u, H, m, es[..|es| - 1]); r.Some? ==> Fits(u, r.value, es[|es| - 1]))
  }

  /****** the invariant ******/

  /** Every recorded chunk has the body whose hash its row holds. */
  ghost predicate RowsOk(u: Upload, m: Machine, H: Bytes -> Hash)
    requires WellFormed(u)
  {
    && m.chunks.Keys == m.accepted.Keys
    && forall i | i in m.chunks :: i < u.totalChunks as int && |m.accepted[i]| == Size(u, i) && m.chunks[i] == H(m.accepted[i])
  }

  ghost predicate PartOk(u: Upload, m: Machine)
    requires WellFormed(u)
  {
    m.part.Some? ==> forall i | i in m.accepted :: HasRegion(m.part.value, Offset(u, i), m.accepted[i])
  }

  ghost predicate WriterOk(u: Upload, m: Machine, w: Writer)
    requires WellFormed(u)
  {
    && w.index < u.totalChunks as int && |w.body| <= Size(u, w.index)
    && (!w.recorded ==> w.index !in m.chunks && (w.body == [] || (m.part.Some? && HasRegion(m.part.value, Offset(u, w.index), w.body))))
  }

  ghost predicate WritersOk(u: Upload, m: Machine)
    requires WellFormed(u)
  {
    && (forall t | t in m.writers :: WriterOk(u, m, m.writers[t]))
    && (forall s, t | s in m.writers && t in m.writers && s != t :: m.writers[s].index != m.writers[t].index)
    && (m.writers != map[] ==> m.status == Pending && m.holder.Free?)
  }

  /** The bytes of the first `k` chunks. */
  function Concat(accepted: map<nat, Bytes>, k: nat): Bytes
    requires forall i: nat | i < k :: i in accepted
  {
    if k == 0 then [] else Concat(accepted, k - 1) + accepted[k - 1]
  }

  ghost predicate IsWhole(u: Upload, m: Machine, H: Bytes -> Hash, b: Bytes)
    requires WellFormed(u)
  {
    && |b| == u.totalSize as int
    && (forall i: nat | i < u.totalChunks as int :: i in m.accepted)
    && b == Concat(m.accepted, u.totalChunks as int)
  }

  ghost predicate HolderOk(u: Upload, m: Machine, H: Bytes -> Hash)
    requires WellFormed(u)
  {
    match m.holder
    case Verified(h) => m.part.Some? && IsWhole(u, m, H, m.part.value) && h == H(m.part.value) && m.status in {Pending, Finalizing}
    case Prepared =>
      m.part.Some? && IsWhole(u, m, H, m.part.value) && m.status == Finalizing && m.whole == Some(H(m.part.value))
    case Published => m.published.Some? && m.status == Finalizing
    case _ => true
  }

  ghost predicate PublishedOk(u: Upload, m: Machine, H: Bytes -> Hash)
    requires WellFormed(u)
  {
    m.published.Some? ==>
      && m.part.None? && m.status in {Finalizing, Completed}
      && IsWhole(u, m, H, m.published.value) && m.whole == Some(H(m.published.value))
  }

  ghost predicate Inv(u: Upload, m: Machine, H: Bytes -> Hash)
    requires WellFormed(u)
  {
    RowsOk(u, m, H) && PartOk(u, m) && WritersOk(u, m) && HolderOk(u, m, H) && PublishedOk(u, m, H)
  }

  /****** chunk writers ******/

  lemma BeginKeeps(u: Upload, H: Bytes -> Hash, m: Machine, t: Id, index: int64)
    requires WellFormed(u) && Inv(u, m, H) && Next(u, H, m, Begin(t, index)).Some?
    ensures Inv(u, Next(u, H, m, Begin(t, index)).value, H)
  {
    hide WellFormed, ChunkBounds, IsWhole, Concat, Size, Offset, RegionsHash, Survives;
    BoundsExist(u, index);
  }

  /** A fitting write changes only the region of its own index, which has no row. */
  lemma WrittenRegions(u: Upload, m: Machine, H: Bytes -> Hash, t: Id, data: Bytes, i: nat)
    requires WellFormed(u) && RowsOk(u, m, H) && PartOk(u, m) && WritersOk(u, m)
    requires t in m.writers && Fits(u, m, Write(t, data)) && !m.writers[t].recorded && m.part.Some?
    requires i in m.accepted
    ensures var w := m.writers[t];
      HasRegion(Overwrite(m.part.value, Offset(u, w.index) + |w.body|, data), Offset(u, i), m.accepted[i])
  {
    hide WellFormed, ChunkBounds, Overwrite, Size, Offset;
    var w := m.writers[t];
    if i < w.index { RegionsApart(u, i, w.index); } else { RegionsApart(u, w.index, i); }
    OverwriteApart(m.part.value, Offset(u, w.index) + |w.body|, data, Offset(u, i), m.accepted[i]);
  }

  lemma WrittenBodies(u: Upload, m: Machine, t: Id, data: Bytes, s: Id)
    requires WellFormed(u) && WritersOk(u, m)
    requires t in m.writers && Fits(u, m, Write(t, data)) && !m.writers[t].recorded && m.part.Some?
    requires s in m.writers && s != t && !m.writers[s].recorded && m.writers[s].body != []
    ensures var w, v := m.writers[t], m.writers[s];
      HasRegion(Overwrite(m.part.value, Offset(u, w.index) + |w.body|, data), Offset(u, v.index), v.body)
  {
    hide WellFormed, ChunkBounds, Overwrite, Size, Offset;
    var w, v := m.writers[t], m.writers[s];
    if v.index < w.index { RegionsApart(u, v.index, w.index); } else { RegionsApart(u, w.index, v.index); }
    OverwriteApart(m.part.value, Offset(u, w.index) + |w.body|, data, Offset(u, v.index), v.body);
  }

  lemma WriteKeeps(u: Upload, H: Bytes -> Hash, m: Machine, t: Id, data: Bytes)
    requires WellFormed(u) && Inv(u, m, H) && Next(u, H, m, Write(t, data)).Some? && Fits(u, m, Write(t, data))
    ensures Inv(u, Next(u, H, m, Write(t, data)).value, H)
  {
    hide WellFormed, ChunkBounds, IsWhole, Concat, Size, Offset, Overwrite, RegionsHash, Survives, HasRegion;
    var w, m' := m.writers[t], Next(u, H, m, Write(t, data)).value;
    if !w.recorded {
      forall i | i in m.accepted ensures HasRegion(m'.part.value, Offset(u, i), m.accepted[i]) {
        WrittenRegions(u, m, H, t, data, i);
      }
      forall s | s in m.writers && s != t && !m.writers[s].recorded && m.writers[s].body != []
        ensures HasRegion(m'.part.value, Offset(u, m.writers[s].index), m.writers[s].body)
      {
        WrittenBodies(u, m, t, data, s);
      }
      OverwriteAppends(m.part.value, Offset(u, w.index), w.body, data);
    }
  }

  lemma RecordKeeps(u: Upload, H: Bytes -> Hash, m: Machine, t: Id, checksum: Hash)
    requires WellFormed(u) && Inv(u, m, H) && Next(u, H, m, Record(t, checksum)).Some?
    ensures Inv(u, Next(u, H, m, Record(t, checksum)).value, H)
  {
    hide WellFormed, ChunkBounds, IsWhole, Concat, Offset, RegionsHash, Survives, HasRegion, Size;
    var w, m' := m.writers[t], Next(u, H, m, Record(t, checksum)).value;
    assert 0 < Size(u, w.index) by { RegionEnds(u, w.index); }
    assert m.accepted.Keys == m.chunks.Keys;
  }

  /****** completion ******/

  lemma {:induction false} PrefixIsConcat(u: Upload, p: Bytes, accepted: map<nat, Bytes>, k: nat)
    requires WellFormed(u) && k <= u.totalChunks as int && |p| == u.totalSize as int
    requires forall i: nat | i < u.totalChunks as int :: i in accepted && |accepted[i]| == Size(u, i) && HasRegion(p, Offset(u, i), accepted[i])
    ensures var end := if k == u.totalChunks as int then |p| else Offset(u, k);
      end <= |p| && Concat(accepted, k) == p[..end]
  {
    hide WellFormed, ChunkBounds, Size, TotalChunks;
    if k == 0 {
      assert Offset(u, 0) == 0;
      Counted(u);
    } else {
      PrefixIsConcat(u, p, accepted, k - 1);
      RegionEnds(u, k - 1);
      RegionAppends(p, Offset(u, k - 1), accepted[k - 1]);
    }
  }

  lemma RegionAppends(p: Bytes, o: nat, data: Bytes)
    requires HasRegion(p, o, data)
    ensures p[..o] + data == p[..o + |data|]
  {
  }

  lemma Counted(u: Upload)
    requires WellFormed(u)
    ensures u.totalChunks >= 0 && u.totalSize >= 0 && (u.totalChunks == 0 ==> u.totalSize == 0)
  {
    TotalChunksBounds(u.totalSize, u.chunkSize);
  }

  /** A part that has every recorded body and the right length is the whole file. */
  lemma VerifiedIsWhole(u: Upload, m: Machine, H: Bytes -> Hash)
    requires WellFormed(u) && RowsOk(u, m, H) && PartOk(u, m) && m.part.Some?
    requires |m.part.value| == u.totalSize as int && Complete(u, m)
    ensures IsWhole(u, m, H, m.part.value)
  {
    hide WellFormed, ChunkBounds, Size, Offset, HasRegion;
    Counted(u);
    assert forall i: nat | i < u.totalChunks as int :: i in m.chunks && i in m.accepted;
    PrefixIsConcat(u, m.part.value, m.accepted, u.totalChunks as int);
    assert m.part.value[..|m.part.value|] == m.part.value;
  }

  lemma VerifyKeeps(u: Upload, H: Bytes -> Hash, m: Machine)
    requires WellFormed(u) && Inv(u, m, H) && Next(u, H, m, Verify).Some?
    ensures Inv(u, Next(u, H, m, Verify).value, H)
  {
    hide WellFormed, ChunkBounds, IsWhole, Concat, Offset, RegionsHash, Survives, HasRegion, Size, Complete;
    VerifiedIsWhole(u, m, H);
    SameAccepted(u, m, Next(u, H, m, Verify).value, H, m.part.value);
  }

  lemma SameAccepted(u: Upload, m: Machine, m': Machine, H: Bytes -> Hash, b: Bytes)
    requires WellFormed(u) && m'.accepted == m.accepted
    ensures IsWhole(u, m, H, b) <==> IsWhole(u, m', H, b)
  {
    hide WellFormed, ChunkBounds;
  }

  /** Steps of the lock holder, and leaving, keep bodies and regions as they are. */
  lemma HolderStepKeeps(u: Upload, H: Bytes -> Hash, m: Machine, e: Step)
    requires WellFormed(u) && Inv(u, m, H) && Next(u, H, m, e).Some?
    requires e.Leave? || e.Lock? || e.Prepare? || e.Publish? || e.Finish? || e.Reset? || e.RemovePart? || e.Unlock?
    ensures Inv(u, Next(u, H, m, e).value, H)
  {
    hide WellFormed, ChunkBounds, IsWhole, Concat, Offset, RegionsHash, Survives, HasRegion, Size, Complete;
    var m' := Next(u, H, m, e).value;
    if m.part.Some? { SameAccepted(u, m, m', H, m.part.value); }
    if m.published.Some? { SameAccepted(u, m, m', H, m.published.value); }
  }

  lemma RetireKeeps(u: Upload, H: Bytes -> Hash, m: Machine, status: Status)
    requires WellFormed(u) && Inv(u, m, H) && Next(u, H, m, Retire(status)).Some?
    ensures Inv(u, Next(u, H, m, Retire(status)).value, H)
  {
    hide WellFormed, ChunkBounds, IsWhole, Concat, Offset, RegionsHash, Survives, HasRegion, Size, Complete;
  }

  lemma CrashKeeps(u: Upload, H: Bytes -> Hash, m: Machine, p: Option<Bytes>)
    requires WellFormed(u) && Inv(u, m, H) && Next(u, H, m, Crash(p)).Some?
    ensures Inv(u, Next(u, H, m, Crash(p)).value, H)
  {
    hide WellFormed, ChunkBounds, IsWhole, Concat, Offset, RegionsHash, Size, Complete;
    var m' := Next(u, H, m, Crash(p)).value;
    if m.published.Some? { SameAccepted(u, m, m', H, m.published.value); }
    if p.Some? {
      forall i | i in m.accepted ensures HasRegion(p.value, Offset(u, i), m.accepted[i]) {
        assert i in m.chunks && HasRegion(m.part.value, Offset(u, i), m.accepted[i]);
      }
    }
  }

  lemma StepKeeps(u: Upload, H: Bytes -> Hash, m: Machine, e: Step)
    requires WellFormed(u) && Inv(u, m, H) && Next(u, H, m, e).Some? && Fits(u, m, e)
    ensures Inv(u, Next(u, H, m, e).value, H)
  {
    hide Inv, Next, WellFormed, Fits;
    match e
    case Begin(t, index) => BeginKeeps(u, H, m, t, index);
    case Write(t, data) => WriteKeeps(u, H, m, t, data);
    case Record(t, checksum) => RecordKeeps(u, H, m, t, checksum);
    case Verify => VerifyKeeps(u, H, m);
    case Retire(status) => RetireKeeps(u, H, m, status);
    case Crash(p) => CrashKeeps(u, H, m, p);
    case _ => HolderStepKeeps(u, H, m, e);
  }

  lemma {:induction false} RunKeeps(u: Upload, H: Bytes -> Hash, whole: Option<Hash>, es: seq<Step>)
    requires WellFormed(u) && After(u, H, Fresh(whole), es).Some? && AllFit(u, H, Fresh(whole), es)
    ensures Inv(u, After(u, H, Fresh(whole), es).value, H)
  {
    hide WellFormed, Next, Fits;
    if es != [] {
      RunKeeps(u, H, whole, es[..|es| - 1]);
      hide Inv;
      StepKeeps(u, H, After(u, H, Fresh(whole), es[..|es| - 1]).value, es[|es| - 1]);
    }
  }

  /****** the verification loop ******/

  predicate SectionHashes(part: Bytes, chunk: Chunk, H: Bytes -> Hash) {
    && 0 <= chunk.offset && 0 <= chunk.size && chunk.offset as int + chunk.size as int <= |part|
    && H(part[chunk.offset as int..chunk.offset as int + chunk.size as int]) == chunk.sha256
  }

  function End(u: Upload, i: nat): nat
    requires WellFormed(u) && i <= u.totalChunks as int
  {
    if i == u.totalChunks as int then u.totalSize as int else Offset(u, i)
  }

  /** verifyAndSyncPart: the bytes fed to the whole-file hasher are those of the
      sections in order. */
  method VerifyPart(u: Upload, rows: seq<Chunk>, part: Bytes, whole: Option<Hash>, H: Bytes -> Hash) returns (r: Option<Hash>)
    requires WellFormed(u)
    ensures r.Some? <==>
      && IsTiling(u, rows) && (forall i | 0 <= i < |rows| :: SectionHashes(part, rows[i], H))
      && u.totalSize as int <= |part| && (whole.Some? ==> H(part[..u.totalSize as int]) == whole.value)
    ensures r.Some? ==> u.totalSize as int <= |part| && r.value == H(part[..u.totalSize as int])
  {
    hide ChunkBounds, WellFormed, Offset;
    Counted(u);
    FirstEnd(u);
    var index: int64 := 0;
    var hashed: Bytes := [];
    while index as int < |rows|
      invariant 0 <= index <= u.totalChunks && index as int <= |rows|
      invariant forall i | 0 <= i < index as int :: RowAt(u, rows[i], i as int64) && SectionHashes(part, rows[i], H)
      invariant End(u, index as int) <= |part| && hashed == part[..End(u, index as int)]
      decreases |rows| - index as int
    {
      var chunk := rows[index];
      BoundsInside(u, index);
      if !RowAt(u, chunk, index) { return None; }
      NextEnd(u, index, chunk);
      if !SectionHashes(part, chunk, H) { return None; }
      var section := part[chunk.offset as int..chunk.offset as int + chunk.size as int];
      assert part[..chunk.offset as int] + section == part[..chunk.offset as int + chunk.size as int];
      hashed, index := hashed + section, index + 1;
    }
    if index != u.totalChunks { return None; }
    var computed := H(hashed);
    if whole.Some? && computed != whole.value { return None; }
    r := Some(computed);
  }

  lemma FirstEnd(u: Upload)
    requires WellFormed(u)
    ensures u.totalChunks >= 0 && End(u, 0) == 0
  {
    Counted(u);
  }

  lemma NextEnd(u: Upload, index: int64, chunk: Chunk)
    requires WellFormed(u) && 0 <= index < u.totalChunks && RowAt(u, chunk, index)
    ensures chunk.offset as int == End(u, index as int) && chunk.size > 0
    ensures chunk.offset as int + chunk.size as int == End(u, index as int + 1)
  {
    BoundsExist(u, index);
    RegionEnds(u, index as int);
  }

  /****** theorems ******/

  /** The file renamed into place has the announced length, is the concatenation in
      index order of the accepted bodies, and hashes to the stored checksum. */
  lemma PublishedBytes(u: Upload, H: Bytes -> Hash, whole: Option<Hash>, es: seq<Step>)
    requires WellFormed(u) && After(u, H, Fresh(whole), es).Some? && AllFit(u, H, Fresh(whole), es)
    requires After(u, H, Fresh(whole), es).value.published.Some?
    ensures var m := After(u, H, Fresh(whole), es).value;
      && |m.published.value| == u.totalSize as int
      && (forall i: nat | i < u.totalChunks as int :: i in m.accepted && i in m.chunks && m.chunks[i] == H(m.accepted[i]))
      && m.published.value == Concat(m.accepted, u.totalChunks as int)
      && m.whole == Some(H(m.published.value))
  {
    hide WellFormed, After, AllFit, PartOk, WritersOk, HolderOk, Concat, Size;
    RunKeeps(u, H, whole, es);
  }

  /** While the part is there, the region of a recorded chunk hashes to its row. */
  lemma RecordedRegion(u: Upload, H: Bytes -> Hash, whole: Option<Hash>, es: seq<Step>, i: nat)
    requires WellFormed(u) && After(u, H, Fresh(whole), es).Some? && AllFit(u, H, Fresh(whole), es)
    requires var m := After(u, H, Fresh(whole), es).value; i in m.chunks && m.part.Some?
    ensures var m := After(u, H, Fresh(whole), es).value; RegionHashes(u, H, m, i)
  {
    hide WellFormed, After, AllFit, WritersOk, HolderOk, PublishedOk, Size, Offset;
    RunKeeps(u, H, whole, es);
  }

  predicate RegionHashes(u: Upload, H: Bytes -> Hash, m: Machine, i: nat)
    requires WellFormed(u) && i in m.chunks && m.part.Some?
  {
    && i < u.totalChunks as int && Offset(u, i) + Size(u, i) <= |m.part.value|
    && m.chunks[i] == H(m.part.value[Offset(u, i)..Offset(u, i) + Size(u, i)])
  }

  /** No other step takes a row away or changes its hash before the upload is retired. */
  lemma RowsGrow(u: Upload, H: Bytes -> Hash, m: Machine, e: Step, i: nat)
    requires WellFormed(u) && Next(u, H, m, e).Some? && !e.Retire? && i in m.chunks
    ensures i in Next(u, H, m, e).value.chunks && Next(u, H, m, e).value.chunks[i] == m.chunks[i]
  {
    hide WellFormed, ChunkBounds, RegionsHash, Complete, Survives, Size, Offset, Overwrite;
  }

  lemma {:induction false} RowsLast(u: Upload, H: Bytes -> Hash, m: Machine, more: seq<Step>, i: nat)
    requires WellFormed(u) && After(u, H, m, more).Some? && i in m.chunks
    requires forall k | 0 <= k < |more| :: !more[k].Retire?
    ensures i in After(u, H, m, more).value.chunks && After(u, H, m, more).value.chunks[i] == m.chunks[i]
  {
    hide WellFormed, Next;
    if more != [] {
      RowsLast(u, H, m, more[..|more| - 1], i);
      RowsGrow(u, H, After(u, H, m, more[..|more| - 1]).value, more[|more| - 1], i);
    }
  }

  lemma {:induction false} AfterConcat(u: Upload, H: Bytes -> Hash, m: Machine, es: seq<Step>, more: seq<Step>)
    requires WellFormed(u) && After(u, H, m, es + more).Some?
    ensures After(u, H, m, es).Some? && After(u, H, m, es + more) == After(u, H, After(u, H, m, es).value, more)
  {
    hide WellFormed, Next;
    if more == [] {
      assert es + more == es;
    } else {
      assert (es + more)[..|es + more| - 1] == es + more[..|more| - 1];
      AfterConcat(u, H, m, es, more[..|more| - 1]);
    }
  }

  lemma OneMore(u: Upload, H: Bytes -> Hash, m: Machine, es: seq<Step>, e: Step)
    requires WellFormed(u) && After(u, H, m, es).Some? && AllFit(u, H, m, es) && Fits(u, After(u, H, m, es).value, e)
    ensures After(u, H, m, es + [e]) == Next(u, H, After(u, H, m, es).value, e) && AllFit(u, H, m, es + [e])
  {
    hide Next, WellFormed, Fits;
    var all := es + [e];
    assert all[..|all| - 1] == es && all[|all| - 1] == e;
  }

  /** Once a chunk is recorded, its row stays as it is through every further run that
      does not retire the upload, and while the part is there the region of the chunk
      hashes to that very row. */
  lemma RecordedChunksStable(u: Upload, H: Bytes -> Hash, whole: Option<Hash>, es: seq<Step>, more: seq<Step>, i: nat)
    requires WellFormed(u) && After(u, H, Fresh(whole), es + more).Some? && AllFit(u, H, Fresh(whole), es + more)
    requires After(u, H, Fresh(whole), es).Some? && i in After(u, H, Fresh(whole), es).value.chunks
    requires forall k | 0 <= k < |more| :: !more[k].Retire?
    ensures var m, m' := After(u, H, Fresh(whole), es).value, After(u, H, Fresh(whole), es + more).value;
      && i in m'.chunks && m'.chunks[i] == m.chunks[i]
      && (m'.part.Some? ==> RegionHashes(u, H, m', i))
  {
    hide WellFormed, After, AllFit, Fresh, RegionHashes;
    AfterConcat(u, H, Fresh(whole), es, more);
    RowsLast(u, H, After(u, H, Fresh(whole), es).value, more, i);
    if After(u, H, Fresh(whole), es + more).value.part.Some? {
      RecordedRegion(u, H, whole, es + more, i);
    }
  }

  /****** bodies longer than their chunk ******/

  lemma OneWriter(u: Upload, m: Machine, t: Id)
    requires WellFormed(u) && WritersOk(u, m) && t in m.writers
    ensures WriterOk(u, m, m.writers[t])
  {
  }

  lemma OverlongOthers(u: Upload, m: Machine, H: Bytes -> Hash, w: Writer, data: Bytes, j: nat)
    requires WellFormed(u) && RowsOk(u, m, H) && PartOk(u, m) && m.part.Some? && w.index < u.totalChunks as int
    requires w.index !in m.accepted && |w.body| + |data| == Size(u, w.index) + 1
    requires j in m.accepted && j != w.index + 1
    ensures HasRegion(Overwrite(m.part.value, Offset(u, w.index) + |w.body|, data), Offset(u, j), m.accepted[j])
  {
    hide WellFormed, ChunkBounds, Size, Offset, Overwrite, HasRegion;
    var i := w.index;
    if j < i {
      RegionsApart(u, j, i);
    } else {
      RegionsApart(u, i, i + 1);
      RegionEnds(u, i + 1);
      RegionsApart(u, i + 1, j);
    }
    OverwriteApart(m.part.value, Offset(u, i) + |w.body|, data, Offset(u, j), m.accepted[j]);
  }

  /** The reader alone lets one byte too many through. Such a write keeps the recorded
      regions exactly when the next chunk has no row yet or starts with that byte. */
  lemma OverlongWrite(u: Upload, H: Bytes -> Hash, m: Machine, t: Id, data: Bytes)
    requires WellFormed(u) && Inv(u, m, H) && Next(u, H, m, Write(t, data)).Some?
    requires t in m.writers && !m.writers[t].recorded && !Fits(u, m, Write(t, data))
    ensures var i, m' := m.writers[t].index, Next(u, H, m, Write(t, data)).value;
      data != [] && (PartOk(u, m') <==> i + 1 in m.accepted ==> [data[|data| - 1]] <= m.accepted[i + 1])
  {
    hide WellFormed, ChunkBounds, HolderOk, PublishedOk, Size, Offset, Overwrite, HasRegion, RegionsHash, Complete, Survives, WritersOk;
    assert WriterOk(u, m, m.writers[t]) by { OneWriter(u, m, t); }
    var w, m' := m.writers[t], Next(u, H, m, Write(t, data)).value;
    var at, i := Offset(u, w.index) + |w.body|, w.index;
    assert |w.body| + |data| == Size(u, i) + 1;
    forall j | j in m.accepted && j != i + 1 ensures HasRegion(m'.part.value, Offset(u, j), m.accepted[j]) {
      OverlongOthers(u, m, H, w, data, j);
    }
    if i + 1 in m.accepted {
      RegionEnds(u, i);
      RegionEnds(u, i + 1);
      OverwriteFirst(m.part.value, at, data, Offset(u, i + 1), m.accepted[i + 1]);
    }
  }

  /** Only the first byte of the region is overwritten. */
  lemma OverwriteFirst(p: Bytes, at: nat, data: Bytes, offset: nat, kept: Bytes)
    requires HasRegion(p, offset, kept) && kept != [] && data != [] && at + |data| == offset + 1
    ensures HasRegion(Overwrite(p, at, data), offset, kept) <==> data[|data| - 1] == kept[0]
  {
    var r := Overwrite(p, at, data);
    assert |r| >= offset + |kept| && r[offset] == data[|data| - 1];
    assert r[offset..offset + |kept|][0] == r[offset];
    forall k | 0 < k < |kept| ensures r[offset + k] == kept[k] {
      assert p[offset..offset + |kept|][k] == p[offset + k];
    }
    if data[|data| - 1] == kept[0] {
      assert r[offset..offset + |kept|] == kept;
    }
  }

  const TWO_CHUNKS := Upload("two", MIB + 1, MIB, 2)
  const SECOND := Fresh(None).(part := Some(Overwrite([], 0x10_0000, [7])), chunks := map[1 := [7]], accepted := map[1 := [7]])

  lemma SecondRecorded(H: Bytes -> Hash)
    requires H([7]) == [7]
    ensures WellFormed(TWO_CHUNKS)
    ensures After(TWO_CHUNKS, H, Fresh(None), [Begin("b", 1), Write("b", [7]), Record("b", [7])]) == Some(SECOND)
  {
    var u, m0 := TWO_CHUNKS, Fresh(None);
    BoundsExist(u, 1);
    var m1 := m0.(writers := map["b" := Writer(1, [], false)]);
    var m2 := m0.(writers := map["b" := Writer(1, [7], false)], part := SECOND.part);
    assert Next(u, H, m0, Begin("b", 1)) == Some(m1);
    assert Offset(u, 1) == 0x10_0000;
    assert [] + [7] == [7] && m1.writers["b" := Writer(1, [7], false)] == m2.writers;
    assert Next(u, H, m1, Write("b", [7])) == Some(m2);
    assert m2.writers - {"b"} == map[];
    assert Next(u, H, m2, Record("b", [7])) == Some(SECOND);
    hide Next;
    var es := [Begin("b", 1), Write("b", [7]), Record("b", [7])];
    assert es[..2][..1] == es[..1] && es[..1][..0] == [];
    assert After(u, H, m0, es[..1]) == Some(m1);
    assert After(u, H, m0, es[..2]) == Some(m2);
  }

  /** A run in which an overlong first chunk ruins the recorded second chunk; here the
      checksum is the identity. */
  lemma OverlongBodyCorrupts()
    ensures WellFormed(TWO_CHUNKS)
    ensures var H: Bytes -> Hash := b => b;
      var es := [Begin("b", 1), Write("b", [7]), Record("b", [7])] + [Begin("a", 0), Write("a", BIG)];
      var r := After(TWO_CHUNKS, H, Fresh(None), es);
      && r.Some? && 1 in r.value.chunks && r.value.part.Some? && |r.value.part.value| == 0x10_0001
      && r.value.chunks[1] != H(r.value.part.value[0x10_0000..])
  {
    hide Next, Overwrite, Size, Offset, WellFormed;
    var u, H: Bytes -> Hash := TWO_CHUNKS, b => b;
    SecondRecorded(H);
    OverlongSteps(H);
    OverlongPart();
    var first := [Begin("b", 1), Write("b", [7]), Record("b", [7])];
    var es := first + [Begin("a", 0), Write("a", BIG)];
    assert es[..4] == first + [Begin("a", 0)] && es[..4][..3] == first;
    assert After(u, H, Fresh(None), es[..4]) == Some(SECOND.(writers := map["a" := Writer(0, [], false)]));
  }

  const BIG: Bytes := Zeros(0x10_0001)

  lemma OverlongSteps(H: Bytes -> Hash)
    requires WellFormed(TWO_CHUNKS)
    ensures var m := SECOND.(writers := map["a" := Writer(0, [], false)]);
      && Next(TWO_CHUNKS, H, SECOND, Begin("a", 0)) == Some(m)
      && Next(TWO_CHUNKS, H, m, Write("a", BIG)) ==
           Some(m.(writers := map["a" := Writer(0, BIG, false)], part := Some(Overwrite(SECOND.part.value, 0, BIG))))
  {
    hide Overwrite;
    var u := TWO_CHUNKS;
    BoundsExist(u, 0);
    var m := SECOND.(writers := map["a" := Writer(0, [], false)]);
    assert Next(u, H, SECOND, Begin("a", 0)) == Some(m);
    assert Offset(u, 0) == 0 && [] + BIG == BIG;
    assert m.writers["a" := Writer(0, BIG, false)] == map["a" := Writer(0, BIG, false)];
  }

  lemma OverlongPart()
    ensures var q := Overwrite(SECOND.part.value, 0, BIG); |q| == 0x10_0001 && q[0x10_0000..] == [0]
  {
    var q := Overwrite(SECOND.part.value, 0, BIG);
    assert |SECOND.part.value| == 0x10_0001;
    assert q[0x10_0000] == 0;
  }
}
