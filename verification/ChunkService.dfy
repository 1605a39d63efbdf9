/** PutChunk as the service runs it: one thread's steps, with the steps of all other
    threads of the same upload between any two of them. */
module ChunkService {
  import opened World
  import opened Chunks
  import opened UploadMachine

  datatype PutResult = Refused | Failed | WrongLength | ChecksumMismatch | Conflict | Idempotent | Recorded

  /** A step of another thread, other than the end of the process. */
  predicate ByOthers(e: Step, t: Id) {
    match e
    case Begin(s, _) => s != t
    case Write(s, _) => s != t
    case Record(s, _) => s != t
    case Leave(s) => s != t
    case Crash(_) => false
    case _ => true
  }

  /** The writer, and the row and the recorded body of its index, are as before. */
  predicate Held(m: Machine, n: Machine, t: Id)
    requires t in m.writers
  {
    && t in n.writers && n.writers[t] == m.writers[t]
    && Kept(m.chunks, n.chunks, m.writers[t].index) && Kept(m.accepted, n.accepted, m.writers[t].index)
  }

  predicate Kept<V(==)>(a: map<nat, V>, b: map<nat, V>, i: nat) {
    if i in a then i in b && b[i] == a[i] else i !in b
  }

  /** A thread inside PutChunk keeps everyone else away from its index, and keeps
      completion, cancellation and expiry away from the upload. */
  lemma WriterUndisturbed(u: Upload, H: Bytes -> Hash, m: Machine, e: Step, t: Id)
    requires WellFormed(u) && Inv(u, m, H) && t in m.writers && ByOthers(e, t) && Next(u, H, m, e).Some?
    ensures Held(m, Next(u, H, m, e).value, t)
  {
    hide WellFormed, ChunkBounds, RowsOk, PartOk, HolderOk, PublishedOk, RegionsHash, Complete, Survives, Size, Offset, Overwrite, WriterOk;
    assert m.holder.Free? && m.writers != map[];
  }

  /** The index exists, the upload is pending, both locks are free, and an index without
      a row finds the part. */
  predicate Startable(u: Upload, m: Machine, index: int64) {
    && ChunkBounds(u, index).Some? && m.status == Pending && m.holder.Free?
    && (forall s | s in m.writers :: m.writers[s].index != index as int)
    && ((index as int) in m.chunks || m.part.Some?)
  }

  lemma BeginEffect(u: Upload, H: Bytes -> Hash, m: Machine, t: Id, index: int64)
    requires WellFormed(u)
    ensures Next(u, H, m, Begin(t, index)).Some? <==> t !in m.writers && Startable(u, m, index)
    ensures Next(u, H, m, Begin(t, index)).Some? ==>
      var n := Next(u, H, m, Begin(t, index)).value;
      && ChunkBounds(u, index).Some? && m.status == Pending && 0 <= index < u.totalChunks && SizeOf(u, index) == Size(u, index as int)
      && t in n.writers && n.writers[t] == Writer(index as int, [], (index as int) in m.chunks)
      && n == m.(writers := m.writers[t := n.writers[t]])
  {
    hide WellFormed, RegionsHash, Complete, Survives, Overwrite;
    if ChunkBounds(u, index).Some? { BoundsAre(u, index); }
  }

  lemma WriteEffect(u: Upload, H: Bytes -> Hash, m: Machine, t: Id, data: Bytes)
    requires WellFormed(u) && t in m.writers && m.writers[t].index < u.totalChunks as int
    requires |m.writers[t].body| + |data| <= Size(u, m.writers[t].index)
    ensures Next(u, H, m, Write(t, data)).Some? <==> m.writers[t].recorded || m.part.Some?
    ensures Next(u, H, m, Write(t, data)).Some? ==>
      var n, w := Next(u, H, m, Write(t, data)).value, m.writers[t];
      && n == m.(part := n.part, writers := m.writers[t := w.(body := w.body + data)])
      && (m.part.Some? ==> n.part.Some?)
  {
    hide WellFormed, RegionsHash, Complete, Survives, Overwrite, ChunkBounds, Size, Offset;
  }

  lemma RecordEffect(u: Upload, H: Bytes -> Hash, m: Machine, t: Id, checksum: Hash)
    requires WellFormed(u) && t in m.writers && !m.writers[t].recorded && m.writers[t].index !in m.chunks
    ensures Next(u, H, m, Record(t, checksum)).Some? <==>
      m.writers[t].index < u.totalChunks as int && |m.writers[t].body| == Size(u, m.writers[t].index) && H(m.writers[t].body) == checksum
    ensures Next(u, H, m, Record(t, checksum)).Some? ==>
      var n, w := Next(u, H, m, Record(t, checksum)).value, m.writers[t];
      n == m.(writers := m.writers - {t}, chunks := m.chunks[w.index := checksum], accepted := m.accepted[w.index := w.body])
  {
    hide WellFormed, RegionsHash, Complete, Survives, Overwrite, ChunkBounds, Size, Offset;
  }

  /** An unrecorded writer's index has no row. */
  lemma NoRow(u: Upload, H: Bytes -> Hash, m: Machine, t: Id)
    requires WellFormed(u) && Inv(u, m, H) && t in m.writers && !m.writers[t].recorded
    ensures m.writers[t].index !in m.chunks
  {
    hide WellFormed, ChunkBounds, RowsOk, PartOk, HolderOk, PublishedOk, HasRegion, Size, Offset;
  }

  /** What one call that got its locks answers to this body. */
  function Outcome(u: Upload, H: Bytes -> Hash, m: Machine, index: int64, body: Bytes, checksum: Hash): PutResult
    requires WellFormed(u) && ChunkBounds(u, index).Some?
  {
    if |body| != SizeOf(u, index) then WrongLength
    else if H(body) != checksum then ChecksumMismatch
    else if (index as int) !in m.chunks then Recorded
    else if m.chunks[index as int] == checksum then Idempotent
    else Conflict
  }

  class Uploader {
    const u: Upload
    const H: Bytes -> Hash
    const whole: Option<Hash>
    /** No step faults, and no other thread steps in between. */
    const calm: bool
    var m: Machine
    ghost var log: seq<Step>

    /** The machine was reached by the logged steps, whose bodies all fit. */
    ghost predicate Valid()
      reads this
    {
      WellFormed(u) && After(u, H, Fresh(whole), log) == Some(m) && AllFit(u, H, Fresh(whole), log)
    }

    constructor (u: Upload, H: Bytes -> Hash, whole: Option<Hash>, calm: bool)
      requires WellFormed(u)
      ensures Valid() && m == Fresh(whole) && this.u == u && this.H == H && this.calm == calm
    {
      this.u, this.H, this.whole, this.calm, m, log := u, H, whole, calm, Fresh(whole), [];
    }

    /** Takes up after any run that fits. */
    constructor TakeOver(u: Upload, H: Bytes -> Hash, whole: Option<Hash>, calm: bool, m: Machine, ghost es: seq<Step>)
      requires WellFormed(u) && After(u, H, Fresh(whole), es) == Some(m) && AllFit(u, H, Fresh(whole), es)
      ensures Valid() && this.m == m && this.u == u && this.H == H && this.calm == calm
    {
      this.u, this.H, this.whole, this.calm, this.m, log := u, H, whole, calm, m, es;
    }

    /** One step, which may be impossible and may fault. */
    method Do(e: Step) returns (ok: bool)
      requires Valid() && Fits(u, m, e)
      modifies this
      ensures Valid() && Inv(u, m, H)
      ensures if ok then Next(u, H, old(m), e) == Some(m) else m == old(m)
      ensures calm ==> ok == Next(u, H, old(m), e).Some?
    {
      hide Inv, Next, Fits, WellFormed, After, AllFit;
      RunKeeps(u, H, whole, log);
      var next, fault: bool := Next(u, H, m, e), *;
      ok := next.Some? && (calm || !fault);
      if ok {
        StepKeeps(u, H, m, e);
        OneMore(u, H, Fresh(whole), log, e);
        m, log := next.value, log + [e];
      }
    }

    method Others(t: Id)
      requires Valid() && t in m.writers
      modifies this
      ensures Valid() && Inv(u, m, H) && Held(old(m), m, t)
      ensures calm ==> m == old(m)
    {
      hide Inv, Next, Fits, WellFormed, ByOthers, AllFit, After;
      RunKeeps(u, H, whole, log);
      var steps: seq<Step> := *;
      if calm { return; }
      for i := 0 to |steps|
        invariant Valid() && Inv(u, m, H) && t in m.writers && Held(old(m), m, t)
      {
        if ByOthers(steps[i], t) && Fits(u, m, steps[i]) {
          var before := m;
          var ok := Do(steps[i]);
          if ok {
            WriterUndisturbed(u, H, before, steps[i], t);
          }
        }
      }
    }

    method LeaveNow(t: Id)
      requires Valid() && t in m.writers
      modifies this
      ensures Valid() && m == old(m).(writers := old(m).writers - {t})
    {
      hide Inv, WellFormed, After, AllFit;
      OneMore(u, H, Fresh(whole), log, Leave(t));
      log := log + [Leave(t)];
      m := m.(writers := m.writers - {t});
    }

    /** The body arrives in pieces; the handler has cut it off at the size of the chunk. */
    method Receive(t: Id, pieces: seq<Bytes>, ghost body: Bytes) returns (ok: bool)
      requires Valid() && t in m.writers && m.writers[t].index < u.totalChunks as int && m.writers[t].body == []
      requires body == Flat(pieces) && |body| <= Size(u, m.writers[t].index)
      modifies this
      ensures Valid() && t in m.writers
      ensures var w := old(m.writers[t]);
        && m.writers[t].index == w.index && m.writers[t].recorded == w.recorded
        && Kept(old(m.chunks), m.chunks, w.index) && Kept(old(m.accepted), m.accepted, w.index)
        && (ok ==> m.writers[t].body == body)
      ensures calm ==> m == old(m).(part := m.part, writers := old(m.writers)[t := m.writers[t]])
      ensures calm && (old(m.writers[t]).recorded || old(m.part).Some?) ==> ok
    {
      hide Inv, WellFormed, ChunkBounds, After, AllFit, Size, Offset, Overwrite, RegionsHash, Complete, Survives, Valid;
      for i := 0 to |pieces|
        invariant Valid() && t in m.writers
        invariant var w := old(m.writers[t]);
          && m.writers[t] == w.(body := Flat(pieces[..i]))
          && Kept(old(m.chunks), m.chunks, w.index) && Kept(old(m.accepted), m.accepted, w.index)
        invariant calm ==> m == old(m).(part := m.part, writers := old(m.writers)[t := m.writers[t]])
        invariant calm && old(m.part).Some? ==> m.part.Some?
      {
        Others(t);
        FlatMore(pieces, i);
        assert WellFormed(u) by { Formed(); }
        WriteEffect(u, H, m, t, pieces[i]);
        ok := Do(Write(t, pieces[i]));
        if !ok { return; }
      }
      assert pieces[..|pieces|] == pieces;
      ok := true;
    }

    method PutChunk(t: Id, index: int64, pieces: seq<Bytes>, checksum: Hash) returns (r: PutResult)
      requires Valid() && t !in m.writers
      requires ChunkBounds(u, index).Some? ==> |Flat(pieces)| <= ChunkBounds(u, index).value.1 as int
      modifies this
      ensures Valid() && t !in m.writers
      ensures r == Refused <== !Startable(u, old(m), index)
      ensures calm ==> r == if !Startable(u, old(m), index) then Refused else Outcome(u, H, old(m), index, Flat(pieces), checksum)
      ensures calm ==>
        var i, body := index as int, Flat(pieces);
        m == if r == Recorded then old(m).(part := m.part, chunks := old(m.chunks)[i := checksum], accepted := old(m.accepted)[i := body])
             else old(m).(part := m.part)
      ensures r != Refused ==>
        var i, body := index as int, Flat(pieces);
        && 0 <= i < u.totalChunks as int
        && (r != Recorded ==> Kept(old(m.chunks), m.chunks, i))
        && (r == WrongLength ==> |body| != Size(u, i))
        && (r == ChecksumMismatch ==> |body| == Size(u, i) && H(body) != checksum)
        && (r == Conflict ==> i in m.chunks && H(body) == checksum && m.chunks[i] != checksum)
        && (r == Idempotent ==> i in m.chunks && H(body) == checksum && m.chunks[i] == checksum)
        && (r == Recorded ==>
              && i !in old(m.chunks) && i in m.chunks && i in m.accepted
              && m.accepted[i] == body && |body| == Size(u, i) && m.chunks[i] == H(body) == checksum)
    {
      hide Inv, Next, WellFormed, ChunkBounds, After, AllFit, Valid, Size;
      assert WellFormed(u) by { Formed(); }
      BeginEffect(u, H, m, t, index);
      var ok := Do(Begin(t, index));
      if !ok { return Refused; }
      ok := Receive(t, pieces, Flat(pieces));
      if !ok {
        LeaveNow(t);
        return Failed;
      }
      Others(t);
      var w := m.writers[t];
      if |w.body| != SizeOf(u, index) {
        LeaveNow(t);
        return WrongLength;
      }
      if H(w.body) != checksum {
        LeaveNow(t);
        return ChecksumMismatch;
      }
      if w.recorded {
        r := if m.chunks[w.index] == checksum then Idempotent else Conflict;
        LeaveNow(t);
        return;
      }
      NoRow(u, H, m, t);
      RecordEffect(u, H, m, t, checksum);
      ok := Do(Record(t, checksum));
      if !ok {
        LeaveNow(t);
        return Failed;
      }
      return Recorded;
    }

    lemma Formed()
      requires Valid()
      ensures WellFormed(u)
    {
    }
  }

  /** The pieces of a body put together. */
  function Flat(pieces: seq<Bytes>): Bytes {
    if pieces == [] then [] else Flat(pieces[..|pieces| - 1]) + pieces[|pieces| - 1]
  }

  lemma FlatMore(pieces: seq<Bytes>, i: nat)
    requires i < |pieces|
    ensures Flat(pieces[..i + 1]) == Flat(pieces[..i]) + pieces[i]
    ensures |Flat(pieces[..i + 1])| <= |Flat(pieces)|
  {
    assert pieces[..i + 1][..i] == pieces[..i];
    FlatPrefix(pieces, i + 1);
  }

  lemma {:induction false} FlatPrefix(pieces: seq<Bytes>, i: nat)
    requires i <= |pieces|
    ensures |Flat(pieces[..i])| <= |Flat(pieces)|
  {
    if i == |pieces| {
      assert pieces[..i] == pieces;
    } else {
      var n := |pieces| - 1;
      FlatPrefix(pieces[..n], i);
      assert pieces[..n][..i] == pieces[..i];
    }
  }

  function SizeOf(u: Upload, index: int64): nat
    requires ChunkBounds(u, index).Some?
  {
    ChunkBounds(u, index).value.1 as int
  }

  lemma BoundsAre(u: Upload, index: int64)
    requires WellFormed(u) && ChunkBounds(u, index).Some?
    ensures 0 <= index < u.totalChunks && SizeOf(u, index) == Size(u, index as int)
  {
    BoundsExist(u, index);
  }
}
