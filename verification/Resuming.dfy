/** An upload that was interrupted can be resumed: once the missing chunks of a file are
    sent, completion publishes exactly that file. */
module Resuming {
  import opened World
  import opened Chunks
  import opened UploadMachine

  /** Chunk `i` of the file `b`. */
  function Slice(u: Upload, b: Bytes, i: nat): Bytes
    requires WellFormed(u) && |b| == u.totalSize as int && i < u.totalChunks as int
  {
    RegionInside(u, i);
    b[Offset(u, i)..Offset(u, i) + Size(u, i)]
  }

  lemma RegionInside(u: Upload, i: nat)
    requires WellFormed(u) && i < u.totalChunks as int
    ensures 0 < Size(u, i) && Offset(u, i) + Size(u, i) <= u.totalSize as int
  {
    hide WellFormed, ChunkBounds, Offset, Size;
    RegionEnds(u, i);
    var last := u.totalChunks as int - 1;
    RegionEnds(u, last);
    if i < last { RegionsApart(u, i, last); }
  }

  /** One PutChunk call: the body in one piece. */
  function Send(u: Upload, H: Bytes -> Hash, b: Bytes, t: Id, i: nat): seq<Step>
    requires WellFormed(u) && |b| == u.totalSize as int && i < u.totalChunks as int
  {
    [Begin(t, i as int64), Write(t, Slice(u, b, i)), Record(t, H(Slice(u, b, i)))]
  }

  /** The calls for the indices below `k` that are in `want`, in index order. */
  function SendAll(u: Upload, H: Bytes -> Hash, b: Bytes, t: Id, want: set<nat>, k: nat): seq<Step>
    requires WellFormed(u) && |b| == u.totalSize as int && k <= u.totalChunks as int
  {
    if k == 0 then []
    else SendAll(u, H, b, t, want, k - 1) + if k - 1 in want then Send(u, H, b, t, k - 1) else []
  }

  /** The steps of one Complete call. */
  const COMPLETE: seq<Step> := [Lock, Verify, Prepare, Publish, Finish]

  /** Idle and pending, and what has been recorded so far belongs to the file. */
  ghost predicate Resumable(u: Upload, m: Machine, b: Bytes)
    requires WellFormed(u) && |b| == u.totalSize as int
  {
    && m.status == Pending && m.holder.Free? && m.writers == map[] && m.part.Some?
    && (forall i | i in m.accepted :: i < u.totalChunks as int && m.accepted[i] == Slice(u, b, i))
  }

  /** Fitting bodies never make the part longer than the file, and a finalizing upload has
      its part or its published file. */
  ghost predicate Sized(u: Upload, m: Machine) {
    && (m.part.Some? ==> |m.part.value| <= u.totalSize as int)
    && (m.status == Finalizing ==> m.part.Some? || m.published.Some?)
  }

  ghost predicate Ready(u: Upload, H: Bytes -> Hash, m: Machine, b: Bytes)
    requires WellFormed(u) && |b| == u.totalSize as int
  {
    Inv(u, m, H) && Sized(u, m) && Resumable(u, m, b)
  }

  /****** one chunk ******/

  lemma BeginOne(u: Upload, H: Bytes -> Hash, m: Machine, b: Bytes, t: Id, i: nat)
    requires WellFormed(u) && |b| == u.totalSize as int && Resumable(u, m, b) && i < u.totalChunks as int
    ensures Next(u, H, m, Begin(t, i as int64)) == Some(m.(writers := map[t := Writer(i, [], i in m.chunks)]))
  {
    hide WellFormed, RegionsHash, Complete, Survives, Overwrite, Offset, Size, Slice, ChunkBounds;
    BoundsExist(u, i as int64);
  }

  lemma WriteOne(u: Upload, H: Bytes -> Hash, m: Machine, w: Writer, t: Id, data: Bytes)
    requires WellFormed(u) && m.writers == map[t := w] && w.index < u.totalChunks as int && w.body == [] && m.part.Some?
    requires |data| == Size(u, w.index) && |m.part.value| <= u.totalSize as int
    ensures Fits(u, m, Write(t, data))
    ensures var n := Next(u, H, m, Write(t, data));
      && n.Some? && n.value.part.Some? && |n.value.part.value| <= u.totalSize as int
      && n.value == m.(writers := map[t := w.(body := data)], part := n.value.part)
  {
    hide WellFormed, RegionsHash, Complete, Survives, ChunkBounds, Offset, Size;
    RegionInside(u, w.index);
    assert [] + data == data;
  }

  lemma RecordOne(u: Upload, H: Bytes -> Hash, m: Machine, w: Writer, t: Id)
    requires WellFormed(u) && m.writers == map[t := w] && w.index < u.totalChunks as int && |w.body| == Size(u, w.index)
    requires w.recorded <==> w.index in m.chunks
    ensures Next(u, H, m, Record(t, H(w.body))) == Some(
      if w.recorded then m.(writers := map[])
      else m.(writers := map[], chunks := m.chunks[w.index := H(w.body)], accepted := m.accepted[w.index := w.body]))
  {
    hide WellFormed, RegionsHash, Complete, Survives, ChunkBounds, Offset, Size;
    assert m.writers - {t} == map[];
  }

  /** Whether or not the chunk was recorded before, it is afterwards, and nothing else changes. */
  lemma SendOne(u: Upload, H: Bytes -> Hash, m: Machine, b: Bytes, t: Id, i: nat)
    requires WellFormed(u) && |b| == u.totalSize as int && Ready(u, H, m, b) && i < u.totalChunks as int
    ensures AllFit(u, H, m, Send(u, H, b, t, i))
    ensures var n := After(u, H, m, Send(u, H, b, t, i));
      && n.Some? && Ready(u, H, n.value, b)
      && n.value == m.(part := n.value.part, chunks := m.chunks[i := H(Slice(u, b, i))], accepted := m.accepted[i := Slice(u, b, i)])
  {
    hide WellFormed, Next, Inv, Fits, Slice, Size, Offset, Sized, Resumable, After, AllFit;
    var data := Slice(u, b, i);
    var begin, write, record := Begin(t, i as int64), Write(t, data), Record(t, H(data));
    SliceSize(u, b, i);
    BeginOne(u, H, m, b, t, i);
    var m1 := m.(writers := map[t := Writer(i, [], i in m.chunks)]);
    FitsAnyhow(u, m, begin);
    NoSteps(u, H, m);
    OneMore(u, H, m, [], begin);
    StepKeeps(u, H, m, begin);
    PartLength(u, m, b);
    WriteOne(u, H, m1, m1.writers[t], t, data);
    var m2 := Next(u, H, m1, write).value;
    OneMore(u, H, m, [] + [begin], write);
    StepKeeps(u, H, m1, write);
    RecordOne(u, H, m2, m2.writers[t], t);
    var m3 := Next(u, H, m2, record).value;
    FitsAnyhow(u, m2, record);
    OneMore(u, H, m, [] + [begin] + [write], record);
    StepKeeps(u, H, m2, record);
    assert [] + [begin] + [write] + [record] == Send(u, H, b, t, i);
    if i in m.chunks { AlreadyThere(u, H, m, b, i); }
    SentReady(u, H, m, m3, b, i);
  }

  lemma SentReady(u: Upload, H: Bytes -> Hash, m: Machine, n: Machine, b: Bytes, i: nat)
    requires WellFormed(u) && |b| == u.totalSize as int && Ready(u, H, m, b) && i < u.totalChunks as int
    requires n == m.(part := n.part, chunks := m.chunks[i := H(Slice(u, b, i))], accepted := m.accepted[i := Slice(u, b, i)], writers := map[])
    requires n.part.Some? && |n.part.value| <= u.totalSize as int && Inv(u, n, H)
    ensures Ready(u, H, n, b) && n.writers == m.writers
  {
    hide WellFormed, Inv, Slice;
  }

  lemma PartLength(u: Upload, m: Machine, b: Bytes)
    requires WellFormed(u) && |b| == u.totalSize as int && Sized(u, m) && Resumable(u, m, b)
    ensures m.part.Some? && |m.part.value| <= u.totalSize as int && m.writers == map[]
  {
    hide WellFormed, Slice;
  }

  lemma SliceSize(u: Upload, b: Bytes, i: nat)
    requires WellFormed(u) && |b| == u.totalSize as int && i < u.totalChunks as int
    ensures |Slice(u, b, i)| == Size(u, i)
  {
    hide WellFormed, Size, Offset;
    RegionInside(u, i);
  }

  lemma FitsAnyhow(u: Upload, m: Machine, e: Step)
    requires WellFormed(u) && !e.Write?
    ensures Fits(u, m, e)
  {
  }

  lemma AlreadyThere(u: Upload, H: Bytes -> Hash, m: Machine, b: Bytes, i: nat)
    requires WellFormed(u) && |b| == u.totalSize as int && Ready(u, H, m, b) && i in m.chunks
    ensures i < u.totalChunks as int && m.chunks[i := H(Slice(u, b, i))] == m.chunks && m.accepted[i := Slice(u, b, i)] == m.accepted
  {
    hide WellFormed, Slice, Size, Offset, PartOk, WritersOk, HolderOk, PublishedOk;
  }

  /****** all chunks ******/

  lemma {:induction false} RunsJoin(u: Upload, H: Bytes -> Hash, m: Machine, es: seq<Step>, more: seq<Step>)
    requires WellFormed(u) && After(u, H, m, es).Some? && AllFit(u, H, m, es) && AllFit(u, H, After(u, H, m, es).value, more)
    ensures After(u, H, m, es + more) == After(u, H, After(u, H, m, es).value, more) && AllFit(u, H, m, es + more)
  {
    hide WellFormed, Next, Fits;
    if more == [] {
      assert es + more == es;
    } else {
      assert (es + more)[..|es + more| - 1] == es + more[..|more| - 1];
      RunsJoin(u, H, m, es, more[..|more| - 1]);
    }
  }

  lemma {:induction false} SentAll(u: Upload, H: Bytes -> Hash, m: Machine, b: Bytes, t: Id, want: set<nat>, k: nat)
    requires WellFormed(u) && |b| == u.totalSize as int && Ready(u, H, m, b) && k <= u.totalChunks as int
    requires forall i: nat | i < u.totalChunks as int :: i in m.chunks || i in want
    ensures AllFit(u, H, m, SendAll(u, H, b, t, want, k))
    ensures var n := After(u, H, m, SendAll(u, H, b, t, want, k));
      && n.Some? && Ready(u, H, n.value, b) && n.value.whole == m.whole
      && m.chunks.Keys <= n.value.chunks.Keys && forall i: nat | i < k :: i in n.value.chunks
  {
    hide WellFormed, Next, Inv, Fits, Slice, Size, Offset, Resumable, Send, After, AllFit;
    if k == 0 {
      NoSteps(u, H, m);
    } else {
      SentAll(u, H, m, b, t, want, k - 1);
      var before := SendAll(u, H, b, t, want, k - 1);
      var n := After(u, H, m, before).value;
      if k - 1 in want {
        SendOne(u, H, n, b, t, k - 1);
        RunsJoin(u, H, m, before, Send(u, H, b, t, k - 1));
      } else {
        assert before + [] == before;
      }
    }
  }

  lemma NoSteps(u: Upload, H: Bytes -> Hash, m: Machine)
    requires WellFormed(u)
    ensures After(u, H, m, []) == Some(m) && AllFit(u, H, m, [])
  {
  }

  /****** completion ******/

  /** With every chunk of the file recorded, the part is the file. */
  lemma PartIsFile(u: Upload, H: Bytes -> Hash, m: Machine, b: Bytes)
    requires WellFormed(u) && |b| == u.totalSize as int && Ready(u, H, m, b) && Complete(u, m)
    ensures m.part == Some(b) && RegionsHash(u, m, H)
  {
    hide WellFormed, ChunkBounds, Size, Offset, Slice, HasRegion, WritersOk, HolderOk, PublishedOk, RegionsHash;
    Counted(u);
    PartLongEnough(u, H, m);
    forall i: nat | i < u.totalChunks as int ensures i in m.accepted && HasRegion(b, Offset(u, i), m.accepted[i]) {
      SliceIsRegion(u, b, i);
    }
    PrefixIsConcat(u, m.part.value, m.accepted, u.totalChunks as int);
    PrefixIsConcat(u, b, m.accepted, u.totalChunks as int);
    assert m.part.value[..|m.part.value|] == m.part.value && b[..|b|] == b;
    SlicesHash(u, H, m, b);
  }

  lemma SliceIsRegion(u: Upload, b: Bytes, i: nat)
    requires WellFormed(u) && |b| == u.totalSize as int && i < u.totalChunks as int
    ensures HasRegion(b, Offset(u, i), Slice(u, b, i))
  {
    hide WellFormed, Size, Offset;
    RegionInside(u, i);
  }

  lemma SlicesHash(u: Upload, H: Bytes -> Hash, m: Machine, b: Bytes)
    requires WellFormed(u) && |b| == u.totalSize as int && m.part == Some(b) && RowsOk(u, m, H) && Resumable(u, m, b) && Complete(u, m)
    ensures RegionsHash(u, m, H)
  {
    hide WellFormed, ChunkBounds, Size, Offset;
    forall i: nat | i < u.totalChunks as int
      ensures Offset(u, i) + Size(u, i) <= |b| && H(b[Offset(u, i)..Offset(u, i) + Size(u, i)]) == m.chunks[i]
    {
      RegionInside(u, i);
    }
  }

  lemma PartLongEnough(u: Upload, H: Bytes -> Hash, m: Machine)
    requires WellFormed(u) && RowsOk(u, m, H) && PartOk(u, m) && m.part.Some? && Complete(u, m)
    ensures |m.part.value| >= u.totalSize as int
  {
    hide WellFormed, ChunkBounds, Size, Offset;
    Counted(u);
    if u.totalChunks > 0 {
      var last := u.totalChunks as int - 1;
      RegionEnds(u, last);
      assert last in m.accepted && HasRegion(m.part.value, Offset(u, last), m.accepted[last]);
    }
  }

  lemma CompleteRuns(u: Upload, H: Bytes -> Hash, m: Machine, b: Bytes)
    requires WellFormed(u) && |b| == u.totalSize as int && Ready(u, H, m, b) && Complete(u, m)
    requires m.whole.Some? ==> m.whole.value == H(b)
    ensures AllFit(u, H, m, COMPLETE)
    ensures After(u, H, m, COMPLETE) == Some(m.(status := Completed, whole := Some(H(b)), part := None, published := Some(b)))
  {
    hide WellFormed, RegionsHash, Complete, Survives, ChunkBounds, Offset, Size, Overwrite, Resumable, After, AllFit;
    PartIsFile(u, H, m, b);
    Idle(u, m, b);
    var m1 := m.(holder := Locked);
    var m2 := m.(holder := Verified(H(b)));
    var m3 := m.(status := Finalizing, whole := Some(H(b)), holder := Prepared);
    var m4 := m3.(published := Some(b), part := None, holder := Published);
    LockedVerifies(u, H, m, b);
    var m5 := m4.(status := Completed, holder := Free);
    StepByStep(u, H, [m, m1, m2, m3, m4, m5], COMPLETE);
  }

  lemma Idle(u: Upload, m: Machine, b: Bytes)
    requires WellFormed(u) && |b| == u.totalSize as int && Resumable(u, m, b)
    ensures m.status == Pending && m.holder.Free? && m.writers == map[] && m.part.Some?
  {
  }

  lemma LockedVerifies(u: Upload, H: Bytes -> Hash, m: Machine, b: Bytes)
    requires WellFormed(u) && |b| == u.totalSize as int && m.status == Pending && m.part == Some(b) && Complete(u, m) && RegionsHash(u, m, H)
    requires m.whole.Some? ==> m.whole.value == H(b)
    ensures Next(u, H, m.(holder := Locked), Verify) == Some(m.(holder := Verified(H(b))))
  {
    hide WellFormed, ChunkBounds, Offset, Size, Overwrite, Survives;
  }

  /** A run given by the states it goes through. */
  lemma {:induction false} StepByStep(u: Upload, H: Bytes -> Hash, ms: seq<Machine>, es: seq<Step>)
    requires WellFormed(u) && |ms| == |es| + 1
    requires forall i | 0 <= i < |es| :: !es[i].Write? && Next(u, H, ms[i], es[i]) == Some(ms[i + 1])
    ensures After(u, H, ms[0], es) == Some(ms[|es|]) && AllFit(u, H, ms[0], es)
  {
    hide WellFormed, Next;
    if es != [] { StepByStep(u, H, ms[..|es|], es[..|es| - 1]); }
  }

  /****** sizes over whole runs ******/

  lemma StepSized(u: Upload, H: Bytes -> Hash, m: Machine, e: Step)
    requires WellFormed(u) && Inv(u, m, H) && Sized(u, m) && Next(u, H, m, e).Some? && Fits(u, m, e)
    ensures Sized(u, Next(u, H, m, e).value)
  {
    hide WellFormed, ChunkBounds, RegionsHash, Complete, Offset, Size, RowsOk, PartOk, WritersOk, PublishedOk, IsWhole;
    if e.Write? && !m.writers[e.thread].recorded { RegionInside(u, m.writers[e.thread].index); }
  }

  lemma {:induction false} RunSized(u: Upload, H: Bytes -> Hash, whole: Option<Hash>, es: seq<Step>)
    requires WellFormed(u) && After(u, H, Fresh(whole), es).Some? && AllFit(u, H, Fresh(whole), es)
    ensures Sized(u, After(u, H, Fresh(whole), es).value)
  {
    hide WellFormed, Next, Fits;
    if es == [] {
      Counted(u);
    } else {
      RunSized(u, H, whole, es[..|es| - 1]);
      RunKeeps(u, H, whole, es[..|es| - 1]);
      hide Inv, Sized;
      StepSized(u, H, After(u, H, Fresh(whole), es[..|es| - 1]).value, es[|es| - 1]);
    }
  }

  /****** theorems ******/

  ghost predicate Reached(u: Upload, H: Bytes -> Hash, whole: Option<Hash>, es: seq<Step>, m: Machine)
    requires WellFormed(u)
  {
    After(u, H, Fresh(whole), es) == Some(m) && AllFit(u, H, Fresh(whole), es)
  }

  /** After any run, crashes and abandoned writers among it, that leaves the upload idle and
      pending with chunks of the file `b` alone recorded: sending the missing chunks (and any
      others once more) and completing publishes exactly `b`. */
  lemma ResumePublishes(u: Upload, H: Bytes -> Hash, whole: Option<Hash>, es: seq<Step>, m: Machine, b: Bytes, t: Id, want: set<nat>)
    requires WellFormed(u) && Reached(u, H, whole, es, m) && |b| == u.totalSize as int && Resumable(u, m, b)
    requires m.whole.Some? ==> m.whole.value == H(b)
    requires forall i: nat | i < u.totalChunks as int :: i in m.chunks || i in want
    ensures exists n ::
      && Reached(u, H, whole, es + (SendAll(u, H, b, t, want, u.totalChunks as int) + COMPLETE), n)
      && n.status == Completed && n.published == Some(b) && n.whole == Some(H(b))
  {
    hide WellFormed, Next, Inv, Fits, Slice, Size, Offset, After, AllFit, SendAll, Fresh, Resumable;
    RunKeeps(u, H, whole, es);
    RunSized(u, H, whole, es);
    Counted(u);
    var sends := SendAll(u, H, b, t, want, u.totalChunks as int);
    SentAll(u, H, m, b, t, want, u.totalChunks as int);
    var sent := After(u, H, m, sends).value;
    CompleteRuns(u, H, sent, b);
    RunsJoin(u, H, m, sends, COMPLETE);
    RunsJoin(u, H, Fresh(whole), es, sends + COMPLETE);
    var n := sent.(status := Completed, whole := Some(H(b)), part := None, published := Some(b));
    assert Reached(u, H, whole, es + (sends + COMPLETE), n);
  }

  /** Nobody is inside any more. */
  function Idled(m: Machine): (n: Machine)
    ensures n.status == m.status && n.part == m.part && n.published == m.published
  {
    m.(writers := map[], holder := Free)
  }

  lemma CrashIdles(u: Upload, H: Bytes -> Hash, whole: Option<Hash>, es: seq<Step>, m: Machine)
    requires WellFormed(u) && Reached(u, H, whole, es, m)
    ensures Reached(u, H, whole, es + [Crash(m.part)], Idled(m))
    ensures m.status == Finalizing && m.part.None? ==> m.published.Some?
  {
    hide WellFormed, Inv, ChunkBounds, Fresh, RegionsHash, Complete, Overwrite, After, AllFit, Size, Offset;
    RunSized(u, H, whole, es);
    FitsAnyhow(u, m, Crash(m.part));
    OneMore(u, H, Fresh(whole), es, Crash(m.part));
  }

  lemma Further(u: Upload, H: Bytes -> Hash, whole: Option<Hash>, es: seq<Step>, ms: seq<Machine>, more: seq<Step>)
    requires WellFormed(u) && |ms| == |more| + 1 && Reached(u, H, whole, es, ms[0])
    requires forall i | 0 <= i < |more| :: !more[i].Write? && Next(u, H, ms[i], more[i]) == Some(ms[i + 1])
    ensures Reached(u, H, whole, es + more, ms[|more|])
  {
    hide WellFormed, Next, Fresh, After, AllFit;
    StepByStep(u, H, ms, more);
    RunsJoin(u, H, Fresh(whole), es, more);
  }

  lemma FinishLeft(u: Upload, H: Bytes -> Hash, whole: Option<Hash>, es: seq<Step>, m: Machine)
    requires WellFormed(u) && Reached(u, H, whole, es, m) && m == Idled(m)
    requires m.status == Finalizing && m.part.None? && m.published.Some?
    ensures Reached(u, H, whole, es + [Lock, Finish], m.(status := Completed))
  {
    hide WellFormed, RegionsHash, Complete, Overwrite, Survives, ChunkBounds, Reached;
    Further(u, H, whole, es, [m, m.(holder := Locked), m.(status := Completed)], [Lock, Finish]);
  }

  lemma ResetLeft(u: Upload, H: Bytes -> Hash, whole: Option<Hash>, es: seq<Step>, m: Machine)
    requires WellFormed(u) && Reached(u, H, whole, es, m) && m == Idled(m) && m.status == Finalizing && m.part.Some?
    ensures Reached(u, H, whole, es + [Lock, Reset], m.(status := Pending))
  {
    hide WellFormed, RegionsHash, Complete, Overwrite, Survives, ChunkBounds, Reached;
    Further(u, H, whole, es, [m, m.(holder := Locked), m.(status := Pending)], [Lock, Reset]);
  }

  lemma RetireLeft(u: Upload, H: Bytes -> Hash, whole: Option<Hash>, es: seq<Step>, m: Machine, status: Status)
    requires WellFormed(u) && Reached(u, H, whole, es, m) && m == Idled(m) && m.status == Pending && status in {Cancelled, Expired}
    ensures Reached(u, H, whole, es + [Lock, RemovePart, Retire(status)], m.(status := status, part := None, chunks := map[], accepted := map[]))
  {
    hide WellFormed, RegionsHash, Complete, Overwrite, Survives, ChunkBounds, Reached;
    var gone := m.(part := None, holder := Locked);
    Further(u, H, whole, es, [m, m.(holder := Locked), gone, m.(status := status, part := None, chunks := map[], accepted := map[])],
            [Lock, RemovePart, Retire(status)]);
  }

  /** A crash at any moment leaves an upload that the next steps finish, take up again, or
      cancel, unless it was at an end already. */
  lemma CrashLeavesAWay(u: Upload, H: Bytes -> Hash, whole: Option<Hash>, es: seq<Step>, m: Machine)
    requires WellFormed(u) && Reached(u, H, whole, es, m)
    ensures Reached(u, H, whole, es + [Crash(m.part)], Idled(m))
    ensures m.status == Finalizing && m.part.None? ==>
      m.published.Some? && Reached(u, H, whole, es + [Crash(m.part)] + [Lock, Finish], Idled(m).(status := Completed))
    ensures m.status == Finalizing && m.part.Some? ==>
      Reached(u, H, whole, es + [Crash(m.part)] + [Lock, Reset], Idled(m).(status := Pending))
    ensures forall s | s in {Cancelled, Expired} && m.status == Pending ::
      Reached(u, H, whole, es + [Crash(m.part)] + [Lock, RemovePart, Retire(s)],
              Idled(m).(status := s, part := None, chunks := map[], accepted := map[]))
  {
    hide WellFormed, Next, Inv, Fresh, After, AllFit, Reached;
    CrashIdles(u, H, whole, es, m);
    var crashed := es + [Crash(m.part)];
    if m.status == Finalizing && m.part.None? { FinishLeft(u, H, whole, crashed, Idled(m)); }
    if m.status == Finalizing && m.part.Some? { ResetLeft(u, H, whole, crashed, Idled(m)); }
    forall s | s in {Cancelled, Expired} && m.status == Pending
      ensures Reached(u, H, whole, crashed + [Lock, RemovePart, Retire(s)], Idled(m).(status := s, part := None, chunks := map[], accepted := map[]))
    {
      RetireLeft(u, H, whole, crashed, Idled(m), s);
    }
  }

  /** Whoever is inside can leave at any moment, and nothing else changes. */
  lemma AnyoneCanLeave(u: Upload, H: Bytes -> Hash, whole: Option<Hash>, es: seq<Step>, m: Machine)
    requires WellFormed(u) && Reached(u, H, whole, es, m)
    ensures !m.holder.Free? ==> Reached(u, H, whole, es + [Unlock], m.(holder := Free))
    ensures forall t | t in m.writers :: Reached(u, H, whole, es + [Leave(t)], m.(writers := m.writers - {t}))
  {
    hide WellFormed, ChunkBounds, RegionsHash, Complete, Overwrite, Survives, Reached;
    if !m.holder.Free? { Further(u, H, whole, es, [m, m.(holder := Free)], [Unlock]); }
    forall t | t in m.writers ensures Reached(u, H, whole, es + [Leave(t)], m.(writers := m.writers - {t})) {
      Further(u, H, whole, es, [m, m.(writers := m.writers - {t})], [Leave(t)]);
    }
  }
}
