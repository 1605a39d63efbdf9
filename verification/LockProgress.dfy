/** When a thread of the lock table can go on, and that all threads always get out. */
module LockProgress {
  import World
  import opened Locks

  /** The one step that a thread does next. */
  function Move(t: Thread, stage: Stage): Step {
    match stage
    case WantRead => ReadLock(t)
    case HasRead => TakeChunk(t)
    case WantChunk => LockChunk(t)
    case HoldsChunk => UnlockChunk(t)
    case ReleasedChunk => DropChunk(t)
    case DroppedChunk => ReadUnlock(t)
    case WantWrite => WriteLock(t)
    case HoldsWrite => WriteUnlock(t)
    case ReleasedRead | ReleasedWrite => Release(t)
  }

  function NextStage(stage: Stage): Stage {
    match stage
    case WantRead => HasRead
    case HasRead => WantChunk
    case WantChunk => HoldsChunk
    case HoldsChunk => ReleasedChunk
    case ReleasedChunk => DroppedChunk
    case DroppedChunk => ReleasedRead
    case WantWrite => HoldsWrite
    case _ => ReleasedWrite
  }

  function StepsLeft(stage: Stage): nat {
    match stage
    case WantRead => 7
    case HasRead => 6
    case WantChunk => 5
    case HoldsChunk => 4
    case ReleasedChunk => 3
    case DroppedChunk => 2
    case ReleasedRead => 1
    case WantWrite => 3
    case HoldsWrite => 2
    case ReleasedWrite => 1
  }

  predicate HoldsId(threads: map<Thread, Pc>, x: Thread, id: World.Id) {
    x in threads && threads[x].id == id && threads[x].stage.HoldsWrite?
  }

  predicate ReadsId(threads: map<Thread, Pc>, x: Thread, id: World.Id) {
    x in threads && threads[x].id == id && Reading(threads[x])
  }

  predicate HoldsIndex(threads: map<Thread, Pc>, x: Thread, id: World.Id, index: int) {
    x in threads && threads[x].id == id && threads[x].index == index && threads[x].stage.HoldsChunk?
  }

  /** A chunk request waits for the exclusive holder of its id and then for the holder of
      its index; an exclusive request waits for every holder of its id. Nothing else waits. */
  ghost predicate Waits(threads: map<Thread, Pc>, t: Thread)
    requires t in threads
  {
    var pc := threads[t];
    match pc.stage
    case WantRead => exists x :: HoldsId(threads, x, pc.id)
    case WantChunk => exists x :: HoldsIndex(threads, x, pc.id, pc.index)
    case WantWrite => exists x :: HoldsId(threads, x, pc.id) || ReadsId(threads, x, pc.id)
    case _ => false
  }

  /****** what an entry says, in terms of threads ******/

  lemma SameEntry(s: LockTable, t: Thread, x: Thread)
    requires Inv(s) && t in s.threads && x in s.threads
    ensures s.threads[x].entry == s.threads[t].entry <==> s.threads[x].id == s.threads[t].id
  {
    hide Inv, EntryOk;
    OwnEntry(s, t);
    OwnEntry(s, x);
    if s.threads[x].entry == s.threads[t].entry { OneIdPerEntry(s, s.threads[x].id, s.threads[t].id); }
  }

  lemma WriterIsHolder(s: LockTable, t: Thread)
    requires Inv(s) && t in s.threads && s.threads[t].entry in s.entries
    ensures s.entries[s.threads[t].entry].writer.Some? <==> exists x :: HoldsId(s.threads, x, s.threads[t].id)
  {
    hide Inv, Users, Readers;
    OwnEntry(s, t);
    var pc, e := s.threads[t], s.entries[s.threads[t].entry];
    if e.writer.Some? {
      var x := e.writer.value;
      assert Writing(s.threads, x, pc.entry);
      SameEntry(s, t, x);
      assert HoldsId(s.threads, x, pc.id);
    }
    if x :| HoldsId(s.threads, x, pc.id) {
      SameEntry(s, t, x);
      assert Writing(s.threads, x, pc.entry);
    }
  }

  lemma ReadersAreReading(s: LockTable, t: Thread)
    requires Inv(s) && t in s.threads && s.threads[t].entry in s.entries
    ensures s.entries[s.threads[t].entry].readers != {} <==> exists x :: ReadsId(s.threads, x, s.threads[t].id)
  {
    hide Inv, Users, Reading;
    OwnEntry(s, t);
    var pc, e := s.threads[t], s.entries[s.threads[t].entry];
    if e.readers != {} {
      var x :| x in e.readers;
      SameEntry(s, t, x);
      assert ReadsId(s.threads, x, pc.id);
    }
    if x :| ReadsId(s.threads, x, pc.id) {
      SameEntry(s, t, x);
      assert x in e.readers;
    }
  }

  lemma HolderIsThread(s: LockTable, t: Thread)
    requires Inv(s) && t in s.threads && UsesChunk(s.threads[t]) && s.threads[t].chunk in s.chunks
    ensures var pc := s.threads[t];
      s.chunks[pc.chunk].holder.Some? <==> exists x :: HoldsIndex(s.threads, x, pc.id, pc.index)
  {
    hide Inv, EntryOk, ChunkUsers;
    OwnChunk(s, t);
    var pc, c := s.threads[t], s.chunks[s.threads[t].chunk];
    if c.holder.Some? {
      var x := c.holder.value;
      assert Holding(s.threads, x, pc.chunk);
      OwnChunk(s, x);
      SameEntry(s, t, x);
      assert HoldsIndex(s.threads, x, pc.id, pc.index);
    }
    if x :| HoldsIndex(s.threads, x, pc.id, pc.index) {
      SameEntry(s, t, x);
      OwnSlot(s, t);
      OwnSlot(s, x);
      assert Holding(s.threads, x, pc.chunk);
    }
  }

  /****** one move ******/

  lemma Found(s: LockTable, t: Thread)
    requires Inv(s) && t in s.threads
    ensures var pc := s.threads[t];
      && pc.entry in s.entries
      && (UsesChunk(pc) ==> pc.chunk in s.chunks)
      && (pc.index in s.entries[pc.entry].chunkLocks ==> s.entries[pc.entry].chunkLocks[pc.index] in s.chunks)
  {
    hide Inv, EntryOk, ChunkOk;
    OwnEntry(s, t);
    var pc := s.threads[t];
    if UsesChunk(pc) { OwnChunk(s, t); }
    if pc.index in s.entries[pc.entry].chunkLocks { ChunkOwner(s, pc.id, pc.index); }
  }

  /** A thread's next step is possible exactly when it does not have to wait. */
  lemma MovesUnlessWaiting(s: LockTable, t: Thread)
    requires Inv(s) && t in s.threads
    ensures Apply(s, Move(t, s.threads[t].stage)).Some? <==> !Waits(s.threads, t)
  {
    hide Inv, HoldsId, ReadsId, HoldsIndex;
    Found(s, t);
    var pc := s.threads[t];
    if pc.stage.WantRead? || pc.stage.WantWrite? { WriterIsHolder(s, t); }
    if pc.stage.WantWrite? {
      ReadersAreReading(s, t);
      if x :| HoldsId(s.threads, x, pc.id) || ReadsId(s.threads, x, pc.id) {}
    }
    if pc.stage.WantChunk? { HolderIsThread(s, t); }
  }

  /** The step changes only the thread's own place. */
  lemma MoveEffect(s: LockTable, t: Thread)
    requires Inv(s) && t in s.threads && Apply(s, Move(t, s.threads[t].stage)).Some?
    ensures var pc, n := s.threads[t], Apply(s, Move(t, s.threads[t].stage)).value;
      if StepsLeft(pc.stage) == 1 then n.threads == s.threads - {t}
      else t in n.threads && n.threads == s.threads[t := n.threads[t]]
           && n.threads[t] == pc.(stage := NextStage(pc.stage), chunk := n.threads[t].chunk)
  {
    hide Inv;
  }

  /****** getting out ******/

  /** Nobody can make the thread wait on its way out; a waiting writer goes before new readers. */
  ghost predicate Clear(threads: map<Thread, Pc>, t: Thread) {
    && t in threads
    && var pc := threads[t];
    forall x | x in threads && x != t && threads[x].id == pc.id ::
      match pc.stage
      case WantRead => !threads[x].stage.HoldsWrite? && !threads[x].stage.HoldsChunk? && !threads[x].stage.WantWrite?
      case HasRead | WantChunk => !threads[x].stage.HoldsChunk?
      case WantWrite => !threads[x].stage.HoldsWrite? && !Reading(threads[x])
      case _ => true
  }

  lemma ClearMoves(s: LockTable, t: Thread)
    requires Inv(s) && Clear(s.threads, t)
    ensures Apply(s, Move(t, s.threads[t].stage)).Some?
  {
    hide Inv, Apply;
    MovesUnlessWaiting(s, t);
  }

  lemma StaysClear(before: map<Thread, Pc>, after: map<Thread, Pc>, t: Thread)
    requires Clear(before, t) && t in after && after == before[t := after[t]]
    requires after[t] == before[t].(stage := NextStage(before[t].stage), chunk := after[t].chunk) && StepsLeft(before[t].stage) > 1
    ensures Clear(after, t) && StepsLeft(after[t].stage) == StepsLeft(before[t].stage) - 1
  {
  }

  lemma ExecMore(s: LockTable, steps: seq<Step>, step: Step)
    requires Exec(s, steps).Some?
    ensures Exec(s, steps + [step]) == Apply(Exec(s, steps).value, step)
  {
    hide Apply;
    assert (steps + [step])[..|steps|] == steps;
  }

  /** No step of the run is a new request. */
  predicate NoneEnter(steps: seq<Step>) {
    forall i | 0 <= i < |steps| :: !steps[i].AcquireChunk? && !steps[i].AcquireExclusive?
  }

  /** The thread walks all the way out while the others stand still. */
  lemma {:induction false} WalksOut(steps: seq<Step>, t: Thread) returns (more: seq<Step>)
    requires Exec(IDLE, steps).Some? && Clear(Exec(IDLE, steps).value.threads, t)
    ensures NoneEnter(more) && Exec(IDLE, steps + more).Some?
    ensures Exec(IDLE, steps + more).value.threads == Exec(IDLE, steps).value.threads - {t}
    decreases StepsLeft(Exec(IDLE, steps).value.threads[t].stage)
  {
    hide Apply, Inv, Clear, Exec;
    var s := Exec(IDLE, steps).value;
    assert t in s.threads by { IsThere(s.threads, t); }
    RunKeeps(steps);
    ClearMoves(s, t);
    MoveEffect(s, t);
    var step := Move(t, s.threads[t].stage);
    ExecMore(IDLE, steps, step);
    if StepsLeft(s.threads[t].stage) == 1 {
      more := [step];
    } else {
      var n := Apply(s, step).value;
      StaysClear(s.threads, n.threads, t);
      var rest := WalksOut(steps + [step], t);
      more := [step] + rest;
      assert steps + more == steps + [step] + rest;
      assert n.threads - {t} == s.threads - {t};
    }
  }

  lemma IsThere(threads: map<Thread, Pc>, t: Thread)
    requires Clear(threads, t)
    ensures t in threads
  {
  }

  /** While anybody is inside, somebody's way out is clear. */
  lemma SomebodyIsClear(threads: map<Thread, Pc>) returns (t: Thread)
    requires threads != map[]
    ensures Clear(threads, t)
  {
    if x :| x in threads && !threads[x].stage.WantRead? && !threads[x].stage.HasRead? && !threads[x].stage.WantChunk? && !threads[x].stage.WantWrite? {
      t := x;
    } else if x :| x in threads && Reading(threads[x]) {
      t := x;
    } else if x :| x in threads && threads[x].stage.WantWrite? {
      t := x;
    } else {
      t :| t in threads;
    }
  }

  lemma {:induction false} Drains(steps: seq<Step>) returns (more: seq<Step>)
    requires Exec(IDLE, steps).Some?
    ensures NoneEnter(more) && Exec(IDLE, steps + more).Some? && Exec(IDLE, steps + more).value.threads == map[]
    decreases |Exec(IDLE, steps).value.threads|
  {
    hide Apply, Inv, Clear, Exec;
    var s := Exec(IDLE, steps).value;
    if s.threads == map[] {
      more := [];
      assert steps + [] == steps;
    } else {
      var t := SomebodyIsClear(s.threads);
      IsThere(s.threads, t);
      var out := WalksOut(steps, t);
      assert |(s.threads - {t}).Keys| == |s.threads.Keys - {t}| < |s.threads.Keys|;
      var rest := Drains(steps + out);
      more := out + rest;
      assert steps + more == steps + out + rest;
    }
  }

  /****** theorems ******/

  /** After any run: a new request is always taken in, a thread inside has exactly one
      possible next step when it does not wait, and none when it waits. */
  lemma WaitsExactly(steps: seq<Step>, t: Thread)
    requires Exec(IDLE, steps).Some?
    ensures var s := Exec(IDLE, steps).value;
      forall step: Step | step.t == t ::
        Apply(s, step).Some? <==>
          if t in s.threads then step == Move(t, s.threads[t].stage) && !Waits(s.threads, t)
          else step.AcquireChunk? || step.AcquireExclusive?
  {
    hide Exec, Inv;
    RunKeeps(steps);
    var s := Exec(IDLE, steps).value;
    forall step: Step | step.t == t
      ensures Apply(s, step).Some? <==>
        if t in s.threads then step == Move(t, s.threads[t].stage) && !Waits(s.threads, t)
        else step.AcquireChunk? || step.AcquireExclusive?
    {
      if t in s.threads {
        MovesUnlessWaiting(s, t);
        OnlyMove(s, step);
      } else {
        Enters(s, step);
      }
    }
  }

  lemma OnlyMove(s: LockTable, step: Step)
    requires step.t in s.threads
    ensures Apply(s, step).Some? ==> step == Move(step.t, s.threads[step.t].stage)
  {
  }

  lemma Enters(s: LockTable, step: Step)
    requires Inv(s) && step.t !in s.threads
    ensures Apply(s, step).Some? <==> step.AcquireChunk? || step.AcquireExclusive?
  {
    hide EntryOk, ChunkTableOk, ThreadOk;
  }

  /** No deadlock: from every reachable state the threads inside can all get out without a
      new request, and then the table is empty. */
  lemma AllGetOut(steps: seq<Step>)
    requires Exec(IDLE, steps).Some?
    ensures exists more ::
      && NoneEnter(more) && Exec(IDLE, steps + more).Some?
      && Exec(IDLE, steps + more).value.threads == map[] && Exec(IDLE, steps + more).value.table == map[]
  {
    hide Exec, NoneEnter;
    var more := Drains(steps);
    TableIsInFlight(steps + more, "");
  }
}
