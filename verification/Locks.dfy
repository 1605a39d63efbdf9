/** The reference-counted upload lock table, with every critical section and every
    lock acquisition as a separate step of one thread. */
module Locks {
  import opened World

  type Thread = nat
  type Ref = nat

  datatype Stage =
    | WantRead | HasRead | WantChunk | HoldsChunk | ReleasedChunk | DroppedChunk | ReleasedRead
    | WantWrite | HoldsWrite | ReleasedWrite

  /** Where a thread is inside lockChunk, lockExclusive or the function they return;
      `chunk` means something from WantChunk to ReleasedChunk. */
  datatype Pc = Pc(stage: Stage, id: Id, index: int, entry: Ref, chunk: Ref)

  datatype UploadEntry = UploadEntry(id: Id, refs: int, readers: set<Thread>, writer: Option<Thread>, chunkLocks: map<int, Ref>)
  datatype ChunkEntry = ChunkEntry(owner: Ref, index: int, refs: int, holder: Option<Thread>)

  /** `table` maps ids to entries; entries keep their identity after removal. */
  datatype LockTable = LockTable(
    table: map<Id, Ref>,
    entries: map<Ref, UploadEntry>,
    chunks: map<Ref, ChunkEntry>,
    threads: map<Thread, Pc>,
    next: Ref)

  const IDLE := LockTable(map[], map[], map[], map[], 0)

  predicate Reading(pc: Pc) {
    pc.stage in {HasRead, WantChunk, HoldsChunk, ReleasedChunk, DroppedChunk}
  }

  predicate UsesChunk(pc: Pc) {
    pc.stage in {WantChunk, HoldsChunk, ReleasedChunk}
  }

  /****** the steps ******/

  datatype Step =
    | AcquireChunk(t: Thread, id: Id, index: int)
    | AcquireExclusive(t: Thread, id: Id)
    | ReadLock(t: Thread)
    | TakeChunk(t: Thread)
    | LockChunk(t: Thread)
    | UnlockChunk(t: Thread)
    | DropChunk(t: Thread)
    | ReadUnlock(t: Thread)
    | WriteLock(t: Thread)
    | WriteUnlock(t: Thread)
    | Release(t: Thread)

  /** acquire: find or create the entry and count the caller. */
  function Acquire(s: LockTable, t: Thread, stage: Stage, id: Id, index: int): Option<LockTable> {
    if t in s.threads then None
    else if id in s.table then
      var r := s.table[id];
      if r !in s.entries then None
      else
        var e := s.entries[r];
        Some(s.(entries := s.entries[r := e.(refs := e.refs + 1)], threads := s.threads[t := Pc(stage, id, index, r, 0)]))
    else
      var r := s.next;
      Some(s.(table := s.table[id := r], entries := s.entries[r := UploadEntry(id, 1, {}, None, map[])],
              threads := s.threads[t := Pc(stage, id, index, r, 0)], next := r + 1))
  }

  /** A step of a thread on the entry it refers to. */
  function OnEntry(s: LockTable, t: Thread, pc: Pc, e: UploadEntry): LockTable {
    s.(entries := s.entries[pc.entry := e], threads := s.threads[t := pc])
  }

  function OnChunk(s: LockTable, t: Thread, pc: Pc, c: ChunkEntry): LockTable {
    s.(chunks := s.chunks[pc.chunk := c], threads := s.threads[t := pc])
  }

  function Apply(s: LockTable, step: Step): Option<LockTable> {
    match step
    case AcquireChunk(t, id, index) => Acquire(s, t, WantRead, id, index)
    case AcquireExclusive(t, id) => Acquire(s, t, WantWrite, id, 0)
    case _ =>
      var t := step.t;
      if t !in s.threads || s.threads[t].entry !in s.entries then None
      else
        var pc := s.threads[t];
        Advance(s, step, t, pc, s.entries[pc.entry])
  }

  function Advance(s: LockTable, step: Step, t: Thread, pc: Pc, e: UploadEntry): Option<LockTable> {
    match step
    case ReadLock(_) =>
      if pc.stage.WantRead? && e.writer.None? then Some(OnEntry(s, t, pc.(stage := HasRead), e.(readers := e.readers + {t})))
      else None
    case TakeChunk(_) =>
      if !pc.stage.HasRead? then None
      else if pc.index in e.chunkLocks then
        var c := e.chunkLocks[pc.index];
        if c !in s.chunks then None
        else Some(OnChunk(s, t, pc.(stage := WantChunk, chunk := c), s.chunks[c].(refs := s.chunks[c].refs + 1)))
      else
        var c, pc' := s.next, pc.(stage := WantChunk, chunk := s.next);
        Some(OnChunk(OnEntry(s, t, pc', e.(chunkLocks := e.chunkLocks[pc.index := c])), t, pc', ChunkEntry(pc.entry, pc.index, 1, None))
             .(next := c + 1))
    case LockChunk(_) =>
      if pc.stage.WantChunk? && pc.chunk in s.chunks && s.chunks[pc.chunk].holder.None? then
        Some(OnChunk(s, t, pc.(stage := HoldsChunk), s.chunks[pc.chunk].(holder := Some(t))))
      else None
    case UnlockChunk(_) =>
      if pc.stage.HoldsChunk? && pc.chunk in s.chunks then
        Some(OnChunk(s, t, pc.(stage := ReleasedChunk), s.chunks[pc.chunk].(holder := None)))
      else None
    case DropChunk(_) =>
      if !(pc.stage.ReleasedChunk? && pc.chunk in s.chunks) then None
      else
        var c, pc' := s.chunks[pc.chunk], pc.(stage := DroppedChunk);
        var s' := OnChunk(s, t, pc', c.(refs := c.refs - 1));
        if c.refs == 1 then Some(OnEntry(s', t, pc', e.(chunkLocks := e.chunkLocks - {pc.index}))) else Some(s')
    case ReadUnlock(_) =>
      if pc.stage.DroppedChunk? then Some(OnEntry(s, t, pc.(stage := ReleasedRead), e.(readers := e.readers - {t}))) else None
    case WriteLock(_) =>
      if pc.stage.WantWrite? && e.writer.None? && e.readers == {} then
        Some(OnEntry(s, t, pc.(stage := HoldsWrite), e.(writer := Some(t))))
      else None
    case WriteUnlock(_) =>
      if pc.stage.HoldsWrite? then Some(OnEntry(s, t, pc.(stage := ReleasedWrite), e.(writer := None))) else None
    case Release(_) =>
      if pc.stage.ReleasedRead? || pc.stage.ReleasedWrite? then
        Some(s.(entries := s.entries[pc.entry := e.(refs := e.refs - 1)], threads := s.threads - {t},
                table := if e.refs == 1 then s.table - {pc.id} else s.table))
      else None
    case _ => None
  }

  function Exec(s: LockTable, steps: seq<Step>): Option<LockTable> {
    if steps == [] then Some(s)
    else
      var r := Exec(s, steps[..|steps| - 1]);
      if r.None? then None else Apply(r.value, steps[|steps| - 1])
  }

  /****** the invariant ******/

  function Users(threads: map<Thread, Pc>, r: Ref): set<Thread> {
    set t | t in threads && threads[t].entry == r
  }

  function Readers(threads: map<Thread, Pc>, r: Ref): set<Thread> {
    set t | t in threads && threads[t].entry == r && Reading(threads[t])
  }

  function ChunkUsers(threads: map<Thread, Pc>, c: Ref): set<Thread> {
    set t | t in threads && UsesChunk(threads[t]) && threads[t].chunk == c
  }

  predicate Writing(threads: map<Thread, Pc>, t: Thread, r: Ref) {
    t in threads && threads[t].entry == r && threads[t].stage.HoldsWrite?
  }

  predicate Holding(threads: map<Thread, Pc>, t: Thread, c: Ref) {
    t in threads && threads[t].chunk == c && threads[t].stage.HoldsChunk?
  }

  /** The table entry of an id counts exactly the threads that refer to it. */
  ghost predicate EntryOk(threads: map<Thread, Pc>, id: Id, r: Ref, e: UploadEntry) {
    && e.id == id
    && e.refs == |Users(threads, r)| && e.refs > 0
    && e.readers == Readers(threads, r)
    && (forall t: Thread :: e.writer == Some(t) <==> Writing(threads, t, r))
    && (e.writer.Some? ==> e.readers == {})
  }

  ghost predicate ChunkOk(threads: map<Thread, Pc>, r: Ref, index: int, ref: Ref, c: ChunkEntry) {
    && c.owner == r && c.index == index
    && c.refs == |ChunkUsers(threads, ref)| && c.refs > 0
    && (forall t: Thread :: c.holder == Some(t) <==> Holding(threads, t, ref))
  }

  ghost predicate TableOk(s: LockTable) {
    forall id | id in s.table ::
      s.table[id] in s.entries && s.table[id] < s.next && EntryOk(s.threads, id, s.table[id], s.entries[s.table[id]])
  }

  ghost predicate ChunkTableOk(s: LockTable, id: Id)
    requires id in s.table && s.table[id] in s.entries
  {
    var r := s.table[id];
    var locks := s.entries[r].chunkLocks;
    forall index | index in locks ::
      locks[index] in s.chunks && locks[index] < s.next && ChunkOk(s.threads, r, index, locks[index], s.chunks[locks[index]])
  }

  /** No live thread's entry or chunk entry has been removed. */
  ghost predicate ThreadOk(s: LockTable, t: Thread)
    requires t in s.threads
  {
    var pc := s.threads[t];
    && pc.id in s.table && s.table[pc.id] == pc.entry && pc.entry in s.entries
    && (UsesChunk(pc) ==> pc.index in s.entries[pc.entry].chunkLocks && s.entries[pc.entry].chunkLocks[pc.index] == pc.chunk)
  }

  ghost predicate Inv(s: LockTable) {
    && TableOk(s)
    && (forall id | id in s.table :: ChunkTableOk(s, id))
    && (forall t | t in s.threads :: ThreadOk(s, t))
  }

  /****** how one thread's move changes the counts ******/

  lemma UsersAre(threads: map<Thread, Pc>, t: Thread, pc: Pc, r: Ref)
    ensures Users(threads[t := pc], r) == if pc.entry == r then Users(threads, r) + {t} else Users(threads, r) - {t}
  {
  }

  lemma ReadersAre(threads: map<Thread, Pc>, t: Thread, pc: Pc, r: Ref)
    ensures Readers(threads[t := pc], r) == if pc.entry == r && Reading(pc) then Readers(threads, r) + {t} else Readers(threads, r) - {t}
  {
  }

  lemma ChunkUsersAre(threads: map<Thread, Pc>, t: Thread, pc: Pc, c: Ref)
    ensures ChunkUsers(threads[t := pc], c) ==
      if UsesChunk(pc) && pc.chunk == c then ChunkUsers(threads, c) + {t} else ChunkUsers(threads, c) - {t}
  {
  }

  lemma WritingIs(threads: map<Thread, Pc>, t: Thread, pc: Pc, r: Ref, x: Thread)
    ensures Writing(threads[t := pc], x, r) == if x == t then pc.entry == r && pc.stage.HoldsWrite? else Writing(threads, x, r)
  {
  }

  lemma HoldingIs(threads: map<Thread, Pc>, t: Thread, pc: Pc, c: Ref, x: Thread)
    ensures Holding(threads[t := pc], x, c) == if x == t then pc.chunk == c && pc.stage.HoldsChunk? else Holding(threads, x, c)
  {
  }

  lemma NotAmong(threads: map<Thread, Pc>, t: Thread, r: Ref)
    requires t !in threads || threads[t].entry != r
    ensures t !in Users(threads, r) && t !in Readers(threads, r)
  {
  }

  lemma ChunkAmong(threads: map<Thread, Pc>, t: Thread, c: Ref)
    ensures t in ChunkUsers(threads, c) <==> t in threads && UsesChunk(threads[t]) && threads[t].chunk == c
  {
  }

  /** A thread that moves within one entry does not disturb the others. */
  lemma OtherEntry(threads: map<Thread, Pc>, t: Thread, pc: Pc, id: Id, r: Ref, e: UploadEntry)
    requires EntryOk(threads, id, r, e) && pc.entry != r && (t in threads ==> threads[t].entry != r)
    ensures EntryOk(threads[t := pc], id, r, e)
  {
    hide Users, Readers, Reading;
    UsersAre(threads, t, pc, r);
    ReadersAre(threads, t, pc, r);
    NotAmong(threads, t, r);
  }

  /** A thread that keeps its use of chunk entries does not disturb their counts. */
  lemma SameChunkUse(threads: map<Thread, Pc>, t: Thread, pc: Pc, r: Ref, index: int, ref: Ref, c: ChunkEntry)
    requires ChunkOk(threads, r, index, ref, c)
    requires !UsesChunk(pc) || pc.chunk != ref
    requires t in threads ==> !UsesChunk(threads[t]) || threads[t].chunk != ref
    ensures ChunkOk(threads[t := pc], r, index, ref, c)
  {
    hide ChunkUsers;
    ChunkUsersAre(threads, t, pc, ref);
    ChunkAmong(threads, t, ref);
  }

  /****** steps on the reader and writer sets ******/

  /** The thread stays in its entry and outside chunk entries. */
  ghost predicate EntryStep(s: LockTable, t: Thread, pc: Pc, e: UploadEntry) {
    && t in s.threads && pc == s.threads[t].(stage := pc.stage) && !UsesChunk(pc) && !UsesChunk(s.threads[t])
    && pc.entry in s.entries && e == s.entries[pc.entry].(readers := e.readers, writer := e.writer)
  }

  lemma EntryStepTable(s: LockTable, t: Thread, pc: Pc, e: UploadEntry)
    requires Inv(s) && EntryStep(s, t, pc, e) && EntryOk(s.threads[t := pc], pc.id, pc.entry, e)
    ensures TableOk(OnEntry(s, t, pc, e))
  {
    hide EntryOk, ChunkTableOk, UsesChunk;
    assert ThreadOk(s, t);
    forall id | id in s.table && s.table[id] != pc.entry ensures EntryOk(s.threads[t := pc], id, s.table[id], s.entries[s.table[id]]) {
      OtherEntry(s.threads, t, pc, id, s.table[id], s.entries[s.table[id]]);
    }
    assert forall id | id in s.table && s.table[id] == pc.entry :: id == pc.id by { SameId(s); }
  }

  /** Different ids have different entries. */
  lemma SameId(s: LockTable)
    requires TableOk(s)
    ensures forall id, id' | id in s.table && id' in s.table && s.table[id] == s.table[id'] :: id == id'
  {
    hide Users, Readers;
  }

  lemma EntryStepKeeps(s: LockTable, t: Thread, pc: Pc, e: UploadEntry)
    requires Inv(s) && EntryStep(s, t, pc, e) && EntryOk(s.threads[t := pc], pc.id, pc.entry, e)
    ensures Inv(OnEntry(s, t, pc, e))
  {
    hide EntryOk, ChunkOk, UsesChunk;
    var s' := OnEntry(s, t, pc, e);
    EntryStepTable(s, t, pc, e);
    forall id | id in s'.table ensures ChunkTableOk(s', id) {
      assert ChunkTableOk(s, id);
      var locks := s.entries[s.table[id]].chunkLocks;
      forall index | index in locks ensures ChunkOk(s'.threads, s.table[id], index, locks[index], s.chunks[locks[index]]) {
        SameChunkUse(s.threads, t, pc, s.table[id], index, locks[index], s.chunks[locks[index]]);
      }
    }
    forall i | i in s'.threads ensures ThreadOk(s', i) {
      assert ThreadOk(s, i);
    }
  }

  /** The entry that a thread refers to, with what the invariant says of it. */
  lemma OwnEntry(s: LockTable, t: Thread)
    requires Inv(s) && t in s.threads
    ensures var pc := s.threads[t];
      pc.id in s.table && s.table[pc.id] == pc.entry && pc.entry in s.entries && EntryOk(s.threads, pc.id, pc.entry, s.entries[pc.entry])
  {
    hide EntryOk, ChunkTableOk;
    assert ThreadOk(s, t);
  }

  /** The entry after its thread moved: the readers follow the thread's stage. */
  function MovedEntry(e: UploadEntry, t: Thread, was: Pc, pc: Pc): UploadEntry {
    e.(readers := if Reading(pc) then e.readers + {t} else e.readers - {t},
       writer := if pc.stage.HoldsWrite? then Some(t) else if was.stage.HoldsWrite? then None else e.writer)
  }

  lemma MovedEntryOk(threads: map<Thread, Pc>, t: Thread, pc: Pc, e: UploadEntry)
    requires t in threads && pc.id == threads[t].id && pc.entry == threads[t].entry && EntryOk(threads, pc.id, pc.entry, e)
    requires pc.stage.HoldsWrite? ==> e.writer.None? && e.readers == {} && !Reading(pc)
    requires Reading(pc) ==> e.writer.None?
    ensures EntryOk(threads[t := pc], pc.id, pc.entry, MovedEntry(e, t, threads[t], pc))
  {
    hide Users, Readers, Reading;
    var r, e' := pc.entry, MovedEntry(e, t, threads[t], pc);
    UsersAre(threads, t, pc, r);
    ReadersAre(threads, t, pc, r);
    UserAmong(threads, t);
    assert Users(threads, r) + {t} == Users(threads, r);
    assert Writing(threads, t, r) <==> threads[t].stage.HoldsWrite?;
    forall x: Thread ensures e'.writer == Some(x) <==> Writing(threads[t := pc], x, r) {
      WritingIs(threads, t, pc, r, x);
    }
  }

  lemma ReadWriteKeeps(s: LockTable, step: Step)
    requires Inv(s) && Apply(s, step).Some? && (step.ReadLock? || step.ReadUnlock? || step.WriteLock? || step.WriteUnlock?)
    ensures Inv(Apply(s, step).value)
  {
    hide Inv, EntryOk;
    var t := step.t;
    var was, s' := s.threads[t], Apply(s, step).value;
    var pc, e := s'.threads[t], s.entries[was.entry];
    OwnEntry(s, t);
    ReaderFacts(s.threads, t, e);
    MovedEntryOk(s.threads, t, pc, e);
    assert s'.entries[was.entry] == MovedEntry(e, t, was, pc);
    EntryStepKeeps(s, t, pc, MovedEntry(e, t, was, pc));
  }

  lemma ReaderFacts(threads: map<Thread, Pc>, t: Thread, e: UploadEntry)
    requires t in threads && EntryOk(threads, threads[t].id, threads[t].entry, e)
    ensures t in e.readers <==> Reading(threads[t])
    ensures e.writer == Some(t) <==> threads[t].stage.HoldsWrite?
    ensures e.writer.Some? ==> e.readers == {}
    ensures !Reading(threads[t]) ==> e.readers - {t} == e.readers
    ensures Reading(threads[t]) ==> e.readers + {t} == e.readers && e.writer.None?
  {
    hide Users;
    assert Writing(threads, t, threads[t].entry) <==> threads[t].stage.HoldsWrite?;
  }

  lemma UserAmong(threads: map<Thread, Pc>, t: Thread)
    requires t in threads
    ensures t in Users(threads, threads[t].entry)
    ensures t in Readers(threads, threads[t].entry) <==> Reading(threads[t])
  {
  }

  /****** steps on chunk entries ******/

  /** Every chunk entry of an id but one is right for the given threads. */
  ghost predicate ChunksBut(s: LockTable, threads: map<Thread, Pc>, id: Id, ref: Ref)
    requires id in s.table && s.table[id] in s.entries
  {
    var r := s.table[id];
    var locks := s.entries[r].chunkLocks;
    forall index | index in locks && locks[index] != ref ::
      locks[index] in s.chunks && locks[index] < s.next && ChunkOk(threads, r, index, locks[index], s.chunks[locks[index]])
  }

  lemma OtherChunks(s: LockTable, t: Thread, pc: Pc, ref: Ref, id: Id)
    requires Inv(s) && id in s.table
    requires UsesChunk(pc) ==> pc.chunk == ref
    requires t in s.threads && UsesChunk(s.threads[t]) ==> s.threads[t].chunk == ref
    ensures s.table[id] in s.entries && ChunksBut(s, s.threads[t := pc], id, ref)
  {
    hide EntryOk, ChunkOk, UsesChunk;
    assert ChunkTableOk(s, id);
    var locks := s.entries[s.table[id]].chunkLocks;
    forall index | index in locks && locks[index] != ref
      ensures ChunkOk(s.threads[t := pc], s.table[id], index, locks[index], s.chunks[locks[index]])
    {
      SameChunkUse(s.threads, t, pc, s.table[id], index, locks[index], s.chunks[locks[index]]);
    }
  }

  /** A reader that stays a reader leaves every table entry right. */
  lemma ReaderMoves(s: LockTable, t: Thread, pc: Pc, id: Id)
    requires Inv(s) && t in s.threads && id in s.table
    requires pc.id == s.threads[t].id && pc.entry == s.threads[t].entry && Reading(pc) && Reading(s.threads[t])
    ensures s.table[id] in s.entries && EntryOk(s.threads[t := pc], id, s.table[id], s.entries[s.table[id]])
  {
    hide EntryOk, ChunkTableOk;
    OwnEntry(s, t);
    var e := s.entries[pc.entry];
    if s.table[id] == pc.entry {
      SameId(s);
      ReaderFacts(s.threads, t, e);
      MovedEntryOk(s.threads, t, pc, e);
      assert MovedEntry(e, t, s.threads[t], pc) == e;
    } else {
      OtherEntry(s.threads, t, pc, id, s.table[id], s.entries[s.table[id]]);
    }
  }

  /** The chunk entry that a thread uses, with what the invariant says of it. */
  lemma OwnChunk(s: LockTable, t: Thread)
    requires Inv(s) && t in s.threads && UsesChunk(s.threads[t])
    ensures var pc := s.threads[t];
      pc.chunk in s.chunks && pc.chunk < s.next && ChunkOk(s.threads, pc.entry, pc.index, pc.chunk, s.chunks[pc.chunk])
  {
    hide EntryOk, ChunkOk;
    assert ThreadOk(s, t);
    assert ChunkTableOk(s, s.threads[t].id);
  }

  /** A chunk entry in the table belongs to the entry and index that name it. */
  lemma ChunkOwner(s: LockTable, id: Id, index: int)
    requires Inv(s) && id in s.table && s.table[id] in s.entries && index in s.entries[s.table[id]].chunkLocks
    ensures var c := s.entries[s.table[id]].chunkLocks[index];
      c in s.chunks && c < s.next && s.chunks[c].owner == s.table[id] && s.chunks[c].index == index
      && ChunkOk(s.threads, s.table[id], index, c, s.chunks[c])
  {
    hide EntryOk;
    assert ChunkTableOk(s, id);
  }

  /** A step that changes one thread and one chunk entry that stays in the table. */
  lemma ChunkStepKeeps(s: LockTable, t: Thread, pc: Pc, c: ChunkEntry)
    requires Inv(s) && t in s.threads
    requires pc.id == s.threads[t].id && pc.entry == s.threads[t].entry && pc.index == s.threads[t].index
    requires Reading(pc) && Reading(s.threads[t])
    requires UsesChunk(s.threads[t]) ==> s.threads[t].chunk == pc.chunk
    requires pc.entry in s.entries && pc.index in s.entries[pc.entry].chunkLocks && s.entries[pc.entry].chunkLocks[pc.index] == pc.chunk
    requires pc.chunk in s.chunks && ChunkOk(s.threads[t := pc], pc.entry, pc.index, pc.chunk, c)
    ensures Inv(OnChunk(s, t, pc, c))
  {
    hide EntryOk, ChunkOk, Reading, UsesChunk;
    var s' := OnChunk(s, t, pc, c);
    forall id | id in s'.table
      ensures s'.table[id] in s'.entries && s'.table[id] < s'.next && EntryOk(s'.threads, id, s'.table[id], s'.entries[s'.table[id]])
    {
      ReaderMoves(s, t, pc, id);
    }
    assert ThreadOk(s, t);
    ChunkOwner(s, pc.id, pc.index);
    forall id | id in s'.table ensures ChunkTableOk(s', id) {
      OtherChunks(s, t, pc, pc.chunk, id);
      forall index | index in s.entries[s.table[id]].chunkLocks && s.entries[s.table[id]].chunkLocks[index] == pc.chunk
        ensures s.table[id] == pc.entry && index == pc.index
      {
        ChunkOwner(s, id, index);
      }
    }
    forall i | i in s'.threads ensures ThreadOk(s', i) {
      assert ThreadOk(s, i);
    }
  }

  lemma HolderMoves(threads: map<Thread, Pc>, t: Thread, pc: Pc, r: Ref, index: int, ref: Ref, c: ChunkEntry, c': ChunkEntry)
    requires ChunkOk(threads, r, index, ref, c) && UsesChunk(pc) && pc.chunk == ref && (pc.stage.HoldsChunk? ==> c.holder.None?)
    requires t in threads && (Holding(threads, t, ref) ==> c.holder == Some(t))
    requires c' == c.(refs := if t in ChunkUsers(threads, ref) then c.refs else c.refs + 1,
                      holder := if pc.stage.HoldsChunk? then Some(t) else if Holding(threads, t, ref) then None else c.holder)
    ensures ChunkOk(threads[t := pc], r, index, ref, c')
  {
    hide ChunkUsers, UsesChunk;
    ChunkUsersAre(threads, t, pc, ref);
    assert t in ChunkUsers(threads, ref) ==> ChunkUsers(threads, ref) + {t} == ChunkUsers(threads, ref);
    forall x: Thread ensures c'.holder == Some(x) <==> Holding(threads[t := pc], x, ref) {
      HoldingIs(threads, t, pc, ref, x);
    }
  }

  lemma ChunkLockKeeps(s: LockTable, step: Step)
    requires Inv(s) && Apply(s, step).Some? && (step.LockChunk? || step.UnlockChunk?)
    ensures Inv(Apply(s, step).value)
  {
    hide Inv, EntryOk, ChunkOk, ChunkUsers;
    var t := step.t;
    var was, s' := s.threads[t], Apply(s, step).value;
    var pc, c := s'.threads[t], s'.chunks[was.chunk];
    OwnEntry(s, t);
    OwnChunk(s, t);
    ChunkAmong(s.threads, t, was.chunk);
    HolderIs(s.threads, t, was.entry, was.index, was.chunk, s.chunks[was.chunk]);
    HolderMoves(s.threads, t, pc, was.entry, was.index, was.chunk, s.chunks[was.chunk], c);
    assert InTable(s, t) by { OwnSlot(s, t); }
    ChunkStepKeeps(s, t, pc, c);
  }

  predicate InTable(s: LockTable, t: Thread)
    requires t in s.threads
  {
    var pc := s.threads[t];
    pc.entry in s.entries && pc.index in s.entries[pc.entry].chunkLocks && s.entries[pc.entry].chunkLocks[pc.index] == pc.chunk
  }

  lemma OwnSlot(s: LockTable, t: Thread)
    requires Inv(s) && t in s.threads && UsesChunk(s.threads[t])
    ensures InTable(s, t)
  {
    assert ThreadOk(s, t);
  }

  lemma HolderIs(threads: map<Thread, Pc>, t: Thread, r: Ref, index: int, ref: Ref, c: ChunkEntry)
    requires ChunkOk(threads, r, index, ref, c) && t in threads
    ensures c.holder == Some(t) <==> Holding(threads, t, ref)
  {
  }

  lemma TakeExistingKeeps(s: LockTable, t: Thread)
    requires Inv(s) && Apply(s, Step.TakeChunk(t)).Some?
    requires s.threads[t].index in s.entries[s.threads[t].entry].chunkLocks
    ensures Inv(Apply(s, Step.TakeChunk(t)).value)
  {
    hide Inv, EntryOk, ChunkOk, ChunkUsers;
    var was, s' := s.threads[t], Apply(s, Step.TakeChunk(t)).value;
    var pc := s'.threads[t];
    var c := s'.chunks[pc.chunk];
    OwnEntry(s, t);
    ChunkOwner(s, was.id, was.index);
    ChunkAmong(s.threads, t, pc.chunk);
    HolderIs(s.threads, t, was.entry, was.index, pc.chunk, s.chunks[pc.chunk]);
    HolderMoves(s.threads, t, pc, was.entry, was.index, pc.chunk, s.chunks[pc.chunk], c);
    ChunkStepKeeps(s, t, pc, c);
  }

  /** No thread uses a chunk entry that does not exist yet. */
  lemma NoUserAhead(s: LockTable, ref: Ref)
    requires Inv(s) && ref >= s.next
    ensures ChunkUsers(s.threads, ref) == {} && forall x: Thread :: !Holding(s.threads, x, ref)
  {
    hide Inv, ChunkOk;
    forall x | x in s.threads && UsesChunk(s.threads[x]) ensures s.threads[x].chunk != ref {
      OwnChunk(s, x);
    }
  }

  lemma NewChunkOk(s: LockTable, t: Thread, pc: Pc)
    requires Inv(s) && t in s.threads && pc.chunk == s.next && pc.stage.WantChunk?
    ensures ChunkOk(s.threads[t := pc], pc.entry, pc.index, s.next, ChunkEntry(pc.entry, pc.index, 1, None))
  {
    hide Inv, ChunkUsers;
    NoUserAhead(s, s.next);
    ChunkUsersAre(s.threads, t, pc, s.next);
    var threads' := s.threads[t := pc];
    forall x: Thread ensures !Holding(threads', x, s.next) {
      HoldingIs(s.threads, t, pc, s.next, x);
    }
    assert ChunkUsers(threads', s.next) == {t};
  }

  lemma TakeNewKeeps(s: LockTable, t: Thread)
    requires Inv(s) && Apply(s, Step.TakeChunk(t)).Some?
    requires s.threads[t].index !in s.entries[s.threads[t].entry].chunkLocks
    ensures Inv(Apply(s, Step.TakeChunk(t)).value)
  {
    hide EntryOk, ChunkOk;
    var was, s' := s.threads[t], Apply(s, Step.TakeChunk(t)).value;
    var pc := s'.threads[t];
    OwnEntry(s, t);
    NewChunkOk(s, t, pc);
    assert s'.threads == s.threads[t := pc];
    forall id | id in s'.table
      ensures s'.table[id] in s'.entries && s'.table[id] < s'.next && EntryOk(s'.threads, id, s'.table[id], s'.entries[s'.table[id]])
    {
      ReaderMoves(s, t, pc, id);
      SameColumns(s.threads[t := pc], id, s.table[id], s.entries[s.table[id]], s'.entries[s.table[id]]);
    }
    forall id | id in s'.table ensures ChunkTableOk(s', id) {
      OtherChunks(s, t, pc, s.next, id);
      SameId(s);
      forall index | index in s.entries[s.table[id]].chunkLocks ensures s.entries[s.table[id]].chunkLocks[index] < s.next {
        ChunkOwner(s, id, index);
      }
    }
    forall i | i in s'.threads ensures ThreadOk(s', i) {
      assert ThreadOk(s, i);
    }
  }

  lemma SameColumns(threads: map<Thread, Pc>, id: Id, r: Ref, e: UploadEntry, e': UploadEntry)
    requires EntryOk(threads, id, r, e) && e' == e.(chunkLocks := e'.chunkLocks)
    ensures EntryOk(threads, id, r, e')
  {
  }

  lemma DropKeeps(s: LockTable, t: Thread)
    requires Inv(s) && Apply(s, Step.DropChunk(t)).Some?
    ensures Inv(Apply(s, Step.DropChunk(t)).value)
  {
    hide EntryOk, ChunkOk;
    var was, s' := s.threads[t], Apply(s, Step.DropChunk(t)).value;
    var pc, ref := s'.threads[t], was.chunk;
    OwnEntry(s, t);
    OwnChunk(s, t);
    OwnSlot(s, t);
    ChunkOwner(s, was.id, was.index);
    assert s'.threads == s.threads[t := pc];
    forall id | id in s'.table
      ensures s'.table[id] in s'.entries && s'.table[id] < s'.next && EntryOk(s'.threads, id, s'.table[id], s'.entries[s'.table[id]])
    {
      ReaderMoves(s, t, pc, id);
      SameColumns(s.threads[t := pc], id, s.table[id], s.entries[s.table[id]], s'.entries[s.table[id]]);
    }
    LastUserLeaves(s.threads, t, pc, was.entry, was.index, ref, s.chunks[ref]);
    forall id | id in s'.table ensures ChunkTableOk(s', id) {
      OtherChunks(s, t, pc, ref, id);
      forall index | index in s.entries[s.table[id]].chunkLocks && s.entries[s.table[id]].chunkLocks[index] == ref
        ensures s.table[id] == was.entry && index == was.index
      {
        ChunkOwner(s, id, index);
      }
    }
    forall i | i in s'.threads ensures ThreadOk(s', i) {
      DropLeaves(s, t, i);
    }
  }

  /** After the last user left, the count was one; otherwise the entry stays right. */
  lemma LastUserLeaves(threads: map<Thread, Pc>, t: Thread, pc: Pc, r: Ref, index: int, ref: Ref, c: ChunkEntry)
    requires ChunkOk(threads, r, index, ref, c) && t in threads && threads[t].stage.ReleasedChunk? && threads[t].chunk == ref
    requires !UsesChunk(pc)
    ensures if c.refs == 1 then ChunkUsers(threads, ref) == {t} else ChunkOk(threads[t := pc], r, index, ref, c.(refs := c.refs - 1))
  {
    ChunkAmong(threads, t, ref);
    ChunkUsersAre(threads, t, pc, ref);
    var users := ChunkUsers(threads, ref);
    assert users == (users - {t}) + {t};
    if c.refs != 1 {
      forall x: Thread ensures c.holder == Some(x) <==> Holding(threads[t := pc], x, ref) {
        HoldingIs(threads, t, pc, ref, x);
      }
    }
  }

  /** A chunk entry is removed only when no other thread uses it. */
  lemma DropLeaves(s: LockTable, t: Thread, i: Thread)
    requires Inv(s) && Apply(s, Step.DropChunk(t)).Some? && i in s.threads
    ensures ThreadOk(Apply(s, Step.DropChunk(t)).value, i)
  {
    hide Inv, EntryOk, ChunkOk;
    var was, s' := s.threads[t], Apply(s, Step.DropChunk(t)).value;
    assert ThreadOk(s, i) && ThreadOk(s, t) by { BothThreads(s, t, i); }
    if i != t && UsesChunk(s.threads[i]) && s.threads[i].entry == was.entry && s.threads[i].index == was.index {
      OwnChunk(s, t);
      ChunkAmong(s.threads, i, was.chunk);
      LastUserLeaves(s.threads, t, s'.threads[t], was.entry, was.index, was.chunk, s.chunks[was.chunk]);
    }
  }

  lemma BothThreads(s: LockTable, t: Thread, i: Thread)
    requires Inv(s) && t in s.threads && i in s.threads
    ensures ThreadOk(s, t) && ThreadOk(s, i)
  {
  }

  /****** joining and leaving ******/

  lemma JoinedEntry(threads: map<Thread, Pc>, t: Thread, pc: Pc, id: Id, r: Ref, e: UploadEntry)
    requires EntryOk(threads, id, r, e) && t !in threads && pc.entry == r && !Reading(pc) && !pc.stage.HoldsWrite?
    ensures EntryOk(threads[t := pc], id, r, e.(refs := e.refs + 1))
  {
    hide Users, Readers, Reading;
    UsersAre(threads, t, pc, r);
    ReadersAre(threads, t, pc, r);
    Absent(threads, t, r);
    forall x: Thread ensures e.writer == Some(x) <==> Writing(threads[t := pc], x, r) {
      WritingIs(threads, t, pc, r, x);
    }
  }

  lemma Absent(threads: map<Thread, Pc>, t: Thread, r: Ref)
    requires t !in threads
    ensures t !in Users(threads, r) && Readers(threads, r) - {t} == Readers(threads, r)
  {
  }

  lemma JoinExistingKeeps(s: LockTable, t: Thread, stage: Stage, id: Id, index: int)
    requires Inv(s) && Acquire(s, t, stage, id, index).Some? && id in s.table && (stage.WantRead? || stage.WantWrite?)
    ensures Inv(Acquire(s, t, stage, id, index).value)
  {
    hide EntryOk, ChunkOk;
    var s' := Acquire(s, t, stage, id, index).value;
    var pc := s'.threads[t];
    JoinedEntry(s.threads, t, pc, id, s.table[id], s.entries[s.table[id]]);
    SameId(s);
    forall other | other in s'.table
      ensures s'.table[other] in s'.entries && EntryOk(s'.threads, other, s'.table[other], s'.entries[s'.table[other]])
    {
      if other != id { OtherEntry(s.threads, t, pc, other, s.table[other], s.entries[s.table[other]]); }
    }
    forall other | other in s'.table ensures ChunkTableOk(s', other) {
      OtherChunks(s, t, pc, s.next, other);
      ChunksBehind(s, other);
    }
    forall i | i in s'.threads ensures ThreadOk(s', i) {
      assert i != t ==> ThreadOk(s, i);
    }
  }

  /** Every chunk entry in the table was created before now. */
  lemma ChunksBehind(s: LockTable, id: Id)
    requires Inv(s) && id in s.table && s.table[id] in s.entries
    ensures forall index | index in s.entries[s.table[id]].chunkLocks :: s.entries[s.table[id]].chunkLocks[index] < s.next
  {
    hide EntryOk, ChunkOk;
    assert ChunkTableOk(s, id);
  }

  lemma NoUserOfNew(s: LockTable, t: Thread, pc: Pc)
    requires Inv(s) && t !in s.threads && pc.entry == s.next && !Reading(pc) && !pc.stage.HoldsWrite?
    ensures EntryOk(s.threads[t := pc], pc.id, s.next, UploadEntry(pc.id, 1, {}, None, map[]))
  {
    hide ChunkOk;
    forall x | x in s.threads ensures s.threads[x].entry != s.next {
      assert ThreadOk(s, x);
    }
    var threads' := s.threads[t := pc];
    assert Users(threads', s.next) == {t};
    assert Readers(threads', s.next) == {};
    assert forall x: Thread :: !Writing(threads', x, s.next);
  }

  lemma JoinNewKeeps(s: LockTable, t: Thread, stage: Stage, id: Id, index: int)
    requires Inv(s) && Acquire(s, t, stage, id, index).Some? && id !in s.table && (stage.WantRead? || stage.WantWrite?)
    ensures Inv(Acquire(s, t, stage, id, index).value)
  {
    hide EntryOk, ChunkOk;
    var s' := Acquire(s, t, stage, id, index).value;
    var pc := s'.threads[t];
    NoUserOfNew(s, t, pc);
    forall other | other in s'.table
      ensures s'.table[other] in s'.entries && s'.table[other] < s'.next
        && EntryOk(s'.threads, other, s'.table[other], s'.entries[s'.table[other]])
    {
      if other != id { OtherEntry(s.threads, t, pc, other, s.table[other], s.entries[s.table[other]]); }
    }
    forall other | other in s'.table ensures ChunkTableOk(s', other) {
      if other != id {
        OtherChunks(s, t, pc, s.next, other);
        ChunksBehind(s, other);
      }
    }
    forall i | i in s'.threads ensures ThreadOk(s', i) {
      assert i != t ==> ThreadOk(s, i);
    }
  }

  /** After a thread left, the entry counts one user less, or had only this one. */
  lemma LeftEntry(threads: map<Thread, Pc>, t: Thread, e: UploadEntry)
    requires t in threads && EntryOk(threads, threads[t].id, threads[t].entry, e)
    requires threads[t].stage.ReleasedRead? || threads[t].stage.ReleasedWrite?
    ensures var r := threads[t].entry;
      if e.refs == 1 then Users(threads, r) == {t}
      else EntryOk(threads - {t}, threads[t].id, r, e.(refs := e.refs - 1))
  {
    var r, threads' := threads[t].entry, threads - {t};
    UserAmong(threads, t);
    var users := Users(threads, r);
    assert users == (users - {t}) + {t};
    assert Users(threads', r) == users - {t};
    assert Readers(threads', r) == Readers(threads, r);
    forall x: Thread ensures Writing(threads', x, r) <==> Writing(threads, x, r) {}
  }

  lemma OtherEntryLeft(threads: map<Thread, Pc>, t: Thread, id: Id, r: Ref, e: UploadEntry)
    requires EntryOk(threads, id, r, e) && t in threads && threads[t].entry != r
    ensures EntryOk(threads - {t}, id, r, e)
  {
    var threads' := threads - {t};
    assert Users(threads', r) == Users(threads, r);
    assert Readers(threads', r) == Readers(threads, r);
    forall x: Thread ensures Writing(threads', x, r) <==> Writing(threads, x, r) {}
  }

  lemma ChunkLeft(threads: map<Thread, Pc>, t: Thread, r: Ref, index: int, ref: Ref, c: ChunkEntry)
    requires ChunkOk(threads, r, index, ref, c) && t in threads && !UsesChunk(threads[t])
    ensures ChunkOk(threads - {t}, r, index, ref, c)
  {
    var threads' := threads - {t};
    assert ChunkUsers(threads', ref) == ChunkUsers(threads, ref);
    forall x: Thread ensures Holding(threads', x, ref) <==> Holding(threads, x, ref) {}
  }

  lemma ReleaseKeeps(s: LockTable, t: Thread)
    requires Inv(s) && Apply(s, Step.Release(t)).Some?
    ensures Inv(Apply(s, Step.Release(t)).value)
  {
    hide EntryOk, ChunkOk;
    var was, s' := s.threads[t], Apply(s, Step.Release(t)).value;
    OwnEntry(s, t);
    SameId(s);
    LeftEntry(s.threads, t, s.entries[was.entry]);
    forall id | id in s'.table
      ensures s'.table[id] in s'.entries && EntryOk(s'.threads, id, s'.table[id], s'.entries[s'.table[id]])
    {
      if id != was.id { OtherEntryLeft(s.threads, t, id, s.table[id], s.entries[s.table[id]]); }
    }
    forall id | id in s'.table ensures ChunkTableOk(s', id) {
      assert ChunkTableOk(s, id);
      var locks := s.entries[s.table[id]].chunkLocks;
      forall index | index in locks ensures ChunkOk(s'.threads, s.table[id], index, locks[index], s.chunks[locks[index]]) {
        ChunkLeft(s.threads, t, s.table[id], index, locks[index], s.chunks[locks[index]]);
      }
    }
    forall i | i in s'.threads ensures ThreadOk(s', i) {
      assert ThreadOk(s, i);
      UserAmong(s.threads, i);
    }
  }

  lemma StepKeeps(s: LockTable, step: Step)
    requires Inv(s) && Apply(s, step).Some?
    ensures Inv(Apply(s, step).value)
  {
    hide Inv, Acquire, EntryOk, ChunkOk;
    match step
    case AcquireChunk(t, id, index) =>
      if id in s.table { JoinExistingKeeps(s, t, WantRead, id, index); } else { JoinNewKeeps(s, t, WantRead, id, index); }
    case AcquireExclusive(t, id) =>
      if id in s.table { JoinExistingKeeps(s, t, WantWrite, id, 0); } else { JoinNewKeeps(s, t, WantWrite, id, 0); }
    case TakeChunk(t) =>
      if s.threads[t].index in s.entries[s.threads[t].entry].chunkLocks { TakeExistingKeeps(s, t); } else { TakeNewKeeps(s, t); }
    case DropChunk(t) => DropKeeps(s, t);
    case LockChunk(_) => ChunkLockKeeps(s, step);
    case UnlockChunk(_) => ChunkLockKeeps(s, step);
    case Release(t) => ReleaseKeeps(s, t);
    case _ => ReadWriteKeeps(s, step);
  }

  lemma {:induction false} RunKeeps(steps: seq<Step>)
    requires Exec(IDLE, steps).Some?
    ensures Inv(Exec(IDLE, steps).value)
  {
    if steps != [] {
      RunKeeps(steps[..|steps| - 1]);
      hide Inv, Apply;
      StepKeeps(Exec(IDLE, steps[..|steps| - 1]).value, steps[|steps| - 1]);
    }
  }

  /****** theorems ******/

  /** Whoever holds an id exclusively is the only holder of anything under that id. */
  lemma ExclusiveExcludes(steps: seq<Step>, t: Thread, x: Thread)
    requires Exec(IDLE, steps).Some?
    requires var threads := Exec(IDLE, steps).value.threads;
      t in threads && x in threads && threads[t].id == threads[x].id && threads[t].stage.HoldsWrite?
      && (threads[x].stage.HoldsWrite? || Reading(threads[x]))
    ensures t == x
  {
    hide Exec, ChunkOk, Inv;
    RunKeeps(steps);
    var s := Exec(IDLE, steps).value;
    OwnEntry(s, t);
    OwnEntry(s, x);
    ReaderFacts(s.threads, t, s.entries[s.threads[t].entry]);
    ReaderFacts(s.threads, x, s.entries[s.threads[t].entry]);
  }

  /** Two holders never share an id and an index. */
  lemma ChunkHoldersDiffer(steps: seq<Step>, t: Thread, x: Thread)
    requires Exec(IDLE, steps).Some?
    requires var threads := Exec(IDLE, steps).value.threads;
      t in threads && x in threads && threads[t].id == threads[x].id && threads[t].index == threads[x].index
      && threads[t].stage.HoldsChunk? && threads[x].stage.HoldsChunk?
    ensures t == x
  {
    hide Exec, EntryOk, Inv, ChunkOk;
    RunKeeps(steps);
    var s := Exec(IDLE, steps).value;
    assert ThreadOk(s, t) && ThreadOk(s, x) by { BothThreads(s, t, x); }
    OwnChunk(s, t);
    var pc := s.threads[t];
    HolderIs(s.threads, t, pc.entry, pc.index, pc.chunk, s.chunks[pc.chunk]);
    HolderIs(s.threads, x, pc.entry, pc.index, pc.chunk, s.chunks[pc.chunk]);
  }

  /** The entry and the chunk entry that a live thread waits on or holds are still the
      ones that newcomers find under its id and index. */
  lemma LiveEntriesStay(steps: seq<Step>, t: Thread)
    requires Exec(IDLE, steps).Some? && t in Exec(IDLE, steps).value.threads
    ensures var s := Exec(IDLE, steps).value;
      var pc := s.threads[t];
      && pc.id in s.table && s.table[pc.id] == pc.entry && pc.entry in s.entries && s.entries[pc.entry].refs > 0
      && (UsesChunk(pc) ==>
            && pc.index in s.entries[pc.entry].chunkLocks && s.entries[pc.entry].chunkLocks[pc.index] == pc.chunk
            && pc.chunk in s.chunks && s.chunks[pc.chunk].refs > 0)
  {
    hide Exec, Inv;
    RunKeeps(steps);
    var s := Exec(IDLE, steps).value;
    OwnEntry(s, t);
    if UsesChunk(s.threads[t]) {
      OwnChunk(s, t);
      OwnSlot(s, t);
    }
  }

  /** The table holds exactly the ids that some thread still refers to, and an entry's
      chunk locks exactly the indices in use; both are empty when nothing is in flight. */
  lemma TableIsInFlight(steps: seq<Step>, id: Id)
    requires Exec(IDLE, steps).Some?
    ensures var s := Exec(IDLE, steps).value;
      id in s.table <==> exists t :: t in s.threads && s.threads[t].id == id
    ensures var s := Exec(IDLE, steps).value;
      s.threads == map[] ==> s.table == map[]
    ensures var s := Exec(IDLE, steps).value;
      id in s.table ==> s.table[id] in s.entries && forall index | index in s.entries[s.table[id]].chunkLocks ::
        exists t :: t in s.threads && UsesChunk(s.threads[t]) && s.threads[t].id == id && s.threads[t].index == index
  {
    hide Exec, Inv, EntryOk, ChunkOk;
    RunKeeps(steps);
    var s := Exec(IDLE, steps).value;
    forall i | i in s.table ensures exists t :: t in s.threads && s.threads[t].id == i {
      SomeUser(s, i);
    }
    forall t | t in s.threads ensures s.threads[t].id in s.table {
      OwnEntry(s, t);
    }
    if id in s.table {
      SomeUser(s, id);
      forall index | index in s.entries[s.table[id]].chunkLocks
        ensures exists t :: t in s.threads && UsesChunk(s.threads[t]) && s.threads[t].id == id && s.threads[t].index == index
      {
        SomeChunkUser(s, id, index);
      }
    }
  }

  lemma SomeUser(s: LockTable, id: Id)
    requires Inv(s) && id in s.table
    ensures s.table[id] in s.entries && exists t :: t in s.threads && s.threads[t].id == id
  {
    hide ChunkOk;
    var t :| t in Users(s.threads, s.table[id]);
    assert ThreadOk(s, t);
    SameId(s);
  }

  lemma SomeChunkUser(s: LockTable, id: Id, index: int)
    requires Inv(s) && id in s.table && s.table[id] in s.entries && index in s.entries[s.table[id]].chunkLocks
    ensures exists t :: t in s.threads && UsesChunk(s.threads[t]) && s.threads[t].id == id && s.threads[t].index == index
  {
    hide EntryOk, Inv;
    ChunkOwner(s, id, index);
    var c := s.entries[s.table[id]].chunkLocks[index];
    var t :| t in ChunkUsers(s.threads, c);
    OwnChunk(s, t);
    OwnEntry(s, t);
    OneIdPerEntry(s, id, s.threads[t].id);
  }

  lemma OneIdPerEntry(s: LockTable, id: Id, id': Id)
    requires Inv(s) && id in s.table && id' in s.table && s.table[id] == s.table[id']
    ensures id == id'
  {
    hide EntryOk;
    SameId(s);
  }
}
