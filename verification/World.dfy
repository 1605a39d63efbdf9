/** The durable and volatile state of one SwaDrive process and every atomic step
    that changes it: one SQLite transaction, one rename, one probe, one crash. */
module World {
  import opened Paths
  import LogicalPath
  import Ordering

  type Id = string
  type Bytes = seq<nat>

  datatype Option<+T> = None | Some(value: T)

  /** One item below files/ or inside a trash payload. `origin` is the upload
      that published a file; it identifies the file across renames. */
  datatype Node = Dir | File(origin: Id, data: Bytes)
  type Tree = map<Path, Node>

  /** What an index row says about an item: its kind and, for a file, its size. */
  datatype Meta = DirMeta | FileMeta(size: nat)
  type Rows = map<Path, Meta>

  function MetaOfNode(n: Node): Meta {
    if n.Dir? then DirMeta else FileMeta(|n.data|)
  }

  function MetaOf(t: Tree): Rows {
    map q | q in t :: MetaOfNode(t[q])
  }

  /** file_index_state.unhealthy_reason */
  datatype Reason =
    | MkdirPending
    | MovePending
    | TrashOf(id: Id)
    | RestoreOf(id: Id)
    | UploadOf(id: Id)
    | DownloadOpen
    | DownloadMetadata
    | Multiple

  datatype Health = Healthy | Unhealthy(reason: Reason)

  datatype TrashState = Trashing | Trashed | Restoring
  datatype TrashRow = TrashRow(path: Path, state: TrashState)

  datatype Status = Pending | Finalizing | Completed | Cancelled | Expired

  /** `verified` records the bytes that the last PrepareFinalization hashed, and `stamp`
      its updated_at in seconds, which a finalizing row keeps. */
  datatype UploadRow = UploadRow(target: Path, total: nat, verified: Bytes, status: Status, stamp: int)

  /** How far the holder of the mutation lock has come. */
  datatype Op =
    | Idle
    | MkdirBegun(path: Path)
    | MkdirMade(path: Path)
    | MoveBegun(src: Path, dst: Path)
    | MoveMade(src: Path, dst: Path)
    | Aborting(reason: Reason)
    | TrashPrepared(id: Id)
    | TrashMoved(id: Id)
    | RestoreBegun(id: Id)
    | RestoreMoved(id: Id)
    | CompleteVerified(id: Id, from: Status)
    | CompletePrepared(id: Id, from: Status)
    | CompletePublished(id: Id)

  datatype Phase = Down | StartingTrash | StartingUploads | Serving(gate: bool)

  datatype State = State(
    // the lower-case mapping of the normalized columns
    fold: char -> char,
    // content plane
    files: Tree,
    trash: map<Id, Tree>,
    parts: map<Id, Bytes>,
    // metadata plane: rows of the active generation, shown and hidden by a trash id
    visible: Rows,
    hidden: map<Id, Rows>,
    health: Health,
    trashRows: map<Id, TrashRow>,
    uploads: map<Id, UploadRow>,
    // lost in a crash
    phase: Phase,
    storageUp: bool,
    op: Op,
    exclusive: set<Id>)

  function Empty(fold: char -> char): State {
    State(fold, map[], map[], map[], map[], map[], Healthy, map[], map[], Down, false, Idle, {})
  }

  /****** filesystem ******/

  /** A lookup of `p` meets a file where it needs a directory. */
  predicate ThroughFile(t: Tree, p: Path) {
    exists n | 0 < n < |p| :: p[..n] in t && t[p[..n]].File?
  }

  /** ensureDestinationAvailable and ensureFilesParent together. */
  predicate CanCreate(t: Tree, p: Path) {
    && p != []
    && p !in t
    && (|p| == 1 || (Parent(p) in t && t[Parent(p)].Dir?))
  }

  /** The storage rename succeeds. */
  predicate CanRename(t: Tree, src: Path, dst: Path) {
    src != [] && src in t && CanCreate(t, dst) && !(src <= dst)
  }

  /****** health flag ******/

  function Mark(h: Health, r: Reason): Health {
    if h.Healthy? || h == Unhealthy(r) then Unhealthy(r) else Unhealthy(Multiple)
  }

  function Clear(h: Health, r: Reason): Health {
    if h == Unhealthy(r) then Healthy else h
  }

  /** activeGenerationForRepair */
  predicate MayRepair(h: Health, r: Reason) {
    h.Healthy? || h == Unhealthy(r)
  }

  /** requireAvailableInGeneration */
  predicate RowAvailable(v: Rows, p: Path) {
    && p != []
    && p !in v
    && (|p| == 1 || (Parent(p) in v && v[Parent(p)].DirMeta?))
  }

  /** NewEntry makes a row for this path. */
  predicate Accepted(p: Path, fold: char -> char) {
    LogicalPath.NewEntryOk(LogicalPath.Join(p), fold)
  }

  /** The columns of file_entries can hold a row at this path. */
  predicate ColumnsFit(p: Path, fold: char -> char) {
    LogicalPath.ColumnsHold(LogicalPath.Join(p), fold)
  }

  /** The columns can hold every row of the subtree at `src` once it is below `dst`. */
  predicate MoveFits(v: Rows, src: Path, dst: Path, fold: char -> char) {
    forall q | q in v && src <= q :: ColumnsFit(dst + q[|src|..], fold)
  }

  predicate Locked(s: State, u: Id) {
    || u in s.exclusive
    || (s.op.CompleteVerified? && s.op.id == u)
    || (s.op.CompletePrepared? && s.op.id == u)
    || (s.op.CompletePublished? && s.op.id == u)
  }

  predicate NoTransitionalTrash(s: State) {
    forall id | id in s.trashRows :: s.trashRows[id].state == Trashed
  }

  predicate NoFinalizing(s: State) {
    forall u | u in s.uploads :: s.uploads[u].status != Finalizing
  }

  /** ORDER BY updated_at, id */
  predicate ListedBefore(stamp: int, u: Id, stamp': int, v: Id) {
    stamp < stamp' || (stamp == stamp' && Ordering.Less(u, v))
  }

  /** The first finalizing upload that a listing gives. */
  predicate ListedFirst(uploads: map<Id, UploadRow>, u: Id) {
    && u in uploads && uploads[u].status == Finalizing
    && forall v | v in uploads && uploads[v].status == Finalizing && v != u ::
         ListedBefore(uploads[u].stamp, u, uploads[v].stamp, v)
  }

  /****** process life ******/

  function Crash(s: State): State {
    s.(phase := Down, storageUp := false, op := Idle, exclusive := {})
  }

  function Start(s: State, up: bool): Option<State> {
    if s.phase.Down? then Some(s.(phase := StartingTrash, storageUp := up)) else None
  }

  function StorageLost(s: State): Option<State> {
    if s.phase.Down? then None else Some(s.(storageUp := false))
  }

  /** reconcileTrashEntry, one durable transitional row. */
  function ReconcileTrash(s: State, id: Id): Option<State> {
    if !(s.phase.StartingTrash? && s.storageUp && id in s.trashRows) then None
    else
      var row := s.trashRows[id];
      var inTrash, inFiles := id in s.trash, row.path in s.files;
      if ThroughFile(s.files, row.path) then None
      else if row.state == Trashing && inTrash && !inFiles then CommitTrashRow(s, id)
      else if row.state == Trashing && !inTrash && inFiles then
        Some(s.(trashRows := s.trashRows - {id}))
      else if row.state == Restoring && !inTrash && inFiles then FinishRestoreRow(s, id)
      else if row.state == Restoring && inTrash && !inFiles then
        Some(s.(trashRows := s.trashRows[id := row.(state := Trashed)]))
      else None
  }

  function TrashReconciled(s: State): Option<State> {
    if s.phase.StartingTrash? && s.storageUp && NoTransitionalTrash(s) then
      Some(s.(phase := StartingUploads))
    else None
  }

  /** reconcileFinalizingUpload, one durable finalizing row, the next in the listing. */
  function ReconcileUpload(s: State, u: Id): Option<State> {
    if !(s.phase.StartingUploads? && s.storageUp && ListedFirst(s.uploads, u)) then None
    else
      var row := s.uploads[u];
      if ThroughFile(s.files, row.target) || (row.target in s.files && s.files[row.target].Dir?) then None
      else if u in s.parts && row.target !in s.files then ResetUploadRow(s, u)
      else if u !in s.parts && row.target in s.files && |s.files[row.target].data| == row.total then
        CompleteUploadRow(s, u)
      else None
  }

  /** The branches of reconcileFinalizingUpload that mark the index: an ambiguous state, or
      a completion that is refused or fails; startup stops. */
  function ReconcileUploadFails(s: State, u: Id): Option<State> {
    if s.phase.StartingUploads? && ListedFirst(s.uploads, u) then
      Some(Crash(s.(health := Mark(s.health, UploadOf(u)))))
    else None
  }

  /** The last steps of reconcileAvailableStorage, with the value it returns. */
  function Serve(s: State, gate: bool): Option<State> {
    if s.storageUp then
      if s.phase.StartingUploads? && NoFinalizing(s) && s.health.Healthy? && gate then
        Some(s.(phase := Serving(true)))
      else None
    else if s.phase.StartingTrash? || s.phase.StartingUploads? then
      if !gate then Some(s.(phase := Serving(false)))
      else if s.phase.StartingTrash? && NoTransitionalTrash(s) && NoFinalizing(s) && s.health.Healthy? then
        Some(s.(phase := Serving(true)))
      else None
    else None
  }

  /** Every item that the walks report gets an entry. */
  predicate PathsAccepted(files: Tree, trash: map<Id, Tree>, rows: map<Id, TrashRow>, fold: char -> char) {
    && (forall q | q in files :: Accepted(q, fold))
    && (forall id, q | id in rows && id in trash && q in trash[id] :: Accepted(rows[id].path + q, fold))
  }

  /** The activation transaction of an offline reindex over the walked trees. */
  function Reindex(s: State): Option<State> {
    if s.phase.Down? && (forall id | id in s.trashRows :: s.trashRows[id].state == Trashed && id in s.trash)
       && PathsAccepted(s.files, s.trash, s.trashRows, s.fold) then
      Some(s.(visible := MetaOf(s.files),
              hidden := map id | id in s.trashRows :: Attach(MetaOf(s.trash[id]), s.trashRows[id].path),
              health := Healthy))
    else None
  }

  /****** mkdir and move ******/

  predicate MayBegin(s: State) {
    s.phase.Serving? && s.op.Idle? && s.health.Healthy?
  }

  function BeginMkdir(s: State, p: Path): Option<State> {
    if MayBegin(s) && p != [] then
      Some(s.(health := Unhealthy(MkdirPending), op := MkdirBegun(p)))
    else None
  }

  function FsMkdir(s: State): Option<State> {
    if s.op.MkdirBegun? && s.storageUp && CanCreate(s.files, s.op.path) then
      Some(s.(files := s.files[s.op.path := Dir], op := MkdirMade(s.op.path)))
    else None
  }

  /** NewEntry, and then CreateWithAuditAndRepair. */
  function CommitMkdir(s: State): Option<State> {
    if s.op.MkdirMade? && Accepted(s.op.path, s.fold) && MayRepair(s.health, MkdirPending) && RowAvailable(s.visible, s.op.path) then
      Some(s.(visible := s.visible[s.op.path := DirMeta], health := Clear(s.health, MkdirPending), op := Idle))
    else None
  }

  /** RemoveEmptyDirectory on the directory just made. */
  function UndoMkdir(s: State): Option<State> {
    if s.op.MkdirMade? && s.storageUp && s.op.path in s.files
       && forall q | q in s.files :: s.op.path <= q ==> q == s.op.path then
      Some(s.(files := s.files - {s.op.path}, op := Aborting(MkdirPending)))
    else None
  }

  function BeginMove(s: State, src: Path, dst: Path): Option<State> {
    if MayBegin(s) && src != [] && dst != [] then
      Some(s.(health := Unhealthy(MovePending), op := MoveBegun(src, dst)))
    else None
  }

  function FsMove(s: State): Option<State> {
    if s.op.MoveBegun? && s.storageUp && CanRename(s.files, s.op.src, s.op.dst) then
      Some(s.(files := Renamed(s.files, s.op.src, s.op.dst), op := MoveMade(s.op.src, s.op.dst)))
    else None
  }

  /** MoveSubtreeWithAuditAndRepair; the unique index refuses a colliding rewrite, and
      the CHECK constraints refuse one that makes a path too long. */
  function CommitMove(s: State): Option<State> {
    if s.op.MoveMade? && MayRepair(s.health, MovePending)
       && s.op.src in s.visible && RowAvailable(s.visible, s.op.dst) && MoveFits(s.visible, s.op.src, s.op.dst, s.fold)
       && Without(s.visible, s.op.src).Keys !! Attach(Detach(s.visible, s.op.src), s.op.dst).Keys then
      Some(s.(visible := Renamed(s.visible, s.op.src, s.op.dst), health := Clear(s.health, MovePending), op := Idle))
    else None
  }

  function UndoMove(s: State): Option<State> {
    if s.op.MoveMade? && s.storageUp && CanRename(s.files, s.op.dst, s.op.src) then
      Some(s.(files := Renamed(s.files, s.op.dst, s.op.src), op := Aborting(MovePending)))
    else None
  }

  /** The storage call failed, or the request was cancelled before it. */
  function Abort(s: State): Option<State> {
    if s.op.MkdirBegun? || s.op.MoveBegun? then
      Some(s.(op := Aborting(if s.op.MkdirBegun? then MkdirPending else MovePending)))
    else None
  }

  function ClearMutation(s: State): Option<State> {
    if s.op.Aborting? && s.health == Unhealthy(s.op.reason) then
      Some(s.(health := Healthy, op := Idle))
    else None
  }

  /** The call returns and releases the lock after a step that failed without effect. */
  function GiveUp(s: State): Option<State> {
    if s.op.Aborting? || s.op.MkdirMade? || s.op.MoveMade? || s.op.TrashPrepared? || s.op.RestoreBegun?
       || s.op.CompleteVerified? || s.op.CompletePrepared? then
      Some(s.(op := Idle))
    else None
  }

  /****** trash and restore ******/

  /** PrepareTrash; ids are fresh 128-bit random values. */
  function PrepareTrash(s: State, id: Id, p: Path): Option<State> {
    if MayBegin(s) && p != [] && id !in s.trashRows && p in s.visible then
      Some(s.(trashRows := s.trashRows[id := TrashRow(p, Trashing)], op := TrashPrepared(id)))
    else None
  }

  function FsTrash(s: State): Option<State> {
    if s.op.TrashPrepared? && s.op.id in s.trashRows && s.storageUp && s.op.id !in s.trash
       && s.trashRows[s.op.id].path in s.files then
      var p := s.trashRows[s.op.id].path;
      Some(s.(files := Without(s.files, p), trash := s.trash[s.op.id := Detach(s.files, p)], op := TrashMoved(s.op.id)))
    else None
  }

  function AbortTrash(s: State): Option<State> {
    if s.op.TrashPrepared? && s.op.id in s.trashRows && s.trashRows[s.op.id].state == Trashing then
      Some(s.(trashRows := s.trashRows - {s.op.id}, op := Idle))
    else None
  }

  /** CommitTrashWithAudit as a transaction: the subtree is hidden, the row settles. */
  function CommitTrashRow(s: State, id: Id): Option<State> {
    if id in s.trashRows && s.trashRows[id].state == Trashing && MayRepair(s.health, TrashOf(id)) then
      var p := s.trashRows[id].path;
      var rows := Under(s.visible, p);
      if rows == map[] then None
      else
        Some(s.(visible := Without(s.visible, p),
                hidden := s.hidden[id := (if id in s.hidden then s.hidden[id] else map[]) + rows],
                trashRows := s.trashRows[id := TrashRow(p, Trashed)],
                health := Clear(s.health, TrashOf(id))))
    else None
  }

  function CommitTrash(s: State): Option<State> {
    if s.op.TrashMoved? then Released(CommitTrashRow(s, s.op.id)) else None
  }

  function FailTrash(s: State): Option<State> {
    if s.op.TrashMoved? then Some(s.(health := Mark(s.health, TrashOf(s.op.id)), op := Idle)) else None
  }

  function BeginRestore(s: State, id: Id): Option<State> {
    if MayBegin(s) && id in s.trashRows && s.trashRows[id].state == Trashed && id in s.hidden && s.hidden[id] != map[] then
      Some(s.(trashRows := s.trashRows[id := s.trashRows[id].(state := Restoring)], op := RestoreBegun(id)))
    else None
  }

  function FsRestore(s: State): Option<State> {
    if s.op.RestoreBegun? && s.op.id in s.trashRows && s.op.id in s.trash && s.storageUp
       && CanCreate(s.files, s.trashRows[s.op.id].path) then
      Some(s.(files := s.files + Attach(s.trash[s.op.id], s.trashRows[s.op.id].path),
              trash := s.trash - {s.op.id}, op := RestoreMoved(s.op.id)))
    else None
  }

  function RollbackRestore(s: State): Option<State> {
    if s.op.RestoreBegun? && s.op.id in s.trashRows && s.trashRows[s.op.id].state == Restoring then
      Some(s.(trashRows := s.trashRows[s.op.id := s.trashRows[s.op.id].(state := Trashed)], op := Idle))
    else None
  }

  /** FinishRestoreWithAudit as a transaction; the unique index refuses a collision. */
  function FinishRestoreRow(s: State, id: Id): Option<State> {
    if id in s.trashRows && s.trashRows[id].state == Restoring && MayRepair(s.health, RestoreOf(id))
       && id in s.hidden && s.hidden[id] != map[] && s.hidden[id].Keys !! s.visible.Keys then
      Some(s.(visible := s.visible + s.hidden[id],
              hidden := s.hidden - {id},
              trashRows := s.trashRows - {id},
              health := Clear(s.health, RestoreOf(id))))
    else None
  }

  function FinishRestore(s: State): Option<State> {
    if s.op.RestoreMoved? then Released(FinishRestoreRow(s, s.op.id)) else None
  }

  function FailRestore(s: State): Option<State> {
    if s.op.RestoreMoved? then Some(s.(health := Mark(s.health, RestoreOf(s.op.id)), op := Idle)) else None
  }

  function Released(r: Option<State>): Option<State> {
    if r.Some? then Some(r.value.(op := Idle)) else None
  }

  /****** uploads ******/

  /** CreatePart opens with O_EXCL under a fresh random name. */
  function CreatePart(s: State, u: Id): Option<State> {
    if s.phase.Serving? && s.storageUp && u !in s.uploads && u !in s.parts then
      Some(s.(parts := s.parts[u := []]))
    else None
  }

  /** The targets are those whose folded forms are within the limits too; the service
      leaves that to the completion. */
  function CreateUpload(s: State, u: Id, target: Path, total: nat): Option<State> {
    if s.phase.Serving? && s.health.Healthy? && u !in s.uploads && Accepted(target, s.fold) && RowAvailable(s.visible, target) then
      Some(s.(uploads := s.uploads[u := UploadRow(target, total, [], Pending, 0)]))
    else None
  }

  /** Create removes the part of a row it could not insert. */
  function DropPart(s: State, u: Id): Option<State> {
    if s.phase.Serving? && s.storageUp && u !in s.uploads then Some(s.(parts := s.parts - {u})) else None
  }

  /** A chunk writer holds the shared lock of a pending upload. */
  function WritePart(s: State, u: Id, data: Bytes): Option<State> {
    if s.phase.Serving? && s.storageUp && u in s.uploads && s.uploads[u].status == Pending && u in s.parts && !Locked(s, u) then
      Some(s.(parts := s.parts[u := data]))
    else None
  }

  /** Cancel and CleanupExpired take the exclusive lock and see a pending row. */
  function LockUpload(s: State, u: Id): Option<State> {
    if s.phase.Serving? && u in s.uploads && s.uploads[u].status == Pending && !Locked(s, u) then
      Some(s.(exclusive := s.exclusive + {u}))
    else None
  }

  function RemovePart(s: State, u: Id): Option<State> {
    if u in s.exclusive && s.storageUp then Some(s.(parts := s.parts - {u})) else None
  }

  function FinishUncompleted(s: State, u: Id, status: Status): Option<State> {
    if u in s.exclusive && u in s.uploads && s.uploads[u].status == Pending && (status == Cancelled || status == Expired) then
      Some(s.(uploads := s.uploads[u := s.uploads[u].(status := status)], exclusive := s.exclusive - {u}))
    else None
  }

  function UnlockUpload(s: State, u: Id): Option<State> {
    if u in s.exclusive then Some(s.(exclusive := s.exclusive - {u})) else None
  }

  /** Complete up to a successful verifyAndSyncPart. */
  function VerifyPart(s: State, u: Id): Option<State> {
    if s.phase.Serving? && s.storageUp && s.op.Idle? && u in s.uploads && !Locked(s, u) && u in s.parts
       && |s.parts[u]| == s.uploads[u].total
       && (s.uploads[u].status == Pending || (s.uploads[u].status == Finalizing && s.uploads[u].target !in s.files)) then
      Some(s.(op := CompleteVerified(u, s.uploads[u].status)))
    else None
  }

  function PrepareFinalization(s: State, now: int): Option<State> {
    if s.op.CompleteVerified? && s.op.id in s.uploads && s.op.id in s.parts && s.uploads[s.op.id].status == s.op.from then
      Some(s.(uploads := s.uploads[s.op.id := s.uploads[s.op.id].(status := Finalizing, verified := s.parts[s.op.id], stamp := now)],
              op := CompletePrepared(s.op.id, s.op.from)))
    else None
  }

  function FsFinalize(s: State): Option<State> {
    if s.op.CompletePrepared? && s.storageUp && s.op.id in s.uploads && s.op.id in s.parts
       && CanCreate(s.files, s.uploads[s.op.id].target) then
      Some(s.(files := s.files[s.uploads[s.op.id].target := File(s.op.id, s.parts[s.op.id])],
              parts := s.parts - {s.op.id},
              op := CompletePublished(s.op.id)))
    else None
  }

  /** ResetFinalizing as a transaction. */
  function ResetUploadRow(s: State, u: Id): Option<State> {
    if u in s.uploads && s.uploads[u].status == Finalizing then
      Some(s.(uploads := s.uploads[u := s.uploads[u].(status := Pending)], health := Clear(s.health, UploadOf(u))))
    else None
  }

  function ResetFinalizing(s: State): Option<State> {
    if s.op.CompletePrepared? && s.op.from == Pending then Released(ResetUploadRow(s, s.op.id)) else None
  }

  /** Complete on a row whose part is already gone. */
  function AdoptPublished(s: State, u: Id): Option<State> {
    if s.phase.Serving? && s.storageUp && s.op.Idle? && u in s.uploads && !Locked(s, u) && u !in s.parts
       && s.uploads[u].status == Finalizing && s.uploads[u].target in s.files
       && s.files[s.uploads[u].target].File? && |s.files[s.uploads[u].target].data| == s.uploads[u].total then
      Some(s.(op := CompletePublished(u)))
    else None
  }

  /** CompleteWithAudit as a transaction, with ConfirmActiveInTransaction inside. */
  function CompleteUploadRow(s: State, u: Id): Option<State> {
    if u in s.uploads && s.uploads[u].status == Finalizing && MayRepair(s.health, UploadOf(u)) then
      var row := s.uploads[u];
      if (if row.target in s.visible then s.visible[row.target] == FileMeta(row.total) else RowAvailable(s.visible, row.target)) then
        Some(s.(visible := s.visible[row.target := FileMeta(row.total)],
                uploads := s.uploads[u := row.(status := Completed)],
                health := Clear(s.health, UploadOf(u))))
      else None
    else None
  }

  function CommitComplete(s: State): Option<State> {
    if s.op.CompletePublished? then Released(CompleteUploadRow(s, s.op.id)) else None
  }

  function FailComplete(s: State): Option<State> {
    if s.op.CompletePublished? then Some(s.(health := Mark(s.health, UploadOf(s.op.id)), op := Idle)) else None
  }

  /** MarkUnhealthy from a download, outside the mutation lock. */
  function DownloadMark(s: State, r: Reason): Option<State> {
    if s.phase.Serving? && (r.DownloadOpen? || r.DownloadMetadata?) then
      Some(s.(health := Mark(s.health, r)))
    else None
  }

  /****** runs ******/

  /** Process life, startup, offline reindex, and the download mark. */
  datatype ProcessStep =
    | EvCrash
    | EvStart(up: bool)
    | EvStorageLost
    | EvReconcileTrash(id: Id)
    | EvTrashReconciled
    | EvReconcileUpload(id: Id)
    | EvReconcileUploadFails(id: Id)
    | EvServe(gate: bool)
    | EvReindex
    | EvDownloadMark(reason: Reason)

  /** Mkdir and move, with their intents and compensations. */
  datatype TreeStep =
    | EvBeginMkdir(path: Path)
    | EvFsMkdir
    | EvCommitMkdir
    | EvUndoMkdir
    | EvBeginMove(src: Path, dst: Path)
    | EvFsMove
    | EvCommitMove
    | EvUndoMove
    | EvAbort
    | EvClearMutation
    | EvGiveUp

  /** Trash and restore. */
  datatype TrashStep =
    | EvPrepareTrash(id: Id, path: Path)
    | EvFsTrash
    | EvAbortTrash
    | EvCommitTrash
    | EvFailTrash
    | EvBeginRestore(id: Id)
    | EvFsRestore
    | EvRollbackRestore
    | EvFinishRestore
    | EvFailRestore

  /** The resumable upload tables and publication. */
  datatype UploadStep =
    | EvCreatePart(id: Id)
    | EvCreateUpload(id: Id, target: Path, total: nat)
    | EvDropPart(id: Id)
    | EvWritePart(id: Id, data: Bytes)
    | EvLockUpload(id: Id)
    | EvRemovePart(id: Id)
    | EvFinishUncompleted(id: Id, status: Status)
    | EvUnlockUpload(id: Id)
    | EvVerifyPart(id: Id)
    | EvPrepareFinalization(now: int)
    | EvFsFinalize
    | EvResetFinalizing
    | EvAdoptPublished(id: Id)
    | EvCommitComplete
    | EvFailComplete

  datatype Event = Process(p: ProcessStep) | OnTree(t: TreeStep) | OnTrash(b: TrashStep) | OnUpload(u: UploadStep)

  function ApplyProcessStep(s: State, e: ProcessStep): Option<State> {
    match e
    case EvCrash => Some(Crash(s))
    case EvStart(up) => Start(s, up)
    case EvStorageLost => StorageLost(s)
    case EvReconcileTrash(id) => ReconcileTrash(s, id)
    case EvTrashReconciled => TrashReconciled(s)
    case EvReconcileUpload(u) => ReconcileUpload(s, u)
    case EvReconcileUploadFails(u) => ReconcileUploadFails(s, u)
    case EvServe(gate) => Serve(s, gate)
    case EvReindex => Reindex(s)
    case EvDownloadMark(r) => DownloadMark(s, r)
  }

  function ApplyTreeStep(s: State, e: TreeStep): Option<State> {
    match e
    case EvBeginMkdir(p) => BeginMkdir(s, p)
    case EvFsMkdir => FsMkdir(s)
    case EvCommitMkdir => CommitMkdir(s)
    case EvUndoMkdir => UndoMkdir(s)
    case EvBeginMove(src, dst) => BeginMove(s, src, dst)
    case EvFsMove => FsMove(s)
    case EvCommitMove => CommitMove(s)
    case EvUndoMove => UndoMove(s)
    case EvAbort => Abort(s)
    case EvClearMutation => ClearMutation(s)
    case EvGiveUp => GiveUp(s)
  }

  function ApplyTrashStep(s: State, e: TrashStep): Option<State> {
    match e
    case EvPrepareTrash(id, p) => PrepareTrash(s, id, p)
    case EvFsTrash => FsTrash(s)
    case EvAbortTrash => AbortTrash(s)
    case EvCommitTrash => CommitTrash(s)
    case EvFailTrash => FailTrash(s)
    case EvBeginRestore(id) => BeginRestore(s, id)
    case EvFsRestore => FsRestore(s)
    case EvRollbackRestore => RollbackRestore(s)
    case EvFinishRestore => FinishRestore(s)
    case EvFailRestore => FailRestore(s)
  }

  function ApplyUploadStep(s: State, e: UploadStep): Option<State> {
    match e
    case EvCreatePart(u) => CreatePart(s, u)
    case EvCreateUpload(u, target, total) => CreateUpload(s, u, target, total)
    case EvDropPart(u) => DropPart(s, u)
    case EvWritePart(u, data) => WritePart(s, u, data)
    case EvLockUpload(u) => LockUpload(s, u)
    case EvRemovePart(u) => RemovePart(s, u)
    case EvFinishUncompleted(u, status) => FinishUncompleted(s, u, status)
    case EvUnlockUpload(u) => UnlockUpload(s, u)
    case EvVerifyPart(u) => VerifyPart(s, u)
    case EvPrepareFinalization(now) => PrepareFinalization(s, now)
    case EvFsFinalize => FsFinalize(s)
    case EvResetFinalizing => ResetFinalizing(s)
    case EvAdoptPublished(u) => AdoptPublished(s, u)
    case EvCommitComplete => CommitComplete(s)
    case EvFailComplete => FailComplete(s)
  }

  /** The state after one atomic step; None when the step cannot happen. */
  function Apply(s: State, e: Event): Option<State> {
    match e
    case Process(p) => ApplyProcessStep(s, p)
    case OnTree(t) => ApplyTreeStep(s, t)
    case OnTrash(b) => ApplyTrashStep(s, b)
    case OnUpload(u) => ApplyUploadStep(s, u)
  }

  /** A whole run, from its first step to its last. */
  function Exec(s: State, es: seq<Event>): Option<State> {
    if es == [] then Some(s)
    else
      var r := Exec(s, es[..|es| - 1]);
      if r.None? then None else Apply(r.value, es[|es| - 1])
  }
}
