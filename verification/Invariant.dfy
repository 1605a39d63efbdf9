/** What every reachable state of the recovery protocol satisfies. Each predicate
    takes only the parts of the state it speaks about. */
module Invariant {
  import opened Paths
  import opened World

  /****** shapes of the content plane ******/

  predicate InDirectory(t: Tree, p: Path) {
    p != [] ==> Parent(p) in t && t[Parent(p)].Dir?
  }

  ghost predicate TreeOk(t: Tree) {
    && [] !in t
    && forall p {:trigger InDirectory(t, p)} | p in t && |p| > 1 :: InDirectory(t, p)
  }

  ghost predicate PayloadOk(t: Tree) {
    && [] in t
    && forall r {:trigger InDirectory(t, r)} | r in t :: InDirectory(t, r)
  }

  ghost predicate ContentOk(files: Tree, trash: map<Id, Tree>, rows: map<Id, TrashRow>) {
    && TreeOk(files)
    && (forall id | id in trash :: PayloadOk(trash[id]) && id in rows)
    && (forall id | id in rows :: rows[id].path != [] && (rows[id].state == Trashed ==> id in trash))
  }

  /****** where a published file is ******/

  datatype Place = InFiles(path: Path) | InTrash(id: Id, rel: Path)

  ghost predicate Holds(files: Tree, trash: map<Id, Tree>, pl: Place, f: Node) {
    && f.File?
    && match pl
       case InFiles(p) => p in files && files[p] == f
       case InTrash(id, r) => id in trash && r in trash[id] && trash[id][r] == f
  }

  /** No file is in two places, and a published file no longer has a part. */
  ghost predicate OriginsOk(files: Tree, trash: map<Id, Tree>, parts: map<Id, Bytes>, uploads: map<Id, UploadRow>) {
    && (forall pl, pl', f, f' ::
          Holds(files, trash, pl, f) && Holds(files, trash, pl', f') && f.origin == f'.origin ==> pl == pl')
    && (forall pl, f :: Holds(files, trash, pl, f) ==>
          f.origin !in parts && f.origin in uploads && uploads[f.origin].status in {Finalizing, Completed})
  }

  /** A finalizing upload owns its verified part, or its target is that part. */
  ghost predicate FinalizingOk(files: Tree, parts: map<Id, Bytes>, uploads: map<Id, UploadRow>) {
    forall u | u in uploads && uploads[u].status == Finalizing ::
      var row := uploads[u];
      && |row.verified| == row.total
      && (if u in parts then parts[u] == row.verified
          else row.target in files && files[row.target] == File(u, row.verified))
  }

  /****** work left between a filesystem step and its transaction ******/

  ghost predicate Moved(trash: map<Id, Tree>, rows: map<Id, TrashRow>, id: Id) {
    id in rows && rows[id].state == Trashing && id in trash
  }

  ghost predicate Returned(trash: map<Id, Tree>, rows: map<Id, TrashRow>, id: Id) {
    id in rows && rows[id].state == Restoring && id !in trash
  }

  ghost predicate Published(parts: map<Id, Bytes>, uploads: map<Id, UploadRow>, u: Id) {
    u in uploads && uploads[u].status == Finalizing && u !in parts
  }

  ghost function PublishedTargets(parts: map<Id, Bytes>, uploads: map<Id, UploadRow>): set<Path> {
    set u | u in uploads && Published(parts, uploads, u) :: uploads[u].target
  }

  /** All work in doubt belongs to the given trash ids and uploads. */
  ghost predicate DoubtWithin(trash: map<Id, Tree>, rows: map<Id, TrashRow>, parts: map<Id, Bytes>,
                              uploads: map<Id, UploadRow>, ts: set<Id>, us: set<Id>)
  {
    && (forall id :: Moved(trash, rows, id) || Returned(trash, rows, id) ==> id in ts)
    && (forall u :: Published(parts, uploads, u) ==> u in us)
  }

  ghost predicate NoDoubt(s: State) {
    DoubtWithin(s.trash, s.trashRows, s.parts, s.uploads, {}, {})
  }

  /****** index against content ******/

  /** The rows of a trashed subtree that the index still shows. */
  ghost predicate GhostAt(trash: map<Id, Tree>, rows: map<Id, TrashRow>, id: Id, q: Path, m: Meta) {
    && Moved(trash, rows, id)
    && q in Attach(MetaOf(trash[id]), rows[id].path)
    && Attach(MetaOf(trash[id]), rows[id].path)[q] == m
  }

  /** A shown row describes content, or content that went to trash unrecorded. */
  ghost predicate ShownOk(files: Tree, trash: map<Id, Tree>, rows: map<Id, TrashRow>, visible: Rows) {
    forall q | q in visible ::
      || (q in files && visible[q] == MetaOfNode(files[q]))
      || (exists id :: GhostAt(trash, rows, id, q, visible[q]))
  }

  /** Content is shown, or came back from trash unrecorded, or was just published. */
  ghost predicate ContentShown(files: Tree, trash: map<Id, Tree>, rows: map<Id, TrashRow>, visible: Rows,
                               hidden: map<Id, Rows>, published: set<Path>)
  {
    forall q | q in files ::
      || (q in visible && visible[q] == MetaOfNode(files[q]))
      || q in published
      || (exists id :: Returned(trash, rows, id) && id in hidden && q in hidden[id])
  }

  ghost predicate GhostsShown(trash: map<Id, Tree>, rows: map<Id, TrashRow>, visible: Rows) {
    forall id | Moved(trash, rows, id) :: Attach(MetaOf(trash[id]), rows[id].path).Items <= visible.Items
  }

  ghost predicate ReturnedOk(files: Tree, trash: map<Id, Tree>, rows: map<Id, TrashRow>, visible: Rows, hidden: map<Id, Rows>) {
    forall id | Returned(trash, rows, id) ::
      && id in hidden
      && rows[id].path in hidden[id]
      && (forall q | q in hidden[id] ::
            rows[id].path <= q && q in files && hidden[id][q] == MetaOfNode(files[q]) && q !in visible)
  }

  ghost predicate HiddenOk(trash: map<Id, Tree>, rows: map<Id, TrashRow>, hidden: map<Id, Rows>) {
    && (forall id | id in rows && rows[id].state != Trashing && id in trash ::
          id in hidden && hidden[id] == Attach(MetaOf(trash[id]), rows[id].path))
    && (forall id | id in hidden :: id in rows && rows[id].state != Trashing)
  }

  ghost predicate OneInDoubt(trash: map<Id, Tree>, rows: map<Id, TrashRow>) {
    forall id, id' ::
      (Moved(trash, rows, id) || Returned(trash, rows, id)) && (Moved(trash, rows, id') || Returned(trash, rows, id'))
      ==> id == id'
  }

  /** Index and content agree except for work in doubt. */
  ghost predicate Agree(files: Tree, trash: map<Id, Tree>, rows: map<Id, TrashRow>, visible: Rows,
                        hidden: map<Id, Rows>, published: set<Path>)
  {
    && ShownOk(files, trash, rows, visible)
    && ContentShown(files, trash, rows, visible, hidden, published)
    && GhostsShown(trash, rows, visible)
    && ReturnedOk(files, trash, rows, visible, hidden)
    && HiddenOk(trash, rows, hidden)
    && OneInDoubt(trash, rows)
  }

  ghost predicate AgreeState(s: State) {
    Agree(s.files, s.trash, s.trashRows, s.visible, s.hidden, PublishedTargets(s.parts, s.uploads))
  }

  /****** what the unhealthy reason promises ******/

  /** The values of the flag that some repair may clear on its own. */
  predicate Trusted(h: Health) {
    h.Healthy? || h.reason.TrashOf? || h.reason.RestoreOf? || h.reason.UploadOf?
  }

  function BlamedTrash(h: Health): set<Id> {
    if h.Unhealthy? && (h.reason.TrashOf? || h.reason.RestoreOf?) then {h.reason.id} else {}
  }

  function BlamedUploads(h: Health): set<Id> {
    if h.Unhealthy? && h.reason.UploadOf? then {h.reason.id} else {}
  }

  /** Index against content while mkdir or move owns the reason. */
  ghost predicate IntentOk(s: State) {
    match s.op
    case MkdirBegun(_) => s.health == Unhealthy(MkdirPending) ==> AgreeState(s)
    case MoveBegun(_, _) => s.health == Unhealthy(MovePending) ==> AgreeState(s)
    case Aborting(r) => s.health == Unhealthy(r) ==> AgreeState(s)
    case MkdirMade(p) => s.health == Unhealthy(MkdirPending) ==>
      p !in s.visible && MetaOf(s.files) == s.visible[p := DirMeta] && HiddenOk(s.trash, s.trashRows, s.hidden)
    case MoveMade(src, dst) => s.health == Unhealthy(MovePending) ==>
      && src in s.visible && !(src <= dst) && !(dst <= src)
      && (forall q | q in s.visible :: !(dst <= q))
      && MetaOf(s.files) == Renamed(s.visible, src, dst)
      && HiddenOk(s.trash, s.trashRows, s.hidden)
    case _ => true
  }

  /** What the program counter of the lock holder knows. */
  ghost predicate OpOk(s: State) {
    match s.op
    case Idle => true
    case MkdirBegun(p) => p != [] && s.health in {Unhealthy(MkdirPending), Unhealthy(Multiple)}
    case MkdirMade(p) =>
      && s.health in {Unhealthy(MkdirPending), Unhealthy(Multiple)}
      && p in s.files && s.files[p] == Dir && (forall q | q in s.files && p <= q :: q == p)
    case MoveBegun(src, dst) => src != [] && dst != [] && s.health in {Unhealthy(MovePending), Unhealthy(Multiple)}
    case MoveMade(src, dst) => src != [] && dst != [] && s.health in {Unhealthy(MovePending), Unhealthy(Multiple)}
    case Aborting(r) => r in {MkdirPending, MovePending} && s.health in {Unhealthy(r), Unhealthy(Multiple)}
    case TrashPrepared(id) => id in s.trashRows && s.trashRows[id].state == Trashing && id !in s.trash
    case TrashMoved(id) =>
      && Moved(s.trash, s.trashRows, id)
      && (forall q | q in s.files :: !(s.trashRows[id].path <= q))
    case RestoreBegun(id) => id in s.trashRows && s.trashRows[id].state == Restoring && id in s.trash
    case RestoreMoved(id) => Returned(s.trash, s.trashRows, id)
    case CompleteVerified(u, from) =>
      && u !in s.exclusive && u in s.uploads && u in s.parts
      && s.uploads[u].status == from && from in {Pending, Finalizing}
      && |s.parts[u]| == s.uploads[u].total
    case CompletePrepared(u, from) =>
      && u !in s.exclusive && u in s.uploads && u in s.parts && s.uploads[u].status == Finalizing
    case CompletePublished(u) => u !in s.exclusive && Published(s.parts, s.uploads, u)
  }

  /** Which work may be in doubt while the server runs. */
  ghost predicate DoubtOk(s: State) {
    match s.op
    case Idle => s.phase.Serving? && s.storageUp && Trusted(s.health) ==>
      DoubtWithin(s.trash, s.trashRows, s.parts, s.uploads, BlamedTrash(s.health), BlamedUploads(s.health))
    case CompleteVerified(_, _) => s.storageUp && Trusted(s.health) ==>
      DoubtWithin(s.trash, s.trashRows, s.parts, s.uploads, BlamedTrash(s.health), BlamedUploads(s.health))
    case CompletePrepared(_, _) => s.storageUp && Trusted(s.health) ==>
      DoubtWithin(s.trash, s.trashRows, s.parts, s.uploads, BlamedTrash(s.health), BlamedUploads(s.health))
    case CompletePublished(u) => Trusted(s.health) ==>
      DoubtWithin(s.trash, s.trashRows, s.parts, s.uploads, BlamedTrash(s.health), BlamedUploads(s.health) + {u})
    case MkdirMade(_) => NoDoubt(s)
    case MoveMade(_, _) => NoDoubt(s)
    case TrashMoved(id) => DoubtWithin(s.trash, s.trashRows, s.parts, s.uploads, {id}, {})
    case RestoreMoved(id) => DoubtWithin(s.trash, s.trashRows, s.parts, s.uploads, {id}, {})
    case _ => s.storageUp ==> NoDoubt(s)
  }

  ghost predicate PhaseOk(s: State) {
    && (!s.phase.Serving? ==> s.op.Idle? && s.exclusive == {})
    && (forall u | u in s.exclusive :: u in s.uploads && s.uploads[u].status == Pending)
    && (s.phase.StartingUploads? ==> NoTransitionalTrash(s))
    && (forall u | u in s.uploads :: s.uploads[u].target != [])
  }

  ghost predicate Inv(s: State) {
    && ContentOk(s.files, s.trash, s.trashRows)
    && OriginsOk(s.files, s.trash, s.parts, s.uploads)
    && FinalizingOk(s.files, s.parts, s.uploads)
    && PhaseOk(s)
    && OpOk(s)
    && DoubtOk(s)
    && (Trusted(s.health) ==> AgreeState(s))
    && IntentOk(s)
  }
}
