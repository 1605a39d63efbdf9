/** When a commit is refused, and what pairs of operations give back. */
module Outcomes {
  import opened Paths
  import opened World
  import opened Invariant
  import opened Trees
  import opened Recovery
  import opened FileSteps
  import opened TrashSteps
  import opened Protocol
  import opened Limits

  /****** a commit is refused only by the health flag ******/

  lemma ParentShown(files: Tree, visible: Rows, p: Path)
    requires TreeOk(files) && p in files && p != []
    requires |p| > 1 && Parent(p) in files ==> Parent(p) in visible && visible[Parent(p)] == MetaOfNode(files[Parent(p)])
    requires p !in visible
    ensures RowAvailable(visible, p)
  {
    if |p| > 1 {
      assert InDirectory(files, p);
    }
  }

  /** Once the directory exists, its row can be inserted exactly while the intent
      is still the recorded reason, if NewEntry makes a row. */
  lemma MkdirCommitsExactly(s: State)
    requires Inv(s) && s.op.MkdirMade?
    ensures CommitMkdir(s).Some? <==> s.health == Unhealthy(MkdirPending) && Accepted(s.op.path, s.fold)
  {
    hide Accepted, OriginsOk, FinalizingOk, AgreeState, PhaseOk, DoubtOk, HiddenOk, PayloadOk, TreeOk;
    if s.health == Unhealthy(MkdirPending) {
      var p := s.op.path;
      assert p != [] by { TreeHasNoRoot(s.files); }
      assert |p| > 1 && Parent(p) in s.files ==> Parent(p) in MetaOf(s.files) && Parent(p) != p;
      ParentShown(s.files, s.visible, p);
    }
  }

  lemma TreeHasNoRoot(t: Tree)
    requires TreeOk(t)
    ensures [] !in t
  {
  }

  /** Once the storage renamed, the rows can be rewritten exactly while the intent is
      still the recorded reason and the columns can hold every new path. */
  lemma MoveCommitsExactly(s: State)
    requires Inv(s) && s.op.MoveMade?
    ensures CommitMove(s).Some? <==>
      s.health == Unhealthy(MovePending) && MoveFits(s.visible, s.op.src, s.op.dst, s.fold)
  {
    hide MoveFits, OriginsOk, FinalizingOk, AgreeState, PhaseOk, DoubtOk, HiddenOk, PayloadOk, TreeOk, Attach, Detach;
    if s.health == Unhealthy(MovePending) {
      var src, dst := s.op.src, s.op.dst;
      assert src + [] == src;
      AttachKey(Detach(s.visible, src), dst, []);
      assert dst + [] == dst;
      assert dst in MetaOf(s.files);
      assert |dst| > 1 && Parent(dst) in s.files ==> Parent(dst) in MetaOf(s.files) && !(dst <= Parent(dst));
      ParentShown(s.files, s.visible, dst);
      assert forall q | q in Attach(Detach(s.visible, src), dst) :: dst <= q;
    }
  }

  lemma TrashCommitsExactly(s: State, id: Id)
    requires Inv(s) && Moved(s.trash, s.trashRows, id)
    requires forall q | q in s.files :: !(s.trashRows[id].path <= q)
    ensures CommitTrashRow(s, id).Some? <==> MayRepair(s.health, TrashOf(id))
  {
    hide OriginsOk, FinalizingOk, PhaseOk, DoubtOk, OpOk, IntentOk, HiddenOk, TreeOk, MetaOf, Attach, ReturnedOk, ContentShown, PublishedTargets;
    if MayRepair(s.health, TrashOf(id)) {
      var p := s.trashRows[id].path;
      MovedRows(s.files, s.trash, s.trashRows, s.visible, id);
      RootAttached(s.trash[id], p);
      assert p in Under(s.visible, p);
    }
  }

  lemma RootAttached(t: Tree, p: Path)
    requires PayloadOk(t)
    ensures p in Attach(MetaOf(t), p)
  {
    AttachKey(MetaOf(t), p, []);
    assert p + [] == p;
  }

  /** A restore that succeeded on disk meets no row at any of its paths. */
  lemma RestoreCommitsExactly(s: State, id: Id)
    requires Inv(s) && Returned(s.trash, s.trashRows, id)
    ensures FinishRestoreRow(s, id).Some? <==> MayRepair(s.health, RestoreOf(id))
    ensures MayRepair(s.health, RestoreOf(id)) ==> id in s.hidden && s.hidden[id].Keys !! s.visible.Keys
  {
    hide OriginsOk, FinalizingOk, PhaseOk, DoubtOk, OpOk, IntentOk, HiddenOk, ContentOk, MetaOf, Attach, ShownOk, ContentShown, PublishedTargets;
    if MayRepair(s.health, RestoreOf(id)) {
      assert forall q :: q in s.hidden[id].Keys ==> q !in s.visible.Keys;
    }
  }

  lemma PublicationCommitsExactly(s: State, u: Id)
    requires Inv(s) && Published(s.parts, s.uploads, u) && NothingMoved(s.trash, s.trashRows)
    ensures CompleteUploadRow(s, u).Some? <==> MayRepair(s.health, UploadOf(u))
  {
    hide OriginsOk, PhaseOk, DoubtOk, OpOk, IntentOk, HiddenOk, PayloadOk, TreeOk, MetaOf, Attach, GhostsShown, ReturnedOk, OneInDoubt;
    if MayRepair(s.health, UploadOf(u)) {
      var target := s.uploads[u].target;
      assert forall i :: !Moved(s.trash, s.trashRows, i) && !Returned(s.trash, s.trashRows, i);
      assert s.files[target] == File(u, s.uploads[u].verified);
      if target !in s.visible {
        TreeHasNoRoot(s.files);
        if |target| > 1 {
          DirectoryOf(s.files, target);
          PublishedAreFiles(s, Parent(target));
        }
        ParentShown(s.files, s.visible, target);
      }
    }
  }

  lemma DirectoryOf(t: Tree, p: Path)
    requires TreeOk(t) && p in t && |p| > 1
    ensures Parent(p) in t && t[Parent(p)].Dir?
  {
    assert InDirectory(t, p);
  }

  lemma PublishedAreFiles(s: State, p: Path)
    requires FinalizingOk(s.files, s.parts, s.uploads) && p in s.files && s.files[p].Dir?
    ensures p !in PublishedTargets(s.parts, s.uploads)
  {
  }

  /** reconcileTrashEntry settles a transitional row exactly when one of the two
      existence bits is set, and the flag lets a needed row rewrite through. */
  lemma ReconcileTrashExactly(s: State, id: Id)
    requires Inv(s) && s.phase.StartingTrash? && s.storageUp && id in s.trashRows && s.trashRows[id].state != Trashed
    ensures ReconcileTrash(s, id).Some? <==>
      var p := s.trashRows[id].path;
      && !ThroughFile(s.files, p)
      && ((id in s.trash) != (p in s.files))
      && (Moved(s.trash, s.trashRows, id) ==> MayRepair(s.health, TrashOf(id)))
      && (Returned(s.trash, s.trashRows, id) ==> MayRepair(s.health, RestoreOf(id)))
  {
    hide Inv, ThroughFile, CommitTrashRow, FinishRestoreRow, MayRepair;
    if Moved(s.trash, s.trashRows, id) && s.trashRows[id].path !in s.files {
      RowFree(s, id);
      TrashCommitsExactly(s, id);
    }
    if Returned(s.trash, s.trashRows, id) {
      RestoreCommitsExactly(s, id);
    }
  }

  /** reconcileFinalizingUpload settles the next finalizing row exactly when the part and
      the target are not both there, and the flag lets a publication through. */
  lemma ReconcileUploadExactly(s: State, u: Id)
    requires Inv(s) && s.phase.StartingUploads? && s.storageUp && ListedFirst(s.uploads, u)
    ensures ReconcileUpload(s, u).Some? <==>
      && !ThroughFile(s.files, s.uploads[u].target)
      && (if u in s.parts then s.uploads[u].target !in s.files else MayRepair(s.health, UploadOf(u)))
  {
    hide Inv, ThroughFile, CompleteUploadRow, MayRepair, Clear, ListedBefore;
    if u !in s.parts {
      UploadsFollowTrash(s);
      assert NothingMoved(s.trash, s.trashRows) by { SettledNothingMoved(s); }
      OwnTarget(s, u);
      PublicationCommitsExactly(s, u);
    }
  }

  lemma SettledNothingMoved(s: State)
    requires NoTransitionalTrash(s)
    ensures NothingMoved(s.trash, s.trashRows)
  {
  }

  lemma OwnTarget(s: State, u: Id)
    requires Inv(s) && Published(s.parts, s.uploads, u)
    ensures var row := s.uploads[u]; row.target in s.files && s.files[row.target] == File(u, row.verified) && |row.verified| == row.total
  {
    hide ContentOk, OriginsOk, AgreeState, OpOk, DoubtOk, IntentOk, PhaseOk;
  }

  lemma RowFree(s: State, id: Id)
    requires Inv(s) && id in s.trashRows && s.trashRows[id].path !in s.files
    ensures forall q | q in s.files :: !(s.trashRows[id].path <= q)
  {
    hide OriginsOk, FinalizingOk, AgreeState, PhaseOk, DoubtOk, OpOk, IntentOk;
    RowPathFree(s, id);
  }

  /****** pairs of operations ******/

  predicate Ready(s: State) {
    s.phase.Serving? && s.storageUp && s.op.Idle? && Settled(s)
  }

  function AfterTrash(s: State, id: Id, p: Path): Option<State> {
    var r1 := PrepareTrash(s, id, p);
    var r2 := if r1.Some? then FsTrash(r1.value) else None;
    if r2.Some? then CommitTrash(r2.value) else None
  }

  function AfterRestore(s: State, id: Id): Option<State> {
    var r1 := BeginRestore(s, id);
    var r2 := if r1.Some? then FsRestore(r1.value) else None;
    if r2.Some? then FinishRestore(r2.value) else None
  }

  lemma ReadyFacts(s: State, p: Path)
    requires Inv(s) && Ready(s) && p in s.files
    ensures p != [] && p in s.visible && s.visible == MetaOf(s.files)
    ensures s.trash.Keys == s.trashRows.Keys == s.hidden.Keys
  {
    hide OriginsOk, FinalizingOk, AgreeState, OpOk, DoubtOk, IntentOk, PhaseOk, PayloadOk, NoDoubt;
    SettledAgrees(s);
  }

  lemma SubtreeFacts(t: Tree, p: Path)
    requires TreeOk(t) && p in t && p != []
    ensures CanCreate(Without(t, p), p)
    ensures Without(t, p) + Attach(Detach(t, p), p) == t
  {
    hide Attach, Detach;
    SplitAt(t, p);
    if |p| > 1 {
      assert InDirectory(t, p);
    }
  }

  lemma RowFacts(v: Rows, p: Path)
    requires p in v
    ensures Under(v, p) != map[] && map[] + Under(v, p) == Under(v, p)
    ensures Under(v, p).Keys !! Without(v, p).Keys
    ensures Without(v, p) + Under(v, p) == v
  {
    assert p in Under(v, p);
  }

  /** Trash moves the whole subtree and hides exactly its rows. */
  lemma TrashEffect(s: State, id: Id, p: Path)
    requires Inv(s) && Ready(s) && id !in s.trashRows && p in s.files
    ensures AfterTrash(s, id, p) ==
      Some(s.(files := Without(s.files, p), trash := s.trash[id := Detach(s.files, p)],
              visible := Without(s.visible, p), hidden := s.hidden[id := Under(s.visible, p)],
              trashRows := s.trashRows[id := TrashRow(p, Trashed)]))
    ensures Inv(AfterTrash(s, id, p).value) && Ready(AfterTrash(s, id, p).value)
  {
    hide Inv, Ready;
    TrashResult(s, id, p);
    TrashEnds(s, id, p);
    StaysReady(s, AfterTrash(s, id, p).value, id, p);
  }

  lemma TrashResult(s: State, id: Id, p: Path)
    requires Inv(s) && Ready(s) && id !in s.trashRows && p in s.files
    ensures AfterTrash(s, id, p) ==
      Some(s.(files := Without(s.files, p), trash := s.trash[id := Detach(s.files, p)],
              visible := Without(s.visible, p), hidden := s.hidden[id := Under(s.visible, p)],
              trashRows := s.trashRows[id := TrashRow(p, Trashed)]))
  {
    hide Inv, Attach, Detach, Without, Under, MetaOf, CanCreate, NoTransitionalTrash, NoFinalizing;
    ReadyFacts(s, p);
    RowFacts(s.visible, p);
    assert s.trashRows[id := TrashRow(p, Trashing)][id := TrashRow(p, Trashed)] == s.trashRows[id := TrashRow(p, Trashed)];
  }

  lemma TrashEnds(s: State, id: Id, p: Path)
    requires Inv(s) && AfterTrash(s, id, p).Some?
    ensures Inv(AfterTrash(s, id, p).value)
  {
    hide Inv, FsTrash, PrepareTrash, CommitTrash;
    var s1 := PrepareTrash(s, id, p).value;
    PrepareTrashKeeps(s, id, p);
    FsTrashKeeps(s1);
    CommitTrashKeeps(FsTrash(s1).value);
  }

  /** Restoring a payload whose place is free brings content and rows back; a payload
      that is in trash always has its rows hidden, and none of them is shown. */
  lemma RestoreEffect(s: State, id: Id)
    requires Inv(s) && Ready(s) && id in s.trashRows && CanCreate(s.files, s.trashRows[id].path)
    ensures id in s.trash && id in s.hidden
    ensures AfterRestore(s, id) ==
      Some(s.(files := s.files + Attach(s.trash[id], s.trashRows[id].path), trash := s.trash - {id},
              visible := s.visible + s.hidden[id], hidden := s.hidden - {id}, trashRows := s.trashRows - {id}))
    ensures Inv(AfterRestore(s, id).value) && Ready(AfterRestore(s, id).value)
  {
    hide Inv, Attach, CanCreate, NoTransitionalTrash, NoFinalizing, FinishRestoreRow, MetaOf, Ready;
    RestoreFacts(s, id);
    BeginRestoreKeeps(s, id);
    var s1 := BeginRestore(s, id).value;
    FsRestoreKeeps(s1);
    var s2 := FsRestore(s1).value;
    RestoreCommitsExactly(s2, id);
    FinishRestoreKeeps(s2);
    FinishRowEffect(s2, id);
    var t := FinishRestore(s2).value;
    assert s2.trashRows - {id} == s.trashRows - {id};
    RestoredReady(s, t, id);
  }

  lemma FinishRowEffect(s: State, id: Id)
    requires FinishRestoreRow(s, id).Some?
    ensures id in s.hidden
    ensures FinishRestoreRow(s, id) == Some(s.(visible := s.visible + s.hidden[id], hidden := s.hidden - {id},
              trashRows := s.trashRows - {id}, health := Clear(s.health, RestoreOf(id))))
  {
  }

  lemma RestoreFacts(s: State, id: Id)
    requires Inv(s) && Ready(s) && id in s.trashRows
    ensures s.phase.Serving? && s.storageUp && s.op.Idle? && s.health.Healthy? && s.trashRows[id].state == Trashed
    ensures id in s.trash && id in s.hidden && s.hidden[id] != map[]
  {
    hide OriginsOk, FinalizingOk, AgreeState, OpOk, DoubtOk, IntentOk, PhaseOk, TreeOk, NoDoubt, MetaOf, Attach, CanCreate;
    SettledAgrees(s);
    RootAttached(s.trash[id], s.trashRows[id].path);
  }

  lemma RestoredReady(s: State, t: State, id: Id)
    requires Ready(s) && t.trashRows == s.trashRows - {id} && t.uploads == s.uploads
    requires t.phase == s.phase && t.storageUp == s.storageUp && t.op == s.op && t.health == s.health
    ensures Ready(t)
  {
  }

  /** Trash and restore give back the whole state, rows and content alike. */
  lemma TrashRestoreRoundTrip(s: State, id: Id, p: Path)
    requires Inv(s) && Ready(s) && id !in s.trashRows && p in s.files
    ensures AfterTrash(s, id, p).Some? && AfterRestore(AfterTrash(s, id, p).value, id) == Some(s)
  {
    hide Inv, Ready, Attach, Detach, Without, Under, MetaOf, CanCreate, AfterTrash, AfterRestore;
    ReadyFacts(s, p);
    TreeFact(s);
    SubtreeFacts(s.files, p);
    RowFacts(s.visible, p);
    TrashEffect(s, id, p);
    RestoreEffect(AfterTrash(s, id, p).value, id);
    DropAdded(s.trash, id, Detach(s.files, p));
    DropAdded(s.hidden, id, Under(s.visible, p));
    DropAdded(s.trashRows, id, TrashRow(p, Trashed));
  }

  lemma DropAdded<V>(m: map<Id, V>, id: Id, v: V)
    requires id !in m
    ensures m[id := v] - {id} == m
  {
  }

  lemma StaysReady(s: State, t: State, id: Id, p: Path)
    requires Ready(s) && t.trashRows == s.trashRows[id := TrashRow(p, Trashed)] && t.uploads == s.uploads
    requires t.phase == s.phase && t.storageUp == s.storageUp && t.op == s.op && t.health == s.health
    ensures Ready(t)
  {
  }

  lemma TreeFact(s: State)
    requires Inv(s)
    ensures TreeOk(s.files)
  {
    hide OriginsOk, FinalizingOk, AgreeState, OpOk, DoubtOk, IntentOk, PhaseOk;
  }

  function FsThenUndoMkdir(s: State, p: Path): Option<State> {
    var r1 := BeginMkdir(s, p);
    var r2 := if r1.Some? then FsMkdir(r1.value) else None;
    var r3 := if r2.Some? then UndoMkdir(r2.value) else None;
    if r3.Some? then ClearMutation(r3.value) else None
  }

  /** A mkdir whose transaction failed is compensated without a trace. */
  lemma MkdirCompensated(s: State, p: Path)
    requires Inv(s) && Ready(s) && CanCreate(s.files, p)
    ensures FsThenUndoMkdir(s, p) == Some(s)
  {
    hide Inv, NoTransitionalTrash, NoFinalizing;
    TreeFact(s);
    CreatedTree(s.files, p, Dir);
    assert s.files[p := Dir] - {p} == s.files;
  }

  function AfterMkdir(s: State, p: Path): Option<State> {
    var r1 := BeginMkdir(s, p);
    var r2 := if r1.Some? then FsMkdir(r1.value) else None;
    if r2.Some? then CommitMkdir(r2.value) else None
  }

  /** A mkdir that the storage accepts commits exactly when NewEntry makes a row. */
  lemma MkdirEffect(s: State, p: Path)
    requires Inv(s) && Ready(s) && CanCreate(s.files, p)
    ensures AfterMkdir(s, p) ==
      if Accepted(p, s.fold) then Some(s.(files := s.files[p := Dir], visible := s.visible[p := DirMeta])) else None
    ensures AfterMkdir(s, p).Some? ==> Inv(AfterMkdir(s, p).value) && Ready(AfterMkdir(s, p).value)
  {
    hide Inv, NoTransitionalTrash, NoFinalizing, Accepted, RowAvailable;
    BeginMkdirKeeps(s, p);
    var s1 := BeginMkdir(s, p).value;
    FsMkdirKeeps(s1);
    var s2 := FsMkdir(s1).value;
    MkdirCommitsExactly(s2);
    if Accepted(p, s.fold) {
      CommitMkdirKeeps(s2);
      SameTables(s, CommitMkdir(s2).value);
    }
  }

  lemma CanRenameBack(t: Tree, src: Path, dst: Path)
    requires TreeOk(t) && CanRename(t, src, dst)
    ensures CanRename(Renamed(t, src, dst), dst, src)
    ensures Renamed(Renamed(t, src, dst), dst, src) == t
  {
    RenamedTree(t, src, dst);
    RenameInverse(t, src, dst);
    assert src + [] == src && dst + [] == dst;
    AttachKey(Detach(t, src), dst, []);
    if |src| > 1 {
      assert InDirectory(t, src);
      assert dst <= Parent(src) ==> dst <= src;
    }
  }

  function FsThenUndoMove(s: State, src: Path, dst: Path): Option<State> {
    var r1 := BeginMove(s, src, dst);
    var r2 := if r1.Some? then FsMove(r1.value) else None;
    var r3 := if r2.Some? then UndoMove(r2.value) else None;
    if r3.Some? then ClearMutation(r3.value) else None
  }

  /** A move whose transaction failed is compensated without a trace. */
  lemma MoveCompensated(s: State, src: Path, dst: Path)
    requires Inv(s) && Ready(s) && CanRename(s.files, src, dst)
    ensures FsThenUndoMove(s, src, dst) == Some(s)
  {
    hide Inv, NoTransitionalTrash, NoFinalizing, CanRename, Renamed;
    TreeFact(s);
    CanRenameBack(s.files, src, dst);
    assert src != [] && dst != [] by { NamedEnds(s.files, src, dst); }
  }

  lemma NamedEnds(t: Tree, src: Path, dst: Path)
    requires CanRename(t, src, dst)
    ensures src != [] && dst != []
  {
  }

  function AfterMove(s: State, src: Path, dst: Path): Option<State> {
    var r1 := BeginMove(s, src, dst);
    var r2 := if r1.Some? then FsMove(r1.value) else None;
    if r2.Some? then CommitMove(r2.value) else None
  }

  /** A move that the storage accepts commits exactly when the columns can hold every
      new path, and renames rows as it renames content; otherwise it is compensated
      without a trace (MoveCompensated). */
  lemma MoveEffect(s: State, src: Path, dst: Path)
    requires Inv(s) && Ready(s) && CanRename(s.files, src, dst)
    ensures AfterMove(s, src, dst) ==
      if MoveFits(s.visible, src, dst, s.fold) then
        Some(s.(files := Renamed(s.files, src, dst), visible := Renamed(s.visible, src, dst)))
      else None
    ensures AfterMove(s, src, dst).Some? ==> Inv(AfterMove(s, src, dst).value) && Ready(AfterMove(s, src, dst).value)
  {
    hide Inv, NoTransitionalTrash, NoFinalizing, CanRename, Renamed, CommitMove, MoveFits;
    NamedEnds(s.files, src, dst);
    BeginMoveKeeps(s, src, dst);
    var s1 := BeginMove(s, src, dst).value;
    FsMoveKeeps(s1);
    var s2 := FsMove(s1).value;
    MoveCommitsExactly(s2);
    if MoveFits(s.visible, src, dst, s.fold) {
      CommitMoveKeeps(s2);
      CommitMoveEffect(s2);
      SameTables(s, CommitMove(s2).value);
    }
  }

  lemma CommitMoveEffect(s: State)
    requires CommitMove(s).Some?
    ensures s.op.MoveMade?
    ensures CommitMove(s) == Some(s.(visible := Renamed(s.visible, s.op.src, s.op.dst), health := Clear(s.health, MovePending), op := Idle))
  {
    hide Renamed;
  }

  lemma SameTables(s: State, t: State)
    requires t.trashRows == s.trashRows && t.uploads == s.uploads
    ensures NoTransitionalTrash(s) <==> NoTransitionalTrash(t)
    ensures NoFinalizing(s) <==> NoFinalizing(t)
  {
  }

  /** Moving there and back gives back the whole state: what a move put below `dst`
      can always go back. */
  lemma MoveRoundTrip(s: State, src: Path, dst: Path)
    requires Inv(s) && RowsFit(s) && Ready(s) && CanRename(s.files, src, dst) && MoveFits(s.visible, src, dst, s.fold)
    ensures AfterMove(s, src, dst).Some? && AfterMove(AfterMove(s, src, dst).value, dst, src) == Some(s)
  {
    hide Inv, Ready, CanRename, Renamed, AfterMove, MoveFits, RowsFit;
    TreeFact(s);
    MoveEffect(s, src, dst);
    CanRenameBack(s.files, src, dst);
    RowsRenameBack(s, src, dst);
    FitsBack(s, src, dst);
    MoveEffect(AfterMove(s, src, dst).value, dst, src);
  }

  lemma FitsBack(s: State, src: Path, dst: Path)
    requires RowsFit(s) && forall q | q in s.visible :: !(dst <= q)
    ensures MoveFits(Renamed(s.visible, src, dst), dst, src, s.fold)
  {
    hide ColumnsFit, Accepted;
    forall q | q in Renamed(s.visible, src, dst) && dst <= q ensures ColumnsFit(src + q[|dst|..], s.fold) {
      assert q[|dst|..] in Detach(s.visible, src);
    }
  }

  lemma RowsRenameBack(s: State, src: Path, dst: Path)
    requires Inv(s) && Ready(s) && CanRename(s.files, src, dst)
    ensures Renamed(Renamed(s.visible, src, dst), dst, src) == s.visible
    ensures forall q | q in s.visible :: !(dst <= q)
  {
    hide Inv, Ready, Renamed, IndexIsContent;
    TreeFact(s);
    RenamedTree(s.files, src, dst);
    ReadyFacts(s, src);
    assert forall q | q in s.visible :: q in s.files;
    RenameInverse(s.visible, src, dst);
  }
}
