/** Published files are never lost, overwritten, duplicated or altered. */
module Conservation {
  import opened Paths
  import opened World
  import opened Invariant
  import opened Trees
  import opened Protocol

  ghost predicate HeldIn(s: State, pl: Place, f: Node) {
    Holds(s.files, s.trash, pl, f)
  }

  /** Every file of `s` is somewhere in `t`, unchanged. */
  ghost predicate Conserves(s: State, t: State) {
    forall pl, f :: HeldIn(s, pl, f) ==> exists pl' :: HeldIn(t, pl', f)
  }

  lemma SamePlaces(s: State, t: State)
    requires forall pl, f :: HeldIn(s, pl, f) ==> HeldIn(t, pl, f)
    ensures Conserves(s, t)
  {
    forall pl, f | HeldIn(s, pl, f) ensures exists pl' :: HeldIn(t, pl', f) {
      assert HeldIn(t, pl, f);
    }
  }

  lemma MovedPlaces(s: State, t: State, forth: Place -> Place)
    requires forall pl, f :: HeldIn(s, pl, f) ==> HeldIn(t, forth(pl), f)
    ensures Conserves(s, t)
  {
    forall pl, f | HeldIn(s, pl, f) ensures exists pl' :: HeldIn(t, pl', f) {
      assert HeldIn(t, forth(pl), f);
    }
  }

  lemma RenameConserves(s: State, t: State, src: Path, dst: Path)
    requires TreeOk(s.files) && CanRename(s.files, src, dst)
    requires t.files == Renamed(s.files, src, dst) && t.trash == s.trash
    ensures Conserves(s, t)
  {
    RenamedTree(s.files, src, dst);
    var forth := (pl: Place) => if pl.InFiles? && src <= pl.path then InFiles(dst + pl.path[|src|..]) else pl;
    forall pl, f | HeldIn(s, pl, f) ensures HeldIn(t, forth(pl), f) {
      if pl.InFiles? && src <= pl.path {
        assert src + pl.path[|src|..] == pl.path;
        AttachKey(Detach(s.files, src), dst, pl.path[|src|..]);
      }
    }
    MovedPlaces(s, t, forth);
  }

  lemma TrashConserves(s: State, t: State, p: Path, id: Id)
    requires id !in s.trash && t.files == Without(s.files, p) && t.trash == s.trash[id := Detach(s.files, p)]
    ensures Conserves(s, t)
  {
    var forth := (pl: Place) => if pl.InFiles? && p <= pl.path then InTrash(id, pl.path[|p|..]) else pl;
    forall pl, f | HeldIn(s, pl, f) ensures HeldIn(t, forth(pl), f) {
      if pl.InFiles? && p <= pl.path {
        assert p + pl.path[|p|..] == pl.path;
      }
    }
    MovedPlaces(s, t, forth);
  }

  lemma RestoreConserves(s: State, t: State, p: Path, id: Id)
    requires TreeOk(s.files) && CanCreate(s.files, p) && id in s.trash && PayloadOk(s.trash[id])
    requires t.files == s.files + Attach(s.trash[id], p) && t.trash == s.trash - {id}
    ensures Conserves(s, t)
  {
    AttachedTree(s.files, s.trash[id], p);
    var forth := (pl: Place) => if pl.InTrash? && pl.id == id then InFiles(p + pl.rel) else pl;
    forall pl, f | HeldIn(s, pl, f) ensures HeldIn(t, forth(pl), f) {
      if pl.InTrash? && pl.id == id {
        AttachKey(s.trash[id], p, pl.rel);
      }
    }
    MovedPlaces(s, t, forth);
  }

  predicate SameContent(s: State, r: Option<State>) {
    r.Some? ==> r.value.files == s.files && r.value.trash == s.trash
  }

  lemma ReconcileTrashLeaves(s: State, id: Id)
    ensures SameContent(s, ReconcileTrash(s, id))
  {
    hide ThroughFile, Clear, MayRepair, Under, Without;
  }

  lemma ReconcileUploadLeaves(s: State, u: Id)
    ensures SameContent(s, ReconcileUpload(s, u))
  {
    hide ThroughFile, Clear, MayRepair, RowAvailable;
  }

  lemma LifeLeaves(s: State, up: bool)
    ensures SameContent(s, Some(Crash(s))) && SameContent(s, Start(s, up)) && SameContent(s, StorageLost(s))
    ensures SameContent(s, TrashReconciled(s))
  {
    hide NoTransitionalTrash;
  }

  lemma ServeLeaves(s: State, gate: bool)
    ensures SameContent(s, Serve(s, gate))
  {
    hide NoTransitionalTrash, NoFinalizing;
  }

  lemma FlagLeaves(s: State, u: Id, r: Reason)
    ensures SameContent(s, ReconcileUploadFails(s, u)) && SameContent(s, Reindex(s)) && SameContent(s, DownloadMark(s, r))
  {
    hide PathsAccepted, MetaOf, Attach, Mark;
  }

  lemma ProcessStepLeaves(s: State, e: ProcessStep)
    ensures SameContent(s, ApplyProcessStep(s, e))
  {
    hide SameContent, Crash, Start, StorageLost, ReconcileTrash, TrashReconciled, ReconcileUpload, ReconcileUploadFails, Serve, Reindex,
         DownloadMark;
    match e
    case EvReconcileTrash(id) => ReconcileTrashLeaves(s, id);
    case EvReconcileUpload(u) => ReconcileUploadLeaves(s, u);
    case EvReconcileUploadFails(u) => FlagLeaves(s, u, Multiple);
    case EvReindex => FlagLeaves(s, "", Multiple);
    case EvDownloadMark(r) => FlagLeaves(s, "", r);
    case EvStart(up) => LifeLeaves(s, up);
    case EvServe(gate) => ServeLeaves(s, gate);
    case _ => LifeLeaves(s, false);
  }

  lemma TreeStepConserves(s: State, e: TreeStep)
    requires Inv(s) && ApplyTreeStep(s, e).Some?
    ensures Conserves(s, ApplyTreeStep(s, e).value)
  {
    hide Accepted, MoveFits, OriginsOk, FinalizingOk, AgreeState, PhaseOk, DoubtOk, IntentOk, Conserves, TreeOk, PayloadOk,
         Attach, Detach, Without, Renamed, RowAvailable, Clear;
    var t := ApplyTreeStep(s, e).value;
    match e
    case EvFsMove => RenameConserves(s, t, s.op.src, s.op.dst);
    case EvUndoMove => RenameConserves(s, t, s.op.dst, s.op.src);
    case _ => SamePlaces(s, t);
  }

  lemma TrashStepConserves(s: State, e: TrashStep)
    requires Inv(s) && ApplyTrashStep(s, e).Some?
    ensures Conserves(s, ApplyTrashStep(s, e).value)
  {
    hide OriginsOk, FinalizingOk, AgreeState, PhaseOk, DoubtOk, IntentOk, OpOk, Conserves, TreeOk, PayloadOk,
         Attach, Detach, Under, Without, Clear, Mark, MayRepair;
    var t := ApplyTrashStep(s, e).value;
    match e
    case EvFsTrash => TrashConserves(s, t, s.trashRows[s.op.id].path, s.op.id);
    case EvFsRestore => RestoreConserves(s, t, s.trashRows[s.op.id].path, s.op.id);
    case _ => SamePlaces(s, t);
  }

  lemma UploadStepConserves(s: State, e: UploadStep)
    requires Inv(s) && ApplyUploadStep(s, e).Some?
    ensures Conserves(s, ApplyUploadStep(s, e).value)
  {
    hide Accepted, Inv, Conserves, Locked, RowAvailable, Clear, Mark, MayRepair;
    SamePlaces(s, ApplyUploadStep(s, e).value);
  }

  lemma StepConserves(s: State, e: Event)
    requires Inv(s) && Apply(s, e).Some?
    ensures Conserves(s, Apply(s, e).value)
  {
    hide Inv, Conserves, ApplyProcessStep, ApplyTreeStep, ApplyTrashStep, ApplyUploadStep;
    match e
    case Process(p) =>
      ProcessStepLeaves(s, p);
      SamePlaces(s, ApplyProcessStep(s, p).value);
    case OnTree(t) => TreeStepConserves(s, t);
    case OnTrash(b) => TrashStepConserves(s, b);
    case OnUpload(u) => UploadStepConserves(s, u);
  }

  lemma ConservesChain(r: State, s: State, t: State)
    requires Conserves(r, s) && Conserves(s, t)
    ensures Conserves(r, t)
  {
    forall pl, f | HeldIn(r, pl, f) ensures exists pl' :: HeldIn(t, pl', f) {
      var mid :| HeldIn(s, mid, f);
    }
  }

  lemma {:induction false} RunConserves(s: State, es: seq<Event>)
    requires Inv(s) && Exec(s, es).Some?
    ensures Inv(Exec(s, es).value) && Conserves(s, Exec(s, es).value)
  {
    hide Inv, Apply, Conserves;
    if es == [] {
      assert Conserves(s, s) by { SamePlaces(s, s); }
    } else {
      var mid := Exec(s, es[..|es| - 1]).value;
      RunConserves(s, es[..|es| - 1]);
      ApplyKeeps(mid, es[|es| - 1]);
      StepConserves(mid, es[|es| - 1]);
      ConservesChain(s, mid, Exec(s, es).value);
    }
  }

  /** From any reachable state, through any further run: each published file is
      afterwards in exactly one place, with the same origin and the same bytes. */
  lemma FilesConserved(fold: char -> char, past: seq<Event>, future: seq<Event>, pl: Place, f: Node)
    requires Exec(Empty(fold), past).Some? && Exec(Exec(Empty(fold), past).value, future).Some?
    requires HeldIn(Exec(Empty(fold), past).value, pl, f)
    ensures var t := Exec(Exec(Empty(fold), past).value, future).value;
      exists pl' :: HeldIn(t, pl', f) && forall other, g :: HeldIn(t, other, g) && g.origin == f.origin ==> other == pl' && g == f
  {
    hide ContentOk, FinalizingOk, AgreeState, OpOk, DoubtOk, IntentOk, PhaseOk, Exec;
    RunKeeps(fold, past);
    RunConserves(Exec(Empty(fold), past).value, future);
    var t := Exec(Exec(Empty(fold), past).value, future).value;
    var pl' :| HeldIn(t, pl', f);
    forall other, g | HeldIn(t, other, g) && g.origin == f.origin ensures other == pl' && g == f {
      SamePlaceSameFile(t, pl', f, other, g);
    }
  }

  lemma SamePlaceSameFile(t: State, pl: Place, f: Node, pl': Place, f': Node)
    requires OriginsOk(t.files, t.trash, t.parts, t.uploads)
    requires HeldIn(t, pl, f) && HeldIn(t, pl', f') && f.origin == f'.origin
    ensures pl == pl' && f == f'
  {
  }

  /** A publication puts the verified part of its upload at the target. */
  lemma PublicationHolds(s: State)
    requires Inv(s) && FsFinalize(s).Some?
    ensures HeldIn(FsFinalize(s).value, InFiles(s.uploads[s.op.id].target), File(s.op.id, s.uploads[s.op.id].verified))
  {
    hide ContentOk, OriginsOk, AgreeState, DoubtOk, IntentOk, PhaseOk;
  }
}
