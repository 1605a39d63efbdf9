/** The steps that move content or rewrite rows keep the invariant. */
module FileSteps {
  import opened Paths
  import opened World
  import opened Invariant
  import opened Trees
  import opened Recovery

  /** With nothing in doubt the finalizing uploads still own their parts. */
  lemma FinalizingKept(files: Tree, files': Tree, parts: map<Id, Bytes>, uploads: map<Id, UploadRow>)
    requires FinalizingOk(files, parts, uploads)
    requires forall u | Published(parts, uploads, u) ::
      uploads[u].target in files' && (uploads[u].target in files ==> files'[uploads[u].target] == files[uploads[u].target])
    ensures FinalizingOk(files', parts, uploads)
  {
    forall u | u in uploads && uploads[u].status == Finalizing && u !in parts
      ensures uploads[u].target in files' && files'[uploads[u].target] == File(u, uploads[u].verified)
    {
      assert Published(parts, uploads, u);
    }
  }

  /****** mkdir ******/

  lemma FsMkdirKeeps(s: State)
    requires Inv(s) && FsMkdir(s).Some?
    ensures Inv(FsMkdir(s).value)
  {
    hide OriginsOk, FinalizingOk, Agree, PublishedTargets, TreeOk, PayloadOk, HiddenOk;
    var p, s' := s.op.path, FsMkdir(s).value;
    CreatedTree(s.files, p, Dir);
    OriginsMoved(s.files, s.trash, s'.files, s'.trash, s.parts, s.uploads, pl => pl);
    FinalizingKept(s.files, s'.files, s.parts, s.uploads);
    if s.health == Unhealthy(MkdirPending) {
      AgreeWithoutDoubt(s);
      assert MetaOf(s'.files) == s.visible[p := DirMeta];
    }
  }

  lemma RemovedDirectory(t: Tree, p: Path)
    requires TreeOk(t) && forall q | q in t && p <= q :: q == p
    ensures TreeOk(t - {p})
  {
    forall q | q in t - {p} && |q| > 1 ensures InDirectory(t - {p}, q) {
      assert InDirectory(t, q);
      assert Parent(q) == p ==> p <= q;
    }
  }

  lemma UndoMkdirKeeps(s: State)
    requires Inv(s) && UndoMkdir(s).Some?
    ensures Inv(UndoMkdir(s).value)
  {
    hide OriginsOk, FinalizingOk, Agree, PublishedTargets, TreeOk, PayloadOk, HiddenOk;
    var p, s' := s.op.path, UndoMkdir(s).value;
    RemovedDirectory(s.files, p);
    OriginsMoved(s.files, s.trash, s'.files, s'.trash, s.parts, s.uploads, pl => pl);
    FinalizingKept(s.files, s'.files, s.parts, s.uploads);
    if s.health == Unhealthy(MkdirPending) {
      assert MetaOf(s'.files) == MetaOf(s.files) - {p} == s.visible;
      AgreeFromEqual(s');
    }
  }

  lemma CommitMkdirKeeps(s: State)
    requires Inv(s) && CommitMkdir(s).Some?
    ensures Inv(CommitMkdir(s).value)
  {
    hide Accepted, ContentOk, OriginsOk, FinalizingOk, Agree, PublishedTargets, MetaOf, HiddenOk;
    AgreeFromEqual(CommitMkdir(s).value);
  }

  /****** move ******/

  function MovedBack(src: Path, dst: Path, pl: Place): Place {
    if pl.InFiles? && dst <= pl.path then InFiles(src + pl.path[|dst|..]) else pl
  }

  lemma RenameOrigins(files: Tree, trash: map<Id, Tree>, parts: map<Id, Bytes>, uploads: map<Id, UploadRow>, src: Path, dst: Path)
    requires TreeOk(files) && CanRename(files, src, dst) && OriginsOk(files, trash, parts, uploads)
    ensures OriginsOk(Renamed(files, src, dst), trash, parts, uploads)
  {
    hide OriginsOk;
    RenamedTree(files, src, dst);
    var files' := Renamed(files, src, dst);
    var back := pl => MovedBack(src, dst, pl);
    forall pl, pl', f, f' |
      Holds(files', trash, pl, f) && Holds(files', trash, pl', f') && back(pl) == back(pl')
      ensures pl == pl'
    {
      if pl.InFiles? && dst <= pl.path && pl'.InFiles? && dst <= pl'.path {
        assert pl.path[|dst|..] == (src + pl.path[|dst|..])[|src|..];
        assert pl'.path[|dst|..] == (src + pl'.path[|dst|..])[|src|..];
        assert pl.path == dst + pl.path[|dst|..] && pl'.path == dst + pl'.path[|dst|..];
      }
    }
    OriginsMoved(files, trash, files', trash, parts, uploads, back);
  }

  lemma FsMoveKeeps(s: State)
    requires Inv(s) && FsMove(s).Some?
    ensures Inv(FsMove(s).value)
  {
    hide OriginsOk, FinalizingOk, Agree, PublishedTargets, TreeOk, PayloadOk, HiddenOk, Renamed;
    var src, dst, s' := s.op.src, s.op.dst, FsMove(s).value;
    RenamedTree(s.files, src, dst);
    RenameOrigins(s.files, s.trash, s.parts, s.uploads, src, dst);
    FinalizingKept(s.files, s'.files, s.parts, s.uploads);
    if s.health == Unhealthy(MovePending) {
      AgreeWithoutDoubt(s);
      MetaRenamed(s.files, src, dst);
    }
  }

  lemma UndoMoveKeeps(s: State)
    requires Inv(s) && UndoMove(s).Some?
    ensures Inv(UndoMove(s).value)
  {
    hide OriginsOk, FinalizingOk, Agree, PublishedTargets, TreeOk, PayloadOk, HiddenOk, Renamed;
    var src, dst, s' := s.op.src, s.op.dst, UndoMove(s).value;
    RenamedTree(s.files, dst, src);
    RenameOrigins(s.files, s.trash, s.parts, s.uploads, dst, src);
    FinalizingKept(s.files, s'.files, s.parts, s.uploads);
    if s.health == Unhealthy(MovePending) {
      MetaRenamed(s.files, dst, src);
      RenameInverse(s.visible, src, dst);
      AgreeFromEqual(s');
    }
  }

  lemma CommitMoveKeeps(s: State)
    requires Inv(s) && CommitMove(s).Some?
    ensures Inv(CommitMove(s).value)
  {
    hide MoveFits, ContentOk, OriginsOk, FinalizingOk, Agree, PublishedTargets, MetaOf, HiddenOk, Renamed, RowAvailable, Without, Attach, Detach;
    AgreeFromEqual(CommitMove(s).value);
  }
}
