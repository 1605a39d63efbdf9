/** Runs of real requests that end where recovery or a move is refused. */
module DeadEnds {
  import opened Paths
  import opened World
  import opened Invariant
  import opened LogicalPath
  import opened Protocol
  import opened Outcomes
  import opened Recovery
  import opened Runs
  import opened Settling
  import opened Recoverability
  import Ordering

  /****** nested directories, one mkdir at a time ******/

  function Prefixes<V>(p: Path, n: nat, v: V): (r: map<Path, V>)
    requires n <= |p|
    ensures forall q {:trigger q in r} :: q in r <==> 0 < |q| <= n && q <= p
    ensures forall q {:trigger r[q]} :: q in r ==> r[q] == v
  {
    if n == 0 then map[]
    else
      assert forall q: Path | |q| == n && q <= p :: q == p[..n];
      Prefixes(p, n - 1, v)[p[..n] := v]
  }

  function WithDirectories(s: State, p: Path, n: nat): State
    requires n <= |p|
  {
    s.(files := s.files + Prefixes(p, n, Dir), visible := s.visible + Prefixes(p, n, DirMeta))
  }

  lemma {:induction false} DirectoriesRun(s: State, p: Path, n: nat)
    requires Inv(s) && Ready(s) && n <= |p|
    requires forall k | 0 < k <= n :: Accepted(p[..k], s.fold) && p[..k] !in s.files
    ensures var t := WithDirectories(s, p, n); Leads(s, t) && Inv(t) && Ready(t)
  {
    hide Inv, Ready, Accepted, Leads, AfterMkdir, CanCreate, WithDirectories, Prefixes;
    if n == 0 {
      LeadsNowhere(s);
      NoDirectories(s, p);
    } else {
      DirectoriesRun(s, p, n - 1);
      var t, q := WithDirectories(s, p, n - 1), p[..n];
      NextDirectory(s, p, n);
      MkdirEffect(t, q);
      MkdirIsRun(t, q);
      LeadsOn(s, t, AfterMkdir(t, q).value);
    }
  }

  lemma NoDirectories(s: State, p: Path)
    ensures WithDirectories(s, p, 0) == s
  {
  }

  lemma NextDirectory(s: State, p: Path, n: nat)
    requires 0 < n <= |p| && p[..n] !in s.files
    ensures var t, q := WithDirectories(s, p, n - 1), p[..n];
      CanCreate(t.files, q) && t.fold == s.fold && WithDirectories(s, p, n) == t.(files := t.files[q := Dir], visible := t.visible[q := DirMeta])
  {
    hide Prefixes;
    assert Parent(p[..n]) == p[..n - 1];
    OneMorePrefix(s.files, p, n, Dir);
    OneMorePrefix(s.visible, p, n, DirMeta);
  }

  lemma OneMorePrefix<V>(m: map<Path, V>, p: Path, n: nat, v: V)
    requires 0 < n <= |p|
    ensures m + Prefixes(p, n, v) == (m + Prefixes(p, n - 1, v))[p[..n] := v]
  {
  }

  /****** paths of plain names ******/

  /** Lower-casing leaves these characters as they are. */
  predicate Plain(fold: char -> char) {
    fold('d') == 'd' && fold('e') == 'e' && fold('/') == '/'
  }

  predicate PlainText(s: string) {
    forall i | 0 <= i < |s| :: s[i] in "de/"
  }

  predicate PlainName(s: string) {
    0 < |s| <= 200 && forall i | 0 <= i < |s| :: s[i] in "de"
  }

  predicate PlainPath(p: Path) {
    p != [] && forall i | 0 <= i < |p| :: PlainName(p[i])
  }

  lemma {:induction false} JoinPlain(p: Path)
    requires PlainPath(p)
    ensures PlainText(Join(p)) && Join(p) != ""
  {
    if |p| > 1 {
      JoinPlain(p[..|p| - 1]);
      assert Join(p) == Join(p[..|p| - 1]) + "/" + p[|p| - 1];
    }
  }

  lemma PlainSame(s: string, fold: char -> char)
    requires PlainText(s) && Plain(fold)
    ensures Fold(fold, s) == s && ByteLength(s) == |s|
  {
    PlainLength(s);
  }

  lemma PlainComponents(p: Path)
    requires PlainPath(p)
    ensures Split(Join(p)) == p && ComponentsOk(p)
  {
    hide Split, Join;
    forall i | 0 <= i < |p| ensures ComponentOk(p[i]) && '/' !in p[i] && '\\' !in p[i] {
      PlainLength(p[i]);
      assert p[i][0] in "de";
    }
    assert Split(Join(p)) == p by { SplitJoin(p); }
  }

  lemma SplitJoin(p: Path)
    requires p != [] && forall i | 0 <= i < |p| :: '/' !in p[i]
    ensures Split(Join(p)) == p
  {
    Text.SplitOnJoin(p, '/');
  }

  /** A plain path is accepted exactly within the depth and length limits, and held by
      the columns exactly within the length limit. */
  lemma PlainLimits(p: Path, fold: char -> char)
    requires PlainPath(p) && Plain(fold)
    ensures Accepted(p, fold) <==> |p| <= MAXIMUM_PATH_DEPTH && |Join(p)| <= MAXIMUM_PATH_BYTES
    ensures ColumnsFit(p, fold) <==> |Join(p)| <= MAXIMUM_PATH_BYTES
  {
    hide Split, Join, ByteLength, LastSlash, ParsePath, Fold, BaseName, ParentPath;
    var s := Join(p);
    JoinPlain(p);
    PlainComponents(p);
    PlainSame(s, fold);
    ParsePathIsComponents(s);
    SplitParent(s);
    assert BaseName(s) == p[|p| - 1];
    PlainSame(BaseName(s), fold);
    ParentBytes(s);
  }

  /****** a move that the columns refuse ******/

  const LONG: string := seq(200, _ => 'd')
  const E: Path := ["e"]
  const LONG_TREE: Path := E + Copies(LONG, 20)

  lemma {:induction false} JoinCopies(name: string, n: nat)
    requires n > 0 && '/' !in name
    ensures Join(Copies(name, n)) == Repeated(name, n) && |Join(Copies(name, n))| == n * (|name| + 1) - 1
  {
    RepeatedComponents(name, n);
    JoinSplit(Repeated(name, n));
  }

  /** e/N/…/N with `n` times the name. */
  lemma BelowE(name: string, n: nat)
    requires PlainName(name)
    ensures PlainPath(E + Copies(name, n)) && |Join(E + Copies(name, n))| == 1 + n * (|name| + 1)
  {
    hide Join;
    assert PlainName("e");
    assert '/' !in name;
    if n == 0 {
      assert E + Copies(name, 0) == E;
      assert Join(E) == "e" by { JoinOne("e"); }
    } else {
      JoinCopies(name, n);
      JoinConcat(E, Copies(name, n));
      JoinOne("e");
    }
  }

  lemma JoinOne(name: string)
    ensures Join([name]) == name
  {
  }

  /** Twenty directories with names of 200 bytes below e: a rename of e to a name of
      200 bytes is fine for the storage, makes the deepest path longer than 4096 bytes,
      is refused by the CHECK constraints, and is taken back. */
  lemma LongMoveRefused(fold: char -> char) returns (s: State)
    requires Plain(fold)
    ensures Leads(Empty(fold), s) && Ready(s) && Accepted([LONG], fold)
    ensures CanRename(s.files, E, [LONG]) && AfterMove(s, E, [LONG]).None?
    ensures FsThenUndoMove(s, E, [LONG]) == Some(s)
  {
    hide Inv, Ready, Accepted, Leads, WithDirectories, Join, AfterMove, FsThenUndoMove, MoveFits, CanRename, ColumnsFit;
    OpenedReachable(fold);
    forall k | 0 < k <= 21 ensures Accepted(LONG_TREE[..k], fold) {
      assert LONG_TREE[..k] == E + Copies(LONG, k - 1);
      BelowE(LONG, k - 1);
      PlainLimits(LONG_TREE[..k], fold);
    }
    DirectoriesRun(Opened(fold), LONG_TREE, 21);
    s := WithDirectories(Opened(fold), LONG_TREE, 21);
    LeadsOn(Empty(fold), Opened(fold), s);
    LongRename(fold, s);
    MoveEffect(s, E, [LONG]);
    MoveCompensated(s, E, [LONG]);
  }

  lemma LongRename(fold: char -> char, s: State)
    requires Plain(fold) && s == WithDirectories(Opened(fold), LONG_TREE, 21)
    ensures CanRename(s.files, E, [LONG]) && !MoveFits(s.visible, E, [LONG], s.fold) && Accepted([LONG], fold)
  {
    hide Join, ColumnsFit, Accepted, Prefixes;
    assert E <= LONG_TREE && |E| == 1;
    assert E in Prefixes(LONG_TREE, 21, Dir);
    assert LONG[0] == 'd' && LONG != "e";
    assert LONG_TREE[0] == "e";
    assert [LONG] !in Prefixes(LONG_TREE, 21, Dir);
    assert LONG_TREE in Prefixes(LONG_TREE, 21, DirMeta);
    var q := [LONG] + LONG_TREE[1..];
    assert q == Copies(LONG, 21);
    JoinCopies(LONG, 21);
    PlainLimits(q, fold);
    JoinOne(LONG);
    PlainLimits([LONG], fold);
    assert !ColumnsFit([LONG] + LONG_TREE[|E|..], fold);
  }

  /****** crashed states that nothing brings back ******/

  lemma WithE(fold: char -> char) returns (s: State)
    requires Plain(fold)
    ensures s.files == map[E := Dir] && s.trash == map[] && s.trashRows == map[] && s.hidden == map[] && s.fold == fold
    ensures Leads(Empty(fold), s) && Inv(s) && Ready(s) && Accepted(E, fold) && CanCreate(map[], E)
  {
    hide Inv, Ready, Accepted, Leads, WithDirectories, Prefixes, Plain;
    OpenedReachable(fold);
    EAccepted(fold);
    DirectoriesRun(Opened(fold), E, 1);
    s := WithDirectories(Opened(fold), E, 1);
    LeadsOn(Empty(fold), Opened(fold), s);
    OnlyDirectory(fold);
  }

  lemma EAccepted(fold: char -> char)
    requires Plain(fold)
    ensures Accepted(E, fold) && E[..1] == E
  {
    hide Accepted, ColumnsFit;
    assert E + Copies("d", 0) == E;
    BelowE("d", 0);
    PlainLimits(E, fold);
  }

  lemma OnlyDirectory(fold: char -> char)
    ensures WithDirectories(Opened(fold), E, 1) == Opened(fold).(files := map[E := Dir], visible := map[E := DirMeta])
  {
    hide Prefixes;
    assert forall q: Path | 0 < |q| <= 1 && q <= E :: q == E;
    assert Prefixes(E, 1, Dir) == map[E := Dir] && Prefixes(E, 1, DirMeta) == map[E := DirMeta];
    assert map[] + Prefixes(E, 1, Dir) == Prefixes(E, 1, Dir) && map[] + Prefixes(E, 1, DirMeta) == Prefixes(E, 1, DirMeta);
  }

  lemma CrashLeads(r: State, s: State)
    requires Leads(r, s)
    ensures Leads(r, Crash(s))
  {
    hide Leads;
    assert Apply(s, Process(EvCrash)) == Some(Crash(s));
    hide Apply;
    LeadsStep(r, s, Process(EvCrash));
  }

  lemma MarkLeads(r: State, s: State)
    requires Leads(r, s) && s.phase.Serving?
    ensures Leads(r, s.(health := Mark(s.health, DownloadOpen)))
  {
    hide Leads, Mark;
    assert Apply(s, Process(EvDownloadMark(DownloadOpen))) == DownloadMark(s, DownloadOpen);
    hide Apply;
    LeadsStep(r, s, Process(EvDownloadMark(DownloadOpen)));
  }

  /** A download that marks the index between the rename and the commit of a trash,
      and a crash there. */
  lemma DownloadStrands(fold: char -> char) returns (t: State)
    requires Plain(fold)
    ensures Leads(Empty(fold), t) && t.phase.Down? && t.health == Unhealthy(DownloadOpen) && !Recoverable(t)
  {
    hide Leads, Inv, Accepted, Ready, FlagAllows, Without, Detach, Apply;
    var s := WithE(fold);
    var s1 := s.(trashRows := map["x" := TrashRow(E, Trashing)], op := TrashPrepared("x"));
    var s2 := s1.(files := Without(s.files, E), trash := map["x" := Detach(s.files, E)], op := TrashMoved("x"));
    TrashBegins(s, s1, s2);
    LeadsStep(Empty(fold), s, OnTrash(EvPrepareTrash("x", E)));
    LeadsStep(Empty(fold), s1, OnTrash(EvFsTrash));
    MarkLeads(Empty(fold), s2);
    var s3 := s2.(health := Mark(s2.health, DownloadOpen));
    CrashLeads(Empty(fold), s3);
    t := Crash(s3);
    assert !FlagAllows(t, "x") by { NotAllowed(t, "x"); }
  }

  lemma NotAllowed(t: State, id: Id)
    requires Moved(t.trash, t.trashRows, id) && t.health == Unhealthy(DownloadOpen)
    ensures !FlagAllows(t, id)
  {
  }

  lemma TrashBegins(s: State, s1: State, s2: State)
    requires Inv(s) && Ready(s) && s.files == map[E := Dir] && s.trash == map[] && s.trashRows == map[]
    requires s1 == s.(trashRows := map["x" := TrashRow(E, Trashing)], op := TrashPrepared("x"))
    requires s2 == s1.(files := Without(s.files, E), trash := map["x" := Detach(s.files, E)], op := TrashMoved("x"))
    ensures Apply(s, OnTrash(EvPrepareTrash("x", E))) == Some(s1) && Apply(s1, OnTrash(EvFsTrash)) == Some(s2)
    ensures s.health.Healthy? && s2.phase.Serving?
  {
    hide Inv, Without, Detach, MetaOf, NoTransitionalTrash, NoFinalizing, ApplyProcessStep, ApplyTreeStep, ApplyUploadStep;
    ReadyFacts(s, E);
    assert s.trashRows["x" := TrashRow(E, Trashing)] == s1.trashRows;
    assert s.trash["x" := Detach(s.files, E)] == s2.trash;
  }

  /** A directory is trashed and made again; a restore crashes after its first step.
      The flag is clear, yet the row has both existence bits. */
  lemma OccupiedStrands(fold: char -> char) returns (t: State)
    requires Plain(fold)
    ensures Leads(Empty(fold), t) && t.phase.Down? && t.health.Healthy? && !Recoverable(t)
  {
    hide Leads, Inv, Accepted, Ready, Without, Detach, Apply, BitsDiffer, AfterTrash, AfterMkdir, Under, CanCreate;
    var s := WithE(fold);
    TrashEffect(s, "x", E);
    TrashIsRun(s, "x", E);
    var s1 := AfterTrash(s, "x", E).value;
    LeadsOn(Empty(fold), s, s1);
    assert s1.files == map[] by { OnlyE(); }
    MkdirEffect(s1, E);
    MkdirIsRun(s1, E);
    var s2 := AfterMkdir(s1, E).value;
    LeadsOn(Empty(fold), s1, s2);
    var s3 := s2.(trashRows := s2.trashRows["x" := TrashRow(E, Restoring)], op := RestoreBegun("x"));
    RestoreBegins(s2, s3);
    LeadsStep(Empty(fold), s2, OnTrash(EvBeginRestore("x")));
    CrashLeads(Empty(fold), s3);
    t := Crash(s3);
    assert Transitional(t.trashRows, "x") && !BitsDiffer(t, "x") by { BothThere(t); }
  }

  lemma OnlyE()
    ensures Without(map[E := Dir], E) == map[]
  {
  }

  lemma BothThere(t: State)
    requires "x" in t.trashRows && t.trashRows["x"].path == E && "x" in t.trash && E in t.files
    ensures !BitsDiffer(t, "x")
  {
    hide ThroughFile;
  }

  lemma RestoreBegins(s: State, t: State)
    requires Inv(s) && Ready(s) && "x" in s.trashRows && s.trashRows["x"] == TrashRow(E, Trashed)
    requires t == s.(trashRows := s.trashRows["x" := TrashRow(E, Restoring)], op := RestoreBegun("x"))
    ensures Apply(s, OnTrash(EvBeginRestore("x"))) == Some(t) && t.health.Healthy?
  {
    hide Inv, MetaOf, Attach, NoTransitionalTrash, NoFinalizing, ApplyProcessStep, ApplyTreeStep, ApplyUploadStep;
    RestoreFacts(s, "x");
  }

  /****** a path that no reindex accepts ******/

  const CHAIN: Path := Copies("d", 128)

  lemma ChainAccepted(fold: char -> char, n: nat)
    requires Plain(fold) && 0 < n
    ensures PlainPath(Copies("d", n)) && |Join(Copies("d", n))| == 2 * n - 1
    ensures Accepted(Copies("d", n), fold) <==> n <= 128 && 2 * n - 1 <= 4096
    ensures ColumnsFit(Copies("d", n), fold) <==> 2 * n - 1 <= 4096
  {
    hide Join, Accepted, ColumnsFit;
    JoinCopies("d", n);
    assert PlainName("d");
    PlainLimits(Copies("d", n), fold);
  }

  const E_D: Path := E + Copies("d", 1)

  lemma ChainPrefixes(fold: char -> char)
    requires Plain(fold)
    ensures forall k | 0 < k <= 127 :: Accepted(CHAIN[..k], fold)
  {
    hide Accepted, Join, ColumnsFit;
    forall k | 0 < k <= 127 ensures Accepted(CHAIN[..k], fold) {
      assert CHAIN[..k] == Copies("d", k);
      ChainAccepted(fold, k);
    }
  }

  lemma EPrefixes(fold: char -> char)
    requires Plain(fold)
    ensures forall k | 0 < k <= 2 :: Accepted(E_D[..k], fold) && E_D[..k] !in Prefixes(CHAIN, 127, Dir)
  {
    hide Accepted, Join, ColumnsFit, Prefixes;
    forall k | 0 < k <= 2 ensures Accepted(E_D[..k], fold) && E_D[..k] !in Prefixes(CHAIN, 127, Dir) {
      assert E_D[..k] == E + Copies("d", k - 1);
      assert E_D[..k][0] == "e" && CHAIN[0] == "d" && "d"[0] != "e"[0];
      assert PlainName("d");
      BelowE("d", k - 1);
      PlainLimits(E_D[..k], fold);
    }
  }

  function ChainStore(fold: char -> char): State {
    WithDirectories(WithDirectories(Opened(fold), CHAIN, 127), E_D, 2)
  }

  /** Directories d/…/d of depth 127, and e with a child d. */
  lemma ChainAndE(fold: char -> char)
    requires Plain(fold)
    ensures Leads(Empty(fold), ChainStore(fold)) && Inv(ChainStore(fold)) && Ready(ChainStore(fold))
  {
    hide Inv, Ready, Accepted, Leads, Prefixes;
    OpenedReachable(fold);
    ChainPrefixes(fold);
    EPrefixes(fold);
    var s0 := Opened(fold);
    assert s0.files == map[];
    DirectoriesRun(s0, CHAIN, 127);
    var s1 := WithDirectories(s0, CHAIN, 127);
    assert s1.files == Prefixes(CHAIN, 127, Dir);
    DirectoriesRun(s1, E_D, 2);
    LeadsOn(Empty(fold), s0, s1);
    LeadsOn(Empty(fold), s1, ChainStore(fold));
  }

  lemma ChainFiles(fold: char -> char, q: Path)
    ensures var s := ChainStore(fold);
      && (q in s.files <==> (0 < |q| <= 127 && q <= CHAIN) || (0 < |q| <= 2 && q <= E_D))
      && (q in s.visible <==> q in s.files) && (q in s.files ==> s.files[q] == Dir)
  {
  }

  lemma ChainRename(fold: char -> char)
    ensures CanRename(ChainStore(fold).files, E, CHAIN)
  {
    hide ChainStore;
    assert "d"[0] != "e"[0] && CHAIN[0] == "d" && E_D[0] == "e" && E[0] == "e";
    assert Parent(CHAIN) <= CHAIN && E <= E_D;
    ChainFiles(fold, E);
    ChainFiles(fold, CHAIN);
    ChainFiles(fold, Parent(CHAIN));
  }

  lemma ChainFits(fold: char -> char)
    requires Plain(fold)
    ensures MoveFits(ChainStore(fold).visible, E, CHAIN, fold)
  {
    hide ColumnsFit, ChainStore;
    forall q | q in ChainStore(fold).visible && E <= q ensures ColumnsFit(CHAIN + q[|E|..], fold) {
      ChainFiles(fold, q);
      assert "d"[0] != "e"[0] && CHAIN[0] == "d" && q[0] == "e";
      assert q == E_D[..|q|];
      assert CHAIN + q[|E|..] == Copies("d", 127 + |q|);
      ChainAccepted(fold, 127 + |q|);
    }
  }

  lemma ChainDeep(fold: char -> char)
    ensures Copies("d", 129) in Renamed(ChainStore(fold).files, E, CHAIN)
  {
    hide Attach, Detach, ChainStore, Without;
    var k := Copies("d", 1);
    assert E + k == E_D;
    ChainFiles(fold, E_D);
    assert k in Detach(ChainStore(fold).files, E);
    AttachKey(Detach(ChainStore(fold).files, E), CHAIN, k);
    assert CHAIN + k == Copies("d", 129);
  }

  /** After the move of e below the chain, a path has 129 components. */
  lemma DeepStore(fold: char -> char) returns (s: State)
    requires Plain(fold)
    ensures Leads(Empty(fold), s) && Ready(s) && s.fold == fold && s.trashRows == map[] && s.uploads == map[] && s.parts == map[]
    ensures Copies("d", 129) in s.files && s.exclusive == {}
    ensures forall c: string | |c| == 2 :: [c] !in s.files && [c] !in s.visible
  {
    hide Inv, Ready, Leads, Prefixes, AfterMove, CanRename, MoveFits, Renamed, WithDirectories;
    s := ChainStore(fold);
    ChainAndE(fold);
    ChainRename(fold);
    ChainFits(fold);
    ChainDeep(fold);
    ChainTables(fold);
    MoveEffect(s, E, CHAIN);
    MoveIsRun(s, E, CHAIN);
    var s1 := AfterMove(s, E, CHAIN).value;
    LeadsOn(Empty(fold), s, s1);
    forall c: string | |c| == 2 ensures [c] !in s1.files && [c] !in s1.visible {
      ChainFiles(fold, [c]);
      assert [c][0] == c && CHAIN[0] == "d" && E_D[0] == "e";
      NotMoved(s.files, c);
      NotMoved(s.visible, c);
    }
    s := s1;
  }

  lemma NotMoved<V>(t: map<Path, V>, c: string)
    requires |c| == 2 && [c] !in t
    ensures [c] !in Renamed(t, E, CHAIN)
  {
    assert |CHAIN| == 128;
  }

  /** A download finds some file gone. No trash row and no upload is open, yet only a
      reindex could clear the flag, and it refuses the deep path. */
  lemma DepthStrands(fold: char -> char) returns (t: State)
    requires Plain(fold)
    ensures Leads(Empty(fold), t) && t.phase.Down? && t.trashRows == map[] && t.uploads == map[] && !Recoverable(t)
  {
    hide Inv, Ready, Leads, PathsAccepted;
    var s := DeepStore(fold);
    ReadyServes(s);
    MarkLeads(Empty(fold), s);
    var s1 := s.(health := Mark(s.health, DownloadOpen));
    CrashLeads(Empty(fold), s1);
    t := Crash(s1);
    assert !PathsAccepted(t.files, t.trash, t.trashRows, fold) by { DeepNotAccepted(t, fold); }
  }

  lemma ChainTables(fold: char -> char)
    ensures var s := ChainStore(fold); s.fold == fold && s.trashRows == map[] && s.uploads == map[] && s.parts == map[] && s.exclusive == {}
  {
  }

  lemma ReadyServes(s: State)
    requires Ready(s)
    ensures s.phase.Serving? && s.storageUp && s.op.Idle? && s.health.Healthy?
  {
  }

  lemma DeepNotAccepted(t: State, fold: char -> char)
    requires Plain(fold) && Copies("d", 129) in t.files
    ensures !PathsAccepted(t.files, t.trash, t.trashRows, fold)
  {
    hide Accepted;
    ChainAccepted(fold, 129);
  }

  /****** a publication that is listed before the one that the reason names ******/

  function WithUpload(s: State, u: Id, target: Path): State {
    s.(parts := s.parts[u := []], uploads := s.uploads[u := UploadRow(target, 0, [], Pending, 0)])
  }

  /** An empty file is announced. */
  lemma UploadBegins(r: State, s: State, u: Id, target: Path)
    requires Leads(r, s) && s.phase.Serving? && s.storageUp && s.health.Healthy? && u !in s.uploads && u !in s.parts
    requires Accepted(target, s.fold) && RowAvailable(s.visible, target)
    ensures Leads(r, WithUpload(s, u, target))
  {
    hide Leads, Accepted, RowAvailable, ApplyProcessStep, ApplyTreeStep, ApplyTrashStep;
    var s1 := s.(parts := s.parts[u := []]);
    assert Apply(s, OnUpload(EvCreatePart(u))) == Some(s1);
    assert Apply(s1, OnUpload(EvCreateUpload(u, target, 0))) == Some(WithUpload(s, u, target));
    hide Apply;
    LeadsStep(r, s, OnUpload(EvCreatePart(u)));
    LeadsStep(r, s1, OnUpload(EvCreateUpload(u, target, 0)));
  }

  function WithPublished(s: State, u: Id, now: int): State
    requires u in s.uploads
  {
    var row := s.uploads[u];
    s.(files := s.files[row.target := File(u, [])], parts := s.parts - {u}, op := CompletePublished(u),
       uploads := s.uploads[u := row.(status := Finalizing, verified := [], stamp := now)])
  }

  /** Its completion comes as far as the rename. */
  lemma UploadPublishes(r: State, s: State, u: Id, now: int)
    requires Leads(r, s) && s.phase.Serving? && s.storageUp && s.op.Idle? && s.exclusive == {}
    requires u in s.uploads && s.uploads[u].status == Pending && s.uploads[u].total == 0 && u in s.parts && s.parts[u] == []
    requires CanCreate(s.files, s.uploads[u].target)
    ensures Leads(r, WithPublished(s, u, now))
  {
    hide Leads, CanCreate, ApplyProcessStep, ApplyTreeStep, ApplyTrashStep;
    var s1 := s.(op := CompleteVerified(u, Pending));
    var s2 := s.(op := CompletePrepared(u, Pending), uploads := s.uploads[u := s.uploads[u].(status := Finalizing, verified := [], stamp := now)]);
    assert Apply(s, OnUpload(EvVerifyPart(u))) == Some(s1);
    assert Apply(s1, OnUpload(EvPrepareFinalization(now))) == Some(s2);
    assert Apply(s2, OnUpload(EvFsFinalize)) == Some(WithPublished(s, u, now));
    hide Apply;
    LeadsStep(r, s, OnUpload(EvVerifyPart(u)));
    LeadsStep(r, s1, OnUpload(EvPrepareFinalization(now)));
    LeadsStep(r, s2, OnUpload(EvFsFinalize));
  }

  /** Its commit fails. */
  lemma UploadFails(r: State, s: State, u: Id)
    requires Leads(r, s) && s.op == CompletePublished(u) && s.health.Healthy?
    ensures Leads(r, s.(op := Idle, health := Unhealthy(UploadOf(u))))
  {
    hide Leads, ApplyProcessStep, ApplyTreeStep, ApplyTrashStep;
    assert Apply(s, OnUpload(EvFailComplete)) == Some(s.(op := Idle, health := Unhealthy(UploadOf(u))));
    hide Apply;
    LeadsStep(r, s, OnUpload(EvFailComplete));
  }

  /** A single plain name of two characters is free in the deep store. */
  lemma FreeName(s: State, c: string)
    requires PlainName(c) && |c| == 2 && Plain(s.fold) && [c] !in s.files && [c] !in s.visible
    ensures Accepted([c], s.fold) && RowAvailable(s.visible, [c]) && CanCreate(s.files, [c])
  {
    hide Accepted, ColumnsFit;
    JoinOne(c);
    PlainLimits([c], s.fold);
  }

  function Stranded(s: State, now: int): State {
    var s1 := WithUpload(WithUpload(s, "a", ["ed"]), "b", ["ee"]);
    var s2 := WithPublished(s1, "b", now).(op := Idle, health := Unhealthy(UploadOf("b")));
    Crash(WithPublished(s2, "a", now))
  }

  /** Upload b is published, its commit fails, and the reason names it; upload a is
      published in the same second and the process crashes. Startup lists a first, is
      refused, and then the reason is `multiple`; the deep path bars a reindex. */
  lemma OrderStrands(fold: char -> char, now: int) returns (t: State)
    requires Plain(fold)
    ensures Leads(Empty(fold), t) && t.phase.Down? && t.trashRows == map[] && t.health == Unhealthy(UploadOf("b"))
    ensures Published(t.parts, t.uploads, "a") && Published(t.parts, t.uploads, "b") && !Recoverable(t)
  {
    hide Inv, Ready, Leads, PathsAccepted, Accepted, RowAvailable, CanCreate;
    var s := DeepStore(fold);
    ReadyServes(s);
    assert PlainName("ed") && PlainName("ee") && ["ed"] != ["ee"] by { assert "ed"[1] != "ee"[1]; }
    FreeName(s, "ed");
    FreeName(s, "ee");
    UploadBegins(Empty(fold), s, "a", ["ed"]);
    var s1 := WithUpload(s, "a", ["ed"]);
    UploadBegins(Empty(fold), s1, "b", ["ee"]);
    var s2 := WithUpload(s1, "b", ["ee"]);
    UploadPublishes(Empty(fold), s2, "b", now);
    var s3 := WithPublished(s2, "b", now);
    UploadFails(Empty(fold), s3, "b");
    var s4 := s3.(op := Idle, health := Unhealthy(UploadOf("b")));
    assert CanCreate(s4.files, ["ed"]) by { FreeName(s4, "ed"); }
    UploadPublishes(Empty(fold), s4, "a", now);
    CrashLeads(Empty(fold), WithPublished(s4, "a", now));
    t := Stranded(s, now);
    assert !PathsAccepted(t.files, t.trash, t.trashRows, fold) by { DeepNotAccepted(t, fold); }
    assert !ComesFirst(t, "b") by { AComesFirst(t); }
  }

  lemma AComesFirst(t: State)
    requires Published(t.parts, t.uploads, "a") && "b" in t.uploads && t.uploads["a"].stamp == t.uploads["b"].stamp
    ensures !ComesFirst(t, "b")
  {
    assert "a"[0] < "b"[0];
    assert !Ordering.Less("b", "a");
  }
}
