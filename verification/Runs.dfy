/** States that a run leads to, and the operations of Outcomes as pieces of runs. */
module Runs {
  import opened Paths
  import opened World
  import opened Invariant
  import opened Protocol
  import opened Outcomes

  ghost predicate Leads(s: State, t: State) {
    exists es :: Exec(s, es) == Some(t)
  }

  lemma LeadsNowhere(s: State)
    ensures Leads(s, s)
  {
    assert Exec(s, []) == Some(s);
  }

  lemma LeadsStep(s: State, t: State, e: Event)
    requires Leads(s, t) && Apply(t, e).Some?
    ensures Leads(s, Apply(t, e).value)
  {
    hide Apply;
    var es :| Exec(s, es) == Some(t);
    var all := es + [e];
    assert all[..|all| - 1] == es && all[|all| - 1] == e;
    assert Exec(s, all) == Apply(t, e);
  }

  lemma LeadsOn(s: State, t: State, w: State)
    requires Leads(s, t) && Leads(t, w)
    ensures Leads(s, w)
  {
    var es :| Exec(s, es) == Some(t);
    var more :| Exec(t, more) == Some(w);
    ExecConcat(s, es, more);
  }

  lemma {:induction false} ExecConcat(s: State, es: seq<Event>, more: seq<Event>)
    requires Exec(s, es).Some?
    ensures Exec(s, es + more) == Exec(Exec(s, es).value, more)
  {
    hide Apply;
    if more == [] {
      assert es + more == es;
    } else {
      ExecConcat(s, es, more[..|more| - 1]);
      assert (es + more)[..|es + more| - 1] == es + more[..|more| - 1];
    }
  }

  lemma {:induction false} ExecKeeps(s: State, es: seq<Event>)
    requires Inv(s) && Exec(s, es).Some?
    ensures Inv(Exec(s, es).value)
  {
    hide Inv, Apply;
    if es != [] {
      ExecKeeps(s, es[..|es| - 1]);
      ApplyKeeps(Exec(s, es[..|es| - 1]).value, es[|es| - 1]);
    }
  }

  /****** the operations ******/

  function Opened(fold: char -> char): State {
    Empty(fold).(phase := Serving(true), storageUp := true)
  }

  /** A new store starts to serve. */
  lemma OpenedReachable(fold: char -> char)
    ensures Leads(Empty(fold), Opened(fold)) && Inv(Opened(fold)) && Ready(Opened(fold))
  {
    hide Leads, Inv, ApplyTreeStep, ApplyTrashStep, ApplyUploadStep;
    var s := Empty(fold);
    var s1 := s.(phase := StartingTrash, storageUp := true);
    var s2 := s1.(phase := StartingUploads);
    assert Apply(s, Process(EvStart(true))) == Some(s1);
    assert Apply(s1, Process(EvTrashReconciled)) == Some(s2);
    assert Apply(s2, Process(EvServe(true))) == Some(Opened(fold));
    hide Apply;
    EmptyHolds(fold);
    ApplyKeeps(s, Process(EvStart(true)));
    ApplyKeeps(s1, Process(EvTrashReconciled));
    ApplyKeeps(s2, Process(EvServe(true)));
    LeadsNowhere(s);
    LeadsStep(s, s, Process(EvStart(true)));
    LeadsStep(s, s1, Process(EvTrashReconciled));
    LeadsStep(s, s2, Process(EvServe(true)));
  }

  lemma MkdirIsRun(s: State, p: Path)
    requires AfterMkdir(s, p).Some?
    ensures Leads(s, AfterMkdir(s, p).value)
  {
    hide Leads, BeginMkdir, FsMkdir, CommitMkdir, ApplyProcessStep, ApplyTrashStep, ApplyUploadStep;
    var s1 := BeginMkdir(s, p).value;
    var s2 := FsMkdir(s1).value;
    assert Apply(s, OnTree(EvBeginMkdir(p))) == Some(s1) && Apply(s1, OnTree(EvFsMkdir)) == Some(s2);
    assert Apply(s2, OnTree(EvCommitMkdir)) == CommitMkdir(s2);
    hide Apply;
    LeadsNowhere(s);
    LeadsStep(s, s, OnTree(EvBeginMkdir(p)));
    LeadsStep(s, s1, OnTree(EvFsMkdir));
    LeadsStep(s, s2, OnTree(EvCommitMkdir));
  }

  lemma TrashIsRun(s: State, id: Id, p: Path)
    requires AfterTrash(s, id, p).Some?
    ensures Leads(s, AfterTrash(s, id, p).value)
  {
    hide Leads, PrepareTrash, FsTrash, CommitTrash, ApplyProcessStep, ApplyTreeStep, ApplyUploadStep;
    var s1 := PrepareTrash(s, id, p).value;
    var s2 := FsTrash(s1).value;
    assert Apply(s, OnTrash(EvPrepareTrash(id, p))) == Some(s1) && Apply(s1, OnTrash(EvFsTrash)) == Some(s2);
    assert Apply(s2, OnTrash(EvCommitTrash)) == CommitTrash(s2);
    hide Apply;
    LeadsNowhere(s);
    LeadsStep(s, s, OnTrash(EvPrepareTrash(id, p)));
    LeadsStep(s, s1, OnTrash(EvFsTrash));
    LeadsStep(s, s2, OnTrash(EvCommitTrash));
  }

  lemma MoveIsRun(s: State, src: Path, dst: Path)
    requires AfterMove(s, src, dst).Some?
    ensures Leads(s, AfterMove(s, src, dst).value)
  {
    hide Leads, BeginMove, FsMove, CommitMove, ApplyProcessStep, ApplyTrashStep, ApplyUploadStep;
    var s1 := BeginMove(s, src, dst).value;
    var s2 := FsMove(s1).value;
    assert Apply(s, OnTree(EvBeginMove(src, dst))) == Some(s1) && Apply(s1, OnTree(EvFsMove)) == Some(s2);
    assert Apply(s2, OnTree(EvCommitMove)) == CommitMove(s2);
    hide Apply;
    LeadsNowhere(s);
    LeadsStep(s, s, OnTree(EvBeginMove(src, dst)));
    LeadsStep(s, s1, OnTree(EvFsMove));
    LeadsStep(s, s2, OnTree(EvCommitMove));
  }
}
