/** Exactly which states one startup settles, without a reindex in between: what settling
    a row needs, and that settling another one neither helps nor hurts. */
module Reconciling {
  import opened Paths
  import opened World
  import opened Invariant
  import opened Outcomes
  import opened Protocol
  import opened Service
  import opened Settling
  import opened Recoverability
  import opened Stuck

  /** Every transitional trash row has one existence bit and a path that can be looked up,
      and the flag lets the rewrites of the rows in doubt through. */
  ghost predicate TrashReady(s: State) {
    (forall id | Transitional(s.trashRows, id) :: BitsDiffer(s, id)) && forall id :: FlagAllows(s, id)
  }

  /** The flag is clear, or names this publication, or names an upload that is settled
      before it. */
  ghost predicate PassesFlag(s: State, v: Id)
    requires v in s.uploads
  {
    s.health.Healthy? ||
    (s.health.reason.UploadOf? &&
     var w := s.health.reason.id;
     w == v || (IsFinalizing(s.uploads, w) && ListedBefore(s.uploads[w].stamp, w, s.uploads[v].stamp, v)))
  }

  /** No finalizing upload is ambiguous, and each publication finds a flag that lets it through. */
  ghost predicate UploadsReady(s: State) {
    && (forall u | IsFinalizing(s.uploads, u) :: PartOrTarget(s, u))
    && (forall v | Published(s.parts, s.uploads, v) :: PassesFlag(s, v))
  }

  /** One startup settles everything, and the flag is clear then. */
  ghost predicate Settleable(s: State) {
    && TrashReady(s) && (forall u | IsFinalizing(s.uploads, u) :: PartOrTarget(s, u))
    && (s.health.Healthy? || ReasonOwned(s))
  }

  /****** trash rows ******/

  lemma ReadyTrashSettles(s: State, id: Id)
    requires Inv(s) && TrashReady(s) && s.phase.StartingTrash? && s.storageUp && Transitional(s.trashRows, id)
    ensures ReconcileTrash(s, id).Some?
  {
    hide Inv, ThroughFile, ReconcileTrash, MayRepair;
    assert BitsDiffer(s, id) && FlagAllows(s, id);
    ReconcileTrashExactly(s, id);
  }

  lemma TrashKeepsReady(s: State, id: Id)
    requires Inv(s) && ReconcileTrash(s, id).Some?
    ensures TrashReady(ReconcileTrash(s, id).value) <==> TrashReady(s)
  {
    hide Inv, ThroughFile, ReconcileTrash, MayRepair;
    var t := ReconcileTrash(s, id).value;
    ReconciledWasTransitional(s, id);
    ReconcileTrashExactly(s, id);
    SettledRow(s, id);
    forall i | i != id ensures Transitional(t.trashRows, i) <==> Transitional(s.trashRows, i) {}
    forall i | i != id && Transitional(s.trashRows, i) ensures BitsDiffer(t, i) <==> BitsDiffer(s, i) {}
    forall i ensures FlagAllows(t, i) <==> FlagAllows(s, i) || i == id {
      FlagKept(s, t, id, i);
    }
  }

  lemma FlagKept(s: State, t: State, id: Id, i: Id)
    requires Inv(s) && ReconcileTrash(s, id).Some? && FlagAllows(s, id)
    requires t == ReconcileTrash(s, id).value && Transitional(s.trashRows, id)
    ensures FlagAllows(t, id) && (i != id ==> (FlagAllows(t, i) <==> FlagAllows(s, i)))
  {
    hide Inv, ReconcileTrash;
    SettledRow(s, id);
    if i != id && Trusted(s.health) && (Moved(s.trash, s.trashRows, id) || Returned(s.trash, s.trashRows, id))
       && (Moved(s.trash, s.trashRows, i) || Returned(s.trash, s.trashRows, i)) {
      FlagBelongs(s, id, i);
    }
  }

  lemma TrashKeepsSettleable(s: State, id: Id)
    requires Inv(s) && ReconcileTrash(s, id).Some?
    ensures Settleable(ReconcileTrash(s, id).value) <==> Settleable(s)
  {
    hide Inv, ThroughFile, ReconcileTrash, MayRepair, TrashReady, ReasonOwned;
    var t := ReconcileTrash(s, id).value;
    ReconciledWasTransitional(s, id);
    TrashKeepsReady(s, id);
    SettledRow(s, id);
    forall u | IsFinalizing(s.uploads, u) ensures PartOrTarget(t, u) <==> PartOrTarget(s, u) {}
    ReasonKept(s, t, id);
  }

  lemma ReasonKept(s: State, t: State, id: Id)
    requires Inv(s) && ReconcileTrash(s, id).Some? && t == ReconcileTrash(s, id).value && Transitional(s.trashRows, id)
    ensures t.health.Healthy? || ReasonOwned(t) <==> s.health.Healthy? || ReasonOwned(s)
  {
    hide Inv, ReconcileTrash;
    SettledRow(s, id);
  }

  /****** uploads ******/

  lemma ReadyUploadSettles(s: State, u: Id)
    requires Inv(s) && UploadsReady(s) && s.phase.StartingUploads? && s.storageUp && ListedFirst(s.uploads, u)
    ensures ReconcileUpload(s, u).Some?
  {
    hide Inv, ThroughFile, ReconcileUpload, ListedBefore;
    assert IsFinalizing(s.uploads, u) && PartOrTarget(s, u);
    ReconcileUploadExactly(s, u);
    if u !in s.parts && s.health.Unhealthy? && s.health.reason.UploadOf? && s.health.reason.id != u {
      assert PassesFlag(s, u);
      var w := s.health.reason.id;
      ListedOnce(s.uploads[w].stamp, w, s.uploads[u].stamp, u);
    } else if u !in s.parts {
      assert PassesFlag(s, u);
    }
  }

  lemma UploadsStay(s: State, u: Id)
    requires ReconcileUpload(s, u).Some?
    ensures var t := ReconcileUpload(s, u).value;
      && IsFinalizing(s.uploads, u) && !IsFinalizing(t.uploads, u)
      && t.parts == s.parts && t.files == s.files && t.trash == s.trash && t.trashRows == s.trashRows && t.fold == s.fold
      && t.health == Clear(s.health, UploadOf(u))
      && (forall v | v != u :: SameAt(s.uploads, t.uploads, v))
  {
    hide ListedFirst, Clear;
    UploadFrame(s, u);
    ReconcileFrameParts(s, u);
  }

  lemma UploadKeepsReady(s: State, u: Id)
    requires Inv(s) && ReconcileUpload(s, u).Some?
    ensures UploadsReady(ReconcileUpload(s, u).value) <==> UploadsReady(s)
  {
    hide Inv, ThroughFile, ReconcileUpload, ListedBefore, PassesFlag, Clear, MayRepair;
    var t := ReconcileUpload(s, u).value;
    UploadFrame(s, u);
    UploadsStay(s, u);
    ReconcileUploadExactly(s, u);
    forall v | v != u ensures IsFinalizing(t.uploads, v) <==> IsFinalizing(s.uploads, v) { assert SameAt(s.uploads, t.uploads, v); }
    forall v | v != u && IsFinalizing(s.uploads, v) ensures PartOrTarget(t, v) <==> PartOrTarget(s, v) {
      assert SameAt(s.uploads, t.uploads, v);
    }
    forall v | v != u && Published(s.parts, s.uploads, v) ensures PassesFlag(t, v) <==> PassesFlag(s, v) {
      FlagPassed(s, t, u, v);
    }
    if u !in s.parts { OwnFlag(s, u); }
  }

  lemma OwnFlag(s: State, u: Id)
    requires u in s.uploads && MayRepair(s.health, UploadOf(u))
    ensures PassesFlag(s, u)
  {
  }

  lemma FlagPassed(s: State, t: State, u: Id, v: Id)
    requires ListedFirst(s.uploads, u) && IsFinalizing(s.uploads, v) && v != u
    requires !IsFinalizing(t.uploads, u) && forall i | i != u :: SameAt(s.uploads, t.uploads, i)
    requires t.health == Clear(s.health, UploadOf(u))
    ensures v in t.uploads && (PassesFlag(t, v) <==> PassesFlag(s, v))
  {
    hide ListedBefore;
    assert SameAt(s.uploads, t.uploads, v);
    if s.health.Unhealthy? && s.health.reason.UploadOf? { assert s.health.reason.id != u ==> SameAt(s.uploads, t.uploads, s.health.reason.id); }
  }

  lemma UploadKeepsSettleable(s: State, u: Id)
    requires Inv(s) && ReconcileUpload(s, u).Some?
    ensures Settleable(ReconcileUpload(s, u).value) <==> Settleable(s)
  {
    hide Inv, ThroughFile, ReconcileUpload, ListedBefore, Clear, MayRepair, TrashReady, ReasonOwned;
    var t := ReconcileUpload(s, u).value;
    UploadFrame(s, u);
    UploadsStay(s, u);
    UploadsFollowTrash(s);
    ReconcileUploadExactly(s, u);
    NothingLeft(s);
    NothingLeft(t);
    forall v | v != u ensures IsFinalizing(t.uploads, v) <==> IsFinalizing(s.uploads, v) { assert SameAt(s.uploads, t.uploads, v); }
    forall v | v != u && IsFinalizing(s.uploads, v) ensures PartOrTarget(t, v) <==> PartOrTarget(s, v) {
      assert SameAt(s.uploads, t.uploads, v);
    }
    ReasonAfterUpload(s, t, u);
  }

  lemma NothingLeft(s: State)
    requires NoTransitionalTrash(s)
    ensures TrashReady(s)
  {
  }

  lemma ReasonAfterUpload(s: State, t: State, u: Id)
    requires NoTransitionalTrash(s) && t.trashRows == s.trashRows && t.trash == s.trash && t.parts == s.parts
    requires ListedFirst(s.uploads, u) && !IsFinalizing(t.uploads, u) && forall i | i != u :: SameAt(s.uploads, t.uploads, i)
    requires u !in s.parts ==> MayRepair(s.health, UploadOf(u))
    requires t.health == Clear(s.health, UploadOf(u))
    ensures t.health.Healthy? || ReasonOwned(t) <==> s.health.Healthy? || ReasonOwned(s)
  {
    hide ListedBefore;
    SettledRows(s);
    if s.health.Unhealthy? && s.health.reason.UploadOf? {
      var w := s.health.reason.id;
      if w == u {
        assert ComesFirst(s, u);
      } else {
        assert SameAt(s.uploads, t.uploads, w);
        forall v | Published(t.parts, t.uploads, v) ensures Published(s.parts, s.uploads, v) && t.uploads[v] == s.uploads[v] {
          assert SameAt(s.uploads, t.uploads, v);
        }
        forall v | Published(s.parts, s.uploads, v) ensures v != u && Published(t.parts, t.uploads, v) && t.uploads[v] == s.uploads[v] {
          assert SameAt(s.uploads, t.uploads, v);
        }
      }
    }
  }

  /****** the two ends ******/

  lemma SettleableUploads(s: State)
    requires Settleable(s) && NoTransitionalTrash(s)
    ensures UploadsReady(s)
  {
    hide ListedBefore, PartOrTarget;
    SettledRows(s);
  }

  lemma SettledIsHealthy(s: State)
    requires NoTransitionalTrash(s) && NoFinalizing(s)
    ensures Settleable(s) <==> s.health.Healthy?
  {
    hide PartOrTarget;
    SettledRows(s);
    NothingLeft(s);
  }

  lemma NothingFinalizing(s: State)
    requires NoFinalizing(s)
    ensures UploadsReady(s)
  {
  }

  /** Neither the phase nor the storage matters. */
  lemma SameSettleable(s: State, t: State)
    requires t == s.(phase := t.phase, storageUp := t.storageUp)
    ensures (TrashReady(t) <==> TrashReady(s)) && (UploadsReady(t) <==> UploadsReady(s)) && (Settleable(t) <==> Settleable(s))
  {
    hide ThroughFile, MayRepair, ListedBefore;
    assert forall id | id in s.trashRows :: BitsDiffer(t, id) <==> BitsDiffer(s, id);
    assert forall id :: FlagAllows(t, id) <==> FlagAllows(s, id);
    assert forall u | u in s.uploads :: PartOrTarget(t, u) <==> PartOrTarget(s, u);
    assert forall u | u in s.uploads :: PassesFlag(t, u) <==> PassesFlag(s, u);
    assert ReasonOwned(t) <==> ReasonOwned(s);
  }
}
