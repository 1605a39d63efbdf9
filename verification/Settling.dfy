/** What startup makes of one transitional trash row and of one finalizing upload, and
    the order in which it lists them. */
module Settling {
  import opened Paths
  import opened World
  import opened Invariant
  import opened Outcomes
  import opened Protocol
  import opened Service
  import opened Ordering

  /****** what reconciling one row does ******/

  predicate Transitional(rows: map<Id, TrashRow>, id: Id) {
    id in rows && rows[id].state != Trashed
  }

  /** The outcome that the two existence bits dictate: the payload is in trash and
      the row says so, or the content is in files and the row is gone. */
  ghost predicate SettledByBits(before: State, after: map<Id, TrashRow>, id: Id)
    requires id in before.trashRows
  {
    var p := before.trashRows[id].path;
    && ((id in before.trash) != (p in before.files))
    && (if id in before.trash then id in after && after[id] == TrashRow(p, Trashed) else id !in after)
  }

  lemma ReconcileTrashSettles(s: State, id: Id)
    requires Inv(s) && ReconcileTrash(s, id).Some? && Transitional(s.trashRows, id)
    ensures var t := ReconcileTrash(s, id).value;
      && t.files == s.files && t.trash == s.trash && t.parts == s.parts && t.phase == s.phase
      && SettledByBits(s, t.trashRows, id)
      && (forall i | i != id :: SameAt(s.trashRows, t.trashRows, i))
  {
    hide Inv, ReconcileTrash, SettledByBits;
    SettledFrame(s, id);
    assert forall i | i != id :: SameAt(s.trashRows, ReconcileTrash(s, id).value.trashRows, i);
    SettledAsBits(s, id);
  }

  lemma SettledFrame(s: State, id: Id)
    requires ReconcileTrash(s, id).Some? && Transitional(s.trashRows, id)
    ensures var t := ReconcileTrash(s, id).value;
      && t.files == s.files && t.trash == s.trash && t.parts == s.parts && t.phase == s.phase
      && (t.trashRows == s.trashRows - {id} || (id in t.trashRows && t.trashRows == s.trashRows[id := t.trashRows[id]]))
  {
    hide ThroughFile, CommitTrashRow, FinishRestoreRow;
    RowEffects(s, id);
  }

  lemma SettledAsBits(s: State, id: Id)
    requires ReconcileTrash(s, id).Some? && Transitional(s.trashRows, id)
    ensures SettledByBits(s, ReconcileTrash(s, id).value.trashRows, id)
  {
    hide ThroughFile, CommitTrashRow, FinishRestoreRow;
    RowEffects(s, id);
  }

  lemma RowEffects(s: State, id: Id)
    ensures var r := CommitTrashRow(s, id); r.Some? ==>
      && r.value.files == s.files && r.value.trash == s.trash && r.value.parts == s.parts && r.value.phase == s.phase
      && id in s.trashRows && r.value.trashRows == s.trashRows[id := TrashRow(s.trashRows[id].path, Trashed)]
    ensures var r := FinishRestoreRow(s, id); r.Some? ==>
      && r.value.files == s.files && r.value.trash == s.trash && r.value.parts == s.parts && r.value.phase == s.phase
      && r.value.trashRows == s.trashRows - {id}
  {
    hide MayRepair, Clear, Without, Under;
  }

  function PendingTrash(rows: map<Id, TrashRow>): set<Id> {
    set id | id in rows && rows[id].state != Trashed
  }

  /** Each row of `start` is untouched or settled by its bits; none is new. */
  ghost predicate Progress(start: State, now: State) {
    && now.files == start.files && now.trash == start.trash && now.parts == start.parts && now.phase == start.phase
    && (forall id | id in now.trashRows :: id in start.trashRows)
    && (forall id | id in start.trashRows ::
          SameAt(start.trashRows, now.trashRows, id) || (Transitional(start.trashRows, id) && SettledByBits(start, now.trashRows, id)))
  }

  lemma ProgressStep(start: State, s: State, t: State, id: Id)
    requires Progress(start, s) && Transitional(s.trashRows, id)
    requires t.files == s.files && t.trash == s.trash && t.parts == s.parts && t.phase == s.phase
    requires SettledByBits(s, t.trashRows, id)
    requires forall i | i != id :: SameAt(s.trashRows, t.trashRows, i)
    ensures Progress(start, t)
    ensures PendingTrash(t.trashRows) == PendingTrash(s.trashRows) - {id}
  {
    PendingShrinks(s, t.trashRows, id);
    forall i | i in start.trashRows
      ensures SameAt(start.trashRows, t.trashRows, i) || (Transitional(start.trashRows, i) && SettledByBits(start, t.trashRows, i))
    {
      assert SameAt(start.trashRows, s.trashRows, i) || (Transitional(start.trashRows, i) && SettledByBits(start, s.trashRows, i));
      if i != id { assert SameAt(s.trashRows, t.trashRows, i); }
    }
    forall i | i in t.trashRows ensures i in start.trashRows {
      if i != id { assert SameAt(s.trashRows, t.trashRows, i); }
    }
  }

  lemma PendingShrinks(s: State, rows: map<Id, TrashRow>, id: Id)
    requires Transitional(s.trashRows, id) && SettledByBits(s, rows, id)
    requires forall i | i != id :: SameAt(s.trashRows, rows, i)
    ensures PendingTrash(rows) == PendingTrash(s.trashRows) - {id}
  {
    forall i ensures i in PendingTrash(rows) <==> i in PendingTrash(s.trashRows) - {id} {
      if i != id { assert SameAt(s.trashRows, rows, i); }
    }
  }

  lemma PendingIsTransitional(rows: map<Id, TrashRow>, id: Id)
    ensures id in PendingTrash(rows) <==> Transitional(rows, id)
  {
  }

  lemma NonePending(s: State)
    requires PendingTrash(s.trashRows) == {}
    ensures NoTransitionalTrash(s)
  {
    forall id | id in s.trashRows ensures s.trashRows[id].state == Trashed {
      assert id !in PendingTrash(s.trashRows);
    }
  }

  lemma StartProgress(s: State)
    ensures Progress(s, s)
  {
  }

  lemma ProgressLost(start: State, s: State, t: State)
    requires Progress(start, s) && t == s.(storageUp := t.storageUp)
    ensures Progress(start, t) && t.trashRows == s.trashRows
  {
  }

  /****** listing ******/

  predicate Distinct(ids: seq<Id>) {
    forall i, j | 0 <= i < j < |ids| :: ids[i] != ids[j]
  }

  lemma ListedOnce(a: int, u: Id, b: int, v: Id)
    requires ListedBefore(a, u, b, v)
    ensures !ListedBefore(b, v, a, u) && !(a == b && u == v)
  {
    LessIrreflexive(u);
    if a == b && Less(v, u) { LessTransitive(u, v, u); }
  }

  lemma ListedTotal(a: int, u: Id, b: int, v: Id)
    ensures ListedBefore(a, u, b, v) || ListedBefore(b, v, a, u) || (a == b && u == v)
  {
    LessTotal(u, v);
  }

  lemma ListedOn(a: int, u: Id, b: int, v: Id, c: int, w: Id)
    requires ListedBefore(a, u, b, v) && ListedBefore(b, v, c, w)
    ensures ListedBefore(a, u, c, w)
  {
    if a == b == c { LessTransitive(u, v, w); }
  }

  /** Comes before every other element. */
  ghost predicate FirstOf(id: Id, rows: set<Id>, key: Id -> int) {
    id in rows && forall other | other in rows && other != id :: ListedBefore(key(id), id, key(other), other)
  }

  lemma {:induction false} FirstListed(rows: set<Id>, key: Id -> int) returns (id: Id)
    requires rows != {}
    ensures FirstOf(id, rows, key)
  {
    hide ListedBefore;
    var x :| x in rows;
    var rest := rows - {x};
    if rest == {} {
      assert forall other | other in rows :: other !in rest;
      id := x;
    } else {
      var y := FirstListed(rest, key);
      ListedTotal(key(x), x, key(y), y);
      id := if ListedBefore(key(x), x, key(y), y) then x else y;
      forall other | other in rows && other != id ensures ListedBefore(key(id), id, key(other), other) {
        assert other != x ==> other in rest;
        if id == x && other != y { ListedOn(key(x), x, key(y), y, key(other), other); }
      }
    }
  }

  ghost predicate InOrder(ids: seq<Id>, key: Id -> int) {
    forall i, j | 0 <= i < j < |ids| :: ListedBefore(key(ids[i]), ids[i], key(ids[j]), ids[j])
  }

  /** The first `limit` elements in the order of the listing. */
  ghost predicate IsListing(ids: seq<Id>, pending: set<Id>, key: Id -> int) {
    && InOrder(ids, key) && (forall i | 0 <= i < |ids| :: ids[i] in pending)
    && forall i, id | 0 <= i < |ids| && id in pending && id !in ids :: ListedBefore(key(ids[i]), ids[i], key(id), id)
  }

  /****** finalizing uploads ******/

  predicate IsFinalizing(uploads: map<Id, UploadRow>, u: Id) {
    u in uploads && uploads[u].status == Finalizing
  }

  function StampIn(uploads: map<Id, UploadRow>): Id -> int {
    u => if u in uploads then uploads[u].stamp else 0
  }

  function PendingUploads(uploads: map<Id, UploadRow>): set<Id> {
    set u | u in uploads && uploads[u].status == Finalizing
  }

  /** With the part present the upload is pending again and nothing is at its
      target; with the part gone its own verified bytes are there. */
  ghost predicate UploadSettledByBits(before: State, after: map<Id, UploadRow>, u: Id)
    requires u in before.uploads
  {
    var row := before.uploads[u];
    if u in before.parts then
      row.target !in before.files && SameRow(after, u, row.(status := Pending))
    else
      && row.target in before.files && before.files[row.target] == File(u, row.verified)
      && SameRow(after, u, row.(status := Completed))
  }

  lemma ReconcileUploadSettles(s: State, u: Id)
    requires Inv(s) && ReconcileUpload(s, u).Some? && IsFinalizing(s.uploads, u)
    ensures var t := ReconcileUpload(s, u).value;
      && t.files == s.files && t.trash == s.trash && t.parts == s.parts && t.phase == s.phase && t.trashRows == s.trashRows && t.storageUp
      && UploadSettledByBits(s, t.uploads, u)
      && (forall i | i != u :: SameAt(s.uploads, t.uploads, i))
  {
    hide Inv, ListedBefore, ThroughFile, MayRepair, Clear, RowAvailable;
    if u !in s.parts { OwnTarget(s, u); }
  }

  ghost predicate UploadProgress(start: State, now: State) {
    && now.files == start.files && now.trash == start.trash && now.parts == start.parts && now.trashRows == start.trashRows
    && (forall u | u in now.uploads :: u in start.uploads)
    && (forall u | u in start.uploads ::
          SameAt(start.uploads, now.uploads, u) || (IsFinalizing(start.uploads, u) && UploadSettledByBits(start, now.uploads, u)))
  }

  lemma UploadProgressStep(start: State, s: State, t: State, u: Id)
    requires UploadProgress(start, s) && IsFinalizing(s.uploads, u)
    requires t.files == s.files && t.trash == s.trash && t.parts == s.parts && t.trashRows == s.trashRows
    requires UploadSettledByBits(s, t.uploads, u)
    requires forall i | i != u :: SameAt(s.uploads, t.uploads, i)
    ensures UploadProgress(start, t)
    ensures PendingUploads(t.uploads) == PendingUploads(s.uploads) - {u}
  {
    forall i | i in start.uploads
      ensures SameAt(start.uploads, t.uploads, i) || (IsFinalizing(start.uploads, i) && UploadSettledByBits(start, t.uploads, i))
    {
      assert SameAt(start.uploads, s.uploads, i) || (IsFinalizing(start.uploads, i) && UploadSettledByBits(start, s.uploads, i));
      if i != u { assert SameAt(s.uploads, t.uploads, i); }
    }
    forall i | i in t.uploads ensures i in start.uploads {
      if i != u { assert SameAt(s.uploads, t.uploads, i); }
    }
    forall i ensures i in PendingUploads(t.uploads) <==> i in PendingUploads(s.uploads) - {u} {
      if i != u { assert SameAt(s.uploads, t.uploads, i); }
    }
  }

  lemma UploadProgressKept(start: State, s: State, t: State)
    requires UploadProgress(start, s)
    requires t.files == s.files && t.trash == s.trash && t.parts == s.parts && t.trashRows == s.trashRows && t.uploads == s.uploads
    ensures UploadProgress(start, t)
  {
  }

  lemma StartUploadProgress(s: State)
    ensures UploadProgress(s, s)
  {
  }

  lemma PendingIsFinalizing(uploads: map<Id, UploadRow>, u: Id)
    ensures u in PendingUploads(uploads) <==> IsFinalizing(uploads, u)
  {
  }

  lemma NonePendingUploads(s: State)
    requires PendingUploads(s.uploads) == {}
    ensures NoFinalizing(s)
  {
    forall u | u in s.uploads ensures s.uploads[u].status != Finalizing {
      assert u !in PendingUploads(s.uploads);
    }
  }
}
