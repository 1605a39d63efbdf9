/** What a rename, a publication, a removal or a return from trash does to the
    content tree and to the rows that describe it. */
module Trees {
  import opened Paths
  import opened World
  import opened Invariant

  lemma {:induction false} NothingBelow(t: Tree, p: Path, q: Path)
    requires TreeOk(t) && p != [] && p !in t && q in t
    ensures !(p <= q)
    decreases |q|
  {
    if p <= q && p != q {
      assert InDirectory(t, q);
      assert p <= Parent(q);
      NothingBelow(t, p, Parent(q));
    }
  }

  lemma CreatedTree(t: Tree, p: Path, n: Node)
    requires TreeOk(t) && CanCreate(t, p)
    ensures TreeOk(t[p := n])
    ensures forall q | q in t :: !(p <= q)
  {
    forall q | q in t ensures !(p <= q) {
      NothingBelow(t, p, q);
    }
    forall q | q in t[p := n] && |q| > 1 ensures InDirectory(t[p := n], q) {
      if q != p {
        assert InDirectory(t, q);
      }
    }
  }

  lemma WithoutTree(t: Tree, p: Path)
    requires TreeOk(t)
    ensures TreeOk(Without(t, p))
  {
    forall q | q in Without(t, p) && |q| > 1 ensures InDirectory(Without(t, p), q) {
      assert InDirectory(t, q);
      assert Parent(q) <= q;
    }
  }

  lemma DetachedPayload(t: Tree, p: Path)
    requires TreeOk(t) && p in t
    ensures PayloadOk(Detach(t, p))
  {
    assert p + [] == p;
    forall r | r in Detach(t, p) ensures InDirectory(Detach(t, p), r) {
      if r != [] {
        assert InDirectory(t, p + r);
        assert Parent(p + r) == p + Parent(r);
      }
    }
  }

  lemma AttachedTree(t: Tree, payload: Tree, p: Path)
    requires TreeOk(t) && PayloadOk(payload) && CanCreate(t, p)
    ensures TreeOk(t + Attach(payload, p))
    ensures forall q | q in t :: q !in Attach(payload, p)
  {
    var t' := t + Attach(payload, p);
    CreatedTree(t, p, Dir);
    assert p[|p|..] == [];
    forall q | q in t' && |q| > 1 ensures InDirectory(t', q) {
      if q in Attach(payload, p) {
        var r := q[|p|..];
        assert InDirectory(payload, r);
        if r != [] {
          assert Parent(q)[|p|..] == Parent(r);
          assert Parent(q) in Attach(payload, p);
        } else {
          assert q == p;
        }
      } else {
        assert InDirectory(t, q);
      }
    }
  }

  lemma RenamedTree(t: Tree, src: Path, dst: Path)
    requires TreeOk(t) && CanRename(t, src, dst)
    ensures TreeOk(Renamed(t, src, dst))
    ensures !(dst <= src)
    ensures forall q | q in t :: !(dst <= q)
  {
    CreatedTree(t, dst, Dir);
    WithoutTree(t, src);
    DetachedPayload(t, src);
    assert |dst| > 1 && src <= Parent(dst) ==> src <= dst;
    assert CanCreate(Without(t, src), dst);
    AttachedTree(Without(t, src), Detach(t, src), dst);
  }

  /** The storage makes a directory exactly where nothing is and a tree stays a tree. */
  lemma CreatableExactly(t: Tree, p: Path)
    requires TreeOk(t)
    ensures CanCreate(t, p) <==> p !in t && TreeOk(t[p := Dir])
  {
    if CanCreate(t, p) { CreatedTree(t, p, Dir); }
    if p !in t && TreeOk(t[p := Dir]) && |p| > 1 {
      assert InDirectory(t[p := Dir], p);
      assert Parent(p) != p;
    }
  }

  /** The storage renames exactly what is there to where nothing is, not into itself, when
      a tree stays a tree. */
  lemma RenamableExactly(t: Tree, src: Path, dst: Path)
    requires TreeOk(t)
    ensures CanRename(t, src, dst) <==> src in t && dst !in t && !(src <= dst) && TreeOk(Renamed(t, src, dst))
  {
    if CanRename(t, src, dst) { RenamedTree(t, src, dst); }
    if src in t && dst !in t && !(src <= dst) && TreeOk(Renamed(t, src, dst)) {
      assert src + [] == src && dst[|dst|..] == [];
      assert dst in Renamed(t, src, dst);
      if |dst| > 1 {
        assert InDirectory(Renamed(t, src, dst), dst);
        assert !(dst <= Parent(dst));
      }
    }
  }

  /****** rows follow content ******/

  lemma MetaOfParts(t: Tree, p: Path)
    ensures MetaOf(Without(t, p)) == Without(MetaOf(t), p)
    ensures MetaOf(Detach(t, p)) == Detach(MetaOf(t), p)
    ensures MetaOf(Attach(t, p)) == Attach(MetaOf(t), p)
  {
  }

  lemma MetaUnion(t: Tree, t': Tree)
    ensures MetaOf(t + t') == MetaOf(t) + MetaOf(t')
  {
  }

  lemma MetaRenamed(t: Tree, src: Path, dst: Path)
    ensures MetaOf(Renamed(t, src, dst)) == Renamed(MetaOf(t), src, dst)
  {
    hide MetaOf, Without, Detach, Attach;
    MetaOfParts(t, src);
    MetaOfParts(Detach(t, src), dst);
    MetaUnion(Without(t, src), Attach(Detach(t, src), dst));
  }

  lemma DetachAttach<V>(t: map<Path, V>, p: Path)
    ensures Attach(Detach(t, p), p) == Under(t, p)
  {
    forall q | p <= q ensures p + q[|p|..] == q {}
  }

  lemma SplitAt<V>(t: map<Path, V>, p: Path)
    ensures Without(t, p) + Attach(Detach(t, p), p) == t
  {
    DetachAttach(t, p);
  }

  lemma UnionBelowWithout<V>(t: map<Path, V>, below: map<Path, V>, p: Path)
    requires forall q | q in t :: !(p <= q)
    ensures Without(t + Attach(below, p), p) == t
  {
  }

  lemma UnionBelowDetach<V>(t: map<Path, V>, below: map<Path, V>, p: Path)
    requires forall q | q in t :: !(p <= q)
    ensures Detach(t + Attach(below, p), p) == below
  {
    var u := t + Attach(below, p);
    forall k ensures k in Detach(u, p) <==> k in below {
      assert (p + k)[|p|..] == k;
    }
    forall k | k in below ensures Detach(u, p)[k] == below[k] {
      assert (p + k)[|p|..] == k;
    }
  }

  /** A rename that did not overwrite anything is undone by the opposite rename. */
  lemma RenameInverse<V>(t: map<Path, V>, src: Path, dst: Path)
    requires forall q | q in t :: !(dst <= q)
    ensures Renamed(Renamed(t, src, dst), dst, src) == t
  {
    UnionBelowWithout(Without(t, src), Detach(t, src), dst);
    UnionBelowDetach(Without(t, src), Detach(t, src), dst);
    hide Attach, Detach, Without;
    SplitAt(t, src);
  }

  /****** where files went ******/

  /** A step moved files along `back`, one place to one place. */
  lemma OriginsMoved(files: Tree, trash: map<Id, Tree>, files': Tree, trash': map<Id, Tree>,
                     parts: map<Id, Bytes>, uploads: map<Id, UploadRow>, back: Place -> Place)
    requires OriginsOk(files, trash, parts, uploads)
    requires forall pl, f | Holds(files', trash', pl, f) :: Holds(files, trash, back(pl), f)
    requires forall pl, pl', f, f' |
      Holds(files', trash', pl, f) && Holds(files', trash', pl', f') && back(pl) == back(pl') :: pl == pl'
    ensures OriginsOk(files', trash', parts, uploads)
  {
    forall pl, pl', f, f' | Holds(files', trash', pl, f) && Holds(files', trash', pl', f') && f.origin == f'.origin
      ensures pl == pl'
    {
      assert Holds(files, trash, back(pl), f) && Holds(files, trash, back(pl'), f');
    }
    forall pl, f | Holds(files', trash', pl, f)
      ensures f.origin !in parts && f.origin in uploads && uploads[f.origin].status in {Finalizing, Completed}
    {
      assert Holds(files, trash, back(pl), f);
    }
  }
}
