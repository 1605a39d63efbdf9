/** Component paths and the subtree operations that a directory rename performs
    on any table keyed by path: the content tree, the index rows, a payload. */
module Paths {

  /** The components of a logical path; [] is the root of a tree. */
  type Path = seq<string>

  function Parent(p: Path): Path
    requires p != []
  {
    p[..|p| - 1]
  }

  /** The entries that are not `root` and not below it. */
  function Without<V>(t: map<Path, V>, root: Path): map<Path, V> {
    map q | q in t && !(root <= q) :: t[q]
  }

  /** `root` and everything below it, under their own paths. */
  function Under<V>(t: map<Path, V>, root: Path): map<Path, V> {
    map q | q in t && root <= q :: t[q]
  }

  /** The subtree at `root`, keyed relative to it. */
  function Detach<V>(t: map<Path, V>, root: Path): (r: map<Path, V>)
    ensures forall k {:trigger k in r} :: k in r <==> root + k in t
    ensures forall k {:trigger r[k]} :: k in r ==> r[k] == t[root + k]
  {
    var keys := set q | q in t && root <= q :: q[|root|..];
    assert forall k :: root + k in t ==> (root + k)[|root|..] == k && root <= root + k;
    assert forall k :: k in keys <==> root + k in t by {
      forall q | q in t && root <= q ensures root + q[|root|..] == q {}
    }
    map k | k in keys :: t[root + k]
  }

  /** A relative table hung below `root`. */
  function Attach<V>(t: map<Path, V>, root: Path): (r: map<Path, V>)
    ensures forall q {:trigger q in r} :: q in r <==> root <= q && q[|root|..] in t
    ensures forall q {:trigger r[q]} :: q in r ==> r[q] == t[q[|root|..]]
  {
    var keys := set k | k in t :: root + k;
    assert forall k :: (root + k)[|root|..] == k;
    assert forall q :: root <= q ==> root + q[|root|..] == q;
    assert forall q :: q in keys <==> root <= q && q[|root|..] in t by {
      forall q | root <= q && q[|root|..] in t ensures q in keys {
        assert root + q[|root|..] in keys;
      }
    }
    map q | q in keys :: t[q[|root|..]]
  }

  lemma AttachKey<V>(t: map<Path, V>, root: Path, k: Path)
    requires k in t
    ensures root + k in Attach(t, root) && Attach(t, root)[root + k] == t[k]
  {
    assert (root + k)[|root|..] == k;
  }

  /** What a rename of `src` to `dst` does to a table. */
  function Renamed<V>(t: map<Path, V>, src: Path, dst: Path): map<Path, V> {
    Without(t, src) + Attach(Detach(t, src), dst)
  }
}
