/** List and Search as a client sees them, with cursors as strings, and the client that
    follows NextCursor from the first page to the last. */
module Clients {
  import opened World
  import opened LogicalPath
  import opened IndexRows
  import opened Paging
  import opened Cursors

  datatype Request = ListOf(parent: string) | SearchFor(query: string)

  function ModeOf(q: Request): Mode {
    if q.ListOf? then ListMode else SearchMode
  }

  function ScopeOf(q: Request, fold: char -> char): string {
    if q.ListOf? then q.parent else Fold(fold, q.query)
  }

  function Matching(rows: Table, fold: char -> char, g: nat, q: Request): set<Entry> {
    if q.ListOf? then Children(rows, g, q.parent) else Hits(rows, g, Fold(fold, q.query))
  }

  function PageSize(q: Request, limit: int): int {
    if limit != 0 then limit else if q.ListOf? then DEFAULT_LIST else DEFAULT_SEARCH
  }

  /** Everything but the cursor is acceptable. */
  predicate RequestOk(rows: Table, g: nat, q: Request, limit: int) {
    && 0 < PageSize(q, limit) <= (if q.ListOf? then MAXIMUM_LIST else MAXIMUM_SEARCH)
    && (if q.ListOf? then q.parent == "" || (ParsePath(q.parent) && DirectoryAt(rows, g, q.parent))
        else q.query != "" && ByteLength(q.query) <= 256)
  }

  /** `next` is empty on the last page. */
  datatype Answer = Answer(entries: seq<Entry>, next: string)

  function Plain(c: IndexCursor): Cursor {
    Cursor(c.primary, c.secondary, c.tertiary)
  }

  /** The page after the cursor, and the cursor after the page unless nothing follows. */
  ghost predicate AnswerOk(rows: Table, fold: char -> char, g: nat, q: Request, n: nat, c: Cursor, a: Answer)
    requires n > 0
  {
    && IsPage(ModeOf(q), Matching(rows, fold, g, q), c, n, a.entries)
    && (a.next == "" <==> forall m | m in Matching(rows, fold, g, q) && After(ModeOf(q), c, m) :: m in a.entries)
    && (a.next != "" ==> |a.entries| == n && a.next == EncodeCursor(Emitted(ModeOf(q), ScopeOf(q, fold), a.entries[n - 1])))
  }

  function Encoded(mode: Mode, scope: string, c: Cursor): string {
    EncodeCursor(IndexCursor(NameOf(mode), scope, c.primary, c.secondary, c.tertiary))
  }

  lemma EncodedAt(mode: Mode, scope: string, e: Entry)
    ensures Encoded(mode, scope, CursorAt(mode, e)) == EncodeCursor(Emitted(mode, scope, e)) != ""
  {
    hide EncodeCursor, CursorAt;
    EncodedPlain(Emitted(mode, scope, e));
  }

  /** One request, as the service answers it. */
  method Serve(rows: Table, fold: char -> char, g: nat, q: Request, limit: int, value: string) returns (r: Option<Answer>)
    requires TableOk(rows, fold)
    ensures r.Some? <==> RequestOk(rows, g, q, limit) && DecodeCursor(value, ModeOf(q), ScopeOf(q, fold), fold).Some?
    ensures r.Some? ==>
      AnswerOk(rows, fold, g, q, PageSize(q, limit), Plain(DecodeCursor(value, ModeOf(q), ScopeOf(q, fold), fold).value), r.value)
  {
    hide IsPage, TableOk, Keyed, DecodeCursor, EncodeCursor, ParsePath, DirectoryAt, ByteLength, After, Children, Hits, CursorAt, Emitted, Encoded;
    if q.ListOf? && q.parent != "" && !ParsePath(q.parent) { return None; }
    var cursor := DecodeCursor(value, ModeOf(q), ScopeOf(q, fold), fold);
    if cursor.None? { return None; }
    var page;
    if q.ListOf? {
      page := List(rows, fold, g, q.parent, limit, Plain(cursor.value));
    } else {
      page := Search(rows, fold, g, q.query, limit, Plain(cursor.value));
    }
    if page.Refused? { return None; }
    var next := "";
    if page.next.Some? {
      EncodedAt(ModeOf(q), ScopeOf(q, fold), page.entries[|page.entries| - 1]);
      next := Encoded(ModeOf(q), ScopeOf(q, fold), page.next.value);
    }
    r := Some(Answer(page.entries, next));
  }

  /** The cursor after this row is refused. */
  predicate Lost(q: Request, fold: char -> char, e: Entry) {
    |EncodeCursor(Emitted(ModeOf(q), ScopeOf(q, fold), e))| > MAXIMUM_CURSOR || !ParsePath(e.path)
  }

  /** What the client sends to get the rows from index `k` on. */
  function ValueFor(q: Request, fold: char -> char, sorted: seq<Entry>, k: nat): string
    requires k <= |sorted|
  {
    if k == 0 then "" else EncodeCursor(Emitted(ModeOf(q), ScopeOf(q, fold), sorted[k - 1]))
  }

  lemma ValueDecodes(rows: Table, fold: char -> char, g: nat, q: Request, sorted: seq<Entry>, k: nat)
    requires TableOk(rows, fold) && Enumerates(ModeOf(q), Matching(rows, fold, g, q), sorted) && k <= |sorted|
    ensures var c := DecodeCursor(ValueFor(q, fold, sorted, k), ModeOf(q), ScopeOf(q, fold), fold);
      && (c.Some? <==> k > 0 ==> !Lost(q, fold, sorted[k - 1]))
      && (c.Some? ==> Plain(c.value) == CursorFor(ModeOf(q), sorted, k))
  {
    hide TableOk, EncodeCursor, ParsePath, EntryOk, Sorted;
    if k > 0 {
      hide DecodeCursor;
      var e := sorted[k - 1];
      assert e in sorted;
      MatchingOk(rows, fold, g, q, e);
      EmittedComesBack(ModeOf(q), ScopeOf(q, fold), e, fold);
    }
  }

  lemma MatchingOk(rows: Table, fold: char -> char, g: nat, q: Request, e: Entry)
    requires TableOk(rows, fold) && e in Matching(rows, fold, g, q)
    ensures EntryOk(e, fold)
  {
    hide EntryOk, UniqueRows, ParentsShown;
  }

  lemma MatchingKeyed(rows: Table, fold: char -> char, g: nat, q: Request)
    requires TableOk(rows, fold)
    ensures Keyed(ModeOf(q), Matching(rows, fold, g, q))
  {
    hide TableOk, Keyed, ShownAmong;
    MatchesShown(rows, g, ScopeOf(q, fold), ScopeOf(q, fold));
    ShownKeyed(ModeOf(q), rows, fold, g, Matching(rows, fold, g, q));
  }

  /** So many rows are a whole number of pages. */
  predicate WholePages(k: nat, n: nat)
    requires n > 0
  {
    k == 0 || (k >= n && WholePages(k - n, n))
  }

  /** A page ends before index `k`, and there are more rows. */
  predicate AtBoundary(sorted: seq<Entry>, n: nat, k: nat)
    requires n > 0
  {
    0 < k < |sorted| && WholePages(k, n)
  }

  lemma {:induction false} PagesApart(k: nat, at: nat, n: nat)
    requires n > 0 && WholePages(k, n) && WholePages(at, n) && k < at + n
    ensures k <= at
  {
    if k > 0 && at > 0 { PagesApart(k - n, at - n, n); }
  }

  /** No boundary before index `upTo` has a refused cursor. */
  ghost predicate NoneLost(q: Request, fold: char -> char, sorted: seq<Entry>, n: nat, upTo: nat)
    requires n > 0
  {
    forall k: nat | AtBoundary(sorted, n, k) && k < upTo :: !Lost(q, fold, sorted[k - 1])
  }

  lemma OnePageMore(q: Request, fold: char -> char, sorted: seq<Entry>, n: nat, at: nat)
    requires n > 0 && at <= |sorted| && NoneLost(q, fold, sorted, n, at) && WholePages(at, n)
    requires at > 0 ==> !Lost(q, fold, sorted[at - 1])
    ensures NoneLost(q, fold, sorted, n, at + n)
  {
    hide Lost;
    forall k: nat | AtBoundary(sorted, n, k) && k < at + n ensures !Lost(q, fold, sorted[k - 1]) {
      PagesApart(k, at, n);
    }
  }

  ghost predicate SomeLost(q: Request, fold: char -> char, sorted: seq<Entry>, n: nat)
    requires n > 0
  {
    exists k: nat :: AtBoundary(sorted, n, k) && Lost(q, fold, sorted[k - 1])
  }

  lemma NoneAtAll(q: Request, fold: char -> char, sorted: seq<Entry>, n: nat, upTo: nat)
    requires n > 0 && NoneLost(q, fold, sorted, n, upTo) && |sorted| <= upTo
    ensures !SomeLost(q, fold, sorted, n)
  {
    hide Lost;
  }

  /** What a client has after some pages, and what it sends next. */
  ghost predicate Fetched(q: Request, fold: char -> char, sorted: seq<Entry>, n: nat, all: seq<Entry>, value: string)
    requires n > 0
  {
    && |all| <= |sorted| && all == sorted[..|all|] && (all != [] ==> |all| < |sorted|)
    && WholePages(|all|, n) && value == ValueFor(q, fold, sorted, |all|)
    && NoneLost(q, fold, sorted, n, |all|)
  }

  lemma NothingFetched(q: Request, fold: char -> char, sorted: seq<Entry>, n: nat)
    requires n > 0
    ensures Fetched(q, fold, sorted, n, [], "")
  {
  }

  /** A page brings the client on, or to the end. */
  lemma PageFetched(rows: Table, fold: char -> char, g: nat, q: Request, n: nat, sorted: seq<Entry>, all: seq<Entry>, value: string, a: Answer)
    requires n > 0 && Fetched(q, fold, sorted, n, all, value) && TableOk(rows, fold) && Enumerates(ModeOf(q), Matching(rows, fold, g, q), sorted)
    requires DecodeCursor(value, ModeOf(q), ScopeOf(q, fold), fold).Some?
    requires AnswerOk(rows, fold, g, q, n, Plain(DecodeCursor(value, ModeOf(q), ScopeOf(q, fold), fold).value), a)
    ensures if a.next == "" then all + a.entries == sorted && !SomeLost(q, fold, sorted, n)
            else a.entries != [] && |all| < |sorted| && Fetched(q, fold, sorted, n, all + a.entries, a.next)
  {
    hide TableOk, Enumerates, Lost, AnswerOk, DecodeCursor, EncodeCursor, Matching, ScopeOf, ModeOf, NoneLost, SomeLost, WholePages, Emitted,
         Fetched, ValueFor, CursorFor;
    FetchedFacts(q, fold, sorted, n, all, value);
    ValueDecodes(rows, fold, g, q, sorted, |all|);
    AnswerSlice(rows, fold, g, q, n, sorted, |all|, a);
    OnePageMore(q, fold, sorted, n, |all|);
    SliceJoins(sorted, all, a.entries);
    if a.next == "" {
      NoneAtAll(q, fold, sorted, n, |all| + n);
    } else {
      NextFetched(q, fold, sorted, n, all, a);
    }
  }

  lemma FetchedFacts(q: Request, fold: char -> char, sorted: seq<Entry>, n: nat, all: seq<Entry>, value: string)
    requires n > 0 && Fetched(q, fold, sorted, n, all, value)
    ensures |all| <= |sorted| && all == sorted[..|all|] && WholePages(|all|, n)
    ensures value == ValueFor(q, fold, sorted, |all|) && NoneLost(q, fold, sorted, n, |all|)
  {
    hide NoneLost;
  }

  lemma NextFetched(q: Request, fold: char -> char, sorted: seq<Entry>, n: nat, all: seq<Entry>, a: Answer)
    requires n > 0 && |a.entries| == n && |all| + n < |sorted| && WholePages(|all|, n)
    requires all + a.entries == sorted[..|all| + n] && a.entries[n - 1] == sorted[|all| + n - 1]
    requires a.next == EncodeCursor(Emitted(ModeOf(q), ScopeOf(q, fold), a.entries[n - 1]))
    requires NoneLost(q, fold, sorted, n, |all| + n)
    ensures Fetched(q, fold, sorted, n, all + a.entries, a.next)
  {
    hide NoneLost, EncodeCursor, Emitted, ScopeOf, ModeOf;
    PagesMore(|all|, n);
  }

  lemma AnswerSlice(rows: Table, fold: char -> char, g: nat, q: Request, n: nat, sorted: seq<Entry>, k: nat, a: Answer)
    requires n > 0 && TableOk(rows, fold) && Enumerates(ModeOf(q), Matching(rows, fold, g, q), sorted) && k <= |sorted|
    requires AnswerOk(rows, fold, g, q, n, CursorFor(ModeOf(q), sorted, k), a)
    ensures |a.entries| <= n && k + |a.entries| <= |sorted| && a.entries == sorted[k..k + |a.entries|]
    ensures a.next == "" <==> k + |a.entries| == |sorted|
    ensures a.next != "" ==> |a.entries| == n && a.next == EncodeCursor(Emitted(ModeOf(q), ScopeOf(q, fold), a.entries[n - 1]))
  {
    hide TableOk, Keyed, Enumerates, IsPage, EncodeCursor, Matching, ScopeOf, ModeOf, CursorFor, After, Emitted;
    MatchingKeyed(rows, fold, g, q);
    PageIsSlice(ModeOf(q), Matching(rows, fold, g, q), sorted, k, n, a.entries);
    MoreLeft(ModeOf(q), Matching(rows, fold, g, q), sorted, k, n, a.entries);
  }

  lemma SliceJoins(sorted: seq<Entry>, all: seq<Entry>, page: seq<Entry>)
    requires |all| + |page| <= |sorted| && all == sorted[..|all|] && page == sorted[|all|..|all| + |page|]
    ensures all + page == sorted[..|all| + |page|]
    ensures |all| + |page| == |sorted| ==> all + page == sorted
    ensures page != [] ==> page[|page| - 1] == sorted[|all| + |page| - 1]
  {
  }

  lemma PagesMore(k: nat, n: nat)
    requires n > 0 && WholePages(k, n)
    ensures WholePages(k + n, n)
  {
  }

  /** Following NextCursor over unchanged rows: either every matching row comes once, in
      key order, or the run ends with a refusal after a page whose last row has a cursor
      that is too long or a path that no longer parses. */
  method Follow(rows: Table, fold: char -> char, g: nat, q: Request, limit: int) returns (all: seq<Entry>, refused: bool, ghost sorted: seq<Entry>)
    requires TableOk(rows, fold) && RequestOk(rows, g, q, limit)
    ensures !refused ==> Enumerates(ModeOf(q), Matching(rows, fold, g, q), all)
    ensures refused ==> Sorted(ModeOf(q), all) && all != [] && Lost(q, fold, all[|all| - 1]) && forall e | e in all :: e in Matching(rows, fold, g, q)
    ensures Enumerates(ModeOf(q), Matching(rows, fold, g, q), sorted) && (!refused ==> all == sorted)
    ensures refused <==> SomeLost(q, fold, sorted, PageSize(q, limit))
    ensures refused ==> AtBoundary(sorted, PageSize(q, limit), |all|) && all == sorted[..|all|] && Lost(q, fold, sorted[|all| - 1])
  {
    hide TableOk, Keyed, Enumerates, Sorted, Lost, AnswerOk, DecodeCursor, EncodeCursor, Matching, ScopeOf, ModeOf, SomeLost, ParsePath, DirectoryAt, Fetched;
    var n: nat := PageSize(q, limit);
    assert n > 0;
    hide RequestOk, PageSize;
    MatchingKeyed(rows, fold, g, q);
    sorted := OrderedList(ModeOf(q), Matching(rows, fold, g, q));
    NothingFetched(q, fold, sorted, n);
    var value := "";
    all := [];
    while true
      invariant |all| <= |sorted| && Fetched(q, fold, sorted, n, all, value)
      decreases |sorted| - |all|
    {
      var r := Serve(rows, fold, g, q, limit, value);
      if r.None? {
        LostHere(rows, fold, g, q, n, sorted, all, value);
        PrefixInOrder(ModeOf(q), Matching(rows, fold, g, q), sorted, |all|);
        return all, true, sorted;
      }
      PageFetched(rows, fold, g, q, n, sorted, all, value, r.value);
      all, value := all + r.value.entries, r.value.next;
      if value == "" { return all, false, sorted; }
      assert |all| <= |sorted| by { FetchedFacts(q, fold, sorted, n, all, value); }
    }
  }

  /** A refused cursor is that of the last row. */
  lemma LostHere(rows: Table, fold: char -> char, g: nat, q: Request, n: nat, sorted: seq<Entry>, all: seq<Entry>, value: string)
    requires n > 0 && Fetched(q, fold, sorted, n, all, value) && TableOk(rows, fold) && Enumerates(ModeOf(q), Matching(rows, fold, g, q), sorted)
    requires DecodeCursor(value, ModeOf(q), ScopeOf(q, fold), fold).None?
    ensures AtBoundary(sorted, n, |all|) && all == sorted[..|all|] && Lost(q, fold, sorted[|all| - 1]) && SomeLost(q, fold, sorted, n)
  {
    hide TableOk, Enumerates, Lost, DecodeCursor, EncodeCursor, Matching, ScopeOf, ModeOf, NoneLost;
    ValueDecodes(rows, fold, g, q, sorted, |all|);
  }

  lemma PrefixInOrder(mode: Mode, rows: set<Entry>, sorted: seq<Entry>, k: nat)
    requires Enumerates(mode, rows, sorted) && k <= |sorted|
    ensures Sorted(mode, sorted[..k]) && forall e | e in sorted[..k] :: e in rows
  {
    hide Precedes;
    forall e | e in sorted[..k] ensures e in rows {
      assert e in sorted;
    }
  }

  /** There is no next page exactly when the slice reaches the end. */
  lemma MoreLeft(mode: Mode, rows: set<Entry>, sorted: seq<Entry>, k: nat, n: nat, page: seq<Entry>)
    requires Keyed(mode, rows) && Enumerates(mode, rows, sorted) && k <= |sorted| && k + |page| <= |sorted| && page == sorted[k..k + |page|]
    ensures (forall m | m in rows && After(mode, CursorFor(mode, sorted, k), m) :: m in page) <==> k + |page| == |sorted|
  {
    hide After, Keyed, CursorFor, Precedes;
    if k + |page| == |sorted| {
      forall m | m in rows && After(mode, CursorFor(mode, sorted, k), m) ensures m in page {
        var i :| 0 <= i < |sorted| && sorted[i] == m;
        AfterIndex(mode, rows, sorted, k, i);
        assert page[i - k] == m;
      }
    } else {
      var e := sorted[k + |page|];
      AfterIndex(mode, rows, sorted, k, k + |page|);
      assert e in sorted;
      if e in page {
        var j :| 0 <= j < |page| && page[j] == e;
        assert Precedes(mode, sorted[k + j], sorted[k + |page|]);
        PrecedesOnce(mode, e, e);
      }
    }
  }
}
