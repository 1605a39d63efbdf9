/** Keyset pagination: the queries behind List and Search, and what each page is in the
    ordered list of all matching rows. */
module Paging {
  import opened World
  import opened LogicalPath
  import opened IndexRows
  import opened Ordering

  datatype Mode = ListMode | SearchMode

  /** The ORDER BY columns. */
  function KeyOf(mode: Mode, e: Entry): (key: seq<string>)
    ensures |key| == if mode.ListMode? then 3 else 2
  {
    match mode
    case ListMode => [e.normalizedName, e.name, e.path]
    case SearchMode => [e.normalizedPath, e.path]
  }

  datatype Cursor = Cursor(primary: string, secondary: string, tertiary: string)

  const START := Cursor("", "", "")

  function CursorAt(mode: Mode, e: Entry): Cursor {
    match mode
    case ListMode => Cursor(e.normalizedName, e.name, e.path)
    case SearchMode => Cursor(e.normalizedPath, e.path, "")
  }

  /** The WHERE clause on the cursor. */
  predicate After(mode: Mode, c: Cursor, e: Entry) {
    match mode
    case ListMode =>
      || c.primary == "" || Less(c.primary, e.normalizedName)
      || (e.normalizedName == c.primary && Less(c.secondary, e.name))
      || (e.normalizedName == c.primary && e.name == c.secondary && Less(c.tertiary, e.path))
    case SearchMode =>
      || c.primary == "" || Less(c.primary, e.normalizedPath)
      || (e.normalizedPath == c.primary && Less(c.secondary, e.path))
  }

  /****** the order on keys ******/

  predicate Before(a: seq<string>, b: seq<string>)
    requires |a| == |b|
  {
    a != [] && (Less(a[0], b[0]) || (a[0] == b[0] && Before(a[1..], b[1..])))
  }

  lemma {:induction false} BeforeIrreflexive(a: seq<string>)
    ensures !Before(a, a)
  {
    if a != [] {
      LessIrreflexive(a[0]);
      BeforeIrreflexive(a[1..]);
    }
  }

  lemma {:induction false} BeforeTransitive(a: seq<string>, b: seq<string>, c: seq<string>)
    requires |a| == |b| == |c| && Before(a, b) && Before(b, c)
    ensures Before(a, c)
  {
    if Less(a[0], b[0]) && Less(b[0], c[0]) {
      LessTransitive(a[0], b[0], c[0]);
    } else if !Less(a[0], b[0]) && !Less(b[0], c[0]) {
      BeforeTransitive(a[1..], b[1..], c[1..]);
    }
  }

  lemma {:induction false} BeforeTotal(a: seq<string>, b: seq<string>)
    requires |a| == |b|
    ensures Before(a, b) || Before(b, a) || a == b
  {
    if a != [] {
      LessTotal(a[0], b[0]);
      BeforeTotal(a[1..], b[1..]);
      assert a == [a[0]] + a[1..] && b == [b[0]] + b[1..];
    }
  }

  predicate Precedes(mode: Mode, a: Entry, b: Entry) {
    Before(KeyOf(mode, a), KeyOf(mode, b))
  }

  lemma BeforeUnrolled(a: seq<string>, b: seq<string>)
    requires |a| == |b| && a != []
    ensures Before(a, b) <==> Less(a[0], b[0]) || (a[0] == b[0] && Before(a[1..], b[1..]))
    ensures |a| == 1 ==> !Before(a[1..], b[1..])
  {
  }

  /** The three or two disjuncts of the query are the order on keys. */
  lemma AfterIsOrder(mode: Mode, last: Entry, e: Entry)
    requires KeyOf(mode, last)[0] != ""
    ensures After(mode, CursorAt(mode, last), e) <==> Precedes(mode, last, e)
  {
    var a, b := KeyOf(mode, last), KeyOf(mode, e);
    if mode.ListMode? {
      BeforeUnrolled(a, b);
      BeforeUnrolled(a[1..], b[1..]);
      BeforeUnrolled(a[2..], b[2..]);
      assert a[1..][1..] == a[2..] && b[1..][1..] == b[2..];
    } else {
      BeforeUnrolled(a, b);
      BeforeUnrolled(a[1..], b[1..]);
    }
  }

  /** The first ORDER BY column that differs decides, in the binary collation. */
  ghost predicate ComesBefore(mode: Mode, a: Entry, b: Entry) {
    exists c: nat :: ColumnDecides(KeyOf(mode, a), KeyOf(mode, b), c)
  }

  ghost predicate ColumnDecides(a: seq<string>, b: seq<string>, c: nat) {
    c < |a| && c < |b| && a[..c] == b[..c] && BinaryBefore(a[c], b[c])
  }

  lemma {:induction false} BeforeDecides(a: seq<string>, b: seq<string>)
    requires |a| == |b|
    ensures Before(a, b) <==> exists c: nat :: ColumnDecides(a, b, c)
  {
    hide BinaryBefore, Less;
    if a != [] {
      LessIsBinary(a[0], b[0]);
      BeforeDecides(a[1..], b[1..]);
      if BinaryBefore(a[0], b[0]) { assert ColumnDecides(a, b, 0); }
      if a[0] == b[0] {
        if c: nat :| ColumnDecides(a[1..], b[1..], c) {
          assert a[..c + 1] == [a[0]] + a[1..][..c] && b[..c + 1] == [b[0]] + b[1..][..c];
          assert ColumnDecides(a, b, c + 1);
        }
      }
      if c: nat :| ColumnDecides(a, b, c) && c > 0 {
        assert a[..c][0] == b[..c][0];
        assert a[1..][..c - 1] == a[..c][1..] && b[1..][..c - 1] == b[..c][1..];
        assert ColumnDecides(a[1..], b[1..], c - 1);
      }
    }
  }

  lemma PrecedesDecides(mode: Mode, a: Entry, b: Entry)
    ensures Precedes(mode, a, b) <==> ComesBefore(mode, a, b)
  {
    hide Before, ColumnDecides;
    BeforeDecides(KeyOf(mode, a), KeyOf(mode, b));
  }

  /** The rows of a page come in order, and before every matching row that follows them. */
  ghost predicate PageOrdered(mode: Mode, rows: set<Entry>, c: Cursor, page: seq<Entry>) {
    && (forall i, j | 0 <= i < j < |page| :: ComesBefore(mode, page[i], page[j]))
    && (forall p, e | p in page && e in rows && After(mode, c, e) && e !in page :: ComesBefore(mode, p, e))
  }

  lemma PageIsOrdered(mode: Mode, rows: set<Entry>, c: Cursor, n: nat, page: seq<Entry>)
    requires IsPage(mode, rows, c, n, page)
    ensures PageOrdered(mode, rows, c, page)
  {
    hide Before, KeyOf, After, ComesBefore, Precedes;
    forall a, b ensures Precedes(mode, a, b) <==> ComesBefore(mode, a, b) {
      PrecedesDecides(mode, a, b);
    }
  }

  /****** one query ******/

  /** Distinct keys, none of them starting with an empty column: the shown rows of one
      generation, whose paths are unique and whose columns say what the paths say. */
  ghost predicate Keyed(mode: Mode, rows: set<Entry>) {
    && (forall e | e in rows :: KeyOf(mode, e)[0] != "")
    && (forall a, b | a in rows && b in rows && KeyOf(mode, a) == KeyOf(mode, b) :: a == b)
  }

  ghost predicate Sorted(mode: Mode, s: seq<Entry>) {
    forall i, j | 0 <= i < j < |s| :: Precedes(mode, s[i], s[j])
  }

  ghost predicate First(mode: Mode, e: Entry, rows: set<Entry>) {
    forall other | other in rows && other != e :: Precedes(mode, e, other)
  }

  lemma {:induction false} FirstExists(mode: Mode, rows: set<Entry>)
    requires Keyed(mode, rows) && rows != {}
    ensures exists e :: e in rows && First(mode, e, rows)
  {
    hide KeyOf, Before, Keyed;
    var x :| x in rows;
    var rest := rows - {x};
    if rest == {} {
      forall other | other in rows ensures other == x { assert other !in rest; }
      assert First(mode, x, rows);
    } else {
      KeyedPart(mode, rows, rest);
      FirstExists(mode, rest);
      var y :| y in rest && First(mode, y, rest);
      BeforeTotal(KeyOf(mode, x), KeyOf(mode, y));
      if Precedes(mode, x, y) {
        forall other | other in rows && other != x ensures Precedes(mode, x, other) {
          assert other in rest;
          if other != y { BeforeTransitive(KeyOf(mode, x), KeyOf(mode, y), KeyOf(mode, other)); }
        }
        assert First(mode, x, rows);
      } else {
        assert First(mode, y, rows);
      }
    }
  }

  lemma KeyedPart(mode: Mode, rows: set<Entry>, part: set<Entry>)
    requires Keyed(mode, rows) && part <= rows
    ensures Keyed(mode, part)
    ensures forall a, b | a in rows && b in rows && KeyOf(mode, a) == KeyOf(mode, b) :: a == b
  {
    hide KeyOf;
  }

  /** SELECT … WHERE after the cursor ORDER BY the key LIMIT n, over the matching rows. */
  ghost predicate IsPage(mode: Mode, rows: set<Entry>, c: Cursor, n: nat, page: seq<Entry>) {
    && Sorted(mode, page) && |page| <= n
    && (forall e | e in page :: e in rows && After(mode, c, e))
    && (forall e | e in rows && After(mode, c, e) && e !in page :: |page| == n && forall p | p in page :: Precedes(mode, p, e))
  }

  /****** pages of the ordered list ******/

  /** All matching rows in key order. */
  ghost predicate Enumerates(mode: Mode, rows: set<Entry>, sorted: seq<Entry>) {
    Sorted(mode, sorted) && forall e :: e in sorted <==> e in rows
  }

  lemma {:induction false} OrderedList(mode: Mode, rows: set<Entry>) returns (sorted: seq<Entry>)
    requires Keyed(mode, rows)
    ensures Enumerates(mode, rows, sorted)
  {
    hide KeyOf, Before, Keyed;
    if rows == {} {
      sorted := [];
    } else {
      FirstExists(mode, rows);
      var e :| e in rows && First(mode, e, rows);
      KeyedPart(mode, rows, rows - {e});
      var rest := OrderedList(mode, rows - {e});
      SortedConcat(mode, [e], rest);
      sorted := [e] + rest;
    }
  }

  /** The cursor with which a request asks for the rows from index `k` on. */
  function CursorFor(mode: Mode, sorted: seq<Entry>, k: nat): Cursor
    requires k <= |sorted|
  {
    if k == 0 then START else CursorAt(mode, sorted[k - 1])
  }

  lemma PrecedesOnce(mode: Mode, a: Entry, b: Entry)
    ensures !(Precedes(mode, a, b) && Precedes(mode, b, a)) && !Precedes(mode, a, a)
  {
    hide KeyOf;
    BeforeIrreflexive(KeyOf(mode, a));
    if Precedes(mode, a, b) && Precedes(mode, b, a) {
      BeforeTransitive(KeyOf(mode, a), KeyOf(mode, b), KeyOf(mode, a));
    }
  }

  /** The WHERE clause on a cursor selects the rows from that index on. */
  lemma AfterIndex(mode: Mode, rows: set<Entry>, sorted: seq<Entry>, k: nat, i: nat)
    requires Keyed(mode, rows) && Enumerates(mode, rows, sorted) && k <= |sorted| && i < |sorted|
    ensures After(mode, CursorFor(mode, sorted, k), sorted[i]) <==> k <= i
  {
    if k > 0 {
      hide KeyOf, After, Before, Precedes, CursorAt, Keyed;
      var last := sorted[k - 1];
      assert last in rows && sorted[i] in sorted;
      KeyNamed(mode, rows, last);
      AfterIsOrder(mode, last, sorted[i]);
      PrecedesOnce(mode, last, sorted[i]);
    }
  }

  lemma KeyNamed(mode: Mode, rows: set<Entry>, e: Entry)
    requires Keyed(mode, rows) && e in rows
    ensures KeyOf(mode, e)[0] != ""
  {
  }

  /** A page is the next slice of the ordered list. */
  lemma PageIsSlice(mode: Mode, rows: set<Entry>, sorted: seq<Entry>, k: nat, n: nat, page: seq<Entry>)
    requires Keyed(mode, rows) && Enumerates(mode, rows, sorted) && k <= |sorted|
    requires IsPage(mode, rows, CursorFor(mode, sorted, k), n, page)
    ensures |page| == (if |sorted| - k < n then |sorted| - k else n) && page == sorted[k..k + |page|]
  {
    hide KeyOf, After, Before, Precedes, CursorFor, Keyed;
    PagePrefix(mode, rows, sorted, k, n, page, |page|);
    if |page| < n && k + |page| < |sorted| {
      var e := sorted[k + |page|];
      AfterIndex(mode, rows, sorted, k, k + |page|);
      assert e in sorted;
      var j :| 0 <= j < |page| && page[j] == e;
      assert page[..|page|][j] == sorted[k + j];
      PrecedesOnce(mode, e, e);
    }
    assert page[..|page|] == page;
  }

  lemma {:induction false} PagePrefix(mode: Mode, rows: set<Entry>, sorted: seq<Entry>, k: nat, n: nat, page: seq<Entry>, j: nat)
    requires Keyed(mode, rows) && Enumerates(mode, rows, sorted) && k <= |sorted|
    requires IsPage(mode, rows, CursorFor(mode, sorted, k), n, page) && j <= |page|
    ensures k + j <= |sorted| && page[..j] == sorted[k..k + j]
  {
    hide KeyOf, After, Before, Precedes, CursorFor, Keyed;
    if j > 0 {
      PagePrefix(mode, rows, sorted, k, n, page, j - 1);
      NextOfPage(mode, rows, sorted, k, n, page, j - 1);
      assert page[..j] == page[..j - 1] + [page[j - 1]];
    }
  }

  lemma NextOfPage(mode: Mode, rows: set<Entry>, sorted: seq<Entry>, k: nat, n: nat, page: seq<Entry>, j: nat)
    requires Keyed(mode, rows) && Enumerates(mode, rows, sorted) && k <= |sorted|
    requires IsPage(mode, rows, CursorFor(mode, sorted, k), n, page) && j < |page|
    requires k + j <= |sorted| && page[..j] == sorted[k..k + j]
    ensures k + j < |sorted| && page[j] == sorted[k + j]
  {
    hide KeyOf, After, Before, Precedes, CursorFor, Keyed;
    var p := page[j];
    assert p in page;
    var i :| 0 <= i < |sorted| && sorted[i] == p;
    AfterIndex(mode, rows, sorted, k, i);
    assert i >= k + j by { NotEarlier(mode, sorted, page, k, j, i); }
    if i > k + j {
      AfterIndex(mode, rows, sorted, k, k + j);
      assert sorted[k + j] in sorted;
      forall m | 0 <= m < |page| ensures page[m] != sorted[k + j] {
        NotOnPage(mode, sorted, page, k, j, i, m);
      }
      PrecedesOnce(mode, sorted[k + j], p);
    }
  }

  lemma NotEarlier(mode: Mode, sorted: seq<Entry>, page: seq<Entry>, k: nat, j: nat, i: nat)
    requires Sorted(mode, page) && j < |page| && k + j <= |sorted| && page[..j] == sorted[k..k + j]
    requires k <= i < |sorted| && sorted[i] == page[j]
    ensures i >= k + j
  {
    hide Precedes;
    PrecedesOnce(mode, page[j], page[j]);
    if i < k + j { SliceHas(page, sorted, k, j, i); }
  }

  lemma NotOnPage(mode: Mode, sorted: seq<Entry>, page: seq<Entry>, k: nat, j: nat, i: nat, m: nat)
    requires Sorted(mode, page) && Sorted(mode, sorted) && j < |page| && m < |page|
    requires k + j < i < |sorted| && page[..j] == sorted[k..k + j] && sorted[i] == page[j]
    ensures page[m] != sorted[k + j]
  {
    hide Precedes;
    var e, p := sorted[k + j], page[j];
    PrecedesOnce(mode, e, p);
    PrecedesOnce(mode, e, e);
    if m < j { SliceHas(page, sorted, k, j, k + m); }
  }

  lemma SliceHas(page: seq<Entry>, sorted: seq<Entry>, k: nat, j: nat, i: nat)
    requires j <= |page| && k + j <= |sorted| && page[..j] == sorted[k..k + j] && k <= i < k + j
    ensures page[i - k] == sorted[i]
  {
    assert page[..j][i - k] == page[i - k] && sorted[k..k + j][i - k] == sorted[i];
  }

  lemma SortedConcat(mode: Mode, a: seq<Entry>, b: seq<Entry>)
    requires Sorted(mode, a) && Sorted(mode, b)
    requires forall x, y | x in a && y in b :: Precedes(mode, x, y)
    ensures Sorted(mode, a + b)
  {
    hide KeyOf, Before;
  }

  lemma PrefixHas(s: seq<Entry>, k: nat, j: nat)
    requires k <= |s| && j < |s|
    ensures j < k ==> s[j] in s[..k]
  {
    if j < k { assert s[..k][j] == s[j]; }
  }

  lemma PageBefore(mode: Mode, rows: set<Entry>, c: Cursor, n: nat, page: seq<Entry>, k: nat, a: Entry, b: Entry)
    requires IsPage(mode, rows, c, n, page) && k <= |page|
    requires a in page[..k] && b in rows && b !in page[..k] && After(mode, c, b)
    ensures Precedes(mode, a, b)
  {
    hide KeyOf, After, Before;
    var i :| 0 <= i < k && page[i] == a;
    if b in page {
      var j :| 0 <= j < |page| && page[j] == b;
      PrefixHas(page, k, j);
    }
  }

  /****** List and Search ******/

  const DEFAULT_LIST := 100
  const MAXIMUM_LIST := 500
  const DEFAULT_SEARCH := 50
  const MAXIMUM_SEARCH := 200

  predicate Contains(s: string, part: string) {
    exists i | 0 <= i <= |s| :: part <= s[i..]
  }

  /** The rows that List of a directory selects, cursor aside. */
  function Children(rows: Table, g: nat, parent: string): set<Entry> {
    set id | id in rows && In(rows[id], g, None) && rows[id].parent == parent :: rows[id]
  }

  /** The rows that Search for a normalized query selects, cursor aside. */
  function Hits(rows: Table, g: nat, query: string): set<Entry> {
    set id | id in rows && In(rows[id], g, None) && (Contains(rows[id].normalizedName, query) || Contains(rows[id].normalizedPath, query)) :: rows[id]
  }

  ghost predicate ShownAmong(rows: Table, g: nat, matching: set<Entry>) {
    forall e | e in matching :: exists id | id in rows :: rows[id] == e && In(e, g, None)
  }

  lemma MatchesShown(rows: Table, g: nat, parent: string, query: string)
    ensures ShownAmong(rows, g, Children(rows, g, parent)) && ShownAmong(rows, g, Hits(rows, g, query))
  {
  }

  /** Shown rows have distinct keys with a non-empty first column. */
  lemma ShownKeyed(mode: Mode, rows: Table, fold: char -> char, g: nat, matching: set<Entry>)
    requires TableOk(rows, fold) && ShownAmong(rows, g, matching)
    ensures Keyed(mode, matching)
  {
    hide ParentsShown, UniqueRows, EntryOk;
    forall e | e in matching ensures KeyOf(mode, e)[0] != "" {
      var id :| id in rows && rows[id] == e;
      ColumnsNamed(e, fold);
    }
    forall a, b | a in matching && b in matching && KeyOf(mode, a) == KeyOf(mode, b) ensures a == b {
      var i :| i in rows && rows[i] == a && In(a, g, None);
      var j :| j in rows && rows[j] == b && In(b, g, None);
      assert KeyOf(mode, a)[|KeyOf(mode, a)| - 1] == a.path && KeyOf(mode, b)[|KeyOf(mode, b)| - 1] == b.path;
      OneRowPerPath(rows, g, i, j);
    }
  }

  lemma OneRowPerPath(rows: Table, g: nat, i: nat, j: nat)
    requires UniqueRows(rows) && i in rows && j in rows && In(rows[i], g, None) && In(rows[j], g, None) && rows[i].path == rows[j].path
    ensures i == j
  {
    assert At(rows, i, g, None, rows[i].path) && At(rows, j, g, None, rows[i].path);
  }

  lemma ColumnsNamed(e: Entry, fold: char -> char)
    requires EntryOk(e, fold)
    ensures e.normalizedName != "" && e.normalizedPath != ""
  {
    hide Split, LastSlash, Clean, ParentPath, BaseName, Fold;
    CleanNamed(e.path);
    LastNamed(e.path);
    SplitParent(e.path);
    var up := if LastSlash(e.path) < 0 then [] else Split(e.parent);
    assert (up + [e.name])[|up|] == e.name;
    assert |Fold(fold, e.name)| == |e.name| && |Fold(fold, e.path)| == |e.path|;
  }

  lemma LastNamed(path: string)
    requires Clean(path)
    ensures Split(path)[|Split(path)| - 1] != ""
  {
  }

  /** The query: the first `n` matching rows after the cursor, in key order. */
  method Query(mode: Mode, matching: set<Entry>, c: Cursor, n: nat) returns (page: seq<Entry>)
    requires Keyed(mode, matching)
    ensures IsPage(mode, matching, c, n, page)
  {
    hide KeyOf, After, Before, Keyed;
    page := [];
    var rest := set e | e in matching && After(mode, c, e);
    KeyedPart(mode, matching, rest);
    while |page| < n && rest != {}
      invariant Sorted(mode, page) && |page| <= n && Keyed(mode, rest) && rest <= matching
      invariant forall e | e in page :: e in matching && After(mode, c, e) && e !in rest
      invariant forall e | e in rest :: After(mode, c, e)
      invariant forall e | e in matching && After(mode, c, e) :: e in page || e in rest
      invariant forall a, b | a in page && b in rest :: Precedes(mode, a, b)
      decreases n - |page|
    {
      FirstExists(mode, rest);
      var e :| e in rest && forall other | other in rest && other != e :: Precedes(mode, e, other);
      assert Sorted(mode, page + [e]) by { SortedConcat(mode, page, [e]); }
      KeyedPart(mode, rest, rest - {e});
      page, rest := page + [e], rest - {e};
    }
  }

  datatype Page = Refused | Served(entries: seq<Entry>, next: Option<Cursor>)

  /** The shared tail of List and Search: one row more than asked tells whether there
      is a next page. */
  method ServePage(mode: Mode, matching: set<Entry>, limit: nat, c: Cursor) returns (entries: seq<Entry>, next: Option<Cursor>)
    requires Keyed(mode, matching) && 0 < limit
    ensures IsPage(mode, matching, c, limit, entries)
    ensures next.None? <==> forall e | e in matching && After(mode, c, e) :: e in entries
    ensures next.Some? ==> |entries| == limit && next.value == CursorAt(mode, entries[limit - 1])
  {
    hide KeyOf, After, Before, Keyed, CursorAt;
    entries := Query(mode, matching, c, limit + 1);
    next := None;
    if |entries| > limit {
      ShorterPage(mode, matching, c, limit, entries);
      entries := entries[..limit];
      next := Some(CursorAt(mode, entries[limit - 1]));
    }
  }

  lemma ShorterPage(mode: Mode, matching: set<Entry>, c: Cursor, limit: nat, page: seq<Entry>)
    requires IsPage(mode, matching, c, limit + 1, page) && limit < |page|
    ensures IsPage(mode, matching, c, limit, page[..limit])
    ensures page[limit] in matching && After(mode, c, page[limit]) && page[limit] !in page[..limit]
  {
    hide KeyOf, After, Before;
    PrecedesOnce(mode, page[limit], page[limit]);
    var short := page[..limit];
    forall e, p | e in matching && After(mode, c, e) && e !in short && p in short ensures Precedes(mode, p, e) {
      PageBefore(mode, matching, c, limit + 1, page, limit, p, e);
    }
  }

  /** Service.List; `parent` is a parsed path, "" for the root. */
  method List(rows: Table, fold: char -> char, g: nat, parent: string, limit: int, c: Cursor) returns (page: Page)
    requires TableOk(rows, fold)
    ensures page.Refused? <==> limit < 0 || limit > 500 || (parent != "" && !DirectoryAt(rows, g, parent))
    ensures page.Served? ==>
      var n := if limit == 0 then 100 else limit;
      && IsPage(ListMode, Children(rows, g, parent), c, n, page.entries) && PageOrdered(ListMode, Children(rows, g, parent), c, page.entries)
      && (page.next.None? <==> forall e | e in Children(rows, g, parent) && After(ListMode, c, e) :: e in page.entries)
      && (page.next.Some? ==> |page.entries| == n && page.next.value == CursorAt(ListMode, page.entries[n - 1]))
  {
    hide IsPage, PageOrdered, TableOk, Keyed;
    var n := if limit == 0 then DEFAULT_LIST else limit;
    if n < 1 || n > MAXIMUM_LIST { return Refused; }
    if parent != "" && !DirectoryAt(rows, g, parent) { return Refused; }
    MatchesShown(rows, g, parent, "");
    ShownKeyed(ListMode, rows, fold, g, Children(rows, g, parent));
    var entries, next := ServePage(ListMode, Children(rows, g, parent), n, c);
    PageIsOrdered(ListMode, Children(rows, g, parent), c, n, entries);
    page := Served(entries, next);
  }

  /** Service.Search for a trimmed query. */
  method Search(rows: Table, fold: char -> char, g: nat, query: string, limit: int, c: Cursor) returns (page: Page)
    requires TableOk(rows, fold)
    ensures page.Refused? <==> limit < 0 || limit > 200 || query == "" || ByteLength(query) > 256
    ensures page.Served? ==>
      var n := if limit == 0 then 50 else limit;
      && IsPage(SearchMode, Hits(rows, g, Fold(fold, query)), c, n, page.entries) && PageOrdered(SearchMode, Hits(rows, g, Fold(fold, query)), c, page.entries)
      && (page.next.None? <==> forall e | e in Hits(rows, g, Fold(fold, query)) && After(SearchMode, c, e) :: e in page.entries)
      && (page.next.Some? ==> |page.entries| == n && page.next.value == CursorAt(SearchMode, page.entries[n - 1]))
  {
    hide IsPage, PageOrdered, TableOk, Keyed;
    if query == "" || ByteLength(query) > 256 { return Refused; }
    var n := if limit == 0 then DEFAULT_SEARCH else limit;
    if n < 1 || n > MAXIMUM_SEARCH { return Refused; }
    MatchesShown(rows, g, "", Fold(fold, query));
    ShownKeyed(SearchMode, rows, fold, g, Hits(rows, g, Fold(fold, query)));
    var entries, next := ServePage(SearchMode, Hits(rows, g, Fold(fold, query)), n, c);
    PageIsOrdered(SearchMode, Hits(rows, g, Fold(fold, query)), c, n, entries);
    page := Served(entries, next);
  }
}
