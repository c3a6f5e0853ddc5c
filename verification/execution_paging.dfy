/**
 Listing executions page by page. The listing is newest first; ties are broken by the id under the
 collation of the platform, descending, and then by the order of the store. A page is addressed by the id of the last row of the page before.
 */
module ExecutionPaging {
  import opened Options

  datatype Row = Row(id: string, createdAt: int)

  /**
   How ids are ordered: by the platform's collation, which may rank different ids alike, and among those by
   the order in which the store lists them, which the stable sort keeps. Any such order embeds in the reals.
   */
  datatype Collation = Collation(rank: string -> real, place: string -> real)

  ghost predicate Injective(c: Collation) {
    forall s, t :: c.rank(s) == c.rank(t) && c.place(s) == c.place(t) ==> s == t
  }

  /** `x` is listed before `y`. */
  predicate Before(c: Collation, x: Row, y: Row) {
    || x.createdAt > y.createdAt
    || (x.createdAt == y.createdAt && c.rank(x.id) > c.rank(y.id))
    || (x.createdAt == y.createdAt && c.rank(x.id) == c.rank(y.id) && c.place(x.id) < c.place(y.id))
  }

  predicate Listed(c: Collation, rows: seq<Row>) {
    forall i, j :: 0 <= i < j < |rows| ==> Before(c, rows[i], rows[j])
  }

  predicate UniqueRows(rows: seq<Row>) {
    forall i, j :: 0 <= i < j < |rows| ==> rows[i].id != rows[j].id
  }

  /** One row per id, as the store gives it. */
  predicate UniqueIds(rows: set<Row>) {
    forall x, y :: x in rows && y in rows && x.id == y.id ==> x == y
  }

  // ----- The listing is determined by the records -----

  function Insert(c: Collation, row: Row, rows: seq<Row>): seq<Row> {
    if rows == [] || Before(c, row, rows[0]) then [row] + rows else [rows[0]] + Insert(c, row, rows[1..])
  }

  lemma {:induction false} InsertLists(c: Collation, row: Row, rows: seq<Row>)
    requires Injective(c) && Listed(c, rows) && forall x <- rows :: x.id != row.id
    ensures Listed(c, Insert(c, row, rows))
    ensures forall x :: x in Insert(c, row, rows) <==> x == row || x in rows
  {
    if rows != [] && !Before(c, row, rows[0]) {
      InsertLists(c, row, rows[1..]);
      var rest := Insert(c, row, rows[1..]);
      assert rows == [rows[0]] + rows[1..];
      forall x | x in rest ensures Before(c, rows[0], x) {
        if x != row {
          var k :| 0 <= k < |rows[1..]| && rows[1..][k] == x;
          assert Before(c, rows[0], rows[k + 1]);
        } else {
          assert rows[0].id != row.id;
        }
      }
      assert forall j :: 0 <= j < |rest| ==> rest[j] in rest;
    }
  }

  /** The rows that match the filters, in listing order. */
  ghost predicate IsListing(c: Collation, l: seq<Row>, matching: set<Row>) {
    Listed(c, l) && forall x :: x in l <==> x in matching
  }

  lemma {:induction false} ListingExists(c: Collation, matching: set<Row>) returns (l: seq<Row>)
    requires Injective(c) && UniqueIds(matching)
    ensures IsListing(c, l, matching)
    decreases |matching|
  {
    l := [];
    if matching != {} {
      var row :| row in matching;
      l := ListingExists(c, matching - {row});
      InsertLists(c, row, l);
      l := Insert(c, row, l);
    }
  }

  /** Two processes reading the same records list them identically. */
  lemma {:induction false} ListingIsUnique(c: Collation, l: seq<Row>, k: seq<Row>)
    requires Listed(c, l) && Listed(c, k) && forall x :: x in l <==> x in k
    ensures l == k
  {
    if l != [] { assert l[0] in l; }
    if k != [] { assert k[0] in k; }
    if l != [] {
      assert l[0] == k[0];
      assert l == [l[0]] + l[1..] && k == [k[0]] + k[1..];
      forall x ensures x in l[1..] <==> x in k[1..] {
        if x in l[1..] {
          var i :| 0 <= i < |l[1..]| && l[1..][i] == x;
          assert Before(c, l[0], l[i + 1]) && x in l && x in k;
        }
        if x in k[1..] {
          var i :| 0 <= i < |k[1..]| && k[1..][i] == x;
          assert Before(c, k[0], k[i + 1]) && x in k && x in l;
        }
      }
      ListingIsUnique(c, l[1..], k[1..]);
    }
  }

  /** The newest come first; of those created together, the one that collates higher, and then in the order of the store. */
  lemma NewestFirst(c: Collation, l: seq<Row>, i: nat, j: nat)
    requires Listed(c, l) && i < j < |l|
    ensures l[i].createdAt >= l[j].createdAt
    ensures l[i].createdAt == l[j].createdAt ==> c.rank(l[i].id) >= c.rank(l[j].id)
    ensures l[i].createdAt == l[j].createdAt && c.rank(l[i].id) == c.rank(l[j].id) ==> c.place(l[i].id) < c.place(l[j].id)
  {
  }

  // ----- One page -----

  /** Position of the first row with this id, or -1. */
  function FindIndex(l: seq<Row>, id: string): (k: int)
    ensures -1 <= k < |l|
    ensures k >= 0 ==> l[k].id == id
    ensures k == -1 <==> forall x <- l :: x.id != id
  {
    if l == [] then -1
    else if l[0].id == id then 0
    else
      var k := FindIndex(l[1..], id);
      assert l == [l[0]] + l[1..];
      if k == -1 then -1 else k + 1
  }

  /** Where a page starts. A cursor that is not in the list any more starts over at the first row. */
  function Start(l: seq<Row>, cursor: string, offset: nat): nat {
    if cursor != "" then FindIndex(l, cursor) + 1 else offset
  }

  function Slice(l: seq<Row>, start: nat, limit: nat): seq<Row> {
    if start >= |l| then [] else if start + limit >= |l| then l[start..] else l[start..start + limit]
  }

  const DEFAULT_PAGE_SIZE := 100
  const MAX_PAGE_SIZE := 500

  /** The page size asked for: missing or not positive means the default, and it is cut to whole rows. */
  function PageSize(raw: Option<real>): nat {
    if raw.Some? && raw.value > 0.0
    then var whole := raw.value.Floor; if whole < MAX_PAGE_SIZE then whole else MAX_PAGE_SIZE
    else DEFAULT_PAGE_SIZE
  }

  datatype Page = Page(rows: seq<Row>, nextCursor: Option<string>)

  function Fetch(l: seq<Row>, cursor: string, offset: nat, limit: nat): Page
    requires limit >= 1
  {
    var start := Start(l, cursor, offset);
    var rows := Slice(l, start, limit);
    Page(rows, if start + |rows| < |l| then Some(rows[|rows| - 1].id) else None)
  }

  /** A page is one stretch of the listing; a next cursor names its last row exactly when rows remain. */
  lemma PageIsStretch(l: seq<Row>, cursor: string, limit: nat)
    requires limit >= 1
    ensures var p, start := Fetch(l, cursor, 0, limit), Start(l, cursor, 0);
            && start + |p.rows| <= |l| && p.rows == l[start..start + |p.rows|]
            && (p.nextCursor.Some? <==> start + limit < |l|)
            && (p.nextCursor.Some? ==> |p.rows| == limit && p.nextCursor == Some(p.rows[limit - 1].id))
            && (p.nextCursor.None? ==> start + |p.rows| == |l|)
  {
  }

  // ----- Following the cursor -----

  /** A client's fetches: the listing at each fetch, the cursor it sent and the page it got. */
  datatype Session = Session(listings: seq<seq<Row>>, cursors: seq<string>, pages: seq<Page>)

  predicate WellFormed(c: Collation, l: seq<Row>) {
    Listed(c, l) && UniqueRows(l) && forall x <- l :: x.id != ""
  }

  /** Fetch `i` saw some listing and sent the cursor of the page before, or none if it is the first. */
  predicate FetchAt(c: Collation, s: Session, limit: nat, i: nat)
    requires limit >= 1 && i < |s.listings| == |s.cursors| == |s.pages|
  {
    && WellFormed(c, s.listings[i])
    && s.pages[i] == Fetch(s.listings[i], s.cursors[i], 0, limit)
    && if i == 0 then s.cursors[0] == "" else s.pages[i - 1].nextCursor == Some(s.cursors[i])
  }

  /** A client follows the cursor from the first page on; the listing may change between fetches. */
  predicate Follows(c: Collation, s: Session, limit: nat) {
    && limit >= 1 && |s.listings| == |s.cursors| == |s.pages| > 0
    && forall i: nat :: i < |s.pages| ==> FetchAt(c, s, limit, i)
  }

  predicate HasMore(p: Page) {
    p.nextCursor.Some? && p.rows != []
  }

  function LastRow(p: Page): Row
    requires HasMore(p)
  {
    p.rows[|p.rows| - 1]
  }

  /** The row that the cursor of fetch `i` names is still listed, with its creation time. */
  predicate CursorRowStays(s: Session, i: nat)
    requires 0 < i < |s.listings| == |s.pages|
  {
    HasMore(s.pages[i - 1]) && LastRow(s.pages[i - 1]) in s.listings[i]
  }

  predicate CursorRowsStay(s: Session)
    requires |s.listings| == |s.pages|
  {
    forall i: nat :: 0 < i < |s.pages| ==> CursorRowStays(s, i)
  }

  /** `x` is listed at each of the first `n` fetches. */
  predicate AlwaysListed(s: Session, x: Row, n: nat)
    requires n <= |s.listings|
  {
    forall i :: 0 <= i < n ==> x in s.listings[i]
  }

  function Collected(s: Session, n: nat): seq<Row>
    requires n <= |s.pages|
  {
    if n == 0 then [] else Collected(s, n - 1) + s.pages[n - 1].rows
  }

  /** The cursor leads to the row right after the one it names. */
  lemma CursorResumes(l: seq<Row>, row: Row)
    requires UniqueRows(l) && row in l && row.id != ""
    ensures 1 <= Start(l, row.id, 0) <= |l| && l[Start(l, row.id, 0) - 1] == row
  {
    var k :| 0 <= k < |l| && l[k] == row;
    var f := FindIndex(l, row.id);
    assert f == k;
  }

  /** Page `i` is the stretch of its listing from `start` to `end`. */
  predicate Stretch(s: Session, i: nat, start: nat, end: nat)
    requires i < |s.listings| == |s.pages|
  {
    && start <= end <= |s.listings[i]|
    && s.pages[i].rows == s.listings[i][start..end]
    && (HasMore(s.pages[i]) <==> end < |s.listings[i]|)
    && (HasMore(s.pages[i]) ==> start < end)
  }

  lemma PageGeometry(c: Collation, s: Session, limit: nat, i: nat) returns (start: nat, end: nat)
    requires Follows(c, s, limit) && i < |s.pages|
    ensures start == Start(s.listings[i], s.cursors[i], 0) && Stretch(s, i, start, end)
    ensures HasMore(s.pages[i]) <==> s.pages[i].nextCursor.Some?
    ensures HasMore(s.pages[i]) <==> start + limit < |s.listings[i]|
    ensures HasMore(s.pages[i]) ==> end == start + limit && s.pages[i].nextCursor == Some(LastRow(s.pages[i]).id)
  {
    assert FetchAt(c, s, limit, i);
    PageIsStretch(s.listings[i], s.cursors[i], limit);
    start := Start(s.listings[i], s.cursors[i], 0);
    end := start + |s.pages[i].rows|;
  }

  lemma ListingAt(c: Collation, s: Session, limit: nat, i: nat)
    requires Follows(c, s, limit) && i < |s.pages|
    ensures WellFormed(c, s.listings[i])
  {
    assert FetchAt(c, s, limit, i);
  }

  /** A page starts right after the last row of the page before, or at the first row. */
  lemma PageResumes(c: Collation, s: Session, limit: nat, i: nat)
    requires Follows(c, s, limit) && i < |s.pages| && (i > 0 ==> CursorRowStays(s, i))
    ensures var start := Start(s.listings[i], s.cursors[i], 0);
            if i == 0 then start == 0
            else 1 <= start <= |s.listings[i]| && s.listings[i][start - 1] == LastRow(s.pages[i - 1])
  {
    assert FetchAt(c, s, limit, i);
    if i > 0 {
      var _, _ := PageGeometry(c, s, limit, i - 1);
      CursorResumes(s.listings[i], LastRow(s.pages[i - 1]));
    }
  }

  lemma AppendPage(c: Collation, got: seq<Row>, l: seq<Row>, start: nat, end: nat)
    requires Listed(c, got) && Listed(c, l) && start <= end <= |l|
    requires got == [] || (start > 0 && got[|got| - 1] == l[start - 1])
    ensures Listed(c, got + l[start..end])
  {
    forall i, j | 0 <= i < |got| && start <= j < end ensures Before(c, got[i], l[j]) {
      assert Before(c, l[start - 1], l[j]);
    }
  }

  /** A stretch of a listing holds the listed rows after the row before it and not after its last row. */
  lemma StretchMembers(c: Collation, l: seq<Row>, start: nat, end: nat, x: Row)
    requires Listed(c, l) && start <= end <= |l| && x in l
    ensures x in l[start..end] <==>
            (start == 0 || Before(c, l[start - 1], x)) && (end == |l| || (end > 0 && !Before(c, l[end - 1], x)))
  {
    var k :| 0 <= k < |l| && l[k] == x;
    if x in l[start..end] {
      var m :| 0 <= m < |l[start..end]| && l[start..end][m] == x;
      assert l[start + m] == x;
    }
    if start <= k < end { assert l[start..end][k - start] == x; }
  }

  /** The rows collected so far are in listing order and end with the row that the next cursor names. */
  lemma {:induction false} CollectedIsListed(c: Collation, s: Session, limit: nat, n: nat)
    requires Follows(c, s, limit) && CursorRowsStay(s) && 0 < n <= |s.pages|
    ensures Listed(c, Collected(s, n))
    ensures HasMore(s.pages[n - 1]) ==> Collected(s, n) != [] && Collected(s, n)[|Collected(s, n)| - 1] == LastRow(s.pages[n - 1])
  {
    var start, end := PageGeometry(c, s, limit, n - 1);
    assert n > 1 ==> CursorRowStays(s, n - 1);
    PageResumes(c, s, limit, n - 1);
    var l := s.listings[n - 1];
    assert Collected(s, n) == Collected(s, n - 1) + l[start..end];
    if n > 1 { CollectedIsListed(c, s, limit, n - 1); }
    AppendPageAt(c, s, limit, n - 1, Collected(s, n - 1), start, end);
  }

  lemma AppendPageAt(c: Collation, s: Session, limit: nat, i: nat, got: seq<Row>, start: nat, end: nat)
    requires Follows(c, s, limit) && i < |s.pages| && start <= end <= |s.listings[i]|
    requires Listed(c, got) && (got == [] || (start > 0 && got[|got| - 1] == s.listings[i][start - 1]))
    ensures Listed(c, got + s.listings[i][start..end])
  {
    ListingAt(c, s, limit, i);
    AppendPage(c, got, s.listings[i], start, end);
  }

  lemma InConcat(got: seq<Row>, rows: seq<Row>, x: Row)
    ensures x in got + rows <==> x in got || x in rows
  {
  }

  /** A sweep that has passed row `start - 1` has, with the next stretch, passed row `end - 1`. */
  lemma SweepStep(c: Collation, l: seq<Row>, start: nat, end: nat, x: Row, had: bool)
    requires Listed(c, l) && start <= end <= |l| && x in l && (end < |l| ==> start < end)
    requires had <==> start > 0 && !Before(c, l[start - 1], x)
    ensures had || x in l[start..end] <==> (end < |l| ==> !Before(c, l[end - 1], x))
  {
    StretchMembers(c, l, start, end, x);
    assert 0 < start < end ==> Before(c, l[start - 1], l[end - 1]);
  }

  /** Page `n - 1` carries the sweep on from where the page before left it. */
  lemma SweepAt(c: Collation, s: Session, limit: nat, n: nat) returns (start: nat, end: nat)
    requires Follows(c, s, limit) && CursorRowsStay(s) && 0 < n <= |s.pages|
    ensures var l, p := s.listings[n - 1], s.pages[n - 1];
            && Listed(c, l) && start <= end <= |l| && (end < |l| ==> start < end)
            && (end < |l| <==> HasMore(p)) && (HasMore(p) ==> LastRow(p) == l[end - 1])
            && Collected(s, n) == Collected(s, n - 1) + l[start..end]
            && if n == 1 then start == 0 else start > 0 && HasMore(s.pages[n - 2]) && l[start - 1] == LastRow(s.pages[n - 2])
  {
    start, end := PageGeometry(c, s, limit, n - 1);
    assert n > 1 ==> CursorRowStays(s, n - 1);
    PageResumes(c, s, limit, n - 1);
    ListingAt(c, s, limit, n - 1);
  }

  /** A row that stayed listed has been received once the sweep has passed it, and not before. */
  lemma {:induction false} StayingRowIsSwept(c: Collation, s: Session, limit: nat, n: nat, x: Row)
    requires Follows(c, s, limit) && CursorRowsStay(s) && 0 < n <= |s.pages| && AlwaysListed(s, x, n)
    ensures x in Collected(s, n) <==> (HasMore(s.pages[n - 1]) ==> !Before(c, LastRow(s.pages[n - 1]), x))
  {
    var start, end := SweepAt(c, s, limit, n);
    if n > 1 { StayingRowIsSwept(c, s, limit, n - 1, x); }
    SweepStep(c, s.listings[n - 1], start, end, x, x in Collected(s, n - 1));
    InConcat(Collected(s, n - 1), s.listings[n - 1][start..end], x);
  }

  /** The client has followed the cursor until no page was left. */
  predicate Complete(s: Session) {
    s.pages != [] && s.pages[|s.pages| - 1].nextCursor.None?
  }

  /**
   Records may come and go between fetches. As long as the rows used as cursors stay listed, a client that
   follows the cursor to the end receives no row twice and every row that was listed throughout once.
   */
  lemma NothingMissedNothingTwice(c: Collation, s: Session, limit: nat, x: Row)
    requires Follows(c, s, limit) && CursorRowsStay(s) && Complete(s)
    ensures forall i, j :: 0 <= i < j < |Collected(s, |s.pages|)| ==> Collected(s, |s.pages|)[i] != Collected(s, |s.pages|)[j]
    ensures AlwaysListed(s, x, |s.pages|) ==> x in Collected(s, |s.pages|)
  {
    CollectedIsListed(c, s, limit, |s.pages|);
    if AlwaysListed(s, x, |s.pages|) {
      StayingRowIsSwept(c, s, limit, |s.pages|, x);
    }
  }

  // ----- A listing that does not change -----

  predicate Frozen(s: Session, l: seq<Row>) {
    forall i :: 0 <= i < |s.listings| ==> s.listings[i] == l
  }

  /** The rows that `k` full pages hold. */
  function FullPages(k: nat, limit: nat): nat {
    if k == 0 then 0 else FullPages(k - 1, limit) + limit
  }

  /** Fetch `k` of an unchanged listing starts after `k` full pages. */
  lemma {:induction false} FrozenPagesAdvance(c: Collation, s: Session, limit: nat, l: seq<Row>, k: nat)
    requires Follows(c, s, limit) && Frozen(s, l) && k < |s.pages|
    ensures k <= FullPages(k, limit) == Start(l, s.cursors[k], 0) <= |l|
  {
    PageResumesFrozen(c, s, limit, l, k);
    if k > 0 {
      FrozenPagesAdvance(c, s, limit, l, k - 1);
    }
  }

  lemma FrozenRows(c: Collation, s: Session, limit: nat, l: seq<Row>, k: nat)
    requires Follows(c, s, limit) && Frozen(s, l) && k < |s.pages|
    ensures var start, end := FullPages(k, limit), FullPages(k + 1, limit);
            && start <= |l| && (s.pages[k].nextCursor.Some? <==> end < |l|)
            && s.pages[k].rows == l[start..if end < |l| then end else |l|]
  {
    FrozenPagesAdvance(c, s, limit, l, k);
    var start, end := PageGeometry(c, s, limit, k);
    assert s.listings[k] == l;
  }

  lemma {:induction false} FrozenPagesCollect(c: Collation, s: Session, limit: nat, l: seq<Row>, k: nat)
    requires Follows(c, s, limit) && Frozen(s, l) && k < |s.pages|
    ensures FullPages(k, limit) <= |l| && Collected(s, k) == l[..FullPages(k, limit)]
  {
    if k > 0 {
      FrozenPagesCollect(c, s, limit, l, k - 1);
      FrozenRows(c, s, limit, l, k - 1);
      FrozenRows(c, s, limit, l, k);
      JoinStretches(l, FullPages(k - 1, limit), FullPages(k, limit));
    }
  }

  lemma JoinStretches(l: seq<Row>, start: nat, end: nat)
    requires start <= end <= |l|
    ensures l[..start] + l[start..end] == l[..end] && l[..|l|] == l
  {
  }

  lemma PageResumesFrozen(c: Collation, s: Session, limit: nat, l: seq<Row>, k: nat)
    requires Follows(c, s, limit) && Frozen(s, l) && k < |s.pages|
    ensures Start(l, s.cursors[k], 0) == if k == 0 then 0 else Start(l, s.cursors[k - 1], 0) + limit
    ensures k > 0 ==> HasMore(s.pages[k - 1])
  {
    assert FetchAt(c, s, limit, k);
    if k > 0 {
      var start, end := PageGeometry(c, s, limit, k - 1);
      assert s.listings[k - 1] == l == s.listings[k];
      assert LastRow(s.pages[k - 1]) == l[end - 1];
      assert CursorRowStays(s, k);
      PageResumes(c, s, limit, k);
    }
  }

  /** Following the cursor over unchanged records ends, and the pages put together are the whole listing. */
  lemma PagesCoverListing(c: Collation, s: Session, limit: nat, l: seq<Row>)
    requires Follows(c, s, limit) && Frozen(s, l)
    ensures |s.pages| <= |l| + 1
    ensures Complete(s) ==> Collected(s, |s.pages|) == l
    ensures !Complete(s) ==> FullPages(|s.pages|, limit) < |l|
  {
    var k := |s.pages| - 1;
    FrozenPagesAdvance(c, s, limit, l, k);
    FrozenPagesCollect(c, s, limit, l, k);
    FrozenRows(c, s, limit, l, k);
    JoinStretches(l, FullPages(k, limit), |l|);
  }

  /** If the cursor row is gone - deleted, or no longer matching the filter - the next page is the first one again. */
  lemma LostCursorStartsOver(l: seq<Row>, cursor: string, limit: nat)
    requires limit >= 1 && cursor != "" && l != []
    ensures (forall x <- l :: x.id != cursor) <==> Start(l, cursor, 0) == 0
    ensures (forall x <- l :: x.id != cursor) ==> Fetch(l, cursor, 0, limit) == Fetch(l, "", 0, limit)
  {
  }

  predicate InOrder(a: Row, b: Row, d: Row) {
    a.createdAt > b.createdAt > d.createdAt && a.id != b.id && b.id != d.id && a.id != d.id && a.id != "" && b.id != "" && d.id != ""
  }

  lemma FirstTwo(c: Collation, a: Row, b: Row, d: Row)
    requires InOrder(a, b, d)
    ensures WellFormed(c, [a, b, d]) && Fetch([a, b, d], "", 0, 2) == Page([a, b], Some(b.id))
  {
    assert [a, b, d][0..2] == [a, b];
  }

  lemma FirstTwoAgain(c: Collation, a: Row, b: Row, d: Row)
    requires InOrder(a, b, d)
    ensures WellFormed(c, [a, d]) && Fetch([a, d], b.id, 0, 2) == Page([a, d], None)
  {
    assert FindIndex([a, d], b.id) == -1;
    assert [a, d][0..] == [a, d];
  }

  lemma CollectedTwo(s: Session)
    requires |s.pages| == 2
    ensures Collected(s, 2) == s.pages[0].rows + s.pages[1].rows
  {
    assert Collected(s, 1) == [] + s.pages[0].rows;
  }

  /** `p` is the first page of the one listing, `q` the last page of the other, after the row that `p` names. */
  predicate TwoPages(c: Collation, before: seq<Row>, after: seq<Row>, cursor: string, limit: nat, p: Page, q: Page) {
    && limit >= 1 && WellFormed(c, before) && WellFormed(c, after)
    && p == Fetch(before, "", 0, limit) && p.nextCursor == Some(cursor)
    && q == Fetch(after, cursor, 0, limit) && q.nextCursor.None?
  }

  lemma TwoFetches(c: Collation, before: seq<Row>, after: seq<Row>, cursor: string, limit: nat, p: Page, q: Page, x: Row)
      returns (s: Session)
    requires TwoPages(c, before, after, cursor, limit, p, q) && x in before && x in after
    ensures Follows(c, s, limit) && |s.pages| == 2 && Complete(s) && AlwaysListed(s, x, 2)
    ensures Collected(s, 2) == p.rows + q.rows
  {
    s := Session([before, after], ["", cursor], [p, q]);
    CollectedTwo(s);
    forall i: nat | i < 2 ensures FetchAt(c, s, limit, i) {
      assert i == 0 || i == 1;
    }
  }

  lemma CursorDeleted(c: Collation, a: Row, b: Row, d: Row)
    requires InOrder(a, b, d)
    ensures TwoPages(c, [a, b, d], [a, d], b.id, 2, Page([a, b], Some(b.id)), Page([a, d], None))
    ensures a in [a, b, d] && a in [a, d] && [a, b] + [a, d] == [a, b, a, d]
  {
    FirstTwo(c, a, b, d);
    FirstTwoAgain(c, a, b, d);
  }

  /** A client that lists three rows two at a time receives the first one twice if the second, its cursor, is deleted. */
  lemma LostCursorRepeatsRow(c: Collation, a: Row, b: Row, d: Row) returns (s: Session)
    requires InOrder(a, b, d)
    ensures Follows(c, s, 2) && |s.pages| == 2 && Complete(s) && AlwaysListed(s, a, 2)
    ensures Collected(s, 2) == [a, b, a, d]
  {
    CursorDeleted(c, a, b, d);
    s := TwoFetches(c, [a, b, d], [a, d], b.id, 2, Page([a, b], Some(b.id)), Page([a, d], None), a);
  }

  /** A page size of zero rows is computed exactly for a requested size strictly between zero and one. */
  lemma PageSizeIsPositive(raw: Option<real>)
    ensures PageSize(raw) >= 1 <==> !(raw.Some? && 0.0 < raw.value < 1.0)
    ensures PageSize(raw) <= 500
    ensures raw.None? || raw.value <= 0.0 ==> PageSize(raw) == 100
    ensures raw.Some? && 0.0 < raw.value < 500.0 ==> PageSize(raw) as real <= raw.value < PageSize(raw) as real + 1.0
    ensures raw.Some? && raw.value >= 500.0 ==> PageSize(raw) == 500
  {
  }

  /** Without a cursor the page starts at the offset, wherever that lies. */
  lemma OffsetPage(l: seq<Row>, offset: nat, limit: nat)
    requires limit >= 1
    ensures var p := Fetch(l, "", offset, limit);
            && |p.rows| == (if offset >= |l| then 0 else if offset + limit <= |l| then limit else |l| - offset)
            && (forall i :: 0 <= i < |p.rows| ==> p.rows[i] == l[offset + i])
            && (p.nextCursor.Some? <==> offset + limit < |l|)
  {
  }

  /** A cursor takes precedence: the offset then has no effect. */
  lemma CursorOverOffset(l: seq<Row>, cursor: string, offset: nat, limit: nat)
    requires limit >= 1 && cursor != ""
    ensures Fetch(l, cursor, offset, limit) == Fetch(l, cursor, 0, limit)
  {
  }

  /** Pages addressed by offsets `0`, `limit`, `2 * limit`, ... of an unchanged listing are the listing. */
  lemma {:induction false} OffsetsCoverListing(l: seq<Row>, limit: nat, k: nat)
    requires limit >= 1
    ensures OffsetPages(l, limit, k) == if FullPages(k, limit) <= |l| then l[..FullPages(k, limit)] else l
  {
    if k > 0 {
      OffsetsCoverListing(l, limit, k - 1);
      OffsetRows(l, FullPages(k - 1, limit), limit);
    }
  }

  lemma OffsetRows(l: seq<Row>, start: nat, limit: nat)
    requires limit >= 1
    ensures var rows := Fetch(l, "", start, limit).rows;
            if start > |l| then rows == []
            else l[..start] + rows == if start + limit <= |l| then l[..start + limit] else l
  {
  }

  /** The rows of the first `k` pages fetched by offset. */
  function OffsetPages(l: seq<Row>, limit: nat, k: nat): seq<Row>
    requires limit >= 1
  {
    if k == 0 then [] else OffsetPages(l, limit, k - 1) + Fetch(l, "", FullPages(k - 1, limit), limit).rows
  }
}
