/** The operations list (operations.service.ts). */
module Operations {
  import opened Prelude

  // One page merged from three tables by keyset pagination on (createdAt descending, id descending).
  //
  // A database query with an order and a `take` is the sorted table cut off after that many rows;
  // timestamps are integers and ids are compared by the order the database and the merge share.

  datatype Kind = Import | Export | BillingRun

  datatype Row = Row(id: nat, kind: Kind, createdAt: int)

  datatype ImportJob = ImportJob(row: Row, deleted: bool)

  /** The rows of one organization. */
  datatype Db = Db(imports: seq<ImportJob>, exports: seq<Row>, runs: seq<Row>)

  datatype Page = Page(data: seq<Row>, nextCursor: Option<nat>)

  /** `a` is listed before `b`. */
  predicate Before(a: Row, b: Row) {
    a.createdAt > b.createdAt || (a.createdAt == b.createdAt && a.id > b.id)
  }

  function Insert(x: Row, s: seq<Row>): seq<Row> {
    if s == [] || Before(x, s[0]) then [x] + s else [s[0]] + Insert(x, s[1..])
  }

  function Sort(s: seq<Row>): seq<Row> {
    if s == [] then [] else Insert(s[0], Sort(s[1..]))
  }

  function Take(s: seq<Row>, n: nat): seq<Row> {
    if |s| <= n then s else s[..n]
  }

  /** The where clause of the keyset: everything listed after the anchor. */
  function After(s: seq<Row>, anchor: Option<Row>): seq<Row> {
    if s == [] then []
    else (if anchor.None? || Before(anchor.value, s[0]) then [s[0]] else []) + After(s[1..], anchor)
  }

  function Live(imports: seq<ImportJob>): seq<Row> {
    if imports == [] then []
    else (if imports[0].deleted then [] else [imports[0].row]) + Live(imports[1..])
  }

  function FindById(s: seq<Row>, id: nat): Option<Row> {
    if s == [] then None else if s[0].id == id then Some(s[0]) else FindById(s[1..], id)
  }

  function Query(table: seq<Row>, anchor: Option<Row>, take: nat): seq<Row> {
    Take(Sort(After(table, anchor)), take)
  }

  function Anchor(db: Db, after: Option<nat>): Option<Row> {
    if after.None? then None
    else
      var i := FindById(Live(db.imports), after.value);
      if i.Some? then i
      else
        var e := FindById(db.exports, after.value);
        if e.Some? then e else FindById(db.runs, after.value)
  }

  function NormalizeLimit(limit: int): nat {
    if limit < 1 then 1 else if limit > 100 then 100 else limit
  }

  function ListOperations(db: Db, requested: int, after: Option<nat>): Page {
    var limit := NormalizeLimit(requested);
    var anchor := Anchor(db, after);
    var merged := Sort(Query(Live(db.imports), anchor, limit + 1)
                       + Query(db.exports, anchor, limit + 1)
                       + Query(db.runs, anchor, limit + 1));
    var pageItems := Take(merged, limit);
    Page(pageItems, if |merged| > limit && pageItems != [] then Some(pageItems[|pageItems| - 1].id) else None)
  }

  // ----- the list a reader expects -----

  function Union(db: Db): seq<Row> {
    Live(db.imports) + db.exports + db.runs
  }

  /** Every live row of the three tables, in listing order. */
  function Listing(db: Db): seq<Row> {
    Sort(Union(db))
  }

  /** Identifiers are unique over the three tables. */
  ghost predicate UniqueIds(s: seq<Row>) {
    forall i, j :: 0 <= i < j < |s| ==> s[i].id != s[j].id
  }

  ghost predicate DisjointIds(a: seq<Row>, b: seq<Row>) {
    forall i, j :: 0 <= i < |a| && 0 <= j < |b| ==> a[i].id != b[j].id
  }

  ghost predicate Sorted(s: seq<Row>) {
    forall i, j :: 0 <= i < j < |s| ==> Before(s[i], s[j])
  }

  ghost predicate HasId(s: seq<Row>, id: nat) {
    exists i :: 0 <= i < |s| && s[i].id == id
  }

  // ----- sorting and merging -----

  function Merge(a: seq<Row>, b: seq<Row>): seq<Row>
    decreases |a| + |b|
  {
    if a == [] then b
    else if b == [] then a
    else if Before(a[0], b[0]) then [a[0]] + Merge(a[1..], b)
    else [b[0]] + Merge(a, b[1..])
  }

  lemma {:induction false} MergeLength(a: seq<Row>, b: seq<Row>)
    ensures |Merge(a, b)| == |a| + |b|
    decreases |a| + |b|
  {
    if a != [] && b != [] {
      if Before(a[0], b[0]) { MergeLength(a[1..], b); } else { MergeLength(a, b[1..]); }
    }
  }

  /** The first n of a merge need only the first n of each side. */
  lemma {:induction false} MergeTake(a: seq<Row>, b: seq<Row>, n: nat)
    ensures Take(Merge(a, b), n) == Take(Merge(Take(a, n), Take(b, n)), n)
    decreases n
  {
    MergeLength(a, b);
    MergeLength(Take(a, n), Take(b, n));
    if n > 0 && a != [] && b != [] {
      var ta, tb := Take(a, n), Take(b, n);
      if Before(a[0], b[0]) {
        MergeTake(a[1..], b, n - 1);
        MergeTake(ta[1..], tb, n - 1);
        assert ta[1..] == Take(a[1..], n - 1) == Take(ta[1..], n - 1);
        assert Take(tb, n - 1) == Take(b, n - 1);
        TakeCons(a[0], Merge(a[1..], b), n);
        TakeCons(a[0], Merge(ta[1..], tb), n);
      } else {
        MergeTake(a, b[1..], n - 1);
        MergeTake(ta, tb[1..], n - 1);
        assert tb[1..] == Take(b[1..], n - 1) == Take(tb[1..], n - 1);
        assert Take(ta, n - 1) == Take(a, n - 1);
        TakeCons(b[0], Merge(a, b[1..]), n);
        TakeCons(b[0], Merge(ta, tb[1..]), n);
      }
    }
  }

  lemma TakeCons(x: Row, s: seq<Row>, n: nat)
    requires n > 0
    ensures Take([x] + s, n) == [x] + Take(s, n - 1)
  {
  }

  lemma {:induction false} InsertMember(x: Row, s: seq<Row>, id: nat)
    ensures HasId(Insert(x, s), id) <==> x.id == id || HasId(s, id)
    ensures |Insert(x, s)| == |s| + 1
  {
    if s == [] || Before(x, s[0]) {
      ConsMember(x, s, id);
    } else {
      InsertMember(x, s[1..], id);
      ConsMember(s[0], Insert(x, s[1..]), id);
      ConsMember(s[0], s[1..], id);
      assert s == [s[0]] + s[1..];
    }
  }

  lemma ConsMember(x: Row, s: seq<Row>, id: nat)
    ensures HasId([x] + s, id) <==> x.id == id || HasId(s, id)
  {
    assert ([x] + s)[0] == x;
    assert forall i :: 0 <= i < |s| ==> s[i] == ([x] + s)[i + 1];
  }

  lemma {:induction false} SortMembers(s: seq<Row>, id: nat)
    ensures HasId(Sort(s), id) <==> HasId(s, id)
    ensures |Sort(s)| == |s|
  {
    if s != [] {
      SortMembers(s[1..], id);
      InsertMember(s[0], Sort(s[1..]), id);
      ConsMember(s[0], s[1..], id);
      assert s == [s[0]] + s[1..];
    }
  }

  lemma {:induction false} InsertSorts(x: Row, s: seq<Row>)
    requires Sorted(s) && !HasId(s, x.id)
    ensures Sorted(Insert(x, s))
  {
    if s != [] && !Before(x, s[0]) {
      var r := Insert(x, s[1..]);
      InsertSorts(x, s[1..]);
      forall i | 0 <= i < |r| ensures Before(s[0], r[i]) {
        InsertMember(x, s[1..], r[i].id);
        InsertRows(x, s[1..], i);
      }
    }
  }

  lemma {:induction false} InsertRows(x: Row, s: seq<Row>, i: nat)
    requires i < |Insert(x, s)|
    ensures Insert(x, s)[i] == x || Insert(x, s)[i] in s
  {
    if s != [] && !Before(x, s[0]) && i > 0 {
      InsertRows(x, s[1..], i - 1);
    }
  }

  lemma {:induction false} SortSorts(s: seq<Row>)
    requires UniqueIds(s)
    ensures Sorted(Sort(s))
  {
    if s != [] {
      SortSorts(s[1..]);
      SortMembers(s[1..], s[0].id);
      InsertSorts(s[0], Sort(s[1..]));
    }
  }

  lemma {:induction false} SortedIsSorted(s: seq<Row>)
    requires Sorted(s)
    ensures Sort(s) == s
  {
    if s != [] {
      SortedIsSorted(s[1..]);
    }
  }

  lemma {:induction false} InsertIntoMerge(x: Row, a: seq<Row>, b: seq<Row>)
    requires Sorted(a) && Sorted(b) && !HasId(a, x.id) && !HasId(b, x.id)
    requires DisjointIds(a, b)
    ensures Insert(x, Merge(a, b)) == Merge(Insert(x, a), b)
    decreases |a| + |b|
  {
    if a == [] {
      InsertOnly(x, b);
      assert Insert(x, a) == [x];
    } else if b != [] {
      if Before(a[0], b[0]) {
        if !Before(x, a[0]) {
          InsertIntoMerge(x, a[1..], b);
        }
      } else if !Before(x, b[0]) {
        InsertIntoMerge(x, a, b[1..]);
      }
    }
  }

  lemma {:induction false} InsertOnly(x: Row, b: seq<Row>)
    requires Sorted(b) && !HasId(b, x.id)
    ensures Insert(x, b) == Merge([x], b)
  {
    if b != [] && !Before(x, b[0]) {
      InsertOnly(x, b[1..]);
    }
  }

  lemma {:induction false} SortOfConcat(a: seq<Row>, b: seq<Row>)
    requires UniqueIds(a + b)
    ensures Sort(a + b) == Merge(Sort(a), Sort(b))
  {
    PartsUnique(a, b);
    if a == [] {
      assert a + b == b;
    } else {
      var x, r := a[0], a[1..];
      assert (a + b)[1..] == r + b;
      SortOfConcat(r, b);
      SortSorts(r);
      SortSorts(b);
      SortMembers(r, x.id);
      SortMembers(b, x.id);
      var sr, sb := Sort(r), Sort(b);
      forall i, j | 0 <= i < |sr| && 0 <= j < |sb| ensures sr[i].id != sb[j].id {
        SortMembers(r, sr[i].id);
        SortMembers(b, sr[i].id);
      }
      InsertIntoMerge(x, sr, sb);
    }
  }

  lemma PartsUnique(a: seq<Row>, b: seq<Row>)
    requires UniqueIds(a + b)
    ensures UniqueIds(a) && UniqueIds(b) && DisjointIds(a, b)
  {
    var s := a + b;
    assert forall i :: 0 <= i < |a| ==> a[i] == s[i];
    assert forall j :: 0 <= j < |b| ==> b[j] == s[|a| + j];
  }

  // ----- filtering -----

  lemma {:induction false} AfterConcat(a: seq<Row>, b: seq<Row>, anchor: Option<Row>)
    ensures After(a + b, anchor) == After(a, anchor) + After(b, anchor)
  {
    if a == [] {
      assert a + b == b;
    } else {
      assert (a + b)[1..] == a[1..] + b;
      AfterConcat(a[1..], b, anchor);
    }
  }

  lemma {:induction false} AfterRows(s: seq<Row>, anchor: Option<Row>, i: nat)
    requires i < |After(s, anchor)|
    ensures After(s, anchor)[i] in s
  {
    var head := if anchor.None? || Before(anchor.value, s[0]) then 1 else 0;
    if i >= head {
      AfterRows(s[1..], anchor, i - head);
    }
  }

  lemma {:induction false} AfterUnique(s: seq<Row>, anchor: Option<Row>)
    requires UniqueIds(s)
    ensures UniqueIds(After(s, anchor))
  {
    if s != [] {
      AfterUnique(s[1..], anchor);
      var r := After(s[1..], anchor);
      forall i | 0 <= i < |r| ensures r[i].id != s[0].id {
        AfterRows(s[1..], anchor, i);
      }
    }
  }

  lemma {:induction false} InsertAfter(x: Row, s: seq<Row>, anchor: Option<Row>)
    requires Sorted(s) && !HasId(s, x.id)
    ensures After(Insert(x, s), anchor)
         == if anchor.None? || Before(anchor.value, x) then Insert(x, After(s, anchor)) else After(s, anchor)
  {
    if s == [] {
    } else if Before(x, s[0]) {
      assert ([x] + s)[1..] == s;
      if anchor.None? || Before(anchor.value, x) {
        assert After(s, anchor) == [s[0]] + After(s[1..], anchor);
      }
    } else {
      InsertAfter(x, s[1..], anchor);
      assert ([s[0]] + Insert(x, s[1..]))[1..] == Insert(x, s[1..]);
      if anchor.Some? && !Before(anchor.value, s[0]) {
        assert After(s, anchor) == After(s[1..], anchor);
      } else {
        assert After(s, anchor)[1..] == After(s[1..], anchor);
      }
    }
  }

  lemma {:induction false} SortAfter(s: seq<Row>, anchor: Option<Row>)
    requires UniqueIds(s)
    ensures Sort(After(s, anchor)) == After(Sort(s), anchor)
  {
    if s != [] {
      SortAfter(s[1..], anchor);
      SortSorts(s[1..]);
      SortMembers(s[1..], s[0].id);
      InsertAfter(s[0], Sort(s[1..]), anchor);
      var r := After(s[1..], anchor);
      if anchor.None? || Before(anchor.value, s[0]) {
        assert ([s[0]] + r)[1..] == r;
      } else {
        assert After(s, anchor) == r;
      }
    }
  }

  lemma {:induction false} AfterNone(s: seq<Row>)
    ensures After(s, None) == s
  {
    if s != [] { AfterNone(s[1..]); }
  }

  lemma {:induction false} AfterKth(s: seq<Row>, k: nat)
    requires Sorted(s) && k < |s|
    ensures After(s, Some(s[k])) == s[k + 1..]
  {
    if k > 0 {
      assert Before(s[0], s[k]);
      AfterKth(s[1..], k - 1);
      assert s[1..][k..] == s[k + 1..];
    } else {
      AfterAll(s[1..], s[0]);
    }
  }

  lemma {:induction false} AfterAll(s: seq<Row>, x: Row)
    requires forall i :: 0 <= i < |s| ==> Before(x, s[i])
    ensures After(s, Some(x)) == s
  {
    if s != [] { AfterAll(s[1..], x); }
  }

  // ----- one page -----

  /** What is still to be listed after the cursor. */
  function Remaining(db: Db, after: Option<nat>): seq<Row> {
    After(Listing(db), Anchor(db, after))
  }

  /** A page is exactly the next `limit` rows of the merged order, and it carries a cursor, the
      last row's id, exactly when rows remain beyond it. */
  lemma PageIsNextSlice(db: Db, requested: int, after: Option<nat>)
    requires UniqueIds(Union(db))
    ensures var limit, rest, page := NormalizeLimit(requested), Remaining(db, after), ListOperations(db, requested, after);
            && page.data == Take(rest, limit)
            && page.nextCursor == (if |rest| > limit then Some(rest[limit - 1].id) else None)
  {
    var limit := NormalizeLimit(requested);
    var anchor := Anchor(db, after);
    var i, e, r := After(Live(db.imports), anchor), After(db.exports, anchor), After(db.runs, anchor);
    assert Remaining(db, after) == Sort(i + e + r) && UniqueIds(i + e + r) by {
      RemainingOfTables(db, anchor);
    }
    var merged := Sort(Take(Sort(i), limit + 1) + Take(Sort(e), limit + 1) + Take(Sort(r), limit + 1));
    MergedQueries(i, e, r, limit + 1);
    SamePrefix(merged, Sort(i + e + r), limit);
  }

  lemma RemainingOfTables(db: Db, anchor: Option<Row>)
    requires UniqueIds(Union(db))
    ensures var all := After(Live(db.imports), anchor) + After(db.exports, anchor) + After(db.runs, anchor);
            UniqueIds(all) && After(Listing(db), anchor) == Sort(all)
  {
    AfterConcat(Live(db.imports) + db.exports, db.runs, anchor);
    AfterConcat(Live(db.imports), db.exports, anchor);
    AfterUnique(Union(db), anchor);
    SortAfter(Union(db), anchor);
  }

  /** Agreeing on one row more than the limit fixes the page and whether more rows follow. */
  lemma SamePrefix(a: seq<Row>, b: seq<Row>, limit: nat)
    requires Take(a, limit + 1) == Take(b, limit + 1)
    ensures Take(a, limit) == Take(b, limit)
    ensures |a| > limit <==> |b| > limit
    ensures |a| > limit && limit > 0 ==> a[limit - 1] == b[limit - 1]
  {
    assert Take(a, limit) == Take(Take(a, limit + 1), limit);
    assert Take(b, limit) == Take(Take(b, limit + 1), limit);
    if |a| > limit && limit > 0 {
      assert a[limit - 1] == Take(a, limit + 1)[limit - 1];
    }
  }

  /** Cutting each of three sorted tables before merging them loses none of the first n rows. */
  lemma MergeOfCuts(a: seq<Row>, b: seq<Row>, c: seq<Row>, n: nat)
    ensures Take(Merge(Merge(Take(a, n), Take(b, n)), Take(c, n)), n) == Take(Merge(Merge(a, b), c), n)
  {
    MergeTake(Merge(a, b), c, n);
    MergeTake(a, b, n);
    MergeTake(Merge(Take(a, n), Take(b, n)), Take(c, n), n);
    assert Take(Take(c, n), n) == Take(c, n);
  }

  lemma MergedQueries(i: seq<Row>, e: seq<Row>, r: seq<Row>, n: nat)
    requires UniqueIds(i + e + r)
    ensures Take(Sort(Take(Sort(i), n) + Take(Sort(e), n) + Take(Sort(r), n)), n) == Take(Sort(i + e + r), n)
  {
    var ti, te, tr := Take(Sort(i), n), Take(Sort(e), n), Take(Sort(r), n);
    assert Sort(i + e + r) == Merge(Merge(Sort(i), Sort(e)), Sort(r)) by {
      PartsUnique(i + e, r);
      SortOfConcat(i + e, r);
      SortOfConcat(i, e);
    }
    assert Sort(ti + te + tr) == Merge(Merge(ti, te), tr) by {
      CutsUnique(i, e, r, n);
      PartsUnique(ti + te, tr);
      SortOfConcat(ti + te, tr);
      SortOfConcat(ti, te);
      PartsUnique(i + e, r);
      PartsUnique(i, e);
      CutSorted(i, n);
      CutSorted(e, n);
      CutSorted(r, n);
    }
    MergeOfCuts(Sort(i), Sort(e), Sort(r), n);
  }

  lemma CutSorted(s: seq<Row>, n: nat)
    requires UniqueIds(s)
    ensures Sort(Take(Sort(s), n)) == Take(Sort(s), n) && UniqueIds(Take(Sort(s), n))
  {
    SortSorts(s);
    SortedIsSorted(Take(Sort(s), n));
    SortUnique(s);
  }

  lemma {:induction false} InsertUnique(x: Row, s: seq<Row>)
    requires UniqueIds(s) && !HasId(s, x.id)
    ensures UniqueIds(Insert(x, s))
  {
    if s != [] && !Before(x, s[0]) {
      var r := Insert(x, s[1..]);
      InsertUnique(x, s[1..]);
      forall i | 0 <= i < |r| ensures s[0].id != r[i].id {
        InsertRows(x, s[1..], i);
      }
    }
  }

  lemma {:induction false} SortUnique(s: seq<Row>)
    requires UniqueIds(s)
    ensures UniqueIds(Sort(s))
  {
    if s != [] {
      SortUnique(s[1..]);
      SortMembers(s[1..], s[0].id);
      InsertUnique(s[0], Sort(s[1..]));
    }
  }

  lemma CutsUnique(i: seq<Row>, e: seq<Row>, r: seq<Row>, n: nat)
    requires UniqueIds(i + e + r)
    ensures UniqueIds(Take(Sort(i), n) + Take(Sort(e), n) + Take(Sort(r), n))
  {
    var ti, te, tr := Take(Sort(i), n), Take(Sort(e), n), Take(Sort(r), n);
    PartsUnique(i + e, r);
    PartsUnique(i, e);
    CutSorted(i, n);
    CutSorted(e, n);
    CutSorted(r, n);
    CutsApart(i, e, n);
    ConcatUnique(ti, te);
    ConcatDisjoint(i, e, r);
    CutsApart(i, r, n);
    CutsApart(e, r, n);
    ConcatDisjoint(ti, te, tr);
    ConcatUnique(ti + te, tr);
  }

  lemma ConcatDisjoint(a: seq<Row>, b: seq<Row>, c: seq<Row>)
    ensures DisjointIds(a + b, c) <==> DisjointIds(a, c) && DisjointIds(b, c)
  {
    assert forall x :: 0 <= x < |a| ==> a[x] == (a + b)[x];
    assert forall x :: 0 <= x < |b| ==> b[x] == (a + b)[|a| + x];
  }

  lemma ConcatUnique(a: seq<Row>, b: seq<Row>)
    requires UniqueIds(a) && UniqueIds(b) && DisjointIds(a, b)
    ensures UniqueIds(a + b)
  {
  }

  lemma CutsApart(a: seq<Row>, b: seq<Row>, n: nat)
    requires DisjointIds(a, b)
    ensures DisjointIds(Take(Sort(a), n), Take(Sort(b), n))
  {
    forall x, y | 0 <= x < |Take(Sort(a), n)| && 0 <= y < |Take(Sort(b), n)|
      ensures Take(Sort(a), n)[x].id != Take(Sort(b), n)[y].id
    {
      SortMembers(a, Sort(a)[x].id);
      SortMembers(b, Sort(a)[x].id);
    }
  }

  // ----- following cursors -----

  lemma {:induction false} FoundById(s: seq<Row>, k: nat)
    requires UniqueIds(s) && k < |s|
    ensures FindById(s, s[k].id) == Some(s[k])
  {
    if k > 0 { FoundById(s[1..], k - 1); }
  }

  lemma {:induction false} NotFound(s: seq<Row>, id: nat)
    requires !HasId(s, id)
    ensures FindById(s, id) == None
  {
    if s != [] { NotFound(s[1..], id); }
  }

  /** The id of a listed row leads back to that row, whichever table it lives in. */
  lemma AnchorOfListed(db: Db, row: Row)
    requires UniqueIds(Union(db)) && row in Union(db)
    ensures Anchor(db, Some(row.id)) == Some(row)
  {
    var u := Union(db);
    var i, e, r := Live(db.imports), db.exports, db.runs;
    PartsUnique(i + e, r);
    PartsUnique(i, e);
    ConcatDisjoint(i, e, r);
    var k :| 0 <= k < |u| && u[k] == row;
    if k < |i| {
      FoundById(i, k);
    } else {
      assert !HasId(i, row.id) by {
        assert row in e || row in r by {
          if k < |i| + |e| { assert row == e[k - |i|]; } else { assert row == r[k - |i| - |e|]; }
        }
      }
      NotFound(i, row.id);
      if k < |i| + |e| {
        assert e[k - |i|] == row;
        FoundById(e, k - |i|);
      } else {
        assert r[k - |i| - |e|] == row;
        NotFound(e, row.id);
        FoundById(r, k - |i| - |e|);
      }
    }
  }

  lemma {:induction false} SortRows(s: seq<Row>, i: nat)
    requires i < |Sort(s)|
    ensures Sort(s)[i] in s
  {
    InsertRows(s[0], Sort(s[1..]), i);
    if Sort(s)[i] != s[0] {
      var k :| 0 <= k < |Sort(s[1..])| && Sort(s[1..])[k] == Sort(s)[i];
      SortRows(s[1..], k);
    }
  }

  /** Asking with the id of the k-th listed row leaves exactly the rows behind it. */
  lemma RemainingAfterKth(db: Db, k: nat)
    requires UniqueIds(Union(db)) && k < |Listing(db)|
    ensures Remaining(db, Some(Listing(db)[k].id)) == Listing(db)[k + 1..]
  {
    SortRows(Union(db), k);
    AnchorOfListed(db, Listing(db)[k]);
    SortSorts(Union(db));
    AfterKth(Listing(db), k);
  }

  /** One page of a walk: either the rest of the listing, or a slice and a cursor to what follows. */
  lemma WalkStep(db: Db, requested: int, after: Option<nat>, k: nat)
    requires UniqueIds(Union(db)) && k <= |Listing(db)|
    requires Remaining(db, after) == Listing(db)[k..]
    ensures var page, next := ListOperations(db, requested, after), k + NormalizeLimit(requested);
            && (page.nextCursor.None? ==> page.data == Listing(db)[k..])
            && (page.nextCursor.Some? ==> && next <= |Listing(db)| && page.data == Listing(db)[k..next]
                                          && Remaining(db, page.nextCursor) == Listing(db)[next..])
  {
    var limit := NormalizeLimit(requested);
    PageIsNextSlice(db, requested, after);
    if ListOperations(db, requested, after).nextCursor.Some? {
      assert Listing(db)[k..][limit - 1] == Listing(db)[k + limit - 1];
      RemainingAfterKth(db, k + limit - 1);
    }
  }

  /** All the rows a client sees that starts at the k-th row and follows cursors to the end. */
  ghost function Walk(db: Db, requested: int, after: Option<nat>, k: nat): seq<Row>
    requires UniqueIds(Union(db)) && k <= |Listing(db)|
    requires Remaining(db, after) == Listing(db)[k..]
    decreases |Listing(db)| - k
  {
    var page := ListOperations(db, requested, after);
    WalkStep(db, requested, after, k);
    if page.nextCursor.None? then page.data
    else page.data + Walk(db, requested, page.nextCursor, k + NormalizeLimit(requested))
  }

  lemma WalkGoesOn(db: Db, requested: int, after: Option<nat>, k: nat)
    requires UniqueIds(Union(db)) && k <= |Listing(db)| && Remaining(db, after) == Listing(db)[k..]
    requires ListOperations(db, requested, after).nextCursor.Some?
    requires k + NormalizeLimit(requested) <= |Listing(db)|
    requires Remaining(db, ListOperations(db, requested, after).nextCursor) == Listing(db)[k + NormalizeLimit(requested)..]
    ensures var page := ListOperations(db, requested, after);
            Walk(db, requested, after, k) == page.data + Walk(db, requested, page.nextCursor, k + NormalizeLimit(requested))
  {
  }

  lemma {:induction false} WalkIsRemaining(db: Db, requested: int, after: Option<nat>, k: nat)
    requires UniqueIds(Union(db)) && k <= |Listing(db)|
    requires Remaining(db, after) == Listing(db)[k..]
    ensures Walk(db, requested, after, k) == Listing(db)[k..]
    decreases |Listing(db)| - k
  {
    var page := ListOperations(db, requested, after);
    WalkStep(db, requested, after, k);
    if page.nextCursor.Some? {
      var next := k + NormalizeLimit(requested);
      WalkIsRemaining(db, requested, page.nextCursor, next);
      WalkGoesOn(db, requested, after, k);
      SliceJoins(Listing(db), k, next);
    }
  }

  lemma SliceJoins(s: seq<Row>, k: nat, next: nat)
    requires k <= next <= |s|
    ensures s[k..next] + s[next..] == s[k..]
  {
  }

  /** Following the cursors from the first page ends and shows every row exactly once, in order. */
  lemma WalkVisitsEverythingOnce(db: Db, requested: int)
    requires UniqueIds(Union(db))
    ensures Remaining(db, None) == Listing(db)[0..]
    ensures Walk(db, requested, None, 0) == Listing(db)
    ensures multiset(Walk(db, requested, None, 0)) == multiset(Union(db))
  {
    AfterNone(Listing(db));
    WalkIsRemaining(db, requested, None, 0);
    SortKeepsRows(Union(db));
  }

  lemma {:induction false} SortKeepsRows(s: seq<Row>)
    ensures multiset(Sort(s)) == multiset(s)
  {
    if s != [] {
      SortKeepsRows(s[1..]);
      InsertAddsRow(s[0], Sort(s[1..]));
      assert s == [s[0]] + s[1..];
    }
  }

  lemma {:induction false} InsertAddsRow(x: Row, s: seq<Row>)
    ensures multiset(Insert(x, s)) == multiset{x} + multiset(s)
  {
    if s != [] && !Before(x, s[0]) {
      InsertAddsRow(x, s[1..]);
      assert s == [s[0]] + s[1..];
    }
  }

  /** A cursor whose row is gone, soft-deleted imports included, silently starts over. */
  lemma LostCursorStartsOver(db: Db, requested: int, id: nat)
    requires !HasId(Union(db), id)
    ensures ListOperations(db, requested, Some(id)) == ListOperations(db, requested, None)
  {
    var i, e, r := Live(db.imports), db.exports, db.runs;
    var u := Union(db);
    assert forall x :: 0 <= x < |i| ==> i[x] == u[x];
    assert forall x :: 0 <= x < |e| ==> e[x] == u[|i| + x];
    assert forall x :: 0 <= x < |r| ==> r[x] == u[|i| + |e| + x];
    NotFound(i, id);
    NotFound(e, id);
    NotFound(r, id);
  }

  // ----- newest first -----

  lemma {:induction false} LiveRows(imports: seq<ImportJob>, row: Row)
    ensures row in Live(imports) <==> exists i :: 0 <= i < |imports| && imports[i] == ImportJob(row, false)
  {
    if imports != [] {
      LiveRows(imports[1..], row);
      if i :| 0 <= i < |imports| && imports[i] == ImportJob(row, false) {
        assert i > 0 ==> imports[1..][i - 1] == ImportJob(row, false);
      }
    }
  }

  /** The listing holds the imports that are not deleted, the exports and the billing runs. */
  lemma ListingHolds(db: Db, row: Row)
    ensures row in Listing(db) <==> ImportJob(row, false) in db.imports || row in db.exports || row in db.runs
  {
    SortKeepsRows(Union(db));
    assert row in Listing(db) <==> row in multiset(Union(db));
    LiveRows(db.imports, row);
  }

  /** It goes from the newest row to the oldest, and from the greatest id to the least among rows
      created at one instant. */
  lemma ListingIsNewestFirst(db: Db, i: nat, j: nat)
    requires UniqueIds(Union(db)) && i < j < |Listing(db)|
    ensures var a, b := Listing(db)[i], Listing(db)[j];
            a.createdAt > b.createdAt || (a.createdAt == b.createdAt && a.id > b.id)
  {
    SortSorts(Union(db));
  }

  lemma {:induction false} AfterKeepsOrder(s: seq<Row>, anchor: Option<Row>)
    requires Sorted(s)
    ensures Sorted(After(s, anchor))
    ensures forall i :: 0 <= i < |After(s, anchor)| ==> anchor.None? || Before(anchor.value, After(s, anchor)[i])
  {
    if s != [] {
      AfterKeepsOrder(s[1..], anchor);
      var r := After(s[1..], anchor);
      forall i | 0 <= i < |r| ensures Before(s[0], r[i]) {
        AfterRows(s[1..], anchor, i);
      }
    }
  }

  /** So does every page, it goes on behind the row of the cursor it was asked with, and it has as many
      rows as asked for, between 1 and 100, unless the listing ends before. */
  lemma PageIsNewestFirst(db: Db, requested: int, after: Option<nat>)
    requires UniqueIds(Union(db))
    ensures var data := ListOperations(db, requested, after).data;
            && (forall i, j :: 0 <= i < j < |data| ==>
                  data[i].createdAt > data[j].createdAt || (data[i].createdAt == data[j].createdAt && data[i].id > data[j].id))
            && (forall i :: 0 <= i < |data| && Anchor(db, after).Some? ==>
                  var a := Anchor(db, after).value;
                  a.createdAt > data[i].createdAt || (a.createdAt == data[i].createdAt && a.id > data[i].id))
            && |data| <= 100 && (requested >= 1 ==> |data| <= requested) && (requested < 1 ==> |data| <= 1)
            && (ListOperations(db, requested, after).nextCursor.Some? ==>
                  |data| == if requested < 1 then 1 else if requested > 100 then 100 else requested)
  {
    PageIsNextSlice(db, requested, after);
    SortSorts(Union(db));
    AfterKeepsOrder(Listing(db), Anchor(db, after));
  }

  /** And all that is left for its cursor comes behind its last row. */
  lemma CursorLeavesOlderRows(db: Db, requested: int, after: Option<nat>, i: nat)
    requires UniqueIds(Union(db))
    requires var page := ListOperations(db, requested, after);
             page.nextCursor.Some? && i < |Remaining(db, page.nextCursor)|
    ensures var page := ListOperations(db, requested, after);
            && page.data != [] && page.nextCursor == Some(page.data[|page.data| - 1].id)
            && var last, row := page.data[|page.data| - 1], Remaining(db, page.nextCursor)[i];
               last.createdAt > row.createdAt || (last.createdAt == row.createdAt && last.id > row.id)
  {
    var page := ListOperations(db, requested, after);
    PageIsNextSlice(db, requested, after);
    var last := page.data[|page.data| - 1];
    SortSorts(Union(db));
    AfterRows(Listing(db), Anchor(db, after), |page.data| - 1);
    var k :| 0 <= k < |Listing(db)| && Listing(db)[k] == last;
    SortRows(Union(db), k);
    AnchorOfListed(db, last);
    AfterKeepsOrder(Listing(db), Some(last));
  }
}
