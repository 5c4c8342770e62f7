/** Utility allocation (utility-allocation.service.ts).

    An equal split of a tariff over the occupied leases of a property, and the commit that posts one
    invoice per share. Unlike the rent check, the duplicate check looks only at POSTED and DRAFT
    invoices, so a share that has been paid or credited no longer stands in the way of another. */
module Utilities {
  import opened Prelude
  import opened Money
  import opened Ledger
  import opened Invoices
  import opened BillingRuns

  datatype Tariff = Tariff(fixedCharge: real, ratePerUnit: real, currency: string)

  datatype AllocationStatus = AllocationPreviewed | AllocationCommitted

  datatype AllocationRun = AllocationRun(period: string, utility: string, status: AllocationStatus, lines: seq<PreviewLine>, totals: int)

  // ----- the split -----

  predicate Occupied(lease: Lease, property: Id) {
    InScope(lease, Some(property)) && lease.occupied
  }

  /** The occupied ones of the first n leases. */
  function OccupiedLeases(leases: seq<Lease>, property: Id, n: nat): seq<Id>
    requires n <= |leases|
  {
    if n == 0 then []
    else OccupiedLeases(leases, property, n - 1) + if Occupied(leases[n - 1], property) then [n - 1] else []
  }

  function TariffTotal(tariff: Tariff): int {
    RoundMoney(tariff.fixedCharge + tariff.ratePerUnit)
  }

  function Share(total: int, count: nat): int {
    RoundMoney(Decimal(total) / (if count > 1 then count else 1) as real)
  }

  /** `preview`. */
  function PreviewAllocation(leases: seq<Lease>, property: Id, tariff: Tariff, period: string, utility: string): AllocationRun {
    var ids := OccupiedLeases(leases, property, |leases|);
    AllocationOf(ids, Share(TariffTotal(tariff), |ids|), tariff.currency, period, utility)
  }

  function AllocationOf(ids: seq<Id>, share: int, currency: string, period: string, utility: string): AllocationRun {
    AllocationRun(period, utility, AllocationPreviewed, LinesFor(ids, share, currency, period, utility),
                  RoundMoney(Decimal(share) * |ids| as real))
  }

  function LinesFor(ids: seq<Id>, share: int, currency: string, period: string, utility: string): seq<PreviewLine> {
    seq(|ids|, i requires 0 <= i < |ids| => PreviewLine(ids[i], share, currency, Utility(ids[i], period, utility)))
  }

  /** Shares of one total: together they are within half a unit per lease of it, and meet it exactly
      when it divides evenly. */
  lemma ShareIsFair(total: int, count: int)
    requires count > 0
    ensures -count <= 2 * (Share(total, count) * count - total) <= count
    ensures Share(total, count) * count == total <==> total % count == 0
    ensures total >= 0 ==> Share(total, count) >= 0
  {
    var s := Share(total, count);
    NearestShare(total, count);
    var q, r := total / count, total % count;
    assert total == q * count + r && (s - q) * count == s * count - total + r;
    MultiplesAreFar(s - q, count);
    if total >= 0 {
      assert Decimal(total) / count as real >= 0.0;
    }
  }

  lemma NearestShare(total: int, count: int)
    requires count > 0
    ensures -count <= 2 * (Share(total, count) * count - total) <= count
  {
    var n, s := count as real, Share(total, count);
    var value := Decimal(total) / n;
    RoundIsNearest(value);
    TimesCount(value, Decimal(total), n);
    OffBy(s as real, value * 10000.0, total as real, n);
    RealOfProduct(s, count);
    var off := s * count - total;
    assert off as real == s as real * n - total as real;
  }

  lemma TimesCount(value: real, total: real, n: real)
    requires n > 0.0 && value == total / n
    ensures value * 10000.0 * n == total * 10000.0
  {
    assert value * n == total;
    assert value * 10000.0 * n == value * n * 10000.0;
  }

  lemma OffBy(s: real, x: real, total: real, n: real)
    requires n > 0.0 && x * n == total && -0.5 <= s - x <= 0.5
    ensures -n <= 2.0 * (s * n - total) <= n
  {
    var d := s - x;
    assert s * n - total == d * n;
    assert -0.5 * n <= d * n <= 0.5 * n;
  }

  lemma {:induction false} RealOfProduct(a: int, b: nat)
    ensures (a * b) as real == a as real * b as real
  {
    if b > 0 {
      RealOfProduct(a, b - 1);
      assert a * b == a * (b - 1) + a;
      assert a as real * b as real == a as real * (b - 1) as real + a as real;
    }
  }

  lemma MultiplesAreFar(a: int, n: int)
    requires n > 0
    ensures a == 0 || a * n >= n || a * n <= -n
  {
    if a >= 1 {
      assert (a - 1) * n >= 0;
    } else if a <= -1 {
      assert (a + 1) * n <= 0;
    }
  }

  lemma {:induction false} OccupiedOnce(leases: seq<Lease>, property: Id, n: nat)
    requires n <= |leases|
    ensures var ids := OccupiedLeases(leases, property, n);
            && (forall i: Id :: i in ids <==> i < n && Occupied(leases[i], property))
            && (forall k, m :: 0 <= k < m < |ids| ==> ids[k] < ids[m])
  {
    if n > 0 {
      OccupiedOnce(leases, property, n - 1);
      var before, ids := OccupiedLeases(leases, property, n - 1), OccupiedLeases(leases, property, n);
      forall k | 0 <= k < |before| ensures before[k] < n - 1 { assert before[k] in before; }
    }
  }

  lemma {:induction false} EqualAmounts(lines: seq<PreviewLine>, amount: int)
    requires forall k :: 0 <= k < |lines| ==> lines[k].amount == amount
    ensures SumAmounts(lines) == amount * |lines|
  {
    if lines != [] {
      assert forall k :: 0 <= k < |lines| - 1 ==> lines[..|lines| - 1][k] == lines[k];
      EqualAmounts(lines[..|lines| - 1], amount);
    }
  }

  /** An allocation has one line for each lease in force of the property that is occupied, and for no other. */
  lemma PreviewLinesAreTheOccupied(leases: seq<Lease>, property: Id, tariff: Tariff, period: string, utility: string)
    ensures var lines := PreviewAllocation(leases, property, tariff, period, utility).lines;
            UtilityLines(lines, period, utility)
            && forall id: Id :: HasLease(lines, id) <==> id < |leases| && !leases[id].deleted && leases[id].running
                                                         && leases[id].property == property && leases[id].occupied
  {
    var ids := OccupiedLeases(leases, property, |leases|);
    var lines := PreviewAllocation(leases, property, tariff, period, utility).lines;
    OccupiedOnce(leases, property, |leases|);
    forall id: Id ensures HasLease(lines, id) <==> id in ids {
      if id in ids {
        var k :| 0 <= k < |ids| && ids[k] == id;
        assert lines[k].lease == id;
      }
    }
  }

  /** Its lines share out the tariff, a fixed charge and one unit at the rate: to the nearest 1/10000 the
      tariff is `total`, the lines are all for one amount in its currency, and together they are off
      by at most half a unit per line. */
  lemma AllocationSharesTheTariff(leases: seq<Lease>, property: Id, tariff: Tariff, period: string, utility: string) returns (total: int)
    ensures -0.5 <= total as real - (tariff.fixedCharge + tariff.ratePerUnit) * 10000.0 <= 0.5
    ensures var run := PreviewAllocation(leases, property, tariff, period, utility);
            && run.period == period && run.utility == utility && run.status == AllocationPreviewed
            && run.totals == SumAmounts(run.lines)
            && (forall k :: 0 <= k < |run.lines| ==> run.lines[k].amount == run.lines[0].amount && run.lines[k].currency == tariff.currency)
            && (run.lines != [] ==> -|run.lines| <= 2 * (run.totals - total) <= |run.lines|)
  {
    var ids := OccupiedLeases(leases, property, |leases|);
    total := TariffTotal(tariff);
    RoundIsNearest(tariff.fixedCharge + tariff.ratePerUnit);
    StoredTotalIsNShares(ids, Share(total, |ids|), tariff.currency, period, utility);
    if ids != [] { ShareIsFair(total, |ids|); }
  }

  /** The stored total is n times the share, which is what the lines add up to. */
  lemma StoredTotalIsNShares(ids: seq<Id>, share: int, currency: string, period: string, utility: string)
    ensures var run := AllocationOf(ids, share, currency, period, utility);
            run.totals == share * |ids| == SumAmounts(run.lines)
  {
    EqualAmounts(LinesFor(ids, share, currency, period, utility), share);
    StoredTotal(share, |ids|);
  }

  lemma StoredTotal(share: int, count: nat)
    ensures RoundMoney(Decimal(share) * count as real) == share * count
  {
    RealOfProduct(share, count);
    assert Decimal(share) * count as real == Decimal(share * count);
  }

  ghost predicate UtilityLines(lines: seq<PreviewLine>, period: string, utility: string) {
    && (forall k :: 0 <= k < |lines| ==> lines[k].chargeKey == Utility(lines[k].lease, period, utility))
    && (forall k, m :: 0 <= k < m < |lines| ==> lines[k].lease != lines[m].lease)
  }

  // ----- the commit -----

  predicate IsUnpaid(status: InvoiceStatus) {
    status == POSTED || status == DRAFT
  }

  /** The duplicate check of `commit`. */
  predicate Covered(invoices: seq<Invoice>, lease: Id, key: ChargeKey) {
    exists i, l :: 0 <= i < |invoices| && 0 <= l < |invoices[i].lines|
                   && invoices[i].lease == lease && IsUnpaid(invoices[i].status) && invoices[i].lines[l].chargeKey == key
  }

  function AllocationInvoice(line: PreviewLine, period: string): Invoice {
    Invoice(line.lease, None, period, DRAFT, line.currency, [ChargeLine(line, period)], line.amount, 0, line.amount, line.amount, 1)
  }

  function AllocateLine(b: Books, leases: seq<Lease>, chargeIndex: bool, period: string, line: PreviewLine): LineOutcome {
    if !Billable(leases, line.lease) || Covered(b.invoices, line.lease, line.chargeKey) then Skipped
    else if chargeIndex && KeyTaken(b.invoices, line.chargeKey) then Aborted
    else PostRow(b.(invoices := b.invoices + [AllocationInvoice(line, period)]), |b.invoices|)
  }

  datatype Allocated = Allocated(books: Books, aborted: bool)

  function AllocateLines(b: Books, leases: seq<Lease>, chargeIndex: bool, period: string, lines: seq<PreviewLine>): Allocated {
    if lines == [] then Allocated(b, false)
    else
      var before := AllocateLines(b, leases, chargeIndex, period, lines[..|lines| - 1]);
      if before.aborted then before
      else
        match AllocateLine(before.books, leases, chargeIndex, period, lines[|lines| - 1])
        case Posted(after) => Allocated(after, false)
        case Skipped => before
        case _ => before.(aborted := true)
  }

  /** `commit` on the run row it read before the lock. */
  function CommitAllocation(b: Books, leases: seq<Lease>, chargeIndex: bool, seen: AllocationRun): (Books, Reply) {
    if seen.status == AllocationCommitted then (b, Unchanged)
    else
      var r := AllocateLines(b, leases, chargeIndex, seen.period, seen.lines);
      if r.aborted then (b, Refused(KeyInUse)) else (r.books, Changed)
  }

  lemma AllocateStep(b: Books, leases: seq<Lease>, chargeIndex: bool, period: string, lines: seq<PreviewLine>, i: nat, now: Books)
    requires i < |lines| && AllocateLines(b, leases, chargeIndex, period, lines[..i]) == Allocated(now, false)
    ensures AllocateLines(b, leases, chargeIndex, period, lines[..i + 1])
         == match AllocateLine(now, leases, chargeIndex, period, lines[i])
            case Posted(after) => Allocated(after, false)
            case Skipped => Allocated(now, false)
            case _ => Allocated(now, true)
  {
    assert lines[..i + 1][..i] == lines[..i];
  }

  class UtilityTables {
    const tables: InvoiceTables
    const chargeIndex: bool
    var leases: seq<Lease>
    var runs: seq<AllocationRun>

    constructor (b: Books, leases: seq<Lease>, chargeIndex: bool)
      ensures tables.Snapshot() == b && this.leases == leases && this.chargeIndex == chargeIndex && runs == []
      ensures fresh(tables) && fresh(tables.ledger)
    {
      this.leases, this.chargeIndex, runs := leases, chargeIndex, [];
      tables := new InvoiceTables(b);
    }

    method PostAllocations(period: string, lines: seq<PreviewLine>) returns (aborted: bool)
      modifies tables, tables.ledger
      ensures var r := AllocateLines(old(tables.Snapshot()), leases, chargeIndex, period, lines);
              aborted == r.aborted && (!aborted ==> tables.Snapshot() == r.books)
    {
      aborted := false;
      ghost var b := tables.Snapshot();
      for i := 0 to |lines|
        invariant AllocateLines(b, leases, chargeIndex, period, lines[..i]) == Allocated(tables.Snapshot(), false)
      {
        var line := lines[i];
        ghost var now := tables.Snapshot();
        AllocateStep(b, leases, chargeIndex, period, lines, i, now);
        if !Billable(leases, line.lease) {
          continue;
        }
        if Covered(tables.invoices, line.lease, line.chargeKey) {
          continue;
        }
        if chargeIndex && KeyTaken(tables.invoices, line.chargeKey) {
          AbortStays(b, leases, chargeIndex, period, lines, i + 1);
          return true;
        }
        var id := |tables.invoices|;
        tables.invoices := tables.invoices + [AllocationInvoice(line, period)];
        var reply := tables.PostDraftInvoiceInTransaction(id);
        if reply != Changed {
          AbortStays(b, leases, chargeIndex, period, lines, i + 1);
          return true;
        }
      }
      assert lines[..|lines|] == lines;
    }

    method Commit(run: Id, seen: AllocationRun) returns (reply: Reply)
      requires run < |runs|
      modifies this`runs, tables, tables.ledger
      ensures (tables.Snapshot(), reply) == CommitAllocation(old(tables.Snapshot()), leases, chargeIndex, seen)
      ensures runs == if reply == Changed then old(runs)[run := old(runs)[run].(status := AllocationCommitted)] else old(runs)
    {
      if seen.status == AllocationCommitted {
        return Unchanged;
      }
      var savedInvoices, savedEntries := tables.invoices, tables.ledger.entries;
      var savedNotes, savedCalls := tables.notes, tables.calls;
      var aborted := PostAllocations(seen.period, seen.lines);
      if aborted {
        tables.invoices, tables.notes, tables.calls, tables.ledger.entries := savedInvoices, savedNotes, savedCalls, savedEntries;
        return Refused(KeyInUse);
      }
      runs := runs[run := runs[run].(status := AllocationCommitted)];
      return Changed;
    }
  }

  lemma {:induction false} AbortStays(b: Books, leases: seq<Lease>, chargeIndex: bool, period: string, lines: seq<PreviewLine>, n: nat)
    requires n <= |lines| && AllocateLines(b, leases, chargeIndex, period, lines[..n]).aborted
    ensures AllocateLines(b, leases, chargeIndex, period, lines).aborted
    decreases |lines|
  {
    if n < |lines| {
      assert lines[..|lines| - 1][..n] == lines[..n];
      AbortStays(b, leases, chargeIndex, period, lines[..|lines| - 1], n);
    } else {
      assert lines[..n] == lines;
    }
  }

  // ----- what a commit does -----

  function PostedAllocation(line: PreviewLine, period: string): Invoice {
    PostedVersion(AllocationInvoice(line, period), [ChargeLine(line, period)])
  }

  predicate ToPost(b: Books, leases: seq<Lease>, line: PreviewLine) {
    Billable(leases, line.lease) && !Covered(b.invoices, line.lease, line.chargeKey)
  }

  lemma AllocationPosts(b: Books, leases: seq<Lease>, chargeIndex: bool, period: string, line: PreviewLine)
    requires Inv(b) && line.amount >= 0 && ToPost(b, leases, line) && !(chargeIndex && KeyTaken(b.invoices, line.chargeKey))
    ensures var o := AllocateLine(b, leases, chargeIndex, period, line);
            && o.Posted? && Inv(o.books)
            && o.books == b.(entries := o.books.entries, invoices := b.invoices + [PostedAllocation(line, period)])
            && ArTotal(o.books.entries) == ArTotal(b.entries) + line.amount
  {
    var n, draft := |b.invoices|, AllocationInvoice(line, period);
    var b1 := b.(invoices := b.invoices + [draft]);
    assert b1 == Step(b, AddDraft(draft)).0;
    AddDraftKeepsInv(b, draft);
    PostingDraftSucceeds(b1, n);
    OneLineTotal(ChargeLine(line, period));
    assert b1.invoices[n := PostedAllocation(line, period)] == b.invoices + [PostedAllocation(line, period)];
  }

  function SumToPost(b: Books, leases: seq<Lease>, lines: seq<PreviewLine>): int {
    if lines == [] then 0
    else
      var line := lines[|lines| - 1];
      SumToPost(b, leases, lines[..|lines| - 1]) + if ToPost(b, leases, line) then line.amount else 0
  }

  /** A share is to be posted but its key sits on an invoice the duplicate check does not look at. */
  predicate Blocked(b: Books, leases: seq<Lease>, lines: seq<PreviewLine>) {
    exists k :: 0 <= k < |lines| && ToPost(b, leases, lines[k]) && KeyTaken(b.invoices, lines[k].chargeKey)
  }

  ghost predicate AllocationEffect(b: Books, leases: seq<Lease>, chargeIndex: bool, period: string, lines: seq<PreviewLine>, r: Allocated) {
    && (r.aborted <==> chargeIndex && Blocked(b, leases, lines))
    && (!r.aborted ==>
          && Inv(r.books)
          && GrownBy(b, r.books, period, lines)
          && ArTotal(r.books.entries) == ArTotal(b.entries) + SumToPost(b, leases, lines)
          && forall k :: 0 <= k < |lines| && Billable(leases, lines[k].lease) ==> Covered(r.books.invoices, lines[k].lease, lines[k].chargeKey))
  }

  ghost predicate NonNegative(lines: seq<PreviewLine>) {
    forall k :: 0 <= k < |lines| ==> lines[k].amount >= 0
  }

  /** The keys of other leases are where they were. */
  lemma OtherSharesSee(b: Books, after: Books, period: string, utility: string, lines: seq<PreviewLine>)
    requires lines != [] && UtilityLines(lines, period, utility) && GrownBy(b, after, period, lines[..|lines| - 1])
    ensures var line := lines[|lines| - 1];
            && (Covered(after.invoices, line.lease, line.chargeKey) <==> Covered(b.invoices, line.lease, line.chargeKey))
            && (KeyTaken(after.invoices, line.chargeKey) <==> KeyTaken(b.invoices, line.chargeKey))
  {
    var init, line := lines[..|lines| - 1], lines[|lines| - 1];
    forall i, l | |b.invoices| <= i < |after.invoices| && 0 <= l < |after.invoices[i].lines|
      ensures after.invoices[i].lines[l].chargeKey != line.chargeKey
    {
      assert BillsOneOf(after.invoices[i], init, period);
      var k :| 0 <= k < |init| && Bills(after.invoices[i], init[k], period);
      assert init[k] == lines[k];
    }
    if KeyTaken(b.invoices, line.chargeKey) {
      var i, l :| 0 <= i < |b.invoices| && 0 <= l < |b.invoices[i].lines| && b.invoices[i].lines[l].chargeKey == line.chargeKey;
      assert after.invoices[i] == b.invoices[i];
    }
    if Covered(b.invoices, line.lease, line.chargeKey) { CoverStays(b, after, line.lease, line.chargeKey); }
  }

  lemma CoveredIsTaken(invoices: seq<Invoice>, lease: Id, key: ChargeKey)
    ensures Covered(invoices, lease, key) ==> KeyTaken(invoices, key)
  {
  }

  lemma CoverStays(b: Books, after: Books, lease: Id, key: ChargeKey)
    requires b.invoices <= after.invoices && Covered(b.invoices, lease, key)
    ensures Covered(after.invoices, lease, key)
  {
    var i, l :| 0 <= i < |b.invoices| && 0 <= l < |b.invoices[i].lines|
                && b.invoices[i].lease == lease && IsUnpaid(b.invoices[i].status) && b.invoices[i].lines[l].chargeKey == key;
    assert after.invoices[i] == b.invoices[i];
  }

  lemma BlockedStep(b: Books, leases: seq<Lease>, lines: seq<PreviewLine>)
    requires lines != []
    ensures var line := lines[|lines| - 1];
            Blocked(b, leases, lines)
            <==> Blocked(b, leases, lines[..|lines| - 1]) || (ToPost(b, leases, line) && KeyTaken(b.invoices, line.chargeKey))
  {
    var init := lines[..|lines| - 1];
    if Blocked(b, leases, init) {
      var k :| 0 <= k < |init| && ToPost(b, leases, init[k]) && KeyTaken(b.invoices, init[k].chargeKey);
      assert lines[k] == init[k];
    }
    if Blocked(b, leases, lines) {
      var k :| 0 <= k < |lines| && ToPost(b, leases, lines[k]) && KeyTaken(b.invoices, lines[k].chargeKey);
      assert k < |init| ==> lines[k] == init[k];
    }
  }

  /** One commit: it aborts exactly when a share is blocked; otherwise receivables rise by exactly the
      shares of billable leases not covered before, and each billable lease is covered afterwards. */
  lemma {:induction false} AllocationCommit(b: Books, leases: seq<Lease>, chargeIndex: bool, period: string, utility: string, lines: seq<PreviewLine>)
    requires Inv(b) && UtilityLines(lines, period, utility) && NonNegative(lines)
    ensures AllocationEffect(b, leases, chargeIndex, period, lines, AllocateLines(b, leases, chargeIndex, period, lines))
  {
    if lines != [] {
      var init, line := lines[..|lines| - 1], lines[|lines| - 1];
      AllocationCommit(b, leases, chargeIndex, period, utility, init);
      BlockedStep(b, leases, lines);
      var before := AllocateLines(b, leases, chargeIndex, period, init);
      if !before.aborted {
        OtherSharesSee(b, before.books, period, utility, lines);
        if !ToPost(b, leases, line) {
          GrowthWeakens(b, before.books, period, lines);
          assert forall k :: 0 <= k < |init| ==> lines[k] == init[k];
        } else if !(chargeIndex && KeyTaken(b.invoices, line.chargeKey)) {
          ShareEffect(b, leases, chargeIndex, period, lines, before);
        }
      }
    } else {
      assert !Blocked(b, leases, lines);
    }
  }

  lemma ShareEffect(b: Books, leases: seq<Lease>, chargeIndex: bool, period: string, lines: seq<PreviewLine>, before: Allocated)
    requires lines != [] && NonNegative(lines) && !before.aborted
    requires AllocationEffect(b, leases, chargeIndex, period, lines[..|lines| - 1], before)
    requires var line := lines[|lines| - 1];
             && ToPost(b, leases, line) && ToPost(before.books, leases, line)
             && !(chargeIndex && KeyTaken(b.invoices, line.chargeKey)) && !(chargeIndex && KeyTaken(before.books.invoices, line.chargeKey))
    ensures var o := AllocateLine(before.books, leases, chargeIndex, period, lines[|lines| - 1]);
            o.Posted? && AllocationEffect(b, leases, chargeIndex, period, lines, Allocated(o.books, false))
  {
    var init, line := lines[..|lines| - 1], lines[|lines| - 1];
    BlockedStep(b, leases, lines);
    AllocationPosts(before.books, leases, chargeIndex, period, line);
    var after := AllocateLine(before.books, leases, chargeIndex, period, line).books;
    OneLineTotal(ChargeLine(line, period));
    GrowthExtends(b, before.books, after, period, lines, PostedAllocation(line, period));
    assert after.invoices[|before.books.invoices|].lines[0].chargeKey == line.chargeKey;
    forall k | 0 <= k < |lines| && Billable(leases, lines[k].lease)
      ensures Covered(after.invoices, lines[k].lease, lines[k].chargeKey)
    {
      if k < |init| {
        assert lines[k] == init[k];
        CoverStays(before.books, after, lines[k].lease, lines[k].chargeKey);
      }
    }
  }

  lemma {:induction false} AllToPost(b: Books, leases: seq<Lease>, lines: seq<PreviewLine>)
    requires forall k :: 0 <= k < |lines| ==> ToPost(b, leases, lines[k])
    ensures SumToPost(b, leases, lines) == SumAmounts(lines)
  {
    if lines != [] {
      assert forall k :: 0 <= k < |lines| - 1 ==> lines[k] == lines[..|lines| - 1][k];
      AllToPost(b, leases, lines[..|lines| - 1]);
    }
  }

  /** Committing an allocation none of whose keys is on an invoice yet, when every lease of it can be
      billed, raises the receivables by exactly the total the allocation stored. */
  lemma FreshAllocationPostsItsTotal(b: Books, leases: seq<Lease>, chargeIndex: bool, ids: seq<Id>, share: int, currency: string,
                                     period: string, utility: string)
    requires Inv(b) && share >= 0 && forall k, m :: 0 <= k < m < |ids| ==> ids[k] != ids[m]
    requires forall k :: 0 <= k < |ids| ==> Billable(leases, ids[k]) && !KeyTaken(b.invoices, Utility(ids[k], period, utility))
    ensures var run := AllocationOf(ids, share, currency, period, utility);
            var (after, reply) := CommitAllocation(b, leases, chargeIndex, run);
            reply == Changed && ArTotal(after.entries) == ArTotal(b.entries) + run.totals
  {
    var lines := LinesFor(ids, share, currency, period, utility);
    StoredTotalIsNShares(ids, share, currency, period, utility);
    AllocationCommit(b, leases, chargeIndex, period, utility, lines);
    forall k | 0 <= k < |lines| ensures ToPost(b, leases, lines[k]) {
      CoveredIsTaken(b.invoices, lines[k].lease, lines[k].chargeKey);
    }
    AllToPost(b, leases, lines);
  }

  lemma {:induction false} NothingToPost(b: Books, leases: seq<Lease>, chargeIndex: bool, period: string, lines: seq<PreviewLine>)
    requires forall k :: 0 <= k < |lines| ==> !ToPost(b, leases, lines[k])
    ensures AllocateLines(b, leases, chargeIndex, period, lines) == Allocated(b, false)
  {
    if lines != [] {
      assert forall k :: 0 <= k < |lines| - 1 ==> lines[k] == lines[..|lines| - 1][k];
      NothingToPost(b, leases, chargeIndex, period, lines[..|lines| - 1]);
    }
  }

  /** Two commits of one run that both read it as previewed: the second posts nothing. */
  lemma RacingCommitPostsNothing(b: Books, leases: seq<Lease>, chargeIndex: bool, seen: AllocationRun)
    requires Inv(b) && UtilityLines(seen.lines, seen.period, seen.utility) && NonNegative(seen.lines)
    requires CommitAllocation(b, leases, chargeIndex, seen).1 == Changed
    ensures var after := CommitAllocation(b, leases, chargeIndex, seen).0;
            CommitAllocation(after, leases, chargeIndex, seen) == (after, Changed)
  {
    AllocationCommit(b, leases, chargeIndex, seen.period, seen.utility, seen.lines);
    NothingToPost(CommitAllocation(b, leases, chargeIndex, seen).0, leases, chargeIndex, seen.period, seen.lines);
  }

  // ----- at most once, while unpaid -----

  ghost predicate UtilityInPlace(inv: Invoice) {
    forall l :: 0 <= l < |inv.lines| && inv.lines[l].chargeKey.Utility? ==> inv.lines[l].chargeKey.lease == inv.lease
  }

  predicate CarriesUtility(inv: Invoice) {
    exists l :: 0 <= l < |inv.lines| && inv.lines[l].chargeKey.Utility?
  }

  ghost predicate UnpaidOnce(invoices: seq<Invoice>) {
    forall i, j, l, m ::
      (&& 0 <= i < |invoices| && 0 <= l < |invoices[i].lines| && IsUnpaid(invoices[i].status)
       && 0 <= j < |invoices| && 0 <= m < |invoices[j].lines| && IsUnpaid(invoices[j].status)
       && invoices[i].lines[l].chargeKey.Utility?
       && invoices[i].lines[l].chargeKey == invoices[j].lines[m].chargeKey)
      ==> i == j && l == m
  }

  ghost predicate UtilitiesOk(b: Books, chargeIndex: bool) {
    && Inv(b)
    && (forall i :: 0 <= i < |b.invoices| ==> UtilityInPlace(b.invoices[i]))
    && (forall i :: 0 <= i < |b.invoices| && b.invoices[i].status == DRAFT ==> !CarriesUtility(b.invoices[i]))
    && (forall c :: c in b.calls && b.calls[c].PostingInvoice? ==> b.calls[c].id < |b.invoices| && !CarriesUtility(b.invoices[b.calls[c].id]))
    && UnpaidOnce(b.invoices)
    && (chargeIndex ==> KeysOnce(b.invoices))
  }

  lemma UtilitiesFrame(b: Books, after: Books, chargeIndex: bool)
    requires UtilitiesOk(b, chargeIndex) && Inv(after) && |after.invoices| == |b.invoices|
    requires forall i :: 0 <= i < |b.invoices| ==>
               && after.invoices[i].lines == b.invoices[i].lines
               && after.invoices[i].lease == b.invoices[i].lease
               && (after.invoices[i].status == DRAFT ==> b.invoices[i].status == DRAFT)
               && (IsUnpaid(after.invoices[i].status) ==> IsUnpaid(b.invoices[i].status) || !CarriesUtility(b.invoices[i]))
    requires forall c :: c in after.calls && after.calls[c].PostingInvoice? ==>
               after.calls[c].id < |b.invoices| && !CarriesUtility(b.invoices[after.calls[c].id])
    ensures UtilitiesOk(after, chargeIndex)
  {
    forall i | 0 <= i < |after.invoices| ensures UtilityInPlace(after.invoices[i]) { assert UtilityInPlace(b.invoices[i]); }
    assert forall i :: 0 <= i < |b.invoices| ==> CarriesUtility(after.invoices[i]) == CarriesUtility(b.invoices[i]);
    forall i, l | 0 <= i < |b.invoices| && 0 <= l < |b.invoices[i].lines| && b.invoices[i].lines[l].chargeKey.Utility?
      ensures CarriesUtility(b.invoices[i])
    {
    }
  }

  /** A draft enters the books only without utility charges, and with the index only on new keys. */
  ghost predicate UtilityAllowed(b: Books, op: Op, chargeIndex: bool) {
    op.AddDraft? ==> GoodLines(op.draft.lines) && !CarriesUtility(op.draft) && !(chargeIndex && ClashingDraft(b.invoices, op.draft.lines))
  }

  lemma AddDraftKeepsUtilities(b: Books, draft: Invoice, chargeIndex: bool)
    requires UtilitiesOk(b, chargeIndex) && UtilityAllowed(b, AddDraft(draft), chargeIndex)
    ensures UtilitiesOk(Step(b, AddDraft(draft)).0, chargeIndex)
  {
    AddDraftKeepsInv(b, draft);
    var after := Step(b, AddDraft(draft)).0;
    assert forall i :: 0 <= i < |b.invoices| ==> after.invoices[i] == b.invoices[i];
    var added := after.invoices[|b.invoices|];
    assert added.lines == draft.lines && added.status == DRAFT;
    if chargeIndex {
      forall i, l, m | 0 <= i < |b.invoices| && 0 <= l < |b.invoices[i].lines| && 0 <= m < |draft.lines|
        ensures b.invoices[i].lines[l].chargeKey != draft.lines[m].chargeKey
      {
        assert !KeyTaken(b.invoices, draft.lines[m].chargeKey);
      }
    }
  }

  lemma FinishKeepsUtilities(b: Books, call: Id, chargeIndex: bool)
    requires UtilitiesOk(b, chargeIndex) && call in b.calls
    ensures UtilitiesOk(Finish(b, call).0, chargeIndex)
  {
    FinishKeepsInv(b, call);
    var rest, after := b.(calls := b.calls - {call}), Finish(b, call).0;
    FewerCallsKeepInv(b, rest.calls);
    assert CallOk(b, b.calls[call]);
    match b.calls[call] {
      case PostingInvoice(id, seen) =>
        assert !CarriesUtility(b.invoices[id]);
        assert after.invoices == b.invoices || after.invoices == b.invoices[id := PostedVersion(b.invoices[id], seen.lines)];
      case CreatingNote(invoice, lease, currency, total) =>
        assert after.invoices == b.invoices;
      case PostingNote(note, seen) =>
    }
    UtilitiesFrame(b, after, chargeIndex);
  }

  lemma VoidKeepsUtilities(b: Books, id: Id, v: nat, chargeIndex: bool)
    requires UtilitiesOk(b, chargeIndex)
    ensures UtilitiesOk(VoidInvoice(b, id, v).0, chargeIndex)
  {
    VoidKeepsInv(b, id, v);
    UtilitiesFrame(b, VoidInvoice(b, id, v).0, chargeIndex);
  }

  lemma CallsKeepUtilities(b: Books, calls: map<Id, Pending>, chargeIndex: bool)
    requires UtilitiesOk(b, chargeIndex) && forall c :: c in calls ==> CallOk(b, calls[c])
    requires forall c :: c in calls && calls[c].PostingInvoice? ==>
               calls[c].id < |b.invoices| && !CarriesUtility(b.invoices[calls[c].id])
    ensures UtilitiesOk(b.(calls := calls), chargeIndex)
  {
    FewerCallsKeepInv(b, calls);
    UtilitiesFrame(b, b.(calls := calls), chargeIndex);
  }

  lemma StartKeepsUtilities(b: Books, op: Op, chargeIndex: bool)
    requires UtilitiesOk(b, chargeIndex) && !op.AddDraft? && !op.VoidInvoiceOp? && !op.FinishOp?
    ensures UtilitiesOk(Step(b, op).0, chargeIndex)
  {
    StartsOnlyCalls(b, op);
    var calls := Step(b, op).0.calls;
    CallsKeepUtilities(b, calls, chargeIndex);
  }

  lemma BooksStepKeepsUtilities(b: Books, op: Op, chargeIndex: bool)
    requires UtilitiesOk(b, chargeIndex) && UtilityAllowed(b, op, chargeIndex)
    ensures UtilitiesOk(Step(b, op).0, chargeIndex)
  {
    match op {
      case AddDraft(draft) => AddDraftKeepsUtilities(b, draft, chargeIndex);
      case VoidInvoiceOp(id, v) => VoidKeepsUtilities(b, id, v, chargeIndex);
      case FinishOp(call) => if call in b.calls { FinishKeepsUtilities(b, call, chargeIndex); }
      case _ => StartKeepsUtilities(b, op, chargeIndex);
    }
  }

  lemma NewShareKeepsUtilities(b: Books, after: Books, chargeIndex: bool, leases: seq<Lease>, line: PreviewLine, period: string)
    requires UtilitiesOk(b, chargeIndex) && Inv(after) && after.calls == b.calls
    requires line.chargeKey.Utility? && line.chargeKey.lease == line.lease && ToPost(b, leases, line)
    requires !(chargeIndex && KeyTaken(b.invoices, line.chargeKey))
    requires after.invoices == b.invoices + [PostedAllocation(line, period)]
    ensures UtilitiesOk(after, chargeIndex)
  {
    forall i, l | 0 <= i < |b.invoices| && 0 <= l < |b.invoices[i].lines| && IsUnpaid(b.invoices[i].status)
      ensures b.invoices[i].lines[l].chargeKey != line.chargeKey
    {
      assert UtilityInPlace(b.invoices[i]);
    }
  }

  /** Any list of shares, repeated leases included, each named by its own charge key. */
  ghost predicate OwnKeys(lines: seq<PreviewLine>) {
    forall k :: 0 <= k < |lines| ==> lines[k].chargeKey.Utility? && lines[k].chargeKey.lease == lines[k].lease
  }

  lemma {:induction false} AllocateKeepsUtilities(b: Books, leases: seq<Lease>, chargeIndex: bool, period: string, lines: seq<PreviewLine>)
    requires UtilitiesOk(b, chargeIndex) && OwnKeys(lines) && NonNegative(lines)
    ensures UtilitiesOk(AllocateLines(b, leases, chargeIndex, period, lines).books, chargeIndex)
  {
    if lines != [] {
      var init, line := lines[..|lines| - 1], lines[|lines| - 1];
      AllocateKeepsUtilities(b, leases, chargeIndex, period, init);
      var mid := AllocateLines(b, leases, chargeIndex, period, init).books;
      if ToPost(mid, leases, line) && !(chargeIndex && KeyTaken(mid.invoices, line.chargeKey)) {
        AllocationPosts(mid, leases, chargeIndex, period, line);
        NewShareKeepsUtilities(mid, AllocateLine(mid, leases, chargeIndex, period, line).books, chargeIndex, leases, line, period);
      }
    }
  }

  datatype UtilityOp =
    | OnBooks(op: Op)
    | AllocateOp(leases: seq<Lease>, seen: AllocationRun)

  function UtilityStep(b: Books, chargeIndex: bool, op: UtilityOp): Books {
    match op
    case OnBooks(o) => if o.AddDraft? && chargeIndex && ClashingDraft(b.invoices, o.draft.lines) then b else Step(b, o).0
    case AllocateOp(leases, seen) => CommitAllocation(b, leases, chargeIndex, seen).0
  }

  function UtilityRun(b: Books, chargeIndex: bool, ops: seq<UtilityOp>): Books {
    if ops == [] then b else UtilityStep(UtilityRun(b, chargeIndex, ops[..|ops| - 1]), chargeIndex, ops[|ops| - 1])
  }

  /** Without the index every step on invoices and credit notes is one here, and with it every one but a
      draft with a charge that is on an invoice line already. */
  lemma BooksStepsAreFree(b: Books, chargeIndex: bool, op: Op)
    ensures UtilityStep(b, chargeIndex, OnBooks(op)) != Step(b, op).0 ==>
              && chargeIndex && op.AddDraft? && UtilityStep(b, chargeIndex, OnBooks(op)) == b
              && ((exists l :: 0 <= l < |op.draft.lines| && KeyTaken(b.invoices, op.draft.lines[l].chargeKey))
                  || exists l, m :: 0 <= l < m < |op.draft.lines| && op.draft.lines[l].chargeKey == op.draft.lines[m].chargeKey)
  {
  }

  ghost predicate UtilityOpAllowed(op: UtilityOp) {
    match op
    case OnBooks(o) => o.AddDraft? ==> GoodLines(o.draft.lines) && !CarriesUtility(o.draft)
    case AllocateOp(leases, seen) => OwnKeys(seen.lines) && NonNegative(seen.lines)
  }

  lemma {:induction false} UtilityRunKeepsInv(b: Books, chargeIndex: bool, ops: seq<UtilityOp>)
    requires UtilitiesOk(b, chargeIndex) && forall k :: 0 <= k < |ops| ==> UtilityOpAllowed(ops[k])
    ensures UtilitiesOk(UtilityRun(b, chargeIndex, ops), chargeIndex)
  {
    if ops != [] {
      UtilityRunKeepsInv(b, chargeIndex, ops[..|ops| - 1]);
      var mid := UtilityRun(b, chargeIndex, ops[..|ops| - 1]);
      match ops[|ops| - 1] {
        case OnBooks(o) =>
          if !(o.AddDraft? && chargeIndex && ClashingDraft(mid.invoices, o.draft.lines)) { BooksStepKeepsUtilities(mid, o, chargeIndex); }
        case AllocateOp(leases, seen) => AllocateKeepsUtilities(mid, leases, chargeIndex, seen.period, seen.lines);
      }
    }
  }

  /** After any run of allocations (on run rows however stale), posts, voids and credit notes: a
      utility charge is on at most one unpaid invoice line, and with the unique index on at most one
      line at all. */
  lemma UtilityBilledOnceWhileUnpaid(tenant: Id, chargeIndex: bool, uuidJournals: bool, ops: seq<UtilityOp>, key: ChargeKey, i: Id, l: nat, j: Id, m: nat)
    requires key.Utility? && forall k :: 0 <= k < |ops| ==> UtilityOpAllowed(ops[k])
    requires var invoices := UtilityRun(EmptyBooks(tenant, uuidJournals), chargeIndex, ops).invoices;
             && i < |invoices| && l < |invoices[i].lines| && invoices[i].lines[l].chargeKey == key
             && j < |invoices| && m < |invoices[j].lines| && invoices[j].lines[m].chargeKey == key
             && (chargeIndex || (invoices[i].status in {DRAFT, POSTED} && invoices[j].status in {DRAFT, POSTED}))
    ensures i == j && l == m
  {
    EmptyBooksOk(tenant, uuidJournals);
    UtilityRunKeepsInv(EmptyBooks(tenant, uuidJournals), chargeIndex, ops);
  }

  /** Without the index the promise ends with the first payment: a charge that is live is billed a
      second time exactly when no invoice with it is unpaid any more. */
  lemma LiveChargeBilledAgainIff(b: Books, leases: seq<Lease>, period: string, line: PreviewLine, i: Id, l: nat)
    requires UtilitiesOk(b, false) && line.chargeKey.Utility? && line.amount >= 0 && Billable(leases, line.lease)
    requires i < |b.invoices| && l < |b.invoices[i].lines| && b.invoices[i].lines[l].chargeKey == line.chargeKey
    requires b.invoices[i].lease == line.lease && b.invoices[i].status in {POSTED, PARTIALLY_PAID, PAID}
    ensures AllocateLine(b, leases, false, period, line).Posted?
            <==> forall j, m :: 0 <= j < |b.invoices| && 0 <= m < |b.invoices[j].lines| && b.invoices[j].lines[m].chargeKey == line.chargeKey ==>
                   b.invoices[j].status !in {DRAFT, POSTED}
    ensures var o := AllocateLine(b, leases, false, period, line);
            o.Posted? ==> && o.books.invoices[i].status in {POSTED, PARTIALLY_PAID, PAID} && o.books.invoices[i].lines == b.invoices[i].lines
                          && IsLive(o.books.invoices[|b.invoices|].status) && o.books.invoices[|b.invoices|].lines[0].chargeKey == line.chargeKey
  {
    assert UtilityInPlace(b.invoices[i]);
    forall j | 0 <= j < |b.invoices| ensures UtilityInPlace(b.invoices[j]) {}
    if ToPost(b, leases, line) { AllocationPosts(b, leases, false, period, line); }
  }

  // ----- one share, in the fields of the tables -----

  /** A share is skipped exactly if its lease is gone or has no party to bill, or its charge is on a POSTED
      or DRAFT invoice of the lease; otherwise the index alone can stand in its way. */
  lemma ShareSkippedIff(b: Books, leases: seq<Lease>, chargeIndex: bool, period: string, line: PreviewLine)
    requires Inv(b) && line.amount >= 0
    ensures var o := AllocateLine(b, leases, chargeIndex, period, line);
            var covered := exists i, l :: 0 <= i < |b.invoices| && 0 <= l < |b.invoices[i].lines| && b.invoices[i].lease == line.lease
                                          && b.invoices[i].status in {DRAFT, POSTED} && b.invoices[i].lines[l].chargeKey == line.chargeKey;
            var taken := exists i, l :: 0 <= i < |b.invoices| && 0 <= l < |b.invoices[i].lines| && b.invoices[i].lines[l].chargeKey == line.chargeKey;
            && (o.Skipped? <==> line.lease >= |leases| || leases[line.lease].deleted || leases[line.lease].parties == [] || covered)
            && (!o.Skipped? ==> (o.Aborted? <==> chargeIndex && taken) && (o.Posted? <==> !(chargeIndex && taken)))
            && (o.Posted? ==> |o.books.invoices| == |b.invoices| + 1 && Bills(o.books.invoices[|b.invoices|], line, period))
  {
    var covered := exists i, l :: 0 <= i < |b.invoices| && 0 <= l < |b.invoices[i].lines| && b.invoices[i].lease == line.lease
                                  && b.invoices[i].status in {DRAFT, POSTED} && b.invoices[i].lines[l].chargeKey == line.chargeKey;
    assert Covered(b.invoices, line.lease, line.chargeKey) <==> covered by {
      if Covered(b.invoices, line.lease, line.chargeKey) {
        var i, l :| 0 <= i < |b.invoices| && 0 <= l < |b.invoices[i].lines| && b.invoices[i].lease == line.lease
                    && IsUnpaid(b.invoices[i].status) && b.invoices[i].lines[l].chargeKey == line.chargeKey;
        assert b.invoices[i].status in {DRAFT, POSTED};
      }
    }
    if ToPost(b, leases, line) && !(chargeIndex && KeyTaken(b.invoices, line.chargeKey)) {
      AllocationPosts(b, leases, chargeIndex, period, line);
      OneLineTotal(ChargeLine(line, period));
    }
  }
}
