/** Rent, utilities and invoices on one set of tables.

    Rent runs, utility allocations, and the invoice and credit-note services interleaved: a commit of
    one kind changes no charge of the other, so what each keeps on its own is kept by all of them
    together. The second half exhibits runs from empty tables: a rent that was billed and voided
    stands in the way of being billed again, and a share that was billed and credited does not keep
    a second commit from billing it once more. */
module BillingSystem {
  import opened Prelude
  import opened Money
  import opened Ledger
  import opened Invoices
  import opened BillingRuns
  import opened Utilities

  datatype JointOp =
    | RentOp(op: SysOp)
    | AllocationOp(seen: AllocationRun)

  function JointStep(s: Sys, op: JointOp): Sys {
    match op
    case RentOp(o) => SysStep(s, o).0
    case AllocationOp(seen) => s.(books := CommitAllocation(s.books, s.leases, s.chargeIndex, seen).0)
  }

  function JointRun(s: Sys, ops: seq<JointOp>): Sys {
    if ops == [] then s else JointStep(JointRun(s, ops[..|ops| - 1]), ops[|ops| - 1])
  }

  function RentsOnly(ops: seq<SysOp>): seq<JointOp> {
    seq(|ops|, i requires 0 <= i < |ops| => RentOp(ops[i]))
  }

  function AllocationsOnly(seen: seq<AllocationRun>): seq<JointOp> {
    seq(|seen|, i requires 0 <= i < |seen| => AllocationOp(seen[i]))
  }

  function Allocations(leases: seq<Lease>, seen: seq<AllocationRun>): seq<UtilityOp> {
    seq(|seen|, i requires 0 <= i < |seen| => AllocateOp(leases, seen[i]))
  }

  /** The joint runs contain those of either kind: rent runs as they are, and allocations on the leases of
      the moment. */
  lemma {:induction false} JointRunsContainBoth(s: Sys, ops: seq<SysOp>, seen: seq<AllocationRun>)
    ensures JointRun(s, RentsOnly(ops)) == SysRun(s, ops)
    ensures JointRun(s, AllocationsOnly(seen)) == s.(books := UtilityRun(s.books, s.chargeIndex, Allocations(s.leases, seen)))
    decreases |ops| + |seen|
  {
    if ops != [] {
      var n := |ops| - 1;
      JointRunsContainBoth(s, ops[..n], []);
      assert RentsOnly(ops)[..n] == RentsOnly(ops[..n]);
    }
    if seen != [] {
      var n := |seen| - 1;
      JointRunsContainBoth(s, [], seen[..n]);
      assert AllocationsOnly(seen)[..n] == AllocationsOnly(seen[..n]);
      assert Allocations(s.leases, seen)[..n] == Allocations(s.leases, seen[..n]);
    }
  }

  /** Amounts are not negative; rent charges come from billing runs and utility charges from allocations. */
  ghost predicate JointAllowed(op: JointOp) {
    match op
    case RentOp(o) => SysAllowed(o) && (o.BooksOp? && o.op.AddDraft? ==> !CarriesUtility(o.op.draft))
    case AllocationOp(seen) => OwnKeys(seen.lines) && NonNegative(seen.lines)
  }

  ghost predicate JointInv(s: Sys) {
    SysInv(s) && UtilitiesOk(s.books, s.chargeIndex)
  }

  // ----- a rent commit keeps the utility charges -----

  lemma NewRentKeepsUtilities(b: Books, after: Books, chargeIndex: bool, line: PreviewLine, run: Id, period: string)
    requires UtilitiesOk(b, chargeIndex) && RentLine(line, period) && Inv(after) && after.calls == b.calls
    requires after.invoices == b.invoices + [PostedInvoice(line, run, period)]
    requires !(chargeIndex && KeyTaken(b.invoices, line.chargeKey))
    ensures UtilitiesOk(after, chargeIndex)
  {
    var n := |b.invoices|;
    assert after.invoices[n].lines == [ChargeLine(line, period)];
    assert forall i :: 0 <= i < n ==> after.invoices[i] == b.invoices[i];
  }

  lemma RentLineKeepsUtilities(b: Books, chargeIndex: bool, leases: seq<Lease>, run: Id, period: string, line: PreviewLine)
    requires ChargesOk(b, chargeIndex) && UtilitiesOk(b, chargeIndex) && RentLine(line, period)
    ensures var o := UpsertLine(b, leases, chargeIndex, run, period, line); o.Posted? ==> UtilitiesOk(o.books, chargeIndex)
  {
    var o := UpsertLine(b, leases, chargeIndex, run, period, line);
    if o.Posted? {
      NoRunDraft(b, chargeIndex, line.lease, run, period);
      DueLinePosts(b, chargeIndex, leases, run, period, line);
      NewRentKeepsUtilities(b, o.books, chargeIndex, line, run, period);
    }
  }

  lemma {:induction false} CommitKeepsUtilities(b: Books, leases: seq<Lease>, chargeIndex: bool, run: Id, period: string, lines: seq<PreviewLine>)
    requires ChargesOk(b, chargeIndex) && UtilitiesOk(b, chargeIndex) && RentLines(lines, period)
    ensures UtilitiesOk(CommitLines(b, leases, chargeIndex, run, period, lines).books, chargeIndex)
  {
    if lines != [] {
      var init := lines[..|lines| - 1];
      CommitKeepsUtilities(b, leases, chargeIndex, run, period, init);
      CommitEffect(b, leases, chargeIndex, run, period, init);
      var before := CommitLines(b, leases, chargeIndex, run, period, init);
      if !before.aborted {
        RentLineKeepsUtilities(before.books, chargeIndex, leases, run, period, lines[|lines| - 1]);
      }
    }
  }

  lemma FinishCommitKeepsUtilities(s: Sys, call: Id)
    requires JointInv(s)
    ensures UtilitiesOk(FinishCommit(s, call).0.books, s.chargeIndex)
  {
    if call in s.commits {
      var Commit(run, seen) := s.commits[call];
      var leases := EnsureSchedules(s.leases, seen.property);
      assert PreviewOk(seen);
      PreviewFacts(leases, seen, |leases|);
      var preview := LinesToCommit(leases, seen);
      if preview.Ok? { CommitKeepsUtilities(s.books, leases, s.chargeIndex, run, seen.period, preview.value.lines); }
    }
  }

  lemma RentOpKeepsUtilities(s: Sys, op: SysOp)
    requires JointInv(s) && JointAllowed(RentOp(op))
    ensures UtilitiesOk(SysStep(s, op).0.books, s.chargeIndex)
  {
    match op {
      case BooksOp(o) =>
        if !(o.AddDraft? && s.chargeIndex && ClashingDraft(s.books.invoices, o.draft.lines)) {
          BooksStepKeepsUtilities(s.books, o, s.chargeIndex);
        }
      case FinishCommitOp(call) => FinishCommitKeepsUtilities(s, call);
      case _ =>
    }
  }

  // ----- an allocation keeps the rent charges -----

  lemma NewShareKeepsCharges(b: Books, after: Books, chargeIndex: bool, line: PreviewLine, period: string)
    requires ChargesOk(b, chargeIndex) && Inv(after) && after.calls == b.calls && line.chargeKey.Utility?
    requires !(chargeIndex && KeyTaken(b.invoices, line.chargeKey))
    requires after.invoices == b.invoices + [PostedAllocation(line, period)]
    ensures ChargesOk(after, chargeIndex)
  {
    var n := |b.invoices|;
    assert after.invoices[n].lines == [ChargeLine(line, period)];
    assert forall i :: 0 <= i < n ==> after.invoices[i] == b.invoices[i];
  }

  lemma {:induction false} AllocateKeepsCharges(b: Books, leases: seq<Lease>, chargeIndex: bool, period: string, lines: seq<PreviewLine>)
    requires ChargesOk(b, chargeIndex) && OwnKeys(lines) && NonNegative(lines)
    ensures ChargesOk(AllocateLines(b, leases, chargeIndex, period, lines).books, chargeIndex)
  {
    if lines != [] {
      var init, line := lines[..|lines| - 1], lines[|lines| - 1];
      AllocateKeepsCharges(b, leases, chargeIndex, period, init);
      var mid := AllocateLines(b, leases, chargeIndex, period, init).books;
      if ToPost(mid, leases, line) && !(chargeIndex && KeyTaken(mid.invoices, line.chargeKey)) {
        AllocationPosts(mid, leases, chargeIndex, period, line);
        NewShareKeepsCharges(mid, AllocateLine(mid, leases, chargeIndex, period, line).books, chargeIndex, line, period);
      }
    }
  }

  // ----- the whole system -----

  lemma JointStepKeepsInv(s: Sys, op: JointOp)
    requires JointInv(s) && JointAllowed(op)
    ensures JointInv(JointStep(s, op)) && JointStep(s, op).chargeIndex == s.chargeIndex
  {
    match op {
      case RentOp(o) =>
        SysStepKeepsInv(s, o);
        RentOpKeepsUtilities(s, o);
      case AllocationOp(seen) =>
        AllocateKeepsCharges(s.books, s.leases, s.chargeIndex, seen.period, seen.lines);
        AllocateKeepsUtilities(s.books, s.leases, s.chargeIndex, seen.period, seen.lines);
    }
  }

  lemma {:induction false} JointRunKeepsInv(s: Sys, ops: seq<JointOp>)
    requires JointInv(s) && forall i :: 0 <= i < |ops| ==> JointAllowed(ops[i])
    ensures JointInv(JointRun(s, ops)) && JointRun(s, ops).chargeIndex == s.chargeIndex
  {
    if ops != [] {
      JointRunKeepsInv(s, ops[..|ops| - 1]);
      JointStepKeepsInv(JointRun(s, ops[..|ops| - 1]), ops[|ops| - 1]);
    }
  }

  /** Over every interleaving of rent runs, utility allocations, posts, voids and credit notes, stale
      reads included: each invoice is true to the ledger, the ledger balances, a rent charge is on at
      most one live line, a utility charge on at most one unpaid line, and with the unique index every
      charge is on at most one line. */
  lemma JointSystem(tenant: Id, chargeIndex: bool, uuidJournals: bool, ops: seq<JointOp>)
    requires forall k :: 0 <= k < |ops| ==> JointAllowed(ops[k])
    ensures var b := JointRun(EmptySys(tenant, chargeIndex, uuidJournals), ops).books;
            && (forall i :: 0 <= i < |b.invoices| ==> InvoiceTrue(b, i))
            && Balanced(b.entries)
            && RentOnce(b.invoices) && UnpaidOnce(b.invoices)
            && (chargeIndex ==> KeysOnce(b.invoices))
  {
    EmptyBooksOk(tenant, uuidJournals);
    JointRunKeepsInv(EmptySys(tenant, chargeIndex, uuidJournals), ops);
    var b := JointRun(EmptySys(tenant, chargeIndex, uuidJournals), ops).books;
    InvKeepsBalance(b);
    forall i | 0 <= i < |b.invoices| ensures InvoiceTrue(b, i) { InvMakesInvoicesTrue(b, i); }
  }

  lemma InvKeepsBalance(b: Books)
    requires Inv(b)
    ensures Balanced(b.entries)
  {
  }

  // ----- bill, void, bill again -----

  const PERIOD := "2026-01"

  function Home(rent: int): Lease {
    Lease(false, true, 0, true, true, Some(Term(rent, "USD")), [true])
  }

  function RentOf(rent: int): PreviewLine {
    PreviewLine(0, rent, "USD", Rent(0, PERIOD))
  }

  function ApprovedRow(rent: int): BillingRun {
    BillingRun(PERIOD, None, APPROVED, Some([RentOf(rent)]), rent, Some("USD"), 3)
  }

  /** Create run n, preview it, approve it, and let a commit of it read its row. */
  function Prepare(n: nat): seq<SysOp> {
    [CreateRun(PERIOD, None, None), PreviewOp(n, 1), ApproveOp(n, 2), StartCommitOp(n, n, true, Some(3))]
  }

  lemma SysRunLast(s: Sys, ops: seq<SysOp>, before: seq<SysOp>, op: SysOp)
    requires ops != [] && ops[..|ops| - 1] == before && ops[|ops| - 1] == op
    ensures SysRun(s, ops) == SysStep(SysRun(s, before), op).0
  {
  }

  lemma Prepared(s: Sys, ops: seq<SysOp>, rent: int)
    requires var t := SysRun(s, ops); t.leases == [Home(rent)] && t.commits == map[]
    ensures var t, n := SysRun(s, ops), |SysRun(s, ops).runs|;
            SysRun(s, ops + Prepare(n)) == t.(runs := t.runs + [ApprovedRow(rent)], commits := map[n := Commit(n, ApprovedRow(rent))])
  {
    var t := SysRun(s, ops);
    var n := |t.runs|;
    SysRunTwice(s, ops, CreateRun(PERIOD, None, None), PreviewOp(n, 1));
    SysRunTwice(s, ops + [CreateRun(PERIOD, None, None), PreviewOp(n, 1)], ApproveOp(n, 2), StartCommitOp(n, n, true, Some(3)));
    assert ops + Prepare(n) == ops + [CreateRun(PERIOD, None, None), PreviewOp(n, 1)] + [ApproveOp(n, 2), StartCommitOp(n, n, true, Some(3))];
    CreatedAndPreviewed(t, rent);
    ApprovedAndRead(t.(runs := t.runs + [PreviewedRow(rent)]), n, rent);
    assert (t.runs + [PreviewedRow(rent)])[n := ApprovedRow(rent)] == t.runs + [ApprovedRow(rent)];
  }

  lemma SysRunTwice(s: Sys, ops: seq<SysOp>, a: SysOp, b: SysOp)
    ensures SysRun(s, ops + [a, b]) == SysStep(SysStep(SysRun(s, ops), a).0, b).0
  {
    SysRunLast(s, ops + [a], ops, a);
    SysRunLast(s, ops + [a, b], ops + [a], b);
  }

  function PreviewedRow(rent: int): BillingRun {
    ApprovedRow(rent).(status := PREVIEWED, version := 2)
  }

  lemma CreatedAndPreviewed(t: Sys, rent: int)
    requires t.leases == [Home(rent)]
    ensures var n := |t.runs|;
            SysStep(SysStep(t, CreateRun(PERIOD, None, None)).0, PreviewOp(n, 1)).0 == t.(runs := t.runs + [PreviewedRow(rent)])
  {
    OnlyHome(rent);
    var n, draft := |t.runs|, BillingRun(PERIOD, None, RunDraft, None, 0, None, 1);
    assert SysStep(t, CreateRun(PERIOD, None, None)).0 == t.(runs := t.runs + [draft]);
    assert (t.runs + [draft])[n := PreviewedRow(rent)] == t.runs + [PreviewedRow(rent)];
  }

  lemma ApprovedAndRead(t: Sys, n: nat, rent: int)
    requires n < |t.runs| && t.runs[n] == PreviewedRow(rent) && t.commits == map[]
    ensures SysStep(SysStep(t, ApproveOp(n, 2)).0, StartCommitOp(n, n, true, Some(3))).0
         == t.(runs := t.runs[n := ApprovedRow(rent)], commits := map[n := Commit(n, ApprovedRow(rent))])
  {
    assert SysStep(t, ApproveOp(n, 2)).0 == t.(runs := t.runs[n := ApprovedRow(rent)]);
  }

  lemma OnlyHome(rent: int)
    ensures EnsureSchedules([Home(rent)], None) == [Home(rent)]
    ensures PreviewOf([Home(rent)], BillingRun(PERIOD, None, RunDraft, None, 0, None, 1), 1) == Ok(Preview([RentOf(rent)], rent, Some("USD")))
  {
    var row := BillingRun(PERIOD, None, RunDraft, None, 0, None, 1);
    assert PreviewOf([Home(rent)], row, 0) == Ok(Preview([], 0, None));
    assert [] + [RentOf(rent)] == [RentOf(rent)];
  }

  /** A commit of the one rent line in a state that has billed nothing. */
  lemma OneLineCommit(b: Books, chargeIndex: bool, rent: int)
    requires ChargesOk(b, chargeIndex) && rent >= 0 && b.invoices == []
    ensures var r := CommitLines(b, [Home(rent)], chargeIndex, 0, PERIOD, [RentOf(rent)]);
            && !r.aborted && r.failures == 0
            && r.books == b.(entries := r.books.entries, invoices := [PostedInvoice(RentOf(rent), 0, PERIOD)])
  {
    var lines := [RentOf(rent)];
    assert lines[..0] == [];
    assert CommitLines(b, [Home(rent)], chargeIndex, 0, PERIOD, lines[..0]) == LinesResult(b, 0, false);
    DueLinePosts(b, chargeIndex, [Home(rent)], 0, PERIOD, RentOf(rent));
    assert [] + [PostedInvoice(RentOf(rent), 0, PERIOD)] == [PostedInvoice(RentOf(rent), 0, PERIOD)];
  }

  lemma FirstBill(s: Sys, rent: int, row: BillingRun)
    requires SysInv(s) && rent >= 0 && s.leases == [Home(rent)] && s.books.invoices == [] && s.books.notes == []
    requires row == ApprovedRow(rent) && s.commits == map[0 := Commit(0, row)] && |s.runs| == 1
    ensures var t := FinishCommit(s, 0).0;
            && t.leases == s.leases && t.commits == map[] && |t.runs| == 1 && t.books.notes == []
            && t.books.uuidJournals == s.books.uuidJournals && t.chargeIndex == s.chargeIndex
            && t.books.invoices == [PostedInvoice(RentOf(rent), 0, PERIOD)]
  {
    OnlyHome(rent);
    OneLineCommit(s.books, s.chargeIndex, rent);
    assert s.commits - {0} == map[];
  }

  function BillThenVoid(rent: int): seq<SysOp> {
    [SetLease(0, Home(rent))] + Prepare(0) + [FinishCommitOp(0)] + [BooksOp(VoidInvoiceOp(0, 2))]
  }

  lemma AfterBill(tenant: Id, chargeIndex: bool, uuidJournals: bool, rent: int)
    requires rent >= 0
    ensures var t := SysRun(EmptySys(tenant, chargeIndex, uuidJournals), [SetLease(0, Home(rent))] + Prepare(0) + [FinishCommitOp(0)]);
            && SysInv(t) && t.leases == [Home(rent)] && t.commits == map[] && |t.runs| == 1 && t.books.notes == []
            && t.books.uuidJournals == uuidJournals && t.chargeIndex == chargeIndex
            && t.books.invoices == [PostedInvoice(RentOf(rent), 0, PERIOD)]
  {
    var start := EmptySys(tenant, chargeIndex, uuidJournals);
    var ops := [SetLease(0, Home(rent))] + Prepare(0);
    EmptyBooksOk(tenant, uuidJournals);
    SysRunLast(start, [SetLease(0, Home(rent))], [], SetLease(0, Home(rent)));
    Prepared(start, [SetLease(0, Home(rent))], rent);
    SysRunKeepsInv(start, ops);
    SysRunKeepsInv(start, ops + [FinishCommitOp(0)]);
    SysRunLast(start, ops + [FinishCommitOp(0)], ops, FinishCommitOp(0));
    FirstBill(SysRun(start, ops), rent, ApprovedRow(rent));
  }

  lemma AfterVoid(tenant: Id, chargeIndex: bool, uuidJournals: bool, rent: int)
    requires rent >= 0
    ensures var t := SysRun(EmptySys(tenant, chargeIndex, uuidJournals), BillThenVoid(rent));
            && SysInv(t) && t.leases == [Home(rent)] && t.commits == map[] && |t.runs| == 1 && t.chargeIndex == chargeIndex
            && |t.books.invoices| == 1
            && t.books.invoices[0].lease == 0 && t.books.invoices[0].lines == [ChargeLine(RentOf(rent), PERIOD)]
            && t.books.invoices[0].status == if uuidJournals && rent > 0 then POSTED else VOID
  {
    var start := EmptySys(tenant, chargeIndex, uuidJournals);
    var ops := [SetLease(0, Home(rent))] + Prepare(0) + [FinishCommitOp(0)];
    AfterBill(tenant, chargeIndex, uuidJournals, rent);
    var t := SysRun(start, ops);
    SysRunLast(start, BillThenVoid(rent), ops, BooksOp(VoidInvoiceOp(0, 2)));
    SysStepKeepsInv(t, BooksOp(VoidInvoiceOp(0, 2)));
    OneLineTotal(ChargeLine(RentOf(rent), PERIOD));
    VoidSucceedsIff(t.books, 0, 2);
  }

  /** At runs, for every rent: a lease is billed, the invoice is voided, and a new run of the period is
      committed. The void goes through exactly when journal ids may be text or the rent is 0, and with
      the unique index the second commit is refused exactly when it did. */
  lemma VoidedRentIsStuckIff(tenant: Id, chargeIndex: bool, uuidJournals: bool, rent: int)
    requires rent >= 0
    ensures var s := SysRun(EmptySys(tenant, chargeIndex, uuidJournals), BillThenVoid(rent) + Prepare(1));
            && |s.books.invoices| == 1
            && (s.books.invoices[0].status == VOID <==> !uuidJournals || rent == 0)
            && (SysStep(s, FinishCommitOp(1)).1 == Refused(KeyInUse) <==> chargeIndex && (!uuidJournals || rent == 0))
  {
    var start := EmptySys(tenant, chargeIndex, uuidJournals);
    AfterVoid(tenant, chargeIndex, uuidJournals, rent);
    var t := SysRun(start, BillThenVoid(rent));
    Prepared(start, BillThenVoid(rent), rent);
    var s := SysRun(start, BillThenVoid(rent) + Prepare(1));
    EmptyBooksOk(tenant, uuidJournals);
    SysRunKeepsInv(start, BillThenVoid(rent) + Prepare(1));
    SecondCommit(s, rent);
  }

  /** The second commit, on a state whose one invoice carries the charge. */
  lemma SecondCommit(s: Sys, rent: int)
    requires SysInv(s) && s.leases == [Home(rent)] && 1 in s.commits && s.commits[1] == Commit(1, ApprovedRow(rent))
    requires |s.books.invoices| == 1 && s.books.invoices[0].lease == 0 && s.books.invoices[0].lines == [ChargeLine(RentOf(rent), PERIOD)]
    requires s.books.invoices[0].status == POSTED || s.books.invoices[0].status == VOID
    ensures SysStep(s, FinishCommitOp(1)).1 == Refused(KeyInUse) <==> s.chargeIndex && s.books.invoices[0].status == VOID
  {
    OnlyHome(rent);
    CommitRefusedIff(s, 1);
    OneChargeStuck(s.books, rent);
  }

  lemma CommitRefusedIff(s: Sys, call: Id)
    requires SysInv(s) && call in s.commits
    requires LinesToCommit(EnsureSchedules(s.leases, s.commits[call].seen.property), s.commits[call].seen).Ok?
    ensures var seen := s.commits[call].seen;
            var leases := EnsureSchedules(s.leases, seen.property);
            FinishCommit(s, call).1 == Refused(KeyInUse)
            <==> s.chargeIndex && Stuck(s.books, leases, seen.period, LinesToCommit(leases, seen).value.lines)
  {
    CommitOutcome(s, call);
  }

  lemma OneChargeStuck(b: Books, rent: int)
    requires |b.invoices| == 1 && b.invoices[0].lease == 0 && b.invoices[0].lines == [ChargeLine(RentOf(rent), PERIOD)]
    requires b.invoices[0].status == POSTED || b.invoices[0].status == VOID
    ensures Stuck(b, [Home(rent)], PERIOD, [RentOf(rent)]) <==> b.invoices[0].status == VOID
  {
    var line := RentOf(rent);
    assert b.invoices[0].lines[0].chargeKey == line.chargeKey && b.invoices[0].lines[0].period == PERIOD;
    assert KeyTaken(b.invoices, line.chargeKey);
    assert LiveAlready(b, PERIOD, line) <==> b.invoices[0].status == POSTED;
    assert Stuck(b, [Home(rent)], PERIOD, [line]) <==> IsDue(b, [Home(rent)], PERIOD, [line][0]);
  }

  // ----- allocate, credit, allocate again -----

  function ShareOf(amount: int): PreviewLine {
    PreviewLine(0, amount, "USD", Utility(0, PERIOD, "WATER"))
  }

  function Water(amount: int): UtilityOp {
    AllocateOp([Home(0)], AllocationRun(PERIOD, "WATER", AllocationPreviewed, [ShareOf(amount)], amount))
  }

  /** One unit is credited on the first invoice and the note is posted. */
  function CreditOne(): seq<UtilityOp> {
    [OnBooks(CreateNoteOp(1, 0, "USD", [Decimal(1)])), OnBooks(FinishOp(1)), OnBooks(PostNoteOp(2, 0, 1)), OnBooks(FinishOp(2))]
  }

  lemma UtilityRunLast(b: Books, chargeIndex: bool, ops: seq<UtilityOp>, before: seq<UtilityOp>, op: UtilityOp)
    requires ops != [] && ops[..|ops| - 1] == before && ops[|ops| - 1] == op
    ensures UtilityRun(b, chargeIndex, ops) == UtilityStep(UtilityRun(b, chargeIndex, before), chargeIndex, op)
  {
  }

  lemma OneShare(b: Books, chargeIndex: bool, amount: int)
    ensures AllocateLines(b, [Home(0)], chargeIndex, PERIOD, [ShareOf(amount)])
         == match AllocateLine(b, [Home(0)], chargeIndex, PERIOD, ShareOf(amount))
            case Posted(after) => Allocated(after, false)
            case Skipped => Allocated(b, false)
            case _ => Allocated(b, true)
  {
    assert [ShareOf(amount)][..0] == [];
    assert AllocateLines(b, [Home(0)], chargeIndex, PERIOD, [ShareOf(amount)][..0]) == Allocated(b, false);
  }

  lemma FirstShare(tenant: Id, chargeIndex: bool, uuidJournals: bool, amount: int)
    requires amount >= 1
    ensures var start := EmptyBooks(tenant, uuidJournals);
            var b := UtilityStep(start, chargeIndex, Water(amount));
            && Inv(b) && b == start.(entries := b.entries, invoices := [PostedAllocation(ShareOf(amount), PERIOD)])
            && b.invoices[0].balance == amount
  {
    var start := EmptyBooks(tenant, uuidJournals);
    EmptyBooksOk(tenant, uuidJournals);
    OneShare(start, chargeIndex, amount);
    AllocationPosts(start, [Home(0)], chargeIndex, PERIOD, ShareOf(amount));
    OneLineTotal(ChargeLine(ShareOf(amount), PERIOD));
    assert [] + [PostedAllocation(ShareOf(amount), PERIOD)] == [PostedAllocation(ShareOf(amount), PERIOD)];
  }

  const ONE_NOTE := CreditNote(0, 0, NoteDraft, "USD", 1, 1)

  lemma NoteDrafted(b: Books, amount: int)
    requires Inv(b) && amount >= 1 && b.calls == map[] && b.notes == []
    requires b.invoices == [PostedAllocation(ShareOf(amount), PERIOD)] && b.invoices[0].balance == amount
    ensures Step(Step(b, CreateNoteOp(1, 0, "USD", [Decimal(1)])).0, FinishOp(1)).0 == b.(notes := [ONE_NOTE])
  {
    assert [Decimal(1)][..0] == [];
    assert SumRounded([Decimal(1)]) == SumRounded([]) + 1;
    assert Step(b, CreateNoteOp(1, 0, "USD", [Decimal(1)])).0 == b.(calls := map[1 := CreatingNote(0, 0, "USD", 1)]);
    assert map[1 := CreatingNote(0, 0, "USD", 1)] - {1} == map[];
    assert [] + [ONE_NOTE] == [ONE_NOTE];
  }

  lemma NoteTaken(b: Books)
    requires Inv(b) && b.calls == map[] && b.notes == [ONE_NOTE] && |b.invoices| == 1 && b.invoices[0].balance >= 1
    ensures var after := Step(Step(b, PostNoteOp(2, 0, 1)).0, FinishOp(2)).0;
            && after.calls == map[] && |after.invoices| == 1
            && after.invoices[0].lines == b.invoices[0].lines && after.invoices[0].lease == b.invoices[0].lease
            && (after.invoices[0].status == PAID || after.invoices[0].status == PARTIALLY_PAID)
  {
    assert Step(b, PostNoteOp(2, 0, 1)).0 == b.(calls := map[2 := PostingNote(0, ONE_NOTE)]);
    assert map[2 := PostingNote(0, ONE_NOTE)] - {2} == map[];
    NotePostsIff(b, 0);
  }

  lemma CreditDrafted(tenant: Id, chargeIndex: bool, uuidJournals: bool, amount: int)
    requires amount >= 1
    ensures var b := UtilityRun(EmptyBooks(tenant, uuidJournals), chargeIndex, ([Water(amount)] + CreditOne())[..3]);
            && Inv(b) && b.calls == map[] && b.notes == [ONE_NOTE]
            && b.invoices == [PostedAllocation(ShareOf(amount), PERIOD)] && b.invoices[0].balance == amount
  {
    var start, ops := EmptyBooks(tenant, uuidJournals), [Water(amount)] + CreditOne();
    UtilityRunLast(start, chargeIndex, [Water(amount)], [], Water(amount));
    FirstShare(tenant, chargeIndex, uuidJournals, amount);
    var b := UtilityRun(start, chargeIndex, [Water(amount)]);
    UtilityRunLast(start, chargeIndex, ops[..2], [Water(amount)], ops[1]);
    UtilityRunLast(start, chargeIndex, ops[..3], ops[..2], ops[2]);
    NoteDrafted(b, amount);
    StepKeepsInv(b, CreateNoteOp(1, 0, "USD", [Decimal(1)]));
    StepKeepsInv(Step(b, CreateNoteOp(1, 0, "USD", [Decimal(1)])).0, FinishOp(1));
  }

  lemma Credited(tenant: Id, chargeIndex: bool, uuidJournals: bool, amount: int)
    requires amount >= 1
    ensures var b := UtilityRun(EmptyBooks(tenant, uuidJournals), chargeIndex, [Water(amount)] + CreditOne());
            && Inv(b) && |b.invoices| == 1 && b.invoices[0].lease == 0 && b.invoices[0].lines == [ChargeLine(ShareOf(amount), PERIOD)]
            && (b.invoices[0].status == PAID || b.invoices[0].status == PARTIALLY_PAID)
  {
    var start, ops := EmptyBooks(tenant, uuidJournals), [Water(amount)] + CreditOne();
    EmptyBooksOk(tenant, uuidJournals);
    UtilityRunKeepsInv(start, chargeIndex, ops);
    CreditDrafted(tenant, chargeIndex, uuidJournals, amount);
    UtilityRunLast(start, chargeIndex, ops[..4], ops[..3], ops[3]);
    UtilityRunLast(start, chargeIndex, ops, ops[..4], ops[4]);
    NoteTaken(UtilityRun(start, chargeIndex, ops[..3]));
  }

  /** At runs, for every amount: a share is billed, one unit of it is credited, and a second commit of the
      allocation goes on with the run row it read before the first was done. Without the unique index
      the charge is then on two live invoices; with it the second commit is refused. */
  lemma CreditedShareBilledAgain(tenant: Id, chargeIndex: bool, uuidJournals: bool, amount: int)
    requires amount >= 1
    ensures var b := UtilityRun(EmptyBooks(tenant, uuidJournals), chargeIndex, [Water(amount)] + CreditOne());
            var (after, reply) := CommitAllocation(b, [Home(0)], chargeIndex, Water(amount).seen);
            if chargeIndex then reply == Refused(KeyInUse) && after == b
            else && reply == Changed && |after.invoices| == 2
                 && (forall i :: 0 <= i < 2 ==> after.invoices[i].status in {POSTED, PARTIALLY_PAID, PAID} && after.invoices[i].lines == [ChargeLine(ShareOf(amount), PERIOD)])
  {
    Credited(tenant, chargeIndex, uuidJournals, amount);
    SecondShare(UtilityRun(EmptyBooks(tenant, uuidJournals), chargeIndex, [Water(amount)] + CreditOne()), chargeIndex, amount);
  }

  lemma SecondShare(b: Books, chargeIndex: bool, amount: int)
    requires Inv(b) && amount >= 1 && |b.invoices| == 1 && b.invoices[0].lines == [ChargeLine(ShareOf(amount), PERIOD)]
    requires b.invoices[0].status == PAID || b.invoices[0].status == PARTIALLY_PAID
    ensures var (after, reply) := CommitAllocation(b, [Home(0)], chargeIndex, Water(amount).seen);
            if chargeIndex then reply == Refused(KeyInUse) && after == b
            else && reply == Changed && |after.invoices| == 2
                 && (forall i :: 0 <= i < 2 ==> IsLive(after.invoices[i].status) && after.invoices[i].lines == [ChargeLine(ShareOf(amount), PERIOD)])
  {
    var share := ShareOf(amount);
    assert b.invoices[0].lines[0].chargeKey == share.chargeKey;
    assert KeyTaken(b.invoices, share.chargeKey);
    OneShare(b, chargeIndex, amount);
    if !chargeIndex { AllocationPosts(b, [Home(0)], chargeIndex, PERIOD, share); }
  }
}
