/** Billing runs (billing-run.service.ts). */
module BillingRuns {
  import opened Prelude
  import opened Money
  import opened Ledger
  import opened Invoices

  // Preview, approval, and the commit that posts one rent invoice per lease and period.
  //
  // A commit is two steps: the run row is read without a lock; everything after the advisory lock,
  // which re-reads all other tables, is one step that works on the row as it was read. Leases are
  // numbered by position. `chargeIndex` says whether the unique index on (tenant, charge key) is
  // there; it is in the schema, but the safety results do not need it.

  datatype Term = Term(rent: int, currency: string)

  datatype Lease = Lease(
    deleted: bool, running: bool,   // status ACTIVE or NOTICE
    property: Id, occupied: bool, scheduled: bool, term: Option<Term>, parties: seq<bool>) // true: primary leaseholder

  datatype PreviewLine = PreviewLine(lease: Id, amount: int, currency: string, chargeKey: ChargeKey)

  datatype RunStatus = RunDraft | PREVIEWED | APPROVED | COMPLETED | FAILED | PARTIAL

  datatype BillingRun = BillingRun(
    period: string, property: Option<Id>, status: RunStatus, preview: Option<seq<PreviewLine>>, totals: int,
    currency: Option<string>, version: nat)

  datatype Preview = Preview(lines: seq<PreviewLine>, totals: int, currency: Option<string>)

  /** A commit that has read its run and not yet taken the lock. */
  datatype Commit = Commit(run: Id, seen: BillingRun)

  datatype Sys = Sys(books: Books, leases: seq<Lease>, runs: seq<BillingRun>, commits: map<Id, Commit>, chargeIndex: bool)

  // ----- preview -----

  predicate InScope(lease: Lease, property: Option<Id>) {
    !lease.deleted && lease.running && (property.Some? ==> lease.property == property.value)
  }

  predicate Previewed(lease: Lease, property: Option<Id>) {
    InScope(lease, property) && (lease.occupied || lease.scheduled) && lease.term.Some?
  }

  function AddToPreview(p: Result<Preview, Refusal>, id: Id, lease: Lease, run: BillingRun): Result<Preview, Refusal> {
    if p.Err? || !Previewed(lease, run.property) then p
    else
      var term := lease.term.value;
      if p.value.currency.Some? && p.value.currency.value != term.currency then Err(CurrencyMismatch)
      else Ok(Preview(p.value.lines + [PreviewLine(id, term.rent, term.currency, Rent(id, run.period))],
                      p.value.totals + term.rent, Some(term.currency)))
  }

  /** The rent lines of a run over the first n leases. */
  function PreviewOf(leases: seq<Lease>, run: BillingRun, n: nat): Result<Preview, Refusal>
    requires n <= |leases|
  {
    if n == 0 then Ok(Preview([], 0, run.currency))
    else AddToPreview(PreviewOf(leases, run, n - 1), n - 1, leases[n - 1], run)
  }

  method BuildPreview(leases: seq<Lease>, run: BillingRun) returns (result: Result<Preview, Refusal>)
    ensures result == PreviewOf(leases, run, |leases|)
  {
    var lines: seq<PreviewLine> := [];
    var totals := 0;
    var currency := run.currency;
    for i := 0 to |leases|
      invariant PreviewOf(leases, run, i) == Ok(Preview(lines, totals, currency))
    {
      if Previewed(leases[i], run.property) {
        var term := leases[i].term.value;
        if currency.None? {
          currency := Some(term.currency);
        } else if currency.value != term.currency {
          PreviewError(leases, run, i + 1, |leases|);
          return Err(CurrencyMismatch);
        }
        totals := totals + term.rent;
        lines := lines + [PreviewLine(i, term.rent, term.currency, Rent(i, run.period))];
      }
    }
    return Ok(Preview(lines, totals, currency));
  }

  lemma {:induction false} PreviewError(leases: seq<Lease>, run: BillingRun, n: nat, m: nat)
    requires n <= m <= |leases| && PreviewOf(leases, run, n).Err?
    ensures PreviewOf(leases, run, m) == PreviewOf(leases, run, n)
  {
    if n < m { PreviewError(leases, run, n, m - 1); }
  }

  // ----- which leases a run bills -----

  predicate HasLease(lines: seq<PreviewLine>, id: Id) {
    exists k :: 0 <= k < |lines| && lines[k].lease == id
  }

  lemma HasLeaseStep(lines: seq<PreviewLine>, line: PreviewLine, id: Id)
    ensures HasLease(lines + [line], id) <==> HasLease(lines, id) || line.lease == id
  {
    var all := lines + [line];
    assert all[|lines|] == line;
    if HasLease(lines, id) {
      var k :| 0 <= k < |lines| && lines[k].lease == id;
      assert all[k].lease == id;
    }
  }

  /** A preview has a line for lease i exactly when it is a lease in force, of the run's property if the
      run has one, occupied or with a schedule, and has a current term. */
  lemma {:induction false} PreviewedIff(leases: seq<Lease>, run: BillingRun, n: nat, i: Id)
    requires n <= |leases| && PreviewOf(leases, run, n).Ok?
    ensures HasLease(PreviewOf(leases, run, n).value.lines, i)
            <==> && i < n && !leases[i].deleted && leases[i].running && (leases[i].occupied || leases[i].scheduled)
                 && leases[i].term.Some? && (run.property.Some? ==> leases[i].property == run.property.value)
  {
    if n > 0 {
      PreviewedIff(leases, run, n - 1, i);
      var before, p := PreviewOf(leases, run, n - 1), PreviewOf(leases, run, n);
      if p != before {
        HasLeaseStep(before.value.lines, p.value.lines[|p.value.lines| - 1], i);
      }
    }
  }

  /** And each line is for the rent and in the currency of its lease's term. */
  lemma {:induction false} PreviewedAtTerm(leases: seq<Lease>, run: BillingRun, n: nat)
    requires n <= |leases| && PreviewOf(leases, run, n).Ok?
    ensures forall k :: 0 <= k < |PreviewOf(leases, run, n).value.lines| ==>
              var line := PreviewOf(leases, run, n).value.lines[k];
              line.lease < n && leases[line.lease].term == Some(Term(line.amount, line.currency))
  {
    if n > 0 {
      PreviewedAtTerm(leases, run, n - 1);
    }
  }

  /** Every lease a run of the first n leases bills is in currency c, and so is the run if it has one. */
  ghost predicate OneCurrency(leases: seq<Lease>, run: BillingRun, n: nat, c: string)
    requires n <= |leases|
  {
    && (run.currency.Some? ==> run.currency.value == c)
    && forall i :: 0 <= i < n && !leases[i].deleted && leases[i].running && (leases[i].occupied || leases[i].scheduled)
                   && leases[i].term.Some? && (run.property.Some? ==> leases[i].property == run.property.value)
         ==> leases[i].term.value.currency == c
  }

  lemma {:induction false} OneCurrencyGoesThrough(leases: seq<Lease>, run: BillingRun, n: nat, c: string)
    requires n <= |leases| && OneCurrency(leases, run, n, c)
    ensures var p := PreviewOf(leases, run, n); p.Ok? && (p.value.currency.None? || p.value.currency == Some(c))
  {
    if n > 0 { OneCurrencyGoesThrough(leases, run, n - 1, c); }
  }

  lemma {:induction false} PreviewHasOneCurrency(leases: seq<Lease>, run: BillingRun, n: nat, c: string)
    requires n <= |leases| && PreviewOf(leases, run, n).Ok?
    requires PreviewOf(leases, run, n).value.currency.None? || PreviewOf(leases, run, n).value.currency == Some(c)
    ensures OneCurrency(leases, run, n, c)
  {
    if n > 0 {
      PreviewHasOneCurrency(leases, run, n - 1, c);
    }
  }

  /** A preview goes through exactly when all it would bill is in one currency, the run's if it has one. */
  lemma PreviewOkIff(leases: seq<Lease>, run: BillingRun)
    ensures PreviewOf(leases, run, |leases|).Ok? <==> exists c: string :: OneCurrency(leases, run, |leases|, c)
  {
    var p := PreviewOf(leases, run, |leases|);
    if p.Ok? {
      PreviewHasOneCurrency(leases, run, |leases|, if p.value.currency.Some? then p.value.currency.value else "");
    }
    if c: string :| OneCurrency(leases, run, |leases|, c) {
      OneCurrencyGoesThrough(leases, run, |leases|, c);
    }
  }

  // ----- one preview line -----

  predicate IsLive(status: InvoiceStatus) {
    status == POSTED || status == PARTIALLY_PAID || status == PAID
  }

  /** The look-up of upsertAndPostPreviewLine: the charge is on a live invoice of the lease. */
  predicate HasLiveLine(invoices: seq<Invoice>, lease: Id, key: ChargeKey, period: string) {
    exists i, l :: 0 <= i < |invoices| && 0 <= l < |invoices[i].lines|
                   && invoices[i].lease == lease && IsLive(invoices[i].status)
                   && invoices[i].lines[l].chargeKey == key && invoices[i].lines[l].period == period
  }

  /** Some invoice line, whatever its invoice's status, has the key. */
  predicate KeyTaken(invoices: seq<Invoice>, key: ChargeKey) {
    exists i, l :: 0 <= i < |invoices| && 0 <= l < |invoices[i].lines| && invoices[i].lines[l].chargeKey == key
  }

  predicate Billable(leases: seq<Lease>, lease: Id) {
    lease < |leases| && !leases[lease].deleted && leases[lease].parties != []
  }

  /** The draft of this lease, run and period that comes first, from a position on. */
  function FindDraft(invoices: seq<Invoice>, lease: Id, run: Id, period: string, from: nat): (r: nat)
    requires from <= |invoices|
    ensures from <= r <= |invoices|
    ensures r < |invoices| ==> invoices[r].status == DRAFT && invoices[r].run == Some(run)
                               && invoices[r].lease == lease && invoices[r].period == period
    ensures forall k :: from <= k < r ==>
              !(invoices[k].status == DRAFT && invoices[k].run == Some(run) && invoices[k].lease == lease && invoices[k].period == period)
    decreases |invoices| - from
  {
    if from == |invoices| then from
    else if invoices[from].lease == lease && invoices[from].run == Some(run) && invoices[from].period == period
            && invoices[from].status == DRAFT then from
    else FindDraft(invoices, lease, run, period, from + 1)
  }

  function ChargeLine(line: PreviewLine, period: string): InvoiceLine {
    InvoiceLine(line.chargeKey, period, line.amount, 0)
  }

  function NewInvoice(line: PreviewLine, run: Id, period: string): Invoice {
    Invoice(line.lease, Some(run), period, DRAFT, line.currency, [ChargeLine(line, period)], line.amount, 0, line.amount, line.amount, 1)
  }

  predicate HasKey(lines: seq<InvoiceLine>, key: ChargeKey) {
    exists l :: 0 <= l < |lines| && lines[l].chargeKey == key
  }

  datatype LineOutcome = Skipped | Posted(books: Books) | Failed | Aborted

  /** Failed is an exception the loop records; Aborted is a refused statement, after which the
      database accepts nothing more in this transaction. */
  function UpsertLine(b: Books, leases: seq<Lease>, chargeIndex: bool, run: Id, period: string, line: PreviewLine): LineOutcome {
    if HasLiveLine(b.invoices, line.lease, line.chargeKey, period) then Skipped
    else if !Billable(leases, line.lease) then Failed
    else
      var d := FindDraft(b.invoices, line.lease, run, period, 0);
      if d == |b.invoices| then
        if chargeIndex && KeyTaken(b.invoices, line.chargeKey) then Aborted
        else PostRow(b.(invoices := b.invoices + [NewInvoice(line, run, period)]), d)
      else if HasKey(b.invoices[d].lines, line.chargeKey) then PostRow(b, d)
      else if chargeIndex && KeyTaken(b.invoices, line.chargeKey) then Aborted
      else
        var lines := b.invoices[d].lines + [ChargeLine(line, period)];
        PostRow(b.(invoices := b.invoices[d := b.invoices[d].(lines := lines, subtotal := SumTotals(lines), total := SumTotals(lines),
                                                               balance := SumTotals(lines))]), d)
  }

  function PostRow(b: Books, id: Id): LineOutcome
    requires id < |b.invoices|
  {
    var (after, reply) := WritePosted(b, id, b.invoices[id]);
    if reply == Changed then Posted(after) else Aborted
  }

  // ----- the commit -----

  datatype LinesResult = LinesResult(books: Books, failures: nat, aborted: bool)

  function AfterLine(before: LinesResult, outcome: LineOutcome): LinesResult {
    match outcome
    case Skipped => before
    case Posted(after) => before.(books := after)
    case Failed => before.(failures := before.failures + 1)
    case Aborted => before.(aborted := true)
  }

  function CommitLines(b: Books, leases: seq<Lease>, chargeIndex: bool, run: Id, period: string, lines: seq<PreviewLine>): LinesResult {
    if lines == [] then LinesResult(b, 0, false)
    else
      var before := CommitLines(b, leases, chargeIndex, run, period, lines[..|lines| - 1]);
      if before.aborted then before
      else AfterLine(before, UpsertLine(before.books, leases, chargeIndex, run, period, lines[|lines| - 1]))
  }

  function EnsureSchedules(leases: seq<Lease>, property: Option<Id>): seq<Lease> {
    seq(|leases|, i requires 0 <= i < |leases| =>
      if InScope(leases[i], property) then leases[i].(scheduled := true) else leases[i])
  }

  function FinalStatus(failures: nat, lines: nat): RunStatus {
    if failures == 0 then COMPLETED else if failures == lines then FAILED else PARTIAL
  }

  function StartCommit(s: Sys, call: Id, run: Id, requireApproved: bool, expectedVersion: Option<nat>): (Sys, Reply) {
    if call in s.commits then (s, Refused(Busy))
    else if run >= |s.runs| then (s, Refused(NotFound))
    else
      var row := s.runs[run];
      if row.status == COMPLETED then (s, Unchanged)
      else if expectedVersion.Some? && row.version != expectedVersion.value then (s, Refused(VersionMismatch))
      else if requireApproved && row.status != APPROVED && row.status != FAILED && row.status != PARTIAL then (s, Refused(NotPosted))
      else (s.(commits := s.commits[call := Commit(run, row)]), Waiting)
  }

  /** The lines a commit works through: those of the preview it read, or freshly built ones. */
  function LinesToCommit(leases: seq<Lease>, seen: BillingRun): Result<Preview, Refusal> {
    if seen.preview.None? || seen.preview.value == [] then PreviewOf(leases, seen, |leases|)
    else Ok(Preview(seen.preview.value, seen.totals, seen.currency))
  }

  function FinishCommit(s: Sys, call: Id): (Sys, Reply) {
    if call !in s.commits then (s, Refused(NotFound))
    else
      var rest := s.(commits := s.commits - {call});
      var Commit(run, seen) := s.commits[call];
      if run >= |s.runs| then (rest, Refused(NotFound))
      else
        var leases := EnsureSchedules(s.leases, seen.property);
        match LinesToCommit(leases, seen)
        case Err(e) => (rest, Refused(e))
        case Ok(preview) =>
          var result := CommitLines(s.books, leases, s.chargeIndex, run, seen.period, preview.lines);
          if result.aborted then (rest, Refused(KeyInUse))
          else
            (rest.(books := result.books, leases := leases,
                   runs := s.runs[run := CommittedRow(s.runs[run], seen, preview, result.failures)]), Changed)
  }

  /** The run row after a commit; a preview is stored with it if the commit had to build one. */
  function CommittedRow(row: BillingRun, seen: BillingRun, preview: Preview, failures: nat): BillingRun {
    var done := row.(status := FinalStatus(failures, |preview.lines|), version := row.version + 2);
    if seen.preview.None? || seen.preview.value == []
    then done.(preview := Some(preview.lines), totals := preview.totals, currency := preview.currency)
    else done
  }

  function PreviewRun(s: Sys, run: Id, expectedVersion: nat): (Sys, Reply) {
    if run >= |s.runs| then (s, Refused(NotFound))
    else
      var row := s.runs[run];
      if row.version != expectedVersion then (s, Refused(VersionMismatch))
      else if row.status == COMPLETED then (s, Refused(NotDraft))
      else
        match PreviewOf(s.leases, row, |s.leases|)
        case Err(e) => (s, Refused(e))
        case Ok(p) => (s.(runs := s.runs[run := row.(status := PREVIEWED, preview := Some(p.lines), totals := p.totals,
                                                     currency := p.currency, version := row.version + 1)]), Changed)
  }

  function ApproveRun(s: Sys, run: Id, expectedVersion: nat): (Sys, Reply) {
    if run >= |s.runs| then (s, Refused(NotFound))
    else
      var row := s.runs[run];
      if row.version != expectedVersion then (s, Refused(VersionMismatch))
      else if row.status != PREVIEWED && row.status != APPROVED then (s, Refused(NotPosted))
      else (s.(runs := s.runs[run := row.(status := APPROVED, version := row.version + 1)]), Changed)
  }

  datatype SysOp =
    | BooksOp(op: Op)
    | SetLease(lease: Id, row: Lease)
    | CreateRun(period: string, property: Option<Id>, currency: Option<string>)
    | PreviewOp(run: Id, expectedVersion: nat)
    | ApproveOp(run: Id, expectedVersion: nat)
    | StartCommitOp(call: Id, run: Id, requireApproved: bool, pin: Option<nat>)
    | FinishCommitOp(call: Id)
    | StopCommitOp(call: Id)

  function SysStep(s: Sys, op: SysOp): (Sys, Reply) {
    match op
    case BooksOp(o) =>
      if o.AddDraft? && s.chargeIndex && ClashingDraft(s.books.invoices, o.draft.lines) then (s, Refused(KeyInUse))
      else var (b, reply) := Step(s.books, o); (s.(books := b), reply)
    case SetLease(lease, row) =>
      if lease < |s.leases| then (s.(leases := s.leases[lease := row]), Changed)
      else (s.(leases := s.leases + [row]), Changed)
    case CreateRun(period, property, currency) =>
      (s.(leases := EnsureSchedules(s.leases, property),
          runs := s.runs + [BillingRun(period, property, RunDraft, None, 0, currency, 1)]), Changed)
    case PreviewOp(run, v) => PreviewRun(s, run, v)
    case ApproveOp(run, v) => ApproveRun(s, run, v)
    case StartCommitOp(call, run, requireApproved, pin) => StartCommit(s, call, run, requireApproved, pin)
    case FinishCommitOp(call) => FinishCommit(s, call)
    case StopCommitOp(call) => (s.(commits := s.commits - {call}), Changed)
  }

  predicate ClashingDraft(invoices: seq<Invoice>, lines: seq<InvoiceLine>) {
    || (exists l :: 0 <= l < |lines| && KeyTaken(invoices, lines[l].chargeKey))
    || (exists l, m :: 0 <= l < m < |lines| && lines[l].chargeKey == lines[m].chargeKey)
  }

  function SysRun(s: Sys, ops: seq<SysOp>): Sys {
    if ops == [] then s else SysStep(SysRun(s, ops[..|ops| - 1]), ops[|ops| - 1]).0
  }

  // ----- the service -----

  class BillingRunTables {
    const tables: InvoiceTables
    var leases: seq<Lease>
    var runs: seq<BillingRun>
    var commits: map<Id, Commit>
    const chargeIndex: bool

    constructor (s: Sys)
      ensures Snapshot() == s && fresh(tables) && fresh(tables.ledger)
    {
      leases, runs, commits, chargeIndex := s.leases, s.runs, s.commits, s.chargeIndex;
      tables := new InvoiceTables(s.books);
    }

    function Snapshot(): Sys
      reads this, tables, tables.ledger
    {
      Sys(tables.Snapshot(), leases, runs, commits, chargeIndex)
    }

    method UpsertAndPostPreviewLine(run: Id, period: string, line: PreviewLine) returns (ghost outcome: LineOutcome, failed: bool, aborted: bool)
      modifies tables, tables.ledger
      ensures outcome == UpsertLine(old(tables.Snapshot()), leases, chargeIndex, run, period, line)
      ensures failed == outcome.Failed? && aborted == outcome.Aborted?
      ensures outcome.Posted? ==> tables.Snapshot() == outcome.books
      ensures outcome.Skipped? || outcome.Failed? ==> tables.Snapshot() == old(tables.Snapshot())
    {
      ghost var b := tables.Snapshot();
      outcome := UpsertLine(b, leases, chargeIndex, run, period, line);
      failed, aborted := false, false;
      if HasLiveLine(tables.invoices, line.lease, line.chargeKey, period) {
        return;
      }
      if !Billable(leases, line.lease) {
        failed := true;
        return;
      }
      var d := FindDraft(tables.invoices, line.lease, run, period, 0);
      if d == |tables.invoices| {
        if chargeIndex && KeyTaken(tables.invoices, line.chargeKey) {
          aborted := true;
          return;
        }
        tables.invoices := tables.invoices + [NewInvoice(line, run, period)];
      } else if !HasKey(tables.invoices[d].lines, line.chargeKey) {
        if chargeIndex && KeyTaken(tables.invoices, line.chargeKey) {
          aborted := true;
          return;
        }
        var lines := tables.invoices[d].lines + [ChargeLine(line, period)];
        var subtotal, _, _ := RecomputeTotals(lines);
        tables.invoices := tables.invoices[d := tables.invoices[d].(lines := lines, subtotal := subtotal, total := subtotal, balance := subtotal)];
      }
      var reply := tables.PostDraftInvoiceInTransaction(d);
      aborted := reply != Changed;
    }

    /** The loop over the preview lines; an aborted statement ends it, since every later one fails. */
    method CommitPreviewLines(run: Id, period: string, lines: seq<PreviewLine>) returns (failures: nat, aborted: bool)
      modifies tables, tables.ledger
      ensures var r := CommitLines(old(tables.Snapshot()), leases, chargeIndex, run, period, lines);
              && aborted == r.aborted && (!aborted ==> failures == r.failures && tables.Snapshot() == r.books)
    {
      failures, aborted := 0, false;
      ghost var b := tables.Snapshot();
      for i := 0 to |lines|
        invariant !aborted
        invariant CommitLines(b, leases, chargeIndex, run, period, lines[..i]) == LinesResult(tables.Snapshot(), failures, false)
      {
        assert lines[..i + 1][..i] == lines[..i];
        ghost var outcome;
        var failed;
        outcome, failed, aborted := UpsertAndPostPreviewLine(run, period, lines[i]);
        if aborted {
          AbortSticks(b, leases, chargeIndex, run, period, lines, i + 1);
          return;
        }
        if failed {
          failures := failures + 1;
        }
      }
      assert lines[..|lines|] == lines;
    }

    /** The loop as part of its transaction: aborted, it puts every table back. */
    method PostOrRollBack(run: Id, period: string, lines: seq<PreviewLine>) returns (failures: nat, aborted: bool)
      modifies tables, tables.ledger
      ensures var r := CommitLines(old(tables.Snapshot()), leases, chargeIndex, run, period, lines);
              && aborted == r.aborted
              && tables.Snapshot() == (if aborted then old(tables.Snapshot()) else r.books)
              && (!aborted ==> failures == r.failures)
    {
      var savedInvoices, savedEntries := tables.invoices, tables.ledger.entries;
      var savedNotes, savedCalls := tables.notes, tables.calls;
      failures, aborted := CommitPreviewLines(run, period, lines);
      if aborted {
        tables.invoices, tables.notes, tables.calls, tables.ledger.entries := savedInvoices, savedNotes, savedCalls, savedEntries;
      }
    }

    method ReadOrBuildPreview(all: seq<Lease>, seen: BillingRun) returns (result: Result<Preview, Refusal>)
      ensures result == LinesToCommit(all, seen)
    {
      if seen.preview.None? || seen.preview.value == [] {
        result := BuildPreview(all, seen);
      } else {
        result := Ok(Preview(seen.preview.value, seen.totals, seen.currency));
      }
    }

    method EnsureSchedulesForScope(property: Option<Id>)
      modifies this`leases
      ensures leases == EnsureSchedules(old(leases), property)
    {
      for i := 0 to |leases|
        invariant |leases| == |old(leases)|
        invariant forall k :: 0 <= k < |leases| ==>
                    leases[k] == if k < i then EnsureSchedules(old(leases), property)[k] else old(leases)[k]
      {
        if InScope(leases[i], property) {
          leases := leases[i := leases[i].(scheduled := true)];
        }
      }
    }

    method PreviewBillingRun(run: Id, expectedVersion: nat) returns (reply: Reply)
      modifies this`runs
      ensures (Snapshot(), reply) == PreviewRun(old(Snapshot()), run, expectedVersion)
    {
      if run >= |runs| { return Refused(NotFound); }
      var row := runs[run];
      if row.version != expectedVersion { return Refused(VersionMismatch); }
      if row.status == COMPLETED { return Refused(NotDraft); }
      var preview := BuildPreview(leases, row);
      if preview.Err? { return Refused(preview.error); }
      runs := runs[run := row.(status := PREVIEWED, preview := Some(preview.value.lines), totals := preview.value.totals,
                               currency := preview.value.currency, version := row.version + 1)];
      return Changed;
    }

    method ApproveBillingRun(run: Id, expectedVersion: nat) returns (reply: Reply)
      modifies this`runs
      ensures (Snapshot(), reply) == ApproveRun(old(Snapshot()), run, expectedVersion)
    {
      if run >= |runs| { return Refused(NotFound); }
      var row := runs[run];
      if row.version != expectedVersion { return Refused(VersionMismatch); }
      if row.status != PREVIEWED && row.status != APPROVED { return Refused(NotPosted); }
      runs := runs[run := row.(status := APPROVED, version := row.version + 1)];
      return Changed;
    }

    /** executeCommit up to the lock: the run row is read and checked. */
    method ReadRun(call: Id, run: Id, requireApproved: bool, expectedVersion: Option<nat>) returns (reply: Reply)
      modifies this`commits
      ensures (Snapshot(), reply) == StartCommit(old(Snapshot()), call, run, requireApproved, expectedVersion)
    {
      if call in commits { return Refused(Busy); }
      if run >= |runs| { return Refused(NotFound); }
      var row := runs[run];
      if row.status == COMPLETED { return Unchanged; }
      if expectedVersion.Some? && row.version != expectedVersion.value { return Refused(VersionMismatch); }
      if requireApproved && row.status != APPROVED && row.status != FAILED && row.status != PARTIAL { return Refused(NotPosted); }
      commits := commits[call := Commit(run, row)];
      return Waiting;
    }

    /** executeCommit from the lock on. */
    method ExecuteCommit(call: Id) returns (reply: Reply)
      modifies this, tables, tables.ledger
      ensures (Snapshot(), reply) == FinishCommit(old(Snapshot()), call)
    {
      if call !in commits { return Refused(NotFound); }
      var Commit(run, seen) := commits[call];
      commits := commits - {call};
      if run >= |runs| { return Refused(NotFound); }
      var savedLeases := leases;
      EnsureSchedulesForScope(seen.property);
      var preview := ReadOrBuildPreview(leases, seen);
      if preview.Err? {
        leases := savedLeases;
        return Refused(preview.error);
      }
      var lines := preview.value.lines;
      var failures, aborted := PostOrRollBack(run, seen.period, lines);
      if aborted {
        leases := savedLeases;
        return Refused(KeyInUse);
      }
      var row := UpdateRow(runs[run], seen, preview.value, failures);
      runs := runs[run := row];
      return Changed;
    }

    /** The updates of the run row in one transaction. */
    static method UpdateRow(before: BillingRun, seen: BillingRun, preview: Preview, failures: nat) returns (row: BillingRun)
      ensures row == CommittedRow(before, seen, preview, failures)
    {
      row := before.(version := before.version + 1); // COMMITTING
      if seen.preview.None? || seen.preview.value == [] {
        row := row.(preview := Some(preview.lines), totals := preview.totals, currency := preview.currency);
      }
      var finalStatus := if failures == 0 then COMPLETED else if failures == |preview.lines| then FAILED else PARTIAL;
      row := row.(status := finalStatus, version := row.version + 1);
    }
  }

  lemma {:induction false} AbortSticks(b: Books, leases: seq<Lease>, chargeIndex: bool, run: Id, period: string, lines: seq<PreviewLine>, n: nat)
    requires n <= |lines| && CommitLines(b, leases, chargeIndex, run, period, lines[..n]).aborted
    ensures CommitLines(b, leases, chargeIndex, run, period, lines).aborted
    decreases |lines|
  {
    if n < |lines| {
      assert lines[..|lines| - 1][..n] == lines[..n];
      AbortSticks(b, leases, chargeIndex, run, period, lines[..|lines| - 1], n);
    } else {
      assert lines[..n] == lines;
    }
  }

  // ----- rent charges on invoices -----

  predicate CarriesRent(inv: Invoice) {
    exists l :: 0 <= l < |inv.lines| && inv.lines[l].chargeKey.Rent?
  }

  /** A rent charge names the lease of its invoice and the period of its line. */
  ghost predicate RentInPlace(inv: Invoice) {
    forall l :: 0 <= l < |inv.lines| && inv.lines[l].chargeKey.Rent? ==>
      inv.lines[l].chargeKey == Rent(inv.lease, inv.lines[l].period)
  }

  /** No rent charge is on two live invoice lines. */
  ghost predicate RentOnce(invoices: seq<Invoice>) {
    forall i, j, l, m ::
      (&& 0 <= i < |invoices| && 0 <= l < |invoices[i].lines| && IsLive(invoices[i].status)
       && 0 <= j < |invoices| && 0 <= m < |invoices[j].lines| && IsLive(invoices[j].status)
       && invoices[i].lines[l].chargeKey.Rent?
       && invoices[i].lines[l].chargeKey == invoices[j].lines[m].chargeKey)
      ==> i == j && l == m
  }

  /** No charge key at all is on two invoice lines. */
  ghost predicate KeysOnce(invoices: seq<Invoice>) {
    forall i, j, l, m ::
      (&& 0 <= i < |invoices| && 0 <= l < |invoices[i].lines|
       && 0 <= j < |invoices| && 0 <= m < |invoices[j].lines|
       && invoices[i].lines[l].chargeKey == invoices[j].lines[m].chargeKey)
      ==> i == j && l == m
  }

  ghost predicate ChargesOk(b: Books, chargeIndex: bool) {
    && Inv(b)
    && (forall i :: 0 <= i < |b.invoices| ==> RentInPlace(b.invoices[i]))
    && (forall i :: 0 <= i < |b.invoices| && b.invoices[i].status == DRAFT ==> b.invoices[i].run.None? && !CarriesRent(b.invoices[i]))
    && (forall c :: c in b.calls && b.calls[c].PostingInvoice? ==> b.calls[c].id < |b.invoices| && !CarriesRent(b.invoices[b.calls[c].id]))
    && RentOnce(b.invoices)
    && (chargeIndex ==> KeysOnce(b.invoices))
  }

  /** A preview line as buildPreview writes it. */
  predicate RentLine(line: PreviewLine, period: string) {
    line.chargeKey == Rent(line.lease, period) && line.amount >= 0
  }

  lemma NoRunDraft(b: Books, chargeIndex: bool, lease: Id, run: Id, period: string)
    requires ChargesOk(b, chargeIndex)
    ensures FindDraft(b.invoices, lease, run, period, 0) == |b.invoices|
  {
  }

  function PostedInvoice(line: PreviewLine, run: Id, period: string): Invoice {
    PostedVersion(NewInvoice(line, run, period), [ChargeLine(line, period)])
  }

  /** A rent line that is due becomes one posted invoice for exactly its amount. */
  lemma DueLinePosts(b: Books, chargeIndex: bool, leases: seq<Lease>, run: Id, period: string, line: PreviewLine)
    requires ChargesOk(b, chargeIndex) && RentLine(line, period)
    requires !HasLiveLine(b.invoices, line.lease, line.chargeKey, period) && Billable(leases, line.lease)
    requires !(chargeIndex && KeyTaken(b.invoices, line.chargeKey))
    ensures var o := UpsertLine(b, leases, chargeIndex, run, period, line);
            && o.Posted? && ChargesOk(o.books, chargeIndex)
            && o.books == b.(entries := o.books.entries, invoices := b.invoices + [PostedInvoice(line, run, period)])
            && ArTotal(o.books.entries) == ArTotal(b.entries) + line.amount
  {
    NoRunDraft(b, chargeIndex, line.lease, run, period);
    var n := |b.invoices|;
    var draft := NewInvoice(line, run, period);
    var b1 := b.(invoices := b.invoices + [draft]);
    assert b1 == Step(b, AddDraft(draft)).0;
    AddDraftKeepsInv(b, draft);
    PostingDraftSucceeds(b1, n);
    OneLineTotal(ChargeLine(line, period));
    var after := WritePosted(b1, n, draft).0;
    assert after.invoices == b.invoices + [PostedInvoice(line, run, period)];
    NewRentOk(b, after, chargeIndex, line, run, period);
  }

  lemma NewRentOk(b: Books, after: Books, chargeIndex: bool, line: PreviewLine, run: Id, period: string)
    requires ChargesOk(b, chargeIndex) && RentLine(line, period) && Inv(after) && after.calls == b.calls
    requires after.invoices == b.invoices + [PostedInvoice(line, run, period)]
    requires !HasLiveLine(b.invoices, line.lease, line.chargeKey, period)
    requires !(chargeIndex && KeyTaken(b.invoices, line.chargeKey))
    ensures ChargesOk(after, chargeIndex)
  {
    forall i, l | 0 <= i < |b.invoices| && 0 <= l < |b.invoices[i].lines| && IsLive(b.invoices[i].status)
      ensures b.invoices[i].lines[l].chargeKey != line.chargeKey
    {
      assert RentInPlace(b.invoices[i]);
    }
  }

  // ----- the whole loop -----

  ghost predicate RentLines(lines: seq<PreviewLine>, period: string) {
    && (forall k :: 0 <= k < |lines| ==> RentLine(lines[k], period))
    && (forall k, m :: 0 <= k < m < |lines| ==> lines[k].lease != lines[m].lease)
  }

  predicate LiveAlready(b: Books, period: string, line: PreviewLine) {
    HasLiveLine(b.invoices, line.lease, line.chargeKey, period)
  }

  predicate IsDue(b: Books, leases: seq<Lease>, period: string, line: PreviewLine) {
    !LiveAlready(b, period, line) && Billable(leases, line.lease)
  }

  /** What the lines that are due add up to. */
  function Due(b: Books, leases: seq<Lease>, period: string, lines: seq<PreviewLine>): int {
    if lines == [] then 0
    else
      var line := lines[|lines| - 1];
      Due(b, leases, period, lines[..|lines| - 1]) + if IsDue(b, leases, period, line) then line.amount else 0
  }

  function Unbillable(b: Books, leases: seq<Lease>, period: string, lines: seq<PreviewLine>): nat {
    if lines == [] then 0
    else
      var line := lines[|lines| - 1];
      Unbillable(b, leases, period, lines[..|lines| - 1])
      + if !LiveAlready(b, period, line) && !Billable(leases, line.lease) then 1 else 0
  }

  /** Some line is due but its charge key already sits on an invoice line that is not live. */
  predicate Stuck(b: Books, leases: seq<Lease>, period: string, lines: seq<PreviewLine>) {
    exists k :: 0 <= k < |lines| && IsDue(b, leases, period, lines[k]) && KeyTaken(b.invoices, lines[k].chargeKey)
  }

  /** A posted invoice for exactly this line. */
  predicate Bills(inv: Invoice, line: PreviewLine, period: string) {
    && inv.lease == line.lease && inv.lines == [ChargeLine(line, period)] && inv.period == period
    && inv.status == POSTED && inv.total == line.amount && inv.balance == line.amount && inv.currency == line.currency
  }

  predicate BillsOneOf(inv: Invoice, lines: seq<PreviewLine>, period: string) {
    exists k :: 0 <= k < |lines| && Bills(inv, lines[k], period)
  }

  /** The invoices of `b` and behind them rent of the given lines only. */
  ghost predicate GrownBy(b: Books, after: Books, period: string, lines: seq<PreviewLine>) {
    && b.invoices <= after.invoices
    && forall i :: |b.invoices| <= i < |after.invoices| ==> BillsOneOf(after.invoices[i], lines, period)
  }

  lemma OtherLeasesSee(b: Books, after: Books, period: string, lines: seq<PreviewLine>, line: PreviewLine)
    requires GrownBy(b, after, period, lines) && RentLines(lines, period) && RentLine(line, period)
    requires forall k :: 0 <= k < |lines| ==> lines[k].lease != line.lease
    ensures LiveAlready(after, period, line) <==> LiveAlready(b, period, line)
    ensures KeyTaken(after.invoices, line.chargeKey) <==> KeyTaken(b.invoices, line.chargeKey)
  {
    forall i, l | |b.invoices| <= i < |after.invoices| && 0 <= l < |after.invoices[i].lines|
      ensures after.invoices[i].lines[l].chargeKey != line.chargeKey
    {
      assert BillsOneOf(after.invoices[i], lines, period);
      var k :| 0 <= k < |lines| && Bills(after.invoices[i], lines[k], period);
      assert RentLine(lines[k], period);
    }
    if LiveAlready(b, period, line) {
      var i, l :| 0 <= i < |b.invoices| && 0 <= l < |b.invoices[i].lines|
                  && b.invoices[i].lease == line.lease && IsLive(b.invoices[i].status)
                  && b.invoices[i].lines[l].chargeKey == line.chargeKey && b.invoices[i].lines[l].period == period;
      assert after.invoices[i] == b.invoices[i];
    }
    if KeyTaken(b.invoices, line.chargeKey) {
      var i, l :| 0 <= i < |b.invoices| && 0 <= l < |b.invoices[i].lines| && b.invoices[i].lines[l].chargeKey == line.chargeKey;
      assert after.invoices[i] == b.invoices[i];
    }
  }

  /** What committing `lines` on the books `b` comes to. */
  ghost predicate Effect(b: Books, leases: seq<Lease>, chargeIndex: bool, period: string, lines: seq<PreviewLine>, r: LinesResult) {
    && (r.aborted <==> chargeIndex && Stuck(b, leases, period, lines))
    && (!r.aborted ==>
          && ChargesOk(r.books, chargeIndex)
          && GrownBy(b, r.books, period, lines)
          && ArTotal(r.books.entries) == ArTotal(b.entries) + Due(b, leases, period, lines)
          && r.failures == Unbillable(b, leases, period, lines)
          && forall k :: 0 <= k < |lines| ==> LiveAlready(r.books, period, lines[k]) || !Billable(leases, lines[k].lease))
  }

  /** One commit, in terms of the state it finds: it aborts exactly when a due charge is stuck on a
      dead invoice line; otherwise receivables rise by exactly what is due, only the lines of
      unbillable leases fail, and every other line is live afterwards. */
  lemma {:induction false} CommitEffect(b: Books, leases: seq<Lease>, chargeIndex: bool, run: Id, period: string, lines: seq<PreviewLine>)
    requires ChargesOk(b, chargeIndex) && RentLines(lines, period)
    ensures Effect(b, leases, chargeIndex, period, lines, CommitLines(b, leases, chargeIndex, run, period, lines))
  {
    if lines != [] {
      CommitEffect(b, leases, chargeIndex, run, period, lines[..|lines| - 1]);
      LineEffect(b, leases, chargeIndex, run, period, lines, CommitLines(b, leases, chargeIndex, run, period, lines[..|lines| - 1]));
    } else {
      assert !Stuck(b, leases, period, lines);
    }
  }

  lemma LineEffect(b: Books, leases: seq<Lease>, chargeIndex: bool, run: Id, period: string, lines: seq<PreviewLine>, before: LinesResult)
    requires lines != [] && RentLines(lines, period)
    requires Effect(b, leases, chargeIndex, period, lines[..|lines| - 1], before)
    ensures Effect(b, leases, chargeIndex, period, lines,
                   if before.aborted then before
                   else AfterLine(before, UpsertLine(before.books, leases, chargeIndex, run, period, lines[|lines| - 1])))
  {
    var init, line := lines[..|lines| - 1], lines[|lines| - 1];
    StuckStep(b, leases, period, lines);
    if !before.aborted {
      OtherLeasesSee(b, before.books, period, init, line);
      if !IsDue(b, leases, period, line) {
        NotDueEffect(b, leases, chargeIndex, run, period, lines, before);
      } else if !(chargeIndex && KeyTaken(b.invoices, line.chargeKey)) {
        DueEffect(b, leases, chargeIndex, run, period, lines, before);
      } else {
        StuckEffect(b, leases, run, period, lines, before);
      }
    }
  }

  lemma StuckEffect(b: Books, leases: seq<Lease>, run: Id, period: string, lines: seq<PreviewLine>, before: LinesResult)
    requires lines != [] && RentLines(lines, period) && IsDue(b, leases, period, lines[|lines| - 1])
    requires Effect(b, leases, true, period, lines[..|lines| - 1], before) && !before.aborted
    requires LiveAlready(before.books, period, lines[|lines| - 1]) <==> LiveAlready(b, period, lines[|lines| - 1])
    requires KeyTaken(before.books.invoices, lines[|lines| - 1].chargeKey) && KeyTaken(b.invoices, lines[|lines| - 1].chargeKey)
    ensures Effect(b, leases, true, period, lines,
                   AfterLine(before, UpsertLine(before.books, leases, true, run, period, lines[|lines| - 1])))
  {
    StuckStep(b, leases, period, lines);
    StuckLineAborts(before.books, leases, run, period, lines[|lines| - 1]);
  }

  lemma StuckLineAborts(now: Books, leases: seq<Lease>, run: Id, period: string, line: PreviewLine)
    requires ChargesOk(now, true) && RentLine(line, period)
    requires !HasLiveLine(now.invoices, line.lease, line.chargeKey, period) && Billable(leases, line.lease)
    requires KeyTaken(now.invoices, line.chargeKey)
    ensures UpsertLine(now, leases, true, run, period, line) == Aborted
  {
    NoRunDraft(now, true, line.lease, run, period);
  }

  lemma NotDueEffect(b: Books, leases: seq<Lease>, chargeIndex: bool, run: Id, period: string, lines: seq<PreviewLine>, before: LinesResult)
    requires lines != [] && RentLines(lines, period) && !IsDue(b, leases, period, lines[|lines| - 1])
    requires Effect(b, leases, chargeIndex, period, lines[..|lines| - 1], before) && !before.aborted
    requires LiveAlready(before.books, period, lines[|lines| - 1]) <==> LiveAlready(b, period, lines[|lines| - 1])
    ensures Effect(b, leases, chargeIndex, period, lines,
                   AfterLine(before, UpsertLine(before.books, leases, chargeIndex, run, period, lines[|lines| - 1])))
  {
    var init := lines[..|lines| - 1];
    StuckStep(b, leases, period, lines);
    GrowthWeakens(b, before.books, period, lines);
    forall k | 0 <= k < |lines| ensures LiveAlready(before.books, period, lines[k]) || !Billable(leases, lines[k].lease) {
      if k < |init| { assert lines[k] == init[k]; }
    }
  }

  lemma DueEffect(b: Books, leases: seq<Lease>, chargeIndex: bool, run: Id, period: string, lines: seq<PreviewLine>, before: LinesResult)
    requires lines != [] && RentLines(lines, period) && IsDue(b, leases, period, lines[|lines| - 1])
    requires Effect(b, leases, chargeIndex, period, lines[..|lines| - 1], before) && !before.aborted
    requires LiveAlready(before.books, period, lines[|lines| - 1]) <==> LiveAlready(b, period, lines[|lines| - 1])
    requires KeyTaken(before.books.invoices, lines[|lines| - 1].chargeKey) <==> KeyTaken(b.invoices, lines[|lines| - 1].chargeKey)
    requires !(chargeIndex && KeyTaken(b.invoices, lines[|lines| - 1].chargeKey))
    ensures Effect(b, leases, chargeIndex, period, lines,
                   AfterLine(before, UpsertLine(before.books, leases, chargeIndex, run, period, lines[|lines| - 1])))
  {
    var line := lines[|lines| - 1];
    StuckStep(b, leases, period, lines);
    DueLinePosts(before.books, chargeIndex, leases, run, period, line);
    var after := UpsertLine(before.books, leases, chargeIndex, run, period, line).books;
    OneLineTotal(ChargeLine(line, period));
    GrowthExtends(b, before.books, after, period, lines, PostedInvoice(line, run, period));
    AllLiveAfter(before.books, after, leases, run, period, lines);
  }

  lemma AllLiveAfter(b: Books, after: Books, leases: seq<Lease>, run: Id, period: string, lines: seq<PreviewLine>)
    requires lines != [] && after.invoices == b.invoices + [PostedInvoice(lines[|lines| - 1], run, period)]
    requires var init := lines[..|lines| - 1];
             forall k :: 0 <= k < |init| ==> LiveAlready(b, period, init[k]) || !Billable(leases, init[k].lease)
    ensures forall k :: 0 <= k < |lines| ==> LiveAlready(after, period, lines[k]) || !Billable(leases, lines[k].lease)
  {
    var init := lines[..|lines| - 1];
    forall k | 0 <= k < |lines| ensures LiveAlready(after, period, lines[k]) || !Billable(leases, lines[k].lease) {
      if k == |init| {
        PostedLineIsLive(b, after, run, period, lines[k]);
      } else {
        assert lines[k] == init[k];
        if LiveAlready(b, period, lines[k]) { LiveStays(b, after, period, lines[k]); }
      }
    }
  }

  lemma StuckStep(b: Books, leases: seq<Lease>, period: string, lines: seq<PreviewLine>)
    requires lines != []
    ensures var line := lines[|lines| - 1];
            Stuck(b, leases, period, lines)
            <==> Stuck(b, leases, period, lines[..|lines| - 1]) || (IsDue(b, leases, period, line) && KeyTaken(b.invoices, line.chargeKey))
  {
    var init := lines[..|lines| - 1];
    if Stuck(b, leases, period, init) {
      var k :| 0 <= k < |init| && IsDue(b, leases, period, init[k]) && KeyTaken(b.invoices, init[k].chargeKey);
      assert lines[k] == init[k];
    }
    if Stuck(b, leases, period, lines) {
      var k :| 0 <= k < |lines| && IsDue(b, leases, period, lines[k]) && KeyTaken(b.invoices, lines[k].chargeKey);
      assert k < |init| ==> lines[k] == init[k];
    }
  }

  /** A charge that is due and taken sits on a void invoice of its lease; where voids of positive totals
      are refused, on one of total 0. */
  lemma StuckIsVoided(b: Books, chargeIndex: bool, period: string, line: PreviewLine) returns (i: Id, l: nat)
    requires ChargesOk(b, chargeIndex) && RentLine(line, period)
    requires !LiveAlready(b, period, line) && KeyTaken(b.invoices, line.chargeKey)
    ensures i < |b.invoices| && l < |b.invoices[i].lines| && b.invoices[i].lines[l].chargeKey == line.chargeKey
    ensures b.invoices[i].lease == line.lease && b.invoices[i].status == VOID && (b.uuidJournals ==> b.invoices[i].total == 0)
  {
    i, l :| 0 <= i < |b.invoices| && 0 <= l < |b.invoices[i].lines| && b.invoices[i].lines[l].chargeKey == line.chargeKey;
    assert RentInPlace(b.invoices[i]) && InvoiceOk(b, i) && CarriesRent(b.invoices[i]);
  }

  lemma PostedLineIsLive(b: Books, after: Books, run: Id, period: string, line: PreviewLine)
    requires after.invoices == b.invoices + [PostedInvoice(line, run, period)]
    ensures LiveAlready(after, period, line)
  {
    var n := |b.invoices|;
    assert after.invoices[n].lease == line.lease && after.invoices[n].lines[0] == ChargeLine(line, period);
  }

  lemma LiveStays(b: Books, after: Books, period: string, line: PreviewLine)
    requires b.invoices <= after.invoices && LiveAlready(b, period, line)
    ensures LiveAlready(after, period, line)
  {
    var i, l :| 0 <= i < |b.invoices| && 0 <= l < |b.invoices[i].lines|
                && b.invoices[i].lease == line.lease && IsLive(b.invoices[i].status)
                && b.invoices[i].lines[l].chargeKey == line.chargeKey && b.invoices[i].lines[l].period == period;
    assert after.invoices[i] == b.invoices[i];
  }

  lemma GrowthWeakens(b: Books, after: Books, period: string, lines: seq<PreviewLine>)
    requires lines != [] && GrownBy(b, after, period, lines[..|lines| - 1])
    ensures GrownBy(b, after, period, lines)
  {
    forall i | |b.invoices| <= i < |after.invoices|
      ensures BillsOneOf(after.invoices[i], lines, period)
    {
      var k :| 0 <= k < |lines| - 1 && Bills(after.invoices[i], lines[..|lines| - 1][k], period);
      assert Bills(after.invoices[i], lines[k], period);
    }
  }

  lemma GrowthExtends(b: Books, mid: Books, after: Books, period: string, lines: seq<PreviewLine>, inv: Invoice)
    requires lines != [] && GrownBy(b, mid, period, lines[..|lines| - 1]) && after.invoices == mid.invoices + [inv]
    requires Bills(inv, lines[|lines| - 1], period)
    ensures GrownBy(b, after, period, lines)
  {
    GrowthWeakens(b, mid, period, lines);
    forall i | |b.invoices| <= i < |after.invoices|
      ensures BillsOneOf(after.invoices[i], lines, period)
    {
      if i < |mid.invoices| {
        var k :| 0 <= k < |lines| && Bills(mid.invoices[i], lines[k], period);
        assert Bills(after.invoices[i], lines[k], period);
      } else {
        assert Bills(after.invoices[i], lines[|lines| - 1], period);
      }
    }
  }

  lemma {:induction false} NothingUnbillable(b: Books, leases: seq<Lease>, period: string, lines: seq<PreviewLine>)
    ensures Unbillable(b, leases, period, lines) == 0
            <==> forall k :: 0 <= k < |lines| ==> LiveAlready(b, period, lines[k]) || Billable(leases, lines[k].lease)
  {
    if lines != [] {
      NothingUnbillable(b, leases, period, lines[..|lines| - 1]);
      assert forall k :: 0 <= k < |lines| - 1 ==> lines[k] == lines[..|lines| - 1][k];
    }
  }

  lemma {:induction false} AllUnbillable(b: Books, leases: seq<Lease>, period: string, lines: seq<PreviewLine>)
    ensures Unbillable(b, leases, period, lines) <= |lines|
    ensures Unbillable(b, leases, period, lines) == |lines|
            <==> forall k :: 0 <= k < |lines| ==> !LiveAlready(b, period, lines[k]) && !Billable(leases, lines[k].lease)
  {
    if lines != [] {
      AllUnbillable(b, leases, period, lines[..|lines| - 1]);
      assert forall k :: 0 <= k < |lines| - 1 ==> lines[k] == lines[..|lines| - 1][k];
    }
  }

  /** A commit that ends COMPLETED leaves a live line for every line of its preview. */
  lemma CompletedMeansBilled(b: Books, leases: seq<Lease>, chargeIndex: bool, run: Id, period: string, lines: seq<PreviewLine>)
    requires ChargesOk(b, chargeIndex) && RentLines(lines, period)
    ensures var r := CommitLines(b, leases, chargeIndex, run, period, lines);
            !r.aborted && FinalStatus(r.failures, |lines|) == COMPLETED ==> forall k :: 0 <= k < |lines| ==> LiveAlready(r.books, period, lines[k])
  {
    CommitEffect(b, leases, chargeIndex, run, period, lines);
    NothingUnbillable(b, leases, period, lines);
    var r := CommitLines(b, leases, chargeIndex, run, period, lines);
    if !r.aborted && r.failures == 0 {
      forall k | 0 <= k < |lines| ensures LiveAlready(r.books, period, lines[k]) {
        if LiveAlready(b, period, lines[k]) { LiveStays(b, r.books, period, lines[k]); }
      }
    }
  }

  lemma {:induction false} NothingDue(b: Books, leases: seq<Lease>, chargeIndex: bool, run: Id, period: string, lines: seq<PreviewLine>)
    requires forall k :: 0 <= k < |lines| ==> LiveAlready(b, period, lines[k]) || !Billable(leases, lines[k].lease)
    ensures CommitLines(b, leases, chargeIndex, run, period, lines) == LinesResult(b, Unbillable(b, leases, period, lines), false)
  {
    if lines != [] {
      assert forall k :: 0 <= k < |lines| - 1 ==> lines[k] == lines[..|lines| - 1][k];
      NothingDue(b, leases, chargeIndex, run, period, lines[..|lines| - 1]);
    }
  }

  /** Committing the same lines again, by whatever run, posts nothing and fails the same leases. */
  lemma RecommitPostsNothing(b: Books, leases: seq<Lease>, chargeIndex: bool, run: Id, again: Id, period: string, lines: seq<PreviewLine>)
    requires ChargesOk(b, chargeIndex) && RentLines(lines, period)
    requires !CommitLines(b, leases, chargeIndex, run, period, lines).aborted
    ensures var r := CommitLines(b, leases, chargeIndex, run, period, lines);
            var second := CommitLines(r.books, leases, chargeIndex, again, period, lines);
            second.books == r.books && !second.aborted && second.failures == Unbillable(r.books, leases, period, lines) <= r.failures
  {
    CommitEffect(b, leases, chargeIndex, run, period, lines);
    var r := CommitLines(b, leases, chargeIndex, run, period, lines);
    NothingDue(r.books, leases, chargeIndex, again, period, lines);
    FewerUnbillable(b, r.books, leases, period, lines);
  }

  lemma {:induction false} FewerUnbillable(b: Books, after: Books, leases: seq<Lease>, period: string, lines: seq<PreviewLine>)
    requires b.invoices <= after.invoices
    ensures Unbillable(after, leases, period, lines) <= Unbillable(b, leases, period, lines)
  {
    if lines != [] {
      FewerUnbillable(b, after, leases, period, lines[..|lines| - 1]);
      var line := lines[|lines| - 1];
      if LiveAlready(b, period, line) { LiveStays(b, after, period, line); }
    }
  }

  function SumAmounts(lines: seq<PreviewLine>): int {
    if lines == [] then 0 else SumAmounts(lines[..|lines| - 1]) + lines[|lines| - 1].amount
  }

  lemma {:induction false} AllDue(b: Books, leases: seq<Lease>, period: string, lines: seq<PreviewLine>)
    requires forall k :: 0 <= k < |lines| ==> IsDue(b, leases, period, lines[k])
    ensures Due(b, leases, period, lines) == SumAmounts(lines)
  {
    if lines != [] {
      assert forall k :: 0 <= k < |lines| - 1 ==> lines[k] == lines[..|lines| - 1][k];
      AllDue(b, leases, period, lines[..|lines| - 1]);
    }
  }

  lemma {:induction false} PreviewTotal(leases: seq<Lease>, run: BillingRun, n: nat)
    requires n <= |leases|
    ensures PreviewOf(leases, run, n).Ok? ==> PreviewOf(leases, run, n).value.totals == SumAmounts(PreviewOf(leases, run, n).value.lines)
  {
    if n > 0 {
      PreviewTotal(leases, run, n - 1);
      var p, before := PreviewOf(leases, run, n), PreviewOf(leases, run, n - 1);
      if p.Ok? && p != before {
        assert p.value.lines[..|p.value.lines| - 1] == before.value.lines;
      }
    }
  }

  lemma {:induction false} PreviewFacts(leases: seq<Lease>, run: BillingRun, n: nat)
    requires n <= |leases| && forall i :: 0 <= i < |leases| && leases[i].term.Some? ==> leases[i].term.value.rent >= 0
    ensures PreviewOf(leases, run, n).Ok? ==> RentLines(PreviewOf(leases, run, n).value.lines, run.period)
    ensures PreviewOf(leases, run, n).Ok? ==>
              forall k :: 0 <= k < |PreviewOf(leases, run, n).value.lines| ==> PreviewOf(leases, run, n).value.lines[k].lease < n
  {
    if n > 0 {
      PreviewFacts(leases, run, n - 1);
    }
  }

  /** From a period in which nothing is live, a commit of a fresh preview over billable leases
      raises the receivables by exactly the total the preview showed. */
  lemma FreshPeriodPostsTheTotal(b: Books, leases: seq<Lease>, chargeIndex: bool, run: Id, row: BillingRun)
    requires ChargesOk(b, chargeIndex) && forall i :: 0 <= i < |leases| && leases[i].term.Some? ==> leases[i].term.value.rent >= 0
    requires PreviewOf(leases, row, |leases|).Ok?
    requires forall k :: 0 <= k < |PreviewOf(leases, row, |leases|).value.lines| ==>
               IsDue(b, leases, row.period, PreviewOf(leases, row, |leases|).value.lines[k])
    requires !(chargeIndex && Stuck(b, leases, row.period, PreviewOf(leases, row, |leases|).value.lines))
    ensures var p := PreviewOf(leases, row, |leases|).value;
            var r := CommitLines(b, leases, chargeIndex, run, row.period, p.lines);
            !r.aborted && r.failures == 0 && ArTotal(r.books.entries) == ArTotal(b.entries) + p.totals
  {
    var p := PreviewOf(leases, row, |leases|).value;
    PreviewTotal(leases, row, |leases|);
    PreviewFacts(leases, row, |leases|);
    CommitEffect(b, leases, chargeIndex, run, row.period, p.lines);
    AllDue(b, leases, row.period, p.lines);
    NothingUnbillable(b, leases, row.period, p.lines);
  }

  // ----- every interleaving -----

  ghost predicate RentsOk(leases: seq<Lease>) {
    forall i :: 0 <= i < |leases| && leases[i].term.Some? ==> leases[i].term.value.rent >= 0
  }

  ghost predicate PreviewOk(row: BillingRun) {
    row.preview.Some? ==> RentLines(row.preview.value, row.period)
  }

  ghost predicate SysInv(s: Sys) {
    && ChargesOk(s.books, s.chargeIndex)
    && RentsOk(s.leases)
    && (forall r :: 0 <= r < |s.runs| ==> PreviewOk(s.runs[r]))
    && (forall c :: c in s.commits ==> s.commits[c].run < |s.runs| && PreviewOk(s.commits[c].seen)
                                       && s.commits[c].seen.period == s.runs[s.commits[c].run].period)
  }

  /** Rents are not negative, and only the billing run writes rent charges and drafts of a run. */
  ghost predicate SysAllowed(op: SysOp) {
    match op
    case BooksOp(o) => o.AddDraft? ==> GoodLines(o.draft.lines) && o.draft.run.None? && !CarriesRent(o.draft)
    case SetLease(_, row) => row.term.Some? ==> row.term.value.rent >= 0
    case _ => true
  }

  lemma ChargesFrame(b: Books, after: Books, chargeIndex: bool)
    requires ChargesOk(b, chargeIndex) && Inv(after) && |after.invoices| == |b.invoices|
    requires forall i :: 0 <= i < |b.invoices| ==>
               && after.invoices[i].lines == b.invoices[i].lines
               && after.invoices[i].lease == b.invoices[i].lease
               && after.invoices[i].run == b.invoices[i].run
               && (after.invoices[i].status == DRAFT ==> b.invoices[i].status == DRAFT)
               && (IsLive(after.invoices[i].status) ==> IsLive(b.invoices[i].status) || !CarriesRent(b.invoices[i]))
    requires forall c :: c in after.calls && after.calls[c].PostingInvoice? ==>
               after.calls[c].id < |b.invoices| && !CarriesRent(b.invoices[after.calls[c].id])
    ensures ChargesOk(after, chargeIndex)
  {
    forall i | 0 <= i < |after.invoices| ensures RentInPlace(after.invoices[i]) { assert RentInPlace(b.invoices[i]); }
    assert forall i :: 0 <= i < |b.invoices| ==> CarriesRent(after.invoices[i]) == CarriesRent(b.invoices[i]);
    forall i, l | 0 <= i < |b.invoices| && 0 <= l < |b.invoices[i].lines| && b.invoices[i].lines[l].chargeKey.Rent?
      ensures CarriesRent(b.invoices[i])
    {
    }
  }

  lemma AddDraftKeepsCharges(b: Books, draft: Invoice, chargeIndex: bool)
    requires ChargesOk(b, chargeIndex) && SysAllowed(BooksOp(AddDraft(draft)))
    requires !(chargeIndex && ClashingDraft(b.invoices, draft.lines))
    ensures ChargesOk(Step(b, AddDraft(draft)).0, chargeIndex)
  {
    AddDraftKeepsInv(b, draft);
    var after := Step(b, AddDraft(draft)).0;
    assert forall i :: 0 <= i < |b.invoices| ==> after.invoices[i] == b.invoices[i];
    var added := after.invoices[|b.invoices|];
    assert added.lines == draft.lines && added.status == DRAFT;
    if chargeIndex {
      forall i, l, m | 0 <= i < |b.invoices| && 0 <= l < |b.invoices[i].lines| && 0 <= m < |draft.lines|
        ensures b.invoices[i].lines[l].chargeKey != draft.lines[m].chargeKey
      {
        assert !KeyTaken(b.invoices, draft.lines[m].chargeKey);
      }
    }
  }

  lemma WrittenNoteWasLive(b: Books, note: Id, seen: CreditNote)
    requires Inv(b) && note < |b.notes| && seen.invoice == b.notes[note].invoice && seen.total == b.notes[note].total
    requires WriteNote(b, note, seen).1 == Changed
    ensures seen.invoice < |b.invoices| && IsLive(b.invoices[seen.invoice].status)
  {
    assert NoteOk(b, note) && InvoiceOk(b, seen.invoice);
  }

  lemma FinishKeepsCharges(b: Books, call: Id, chargeIndex: bool)
    requires ChargesOk(b, chargeIndex) && call in b.calls
    ensures ChargesOk(Finish(b, call).0, chargeIndex)
  {
    FinishKeepsInv(b, call);
    var rest, after := b.(calls := b.calls - {call}), Finish(b, call).0;
    FewerCallsKeepInv(b, rest.calls);
    assert CallOk(b, b.calls[call]);
    match b.calls[call] {
      case PostingInvoice(id, seen) =>
        assert !CarriesRent(b.invoices[id]);
        assert after.invoices == b.invoices || after.invoices == b.invoices[id := PostedVersion(b.invoices[id], seen.lines)];
      case CreatingNote(invoice, lease, currency, total) =>
        assert after.invoices == b.invoices;
      case PostingNote(note, seen) =>
        if WriteNote(rest, note, seen).1 == Changed { WrittenNoteWasLive(rest, note, seen); }
    }
    ChargesFrame(b, after, chargeIndex);
  }

  lemma VoidKeepsCharges(b: Books, id: Id, v: nat, chargeIndex: bool)
    requires ChargesOk(b, chargeIndex)
    ensures ChargesOk(VoidInvoice(b, id, v).0, chargeIndex)
  {
    VoidKeepsInv(b, id, v);
    ChargesFrame(b, VoidInvoice(b, id, v).0, chargeIndex);
  }

  lemma CallsKeepCharges(b: Books, calls: map<Id, Pending>, chargeIndex: bool)
    requires ChargesOk(b, chargeIndex) && forall c :: c in calls ==> CallOk(b, calls[c])
    requires forall c :: c in calls && calls[c].PostingInvoice? ==>
               calls[c].id < |b.invoices| && !CarriesRent(b.invoices[calls[c].id])
    ensures ChargesOk(b.(calls := calls), chargeIndex)
  {
    FewerCallsKeepInv(b, calls);
    ChargesFrame(b, b.(calls := calls), chargeIndex);
  }

  lemma StartKeepsCharges(b: Books, op: Op, chargeIndex: bool)
    requires ChargesOk(b, chargeIndex) && !op.AddDraft? && !op.VoidInvoiceOp? && !op.FinishOp?
    ensures ChargesOk(Step(b, op).0, chargeIndex)
  {
    StartsOnlyCalls(b, op);
    var calls := Step(b, op).0.calls;
    CallsKeepCharges(b, calls, chargeIndex);
  }

  lemma BooksStepKeepsCharges(b: Books, op: Op, chargeIndex: bool)
    requires ChargesOk(b, chargeIndex) && SysAllowed(BooksOp(op))
    requires !(op.AddDraft? && chargeIndex && ClashingDraft(b.invoices, op.draft.lines))
    ensures ChargesOk(Step(b, op).0, chargeIndex)
  {
    match op {
      case AddDraft(draft) => AddDraftKeepsCharges(b, draft, chargeIndex);
      case VoidInvoiceOp(id, v) => VoidKeepsCharges(b, id, v, chargeIndex);
      case FinishOp(call) => if call in b.calls { FinishKeepsCharges(b, call, chargeIndex); }
      case _ => StartKeepsCharges(b, op, chargeIndex);
    }
  }

  lemma FinishCommitKeepsInv(s: Sys, call: Id)
    requires SysInv(s) && call in s.commits
    ensures SysInv(FinishCommit(s, call).0)
  {
    var Commit(run, seen) := s.commits[call];
    var leases := EnsureSchedules(s.leases, seen.property);
    assert PreviewOk(seen);
    PreviewFacts(leases, seen, |leases|);
    var preview := LinesToCommit(leases, seen);
    if preview.Ok? {
      CommitEffect(s.books, leases, s.chargeIndex, run, seen.period, preview.value.lines);
    }
  }

  lemma PreviewKeepsInv(s: Sys, run: Id, v: nat)
    requires SysInv(s)
    ensures SysInv(PreviewRun(s, run, v).0)
  {
    if run < |s.runs| { PreviewFacts(s.leases, s.runs[run], |s.leases|); }
  }

  /** A step that leaves the books alone has only rents, previews and commits to look after. */
  lemma SameBooksKeepInv(s: Sys, after: Sys)
    requires SysInv(s) && after.books == s.books && after.chargeIndex == s.chargeIndex && RentsOk(after.leases)
    requires |s.runs| <= |after.runs| && forall r :: 0 <= r < |after.runs| ==> PreviewOk(after.runs[r])
    requires forall r :: 0 <= r < |s.runs| ==> after.runs[r].period == s.runs[r].period
    requires forall c :: c in after.commits ==>
               || (c in s.commits && after.commits[c] == s.commits[c])
               || (after.commits[c].run < |s.runs| && after.commits[c].seen == s.runs[after.commits[c].run])
    ensures SysInv(after)
  {
  }

  lemma StartKeepsInv(s: Sys, call: Id, run: Id, requireApproved: bool, pin: Option<nat>)
    requires SysInv(s)
    ensures SysInv(StartCommit(s, call, run, requireApproved, pin).0)
  {
    SameBooksKeepInv(s, StartCommit(s, call, run, requireApproved, pin).0);
  }

  lemma ApproveKeepsInv(s: Sys, run: Id, v: nat)
    requires SysInv(s)
    ensures SysInv(ApproveRun(s, run, v).0)
  {
    SameBooksKeepInv(s, ApproveRun(s, run, v).0);
  }

  lemma BooksOpKeepsInv(s: Sys, o: Op)
    requires SysInv(s) && SysAllowed(BooksOp(o))
    ensures SysInv(SysStep(s, BooksOp(o)).0)
  {
    if !(o.AddDraft? && s.chargeIndex && ClashingDraft(s.books.invoices, o.draft.lines)) {
      BooksStepKeepsCharges(s.books, o, s.chargeIndex);
    }
  }

  lemma SysStepKeepsInv(s: Sys, op: SysOp)
    requires SysInv(s) && SysAllowed(op)
    ensures SysInv(SysStep(s, op).0) && SysStep(s, op).0.chargeIndex == s.chargeIndex
  {
    match op {
      case BooksOp(o) => BooksOpKeepsInv(s, o);
      case PreviewOp(run, v) => PreviewKeepsInv(s, run, v);
      case FinishCommitOp(call) => if call in s.commits { FinishCommitKeepsInv(s, call); }
      case StartCommitOp(call, run, requireApproved, pin) => StartKeepsInv(s, call, run, requireApproved, pin);
      case ApproveOp(run, v) => ApproveKeepsInv(s, run, v);
      case _ => SameBooksKeepInv(s, SysStep(s, op).0);
    }
  }

  lemma {:induction false} SysRunKeepsInv(s: Sys, ops: seq<SysOp>)
    requires SysInv(s) && forall i :: 0 <= i < |ops| ==> SysAllowed(ops[i])
    ensures SysInv(SysRun(s, ops)) && SysRun(s, ops).chargeIndex == s.chargeIndex
  {
    if ops != [] {
      var mid := SysRun(s, ops[..|ops| - 1]);
      SysRunKeepsInv(s, ops[..|ops| - 1]);
      SysStepKeepsInv(mid, ops[|ops| - 1]);
      assert SysRun(s, ops) == SysStep(mid, ops[|ops| - 1]).0;
    }
  }

  function EmptySys(tenant: Id, chargeIndex: bool, uuidJournals: bool): Sys {
    Sys(EmptyBooks(tenant, uuidJournals), [], [], map[], chargeIndex)
  }

  /** Over every interleaving of commits (on run rows however stale), retries, previews, approvals,
      lease changes, posts, voids and credit notes: the rent of a lease and period is on at most one
      live invoice line, an invoice of that lease; with the unique index it is on at most one line,
      dead or alive. */
  lemma RentBilledOnce(tenant: Id, chargeIndex: bool, uuidJournals: bool, ops: seq<SysOp>, lease: Id, period: string, i: Id, l: nat, j: Id, m: nat)
    requires forall k :: 0 <= k < |ops| ==> SysAllowed(ops[k])
    requires var invoices := SysRun(EmptySys(tenant, chargeIndex, uuidJournals), ops).books.invoices;
             && i < |invoices| && l < |invoices[i].lines| && invoices[i].lines[l].chargeKey == Rent(lease, period)
             && j < |invoices| && m < |invoices[j].lines| && invoices[j].lines[m].chargeKey == Rent(lease, period)
             && (chargeIndex || (invoices[i].status in {POSTED, PARTIALLY_PAID, PAID} && invoices[j].status in {POSTED, PARTIALLY_PAID, PAID}))
    ensures i == j && l == m
    ensures var inv := SysRun(EmptySys(tenant, chargeIndex, uuidJournals), ops).books.invoices[i];
            inv.lease == lease && inv.lines[l].period == period && inv.status != DRAFT
  {
    EmptyBooksOk(tenant, uuidJournals);
    SysRunKeepsInv(EmptySys(tenant, chargeIndex, uuidJournals), ops);
    var b := SysRun(EmptySys(tenant, chargeIndex, uuidJournals), ops).books;
    assert RentInPlace(b.invoices[i]);
    assert CarriesRent(b.invoices[i]);
  }

  /** The same interleavings keep every invoice true to the ledger and the ledger balanced. */
  lemma BillingKeepsInvoicesTrue(tenant: Id, chargeIndex: bool, uuidJournals: bool, ops: seq<SysOp>, i: Id)
    requires forall k :: 0 <= k < |ops| ==> SysAllowed(ops[k])
    requires i < |SysRun(EmptySys(tenant, chargeIndex, uuidJournals), ops).books.invoices|
    ensures var b := SysRun(EmptySys(tenant, chargeIndex, uuidJournals), ops).books;
            InvoiceTrue(b, i) && Balanced(b.entries)
  {
    EmptyBooksOk(tenant, uuidJournals);
    SysRunKeepsInv(EmptySys(tenant, chargeIndex, uuidJournals), ops);
    InvMakesInvoicesTrue(SysRun(EmptySys(tenant, chargeIndex, uuidJournals), ops).books, i);
  }

  /** In every reachable state a commit that has its lines is refused exactly when the index is
      there and a charge that is due sits on an invoice line that is not live: rent that was posted
      and voided can never be billed again. Otherwise the receivables rise by what is due, and
      COMPLETED means that nothing of the preview is left to bill. */
  lemma CommitOutcome(s: Sys, call: Id)
    requires SysInv(s) && call in s.commits
    requires LinesToCommit(EnsureSchedules(s.leases, s.commits[call].seen.property), s.commits[call].seen).Ok?
    ensures var Commit(run, seen) := s.commits[call];
            var leases := EnsureSchedules(s.leases, seen.property);
            var lines := LinesToCommit(leases, seen).value.lines;
            var (after, reply) := FinishCommit(s, call);
            && (reply == Refused(KeyInUse) <==> s.chargeIndex && Stuck(s.books, leases, seen.period, lines))
            && (reply == Refused(KeyInUse) ==> after == s.(commits := s.commits - {call}))
            && (reply != Refused(KeyInUse) ==>
                  && reply == Changed
                  && ArTotal(after.books.entries) == ArTotal(s.books.entries) + Due(s.books, leases, seen.period, lines)
                  && (after.runs[run].status == COMPLETED <==>
                        forall k :: 0 <= k < |lines| ==> LiveAlready(s.books, seen.period, lines[k]) || Billable(leases, lines[k].lease))
                  && (after.runs[run].status == FAILED <==>
                        lines != [] && forall k :: 0 <= k < |lines| ==>
                          !LiveAlready(s.books, seen.period, lines[k]) && !Billable(leases, lines[k].lease))
                  && (after.runs[run].status == PARTIAL <==> after.runs[run].status != COMPLETED && after.runs[run].status != FAILED)
                  && after.runs[run].version == s.runs[run].version + 2
                  && (after.runs[run].status == COMPLETED ==>
                        forall k :: 0 <= k < |lines| ==> LiveAlready(after.books, seen.period, lines[k])))
  {
    var Commit(run, seen) := s.commits[call];
    var leases := EnsureSchedules(s.leases, seen.property);
    assert PreviewOk(seen);
    PreviewFacts(leases, seen, |leases|);
    var lines := LinesToCommit(leases, seen).value.lines;
    CommitEffect(s.books, leases, s.chargeIndex, run, seen.period, lines);
    NothingUnbillable(s.books, leases, seen.period, lines);
    AllUnbillable(s.books, leases, seen.period, lines);
    CompletedMeansBilled(s.books, leases, s.chargeIndex, run, seen.period, lines);
  }

  lemma ScheduledLeases(leases: seq<Lease>, property: Option<Id>, i: Id)
    requires i < |leases|
    ensures var after := EnsureSchedules(leases, property);
            |after| == |leases| && after[i] == leases[i].(scheduled := after[i].scheduled)
    ensures !leases[i].deleted && leases[i].running && (property.Some? ==> leases[i].property == property.value)
            ==> EnsureSchedules(leases, property)[i].scheduled
  {
  }

  /** What a commit that builds its preview adds are posted invoices for the current rent of leases in
      force, of the run's property if it has one. */
  lemma CommitBillsOnlyItsScope(s: Sys, call: Id, j: Id)
    requires SysInv(s) && call in s.commits && FinishCommit(s, call).1 == Changed
    requires s.commits[call].seen.preview.None? || s.commits[call].seen.preview.value == []
    requires |s.books.invoices| <= j < |FinishCommit(s, call).0.books.invoices|
    ensures var seen, inv := s.commits[call].seen, FinishCommit(s, call).0.books.invoices[j];
            && inv.lease < |s.leases| && !s.leases[inv.lease].deleted && s.leases[inv.lease].running
            && (seen.property.Some? ==> s.leases[inv.lease].property == seen.property.value)
            && s.leases[inv.lease].term == Some(Term(inv.total, inv.currency))
            && inv.status == POSTED && inv.balance == inv.total && inv.period == seen.period
            && inv.lines == [InvoiceLine(Rent(inv.lease, seen.period), seen.period, inv.total, 0)]
  {
    var Commit(run, seen) := s.commits[call];
    var leases := EnsureSchedules(s.leases, seen.property);
    PreviewFacts(leases, seen, |leases|);
    PreviewedAtTerm(leases, seen, |leases|);
    var lines := PreviewOf(leases, seen, |leases|).value.lines;
    CommitEffect(s.books, leases, s.chargeIndex, run, seen.period, lines);
    var inv := FinishCommit(s, call).0.books.invoices[j];
    assert BillsOneOf(inv, lines, seen.period);
    var k :| 0 <= k < |lines| && Bills(inv, lines[k], seen.period);
    assert HasLease(lines, inv.lease) && RentLine(lines[k], seen.period);
    PreviewedIff(leases, seen, |leases|, inv.lease);
    ScheduledLeases(s.leases, seen.property, inv.lease);
  }

  /** And it leaves none of those leases out that can be billed: each has a live rent line afterwards. */
  lemma CommitBillsItsWholeScope(s: Sys, call: Id, lease: Id)
    requires SysInv(s) && call in s.commits && FinishCommit(s, call).1 == Changed
    requires s.commits[call].seen.preview.None? || s.commits[call].seen.preview.value == []
    requires lease < |s.leases| && !s.leases[lease].deleted && s.leases[lease].running
    requires s.leases[lease].term.Some? && s.leases[lease].parties != []
    requires s.commits[call].seen.property.Some? ==> s.leases[lease].property == s.commits[call].seen.property.value
    ensures var period, invoices := s.commits[call].seen.period, FinishCommit(s, call).0.books.invoices;
            exists i, l :: 0 <= i < |invoices| && 0 <= l < |invoices[i].lines| && invoices[i].lease == lease
                           && (invoices[i].status == POSTED || invoices[i].status == PARTIALLY_PAID || invoices[i].status == PAID)
                           && invoices[i].lines[l].chargeKey == Rent(lease, period) && invoices[i].lines[l].period == period
  {
    var Commit(run, seen) := s.commits[call];
    var leases := EnsureSchedules(s.leases, seen.property);
    PreviewFacts(leases, seen, |leases|);
    ScheduledLeases(s.leases, seen.property, lease);
    PreviewedIff(leases, seen, |leases|, lease);
    var lines := PreviewOf(leases, seen, |leases|).value.lines;
    CommitEffect(s.books, leases, s.chargeIndex, run, seen.period, lines);
    var k :| 0 <= k < |lines| && lines[k].lease == lease;
    assert Billable(leases, lines[k].lease) && RentLine(lines[k], seen.period);
    assert LiveAlready(FinishCommit(s, call).0.books, seen.period, lines[k]);
  }

  // ----- one line and one step, in the fields of the tables -----

  /** A line is skipped exactly if its charge is on a POSTED, PARTIALLY_PAID or PAID invoice of its lease for
      the period; otherwise it fails exactly if its lease is gone or has no party to bill. */
  lemma LineSkippedOrFailedIff(b: Books, leases: seq<Lease>, chargeIndex: bool, run: Id, period: string, line: PreviewLine)
    ensures var o := UpsertLine(b, leases, chargeIndex, run, period, line);
            && (o.Skipped? <==>
                  exists i, l :: 0 <= i < |b.invoices| && 0 <= l < |b.invoices[i].lines| && b.invoices[i].lease == line.lease
                                 && b.invoices[i].status in {POSTED, PARTIALLY_PAID, PAID}
                                 && b.invoices[i].lines[l].chargeKey == line.chargeKey && b.invoices[i].lines[l].period == period)
            && (!o.Skipped? ==>
                  (o.Failed? <==> line.lease >= |leases| || leases[line.lease].deleted || leases[line.lease].parties == []))
  {
    assert LiveAlready(b, period, line) <==> UpsertLine(b, leases, chargeIndex, run, period, line).Skipped?;
    if LiveAlready(b, period, line) {
      var i, l :| 0 <= i < |b.invoices| && 0 <= l < |b.invoices[i].lines| && b.invoices[i].lease == line.lease && IsLive(b.invoices[i].status)
                  && b.invoices[i].lines[l].chargeKey == line.chargeKey && b.invoices[i].lines[l].period == period;
      assert b.invoices[i].status in {POSTED, PARTIALLY_PAID, PAID};
    }
  }

  /** A draft the run already has for the lease is used again: it is posted with the line on it once. */
  lemma DraftIsUsedAgain(b: Books, leases: seq<Lease>, chargeIndex: bool, run: Id, period: string, line: PreviewLine, d: Id)
    requires d < |b.invoices| && b.invoices[d].status == DRAFT && b.invoices[d].run == Some(run) && b.invoices[d].lease == line.lease
    requires b.invoices[d].period == period
    requires forall k :: 0 <= k < d ==> b.invoices[k].status != DRAFT || b.invoices[k].run != Some(run)
                                        || b.invoices[k].lease != line.lease || b.invoices[k].period != period
    requires UpsertLine(b, leases, chargeIndex, run, period, line).Posted?
    ensures var after := UpsertLine(b, leases, chargeIndex, run, period, line).books.invoices;
            var there := exists l :: 0 <= l < |b.invoices[d].lines| && b.invoices[d].lines[l].chargeKey == line.chargeKey;
            && |after| == |b.invoices| && after[d].status == POSTED
            && after[d].lines == (if there then b.invoices[d].lines
                                  else b.invoices[d].lines + [InvoiceLine(line.chargeKey, period, line.amount, 0)])
            && (forall k :: 0 <= k < |b.invoices| && k != d ==> after[k] == b.invoices[k])
            && (chargeIndex && !there ==> !KeyTaken(b.invoices, line.chargeKey))
  {
    assert FindDraft(b.invoices, line.lease, run, period, 0) == d;
    assert HasKey(b.invoices[d].lines, line.chargeKey)
      <==> exists l :: 0 <= l < |b.invoices[d].lines| && b.invoices[d].lines[l].chargeKey == line.chargeKey;
  }

  /** A commit is admitted exactly if its run is not completed, has the version it asks for, and, where
      approval is required, is approved or being repeated; a completed run is answered as it is. */
  lemma CommitAdmittedIff(s: Sys, call: Id, run: Id, requireApproved: bool, v: Option<nat>)
    ensures var (after, reply) := StartCommit(s, call, run, requireApproved, v);
            var known := call !in s.commits && run < |s.runs|;
            && (reply == Waiting
                <==> && known && s.runs[run].status != COMPLETED && (v.Some? ==> s.runs[run].version == v.value)
                     && (requireApproved ==> s.runs[run].status in {APPROVED, FAILED, PARTIAL}))
            && (reply == Unchanged <==> known && s.runs[run].status == COMPLETED)
            && (reply == Refused(VersionMismatch)
                <==> known && s.runs[run].status != COMPLETED && v.Some? && s.runs[run].version != v.value)
            && after == if reply == Waiting then s.(commits := s.commits[call := Commit(run, s.runs[run])]) else s
  {
  }

  /** A preview is stored exactly for a run of the expected version that is not completed and bills in one
      currency; it replaces the one before and asks for a new approval. */
  lemma PreviewStoredIff(s: Sys, run: Id, v: nat)
    ensures var (after, reply) := PreviewRun(s, run, v);
            && (reply == Changed <==> run < |s.runs| && s.runs[run].version == v && s.runs[run].status != COMPLETED
                                      && exists c: string :: OneCurrency(s.leases, s.runs[run], |s.leases|, c))
            && (reply == Refused(VersionMismatch) <==> run < |s.runs| && s.runs[run].version != v)
            && (reply == Refused(NotDraft) <==> run < |s.runs| && s.runs[run].version == v && s.runs[run].status == COMPLETED)
            && (reply == Changed ==>
                  var p := PreviewOf(s.leases, s.runs[run], |s.leases|).value;
                  after == s.(runs := s.runs[run := s.runs[run].(status := PREVIEWED, preview := Some(p.lines), totals := p.totals,
                                                                 currency := p.currency, version := v + 1)]))
            && (reply != Changed ==> after == s)
  {
    if run < |s.runs| {
      PreviewOkIff(s.leases, s.runs[run]);
      PreviewErrorIs(s.leases, s.runs[run], |s.leases|);
    }
  }

  lemma {:induction false} PreviewErrorIs(leases: seq<Lease>, run: BillingRun, n: nat)
    requires n <= |leases|
    ensures PreviewOf(leases, run, n).Err? ==> PreviewOf(leases, run, n) == Err(CurrencyMismatch)
  {
    if n > 0 { PreviewErrorIs(leases, run, n - 1); }
  }

  /** A run is approved exactly from PREVIEWED or APPROVED, in the expected version. */
  lemma ApprovedIff(s: Sys, run: Id, v: nat)
    ensures var (after, reply) := ApproveRun(s, run, v);
            && (reply == Changed <==> run < |s.runs| && s.runs[run].version == v && s.runs[run].status in {PREVIEWED, APPROVED})
            && (reply == Refused(VersionMismatch) <==> run < |s.runs| && s.runs[run].version != v)
            && after == if reply == Changed then s.(runs := s.runs[run := s.runs[run].(status := APPROVED, version := v + 1)]) else s
  {
  }

  /** A commit takes the lines of the preview it read, or, if that has none, builds one and stores it. */
  lemma CommitTakesStoredPreview(s: Sys, call: Id)
    requires call in s.commits && FinishCommit(s, call).1 == Changed
    ensures var Commit(run, seen) := s.commits[call];
            var leases, row := EnsureSchedules(s.leases, seen.property), FinishCommit(s, call).0.runs[run];
            var stored := seen.preview.Some? && seen.preview.value != [];
            && run < |s.runs|
            && (stored ==> row == s.runs[run].(status := row.status, version := s.runs[run].version + 2)
                           && LinesToCommit(leases, seen).value.lines == seen.preview.value)
            && (!stored ==> PreviewOf(leases, seen, |leases|).Ok?
                            && var p := PreviewOf(leases, seen, |leases|).value;
                               LinesToCommit(leases, seen).value == p
                               && row == s.runs[run].(status := row.status, version := s.runs[run].version + 2, preview := Some(p.lines),
                                                      totals := p.totals, currency := p.currency))
            && FinishCommit(s, call).0.commits == s.commits - {call} && FinishCommit(s, call).0.leases == leases
  {
    var seen := s.commits[call].seen;
    var leases := EnsureSchedules(s.leases, seen.property);
    if seen.preview.None? || seen.preview.value == [] {
      assert LinesToCommit(leases, seen) == PreviewOf(leases, seen, |leases|);
    }
  }

  /** A draft prepared elsewhere is refused exactly where the index is there and one of its charges is
      already on an invoice line, or on two of its own. */
  lemma DraftRefusedIff(s: Sys, draft: Invoice)
    ensures SysStep(s, BooksOp(AddDraft(draft))).1 == Refused(KeyInUse)
            <==> s.chargeIndex
                 && ((exists l, i, m :: 0 <= l < |draft.lines| && 0 <= i < |s.books.invoices| && 0 <= m < |s.books.invoices[i].lines|
                                        && s.books.invoices[i].lines[m].chargeKey == draft.lines[l].chargeKey)
                     || exists l, m :: 0 <= l < m < |draft.lines| && draft.lines[l].chargeKey == draft.lines[m].chargeKey)
  {
    if l, i, m :| 0 <= l < |draft.lines| && 0 <= i < |s.books.invoices| && 0 <= m < |s.books.invoices[i].lines|
                  && s.books.invoices[i].lines[m].chargeKey == draft.lines[l].chargeKey {
      assert KeyTaken(s.books.invoices, draft.lines[l].chargeKey);
    }
  }

  /** The index changes what becomes of a line only if its charge is on an invoice line already, and then
      the line is refused. */
  lemma IndexRefusesOnlyTaken(b: Books, leases: seq<Lease>, run: Id, period: string, line: PreviewLine)
    ensures UpsertLine(b, leases, true, run, period, line) != UpsertLine(b, leases, false, run, period, line) ==>
              && UpsertLine(b, leases, true, run, period, line) == Aborted
              && exists i, l :: 0 <= i < |b.invoices| && 0 <= l < |b.invoices[i].lines| && b.invoices[i].lines[l].chargeKey == line.chargeKey
  {
  }

  function LeaseOps(leases: seq<Lease>): seq<SysOp> {
    if leases == [] then [] else LeaseOps(leases[..|leases| - 1]) + [SetLease(|leases| - 1, leases[|leases| - 1])]
  }

  /** Among the steps are all changes other services may make to leases: any lease table that keeps the
      leases there are comes about from any state without touching anything else. */
  lemma {:induction false} LeasesAreFree(s: Sys, leases: seq<Lease>)
    ensures SysRun(s, LeaseOps(leases)) == s.(leases := leases + if |s.leases| > |leases| then s.leases[|leases|..] else [])
  {
    if leases != [] {
      var n := |leases| - 1;
      LeasesAreFree(s, leases[..n]);
      var ops := LeaseOps(leases);
      assert ops[..|ops| - 1] == LeaseOps(leases[..n]) && ops[|ops| - 1] == SetLease(n, leases[n]);
      assert leases == leases[..n] + [leases[n]];
    }
  }

  /** And every step on the invoices and credit notes themselves, except the drafts told of above. */
  lemma BooksStepsAreFree(s: Sys, op: Op)
    requires SysStep(s, BooksOp(op)).1 != Refused(KeyInUse)
    ensures SysStep(s, BooksOp(op)) == (s.(books := Step(s.books, op).0), Step(s.books, op).1)
  {
  }

  /** A run starts with nothing previewed, for its period, property and currency, and its leases get schedules. */
  lemma RunIsCreated(s: Sys, period: string, property: Option<Id>, currency: Option<string>)
    ensures var after := SysStep(s, CreateRun(period, property, currency)).0;
            && |after.runs| == |s.runs| + 1 && after.runs[..|s.runs|] == s.runs
            && after.runs[|s.runs|] == BillingRun(period, property, RunDraft, None, 0, currency, 1)
            && after == s.(leases := after.leases, runs := after.runs) && |after.leases| == |s.leases|
            && forall i :: 0 <= i < |s.leases| ==>
                 && after.leases[i].(scheduled := s.leases[i].scheduled) == s.leases[i]
                 && (after.leases[i].scheduled <==>
                       s.leases[i].scheduled
                       || (!s.leases[i].deleted && s.leases[i].running && (property.Some? ==> s.leases[i].property == property.value)))
  {
    forall i | 0 <= i < |s.leases| { ScheduledLeases(s.leases, property, i); }
  }
}
