/** How an import job is claimed (import.service.ts). */
module ImportClaims {
  import opened Prelude
  import opened InventoryRules
  import opened InventoryImport
  import opened ImportJobs

  // One job under any number of dry runs, commits and handlers at once. A dry run is its status check
  // and the transaction that ends it. A commit makes its checks, resolves the caller's scope and reads
  // the accepted rows, skips those out of scope one by one, reads and then writes the counts, and
  // claims the job, all but the last outside a transaction. A handler reads the job, marks it, reads
  // its accepted rows and writes the outcome. Every call may stop after any step: it then takes no more.
  // The file and the mapping of a job never change, so neither does what validation says of its rows.

  /** The scope a commit resolved, and how many dry runs had ended when it read the rows. */
  datatype Check = Check(catalog: Catalog, scope: Scope, run: nat)

  datatype Commit =
    | Admitted
    | Skipping(check: Check, todo: seq<nat>, demoted: nat)
    | Recounting(check: Check, seen: Counts, demoted: nat)
    | Checked(check: Check)

  datatype Handler =
    | Seen(counts: Counts)
    | Marked(counts: Counts)
    | Working(counts: Counts, dtos: seq<RowDto>)

  /** `ended` counts the dry runs that have ended. Every claim appends one commit event: `claims` holds
      the check behind each. */
  datatype ImportJob = ImportJob(
    file: seq<RowResult>, status: JobStatus, counts: Counts, rows: seq<JobRow>, ended: nat,
    dryRuns: set<nat>, commits: map<nat, Commit>, handlers: map<nat, Handler>, claims: seq<Check>)

  datatype Op =
    | StartDryRun(call: nat)
    | FinishDryRun(call: nat, catalog: Catalog, scope: Scope)
    | StartCommit(call: nat)
    | ReadScope(call: nat, catalog: Catalog, scope: Scope)
    | SkipRow(call: nat)
    | ReadCounts(call: nat)
    | WriteCounts(call: nat)
    | Claim(call: nat)
    | HandlerReads(handler: nat)
    | HandlerMarks(handler: nat)
    | HandlerFetches(handler: nat)
    | HandlerEnds(handler: nat, failsAfter: Option<nat>)

  const NO_COUNTS := Counts(0, 0, 0, 0, 0)

  function NewJob(file: seq<RowResult>): ImportJob {
    ImportJob(file, Queued, NO_COUNTS, [], 0, {}, map[], map[], [])
  }

  predicate IsOpen(status: JobStatus) {
    status == Queued || status == Failed
  }

  /** `counts.total === 0 && counts.accepted === 0`: no dry run has ended yet. */
  predicate Unvalidated(counts: Counts) {
    counts.total == 0 && counts.accepted == 0
  }

  /** The accepted rows the scope denies, in order. */
  function ToSkip(rows: seq<JobRow>, catalog: Catalog, scope: Scope): seq<nat> {
    if rows == [] then []
    else
      var n := |rows| - 1;
      ToSkip(rows[..n], catalog, scope) + if Rescope(rows[n], catalog, scope) != rows[n] then [n] else []
  }

  /** The update of one row by id, whatever its status is by now. */
  function Skipped(row: JobRow, check: Check): JobRow {
    row.(status := SKIPPED,
         reason := if row.dto.Some? then ScopeReason(check.catalog, check.scope, row.dto.value.propertyCode) else row.reason)
  }

  function SkipStep(j: ImportJob, call: nat): ImportJob
    requires call in j.commits && j.commits[call].Skipping? && j.commits[call].todo != []
  {
    var c := j.commits[call];
    var i := c.todo[0];
    if c.check.run != j.ended || i >= |j.rows| then j.(commits := j.commits - {call})   // the row is gone: the commit fails
    else j.(rows := j.rows[i := Skipped(j.rows[i], c.check)],
            commits := j.commits[call := Skipping(c.check, c.todo[1..], c.demoted + 1)])
  }

  function CommitStep(j: ImportJob, op: Op): ImportJob
    requires op.ReadScope? || op.SkipRow? || op.ReadCounts? || op.WriteCounts? || op.Claim?
  {
    if op.call !in j.commits then j
    else
      var c := j.commits[op.call];
      match op
      case ReadScope(call, catalog, scope) =>
        if !c.Admitted? then j
        else if scope.None? then j.(commits := j.commits[call := Checked(Check(catalog, scope, j.ended))])
        else j.(commits := j.commits[call := Skipping(Check(catalog, scope, j.ended), ToSkip(j.rows, catalog, scope), 0)])
      case SkipRow(call) => if c.Skipping? && c.todo != [] then SkipStep(j, call) else j
      case ReadCounts(call) =>
        if !c.Skipping? || c.todo != [] then j
        else if c.demoted == 0 then j.(commits := j.commits[call := Checked(c.check)])
        else j.(commits := j.commits[call := Recounting(c.check, j.counts, c.demoted)])
      case WriteCounts(call) =>
        if !c.Recounting? then j
        else j.(counts := Recount(c.seen, c.demoted), commits := j.commits[call := Checked(c.check)])
      case Claim(call) =>
        if !c.Checked? then j
        else if IsOpen(j.status) then
          j.(status := Processing, claims := j.claims + [c.check], commits := j.commits - {call})
        else j.(commits := j.commits - {call})
  }

  predicate FinishedStatus(status: JobStatus) {
    status == Completed || status == PartiallyCompleted
  }

  function HandlerStep(j: ImportJob, op: Op): ImportJob
    requires op.HandlerReads? || op.HandlerMarks? || op.HandlerFetches? || op.HandlerEnds?
  {
    var h := op.handler;
    if op.HandlerReads? then
      if h in j.handlers || j.claims == [] || FinishedStatus(j.status) then j
      else j.(handlers := j.handlers[h := Seen(j.counts)])
    else if h !in j.handlers then j
    else
      var c := j.handlers[h].counts;
      match op
      case HandlerMarks(_) =>
        if j.handlers[h].Seen? then j.(status := Processing, handlers := j.handlers[h := Marked(c)]) else j
      case HandlerFetches(_) =>
        if j.handlers[h].Marked? then j.(handlers := j.handlers[h := Working(c, AcceptedDtos(j.rows))]) else j
      case HandlerEnds(_, failsAfter) =>
        if !j.handlers[h].Working? then j
        else
          var n := |j.handlers[h].dtos|;
          var applied := if failsAfter.Some? then Min(failsAfter.value, n) else n;
          j.(status := Outcome(c, n, failsAfter), counts := c.(applied := applied), handlers := j.handlers - {h})
  }

  /** The status a handler leaves: of n rows it applied all, or failed on the way. */
  function Outcome(counts: Counts, n: nat, failsAfter: Option<nat>): JobStatus {
    if failsAfter.Some? then Failed else FinalStatus(counts, n)
  }

  function Step(j: ImportJob, op: Op): ImportJob {
    match op
    case StartDryRun(call) => if IsOpen(j.status) then j.(dryRuns := j.dryRuns + {call}) else j
    case FinishDryRun(call, catalog, scope) =>
      if call !in j.dryRuns then j
      else
        var rows := ClassifyAll(j.file, catalog, scope);
        j.(status := Queued, rows := rows, counts := CountsOf(rows), ended := j.ended + 1, dryRuns := j.dryRuns - {call})
    case StartCommit(call) =>
      if call in j.commits || Unvalidated(j.counts) || !IsOpen(j.status) then j
      else j.(commits := j.commits[call := Admitted])
    case HandlerReads(_) => HandlerStep(j, op)
    case HandlerMarks(_) => HandlerStep(j, op)
    case HandlerFetches(_) => HandlerStep(j, op)
    case HandlerEnds(_, _) => HandlerStep(j, op)
    case _ => CommitStep(j, op)
  }

  function Run(j: ImportJob, ops: seq<Op>): ImportJob {
    if ops == [] then j else Step(Run(j, ops[..|ops| - 1]), ops[|ops| - 1])
  }

  // ----- the service -----

  datatype Answer = NotValidated | Replay | Proceeds

  class ImportJobTable {
    const file: seq<RowResult>
    var status: JobStatus
    var counts: Counts
    var rows: seq<JobRow>
    var ended: nat
    var dryRuns: set<nat>
    var commits: map<nat, Commit>
    var handlers: map<nat, Handler>
    var claims: seq<Check>

    constructor (file: seq<RowResult>)
      ensures Snapshot() == NewJob(file)
    {
      this.file := file;
      status, counts, rows, ended := Queued, NO_COUNTS, [], 0;
      dryRuns, commits, handlers, claims := {}, map[], map[], [];
    }

    function Snapshot(): ImportJob
      reads this
    {
      ImportJob(file, status, counts, rows, ended, dryRuns, commits, handlers, claims)
    }

    /** The status check of dryRun, and the transaction that ends it. */
    method BeginDryRun(call: nat) returns (refused: bool)
      modifies this`dryRuns
      ensures Snapshot() == Step(old(Snapshot()), StartDryRun(call)) && refused == !IsOpen(status)
    {
      if status == Processing || status == Completed || status == PartiallyCompleted { return true; }
      dryRuns := dryRuns + {call};
      return false;
    }

    method EndDryRun(call: nat, catalog: Catalog, scope: Scope)
      requires call in dryRuns
      modifies this`status, this`rows, this`counts, this`ended, this`dryRuns
      ensures Snapshot() == Step(old(Snapshot()), FinishDryRun(call, catalog, scope))
    {
      rows, counts := DryRunRows(file, catalog, scope);
      status, ended, dryRuns := Queued, ended + 1, dryRuns - {call};
    }

    /** The checks at the start of commit. */
    method AdmitCommit(call: nat) returns (answer: Answer)
      requires call !in commits
      modifies this`commits
      ensures Snapshot() == Step(old(Snapshot()), StartCommit(call))
      ensures answer == if Unvalidated(counts) then NotValidated else if IsOpen(status) then Proceeds else Replay
    {
      if counts.total == 0 && counts.accepted == 0 { return NotValidated; }
      if status == Completed || status == PartiallyCompleted || status == Processing { return Replay; }
      commits := commits[call := Admitted];
      return Proceeds;
    }

    /** One row of the scope check: the update by id, which fails if a dry run has replaced the rows. */
    method SkipNextRow(call: nat) returns (gone: bool)
      requires call in commits && commits[call].Skipping? && commits[call].todo != []
      modifies this`rows, this`commits
      ensures Snapshot() == Step(old(Snapshot()), SkipRow(call)) && gone == (call !in commits)
    {
      var c := commits[call];
      var i := c.todo[0];
      if c.check.run != ended || i >= |rows| {
        commits := commits - {call};
        return true;
      }
      rows := rows[i := Skipped(rows[i], c.check)];
      commits := commits[call := Skipping(c.check, c.todo[1..], c.demoted + 1)];
      return false;
    }

    /** The claim of `commit`, with the event it appends. */
    method ClaimJob(call: nat) returns (replayed: bool)
      requires call in commits && commits[call].Checked?
      modifies this`status, this`claims, this`commits
      ensures Snapshot() == Step(old(Snapshot()), Claim(call)) && replayed == (claims == old(claims))
    {
      var check := commits[call].check;
      commits := commits - {call};
      if status != Queued && status != Failed { return true; }
      status, claims := Processing, claims + [check];
      return false;
    }
  }

  // ----- what every run keeps -----

  /** An accepted row for a property that is unknown or not in the scope. */
  ghost predicate Denied(catalog: Catalog, scope: Scope, row: JobRow) {
    && row.status == ACCEPTED && row.dto.Some? && scope.Some?
    && (row.dto.value.propertyCode !in catalog.properties || catalog.properties[row.dto.value.propertyCode] !in scope.value)
  }

  ghost predicate DeniedBy(check: Check, row: JobRow) {
    Denied(check.catalog, check.scope, row)
  }

  ghost predicate AllAllowed(rows: seq<JobRow>, check: Check) {
    forall i :: 0 <= i < |rows| ==> !DeniedBy(check, rows[i])
  }

  /** Of the rows a commit has read, those that are still accepted and out of its scope are on its list. */
  ghost predicate CommitOk(j: ImportJob, c: Commit) {
    match c
    case Admitted => true
    case Skipping(check, todo, _) =>
      && check.run <= j.ended
      && (check.run == j.ended ==> forall i :: 0 <= i < |j.rows| && DeniedBy(check, j.rows[i]) ==> i in todo)
    case Recounting(check, seen, _) => !Unvalidated(seen) && ClaimOk(j, check)
    case Checked(check) => ClaimOk(j, check)
  }

  ghost predicate ClaimOk(j: ImportJob, check: Check) {
    check.run <= j.ended && (check.run == j.ended ==> AllAllowed(j.rows, check))
  }

  ghost predicate Inv(j: ImportJob) {
    && j.file != []
    && (j.ended > 0 <==> !Unvalidated(j.counts))
    && j.counts.total == (if j.ended > 0 then |j.file| else 0)
    && (j.commits != map[] || j.claims != [] ==> j.ended > 0)
    && (j.handlers != map[] || !IsOpen(j.status) ==> j.claims != [])
    && (forall c :: c in j.commits ==> CommitOk(j, j.commits[c]))
    && (forall m :: 0 <= m < |j.claims| ==> ClaimOk(j, j.claims[m]))
    && (forall c :: c in j.commits && j.commits[c].Recounting? ==> j.commits[c].seen.total == |j.file|)
    && (forall h :: h in j.handlers ==> j.handlers[h].counts.total == |j.file|)
  }

  lemma {:induction false} ToSkipLists(rows: seq<JobRow>, catalog: Catalog, scope: Scope)
    ensures forall i :: i in ToSkip(rows, catalog, scope) <==> 0 <= i < |rows| && Denied(catalog, scope, rows[i])
    ensures |ToSkip(rows, catalog, scope)| == Demoted(rows, catalog, scope)
  {
    if rows != [] {
      ToSkipLists(rows[..|rows| - 1], catalog, scope);
    }
  }

  /** Skipping rows of one dry run denies nobody's check anything new. */
  lemma SkippingKeepsOk(j: ImportJob, i: nat, check: Check, c: Commit)
    requires i < |j.rows| && CommitOk(j, c)
    ensures CommitOk(j.(rows := j.rows[i := Skipped(j.rows[i], check)]), c)
  {
  }

  lemma SkipKeepsInv(j: ImportJob, call: nat)
    requires Inv(j) && call in j.commits && j.commits[call].Skipping? && j.commits[call].todo != []
    ensures Inv(SkipStep(j, call))
  {
    var after, c := SkipStep(j, call), j.commits[call];
    var i := c.todo[0];
    if c.check.run == j.ended && i < |j.rows| {
      var mid := j.(rows := j.rows[i := Skipped(j.rows[i], c.check)]);
      forall k | k in after.commits ensures CommitOk(after, after.commits[k]) {
        SkippingKeepsOk(j, i, c.check, j.commits[k]);
        if k == call { assert c.todo == [i] + c.todo[1..]; }
      }
      forall m | 0 <= m < |after.claims| ensures ClaimOk(after, after.claims[m]) {
        SkippingKeepsOk(j, i, c.check, Checked(j.claims[m]));
      }
    }
  }

  lemma ReadScopeKeepsInv(j: ImportJob, call: nat, catalog: Catalog, scope: Scope)
    requires Inv(j)
    ensures Inv(Step(j, ReadScope(call, catalog, scope)))
  {
    ToSkipLists(j.rows, catalog, scope);
  }

  lemma CommitKeepsInv(j: ImportJob, op: Op)
    requires Inv(j) && (op.ReadCounts? || op.WriteCounts? || op.Claim?)
    ensures Inv(Step(j, op))
  {
  }

  lemma HandlerKeepsInv(j: ImportJob, op: Op)
    requires Inv(j) && (op.HandlerReads? || op.HandlerMarks? || op.HandlerFetches? || op.HandlerEnds?)
    ensures Inv(Step(j, op))
  {
  }

  lemma DryRunKeepsInv(j: ImportJob, op: Op)
    requires Inv(j) && (op.StartDryRun? || op.FinishDryRun? || op.StartCommit?)
    ensures Inv(Step(j, op))
  {
  }

  lemma StepKeepsInv(j: ImportJob, op: Op)
    requires Inv(j)
    ensures Inv(Step(j, op))
  {
    match op
    case SkipRow(call) => if call in j.commits && j.commits[call].Skipping? && j.commits[call].todo != [] { SkipKeepsInv(j, call); }
    case ReadScope(call, catalog, scope) => ReadScopeKeepsInv(j, call, catalog, scope);
    case ReadCounts(_) => CommitKeepsInv(j, op);
    case WriteCounts(_) => CommitKeepsInv(j, op);
    case Claim(_) => CommitKeepsInv(j, op);
    case StartDryRun(_) => DryRunKeepsInv(j, op);
    case FinishDryRun(_, _, _) => DryRunKeepsInv(j, op);
    case StartCommit(_) => DryRunKeepsInv(j, op);
    case _ => HandlerKeepsInv(j, op);
  }

  lemma FileStays(j: ImportJob, op: Op)
    ensures Step(j, op).file == j.file
  {
  }

  lemma {:induction false} RunKeepsInv(file: seq<RowResult>, ops: seq<Op>)
    requires file != []
    ensures Inv(Run(NewJob(file), ops)) && Run(NewJob(file), ops).file == file
  {
    if ops != [] {
      RunKeepsInv(file, ops[..|ops| - 1]);
      StepKeepsInv(Run(NewJob(file), ops[..|ops| - 1]), ops[|ops| - 1]);
      FileStays(Run(NewJob(file), ops[..|ops| - 1]), ops[|ops| - 1]);
    }
  }

  // ----- whose rows a handler gets -----

  /** The state before step i. */
  function Before(file: seq<RowResult>, ops: seq<Op>, i: nat): ImportJob
    requires i <= |ops|
  {
    Run(NewJob(file), ops[..i])
  }

  lemma BeforeStep(file: seq<RowResult>, ops: seq<Op>, i: nat)
    requires i < |ops|
    ensures Before(file, ops, i + 1) == Step(Before(file, ops, i), ops[i])
  {
    assert ops[..i + 1][..i] == ops[..i];
  }

  predicate EndsDryRun(j: ImportJob, op: Op) {
    op.FinishDryRun? && op.call in j.dryRuns
  }

  predicate SkipsRow(j: ImportJob, op: Op, i: nat) {
    && op.SkipRow? && op.call in j.commits && j.commits[op.call].Skipping? && i < |j.rows|
    && j.commits[op.call].check.run == j.ended && j.commits[op.call].todo != [] && j.commits[op.call].todo[0] == i
  }

  /** The step at which the last dry run ended. */
  function LastDryRun(file: seq<RowResult>, ops: seq<Op>): (r: Option<nat>)
    ensures r.Some? ==> r.value < |ops| && ops[r.value].FinishDryRun?
  {
    if ops == [] then None
    else
      var n := |ops| - 1;
      if EndsDryRun(Run(NewJob(file), ops[..n]), ops[n]) then Some(n) else LastDryRun(file, ops[..n])
  }

  predicate SkipsAt(file: seq<RowResult>, ops: seq<Op>, k: nat, i: nat) {
    k < |ops| && SkipsRow(Before(file, ops, k), ops[k], i)
  }

  ghost predicate SkippedSince(file: seq<RowResult>, ops: seq<Op>, r: nat, i: nat) {
    exists k: nat :: r < k && SkipsAt(file, ops, k, i)
  }

  lemma SkipsEarlier(file: seq<RowResult>, ops: seq<Op>, n: nat, k: nat, i: nat)
    requires k < n <= |ops|
    ensures SkipsAt(file, ops[..n], k, i) <==> SkipsAt(file, ops, k, i)
  {
    assert ops[..n][..k] == ops[..k];
  }

  lemma SkippedSinceStep(file: seq<RowResult>, ops: seq<Op>, r: nat, i: nat)
    requires ops != [] && r < |ops| - 1
    ensures SkippedSince(file, ops, r, i)
            <==> SkippedSince(file, ops[..|ops| - 1], r, i) || SkipsAt(file, ops, |ops| - 1, i)
  {
    var n := |ops| - 1;
    forall k: nat | k < n ensures SkipsAt(file, ops[..n], k, i) <==> SkipsAt(file, ops, k, i) {
      SkipsEarlier(file, ops, n, k, i);
    }
    if SkippedSince(file, ops[..n], r, i) {
      var k: nat :| r < k && SkipsAt(file, ops[..n], k, i);
      assert SkipsAt(file, ops, k, i);
    }
    if SkippedSince(file, ops, r, i) {
      var k: nat :| r < k && SkipsAt(file, ops, k, i);
      assert k < n ==> SkipsAt(file, ops[..n], k, i);
    }
  }

  lemma RowsOnStep(j: ImportJob, op: Op)
    requires !EndsDryRun(j, op)
    ensures var after := Step(j, op).rows;
            && |after| == |j.rows|
            && forall i :: 0 <= i < |after| ==>
                 after[i].dto == j.rows[i].dto && (after[i].status == ACCEPTED <==> j.rows[i].status == ACCEPTED && !SkipsRow(j, op, i))
  {
  }

  /** The rows, told from the last dry run that ended and the checks since. */
  ghost predicate RowsAre(file: seq<RowResult>, ops: seq<Op>, rows: seq<JobRow>) {
    match LastDryRun(file, ops)
    case None => rows == []
    case Some(r) =>
      && |rows| == |file|
      && forall i :: 0 <= i < |file| ==>
           var verdict := Classify(file, i, ops[r].catalog, ops[r].scope);
           rows[i].dto == verdict.dto && (rows[i].status == ACCEPTED <==> verdict.status == ACCEPTED && !SkippedSince(file, ops, r, i))
  }

  lemma {:induction false} RowsTell(file: seq<RowResult>, ops: seq<Op>)
    requires file != []
    ensures RowsAre(file, ops, Run(NewJob(file), ops).rows)
  {
    if ops != [] {
      var n := |ops| - 1;
      var j := Run(NewJob(file), ops[..n]);
      RowsTell(file, ops[..n]);
      RunKeepsInv(file, ops[..n]);
      if !EndsDryRun(j, ops[n]) {
        RowsOnStep(j, ops[n]);
        match LastDryRun(file, ops[..n]) {
          case None =>
          case Some(r) => forall i: nat | i < |file| { SkippedSinceStep(file, ops, r, i); }
        }
      }
    }
  }

  /** A row that the caller behind claim m may not touch is accepted. */
  ghost predicate Escapes(j: ImportJob, m: nat)
    requires m < |j.claims|
  {
    exists i :: 0 <= i < |j.rows| && DeniedBy(j.claims[m], j.rows[i])
  }

  /** Over every interleaving: the rows a handler gets leave the scope that the committing caller had
      exactly when the last dry run to end accepted a row that this caller is denied and no check has
      skipped it since; and then that dry run ended after the caller's check read the rows. */
  lemma EscapesIff(file: seq<RowResult>, ops: seq<Op>, m: nat)
    requires file != [] && m < |Run(NewJob(file), ops).claims|
    ensures var j, last := Run(NewJob(file), ops), LastDryRun(file, ops);
            && last.Some?
            && (Escapes(j, m) <==> exists i: nat :: i < |file| && !SkippedSince(file, ops, last.value, i)
                                     && DeniedBy(j.claims[m], Classify(file, i, ops[last.value].catalog, ops[last.value].scope)))
            && (Escapes(j, m) ==> j.claims[m].run < j.ended)
  {
    var j := Run(NewJob(file), ops);
    RunKeepsInv(file, ops);
    RowsTell(file, ops);
    NoneEnded(file, ops);
    var r := LastDryRun(file, ops).value;
    var check := j.claims[m];
    forall i: nat | i < |file|
      ensures DeniedBy(check, j.rows[i])
              <==> !SkippedSince(file, ops, r, i) && DeniedBy(check, Classify(file, i, ops[r].catalog, ops[r].scope))
    {
    }
    if Escapes(j, m) {
      var i :| 0 <= i < |j.rows| && DeniedBy(check, j.rows[i]);
      assert DeniedBy(check, Classify(file, i, ops[r].catalog, ops[r].scope));
    }
  }

  lemma {:induction false} NoneEnded(file: seq<RowResult>, ops: seq<Op>)
    ensures LastDryRun(file, ops).None? <==> Run(NewJob(file), ops).ended == 0
  {
    if ops != [] {
      NoneEnded(file, ops[..|ops| - 1]);
    }
  }

  lemma {:induction false} AcceptedRowsIn(rows: seq<JobRow>, d: RowDto)
    requires d in AcceptedDtos(rows)
    ensures exists i :: 0 <= i < |rows| && rows[i].status == ACCEPTED && rows[i].dto == Some(d)
  {
    var n := |rows| - 1;
    if d in AcceptedDtos(rows[..n]) {
      AcceptedRowsIn(rows[..n], d);
      var i :| 0 <= i < n && rows[..n][i].status == ACCEPTED && rows[..n][i].dto == Some(d);
      assert rows[i].dto == Some(d);
    } else {
      assert rows[n].dto == Some(d);
    }
  }

  /** While no dry run has ended since that check, a handler that fetches the rows gets nothing else
      than rows the committing caller may touch. */
  lemma FetchedRowsAreAllowed(file: seq<RowResult>, ops: seq<Op>, m: nat, handler: nat)
    requires file != [] && m < |Run(NewJob(file), ops).claims|
    requires var j := Run(NewJob(file), ops);
             j.claims[m].run == j.ended && handler in j.handlers && j.handlers[handler].Marked?
    ensures var j := Run(NewJob(file), ops);
            var fetched := Step(j, HandlerFetches(handler)).handlers[handler].dtos;
            forall d :: d in fetched && j.claims[m].scope.Some? ==>
              d.propertyCode in j.claims[m].catalog.properties && j.claims[m].catalog.properties[d.propertyCode] in j.claims[m].scope.value
  {
    var j := Run(NewJob(file), ops);
    RunKeepsInv(file, ops);
    forall d | d in AcceptedDtos(j.rows) && j.claims[m].scope.Some?
      ensures d.propertyCode in j.claims[m].catalog.properties && j.claims[m].catalog.properties[d.propertyCode] in j.claims[m].scope.value
    {
      AcceptedRowsIn(j.rows, d);
    }
  }

  // ----- a check that nothing disturbs -----

  function Repeat(op: Op, n: nat): seq<Op> {
    if n == 0 then [] else Repeat(op, n - 1) + [op]
  }

  predicate InRange(todo: seq<nat>, n: nat) {
    forall k :: 0 <= k < |todo| ==> todo[k] < n
  }

  function SkipMany(rows: seq<JobRow>, todo: seq<nat>, check: Check): (after: seq<JobRow>)
    requires InRange(todo, |rows|)
    ensures |after| == |rows|
  {
    if todo == [] then rows
    else
      var n := |todo| - 1;
      var before := SkipMany(rows, todo[..n], check);
      before[todo[n] := Skipped(before[todo[n]], check)]
  }

  lemma {:induction false} SkipManySkips(rows: seq<JobRow>, todo: seq<nat>, check: Check)
    requires InRange(todo, |rows|)
    ensures forall i :: 0 <= i < |rows| ==> SkipMany(rows, todo, check)[i] == if i in todo then Skipped(rows[i], check) else rows[i]
  {
    if todo != [] {
      var n := |todo| - 1;
      SkipManySkips(rows, todo[..n], check);
      assert todo == todo[..n] + [todo[n]];
    }
  }

  lemma {:induction false} RunConcat(j: ImportJob, a: seq<Op>, b: seq<Op>)
    ensures Run(j, a + b) == Run(Run(j, a), b)
  {
    if b == [] {
      assert a + b == a;
    } else {
      RunConcat(j, a, b[..|b| - 1]);
      assert (a + b)[..|a + b| - 1] == a + b[..|b| - 1];
    }
  }

  lemma RunOne(j: ImportJob, op: Op)
    ensures Run(j, [op]) == Step(j, op)
  {
    assert [op][..0] == [];
  }

  lemma {:induction false} RepeatLength(op: Op, n: nat)
    ensures |Repeat(op, n)| == n
  {
    if n > 0 { RepeatLength(op, n - 1); }
  }

  /** After n rows of a list. */
  function SkippedFirst(j: ImportJob, call: nat, c: Commit, n: nat): ImportJob
    requires c.Skipping? && n <= |c.todo| && InRange(c.todo, |j.rows|)
  {
    j.(rows := SkipMany(j.rows, c.todo[..n], c.check), commits := j.commits[call := Skipping(c.check, c.todo[n..], c.demoted + n)])
  }

  lemma SkipsOne(j: ImportJob, call: nat, c: Commit, n: nat)
    requires c.Skipping? && n < |c.todo| && InRange(c.todo, |j.rows|) && c.check.run == j.ended
    ensures Step(SkippedFirst(j, call, c, n), SkipRow(call)) == SkippedFirst(j, call, c, n + 1)
  {
    var before := SkippedFirst(j, call, c, n);
    assert c.todo[n..][0] == c.todo[n] && c.todo[n..][1..] == c.todo[n + 1..];
    assert c.todo[..n + 1][..n] == c.todo[..n];
    assert Step(before, SkipRow(call)) == SkipStep(before, call);
    assert before.commits[call := Skipping(c.check, c.todo[n + 1..], c.demoted + n + 1)]
        == j.commits[call := Skipping(c.check, c.todo[n + 1..], c.demoted + n + 1)];
  }

  lemma {:induction false} SkipsRun(j: ImportJob, call: nat, c: Commit, n: nat)
    requires call in j.commits && j.commits[call] == c && c.Skipping? && n <= |c.todo|
    requires InRange(c.todo, |j.rows|) && c.check.run == j.ended
    ensures Run(j, Repeat(SkipRow(call), n)) == SkippedFirst(j, call, c, n)
  {
    if n == 0 {
      assert c.todo[..0] == [] && c.todo[0..] == c.todo;
      assert j.commits[call := c] == j.commits;
    } else {
      SkipsRun(j, call, c, n - 1);
      SkipsOne(j, call, c, n - 1);
      RunConcat(j, Repeat(SkipRow(call), n - 1), [SkipRow(call)]);
      RunOne(SkippedFirst(j, call, c, n - 1), SkipRow(call));
    }
  }

  /** The steps of the scope check, one after another. */
  function RecheckOps(rows: seq<JobRow>, call: nat, catalog: Catalog, scope: Scope): seq<Op> {
    if scope.None? then [ReadScope(call, catalog, scope)]
    else
      [ReadScope(call, catalog, scope)] + Repeat(SkipRow(call), |ToSkip(rows, catalog, scope)|)
      + ([ReadCounts(call)] + if |ToSkip(rows, catalog, scope)| == 0 then [] else [WriteCounts(call)])
  }

  lemma SkippedAll(rows: seq<JobRow>, catalog: Catalog, scope: Scope, run: nat)
    ensures InRange(ToSkip(rows, catalog, scope), |rows|)
    ensures SkipMany(rows, ToSkip(rows, catalog, scope), Check(catalog, scope, run)) == RescopeAll(rows, catalog, scope)
  {
    var todo := ToSkip(rows, catalog, scope);
    ToSkipLists(rows, catalog, scope);
    forall k | 0 <= k < |todo| ensures todo[k] < |rows| {
      assert todo[k] in todo;
    }
    SkipManySkips(rows, todo, Check(catalog, scope, run));
  }

  /** The job once its rows are checked and the counts are not yet. */
  function RowsChecked(j: ImportJob, call: nat, catalog: Catalog, scope: Scope): ImportJob {
    j.(rows := RescopeAll(j.rows, catalog, scope),
       commits := j.commits[call := Skipping(Check(catalog, scope, j.ended), [], Demoted(j.rows, catalog, scope))])
  }

  lemma UndisturbedSkips(j: ImportJob, call: nat, catalog: Catalog, scope: Scope)
    requires call in j.commits && j.commits[call].Admitted? && scope.Some?
    ensures Run(j, [ReadScope(call, catalog, scope)] + Repeat(SkipRow(call), |ToSkip(j.rows, catalog, scope)|))
         == RowsChecked(j, call, catalog, scope)
  {
    var read, todo := ReadScope(call, catalog, scope), ToSkip(j.rows, catalog, scope);
    var c := Skipping(Check(catalog, scope, j.ended), todo, 0);
    ToSkipLists(j.rows, catalog, scope);
    SkippedAll(j.rows, catalog, scope, j.ended);
    RunOne(j, read);
    SkipsRun(Step(j, read), call, c, |todo|);
    assert todo[..|todo|] == todo && todo[|todo|..] == [];
    RunConcat(j, [read], Repeat(SkipRow(call), |todo|));
    var after := SkippedFirst(Step(j, read), call, c, |todo|);
    assert after.commits == j.commits[call := Skipping(c.check, [], |todo|)];
  }

  lemma CountsSteps(j: ImportJob, call: nat, check: Check, n: nat)
    requires call in j.commits && j.commits[call] == Skipping(check, [], n)
    ensures var after := j.(counts := Recount(j.counts, n), commits := j.commits[call := Checked(check)]);
            var read := Step(j, ReadCounts(call));
            if n == 0 then read == after else Step(read, WriteCounts(call)) == after
  {
    if n > 0 {
      var mid := j.commits[call := Recounting(check, j.counts, n)];
      assert Step(j, ReadCounts(call)) == j.(commits := mid);
      assert mid[call := Checked(check)] == j.commits[call := Checked(check)];
    }
  }

  lemma RunTwo(j: ImportJob, a: Op, b: Op)
    ensures Run(j, [a, b]) == Step(Step(j, a), b)
  {
    RunOne(j, a);
    assert [a, b][..1] == [a];
  }

  lemma CountsChecked(j: ImportJob, call: nat, check: Check, n: nat)
    requires call in j.commits && j.commits[call] == Skipping(check, [], n)
    ensures Run(j, [ReadCounts(call)] + if n == 0 then [] else [WriteCounts(call)])
         == j.(counts := Recount(j.counts, n), commits := j.commits[call := Checked(check)])
  {
    CountsSteps(j, call, check, n);
    RunOne(j, ReadCounts(call));
    RunTwo(j, ReadCounts(call), WriteCounts(call));
    assert [ReadCounts(call)] + [] == [ReadCounts(call)];
    assert [ReadCounts(call)] + [WriteCounts(call)] == [ReadCounts(call), WriteCounts(call)];
  }

  /** With nothing in between, the steps of a check come to what ScopeOnlyNarrows speaks of. */
  lemma UndisturbedCheck(j: ImportJob, call: nat, catalog: Catalog, scope: Scope)
    requires call in j.commits && j.commits[call].Admitted?
    ensures Run(j, RecheckOps(j.rows, call, catalog, scope))
         == j.(rows := RescopeAll(j.rows, catalog, scope), counts := Recount(j.counts, Demoted(j.rows, catalog, scope)),
               commits := j.commits[call := Checked(Check(catalog, scope, j.ended))])
  {
    if scope.None? {
      RunOne(j, ReadScope(call, catalog, scope));
      NothingDemoted(j.rows, catalog);
    } else {
      var n := |ToSkip(j.rows, catalog, scope)|;
      var skips := [ReadScope(call, catalog, scope)] + Repeat(SkipRow(call), n);
      var mid := RowsChecked(j, call, catalog, scope);
      ToSkipLists(j.rows, catalog, scope);
      UndisturbedSkips(j, call, catalog, scope);
      CountsChecked(mid, call, Check(catalog, scope, j.ended), n);
      RunConcat(j, skips, [ReadCounts(call)] + if n == 0 then [] else [WriteCounts(call)]);
      assert mid.commits[call := Checked(Check(catalog, scope, j.ended))] == j.commits[call := Checked(Check(catalog, scope, j.ended))];
    }
  }

  /** A handler goes to work exactly on a job that was claimed and is not COMPLETED or PARTIALLY_COMPLETED. */
  lemma HandlerStartsIff(j: ImportJob, handler: nat)
    requires handler !in j.handlers
    ensures handler in Step(j, HandlerReads(handler)).handlers <==> j.claims != [] && j.status != Completed && j.status != PartiallyCompleted
    ensures handler !in Step(j, HandlerReads(handler)).handlers ==> Step(j, HandlerReads(handler)) == j
  {
  }

  /** When it is through, its job ends FAILED if it failed on the way or found usable rows counted but none
      to apply, COMPLETED if no row was rejected or skipped, and else PARTIALLY_COMPLETED; the counts are
      those it read, with what it applied. */
  lemma HandlerLeaves(j: ImportJob, handler: nat, failsAfter: Option<nat>)
    requires handler in j.handlers && j.handlers[handler].Working?
    ensures var seen, n := j.handlers[handler].counts, |j.handlers[handler].dtos|;
            var after := Step(j, HandlerEnds(handler, failsAfter));
            && after == j.(status := after.status, counts := after.counts, handlers := j.handlers - {handler})
            && after.counts == seen.(applied := after.counts.applied)
            && after.counts.applied <= n && (failsAfter.None? || failsAfter.value >= n ==> after.counts.applied == n)
            && (failsAfter.Some? && failsAfter.value < n ==> after.counts.applied == failsAfter.value)
            && (after.status == Failed <==> failsAfter.Some? || (seen.accepted > 0 && n == 0))
            && (after.status == Completed <==> after.status != Failed && seen.rejected == 0 && seen.skipped == 0)
            && (after.status == PartiallyCompleted <==> after.status != Failed && after.status != Completed)
  {
  }

  /** A claim ends its commit, and takes the job with one more event exactly if that is QUEUED or FAILED. */
  lemma ClaimTakesIff(j: ImportJob, call: nat)
    requires call in j.commits && j.commits[call].Checked?
    ensures var after := Step(j, Claim(call));
            var taken := j.status == Queued || j.status == Failed;
            && after == j.(status := after.status, claims := after.claims, commits := j.commits - {call})
            && after.status == (if taken then Processing else j.status)
            && after.claims == (if taken then j.claims + [j.commits[call].check] else j.claims)
  {
  }

  /** A check goes on to skip the next row on its list, as long as the rows are those it read; where a dry
      run has replaced them its commit is over and changes nothing. */
  lemma ReplacedRowsEndTheCommit(j: ImportJob, call: nat)
    requires call in j.commits && j.commits[call].Skipping? && j.commits[call].todo != []
    ensures var c, after := j.commits[call], Step(j, SkipRow(call));
            if c.check.run == j.ended && c.todo[0] < |j.rows|
            then && |after.rows| == |j.rows| && after.rows[c.todo[0]].status == SKIPPED
                 && after.rows[c.todo[0]] == j.rows[c.todo[0]].(status := SKIPPED, reason := after.rows[c.todo[0]].reason)
                 && (forall i :: 0 <= i < |j.rows| && i != c.todo[0] ==> after.rows[i] == j.rows[i])
                 && after == j.(rows := after.rows, commits := j.commits[call := Skipping(c.check, c.todo[1..], c.demoted + 1)])
            else after == j.(commits := j.commits - {call})
  {
  }

  // ----- how many events a job gets -----

  predicate Claiming(j: ImportJob, op: Op) {
    op.Claim? && op.call in j.commits && j.commits[op.call].Checked? && IsOpen(j.status)
  }

  predicate ClaimsAt(file: seq<RowResult>, ops: seq<Op>, i: nat) {
    i < |ops| && Claiming(Before(file, ops, i), ops[i])
  }

  /** A step takes the job from claimed or finished back to a status that can be claimed. */
  predicate Reopening(j: ImportJob, op: Op) {
    !IsOpen(j.status) && IsOpen(Step(j, op).status)
  }

  predicate ReopensAt(file: seq<RowResult>, ops: seq<Op>, i: nat) {
    i < |ops| && Reopening(Before(file, ops, i), ops[i])
  }

  predicate ClosesAt(file: seq<RowResult>, ops: seq<Op>, i: nat) {
    i < |ops| && IsOpen(Before(file, ops, i).status) && !IsOpen(Step(Before(file, ops, i), ops[i]).status)
  }

  lemma EventsStep(j: ImportJob, op: Op)
    ensures |Step(j, op).claims| == |j.claims| + if Claiming(j, op) then 1 else 0
  {
  }

  /** How often a run reopened the job. */
  function Reopenings(file: seq<RowResult>, ops: seq<Op>): nat {
    if ops == [] then 0
    else
      Reopenings(file, ops[..|ops| - 1]) + if Reopening(Run(NewJob(file), ops[..|ops| - 1]), ops[|ops| - 1]) then 1 else 0
  }

  /** The step that last reopened the job, while it is still open since. */
  function ReopenedBy(file: seq<RowResult>, ops: seq<Op>): Option<nat> {
    if ops == [] then None
    else
      var n := |ops| - 1;
      if Reopening(Run(NewJob(file), ops[..n]), ops[n]) then Some(n)
      else if IsOpen(Run(NewJob(file), ops).status) then ReopenedBy(file, ops[..n])
      else None
  }

  /** The reopenings after which the job was claimed again while still open. */
  function ReopeningsClaimed(file: seq<RowResult>, ops: seq<Op>): nat {
    if ops == [] then 0
    else
      var before := ops[..|ops| - 1];
      ReopeningsClaimed(file, before)
      + if Claiming(Run(NewJob(file), before), ops[|ops| - 1]) && ReopenedBy(file, before).Some? then 1 else 0
  }

  /** What the steps of a job do to its events and its status. */
  lemma StatusStep(j: ImportJob, op: Op)
    requires Inv(j)
    ensures Claiming(j, op) ==> !IsOpen(Step(j, op).status)
    ensures IsOpen(j.status) && !IsOpen(Step(j, op).status) ==> Step(j, op).claims != []
  {
    StepKeepsInv(j, op);
  }

  /** The exact law, over any interleaving: after its first event a job gets one event for each
      reopening that a claim follows, and no other. */
  lemma {:induction false} EventsAreClaims(file: seq<RowResult>, ops: seq<Op>)
    requires file != []
    ensures var events := |Run(NewJob(file), ops).claims|;
            && events == ReopeningsClaimed(file, ops) + (if events > 0 then 1 else 0)
            && (ReopenedBy(file, ops).Some? ==> IsOpen(Run(NewJob(file), ops).status) && events > 0)
            && (IsOpen(Run(NewJob(file), ops).status) && events > 0 ==> ReopenedBy(file, ops).Some?)
            && ReopeningsClaimed(file, ops) + (if ReopenedBy(file, ops).Some? then 1 else 0) <= Reopenings(file, ops)
  {
    if ops != [] {
      var before, op := ops[..|ops| - 1], ops[|ops| - 1];
      var j := Run(NewJob(file), before);
      EventsAreClaims(file, before);
      RunKeepsInv(file, before);
      RunKeepsInv(file, ops);
      EventsStep(j, op);
      StatusStep(j, op);
    }
  }

  lemma {:induction false} EventsOnlyGrow(file: seq<RowResult>, ops: seq<Op>, i: nat, k: nat)
    requires i <= k <= |ops|
    ensures |Before(file, ops, i).claims| <= |Before(file, ops, k).claims|
  {
    if i < k {
      EventsOnlyGrow(file, ops, i, k - 1);
      BeforeStep(file, ops, k - 1);
      EventsStep(Before(file, ops, k - 1), ops[k - 1]);
    }
  }

  /** The claim that brought the last event. */
  lemma {:induction false} LastClaim(file: seq<RowResult>, ops: seq<Op>, k: nat) returns (i: nat)
    requires k <= |ops| && Before(file, ops, k).claims != []
    ensures i < k && ClaimsAt(file, ops, i) && |Before(file, ops, i).claims| == |Before(file, ops, k).claims| - 1
  {
    assert k > 0 by { assert ops[..0] == []; }
    BeforeStep(file, ops, k - 1);
    EventsStep(Before(file, ops, k - 1), ops[k - 1]);
    if Claiming(Before(file, ops, k - 1), ops[k - 1]) {
      i := k - 1;
    } else {
      i := LastClaim(file, ops, k - 1);
    }
  }

  lemma {:induction false} ReopenedBetween(file: seq<RowResult>, ops: seq<Op>, m: nat, k: nat) returns (r: nat)
    requires m <= k <= |ops| && !IsOpen(Before(file, ops, m).status) && IsOpen(Before(file, ops, k).status)
    ensures m <= r < k && ReopensAt(file, ops, r)
    decreases k
  {
    BeforeStep(file, ops, k - 1);
    if IsOpen(Before(file, ops, k - 1).status) {
      r := ReopenedBetween(file, ops, m, k - 1);
    } else {
      r := k - 1;
    }
  }

  lemma {:induction false} ClosedBetween(file: seq<RowResult>, ops: seq<Op>, m: nat, k: nat) returns (c: nat)
    requires m <= k <= |ops| && IsOpen(Before(file, ops, m).status) && !IsOpen(Before(file, ops, k).status)
    ensures m <= c < k && ClosesAt(file, ops, c)
    decreases k
  {
    BeforeStep(file, ops, k - 1);
    if IsOpen(Before(file, ops, k - 1).status) {
      c := k - 1;
    } else {
      c := ClosedBetween(file, ops, m, k - 1);
    }
  }

  lemma DryRunsStep(j: ImportJob, op: Op, call: nat)
    requires call in Step(j, op).dryRuns && call !in j.dryRuns
    ensures op == StartDryRun(call) && IsOpen(j.status)
  {
  }

  /** A dry run under way passed its check at some step, while the job was open. */
  lemma {:induction false} StartOfDryRun(file: seq<RowResult>, ops: seq<Op>, k: nat, call: nat) returns (a: nat)
    requires k <= |ops| && call in Before(file, ops, k).dryRuns
    ensures a < k && ops[a] == StartDryRun(call) && IsOpen(Before(file, ops, a).status)
  {
    assert k > 0 by { assert ops[..0] == []; }
    BeforeStep(file, ops, k - 1);
    if call in Before(file, ops, k - 1).dryRuns {
      a := StartOfDryRun(file, ops, k - 1, call);
    } else {
      a := k - 1;
      DryRunsStep(Before(file, ops, a), ops[a], call);
    }
  }

  /** A delivery ends with the job FAILED. */
  predicate Fails(j: ImportJob, op: Op) {
    && op.HandlerEnds? && op.handler in j.handlers && j.handlers[op.handler].Working?
    && Outcome(j.handlers[op.handler].counts, |j.handlers[op.handler].dtos|, op.failsAfter) == Failed
  }

  /** A dry run ends at step r that began before the job was last taken. */
  ghost predicate LateDryRun(file: seq<RowResult>, ops: seq<Op>, r: nat) {
    && r < |ops| && EndsDryRun(Before(file, ops, r), ops[r])
    && exists a: nat, c: nat :: a < c < r && ops[a] == StartDryRun(ops[r].call) && ClosesAt(file, ops, c)
  }

  /** What can put a job that was taken back up for a claim. */
  ghost predicate PutsBack(file: seq<RowResult>, ops: seq<Op>, r: nat) {
    r < |ops| && (LateDryRun(file, ops, r) || Fails(Before(file, ops, r), ops[r]))
  }

  /** What reopens a job is a failed delivery or a dry run that was already past its check. */
  lemma ReopenedIff(j: ImportJob, op: Op)
    requires !IsOpen(j.status)
    ensures Reopening(j, op) <==> EndsDryRun(j, op) || Fails(j, op)
  {
  }

  lemma ReopenedHow(file: seq<RowResult>, ops: seq<Op>, r: nat)
    requires ReopensAt(file, ops, r)
    ensures PutsBack(file, ops, r)
  {
    ReopenedIff(Before(file, ops, r), ops[r]);
    if EndsDryRun(Before(file, ops, r), ops[r]) {
      var a := StartOfDryRun(file, ops, r, ops[r].call);
      var c := ClosedBetween(file, ops, a, r);
      assert c != a;
    }
  }

  lemma TwoEvents(file: seq<RowResult>, ops: seq<Op>) returns (r: nat, k: nat)
    requires |Run(NewJob(file), ops).claims| > 1
    ensures r < k && ReopensAt(file, ops, r) && ClaimsAt(file, ops, k)
  {
    assert ops[..|ops|] == ops;
    k := LastClaim(file, ops, |ops|);
    var i := LastClaim(file, ops, k);
    BeforeStep(file, ops, i);
    r := ReopenedBetween(file, ops, i + 1, k);
  }

  /** By the time a job is put back it has an event. */
  lemma PutBackHasEvent(file: seq<RowResult>, ops: seq<Op>, r: nat)
    requires file != [] && PutsBack(file, ops, r)
    ensures Before(file, ops, r).claims != []
  {
    if LateDryRun(file, ops, r) {
      var a: nat, c: nat :| a < c < r && ops[a] == StartDryRun(ops[r].call) && ClosesAt(file, ops, c);
      assert ops[..r][..c] == ops[..c];
      ClosedHasEvent(file, ops[..r], c);
    } else {
      RunKeepsInv(file, ops[..r]);
    }
  }

  lemma {:induction false} ClosedHasEvent(file: seq<RowResult>, ops: seq<Op>, c: nat)
    requires file != [] && ClosesAt(file, ops, c)
    ensures Run(NewJob(file), ops).claims != []
    decreases |ops|
  {
    var n := |ops| - 1;
    if c < n {
      assert ops[..n][..c] == ops[..c];
      ClosedHasEvent(file, ops[..n], c);
      EventsStep(Run(NewJob(file), ops[..n]), ops[n]);
    } else {
      RunKeepsInv(file, ops);
    }
  }

  lemma {:induction false} ClaimedTwice(file: seq<RowResult>, ops: seq<Op>, k: nat)
    requires k < |ops| && Before(file, ops, k).claims != [] && ClaimsAt(file, ops, k)
    ensures |Run(NewJob(file), ops).claims| > 1
    decreases |ops|
  {
    var n := |ops| - 1;
    EventsStep(Run(NewJob(file), ops[..n]), ops[n]);
    if k < n {
      assert ops[..n][..k] == ops[..k];
      ClaimedTwice(file, ops[..n], k);
    }
  }

  lemma ClaimAfter(file: seq<RowResult>, ops: seq<Op>, r: nat, k: nat)
    requires r < k < |ops| && Before(file, ops, r).claims != [] && ClaimsAt(file, ops, k)
    ensures |Run(NewJob(file), ops).claims| > 1
  {
    assert Before(file, ops, k).claims != [] by { EventsOnlyGrow(file, ops, r, k); }
    ClaimedTwice(file, ops, k);
  }

  /** A job has at most one event exactly when no failed delivery, and no dry run that began before the
      job was taken and ended after, is followed by a claim. */
  lemma OneEventIff(file: seq<RowResult>, ops: seq<Op>)
    requires file != []
    ensures |Run(NewJob(file), ops).claims| <= 1
            <==> forall r: nat, k: nat :: !(PutsBack(file, ops, r) && r < k && ClaimsAt(file, ops, k))
  {
    if |Run(NewJob(file), ops).claims| > 1 {
      var r, k := TwoEvents(file, ops);
      ReopenedHow(file, ops, r);
    }
    forall r: nat, k: nat | PutsBack(file, ops, r) && r < k && ClaimsAt(file, ops, k) ensures |Run(NewJob(file), ops).claims| > 1 {
      PutBackHasEvent(file, ops, r);
      ClaimAfter(file, ops, r, k);
    }
  }

  // ----- what goes wrong, at runs -----

  /** A new job whose file was dry-run once, by a caller with every scope. */
  function Ready(file: seq<RowResult>, catalog: Catalog): ImportJob {
    var rows := ClassifyAll(file, catalog, None);
    NewJob(file).(rows := rows, counts := CountsOf(rows), ended := 1)
  }

  function FirstDryRun(catalog: Catalog): seq<Op> {
    [StartDryRun(9), FinishDryRun(9, catalog, None)]
  }

  lemma MadeReady(file: seq<RowResult>, catalog: Catalog)
    ensures Run(NewJob(file), FirstDryRun(catalog)) == Ready(file, catalog)
  {
    RunTwo(NewJob(file), StartDryRun(9), FinishDryRun(9, catalog, None));
    assert {9} - {9} == {};
  }

  lemma RunThen(j: ImportJob, ops: seq<Op>, op: Op)
    ensures Run(j, ops + [op]) == Step(Run(j, ops), op)
  {
    assert (ops + [op])[..|ops|] == ops;
  }

  /** A commit by a caller with every scope, from its checks to its claim. */
  function WholeCommit(call: nat, catalog: Catalog): seq<Op> {
    [StartCommit(call), ReadScope(call, catalog, None), Claim(call)]
  }

  lemma Committed(j: ImportJob, call: nat, catalog: Catalog)
    requires call !in j.commits && !Unvalidated(j.counts) && IsOpen(j.status)
    ensures Run(j, WholeCommit(call, catalog)) == j.(status := Processing, claims := j.claims + [Check(catalog, None, j.ended)])
  {
    var a, b, c := StartCommit(call), ReadScope(call, catalog, None), Claim(call);
    RunTwo(j, a, b);
    RunThen(j, [a, b], c);
    assert [a, b] + [c] == WholeCommit(call, catalog);
    var check := Check(catalog, None, j.ended);
    assert Step(j, a) == j.(commits := j.commits[call := Admitted]);
    assert j.commits[call := Admitted][call := Checked(check)] == j.commits[call := Checked(check)];
    assert j.commits[call := Checked(check)] - {call} == j.commits;
  }

  /** The claim alone does not keep a dry run out: one still under way puts the claimed job back in the
      queue, and the next commit appends a second event. */
  lemma LateDryRunDuplicatesTheEvent(file: seq<RowResult>, catalog: Catalog)
    requires file != []
    ensures var ops := FirstDryRun(catalog) + [StartDryRun(0)] + WholeCommit(1, catalog) + [FinishDryRun(0, catalog, None)]
                       + WholeCommit(2, catalog);
            Run(NewJob(file), ops) == Ready(file, catalog).(status := Processing, ended := 2,
                                                            claims := [Check(catalog, None, 1), Check(catalog, None, 2)])
  {
    var job, j, rows := NewJob(file), Ready(file, catalog), ClassifyAll(file, catalog, None);
    var a := FirstDryRun(catalog);
    var b := a + [StartDryRun(0)];
    var c := b + WholeCommit(1, catalog);
    var d := c + [FinishDryRun(0, catalog, None)];
    MadeReady(file, catalog);
    RunThen(job, a, StartDryRun(0));
    var started := j.(dryRuns := {0});
    assert Run(job, b) == started;
    RunConcat(job, b, WholeCommit(1, catalog));
    Committed(started, 1, catalog);
    var claimed := started.(status := Processing, claims := [Check(catalog, None, 1)]);
    assert Run(job, c) == claimed;
    RunThen(job, c, FinishDryRun(0, catalog, None));
    assert {0} - {0} == {};
    var reopened := j.(ended := 2, claims := [Check(catalog, None, 1)]);
    assert Run(job, d) == reopened;
    RunConcat(job, d, WholeCommit(2, catalog));
    Committed(reopened, 2, catalog);
  }

  /** A dry run ends between a commit's check and its claim. */
  lemma EndedBeforeTheClaim(j: ImportJob, check: Check, catalog: Catalog)
    requires j.commits == map[1 := Checked(check)] && j.dryRuns == {0} && j.claims == []
    ensures var rows := ClassifyAll(j.file, catalog, None);
            Run(j, [FinishDryRun(0, catalog, None), Claim(1)])
            == j.(status := Processing, rows := rows, counts := CountsOf(rows), ended := j.ended + 1, dryRuns := {},
                  commits := map[], claims := [check])
  {
    RunTwo(j, FinishDryRun(0, catalog, None), Claim(1));
    assert {0} - {0} == {} && map[1 := Checked(check)] - {1} == map[];
  }

  lemma FetchSteps(j: ImportJob)
    requires j.handlers == map[] && j.claims != [] && !FinishedStatus(j.status)
    ensures Step(Step(Step(j, HandlerReads(2)), HandlerMarks(2)), HandlerFetches(2))
         == j.(status := Processing, handlers := map[2 := Working(j.counts, AcceptedDtos(j.rows))])
  {
    assert Step(j, HandlerReads(2)) == j.(handlers := map[2 := Seen(j.counts)]);
    assert Step(Step(j, HandlerReads(2)), HandlerMarks(2)) == j.(status := Processing, handlers := map[2 := Marked(j.counts)]);
  }

  lemma Fetched(j: ImportJob)
    requires j.handlers == map[] && j.claims != [] && !FinishedStatus(j.status)
    ensures Run(j, [HandlerReads(2), HandlerMarks(2)] + [HandlerFetches(2)])
         == j.(status := Processing, handlers := map[2 := Working(j.counts, AcceptedDtos(j.rows))])
  {
    RunTwo(j, HandlerReads(2), HandlerMarks(2));
    RunThen(j, [HandlerReads(2), HandlerMarks(2)], HandlerFetches(2));
    FetchSteps(j);
  }

  lemma AdmittedMeanwhile(file: seq<RowResult>, catalog: Catalog)
    requires file != []
    ensures Run(NewJob(file), FirstDryRun(catalog) + [StartDryRun(0), StartCommit(1)])
         == Ready(file, catalog).(dryRuns := {0}, commits := map[1 := Admitted])
  {
    MadeReady(file, catalog);
    RunConcat(NewJob(file), FirstDryRun(catalog), [StartDryRun(0), StartCommit(1)]);
    RunTwo(Ready(file, catalog), StartDryRun(0), StartCommit(1));
  }

  /** A commit can claim rows it never checked: with a dry run by a caller with every scope ending after
      the check, a handler gets all that this caller may import, whatever scope the commit had. */
  lemma LateDryRunWidensTheClaim(file: seq<RowResult>, catalog: Catalog, scope: Scope)
    requires file != []
    ensures var rows := ClassifyAll(file, catalog, None);
            var ops := FirstDryRun(catalog) + [StartDryRun(0), StartCommit(1)] + RecheckOps(rows, 1, catalog, scope)
                       + [FinishDryRun(0, catalog, None), Claim(1)] + ([HandlerReads(2), HandlerMarks(2)] + [HandlerFetches(2)]);
            var j := Run(NewJob(file), ops);
            j.claims == [Check(catalog, scope, 1)] && j.handlers == map[2 := Working(CountsOf(rows), AcceptedDtos(rows))]
  {
    var job, rows := NewJob(file), ClassifyAll(file, catalog, None);
    var b := FirstDryRun(catalog) + [StartDryRun(0), StartCommit(1)];
    var c := b + RecheckOps(rows, 1, catalog, scope);
    var d := c + [FinishDryRun(0, catalog, None), Claim(1)];
    AdmittedMeanwhile(file, catalog);
    RunConcat(job, b, RecheckOps(rows, 1, catalog, scope));
    UndisturbedCheck(Run(job, b), 1, catalog, scope);
    RunConcat(job, c, [FinishDryRun(0, catalog, None), Claim(1)]);
    EndedBeforeTheClaim(Run(job, c), Check(catalog, scope, 1), catalog);
    RunConcat(job, d, [HandlerReads(2), HandlerMarks(2)] + [HandlerFetches(2)]);
    Fetched(Run(job, d));
  }

  /** Two checks that read the same rows: the second update of the counts takes the rows off again. */
  function OverlappingChecks(rows: seq<JobRow>, catalog: Catalog, scope: Scope): seq<Op> {
    var n := |ToSkip(rows, catalog, scope)|;
    [ReadScope(1, catalog, scope), ReadScope(2, catalog, scope)] + Repeat(SkipRow(1), n) + Repeat(SkipRow(2), n)
    + CountOps(1, n) + CountOps(2, n)
  }

  function CountOps(call: nat, n: nat): seq<Op> {
    [ReadCounts(call)] + if n == 0 then [] else [WriteCounts(call)]
  }

  lemma SkippedTwice(rows: seq<JobRow>, catalog: Catalog, scope: Scope, run: nat)
    ensures InRange(ToSkip(rows, catalog, scope), |RescopeAll(rows, catalog, scope)|)
    ensures SkipMany(RescopeAll(rows, catalog, scope), ToSkip(rows, catalog, scope), Check(catalog, scope, run))
         == RescopeAll(rows, catalog, scope)
  {
    SkippedAll(rows, catalog, scope, run);
    ToSkipLists(rows, catalog, scope);
    SkipManySkips(RescopeAll(rows, catalog, scope), ToSkip(rows, catalog, scope), Check(catalog, scope, run));
  }

  function Listed(j: ImportJob, catalog: Catalog, scope: Scope): Commit {
    Skipping(Check(catalog, scope, j.ended), ToSkip(j.rows, catalog, scope), 0)
  }

  function Worked(j: ImportJob, catalog: Catalog, scope: Scope): Commit {
    Skipping(Check(catalog, scope, j.ended), [], |ToSkip(j.rows, catalog, scope)|)
  }

  lemma ReadSteps(j: ImportJob, catalog: Catalog, scope: Scope)
    requires j.commits == map[1 := Admitted, 2 := Admitted] && scope.Some?
    ensures var c := Listed(j, catalog, scope);
            Step(Step(j, ReadScope(1, catalog, scope)), ReadScope(2, catalog, scope)) == j.(commits := map[1 := c, 2 := c])
  {
    var c := Listed(j, catalog, scope);
    assert Step(j, ReadScope(1, catalog, scope)) == j.(commits := map[1 := c, 2 := Admitted]);
  }

  lemma BothRead(j: ImportJob, catalog: Catalog, scope: Scope)
    requires j.commits == map[1 := Admitted, 2 := Admitted] && scope.Some?
    ensures var c := Listed(j, catalog, scope);
            Run(j, [ReadScope(1, catalog, scope), ReadScope(2, catalog, scope)]) == j.(commits := map[1 := c, 2 := c])
  {
    RunTwo(j, ReadScope(1, catalog, scope), ReadScope(2, catalog, scope));
    ReadSteps(j, catalog, scope);
  }

  lemma SkipsAll(j: ImportJob, call: nat, c: Commit)
    requires call in j.commits && j.commits[call] == c && c.Skipping? && c.check.run == j.ended && InRange(c.todo, |j.rows|)
    ensures Run(j, Repeat(SkipRow(call), |c.todo|))
         == j.(rows := SkipMany(j.rows, c.todo, c.check), commits := j.commits[call := Skipping(c.check, [], c.demoted + |c.todo|)])
  {
    SkipsRun(j, call, c, |c.todo|);
    WholeList(j, call, c);
  }

  lemma WholeList(j: ImportJob, call: nat, c: Commit)
    requires c.Skipping? && InRange(c.todo, |j.rows|)
    ensures SkippedFirst(j, call, c, |c.todo|)
         == j.(rows := SkipMany(j.rows, c.todo, c.check), commits := j.commits[call := Skipping(c.check, [], c.demoted + |c.todo|)])
  {
    assert c.todo[..|c.todo|] == c.todo && c.todo[|c.todo|..] == [];
  }

  lemma OneOfTwo(a: Commit, b: Commit, d: Commit)
    ensures map[1 := a, 2 := b][1 := d] == map[1 := d, 2 := b]
    ensures map[1 := a, 2 := b][2 := d] == map[1 := a, 2 := d]
  {
  }

  lemma FirstSkips(j: ImportJob, catalog: Catalog, scope: Scope)
    ensures var n, c, d := |ToSkip(j.rows, catalog, scope)|, Listed(j, catalog, scope), Worked(j, catalog, scope);
            Run(j.(commits := map[1 := c, 2 := c]), Repeat(SkipRow(1), n))
            == j.(rows := RescopeAll(j.rows, catalog, scope), commits := map[1 := d, 2 := c])
  {
    var c, d := Listed(j, catalog, scope), Worked(j, catalog, scope);
    SkippedAll(j.rows, catalog, scope, j.ended);
    SkipsAll(j.(commits := map[1 := c, 2 := c]), 1, c);
    OneOfTwo(c, c, d);
  }

  lemma SecondSkips(j: ImportJob, catalog: Catalog, scope: Scope)
    ensures var n, c, d := |ToSkip(j.rows, catalog, scope)|, Listed(j, catalog, scope), Worked(j, catalog, scope);
            Run(j.(rows := RescopeAll(j.rows, catalog, scope), commits := map[1 := d, 2 := c]), Repeat(SkipRow(2), n))
            == j.(rows := RescopeAll(j.rows, catalog, scope), commits := map[1 := d, 2 := d])
  {
    var c, d := Listed(j, catalog, scope), Worked(j, catalog, scope);
    SkippedTwice(j.rows, catalog, scope, j.ended);
    SkipsAll(j.(rows := RescopeAll(j.rows, catalog, scope), commits := map[1 := d, 2 := c]), 2, c);
    OneOfTwo(d, c, d);
  }

  lemma RunThree(j: ImportJob, a: seq<Op>, b: seq<Op>, c: seq<Op>)
    ensures Run(j, a + b + c) == Run(Run(Run(j, a), b), c)
  {
    RunConcat(j, a, b);
    RunConcat(j, a + b, c);
  }

  lemma BothSkip(j: ImportJob, catalog: Catalog, scope: Scope)
    requires j.commits == map[1 := Admitted, 2 := Admitted] && scope.Some?
    ensures var n, d := |ToSkip(j.rows, catalog, scope)|, Worked(j, catalog, scope);
            Run(j, [ReadScope(1, catalog, scope), ReadScope(2, catalog, scope)] + Repeat(SkipRow(1), n) + Repeat(SkipRow(2), n))
            == j.(rows := RescopeAll(j.rows, catalog, scope), commits := map[1 := d, 2 := d])
  {
    var n := |ToSkip(j.rows, catalog, scope)|;
    BothRead(j, catalog, scope);
    FirstSkips(j, catalog, scope);
    SecondSkips(j, catalog, scope);
    RunThree(j, [ReadScope(1, catalog, scope), ReadScope(2, catalog, scope)], Repeat(SkipRow(1), n), Repeat(SkipRow(2), n));
  }

  lemma BothCount(j: ImportJob, check: Check, n: nat)
    requires j.commits == map[1 := Skipping(check, [], n), 2 := Skipping(check, [], n)]
    ensures Run(j, CountOps(1, n) + CountOps(2, n))
         == j.(counts := Recount(Recount(j.counts, n), n), commits := map[1 := Checked(check), 2 := Checked(check)])
  {
    CountsChecked(j, 1, check, n);
    var mid := j.(counts := Recount(j.counts, n), commits := map[1 := Checked(check), 2 := Skipping(check, [], n)]);
    assert Run(j, CountOps(1, n)) == mid;
    CountsChecked(mid, 2, check, n);
    RunConcat(j, CountOps(1, n), CountOps(2, n));
  }

  /** After two overlapping checks the counts still match the rows exactly if there was nothing to skip. */
  lemma OverlappingChecksMiscount(file: seq<RowResult>, catalog: Catalog, scope: Scope)
    requires file != [] && scope.Some?
    ensures var rows := ClassifyAll(file, catalog, None);
            var j := Run(NewJob(file), FirstDryRun(catalog) + [StartCommit(1), StartCommit(2)] + OverlappingChecks(rows, catalog, scope));
            && j.rows == RescopeAll(rows, catalog, scope)
            && (CountsMatch(j.counts, j.rows) <==> ToSkip(rows, catalog, scope) == [])
  {
    var job, j, rows := NewJob(file), Ready(file, catalog), ClassifyAll(file, catalog, None);
    var n, check := |ToSkip(rows, catalog, scope)|, Check(catalog, scope, 1);
    var a := FirstDryRun(catalog);
    var b := a + [StartCommit(1), StartCommit(2)];
    var skips := [ReadScope(1, catalog, scope), ReadScope(2, catalog, scope)] + Repeat(SkipRow(1), n) + Repeat(SkipRow(2), n);
    MadeReady(file, catalog);
    RunConcat(job, a, [StartCommit(1), StartCommit(2)]);
    RunTwo(j, StartCommit(1), StartCommit(2));
    var admitted := j.(commits := map[1 := Admitted, 2 := Admitted]);
    assert Run(job, b) == admitted;
    BothSkip(admitted, catalog, scope);
    var skipped := admitted.(rows := RescopeAll(rows, catalog, scope),
                             commits := map[1 := Skipping(check, [], n), 2 := Skipping(check, [], n)]);
    BothCount(skipped, check, n);
    RunConcat(admitted, skips, CountOps(1, n) + CountOps(2, n));
    assert OverlappingChecks(rows, catalog, scope) == skips + (CountOps(1, n) + CountOps(2, n));
    RunConcat(job, b, OverlappingChecks(rows, catalog, scope));
    ToSkipLists(rows, catalog, scope);
    DemotedRowsMove(rows, catalog, scope);
  }
}
