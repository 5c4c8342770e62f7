/** Invoices and credit notes (invoice.service.ts). */
module Invoices {
  import opened Prelude
  import opened Money
  import opened Ledger

  // The invoices and credit notes (credit-note.service.ts) of one tenant, with the ledger they post
  // to. A row's id is its position in its table.
  //
  // Transactions are atomic, except that a transaction whose first read takes no lock is two steps:
  // the read, with the checks made on what it saw, and the rest. voidInvoice locks the row first and
  // is one step. A posting key already in use aborts the transaction (PostgreSQL).

  datatype InvoiceStatus = DRAFT | POSTED | PARTIALLY_PAID | PAID | VOID

  datatype ChargeKey =
    | Rent(lease: Id, period: string)
    | Utility(lease: Id, period: string, meter: string)
    | OtherCharge(text: string)

  datatype InvoiceLine = InvoiceLine(chargeKey: ChargeKey, period: string, lineTotal: int, tax: int)

  datatype Invoice = Invoice(
    lease: Id, run: Option<Id>, period: string, status: InvoiceStatus, currency: string,
    lines: seq<InvoiceLine>, subtotal: int, tax: int, total: int, balance: int, version: nat)

  datatype NoteStatus = NoteDraft | NotePosted

  datatype CreditNote = CreditNote(invoice: Id, lease: Id, status: NoteStatus, currency: string, total: int, version: nat)

  /** A transaction between its unlocked read and the rest; it keeps what it read. */
  datatype Pending =
    | PostingInvoice(id: Id, seen: Invoice)
    | CreatingNote(invoice: Id, lease: Id, currency: string, total: int)
    | PostingNote(note: Id, seenNote: CreditNote)

  datatype Books = Books(tenant: Id, entries: seq<Entry>, invoices: seq<Invoice>, notes: seq<CreditNote>, calls: map<Id, Pending>,
                         uuidJournals: bool)

  datatype Refusal =
    | NotFound | VersionMismatch | NotDraft | NotPosted | NoLines | CreditNotesExist | CurrencyMismatch
    | TotalInvalid | ExceedsBalance | KeyInUse | JournalRefused | Busy

  /** Unchanged answers with the row as it is; Waiting means that the read succeeded. */
  datatype Reply = Changed | Unchanged | Waiting | Refused(reason: Refusal)

  // ----- totals -----

  function SumTotals(lines: seq<InvoiceLine>): int {
    if lines == [] then 0 else SumTotals(lines[..|lines| - 1]) + lines[|lines| - 1].lineTotal
  }

  function SumTax(lines: seq<InvoiceLine>): int {
    if lines == [] then 0 else SumTax(lines[..|lines| - 1]) + lines[|lines| - 1].tax
  }

  function TotalOf(lines: seq<InvoiceLine>): int {
    SumTotals(lines) + SumTax(lines)
  }

  method RecomputeTotals(lines: seq<InvoiceLine>) returns (subtotal: int, tax: int, total: int)
    ensures subtotal == SumTotals(lines) && tax == SumTax(lines) && total == TotalOf(lines)
  {
    subtotal, tax := 0, 0;
    for i := 0 to |lines|
      invariant subtotal == SumTotals(lines[..i]) && tax == SumTax(lines[..i])
    {
      assert lines[..i + 1][..i] == lines[..i];
      subtotal, tax := subtotal + lines[i].lineTotal, tax + lines[i].tax;
    }
    assert lines[..|lines|] == lines;
    total := subtotal + tax;
  }

  function PostedVersion(invoice: Invoice, lines: seq<InvoiceLine>): Invoice {
    invoice.(status := POSTED, subtotal := SumTotals(lines), tax := SumTax(lines), total := TotalOf(lines),
             balance := TotalOf(lines), version := invoice.version + 1)
  }

  function InvoiceHeader(tenant: Id, source: Source, id: Id, invoice: Invoice): Header {
    Header(tenant, invoice.currency, source, id, Some(invoice.lease))
  }

  /** Writing an invoice as posted, from lines and totals read earlier, with its journal. */
  function WritePosted(b: Books, id: Id, seen: Invoice): (Books, Reply)
    requires id < |b.invoices|
  {
    var (entries, outcome) := PostJournal(b.entries, {}, InvoiceHeader(b.tenant, INVOICE, id, seen),
                                          InvoiceJournal(id, Decimal(TotalOf(seen.lines))));
    if outcome != Created then (b, Refused(KeyInUse))
    else (b.(entries := entries, invoices := b.invoices[id := PostedVersion(b.invoices[id], seen.lines)]), Changed)
  }

  function StartPostInvoice(b: Books, call: Id, id: Id, expectedVersion: nat): (Books, Reply) {
    if call in b.calls then (b, Refused(Busy))
    else if id >= |b.invoices| then (b, Refused(NotFound))
    else
      var invoice := b.invoices[id];
      if invoice.version != expectedVersion then (b, Refused(VersionMismatch))
      else if invoice.status == POSTED || invoice.status == PARTIALLY_PAID || invoice.status == PAID then (b, Unchanged)
      else if invoice.status != DRAFT then (b, Refused(NotDraft))
      else if invoice.lines == [] then (b, Refused(NoLines))
      else (b.(calls := b.calls[call := PostingInvoice(id, invoice)]), Waiting)
  }

  function PostedNotesOf(notes: seq<CreditNote>, invoice: Id): nat {
    if notes == [] then 0
    else
      var n := notes[|notes| - 1];
      PostedNotesOf(notes[..|notes| - 1], invoice) + if n.invoice == invoice && n.status == NotePosted then 1 else 0
  }

  function ReasonOf(outcome: Outcome): Refusal {
    if outcome == Rejected(JournalIdInvalid) then JournalRefused else KeyInUse
  }

  /** The journal of a void carries `<id>:void` as its id. */
  function VoidInvoice(b: Books, id: Id, expectedVersion: nat): (Books, Reply) {
    if id >= |b.invoices| then (b, Refused(NotFound))
    else
      var invoice := b.invoices[id];
      if invoice.version != expectedVersion then (b, Refused(VersionMismatch))
      else if invoice.status == VOID then (b, Unchanged)
      else if invoice.status != POSTED then (b, Refused(NotPosted))
      else if PostedNotesOf(b.notes, id) > 0 then (b, Refused(CreditNotesExist))
      else
        var (entries, outcome) := PostSuffixed(b.uuidJournals, b.entries, {}, InvoiceHeader(b.tenant, INVOICE_VOID, id, invoice),
                                               InvoiceVoidJournal(b.entries, b.tenant, id, Decimal(invoice.total)));
        if outcome != Created then (b, Refused(ReasonOf(outcome)))
        else (b.(entries := entries,
                 invoices := b.invoices[id := invoice.(status := VOID, balance := 0, version := invoice.version + 1)]), Changed)
  }

  function SumRounded(amounts: seq<real>): int {
    if amounts == [] then 0 else SumRounded(amounts[..|amounts| - 1]) + RoundMoney(amounts[|amounts| - 1])
  }

  function StartCreateNote(b: Books, call: Id, invoice: Id, currency: string, amounts: seq<real>): (Books, Reply) {
    if call in b.calls then (b, Refused(Busy))
    else if invoice >= |b.invoices| then (b, Refused(NotFound))
    else
      var inv := b.invoices[invoice];
      if inv.status != POSTED && inv.status != PARTIALLY_PAID then (b, Refused(NotPosted))
      else if currency != inv.currency then (b, Refused(CurrencyMismatch))
      else if SumRounded(amounts) <= 0 then (b, Refused(TotalInvalid))
      else if SumRounded(amounts) > inv.balance then (b, Refused(ExceedsBalance))
      else (b.(calls := b.calls[call := CreatingNote(invoice, inv.lease, currency, SumRounded(amounts))]), Waiting)
  }

  function StartPostNote(b: Books, call: Id, note: Id, expectedVersion: nat): (Books, Reply) {
    if call in b.calls then (b, Refused(Busy))
    else if note >= |b.notes| then (b, Refused(NotFound))
    else if b.notes[note].version != expectedVersion then (b, Refused(VersionMismatch))
    else (b.(calls := b.calls[call := PostingNote(note, b.notes[note])]), Waiting)
  }

  /** The rest of postCreditNote: the invoice is locked and read afresh, the note is not. */
  function WriteNote(b: Books, note: Id, seen: CreditNote): (Books, Reply)
    requires note < |b.notes|
  {
    if seen.invoice >= |b.invoices| then (b, Refused(NotFound))
    else
      var invoice := b.invoices[seen.invoice];
      if seen.status == NotePosted then (b, Unchanged)
      else if seen.total > invoice.balance then (b, Refused(ExceedsBalance))
      else
        var (entries, outcome) := PostJournal(b.entries, {}, Header(b.tenant, seen.currency, CREDIT_NOTE, note, Some(seen.lease)),
                                              CreditNoteJournal(note, Decimal(seen.total)));
        if outcome != Created then (b, Refused(KeyInUse)) else (NoteTaken(b, note, seen, entries), Changed)
  }

  /** Note and invoice as postCreditNote writes them. */
  function NoteTaken(b: Books, note: Id, seen: CreditNote, entries: seq<Entry>): Books
    requires note < |b.notes| && seen.invoice < |b.invoices|
  {
    var invoice := b.invoices[seen.invoice];
    var left := invoice.balance - seen.total;
    b.(entries := entries,
       notes := b.notes[note := b.notes[note].(status := NotePosted, version := b.notes[note].version + 1)],
       invoices := b.invoices[seen.invoice := invoice.(balance := if left < 0 then 0 else left,
                                                       status := if left <= 0 then PAID else PARTIALLY_PAID,
                                                       version := invoice.version + 1)])
  }

  /** The rest of a transaction that has done its read. */
  function Finish(b: Books, call: Id): (Books, Reply) {
    if call !in b.calls then (b, Refused(NotFound))
    else
      var rest := b.(calls := b.calls - {call});
      match b.calls[call]
      case PostingInvoice(id, seen) => if id < |b.invoices| then WritePosted(rest, id, seen) else (rest, Refused(NotFound))
      case CreatingNote(invoice, lease, currency, total) =>
        (rest.(notes := b.notes + [CreditNote(invoice, lease, NoteDraft, currency, total, 1)]), Changed)
      case PostingNote(note, seen) => if note < |b.notes| then WriteNote(rest, note, seen) else (rest, Refused(NotFound))
  }

  datatype Op =
    | AddDraft(draft: Invoice)
    | PostInvoiceOp(call: Id, id: Id, expectedVersion: nat)
    | VoidInvoiceOp(id: Id, expectedVersion: nat)
    | CreateNoteOp(call: Id, invoice: Id, currency: string, amounts: seq<real>)
    | PostNoteOp(call: Id, note: Id, expectedVersion: nat)
    | FinishOp(call: Id)
    | StopOp(call: Id)

  /** A draft some other service has prepared; its amounts are not negative. */
  ghost predicate GoodLines(lines: seq<InvoiceLine>) {
    forall i :: 0 <= i < |lines| ==> lines[i].lineTotal >= 0 && lines[i].tax >= 0
  }

  function Step(b: Books, op: Op): (Books, Reply) {
    match op
    case AddDraft(draft) => (b.(invoices := b.invoices + [draft.(status := DRAFT)]), Changed)
    case PostInvoiceOp(call, id, v) => StartPostInvoice(b, call, id, v)
    case VoidInvoiceOp(id, v) => VoidInvoice(b, id, v)
    case CreateNoteOp(call, invoice, currency, amounts) => StartCreateNote(b, call, invoice, currency, amounts)
    case PostNoteOp(call, note, v) => StartPostNote(b, call, note, v)
    case FinishOp(call) => Finish(b, call)
    case StopOp(call) => (b.(calls := b.calls - {call}), Changed)
  }

  function Run(b: Books, ops: seq<Op>): Books {
    if ops == [] then b else Step(Run(b, ops[..|ops| - 1]), ops[|ops| - 1]).0
  }

  // ----- what the ledger says about an invoice -----

  /** What an entry adds to the receivable of an invoice: its own journal, its void, its credit notes. */
  function Share(notes: seq<CreditNote>, e: Entry, invoice: Id): int {
    if e.line.account == AR
       && (((e.header.source == INVOICE || e.header.source == INVOICE_VOID) && e.header.sourceId == invoice)
           || (e.header.source == CREDIT_NOTE && e.header.sourceId < |notes| && notes[e.header.sourceId].invoice == invoice))
    then if e.line.side == Debit then e.line.amount else -e.line.amount
    else 0
  }

  function Receivable(entries: seq<Entry>, notes: seq<CreditNote>, invoice: Id): int {
    if entries == [] then 0
    else Receivable(entries[..|entries| - 1], notes, invoice) + Share(notes, entries[|entries| - 1], invoice)
  }

  function PostedSum(notes: seq<CreditNote>, invoice: Id): int {
    if notes == [] then 0
    else
      var n := notes[|notes| - 1];
      PostedSum(notes[..|notes| - 1], invoice) + if n.invoice == invoice && n.status == NotePosted then n.total else 0
  }

  // ----- the invariant -----

  ghost predicate Used(b: Books, key: PostingKey) {
    KeyUsed(b.entries, b.tenant, key)
  }

  /** How status, balance, credit notes and posting keys of an invoice go together. */
  ghost predicate InvoiceOk(b: Books, i: Id)
    requires i < |b.invoices|
  {
    var inv := b.invoices[i];
    && GoodLines(inv.lines)
    && (inv.status != DRAFT ==> inv.total == TotalOf(inv.lines))
    && (Used(b, InvoiceKey(i, "ar")) <==> inv.status != DRAFT && inv.total > 0)
    && (Used(b, InvoiceKey(i, "revenue")) <==> inv.status != DRAFT && inv.total > 0)
    && (Used(b, InvoiceVoidKey(i, "ar")) <==> inv.status == VOID && inv.total > 0)
    && (Used(b, InvoiceVoidKey(i, "revenue")) <==> inv.status == VOID && inv.total > 0)
    && Receivable(b.entries, b.notes, i) == (if inv.status == DRAFT then 0 else inv.balance)
    && (match inv.status
        case DRAFT => PostedSum(b.notes, i) == 0
        case POSTED => inv.balance == inv.total && PostedSum(b.notes, i) == 0
        case PARTIALLY_PAID => 0 < inv.balance < inv.total && PostedSum(b.notes, i) == inv.total - inv.balance
        case PAID => inv.balance == 0 < inv.total && PostedSum(b.notes, i) == inv.total
        case VOID => inv.balance == 0 && PostedSum(b.notes, i) == 0 && (b.uuidJournals ==> inv.total == 0))
  }

  ghost predicate NoteOk(b: Books, j: Id)
    requires j < |b.notes|
  {
    var n := b.notes[j];
    && n.total > 0 && n.invoice < |b.invoices| && b.invoices[n.invoice].status != DRAFT
    && (Used(b, CreditNoteKey(j, "ar")) <==> n.status == NotePosted)
    && (Used(b, CreditNoteKey(j, "revenue")) <==> n.status == NotePosted)
  }

  /** Every entry comes from one of the modelled journals, for a row that exists. */
  ghost predicate EntryOk(b: Books, e: Entry) {
    && e.header.tenant == b.tenant
    && match e.line.key
       case InvoiceKey(i, part) => e.header.source == INVOICE && e.header.sourceId == i < |b.invoices| && part in {"ar", "revenue"}
       case InvoiceVoidKey(i, part) => e.header.source == INVOICE_VOID && e.header.sourceId == i < |b.invoices| && part in {"ar", "revenue"}
       case CreditNoteKey(j, part) => e.header.source == CREDIT_NOTE && e.header.sourceId == j < |b.notes| && part in {"ar", "revenue"}
       case _ => false
  }

  ghost predicate CallOk(b: Books, p: Pending) {
    match p
    case PostingInvoice(id, seen) => id < |b.invoices| && seen.lines == b.invoices[id].lines && seen.currency == b.invoices[id].currency
    case CreatingNote(invoice, _, _, total) => invoice < |b.invoices| && b.invoices[invoice].status != DRAFT && total > 0
    case PostingNote(note, seen) =>
      note < |b.notes| && seen.invoice == b.notes[note].invoice && seen.total == b.notes[note].total
      && (seen.status == NotePosted ==> b.notes[note].status == NotePosted)
  }

  ghost predicate Inv(b: Books) {
    && Balanced(b.entries)
    && UniqueKeys(b.entries)
    && (forall k :: 0 <= k < |b.entries| ==> EntryOk(b, b.entries[k]))
    && (forall i :: 0 <= i < |b.invoices| ==> InvoiceOk(b, i))
    && (forall j :: 0 <= j < |b.notes| ==> NoteOk(b, j))
    && (forall c :: c in b.calls ==> CallOk(b, b.calls[c]))
  }

  // ----- posting a pair -----

  lemma UsedAfterPair(entries: seq<Entry>, tenant: Id, a: Entry, c: Entry, key: PostingKey)
    requires a.header.tenant == tenant && c.header.tenant == tenant
    ensures KeyUsed(entries + [a, c], tenant, key) <==> KeyUsed(entries, tenant, key) || a.line.key == key || c.line.key == key
  {
    var all := entries + [a, c];
    assert all[|entries|] == a && all[|entries| + 1] == c;
    assert forall i :: 0 <= i < |entries| ==> all[i] == entries[i];
  }

  lemma ReceivableAfterPair(entries: seq<Entry>, notes: seq<CreditNote>, a: Entry, c: Entry, invoice: Id)
    ensures Receivable(entries + [a, c], notes, invoice) == Receivable(entries, notes, invoice) + Share(notes, a, invoice) + Share(notes, c, invoice)
  {
    assert entries + [a, c] == entries + [a] + [c];
    assert (entries + [a] + [c])[..|entries| + 1] == entries + [a];
    assert (entries + [a])[..|entries|] == entries;
  }

  /** A two-line journal on fresh keys is written; one whose first key is in use aborts. */
  lemma PairPosting(entries: seq<Entry>, h: Header, debit: string, dk: PostingKey, credit: string, ck: PostingKey, amount: int,
                    rd: Option<nat>, rc: Option<nat>)
    requires Balanced(entries) && UniqueKeys(entries)
    requires amount > 0 && dk != ck && debit in DEFAULT_ACCOUNTS && credit in DEFAULT_ACCOUNTS
    ensures var lines := Pair(debit, dk, credit, ck, amount, rd, rc);
            var (after, outcome) := Post(entries, {}, h, lines);
            && (!KeyUsed(entries, h.tenant, dk) && !KeyUsed(entries, h.tenant, ck) ==>
                  outcome == Created && after == entries + [Entry(h, lines[0]), Entry(h, lines[1])] && Balanced(after) && UniqueKeys(after))
            && (KeyUsed(entries, h.tenant, dk) ==> outcome != Created)
  {
    var lines := Pair(debit, dk, credit, ck, amount, rd, rc);
    PairIsWellBuilt(debit, dk, credit, ck, amount, rd, rc);
    assert entries + EntriesOf(h, lines[..0]) == entries;
    if !KeyUsed(entries, h.tenant, dk) && !KeyUsed(entries, h.tenant, ck) {
      TwoFreshLines(entries, h, lines);
      assert EntriesOf(h, lines[..2]) == [Entry(h, lines[0]), Entry(h, lines[1])];
      BalancedIff(entries, h, lines[..2]);
      assert lines[..2] == lines;
      FreshLinesAreFresh(entries, h, lines, 0);
    }
  }

  // ----- every step keeps the invariant -----

  lemma {:induction false} TotalNonNegative(lines: seq<InvoiceLine>)
    requires GoodLines(lines)
    ensures SumTotals(lines) >= 0 && SumTax(lines) >= 0 && TotalOf(lines) >= 0
  {
    if lines != [] { TotalNonNegative(lines[..|lines| - 1]); }
  }

  /** A step that appends the two entries of one journal: how keys and receivables move. */
  lemma AfterPair(b: Books, b2: Books, a: Entry, c: Entry, i: Id)
    requires b2.entries == b.entries + [a, c] && b2.tenant == b.tenant == a.header.tenant == c.header.tenant
    ensures forall key :: Used(b2, key) <==> Used(b, key) || a.line.key == key || c.line.key == key
    ensures Receivable(b2.entries, b2.notes, i) == Receivable(b.entries, b2.notes, i) + Share(b2.notes, a, i) + Share(b2.notes, c, i)
  {
    forall key ensures Used(b2, key) <==> Used(b, key) || a.line.key == key || c.line.key == key {
      UsedAfterPair(b.entries, b.tenant, a, c, key);
    }
    ReceivableAfterPair(b.entries, b2.notes, a, c, i);
  }

  /** An invoice a journal has nothing to do with is as it was. */
  lemma BystanderInvoice(b: Books, b2: Books, a: Entry, c: Entry, i: Id)
    requires i < |b.invoices| && i < |b2.invoices| && b2.invoices[i] == b.invoices[i] && InvoiceOk(b, i) && b2.uuidJournals == b.uuidJournals
    requires b2.entries == b.entries + [a, c] && b2.tenant == b.tenant == a.header.tenant == c.header.tenant
    requires Share(b2.notes, a, i) == 0 && Share(b2.notes, c, i) == 0
    requires Receivable(b.entries, b2.notes, i) == Receivable(b.entries, b.notes, i) && PostedSum(b2.notes, i) == PostedSum(b.notes, i)
    requires forall part :: a.line.key != InvoiceKey(i, part) && a.line.key != InvoiceVoidKey(i, part)
                            && c.line.key != InvoiceKey(i, part) && c.line.key != InvoiceVoidKey(i, part)
    ensures InvoiceOk(b2, i)
  {
    AfterPair(b, b2, a, c, i);
  }

  lemma BystanderNotes(b: Books, b2: Books, a: Entry, c: Entry)
    requires Inv(b) && b2.notes == b.notes && |b2.invoices| == |b.invoices|
    requires forall i :: 0 <= i < |b.invoices| ==> b.invoices[i].status != DRAFT ==> b2.invoices[i].status != DRAFT
    requires b2.entries == b.entries + [a, c] && b2.tenant == b.tenant == a.header.tenant == c.header.tenant
    requires !a.line.key.CreditNoteKey? && !c.line.key.CreditNoteKey?
    ensures forall j :: 0 <= j < |b2.notes| ==> NoteOk(b2, j)
  {
    forall j | 0 <= j < |b2.notes| ensures NoteOk(b2, j) {
      AfterPair(b, b2, a, c, 0);
      assert NoteOk(b, j);
    }
  }

  lemma WritePostedKeepsInv(b: Books, id: Id, seen: Invoice)
    requires Inv(b) && id < |b.invoices| && seen.lines == b.invoices[id].lines
    ensures Inv(WritePosted(b, id, seen).0)
  {
    var (b2, reply) := WritePosted(b, id, seen);
    var total := TotalOf(seen.lines);
    assert InvoiceOk(b, id);
    TotalNonNegative(seen.lines);
    if total == 0 {
      ZeroTotalPosting(b, id, seen);
    } else {
      var h := InvoiceHeader(b.tenant, INVOICE, id, seen);
      PairPosting(b.entries, h, AR, InvoiceKey(id, "ar"), REVENUE, InvoiceKey(id, "revenue"), total, None, None);
      if reply == Changed {
        assert b.invoices[id].status == DRAFT;
        PostedDraftKeepsInv(b, id, seen, b2);
      }
    }
  }

  lemma ZeroTotalPosting(b: Books, id: Id, seen: Invoice)
    requires Inv(b) && id < |b.invoices| && seen.lines == b.invoices[id].lines && TotalOf(seen.lines) == 0
    ensures Inv(WritePosted(b, id, seen).0)
  {
    var b2 := WritePosted(b, id, seen).0;
    assert InvoiceOk(b, id);
    forall i | 0 <= i < |b2.invoices| ensures InvoiceOk(b2, i) {
      assert InvoiceOk(b, i);
    }
    forall j | 0 <= j < |b2.notes| ensures NoteOk(b2, j) {
      assert NoteOk(b, j);
    }
    CallsStay(b, b2);
  }

  /** Calls in progress stay consistent while rows keep their lines and only leave DRAFT. */
  lemma CallsStay(b: Books, b2: Books)
    requires Inv(b) && b2.calls == b.calls && |b2.invoices| >= |b.invoices| && |b2.notes| >= |b.notes|
    requires forall i :: 0 <= i < |b.invoices| ==>
               b2.invoices[i].lines == b.invoices[i].lines && b2.invoices[i].currency == b.invoices[i].currency
               && (b.invoices[i].status != DRAFT ==> b2.invoices[i].status != DRAFT)
    requires forall j :: 0 <= j < |b.notes| ==>
               b2.notes[j].invoice == b.notes[j].invoice && b2.notes[j].total == b.notes[j].total
               && (b.notes[j].status == NotePosted ==> b2.notes[j].status == NotePosted)
    ensures forall c :: c in b2.calls ==> CallOk(b2, b2.calls[c])
  {
    forall c | c in b2.calls ensures CallOk(b2, b2.calls[c]) {
      assert CallOk(b, b.calls[c]);
    }
  }

  lemma PostedDraftKeepsInv(b: Books, id: Id, seen: Invoice, b2: Books)
    requires Inv(b) && id < |b.invoices| && seen.lines == b.invoices[id].lines
    requires TotalOf(seen.lines) > 0 && b.invoices[id].status == DRAFT && WritePosted(b, id, seen) == (b2, Changed)
    ensures Inv(b2)
  {
    var h := InvoiceHeader(b.tenant, INVOICE, id, seen);
    var total := TotalOf(seen.lines);
    var lines := Pair(AR, InvoiceKey(id, "ar"), REVENUE, InvoiceKey(id, "revenue"), total, None, None);
    var a, c := Entry(h, lines[0]), Entry(h, lines[1]);
    assert InvoiceOk(b, id);
    PairPosting(b.entries, h, AR, InvoiceKey(id, "ar"), REVENUE, InvoiceKey(id, "revenue"), total, None, None);
    assert b2.entries == b.entries + [a, c];
    forall i | 0 <= i < |b2.invoices| ensures InvoiceOk(b2, i) {
      assert InvoiceOk(b, i);
      AfterPair(b, b2, a, c, i);
      if i != id { BystanderInvoice(b, b2, a, c, i); }
    }
    BystanderNotes(b, b2, a, c);
    EntriesStayOk(b, b2, a, c);
    CallsStay(b, b2);
  }

  lemma EntriesStayOk(b: Books, b2: Books, a: Entry, c: Entry)
    requires Inv(b) && b2.entries == b.entries + [a, c] && b2.tenant == b.tenant
    requires |b2.invoices| >= |b.invoices| && |b2.notes| >= |b.notes|
    requires EntryOk(b2, a) && EntryOk(b2, c)
    ensures forall k :: 0 <= k < |b2.entries| ==> EntryOk(b2, b2.entries[k])
  {
    forall k | 0 <= k < |b2.entries| ensures EntryOk(b2, b2.entries[k]) {
      if k < |b.entries| { assert EntryOk(b, b.entries[k]); }
    }
  }

  lemma {:induction false} NoPostedNotes(notes: seq<CreditNote>, invoice: Id)
    requires forall j :: 0 <= j < |notes| ==> notes[j].total > 0
    ensures PostedSum(notes, invoice) >= 0
    ensures PostedNotesOf(notes, invoice) == 0 <==> PostedSum(notes, invoice) == 0
  {
    if notes != [] { NoPostedNotes(notes[..|notes| - 1], invoice); }
  }

  lemma VoidKeepsInv(b: Books, id: Id, v: nat)
    requires Inv(b)
    ensures Inv(VoidInvoice(b, id, v).0)
  {
    var (b2, reply) := VoidInvoice(b, id, v);
    if reply == Changed {
      var inv := b.invoices[id];
      assert InvoiceOk(b, id);
      TotalNonNegative(inv.lines);
      if inv.total == 0 {
        forall i | 0 <= i < |b2.invoices| ensures InvoiceOk(b2, i) { assert InvoiceOk(b, i); }
        forall j | 0 <= j < |b2.notes| ensures NoteOk(b2, j) { assert NoteOk(b, j); }
        CallsStay(b, b2);
      } else {
        VoidedKeepsInv(b, id, b2, v);
      }
    }
  }

  /** What voiding an invoice of a positive total changes. */
  ghost predicate InvoiceVoided(b: Books, b2: Books, id: Id, a: Entry, c: Entry) {
    && id < |b.invoices| && !b.uuidJournals
    && var inv := b.invoices[id];
    && inv.status == POSTED && inv.total > 0
    && a.header.tenant == c.header.tenant == b.tenant
    && a.header.source == c.header.source == INVOICE_VOID && a.header.sourceId == c.header.sourceId == id
    && a.line.account == REVENUE && a.line.side == Debit && a.line.amount == inv.total && a.line.key == InvoiceVoidKey(id, "revenue")
    && c.line.account == AR && c.line.side == Credit && c.line.amount == inv.total && c.line.key == InvoiceVoidKey(id, "ar")
    && b2 == b.(entries := b.entries + [a, c],
                invoices := b.invoices[id := inv.(status := VOID, balance := 0, version := inv.version + 1)])
  }

  lemma VoidedInvoices(b: Books, b2: Books, id: Id, a: Entry, c: Entry, i: Id)
    requires Inv(b) && InvoiceVoided(b, b2, id, a, c) && i < |b2.invoices|
    ensures InvoiceOk(b2, i)
  {
    assert InvoiceOk(b, i);
    AfterPair(b, b2, a, c, i);
    if i != id { BystanderInvoice(b, b2, a, c, i); }
  }

  lemma VoidedKeepsInv(b: Books, id: Id, b2: Books, v: nat)
    requires Inv(b) && VoidInvoice(b, id, v) == (b2, Changed) && b.invoices[id].total > 0
    ensures Inv(b2)
  {
    var inv := b.invoices[id];
    var h := InvoiceHeader(b.tenant, INVOICE_VOID, id, inv);
    var rd, rc := FindOriginal(b.entries, b.tenant, id, Credit, 0), FindOriginal(b.entries, b.tenant, id, Debit, 0);
    var lines := Pair(REVENUE, InvoiceVoidKey(id, "revenue"), AR, InvoiceVoidKey(id, "ar"), inv.total, rd, rc);
    var a, c := Entry(h, lines[0]), Entry(h, lines[1]);
    assert InvoiceOk(b, id);
    PairIsWellBuilt(REVENUE, InvoiceVoidKey(id, "revenue"), AR, InvoiceVoidKey(id, "ar"), inv.total, rd, rc);
    PairPosting(b.entries, h, REVENUE, InvoiceVoidKey(id, "revenue"), AR, InvoiceVoidKey(id, "ar"), inv.total, rd, rc);
    assert InvoiceVoided(b, b2, id, a, c);
    forall i | 0 <= i < |b2.invoices| ensures InvoiceOk(b2, i) { VoidedInvoices(b, b2, id, a, c, i); }
    BystanderNotes(b, b2, a, c);
    EntriesStayOk(b, b2, a, c);
    CallsStay(b, b2);
  }

  lemma {:induction false} PostedSumMoves(notes: seq<CreditNote>, j: Id, posted: CreditNote, i: Id)
    requires j < |notes| && notes[j].status == NoteDraft
    requires posted.status == NotePosted && posted.invoice == notes[j].invoice && posted.total == notes[j].total
    ensures PostedSum(notes[j := posted], i) == PostedSum(notes, i) + if posted.invoice == i then posted.total else 0
  {
    var n := |notes| - 1;
    if j < n {
      PostedSumMoves(notes[..n], j, posted, i);
      assert notes[j := posted][..n] == notes[..n][j := posted];
    } else {
      assert notes[j := posted][..n] == notes[..n];
    }
  }

  /** The receivable depends on the notes only through the invoice each belongs to. */
  lemma {:induction false} ReceivableSameNotes(b: Books, entries: seq<Entry>, notes: seq<CreditNote>, i: Id)
    requires forall k :: 0 <= k < |entries| ==> EntryOk(b, entries[k])
    requires |notes| >= |b.notes| && forall j :: 0 <= j < |b.notes| ==> notes[j].invoice == b.notes[j].invoice
    ensures Receivable(entries, notes, i) == Receivable(entries, b.notes, i)
  {
    if entries != [] {
      assert EntryOk(b, entries[|entries| - 1]);
      ReceivableSameNotes(b, entries[..|entries| - 1], notes, i);
    }
  }

  lemma WriteNoteKeepsInv(b: Books, j: Id, seen: CreditNote)
    requires Inv(b) && j < |b.notes| && seen.invoice == b.notes[j].invoice && seen.total == b.notes[j].total
    ensures Inv(WriteNote(b, j, seen).0)
  {
    var (b2, reply) := WriteNote(b, j, seen);
    assert NoteOk(b, j);
    if reply == Changed {
      var h := Header(b.tenant, seen.currency, CREDIT_NOTE, j, Some(seen.lease));
      PairPosting(b.entries, h, REVENUE, CreditNoteKey(j, "revenue"), AR, CreditNoteKey(j, "ar"), seen.total, None, None);
      WrittenNoteKeepsInv(b, j, seen, b2);
    }
  }

  /** What posting a note changes. */
  ghost predicate NoteWritten(b: Books, b2: Books, j: Id, a: Entry, c: Entry) {
    && j < |b.notes| && b.notes[j].status == NoteDraft && b.notes[j].invoice < |b.invoices|
    && var n := b.notes[j];
    var inv := b.invoices[n.invoice];
    && n.total <= inv.balance
    && a.header.tenant == c.header.tenant == b.tenant
    && a.header.source == c.header.source == CREDIT_NOTE && a.header.sourceId == c.header.sourceId == j
    && a.line == Line(REVENUE, Debit, n.total, CreditNoteKey(j, "revenue"), None)
    && c.line == Line(AR, Credit, n.total, CreditNoteKey(j, "ar"), None)
    && b2 == b.(entries := b.entries + [a, c],
                notes := b.notes[j := n.(status := NotePosted, version := n.version + 1)],
                invoices := b.invoices[n.invoice := inv.(balance := inv.balance - n.total,
                                                         status := if inv.balance == n.total then PAID else PARTIALLY_PAID,
                                                         version := inv.version + 1)])
  }

  lemma NoteWrittenInvoice(b: Books, b2: Books, j: Id, a: Entry, c: Entry, i: Id)
    requires Inv(b) && NoteWritten(b, b2, j, a, c) && i < |b2.invoices|
    ensures InvoiceOk(b2, i)
  {
    assert InvoiceOk(b, i) && NoteOk(b, j);
    AfterPair(b, b2, a, c, i);
    ReceivableSameNotes(b, b.entries, b2.notes, i);
    PostedSumMoves(b.notes, j, b2.notes[j], i);
    if i != b.notes[j].invoice { BystanderInvoice(b, b2, a, c, i); }
  }

  lemma NoteWrittenNotes(b: Books, b2: Books, j: Id, a: Entry, c: Entry, k: Id)
    requires Inv(b) && NoteWritten(b, b2, j, a, c) && k < |b2.notes|
    ensures NoteOk(b2, k)
  {
    AfterPair(b, b2, a, c, 0);
    assert NoteOk(b, k) && NoteOk(b, j);
  }

  lemma WrittenNoteKeepsInv(b: Books, j: Id, seen: CreditNote, b2: Books)
    requires Inv(b) && j < |b.notes| && seen.invoice == b.notes[j].invoice && seen.total == b.notes[j].total
    requires WriteNote(b, j, seen) == (b2, Changed) && b.notes[j].status == NoteDraft
    ensures Inv(b2)
  {
    var h := Header(b.tenant, seen.currency, CREDIT_NOTE, j, Some(seen.lease));
    var lines := Pair(REVENUE, CreditNoteKey(j, "revenue"), AR, CreditNoteKey(j, "ar"), seen.total, None, None);
    var a, c := Entry(h, lines[0]), Entry(h, lines[1]);
    assert NoteOk(b, j);
    PairPosting(b.entries, h, REVENUE, CreditNoteKey(j, "revenue"), AR, CreditNoteKey(j, "ar"), seen.total, None, None);
    assert NoteWritten(b, b2, j, a, c);
    forall i | 0 <= i < |b2.invoices| ensures InvoiceOk(b2, i) { NoteWrittenInvoice(b, b2, j, a, c, i); }
    forall k | 0 <= k < |b2.notes| ensures NoteOk(b2, k) { NoteWrittenNotes(b, b2, j, a, c, k); }
    EntriesStayOk(b, b2, a, c);
    CallsStay(b, b2);
  }

  lemma AddDraftKeepsInv(b: Books, draft: Invoice)
    requires Inv(b) && GoodLines(draft.lines)
    ensures Inv(Step(b, AddDraft(draft)).0)
  {
    var b2 := Step(b, AddDraft(draft)).0;
    var n := |b.invoices|;
    forall k | 0 <= k < |b2.entries| ensures EntryOk(b2, b2.entries[k]) { assert EntryOk(b, b.entries[k]); }
    NewInvoiceUntouched(b, b.entries);
    forall j | 0 <= j < |b.notes| ensures b.notes[j].invoice != n { assert NoteOk(b, j); }
    NoNotesOf(b.notes, n);
    forall i | 0 <= i < |b2.invoices| ensures InvoiceOk(b2, i) {
      if i < n { assert InvoiceOk(b, i); }
    }
    forall j | 0 <= j < |b2.notes| ensures NoteOk(b2, j) { assert NoteOk(b, j); }
    CallsStay(b, b2);
  }

  lemma {:induction false} NewInvoiceUntouched(b: Books, entries: seq<Entry>)
    requires Inv(b) && forall k :: 0 <= k < |entries| ==> EntryOk(b, entries[k])
    ensures Receivable(entries, b.notes, |b.invoices|) == 0
    ensures forall part :: !KeyUsed(entries, b.tenant, InvoiceKey(|b.invoices|, part)) && !KeyUsed(entries, b.tenant, InvoiceVoidKey(|b.invoices|, part))
  {
    if entries != [] {
      var e := entries[|entries| - 1];
      assert EntryOk(b, e);
      NewInvoiceUntouched(b, entries[..|entries| - 1]);
      if e.header.source == CREDIT_NOTE { assert NoteOk(b, e.header.sourceId); }
    }
  }

  lemma {:induction false} NoNotesOf(notes: seq<CreditNote>, i: Id)
    requires forall j :: 0 <= j < |notes| ==> notes[j].invoice != i
    ensures PostedSum(notes, i) == 0
  {
    if notes != [] { NoNotesOf(notes[..|notes| - 1], i); }
  }

  lemma AddNoteKeepsInv(b: Books, b2: Books, note: CreditNote)
    requires Inv(b) && b2 == b.(notes := b.notes + [note])
    requires note.status == NoteDraft && note.total > 0 && note.invoice < |b.invoices| && b.invoices[note.invoice].status != DRAFT
    ensures Inv(b2)
  {
    forall k | 0 <= k < |b2.entries| ensures EntryOk(b2, b2.entries[k]) { assert EntryOk(b, b.entries[k]); }
    forall i | 0 <= i < |b2.invoices| ensures InvoiceOk(b2, i) {
      assert InvoiceOk(b, i);
      ReceivableSameNotes(b, b.entries, b2.notes, i);
      assert b2.notes[..|b.notes|] == b.notes;
    }
    forall j | 0 <= j < |b2.notes| ensures NoteOk(b2, j) {
      if j < |b.notes| { assert NoteOk(b, j); }
    }
    CallsStay(b, b2);
  }

  lemma FewerCallsKeepInv(b: Books, calls: map<Id, Pending>)
    requires Inv(b) && forall c :: c in calls ==> CallOk(b, calls[c])
    ensures Inv(b.(calls := calls))
  {
    var b2 := b.(calls := calls);
    forall k | 0 <= k < |b2.entries| ensures EntryOk(b2, b2.entries[k]) { assert EntryOk(b, b.entries[k]); }
    forall i | 0 <= i < |b2.invoices| ensures InvoiceOk(b2, i) { assert InvoiceOk(b, i); }
    forall j | 0 <= j < |b2.notes| ensures NoteOk(b2, j) { assert NoteOk(b, j); }
    forall c | c in calls ensures CallOk(b2, calls[c]) { assert CallOk(b, calls[c]); }
  }

  lemma FinishKeepsInv(b: Books, call: Id)
    requires Inv(b)
    ensures Inv(Finish(b, call).0)
  {
    if call in b.calls {
      var rest := b.(calls := b.calls - {call});
      assert CallOk(b, b.calls[call]);
      FewerCallsKeepInv(b, b.calls - {call});
      match b.calls[call] {
        case PostingInvoice(id, seen) => WritePostedKeepsInv(rest, id, seen);
        case CreatingNote(invoice, lease, currency, total) =>
          AddNoteKeepsInv(rest, Finish(b, call).0, CreditNote(invoice, lease, NoteDraft, currency, total, 1));
        case PostingNote(note, seen) => WriteNoteKeepsInv(rest, note, seen);
      }
    }
  }

  /** Drafts enter with amounts that are not negative; nothing else is asked of any step. */
  ghost predicate Allowed(op: Op) {
    op.AddDraft? ==> GoodLines(op.draft.lines)
  }

  /** Steps that start or stop a call only change the calls under way; a post reads a draft. */
  lemma StartsOnlyCalls(b: Books, op: Op)
    requires Inv(b) && !op.AddDraft? && !op.VoidInvoiceOp? && !op.FinishOp?
    ensures var calls := Step(b, op).0.calls;
            && Step(b, op).0 == b.(calls := calls)
            && (forall c :: c in calls ==> CallOk(b, calls[c]))
            && (forall c :: c in calls && calls[c].PostingInvoice? && !(c in b.calls && b.calls[c] == calls[c]) ==>
                  calls[c].id < |b.invoices| && b.invoices[calls[c].id].status == DRAFT)
  {
  }

  lemma StepKeepsInv(b: Books, op: Op)
    requires Inv(b) && Allowed(op)
    ensures Inv(Step(b, op).0)
  {
    match op {
      case AddDraft(draft) => AddDraftKeepsInv(b, draft);
      case VoidInvoiceOp(id, v) => VoidKeepsInv(b, id, v);
      case FinishOp(call) => FinishKeepsInv(b, call);
      case _ =>
        StartsOnlyCalls(b, op);
        FewerCallsKeepInv(b, Step(b, op).0.calls);
    }
  }

  lemma {:induction false} RunKeepsInv(b: Books, ops: seq<Op>)
    requires Inv(b) && forall i :: 0 <= i < |ops| ==> Allowed(ops[i])
    ensures Inv(Run(b, ops))
  {
    if ops != [] {
      RunKeepsInv(b, ops[..|ops| - 1]);
      StepKeepsInv(Run(b, ops[..|ops| - 1]), ops[|ops| - 1]);
    }
  }

  // ----- what holds in every reachable state -----

  function EmptyBooks(tenant: Id, uuidJournals: bool): Books {
    Books(tenant, [], [], [], map[], uuidJournals)
  }

  lemma EmptyBooksOk(tenant: Id, uuidJournals: bool)
    ensures Inv(EmptyBooks(tenant, uuidJournals))
  {
    assert Balanced([]);
  }

  /** What the books say about one invoice: its balance is what the ledger says is receivable on it,
      a draft has no entry of its own, and the status tells balance and posted credit notes. */
  ghost predicate InvoiceTrue(b: Books, i: Id)
    requires i < |b.invoices|
  {
    var inv := b.invoices[i];
    && (inv.status != DRAFT ==> inv.balance == Receivable(b.entries, b.notes, i) && inv.total == TotalOf(inv.lines))
    && (inv.status == DRAFT ==> forall k :: 0 <= k < |b.entries| ==>
          !((b.entries[k].header.source == INVOICE || b.entries[k].header.source == INVOICE_VOID) && b.entries[k].header.sourceId == i))
    && (inv.status == POSTED ==> inv.balance == inv.total && PostedNotesOf(b.notes, i) == 0)
    && (inv.status == PARTIALLY_PAID ==> 0 < inv.balance < inv.total)
    && (inv.status == PAID || inv.status == VOID ==> inv.balance == 0)
    && (inv.status != VOID && inv.status != DRAFT ==> PostedSum(b.notes, i) == inv.total - inv.balance)
    && (inv.status == VOID ==> PostedNotesOf(b.notes, i) == 0 && (b.uuidJournals ==> inv.total == 0))
  }

  lemma InvMakesInvoicesTrue(b: Books, i: Id)
    requires Inv(b) && i < |b.invoices|
    ensures InvoiceTrue(b, i) && Balanced(b.entries)
  {
    assert InvoiceOk(b, i);
    forall j | 0 <= j < |b.notes| ensures b.notes[j].total > 0 { assert NoteOk(b, j); }
    NoPostedNotes(b.notes, i);
    forall k | 0 <= k < |b.entries| && (b.entries[k].header.source == INVOICE || b.entries[k].header.source == INVOICE_VOID)
               && b.entries[k].header.sourceId == i
      ensures b.invoices[i].status != DRAFT
    {
      assert EntryOk(b, b.entries[k]);
      assert Used(b, b.entries[k].line.key);
    }
  }

  /** After any run of posts, voids and credit notes, with stale reads and calls that stop midway,
      every invoice is told truly and debits equal credits. */
  lemma BalanceIsReceivable(tenant: Id, uuidJournals: bool, ops: seq<Op>, i: Id)
    requires forall k :: 0 <= k < |ops| ==> Allowed(ops[k])
    requires i < |Run(EmptyBooks(tenant, uuidJournals), ops).invoices|
    ensures var b := Run(EmptyBooks(tenant, uuidJournals), ops);
            InvoiceTrue(b, i) && Balanced(b.entries)
  {
    EmptyBooksOk(tenant, uuidJournals);
    RunKeepsInv(EmptyBooks(tenant, uuidJournals), ops);
    InvMakesInvoicesTrue(Run(EmptyBooks(tenant, uuidJournals), ops), i);
  }

  /** Subtotal and tax of an invoice that is no draft are the sums over its lines, and its total is both. */
  ghost predicate TotalsAreOfLines(b: Books) {
    forall i :: 0 <= i < |b.invoices| && b.invoices[i].status != DRAFT ==>
      && b.invoices[i].subtotal == SumTotals(b.invoices[i].lines)
      && b.invoices[i].tax == SumTax(b.invoices[i].lines)
      && b.invoices[i].total == b.invoices[i].subtotal + b.invoices[i].tax
  }

  lemma {:induction false} TotalsStayOfLines(tenant: Id, uuidJournals: bool, ops: seq<Op>)
    requires forall k :: 0 <= k < |ops| ==> Allowed(ops[k])
    ensures TotalsAreOfLines(Run(EmptyBooks(tenant, uuidJournals), ops))
  {
    if ops != [] {
      var before := ops[..|ops| - 1];
      TotalsStayOfLines(tenant, uuidJournals, before);
      EmptyBooksOk(tenant, uuidJournals);
      RunKeepsInv(EmptyBooks(tenant, uuidJournals), before);
      TotalsAfter(Run(EmptyBooks(tenant, uuidJournals), before), ops[|ops| - 1]);
    }
  }

  lemma TotalsAfter(b: Books, op: Op)
    requires Inv(b) && TotalsAreOfLines(b)
    ensures TotalsAreOfLines(Step(b, op).0)
  {
    match op {
      case FinishOp(call) => TotalsAfterFinish(b, call);
      case AddDraft(_) =>
      case VoidInvoiceOp(_, _) =>
      case _ => assert Step(b, op).0.invoices == b.invoices;
    }
  }

  lemma TotalsAfterFinish(b: Books, call: Id)
    requires Inv(b) && TotalsAreOfLines(b)
    ensures TotalsAreOfLines(Finish(b, call).0)
  {
    if call in b.calls {
      var rest := b.(calls := b.calls - {call});
      assert CallOk(b, b.calls[call]);
      match b.calls[call] {
        case PostingInvoice(id, seen) => assert TotalsAreOfLines(WritePosted(rest, id, seen).0);
        case CreatingNote(_, _, _, _) =>
        case PostingNote(note, seen) =>
          assert NoteOk(b, note);
          NoteKeepsTotals(rest, note, seen);
      }
    }
  }

  lemma NoteKeepsTotals(b: Books, note: Id, seen: CreditNote)
    requires TotalsAreOfLines(b) && note < |b.notes|
    requires seen.invoice < |b.invoices| && b.invoices[seen.invoice].status != DRAFT
    ensures TotalsAreOfLines(WriteNote(b, note, seen).0)
  {
  }

  /** The sums take every line once, in any order of adding up. */
  lemma {:induction false} SumsAddUp(a: seq<InvoiceLine>, c: seq<InvoiceLine>, line: InvoiceLine)
    ensures SumTotals([line]) == line.lineTotal && SumTax([line]) == line.tax
    ensures SumTotals(a + c) == SumTotals(a) + SumTotals(c) && SumTax(a + c) == SumTax(a) + SumTax(c)
  {
    assert [line][..0] == [];
    if c == [] {
      assert a + c == a;
    } else {
      SumsAddUp(a, c[..|c| - 1], line);
      assert (a + c)[..|a + c| - 1] == a + c[..|c| - 1];
    }
  }

  // ----- posting a draft -----

  function ArTotal(entries: seq<Entry>): int {
    if entries == [] then 0
    else
      var e := entries[|entries| - 1];
      ArTotal(entries[..|entries| - 1])
      + if e.line.account != AR then 0 else if e.line.side == Debit then e.line.amount else -e.line.amount
  }

  lemma ArTotalAfterPair(entries: seq<Entry>, a: Entry, c: Entry)
    requires a.line.account == AR && a.line.side == Debit && c.line.account != AR
    ensures ArTotal(entries + [a, c]) == ArTotal(entries) + a.line.amount
  {
    assert entries + [a, c] == entries + [a] + [c];
    assert (entries + [a] + [c])[..|entries| + 1] == entries + [a];
    assert (entries + [a])[..|entries|] == entries;
  }

  /** Posting a draft always goes through and raises the receivables by its total. */
  lemma PostingDraftSucceeds(b: Books, id: Id)
    requires Inv(b) && id < |b.invoices| && b.invoices[id].status == DRAFT
    ensures var (after, reply) := WritePosted(b, id, b.invoices[id]);
            && reply == Changed && Inv(after)
            && after == b.(entries := after.entries, invoices := b.invoices[id := PostedVersion(b.invoices[id], b.invoices[id].lines)])
            && ArTotal(after.entries) == ArTotal(b.entries) + TotalOf(b.invoices[id].lines)
  {
    var seen := b.invoices[id];
    var total := TotalOf(seen.lines);
    assert InvoiceOk(b, id);
    TotalNonNegative(seen.lines);
    WritePostedKeepsInv(b, id, seen);
    if total > 0 {
      var h := InvoiceHeader(b.tenant, INVOICE, id, seen);
      PairPosting(b.entries, h, AR, InvoiceKey(id, "ar"), REVENUE, InvoiceKey(id, "revenue"), total, None, None);
      var lines := Pair(AR, InvoiceKey(id, "ar"), REVENUE, InvoiceKey(id, "revenue"), total, None, None);
      ArTotalAfterPair(b.entries, Entry(h, lines[0]), Entry(h, lines[1]));
    }
  }

  lemma OneLineTotal(line: InvoiceLine)
    ensures TotalOf([line]) == line.lineTotal + line.tax
  {
    assert [line][..0] == [];
    assert SumTotals([line]) == SumTotals([]) + line.lineTotal && SumTax([line]) == SumTax([]) + line.tax;
  }

  // ----- voiding -----

  /** In every reachable state a void goes through exactly when its checks pass and, where the journal
      id column is a UUID, there is nothing to post: such a schema voids no invoice of a positive total. */
  lemma VoidSucceedsIff(b: Books, id: Id, v: nat)
    requires Inv(b)
    ensures var (after, reply) := VoidInvoice(b, id, v);
            && (reply == Changed
                <==> id < |b.invoices| && b.invoices[id].version == v && b.invoices[id].status == POSTED && PostedNotesOf(b.notes, id) == 0
                     && (b.uuidJournals ==> b.invoices[id].total == 0))
            && (reply == Unchanged <==> id < |b.invoices| && b.invoices[id].version == v && b.invoices[id].status == VOID)
            && (reply == Refused(JournalRefused)
                <==> id < |b.invoices| && b.invoices[id].version == v && b.invoices[id].status == POSTED && PostedNotesOf(b.notes, id) == 0
                     && b.uuidJournals && b.invoices[id].total != 0)
            && reply != Refused(KeyInUse)
            && (reply == Changed ==> after.invoices == b.invoices[id := b.invoices[id].(status := VOID, balance := 0, version := v + 1)]
                                     && after.notes == b.notes && after.calls == b.calls)
            && (reply != Changed ==> after == b)
  {
    if id < |b.invoices| && b.invoices[id].status == POSTED {
      var inv := b.invoices[id];
      assert InvoiceOk(b, id);
      TotalNonNegative(inv.lines);
      if inv.total > 0 {
        var rd, rc := FindOriginal(b.entries, b.tenant, id, Credit, 0), FindOriginal(b.entries, b.tenant, id, Debit, 0);
        PairIsWellBuilt(REVENUE, InvoiceVoidKey(id, "revenue"), AR, InvoiceVoidKey(id, "ar"), inv.total, rd, rc);
        PairPosting(b.entries, InvoiceHeader(b.tenant, INVOICE_VOID, id, inv), REVENUE, InvoiceVoidKey(id, "revenue"),
                    AR, InvoiceVoidKey(id, "ar"), inv.total, rd, rc);
      }
    }
  }

  // ----- races -----

  /** A credit note is never posted on a void or fully paid invoice, though posting it never looks
      at the invoice's status. */
  lemma NoNoteOnVoid(b: Books, call: Id)
    requires Inv(b) && call in b.calls && b.calls[call].PostingNote?
    requires b.notes[b.calls[call].note].invoice < |b.invoices|
    requires var s := b.invoices[b.notes[b.calls[call].note].invoice].status; s == VOID || s == PAID
    ensures Finish(b, call).1 != Changed
  {
    var p := b.calls[call];
    assert CallOk(b, p) && NoteOk(b, p.note) && InvoiceOk(b, b.notes[p.note].invoice);
  }

  /** A post of a draft note that read it as it is goes through exactly when the balance covers it. */
  lemma NotePostsIff(b: Books, note: Id)
    requires Inv(b) && note < |b.notes| && b.notes[note].status == NoteDraft
    ensures var n, (after, reply) := b.notes[note], WriteNote(b, note, b.notes[note]);
            && n.invoice < |b.invoices|
            && (reply == Changed <==> n.total <= b.invoices[n.invoice].balance)
            && (reply == Changed ==>
                  after == b.(entries := after.entries, notes := b.notes[note := n.(status := NotePosted, version := n.version + 1)],
                              invoices := after.invoices)
                  && |after.invoices| == |b.invoices|
                  && after.invoices[n.invoice].lines == b.invoices[n.invoice].lines && after.invoices[n.invoice].lease == b.invoices[n.invoice].lease
                  && after.invoices[n.invoice].balance == b.invoices[n.invoice].balance - n.total
                  && after.invoices[n.invoice].status == if n.total == b.invoices[n.invoice].balance then PAID else PARTIALLY_PAID)
  {
    var n := b.notes[note];
    assert NoteOk(b, note) && InvoiceOk(b, n.invoice);
    PairPosting(b.entries, Header(b.tenant, n.currency, CREDIT_NOTE, note, Some(n.lease)), REVENUE, CreditNoteKey(note, "revenue"),
                AR, CreditNoteKey(note, "ar"), n.total, None, None);
  }

  /** A credit note counts once: a second posting that read it before the first one committed ends
      without a trace, stopped by the balance or by the posting key. */
  lemma NoteCountsOnce(b: Books, call: Id)
    requires Inv(b) && call in b.calls && b.calls[call].PostingNote? && b.notes[b.calls[call].note].status == NotePosted
    ensures Finish(b, call).1 != Changed && Finish(b, call).0 == b.(calls := b.calls - {call})
  {
    var p := b.calls[call];
    assert CallOk(b, p) && NoteOk(b, p.note);
    var seen := p.seenNote;
    var h := Header(b.tenant, seen.currency, CREDIT_NOTE, p.note, Some(seen.lease));
    PairPosting(b.entries, h, REVENUE, CreditNoteKey(p.note, "revenue"), AR, CreditNoteKey(p.note, "ar"), seen.total, None, None);
  }

  /** Posting a note when a key in use only means "already posted", as the ledger's catch clause
      reads: the transaction goes on. */
  function LenientWriteNote(b: Books, note: Id, seen: CreditNote): Books
    requires note < |b.notes| && seen.invoice < |b.invoices|
  {
    var entries := PostJournal(b.entries, {}, Header(b.tenant, seen.currency, CREDIT_NOTE, note, Some(seen.lease)),
                               CreditNoteJournal(note, Decimal(seen.total))).0;
    if seen.status == NotePosted || seen.total > b.invoices[seen.invoice].balance then b else NoteTaken(b, note, seen, entries)
  }

  /** Only the aborted transaction saves the books: were the duplicate key skipped instead, two
      racing posts of a note would always take its amount off the invoice twice and off the ledger
      once, whenever the balance still covers it. */
  lemma SkippingDuplicatesBreaksTheBooks(b: Books, note: Id, seen: CreditNote)
    requires Inv(b) && note < |b.notes| && b.notes[note].status == NotePosted
    requires seen == b.notes[note].(status := NoteDraft)
    requires seen.invoice < |b.invoices| && seen.total <= b.invoices[seen.invoice].balance
    ensures WriteNote(b, note, seen) == (b, Refused(KeyInUse))
    ensures var after := LenientWriteNote(b, note, seen);
            && after.entries == b.entries
            && after.invoices[seen.invoice].balance == b.invoices[seen.invoice].balance - seen.total
            && after.invoices[seen.invoice].balance != Receivable(after.entries, after.notes, seen.invoice)
  {
    assert NoteOk(b, note) && InvoiceOk(b, seen.invoice);
    var h := Header(b.tenant, seen.currency, CREDIT_NOTE, note, Some(seen.lease));
    var lines := Pair(REVENUE, CreditNoteKey(note, "revenue"), AR, CreditNoteKey(note, "ar"), seen.total, None, None);
    PairIsWellBuilt(REVENUE, CreditNoteKey(note, "revenue"), AR, CreditNoteKey(note, "ar"), seen.total, None, None);
    PostKeepsBalanceIff(b.entries, {}, h, lines);
    PairPosting(b.entries, h, REVENUE, CreditNoteKey(note, "revenue"), AR, CreditNoteKey(note, "ar"), seen.total, None, None);
    var after := LenientWriteNote(b, note, seen);
    assert after.entries == b.entries;
    ReceivableSameNotes(b, b.entries, after.notes, seen.invoice);
  }

  /** Where no key is in use it makes no difference which of the two is done. */
  lemma LenientIsStrictOnFreshKeys(b: Books, note: Id, seen: CreditNote)
    requires note < |b.notes| && seen.invoice < |b.invoices|
    requires WriteNote(b, note, seen).1 in {Changed, Unchanged, Refused(ExceedsBalance)}
    ensures LenientWriteNote(b, note, seen) == WriteNote(b, note, seen).0
  {
  }

  /** A post that read the invoice as a draft and finishes after it was posted or voided by another
      goes through exactly when the total is zero: then there is no journal to collide. */
  lemma StalePostGoesThroughIff(b: Books, call: Id)
    requires Inv(b) && call in b.calls && b.calls[call].PostingInvoice? && b.invoices[b.calls[call].id].status != DRAFT
    ensures Finish(b, call).1 == Changed <==> b.invoices[b.calls[call].id].total == 0
    ensures b.invoices[b.calls[call].id].total == 0 ==> Finish(b, call).0.invoices[b.calls[call].id].status == POSTED
  {
    var p := b.calls[call];
    assert CallOk(b, p) && InvoiceOk(b, p.id);
    TotalNonNegative(p.seen.lines);
    if TotalOf(p.seen.lines) > 0 {
      PairPosting(b.entries, InvoiceHeader(b.tenant, INVOICE, p.id, p.seen), AR, InvoiceKey(p.id, "ar"), REVENUE, InvoiceKey(p.id, "revenue"),
                  TotalOf(p.seen.lines), None, None);
    }
  }

  /** Posting a draft keeps balance and ledger together exactly when its total is not negative: a
      negative total is written to the invoice but never posted. */
  lemma PostingSyncsIff(b: Books, id: Id)
    requires Balanced(b.entries) && UniqueKeys(b.entries) && id < |b.invoices|
    requires !Used(b, InvoiceKey(id, "ar")) && !Used(b, InvoiceKey(id, "revenue")) && Receivable(b.entries, b.notes, id) == 0
    ensures var after := WritePosted(b, id, b.invoices[id]).0;
            after.invoices[id].balance == Receivable(after.entries, after.notes, id) && WritePosted(b, id, b.invoices[id]).1 == Changed
            <==> TotalOf(b.invoices[id].lines) >= 0
  {
    var seen := b.invoices[id];
    var total := TotalOf(seen.lines);
    if total > 0 {
      var h := InvoiceHeader(b.tenant, INVOICE, id, seen);
      PairPosting(b.entries, h, AR, InvoiceKey(id, "ar"), REVENUE, InvoiceKey(id, "revenue"), total, None, None);
      var lines := Pair(AR, InvoiceKey(id, "ar"), REVENUE, InvoiceKey(id, "revenue"), total, None, None);
      ReceivableAfterPair(b.entries, b.notes, Entry(h, lines[0]), Entry(h, lines[1]), id);
    }
  }

  lemma RunLast(b: Books, ops: seq<Op>, before: seq<Op>, op: Op)
    requires ops != [] && ops[..|ops| - 1] == before && ops[|ops| - 1] == op
    ensures Run(b, ops) == Step(Run(b, before), op).0
  {
  }

  function DraftOf(amount: int): Invoice {
    Invoice(0, None, "", DRAFT, "USD", [InvoiceLine(OtherCharge(""), "", amount, 0)], amount, 0, amount, amount, 1)
  }

  /** A new invoice is read for posting twice. */
  lemma TwoReaders(tenant: Id, uuidJournals: bool, amount: int)
    requires amount >= 0
    ensures var start, draft := EmptyBooks(tenant, uuidJournals), DraftOf(amount);
            var b := Run(start, [AddDraft(draft), PostInvoiceOp(1, 0, 1), PostInvoiceOp(2, 0, 1)]);
            Inv(b) && b == start.(invoices := [draft], calls := map[1 := PostingInvoice(0, draft), 2 := PostingInvoice(0, draft)])
  {
    var start, draft := EmptyBooks(tenant, uuidJournals), DraftOf(amount);
    var a, p, q := AddDraft(draft), PostInvoiceOp(1, 0, 1), PostInvoiceOp(2, 0, 1);
    EmptyBooksOk(tenant, uuidJournals);
    RunKeepsInv(start, [a, p, q]);
    RunLast(start, [a], [], a);
    RunLast(start, [a, p], [a], p);
    RunLast(start, [a, p, q], [a, p], q);
  }

  /** And the first post finishes. */
  lemma TwoReadersOnePost(tenant: Id, uuidJournals: bool, amount: int)
    requires amount >= 0
    ensures var b := Run(EmptyBooks(tenant, uuidJournals),
                         [AddDraft(DraftOf(amount)), PostInvoiceOp(1, 0, 1), PostInvoiceOp(2, 0, 1), FinishOp(1)]);
            && Inv(b) && b.notes == [] && b.uuidJournals == uuidJournals && b.calls == map[2 := PostingInvoice(0, DraftOf(amount))]
            && b.invoices == [PostedVersion(DraftOf(amount), DraftOf(amount).lines)]
            && b.invoices[0].total == amount
  {
    var start, draft := EmptyBooks(tenant, uuidJournals), DraftOf(amount);
    var before := [AddDraft(draft), PostInvoiceOp(1, 0, 1), PostInvoiceOp(2, 0, 1)];
    TwoReaders(tenant, uuidJournals, amount);
    RunLast(start, before + [FinishOp(1)], before, FinishOp(1));
    assert before + [FinishOp(1)] == [AddDraft(draft), PostInvoiceOp(1, 0, 1), PostInvoiceOp(2, 0, 1), FinishOp(1)];
    FirstFinishes(Run(start, before), draft, amount);
  }

  lemma FirstFinishes(ready: Books, draft: Invoice, amount: int)
    requires Inv(ready) && draft == DraftOf(amount) && ready.invoices == [draft]
    requires ready.calls == map[1 := PostingInvoice(0, draft), 2 := PostingInvoice(0, draft)]
    ensures var b := Finish(ready, 1).0;
            && Inv(b) && b == ready.(entries := b.entries, calls := map[2 := PostingInvoice(0, draft)],
                                     invoices := [PostedVersion(draft, draft.lines)])
            && b.invoices[0].total == amount
  {
    OneLineTotal(draft.lines[0]);
    FewerCallsKeepInv(ready, ready.calls - {1});
    PostingDraftSucceeds(ready.(calls := ready.calls - {1}), 0);
    assert ready.calls - {1} == map[2 := PostingInvoice(0, draft)];
  }

  /** At runs, for every amount: a post that read the draft, and finishes after another post and a void,
      goes through exactly for the amount 0, and then the void invoice is POSTED again. */
  lemma StalePostAfterVoid(tenant: Id, uuidJournals: bool, amount: int)
    requires amount >= 0
    ensures var ops := [AddDraft(DraftOf(amount)), PostInvoiceOp(1, 0, 1), PostInvoiceOp(2, 0, 1), FinishOp(1)] + [VoidInvoiceOp(0, 2)];
            var b := Run(EmptyBooks(tenant, uuidJournals), ops);
            var (after, reply) := Step(b, FinishOp(2));
            && |b.invoices| == 1 && |after.invoices| == 1
            && (b.invoices[0].status == VOID <==> !uuidJournals || amount == 0)
            && (reply == Changed <==> amount == 0)
            && (amount == 0 ==> after.invoices[0].status == POSTED)
  {
    var start := EmptyBooks(tenant, uuidJournals);
    var ops := [AddDraft(DraftOf(amount)), PostInvoiceOp(1, 0, 1), PostInvoiceOp(2, 0, 1), FinishOp(1)];
    TwoReadersOnePost(tenant, uuidJournals, amount);
    RunLast(start, ops + [VoidInvoiceOp(0, 2)], ops, VoidInvoiceOp(0, 2));
    var posted := Run(start, ops);
    VoidSucceedsIff(posted, 0, 2);
    VoidKeepsInv(posted, 0, 2);
    StalePostGoesThroughIff(VoidInvoice(posted, 0, 2).0, 2);
  }

  // ----- the services -----

  lemma AccountsDoNotMatter(entries: seq<Entry>, accounts: set<string>, h: Header, journal: Journal)
    requires WellBuilt(journal)
    ensures PostJournal(entries, accounts, h, journal) == PostJournal(entries, {}, h, journal)
  {
  }

  class InvoiceTables {
    const tenant: Id
    const ledger: LedgerTable
    var invoices: seq<Invoice>
    var notes: seq<CreditNote>
    var calls: map<Id, Pending>

    constructor (b: Books)
      ensures Snapshot() == b && fresh(ledger)
    {
      tenant, invoices, notes, calls := b.tenant, b.invoices, b.notes, b.calls;
      ledger := new LedgerTable(b.entries, b.uuidJournals);
    }

    function Snapshot(): Books
      reads this, ledger
    {
      Books(tenant, ledger.entries, invoices, notes, calls, ledger.uuidJournals)
    }

    method PostInvoiceRevenueJournal(h: Header, id: Id, amount: real) returns (outcome: Outcome)
      modifies ledger
      ensures (ledger.entries, outcome) == PostJournal(old(ledger.entries), {}, h, InvoiceJournal(id, amount))
    {
      PairJournalsAreWellBuilt([], 0, id, amount, Transfer, None);
      AccountsDoNotMatter(ledger.entries, ledger.AccountsOf(h.tenant), h, InvoiceJournal(id, amount));
      var rounded := RoundMoney(amount);
      if rounded <= 0 {
        return Created;
      }
      outcome := ledger.PostBalancedJournal(h, Pair(AR, InvoiceKey(id, "ar"), REVENUE, InvoiceKey(id, "revenue"), rounded, None, None));
    }

    method ReverseInvoiceJournal(h: Header, id: Id, amount: real) returns (outcome: Outcome)
      modifies ledger
      ensures var journal := InvoiceVoidJournal(old(ledger.entries), h.tenant, id, amount);
              (ledger.entries, outcome) == PostSuffixed(ledger.uuidJournals, old(ledger.entries), {}, h, journal)
    {
      PairJournalsAreWellBuilt(ledger.entries, h.tenant, id, amount, Transfer, None);
      AccountsDoNotMatter(ledger.entries, ledger.AccountsOf(h.tenant), h, InvoiceVoidJournal(ledger.entries, h.tenant, id, amount));
      var rounded := RoundMoney(amount);
      if rounded <= 0 {
        return Created;
      }
      var credit := FindOriginal(ledger.entries, h.tenant, id, Credit, 0);
      var debit := FindOriginal(ledger.entries, h.tenant, id, Debit, 0);
      outcome := ledger.PostSuffixedJournal(h, Pair(REVENUE, InvoiceVoidKey(id, "revenue"), AR, InvoiceVoidKey(id, "ar"), rounded, credit, debit));
    }

    method PostCreditNoteJournal(h: Header, note: Id, amount: real) returns (outcome: Outcome)
      modifies ledger
      ensures (ledger.entries, outcome) == PostJournal(old(ledger.entries), {}, h, CreditNoteJournal(note, amount))
    {
      PairJournalsAreWellBuilt([], 0, note, amount, Transfer, None);
      AccountsDoNotMatter(ledger.entries, ledger.AccountsOf(h.tenant), h, CreditNoteJournal(note, amount));
      var rounded := RoundMoney(amount);
      if rounded <= 0 {
        return Created;
      }
      outcome := ledger.PostBalancedJournal(h, Pair(REVENUE, CreditNoteKey(note, "revenue"), AR, CreditNoteKey(note, "ar"), rounded, None, None));
    }

    /** The checks of postInvoice on the invoice it read. */
    method CheckInvoice(call: Id, invoiceId: Id, expectedVersion: nat) returns (reply: Reply)
      modifies this`calls
      ensures (Snapshot(), reply) == StartPostInvoice(old(Snapshot()), call, invoiceId, expectedVersion)
    {
      if call in calls { return Refused(Busy); }
      if invoiceId >= |invoices| { return Refused(NotFound); }
      var invoice := invoices[invoiceId];
      if invoice.version != expectedVersion { return Refused(VersionMismatch); }
      if invoice.status == POSTED || invoice.status == PARTIALLY_PAID || invoice.status == PAID { return Unchanged; }
      if invoice.status != DRAFT { return Refused(NotDraft); }
      if |invoice.lines| == 0 { return Refused(NoLines); }
      calls := calls[call := PostingInvoice(invoiceId, invoice)];
      return Waiting;
    }

    /** The first read of postCreditNote. */
    method ReadCreditNote(call: Id, note: Id, expectedVersion: nat) returns (reply: Reply)
      modifies this`calls
      ensures (Snapshot(), reply) == StartPostNote(old(Snapshot()), call, note, expectedVersion)
    {
      if call in calls { return Refused(Busy); }
      if note >= |notes| { return Refused(NotFound); }
      if notes[note].version != expectedVersion { return Refused(VersionMismatch); }
      calls := calls[call := PostingNote(note, notes[note])];
      return Waiting;
    }

    /** The rest of the call, on what it read. */
    method FinishCall(call: Id) returns (reply: Reply)
      modifies this, ledger
      ensures (Snapshot(), reply) == Finish(old(Snapshot()), call)
    {
      if call !in calls { return Refused(NotFound); }
      var pending := calls[call];
      calls := calls - {call};
      match pending {
        case PostingInvoice(id, seen) =>
          if id >= |invoices| { return Refused(NotFound); }
          reply := WritePostedInvoice(id, seen);
        case CreatingNote(invoice, lease, currency, total) =>
          notes := notes + [CreditNote(invoice, lease, NoteDraft, currency, total, 1)];
          reply := Changed;
        case PostingNote(note, seen) =>
          if note >= |notes| { return Refused(NotFound); }
          reply := WriteCreditNote(note, seen);
      }
    }

    /** postInvoice and postDraftInvoiceInTransaction from the update on; an aborted transaction
        puts every table back. */
    method WritePostedInvoice(id: Id, seen: Invoice) returns (reply: Reply)
      requires id < |invoices|
      modifies this, ledger
      ensures (Snapshot(), reply) == WritePosted(old(Snapshot()), id, seen)
    {
      var savedInvoices, savedEntries := invoices, ledger.entries;
      var subtotal, tax, total := RecomputeTotals(seen.lines);
      invoices := invoices[id := invoices[id].(status := POSTED, subtotal := subtotal, tax := tax, total := total,
                                               balance := total, version := invoices[id].version + 1)];
      var outcome := PostInvoiceRevenueJournal(InvoiceHeader(tenant, INVOICE, id, seen), id, Decimal(total));
      if outcome != Created {
        invoices, ledger.entries := savedInvoices, savedEntries;
        return Refused(KeyInUse);
      }
      return Changed;
    }

    method PostDraftInvoiceInTransaction(id: Id) returns (reply: Reply)
      modifies this, ledger
      ensures (Snapshot(), reply) == if id < |old(invoices)| && old(invoices)[id].status == DRAFT
                                     then WritePosted(old(Snapshot()), id, old(invoices)[id]) else (old(Snapshot()), Unchanged)
    {
      if id >= |invoices| || invoices[id].status != DRAFT {
        return Unchanged;
      }
      reply := WritePostedInvoice(id, invoices[id]);
    }

    method Void(id: Id, expectedVersion: nat) returns (reply: Reply)
      modifies this, ledger
      ensures (Snapshot(), reply) == VoidInvoice(old(Snapshot()), id, expectedVersion)
    {
      if id >= |invoices| { return Refused(NotFound); }
      var invoice := invoices[id];
      if invoice.version != expectedVersion { return Refused(VersionMismatch); }
      if invoice.status == VOID { return Unchanged; }
      if invoice.status != POSTED { return Refused(NotPosted); }
      var postedCreditNotes := PostedNotesOf(notes, id);
      if postedCreditNotes > 0 { return Refused(CreditNotesExist); }
      var savedInvoices, savedEntries := invoices, ledger.entries;
      invoices := invoices[id := invoice.(status := VOID, balance := 0, version := invoice.version + 1)];
      var outcome := ReverseInvoiceJournal(InvoiceHeader(tenant, INVOICE_VOID, id, invoice), id, Decimal(invoice.total));
      if outcome != Created {
        invoices, ledger.entries := savedInvoices, savedEntries;
        return Refused(ReasonOf(outcome));
      }
      return Changed;
    }

    /** The checks of createCreditNote on the invoice it read. */
    method CheckCreditNote(call: Id, invoiceId: Id, currency: string, amounts: seq<real>) returns (reply: Reply)
      modifies this`calls
      ensures (Snapshot(), reply) == StartCreateNote(old(Snapshot()), call, invoiceId, currency, amounts)
    {
      if call in calls { return Refused(Busy); }
      if invoiceId >= |invoices| { return Refused(NotFound); }
      var invoice := invoices[invoiceId];
      if invoice.status != POSTED && invoice.status != PARTIALLY_PAID { return Refused(NotPosted); }
      if currency != invoice.currency { return Refused(CurrencyMismatch); }
      var total := 0;
      for i := 0 to |amounts|
        invariant total == SumRounded(amounts[..i])
      {
        assert amounts[..i + 1][..i] == amounts[..i];
        total := total + RoundMoney(amounts[i]);
      }
      assert amounts[..|amounts|] == amounts;
      if total <= 0 { return Refused(TotalInvalid); }
      if total > invoice.balance { return Refused(ExceedsBalance); }
      calls := calls[call := CreatingNote(invoiceId, invoice.lease, currency, total)];
      return Waiting;
    }

    /** postCreditNote from the lock on the invoice on. */
    method WriteCreditNote(note: Id, seen: CreditNote) returns (reply: Reply)
      requires note < |notes|
      modifies this, ledger
      ensures (Snapshot(), reply) == WriteNote(old(Snapshot()), note, seen)
    {
      if seen.invoice >= |invoices| { return Refused(NotFound); }
      var invoice := invoices[seen.invoice];
      if seen.status == NotePosted { return Unchanged; }
      if seen.total > invoice.balance { return Refused(ExceedsBalance); }
      var savedInvoices, savedNotes, savedEntries := invoices, notes, ledger.entries;
      notes := notes[note := notes[note].(status := NotePosted, version := notes[note].version + 1)];
      var newBalance := invoice.balance - seen.total;
      invoices := invoices[seen.invoice := invoice.(balance := if newBalance < 0 then 0 else newBalance,
                                                    status := if newBalance <= 0 then PAID else PARTIALLY_PAID,
                                                    version := invoice.version + 1)];
      var outcome := PostCreditNoteJournal(Header(tenant, seen.currency, CREDIT_NOTE, note, Some(seen.lease)), note, Decimal(seen.total));
      if outcome != Created {
        invoices, notes, ledger.entries := savedInvoices, savedNotes, savedEntries;
        return Refused(KeyInUse);
      }
      return Changed;
    }
  }

  // ----- what the first reads admit -----

  /** A post goes on exactly from a DRAFT of the expected version with lines, and keeps the row it read; an
      invoice of that version that was posted is answered as it is. */
  lemma PostAdmittedIff(b: Books, call: Id, id: Id, v: nat)
    ensures var (after, reply) := StartPostInvoice(b, call, id, v);
            var known := call !in b.calls && id < |b.invoices| && b.invoices[id].version == v;
            && (reply == Waiting <==> known && b.invoices[id].status == DRAFT && b.invoices[id].lines != [])
            && (reply == Unchanged <==> known && b.invoices[id].status in {POSTED, PARTIALLY_PAID, PAID})
            && (reply == Refused(NotDraft) <==> known && b.invoices[id].status == VOID)
            && (reply == Refused(NoLines) <==> known && b.invoices[id].status == DRAFT && b.invoices[id].lines == [])
            && (reply == Refused(VersionMismatch) <==> call !in b.calls && id < |b.invoices| && b.invoices[id].version != v)
            && after == if reply == Waiting then b.(calls := b.calls[call := PostingInvoice(id, b.invoices[id])]) else b
  {
  }

  /** A credit note is started exactly on an invoice that is posted and not fully paid, in its currency, for
      a positive total of at most its balance. */
  lemma NoteAdmittedIff(b: Books, call: Id, invoice: Id, currency: string, amounts: seq<real>)
    ensures var (after, reply) := StartCreateNote(b, call, invoice, currency, amounts);
            var total := SumRounded(amounts);
            && (reply == Waiting
                <==> && call !in b.calls && invoice < |b.invoices| && b.invoices[invoice].status in {POSTED, PARTIALLY_PAID}
                     && b.invoices[invoice].currency == currency && 0 < total <= b.invoices[invoice].balance)
            && (reply == Refused(ExceedsBalance) ==> total > b.invoices[invoice].balance)
            && (reply == Refused(TotalInvalid) ==> total <= 0)
            && (reply == Refused(CurrencyMismatch) ==> b.invoices[invoice].currency != currency)
            && (reply == Refused(NotPosted) ==> b.invoices[invoice].status in {DRAFT, PAID, VOID})
            && after == if reply == Waiting
                        then b.(calls := b.calls[call := CreatingNote(invoice, b.invoices[invoice].lease, currency, total)]) else b
  {
  }

  function Plus(amounts: seq<real>): real {
    if amounts == [] then 0.0 else amounts[0] + Plus(amounts[1..])
  }

  lemma {:induction false} PlusLast(amounts: seq<real>)
    requires amounts != []
    ensures Plus(amounts) == Plus(amounts[..|amounts| - 1]) + amounts[|amounts| - 1]
  {
    if |amounts| > 1 {
      PlusLast(amounts[1..]);
      assert amounts[1..][..|amounts| - 2] == amounts[..|amounts| - 1][1..];
    }
  }

  /** The total of a note is within half a unit per line of the sum of its lines, since each is rounded. */
  lemma {:induction false} NoteTotalIsNear(amounts: seq<real>)
    ensures -(|amounts| as real) <= 2.0 * (SumRounded(amounts) as real - 10000.0 * Plus(amounts)) <= |amounts| as real
  {
    if amounts != [] {
      NoteTotalIsNear(amounts[..|amounts| - 1]);
      PlusLast(amounts);
      RoundIsNearest(amounts[|amounts| - 1]);
    }
  }

  /** Posting a note goes on exactly from a note of the expected version, and keeps the row it read. */
  lemma NotePostAdmittedIff(b: Books, call: Id, note: Id, v: nat)
    ensures var (after, reply) := StartPostNote(b, call, note, v);
            && (reply == Waiting <==> call !in b.calls && note < |b.notes| && b.notes[note].version == v)
            && (reply == Refused(VersionMismatch) <==> call !in b.calls && note < |b.notes| && b.notes[note].version != v)
            && after == if reply == Waiting then b.(calls := b.calls[call := PostingNote(note, b.notes[note])]) else b
  {
  }
}
