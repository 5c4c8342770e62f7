/** Double-entry posting (ledger.service.ts). */
module Ledger {
  import opened Prelude
  import opened Money

  // Entries of all tenants live in one table; a posting key is unique per tenant. Amounts are whole
  // numbers of 1/10000.

  type Id = nat

  datatype Side = Debit | Credit

  const AR := "1100"
  const REVENUE := "4000"
  const DEPOSIT_LIABILITY := "2200"
  const CASH := "1000"
  const BANK := "1010"
  const UNAPPLIED := "1200"

  const DEFAULT_ACCOUNTS := {AR, REVENUE, DEPOSIT_LIABILITY, CASH, BANK, UNAPPLIED}

  datatype PostingKey =
    | InvoiceKey(id: Id, part: string)
    | InvoiceVoidKey(id: Id, part: string)
    | CreditNoteKey(id: Id, part: string)
    | PaymentKey(id: Id, batch: Id, part: string)
    | PaymentReversalKey(id: Id, part: string)
    | RefundKey(id: Id, part: string)
    | DepositDispositionKey(id: Id, part: string)

  datatype Source = INVOICE | INVOICE_VOID | CREDIT_NOTE | PAYMENT | PAYMENT_REVERSAL | REFUND | DEPOSIT_DISPOSITION

  datatype Line = Line(account: string, side: Side, amount: int, key: PostingKey, reversalOf: Option<nat>)

  datatype Header = Header(tenant: Id, currency: string, source: Source, sourceId: Id, lease: Option<Id>)

  datatype Entry = Entry(header: Header, line: Line)

  datatype Error = Unbalanced | AmountInvalid | AccountMissing | JournalIdInvalid

  datatype Outcome = Created | Duplicate | Rejected(error: Error)

  // ----- posting a journal -----

  predicate KeyUsed(entries: seq<Entry>, tenant: Id, key: PostingKey) {
    exists i :: 0 <= i < |entries| && entries[i].header.tenant == tenant && entries[i].line.key == key
  }

  function Sum(lines: seq<Line>, side: Side): int {
    if lines == [] then 0
    else Sum(lines[..|lines| - 1], side) + if lines[|lines| - 1].side == side then lines[|lines| - 1].amount else 0
  }

  /** The checks before anything is written. */
  function Validate(lines: seq<Line>): Option<Error> {
    if |lines| < 2 then Some(Unbalanced)
    else if exists i :: 0 <= i < |lines| && lines[i].amount <= 0 then Some(AmountInvalid)
    else if Sum(lines, Debit) != Sum(lines, Credit) then Some(Unbalanced)
    else None
  }

  function EntriesOf(h: Header, lines: seq<Line>): seq<Entry> {
    seq(|lines|, i requires 0 <= i < |lines| => Entry(h, lines[i]))
  }

  /** How many lines are written before one meets a posting key already in use. */
  function FreshLines(entries: seq<Entry>, h: Header, lines: seq<Line>, done: nat): (n: nat)
    requires done <= |lines|
    ensures done <= n <= |lines|
    decreases |lines| - done
  {
    if done == |lines| || KeyUsed(entries + EntriesOf(h, lines[..done]), h.tenant, lines[done].key) then done
    else FreshLines(entries, h, lines, done + 1)
  }

  /** The table after posting, statement by statement, and what the caller is told. A key in use
      ends the posting with what was written so far; a rejection leaves everything as it was. */
  function Post(entries: seq<Entry>, accounts: set<string>, h: Header, lines: seq<Line>): (seq<Entry>, Outcome) {
    if Validate(lines).Some? then (entries, Rejected(Validate(lines).value))
    else
      var n := FreshLines(entries, h, lines, 0);
      if exists i :: 0 <= i < |lines| && i <= n && lines[i].account !in accounts + DEFAULT_ACCOUNTS then (entries, Rejected(AccountMissing))
      else (entries + EntriesOf(h, lines[..n]), if n == |lines| then Created else Duplicate)
  }

  // ----- the journals -----

  function Pair(debit: string, debitKey: PostingKey, credit: string, creditKey: PostingKey, amount: int,
                reversedDebit: Option<nat>, reversedCredit: Option<nat>): seq<Line> {
    [Line(debit, Debit, amount, debitKey, reversedDebit), Line(credit, Credit, amount, creditKey, reversedCredit)]
  }

  /** None means that the builder returns without posting. */
  type Journal = Option<seq<Line>>

  function InvoiceJournal(invoice: Id, amount: real): Journal {
    if RoundMoney(amount) <= 0 then None
    else Some(Pair(AR, InvoiceKey(invoice, "ar"), REVENUE, InvoiceKey(invoice, "revenue"), RoundMoney(amount), None, None))
  }

  /** First original line of an invoice on the given side, by position in the table. */
  function FindOriginal(entries: seq<Entry>, tenant: Id, invoice: Id, side: Side, from: nat): Option<nat>
    requires from <= |entries|
    decreases |entries| - from
  {
    if from == |entries| then None
    else
      var e := entries[from];
      if e.header.tenant == tenant && e.header.source == INVOICE && e.header.sourceId == invoice
         && e.line.reversalOf.None? && e.line.side == side then Some(from)
      else FindOriginal(entries, tenant, invoice, side, from + 1)
  }

  function InvoiceVoidJournal(entries: seq<Entry>, tenant: Id, invoice: Id, amount: real): Journal {
    if RoundMoney(amount) <= 0 then None
    else Some(Pair(REVENUE, InvoiceVoidKey(invoice, "revenue"), AR, InvoiceVoidKey(invoice, "ar"), RoundMoney(amount),
                   FindOriginal(entries, tenant, invoice, Credit, 0), FindOriginal(entries, tenant, invoice, Debit, 0)))
  }

  function CreditNoteJournal(note: Id, amount: real): Journal {
    if RoundMoney(amount) <= 0 then None
    else Some(Pair(REVENUE, CreditNoteKey(note, "revenue"), AR, CreditNoteKey(note, "ar"), RoundMoney(amount), None, None))
  }

  function CashLike(channel: string): string {
    if channel == "CASH" then CASH else BANK
  }

  function PlainLine(account: string, side: Side, amount: int, key: PostingKey): Line {
    Line(account, side, amount, key, None)
  }

  function If(condition: bool, line: Line): seq<Line> {
    if condition then [line] else []
  }

  function SettlementLines(payment: Id, batch: Id, cash: int, applied: int, unapplied: int, channel: string): seq<Line> {
    [PlainLine(CashLike(channel), Debit, cash, PaymentKey(payment, batch, "cash"))]
    + If(applied > 0, PlainLine(AR, Credit, applied, PaymentKey(payment, batch, "ar")))
    + If(unapplied > 0, PlainLine(UNAPPLIED, Credit, unapplied, PaymentKey(payment, batch, "unapplied")))
  }

  function SettlementJournal(payment: Id, batchId: Option<Id>, amount: real, cashAmount: Option<real>, channel: string,
                             fromUnapplied: bool): Journal {
    var applied := RoundMoney(amount);
    var batch := if batchId.Some? then batchId.value else payment;
    if applied <= 0 && (cashAmount.None? || RoundMoney(cashAmount.value) <= 0) then None
    else if fromUnapplied then
      if applied <= 0 then None
      else Some(Pair(UNAPPLIED, PaymentKey(payment, batch, "unapplied"), AR, PaymentKey(payment, batch, "ar"), applied, None, None))
    else
      var cash := if cashAmount.Some? then RoundMoney(cashAmount.value) else applied;
      var lines := SettlementLines(payment, batch, cash, applied, cash - applied, channel);
      if |lines| < 2 then None else Some(lines)
  }

  function ReversalJournal(reversal: Id, allocatedAmount: real, unallocatedAmount: real, channel: string): Journal {
    var applied, unallocated := RoundMoney(allocatedAmount), RoundMoney(unallocatedAmount);
    if applied + unallocated <= 0 then None
    else Some(If(applied > 0, PlainLine(AR, Debit, applied, PaymentReversalKey(reversal, "ar")))
              + If(unallocated > 0, PlainLine(UNAPPLIED, Debit, unallocated, PaymentReversalKey(reversal, "unapplied")))
              + [PlainLine(CashLike(channel), Credit, applied + unallocated, PaymentReversalKey(reversal, "cash"))])
  }

  function RefundJournal(refund: Id, amount: real, fromUnapplied: real, fromAr: real, channel: string): Journal {
    if RoundMoney(amount) <= 0 then None
    else Some(If(RoundMoney(fromAr) > 0, PlainLine(AR, Debit, RoundMoney(fromAr), RefundKey(refund, "ar")))
              + If(RoundMoney(fromUnapplied) > 0, PlainLine(UNAPPLIED, Debit, RoundMoney(fromUnapplied), RefundKey(refund, "unapplied")))
              + [PlainLine(CashLike(channel), Credit, RoundMoney(amount), RefundKey(refund, "cash"))])
  }

  datatype Disposition = RefundOut | Forfeit | Deduction | Transfer | RemainingHeld

  function DispositionJournal(disposition: Id, amount: real, kind: Disposition): Journal {
    if RoundMoney(amount) <= 0 || kind == Transfer || kind == RemainingHeld then None
    else Some(Pair(DEPOSIT_LIABILITY, DepositDispositionKey(disposition, "liability"),
                   if kind == RefundOut then CASH else if kind == Forfeit then REVENUE else AR,
                   DepositDispositionKey(disposition, "offset"), RoundMoney(amount), None, None))
  }

  // ----- the service -----

  function PostJournal(entries: seq<Entry>, accounts: set<string>, h: Header, journal: Journal): (seq<Entry>, Outcome) {
    if journal.None? then (entries, Created) else Post(entries, accounts, h, journal.value)
  }

  /** A journal whose id is not an id but text with a suffix: a UUID column takes none of its lines. */
  function PostSuffixed(uuidJournals: bool, entries: seq<Entry>, accounts: set<string>, h: Header, journal: Journal): (seq<Entry>, Outcome) {
    if uuidJournals && journal.Some? && Validate(journal.value).None? then (entries, Rejected(JournalIdInvalid))
    else PostJournal(entries, accounts, h, journal)
  }

  class LedgerTable {
    var entries: seq<Entry>
    var accounts: map<Id, set<string>>
    const uuidJournals: bool

    constructor (entries: seq<Entry>, uuidJournals: bool)
      ensures this.entries == entries && accounts == map[] && this.uuidJournals == uuidJournals
    {
      this.entries, accounts, this.uuidJournals := entries, map[], uuidJournals;
    }

    method PostSuffixedJournal(h: Header, lines: seq<Line>) returns (outcome: Outcome)
      modifies this
      ensures (entries, outcome) == PostSuffixed(uuidJournals, old(entries), old(AccountsOf(h.tenant)), h, Some(lines))
    {
      if uuidJournals && Validate(lines).None? {
        return Rejected(JournalIdInvalid);
      }
      outcome := PostBalancedJournal(h, lines);
    }

    function AccountsOf(tenant: Id): set<string>
      reads this
    {
      if tenant in accounts then accounts[tenant] else {}
    }

    method EnsureDefaultAccounts(tenant: Id)
      modifies this`accounts
      ensures AccountsOf(tenant) == old(AccountsOf(tenant)) + DEFAULT_ACCOUNTS
    {
      accounts := accounts[tenant := AccountsOf(tenant) + DEFAULT_ACCOUNTS];
    }

    method PostBalancedJournal(h: Header, lines: seq<Line>) returns (outcome: Outcome)
      modifies this
      ensures (entries, outcome) == Post(old(entries), old(AccountsOf(h.tenant)), h, lines)
    {
      if |lines| < 2 {
        return Rejected(Unbalanced);
      }
      var debit, credit := 0, 0;
      for i := 0 to |lines|
        invariant debit == Sum(lines[..i], Debit) && credit == Sum(lines[..i], Credit)
        invariant forall k :: 0 <= k < i ==> lines[k].amount > 0
      {
        assert lines[..i + 1][..i] == lines[..i];
        if lines[i].amount <= 0 {
          return Rejected(AmountInvalid);
        }
        if lines[i].side == Debit {
          debit := debit + lines[i].amount;
        } else {
          credit := credit + lines[i].amount;
        }
      }
      assert lines[..|lines|] == lines;
      if debit != credit {
        return Rejected(Unbalanced);
      }
      outcome := WriteLines(h, lines);
    }

    /** The part of the posting that writes. */
    method WriteLines(h: Header, lines: seq<Line>) returns (outcome: Outcome)
      requires Validate(lines).None?
      modifies this
      ensures (entries, outcome) == Post(old(entries), old(AccountsOf(h.tenant)), h, lines)
    {
      var known := AccountsOf(h.tenant) + DEFAULT_ACCOUNTS;
      EnsureDefaultAccounts(h.tenant);
      var before := entries;
      for i := 0 to |lines|
        invariant entries == before + EntriesOf(h, lines[..i])
        invariant FreshLines(before, h, lines, i) == FreshLines(before, h, lines, 0)
        invariant forall k :: 0 <= k < i ==> lines[k].account in known
      {
        if lines[i].account !in known {
          entries := before; // the exception rolls the transaction back
          return Rejected(AccountMissing);
        }
        if KeyUsed(entries, h.tenant, lines[i].key) {
          return Duplicate;
        }
        entries := entries + [Entry(h, lines[i])];
        assert EntriesOf(h, lines[..i + 1]) == EntriesOf(h, lines[..i]) + [Entry(h, lines[i])];
      }
      assert lines[..|lines|] == lines;
      return Created;
    }

    method PostPaymentSettlementJournal(h: Header, payment: Id, batchId: Option<Id>, amount: real, cashAmount: Option<real>,
                                        channel: string, fromUnapplied: bool) returns (outcome: Outcome)
      modifies this
      ensures var journal := SettlementJournal(payment, batchId, amount, cashAmount, channel, fromUnapplied);
              (entries, outcome) == PostSuffixed(uuidJournals && fromUnapplied, old(entries), old(AccountsOf(h.tenant)), h, journal)
    {
      ghost var journal := SettlementJournal(payment, batchId, amount, cashAmount, channel, fromUnapplied);
      var applied := RoundMoney(amount);
      if applied <= 0 && (cashAmount.None? || RoundMoney(cashAmount.value) <= 0) {
        assert journal.None?;
        return Created;
      }
      var batch := if batchId.Some? then batchId.value else payment;
      if fromUnapplied {
        if applied <= 0 {
          assert journal.None?;
          return Created;
        }
        outcome := PostSuffixedJournal(h, Pair(UNAPPLIED, PaymentKey(payment, batch, "unapplied"),
                                               AR, PaymentKey(payment, batch, "ar"), applied, None, None));
        return;
      }
      var cash := if cashAmount.Some? then RoundMoney(cashAmount.value) else applied;
      var unapplied := cash - applied;
      var lines := BuildSettlement(payment, batch, cash, applied, unapplied, channel);
      assert journal == if |lines| < 2 then None else Some(lines);
      if |lines| < 2 {
        return Created;
      }
      outcome := PostBalancedJournal(h, lines);
    }

    static method BuildSettlement(payment: Id, batch: Id, cash: int, applied: int, unapplied: int, channel: string) returns (lines: seq<Line>)
      ensures lines == SettlementLines(payment, batch, cash, applied, unapplied, channel)
    {
      lines := [PlainLine(CashLike(channel), Debit, cash, PaymentKey(payment, batch, "cash"))];
      if applied > 0 {
        lines := lines + [PlainLine(AR, Credit, applied, PaymentKey(payment, batch, "ar"))];
      }
      if unapplied > 0 {
        lines := lines + [PlainLine(UNAPPLIED, Credit, unapplied, PaymentKey(payment, batch, "unapplied"))];
      }
    }

    method PostPaymentReversalJournal(h: Header, reversal: Id, allocatedAmount: real, unallocatedAmount: real, channel: string)
      returns (outcome: Outcome)
      modifies this
      ensures (entries, outcome) == PostJournal(old(entries), old(AccountsOf(h.tenant)), h,
                                                ReversalJournal(reversal, allocatedAmount, unallocatedAmount, channel))
    {
      var applied, unallocated := RoundMoney(allocatedAmount), RoundMoney(unallocatedAmount);
      var total := applied + unallocated;
      if total <= 0 {
        return Created;
      }
      var lines: seq<Line> := [];
      if applied > 0 {
        lines := lines + [PlainLine(AR, Debit, applied, PaymentReversalKey(reversal, "ar"))];
      }
      if unallocated > 0 {
        lines := lines + [PlainLine(UNAPPLIED, Debit, unallocated, PaymentReversalKey(reversal, "unapplied"))];
      }
      assert lines == If(applied > 0, PlainLine(AR, Debit, applied, PaymentReversalKey(reversal, "ar")))
                      + If(unallocated > 0, PlainLine(UNAPPLIED, Debit, unallocated, PaymentReversalKey(reversal, "unapplied")));
      lines := lines + [PlainLine(CashLike(channel), Credit, total, PaymentReversalKey(reversal, "cash"))];
      outcome := PostBalancedJournal(h, lines);
    }

    method PostRefundJournal(h: Header, refund: Id, amount: real, fromUnapplied: real, fromAr: real, channel: string)
      returns (outcome: Outcome)
      modifies this
      ensures (entries, outcome) == PostJournal(old(entries), old(AccountsOf(h.tenant)), h,
                                                RefundJournal(refund, amount, fromUnapplied, fromAr, channel))
    {
      if RoundMoney(amount) <= 0 {
        return Created;
      }
      var lines: seq<Line> := [];
      if RoundMoney(fromAr) > 0 {
        lines := lines + [PlainLine(AR, Debit, RoundMoney(fromAr), RefundKey(refund, "ar"))];
      }
      if RoundMoney(fromUnapplied) > 0 {
        lines := lines + [PlainLine(UNAPPLIED, Debit, RoundMoney(fromUnapplied), RefundKey(refund, "unapplied"))];
      }
      assert lines == If(RoundMoney(fromAr) > 0, PlainLine(AR, Debit, RoundMoney(fromAr), RefundKey(refund, "ar")))
                      + If(RoundMoney(fromUnapplied) > 0, PlainLine(UNAPPLIED, Debit, RoundMoney(fromUnapplied), RefundKey(refund, "unapplied")));
      lines := lines + [PlainLine(CashLike(channel), Credit, RoundMoney(amount), RefundKey(refund, "cash"))];
      outcome := PostBalancedJournal(h, lines);
    }
  }

  // ----- debits equal credits -----

  function Total(entries: seq<Entry>, tenant: Id, currency: string, side: Side): int {
    if entries == [] then 0
    else
      var e := entries[|entries| - 1];
      Total(entries[..|entries| - 1], tenant, currency, side)
      + if e.header.tenant == tenant && e.header.currency == currency && e.line.side == side then e.line.amount else 0
  }

  ghost predicate Balanced(entries: seq<Entry>) {
    forall tenant, currency :: Total(entries, tenant, currency, Debit) == Total(entries, tenant, currency, Credit)
  }

  lemma {:induction false} TotalOfLines(entries: seq<Entry>, h: Header, lines: seq<Line>, tenant: Id, currency: string, side: Side)
    ensures Total(entries + EntriesOf(h, lines), tenant, currency, side)
         == Total(entries, tenant, currency, side) + if h.tenant == tenant && h.currency == currency then Sum(lines, side) else 0
  {
    if lines == [] {
      assert entries + EntriesOf(h, lines) == entries;
    } else {
      var n := |lines| - 1;
      TotalOfLines(entries, h, lines[..n], tenant, currency, side);
      var all := entries + EntriesOf(h, lines);
      assert all[..|all| - 1] == entries + EntriesOf(h, lines[..n]);
    }
  }

  /** Appending lines keeps the books balanced exactly when the lines balance among themselves. */
  lemma BalancedIff(entries: seq<Entry>, h: Header, lines: seq<Line>)
    requires Balanced(entries)
    ensures Balanced(entries + EntriesOf(h, lines)) <==> Sum(lines, Debit) == Sum(lines, Credit)
  {
    TotalOfLines(entries, h, lines, h.tenant, h.currency, Debit);
    TotalOfLines(entries, h, lines, h.tenant, h.currency, Credit);
    assert Total(entries, h.tenant, h.currency, Debit) == Total(entries, h.tenant, h.currency, Credit);
    forall tenant, currency | Sum(lines, Debit) == Sum(lines, Credit)
      ensures Total(entries + EntriesOf(h, lines), tenant, currency, Debit) == Total(entries + EntriesOf(h, lines), tenant, currency, Credit)
    {
      TotalOfLines(entries, h, lines, tenant, currency, Debit);
      TotalOfLines(entries, h, lines, tenant, currency, Credit);
    }
  }

  /** One side of the journal is a single line, and that line comes first or last. Every journal the
      service builds has this form. */
  ghost predicate Fan(lines: seq<Line>) {
    && |lines| >= 2
    && ((forall i :: 0 < i < |lines| ==> lines[i].side != lines[0].side)
        || (forall i :: 0 <= i < |lines| - 1 ==> lines[i].side != lines[|lines| - 1].side))
  }

  function Other(side: Side): Side {
    if side == Debit then Credit else Debit
  }

  lemma {:induction false} SumOneSided(lines: seq<Line>, side: Side)
    requires forall i :: 0 <= i < |lines| ==> lines[i].side == side && lines[i].amount > 0
    ensures Sum(lines, Other(side)) == 0 && (lines != [] ==> Sum(lines, side) > 0) && (lines == [] ==> Sum(lines, side) == 0)
  {
    if lines != [] { SumOneSided(lines[..|lines| - 1], side); }
  }

  lemma {:induction false} SumGrows(lines: seq<Line>, n: nat, side: Side)
    requires n <= |lines| && forall i :: 0 <= i < |lines| ==> lines[i].amount > 0
    ensures Sum(lines[..n], side) <= Sum(lines, side)
    ensures (exists i :: n <= i < |lines| && lines[i].side == side) ==> Sum(lines[..n], side) < Sum(lines, side)
  {
    if n < |lines| {
      assert lines[..|lines| - 1][..n] == lines[..n];
      SumGrows(lines[..|lines| - 1], n, side);
      if i :| n <= i < |lines| && lines[i].side == side && i < |lines| - 1 {
        assert lines[..|lines| - 1][i].side == side;
      }
    } else {
      assert lines[..n] == lines;
    }
  }

  lemma {:induction false} SumOfCons(line: Line, rest: seq<Line>, side: Side)
    ensures Sum([line] + rest, side) == (if line.side == side then line.amount else 0) + Sum(rest, side)
  {
    if rest == [] {
      assert [line] + rest == [line] && [line][..0] == [];
    } else {
      SumOfCons(line, rest[..|rest| - 1], side);
      assert ([line] + rest)[..|rest|] == [line] + rest[..|rest| - 1];
    }
  }

  /** No proper, non-empty beginning of a balanced fan is balanced. */
  lemma FanPrefixUnbalanced(lines: seq<Line>, n: nat)
    requires Fan(lines) && Validate(lines).None? && 0 < n < |lines|
    ensures Sum(lines[..n], Debit) != Sum(lines[..n], Credit)
  {
    if forall i :: 0 < i < |lines| ==> lines[i].side != lines[0].side {
      var side := lines[0].side;
      assert lines == [lines[0]] + lines[1..] && lines[..n] == [lines[0]] + lines[..n][1..];
      SumOfCons(lines[0], lines[1..], side);
      SumOfCons(lines[0], lines[..n][1..], side);
      SumOneSided(lines[1..], Other(side));
      SumOneSided(lines[..n][1..], Other(side));
      assert lines[n].side == Other(side);
      SumGrows(lines, n, Other(side));
    } else {
      SumOneSided(lines[..n], lines[0].side);
    }
  }

  /** Posting a balanced journal of this form leaves the books balanced exactly when none of its
      keys is in use or its very first one is; in the remaining case half of it gets written. */
  lemma PostKeepsBalanceIff(entries: seq<Entry>, accounts: set<string>, h: Header, lines: seq<Line>)
    requires Balanced(entries) && Fan(lines)
    ensures var (after, outcome) := Post(entries, accounts, h, lines);
            && (outcome != Duplicate ==> Balanced(after))
            && (outcome == Duplicate ==> (Balanced(after) <==> KeyUsed(entries, h.tenant, lines[0].key)))
            && (outcome == Duplicate && KeyUsed(entries, h.tenant, lines[0].key) ==> after == entries)
  {
    var (after, outcome) := Post(entries, accounts, h, lines);
    if !outcome.Rejected? {
      var n := FreshLines(entries, h, lines, 0);
      assert lines[..0] == [] && entries + EntriesOf(h, []) == entries;
      BalancedIff(entries, h, lines[..n]);
      if n == |lines| {
        assert lines[..n] == lines;
      } else if n > 0 {
        FanPrefixUnbalanced(lines, n);
      }
    }
  }

  // ----- what the builders build -----

  ghost predicate DistinctKeys(lines: seq<Line>) {
    forall i, j :: 0 <= i < j < |lines| ==> lines[i].key != lines[j].key
  }

  /** A built journal that passes the checks is a fan of distinct keys on default accounts. */
  ghost predicate WellBuilt(journal: Journal) {
    journal.Some? && Validate(journal.value).None? ==>
      Fan(journal.value) && DistinctKeys(journal.value)
      && forall i :: 0 <= i < |journal.value| ==> journal.value[i].account in DEFAULT_ACCOUNTS
  }

  lemma SumOfTwo(a: Line, b: Line, side: Side)
    ensures Sum([a, b], side) == (if a.side == side then a.amount else 0) + if b.side == side then b.amount else 0
  {
    assert [a, b][..1] == [a] && [a][..0] == [];
    assert Sum([a], side) == Sum([], side) + if a.side == side then a.amount else 0;
  }

  lemma PairIsWellBuilt(debit: string, dk: PostingKey, credit: string, ck: PostingKey, amount: int, rd: Option<nat>, rc: Option<nat>)
    requires amount > 0 && dk != ck && debit in DEFAULT_ACCOUNTS && credit in DEFAULT_ACCOUNTS
    ensures var lines := Pair(debit, dk, credit, ck, amount, rd, rc); Validate(lines).None? && WellBuilt(Some(lines))
  {
    var lines := Pair(debit, dk, credit, ck, amount, rd, rc);
    SumOfTwo(lines[0], lines[1], Debit);
    SumOfTwo(lines[0], lines[1], Credit);
  }

  /** A settlement that posts is accepted exactly when the cash received covers what is allocated
      and neither is negative; then AR falls by the allocation and the rest becomes unapplied. */
  lemma SettlementAcceptedIff(payment: Id, batchId: Option<Id>, amount: real, cashAmount: Option<real>, channel: string)
    ensures var j := SettlementJournal(payment, batchId, amount, cashAmount, channel, false);
            var applied := RoundMoney(amount);
            var cash := if cashAmount.Some? then RoundMoney(cashAmount.value) else applied;
            && WellBuilt(j)
            && (j.Some? && Validate(j.value).None? <==> 0 <= applied <= cash && cash > 0)
  {
    var j := SettlementJournal(payment, batchId, amount, cashAmount, channel, false);
    if j.Some? {
      assert |j.value| == 2 ==> j.value == [j.value[0], j.value[1]];
      if |j.value| == 2 {
        SumOfTwo(j.value[0], j.value[1], Debit);
        SumOfTwo(j.value[0], j.value[1], Credit);
      } else {
        SumOfThree(j.value[0], j.value[1], j.value[2], Debit);
        SumOfThree(j.value[0], j.value[1], j.value[2], Credit);
        assert j.value == [j.value[0], j.value[1], j.value[2]];
      }
      assert j.value[0].amount <= 0 ==> Validate(j.value).Some?;
    }
  }

  /** Applying unapplied cash of a positive amount is accepted with fresh keys exactly when the journal
      id column takes text; refused, it leaves the table as it was. */
  lemma UnappliedPostsIff(uuidJournals: bool, entries: seq<Entry>, h: Header, payment: Id, batchId: Option<Id>, amount: real,
                          cashAmount: Option<real>, channel: string)
    requires RoundMoney(amount) > 0
    requires var batch := if batchId.Some? then batchId.value else payment;
             !KeyUsed(entries, h.tenant, PaymentKey(payment, batch, "unapplied")) && !KeyUsed(entries, h.tenant, PaymentKey(payment, batch, "ar"))
    ensures var (after, outcome) := PostSuffixed(uuidJournals, entries, {}, h,
                                                 SettlementJournal(payment, batchId, amount, cashAmount, channel, true));
            && (outcome == Created <==> !uuidJournals)
            && (uuidJournals ==> after == entries)
  {
    var lines := SettlementJournal(payment, batchId, amount, cashAmount, channel, true).value;
    PairIsWellBuilt(UNAPPLIED, lines[0].key, AR, lines[1].key, RoundMoney(amount), None, None);
    TwoFreshLines(entries, h, lines);
  }

  lemma SumOfThree(a: Line, b: Line, c: Line, side: Side)
    ensures Sum([a, b, c], side)
         == (if a.side == side then a.amount else 0) + (if b.side == side then b.amount else 0) + if c.side == side then c.amount else 0
  {
    assert [a, b, c][..2] == [a, b];
    SumOfTwo(a, b, side);
  }

  /** A reversal is accepted exactly when neither part is negative. */
  lemma ReversalAcceptedIff(reversal: Id, allocatedAmount: real, unallocatedAmount: real, channel: string)
    requires RoundMoney(allocatedAmount) + RoundMoney(unallocatedAmount) > 0
    ensures var j := ReversalJournal(reversal, allocatedAmount, unallocatedAmount, channel);
            && WellBuilt(j) && j.Some?
            && (Validate(j.value).None? <==> RoundMoney(allocatedAmount) >= 0 && RoundMoney(unallocatedAmount) >= 0)
  {
    var j := ReversalJournal(reversal, allocatedAmount, unallocatedAmount, channel);
    DebitFan(j.value);
  }

  /** A refund is accepted exactly when its parts, counted where positive, add up to its amount. */
  lemma RefundAcceptedIff(refund: Id, amount: real, fromUnapplied: real, fromAr: real, channel: string)
    requires RoundMoney(amount) > 0
    ensures var j := RefundJournal(refund, amount, fromUnapplied, fromAr, channel);
            var ar, un := RoundMoney(fromAr), RoundMoney(fromUnapplied);
            && WellBuilt(j) && j.Some?
            && (Validate(j.value).None? <==> (if ar > 0 then ar else 0) + (if un > 0 then un else 0) == RoundMoney(amount))
  {
    var j := RefundJournal(refund, amount, fromUnapplied, fromAr, channel);
    DebitFan(j.value);
  }

  lemma DebitFan(lines: seq<Line>)
    requires 1 <= |lines| <= 3
    requires lines[|lines| - 1].side == Credit && forall i :: 0 <= i < |lines| - 1 ==> lines[i].side == Debit
    ensures Sum(lines, Credit) == lines[|lines| - 1].amount
    ensures Sum(lines, Debit) == (if |lines| > 1 then lines[0].amount else 0) + if |lines| > 2 then lines[1].amount else 0
    ensures |lines| >= 2 ==> Fan(lines)
  {
    if |lines| == 1 {
      assert lines[..0] == [];
    } else if |lines| == 2 {
      assert lines == [lines[0], lines[1]];
      SumOfTwo(lines[0], lines[1], Debit);
      SumOfTwo(lines[0], lines[1], Credit);
    } else {
      assert lines == [lines[0], lines[1], lines[2]];
      SumOfThree(lines[0], lines[1], lines[2], Debit);
      SumOfThree(lines[0], lines[1], lines[2], Credit);
    }
  }

  /** The journals of two lines on one amount need no checks of their own. */
  lemma PairJournalsAreWellBuilt(entries: seq<Entry>, tenant: Id, id: Id, amount: real, kind: Disposition, batch: Option<Id>)
    ensures WellBuilt(InvoiceJournal(id, amount)) && WellBuilt(InvoiceVoidJournal(entries, tenant, id, amount))
    ensures WellBuilt(CreditNoteJournal(id, amount)) && WellBuilt(DispositionJournal(id, amount, kind))
    ensures WellBuilt(SettlementJournal(id, batch, amount, None, "CASH", true))
  {
  }

  // ----- how a journal moves the accounts -----

  /** What a line adds to an account: debits count up, credits down. */
  function Shift(line: Line, account: string): int {
    if line.account != account then 0 else if line.side == Debit then line.amount else -line.amount
  }

  /** Debits minus credits of an account, in the books of a tenant in a currency. */
  function Movement(entries: seq<Entry>, tenant: Id, currency: string, account: string): int {
    if entries == [] then 0
    else
      var e := entries[|entries| - 1];
      Movement(entries[..|entries| - 1], tenant, currency, account)
      + if e.header.tenant == tenant && e.header.currency == currency then Shift(e.line, account) else 0
  }

  function Net(lines: seq<Line>, account: string): int {
    if lines == [] then 0 else Net(lines[..|lines| - 1], account) + Shift(lines[|lines| - 1], account)
  }

  lemma {:induction false} NetOfConcat(a: seq<Line>, b: seq<Line>, account: string)
    ensures Net(a + b, account) == Net(a, account) + Net(b, account)
  {
    if b == [] {
      assert a + b == a;
    } else {
      NetOfConcat(a, b[..|b| - 1], account);
      assert (a + b)[..|a + b| - 1] == a + b[..|b| - 1];
    }
  }

  lemma NetOfOne(line: Line, account: string)
    ensures Net([line], account) == Shift(line, account)
  {
    assert [line][..0] == [];
  }

  lemma NetOfIf(condition: bool, line: Line, account: string)
    ensures Net(If(condition, line), account) == if condition then Shift(line, account) else 0
  {
    NetOfOne(line, account);
  }

  lemma NetOfPair(debit: string, dk: PostingKey, credit: string, ck: PostingKey, amount: int, rd: Option<nat>, rc: Option<nat>, account: string)
    ensures Net(Pair(debit, dk, credit, ck, amount, rd, rc), account)
         == (if account == debit then amount else 0) - if account == credit then amount else 0
  {
    var lines := Pair(debit, dk, credit, ck, amount, rd, rc);
    NetOfOne(lines[0], account);
    NetOfOne(lines[1], account);
    NetOfConcat([lines[0]], [lines[1]], account);
  }

  lemma {:induction false} MovementOfLines(entries: seq<Entry>, h: Header, lines: seq<Line>, tenant: Id, currency: string, account: string)
    ensures Movement(entries + EntriesOf(h, lines), tenant, currency, account)
         == Movement(entries, tenant, currency, account)
            + if h.tenant == tenant && h.currency == currency then Net(lines, account) else 0
  {
    if lines == [] {
      assert entries + EntriesOf(h, lines) == entries;
    } else {
      var n := |lines| - 1;
      MovementOfLines(entries, h, lines[..n], tenant, currency, account);
      var all := entries + EntriesOf(h, lines);
      assert all[..|all| - 1] == entries + EntriesOf(h, lines[..n]);
    }
  }

  /** What posting a journal has added to an account of the header's tenant in its currency. */
  function Moved(entries: seq<Entry>, after: seq<Entry>, h: Header, account: string): int {
    Movement(after, h.tenant, h.currency, account) - Movement(entries, h.tenant, h.currency, account)
  }

  /** A journal that was created has written all its lines, and only to that tenant and currency. */
  lemma CreatedMoves(entries: seq<Entry>, accounts: set<string>, h: Header, lines: seq<Line>, account: string)
    requires Post(entries, accounts, h, lines).1 == Created
    ensures Moved(entries, Post(entries, accounts, h, lines).0, h, account) == Net(lines, account)
    ensures forall tenant, currency :: tenant != h.tenant || currency != h.currency ==>
              Movement(Post(entries, accounts, h, lines).0, tenant, currency, account) == Movement(entries, tenant, currency, account)
  {
    assert lines[..|lines|] == lines;
    forall tenant, currency { MovementOfLines(entries, h, lines, tenant, currency, account); }
  }

  /** A settlement of a payment: the whole cash comes in to cash or bank, what is allocated leaves
      receivables, and the rest is owed as unapplied cash. */
  lemma SettlementMoves(entries: seq<Entry>, accounts: set<string>, h: Header, payment: Id, batchId: Option<Id>, amount: real,
                        cashAmount: Option<real>, channel: string, account: string)
    requires SettlementJournal(payment, batchId, amount, cashAmount, channel, false).Some?
    requires PostJournal(entries, accounts, h, SettlementJournal(payment, batchId, amount, cashAmount, channel, false)).1 == Created
    ensures var after := PostJournal(entries, accounts, h, SettlementJournal(payment, batchId, amount, cashAmount, channel, false)).0;
            var applied := RoundMoney(amount);
            var cash := if cashAmount.Some? then RoundMoney(cashAmount.value) else applied;
            Moved(entries, after, h, account)
            == if account == "1100" then -applied
               else if account == "1200" then -(cash - applied)
               else if account == (if channel == "CASH" then "1000" else "1010") then cash
               else 0
  {
    var j := SettlementJournal(payment, batchId, amount, cashAmount, channel, false).value;
    var applied := RoundMoney(amount);
    var cash := if cashAmount.Some? then RoundMoney(cashAmount.value) else applied;
    SettlementAcceptedIff(payment, batchId, amount, cashAmount, channel);
    CreatedMoves(entries, accounts, h, j, account);
    NetOfSettlement(payment, if batchId.Some? then batchId.value else payment, cash, applied, channel, account);
  }

  lemma NetOfSettlement(payment: Id, batch: Id, cash: int, applied: int, channel: string, account: string)
    requires 0 <= applied <= cash
    ensures Net(SettlementLines(payment, batch, cash, applied, cash - applied, channel), account)
         == if account == "1100" then -applied
            else if account == "1200" then -(cash - applied)
            else if account == (if channel == "CASH" then "1000" else "1010") then cash
            else 0
  {
    var a := PlainLine(CashLike(channel), Debit, cash, PaymentKey(payment, batch, "cash"));
    var b := PlainLine(AR, Credit, applied, PaymentKey(payment, batch, "ar"));
    var c := PlainLine(UNAPPLIED, Credit, cash - applied, PaymentKey(payment, batch, "unapplied"));
    NetOfConcat([a] + If(applied > 0, b), If(cash - applied > 0, c), account);
    NetOfConcat([a], If(applied > 0, b), account);
    NetOfOne(a, account);
    NetOfIf(applied > 0, b, account);
    NetOfIf(cash - applied > 0, c, account);
  }

  /** Applying unapplied cash moves it to receivables, whichever way it came in. */
  lemma UnappliedMoves(entries: seq<Entry>, accounts: set<string>, h: Header, payment: Id, batchId: Option<Id>, amount: real,
                       cashAmount: Option<real>, channel: string, account: string)
    requires RoundMoney(amount) > 0
    requires PostJournal(entries, accounts, h, SettlementJournal(payment, batchId, amount, cashAmount, channel, true)).1 == Created
    ensures var after := PostJournal(entries, accounts, h, SettlementJournal(payment, batchId, amount, cashAmount, channel, true)).0;
            Moved(entries, after, h, account)
            == if account == "1200" then RoundMoney(amount) else if account == "1100" then -RoundMoney(amount) else 0
  {
    var batch := if batchId.Some? then batchId.value else payment;
    CreatedMoves(entries, accounts, h, SettlementJournal(payment, batchId, amount, cashAmount, channel, true).value, account);
    NetOfPair(UNAPPLIED, PaymentKey(payment, batch, "unapplied"), AR, PaymentKey(payment, batch, "ar"), RoundMoney(amount), None, None, account);
  }

  /** A reversal gives back what a settlement took: receivables and unapplied cash rise, cash falls. */
  lemma ReversalMoves(entries: seq<Entry>, accounts: set<string>, h: Header, reversal: Id, allocatedAmount: real,
                      unallocatedAmount: real, channel: string, account: string)
    requires RoundMoney(allocatedAmount) + RoundMoney(unallocatedAmount) > 0
    requires PostJournal(entries, accounts, h, ReversalJournal(reversal, allocatedAmount, unallocatedAmount, channel)).1 == Created
    ensures var after := PostJournal(entries, accounts, h, ReversalJournal(reversal, allocatedAmount, unallocatedAmount, channel)).0;
            Moved(entries, after, h, account)
            == if account == "1100" then RoundMoney(allocatedAmount)
               else if account == "1200" then RoundMoney(unallocatedAmount)
               else if account == (if channel == "CASH" then "1000" else "1010") then -(RoundMoney(allocatedAmount) + RoundMoney(unallocatedAmount))
               else 0
  {
    var applied, unallocated := RoundMoney(allocatedAmount), RoundMoney(unallocatedAmount);
    ReversalAcceptedIff(reversal, allocatedAmount, unallocatedAmount, channel);
    CreatedMoves(entries, accounts, h, ReversalJournal(reversal, allocatedAmount, unallocatedAmount, channel).value, account);
    NetOfReversal(reversal, applied, unallocated, channel, account);
  }

  lemma NetOfReversal(reversal: Id, applied: int, unallocated: int, channel: string, account: string)
    requires applied >= 0 && unallocated >= 0
    ensures Net(If(applied > 0, PlainLine(AR, Debit, applied, PaymentReversalKey(reversal, "ar")))
                + If(unallocated > 0, PlainLine(UNAPPLIED, Debit, unallocated, PaymentReversalKey(reversal, "unapplied")))
                + [PlainLine(CashLike(channel), Credit, applied + unallocated, PaymentReversalKey(reversal, "cash"))], account)
         == if account == "1100" then applied
            else if account == "1200" then unallocated
            else if account == (if channel == "CASH" then "1000" else "1010") then -(applied + unallocated)
            else 0
  {
    NetOfIfs(applied > 0, PlainLine(AR, Debit, applied, PaymentReversalKey(reversal, "ar")),
             unallocated > 0, PlainLine(UNAPPLIED, Debit, unallocated, PaymentReversalKey(reversal, "unapplied")),
             PlainLine(CashLike(channel), Credit, applied + unallocated, PaymentReversalKey(reversal, "cash")), account);
  }

  lemma NetOfIfs(p: bool, a: Line, q: bool, b: Line, c: Line, account: string)
    ensures Net(If(p, a) + If(q, b) + [c], account)
         == (if p then Shift(a, account) else 0) + (if q then Shift(b, account) else 0) + Shift(c, account)
  {
    NetOfConcat(If(p, a) + If(q, b), [c], account);
    NetOfConcat(If(p, a), If(q, b), account);
    NetOfIf(p, a, account);
    NetOfIf(q, b, account);
    NetOfOne(c, account);
  }

  /** A refund pays out of receivables and unapplied cash, of each the part that is positive. */
  lemma RefundMoves(entries: seq<Entry>, accounts: set<string>, h: Header, refund: Id, amount: real, fromUnapplied: real, fromAr: real,
                    channel: string, account: string)
    requires RoundMoney(amount) > 0
    requires PostJournal(entries, accounts, h, RefundJournal(refund, amount, fromUnapplied, fromAr, channel)).1 == Created
    ensures var after := PostJournal(entries, accounts, h, RefundJournal(refund, amount, fromUnapplied, fromAr, channel)).0;
            Moved(entries, after, h, account)
            == if account == "1100" then (if RoundMoney(fromAr) > 0 then RoundMoney(fromAr) else 0)
               else if account == "1200" then (if RoundMoney(fromUnapplied) > 0 then RoundMoney(fromUnapplied) else 0)
               else if account == (if channel == "CASH" then "1000" else "1010") then -RoundMoney(amount)
               else 0
  {
    CreatedMoves(entries, accounts, h, RefundJournal(refund, amount, fromUnapplied, fromAr, channel).value, account);
    NetOfRefund(refund, RoundMoney(amount), RoundMoney(fromUnapplied), RoundMoney(fromAr), channel, account);
  }

  lemma NetOfRefund(refund: Id, amount: int, fromUnapplied: int, fromAr: int, channel: string, account: string)
    ensures Net(If(fromAr > 0, PlainLine(AR, Debit, fromAr, RefundKey(refund, "ar")))
                + If(fromUnapplied > 0, PlainLine(UNAPPLIED, Debit, fromUnapplied, RefundKey(refund, "unapplied")))
                + [PlainLine(CashLike(channel), Credit, amount, RefundKey(refund, "cash"))], account)
         == if account == "1100" then (if fromAr > 0 then fromAr else 0)
            else if account == "1200" then (if fromUnapplied > 0 then fromUnapplied else 0)
            else if account == (if channel == "CASH" then "1000" else "1010") then -amount
            else 0
  {
    NetOfIfs(fromAr > 0, PlainLine(AR, Debit, fromAr, RefundKey(refund, "ar")),
             fromUnapplied > 0, PlainLine(UNAPPLIED, Debit, fromUnapplied, RefundKey(refund, "unapplied")),
             PlainLine(CashLike(channel), Credit, amount, RefundKey(refund, "cash")), account);
  }

  /** A deposit that is refunded, forfeited or deducted leaves the deposit liability for cash, revenue or
      receivables; held or transferred it moves nothing. */
  lemma DispositionMoves(entries: seq<Entry>, accounts: set<string>, h: Header, disposition: Id, amount: real, kind: Disposition, account: string)
    requires PostJournal(entries, accounts, h, DispositionJournal(disposition, amount, kind)).1 == Created
    ensures var after := PostJournal(entries, accounts, h, DispositionJournal(disposition, amount, kind)).0;
            var moved := if RoundMoney(amount) > 0 && (kind == RefundOut || kind == Forfeit || kind == Deduction) then RoundMoney(amount) else 0;
            Moved(entries, after, h, account)
            == if account == "2200" then moved
               else if account == (if kind == RefundOut then "1000" else if kind == Forfeit then "4000" else "1100") then -moved
               else 0
  {
    if DispositionJournal(disposition, amount, kind).Some? {
      CreatedMoves(entries, accounts, h, DispositionJournal(disposition, amount, kind).value, account);
      NetOfPair(DEPOSIT_LIABILITY, DepositDispositionKey(disposition, "liability"),
                if kind == RefundOut then CASH else if kind == Forfeit then REVENUE else AR,
                DepositDispositionKey(disposition, "offset"), RoundMoney(amount), None, None, account);
    }
  }

  /** An invoice moves its amount from revenue to receivables; its void and a credit note move theirs back. */
  lemma InvoiceMoves(entries: seq<Entry>, accounts: set<string>, h: Header, id: Id, amount: real, account: string)
    ensures PostJournal(entries, accounts, h, InvoiceJournal(id, amount)).1 == Created ==>
              Moved(entries, PostJournal(entries, accounts, h, InvoiceJournal(id, amount)).0, h, account) == Billed(amount, account)
    ensures PostJournal(entries, accounts, h, InvoiceVoidJournal(entries, h.tenant, id, amount)).1 == Created ==>
              Moved(entries, PostJournal(entries, accounts, h, InvoiceVoidJournal(entries, h.tenant, id, amount)).0, h, account)
              == -Billed(amount, account)
    ensures PostJournal(entries, accounts, h, CreditNoteJournal(id, amount)).1 == Created ==>
              Moved(entries, PostJournal(entries, accounts, h, CreditNoteJournal(id, amount)).0, h, account) == -Billed(amount, account)
  {
    if RoundMoney(amount) > 0 {
      var credit, debit := FindOriginal(entries, h.tenant, id, Credit, 0), FindOriginal(entries, h.tenant, id, Debit, 0);
      NetOfPair(AR, InvoiceKey(id, "ar"), REVENUE, InvoiceKey(id, "revenue"), RoundMoney(amount), None, None, account);
      NetOfPair(REVENUE, InvoiceVoidKey(id, "revenue"), AR, InvoiceVoidKey(id, "ar"), RoundMoney(amount), credit, debit, account);
      NetOfPair(REVENUE, CreditNoteKey(id, "revenue"), AR, CreditNoteKey(id, "ar"), RoundMoney(amount), None, None, account);
      PostedAsBuilt(entries, accounts, h, InvoiceJournal(id, amount).value, account);
      PostedAsBuilt(entries, accounts, h, InvoiceVoidJournal(entries, h.tenant, id, amount).value, account);
      PostedAsBuilt(entries, accounts, h, CreditNoteJournal(id, amount).value, account);
    }
  }

  function Billed(amount: real, account: string): int {
    var moved := if RoundMoney(amount) > 0 then RoundMoney(amount) else 0;
    if account == "1100" then moved else if account == "4000" then -moved else 0
  }

  lemma PostedAsBuilt(entries: seq<Entry>, accounts: set<string>, h: Header, lines: seq<Line>, account: string)
    ensures Post(entries, accounts, h, lines).1 == Created ==> Moved(entries, Post(entries, accounts, h, lines).0, h, account) == Net(lines, account)
  {
    if Post(entries, accounts, h, lines).1 == Created { CreatedMoves(entries, accounts, h, lines, account); }
  }

  // ----- when a journal is created -----

  lemma {:induction false} FreshUpTo(entries: seq<Entry>, h: Header, lines: seq<Line>, done: nat)
    requires done <= |lines| && DistinctKeys(lines)
    ensures var n := FreshLines(entries, h, lines, done);
            && (forall k :: done <= k < n ==> !KeyUsed(entries, h.tenant, lines[k].key))
            && (n < |lines| ==> KeyUsed(entries, h.tenant, lines[n].key))
    decreases |lines| - done
  {
    if done < |lines| {
      var now := entries + EntriesOf(h, lines[..done]);
      assert KeyUsed(now, h.tenant, lines[done].key) <==> KeyUsed(entries, h.tenant, lines[done].key) by {
        if KeyUsed(entries, h.tenant, lines[done].key) {
          var i :| 0 <= i < |entries| && entries[i].header.tenant == h.tenant && entries[i].line.key == lines[done].key;
          assert now[i] == entries[i];
        }
        if KeyUsed(now, h.tenant, lines[done].key) {
          var i :| 0 <= i < |now| && now[i].header.tenant == h.tenant && now[i].line.key == lines[done].key;
          assert i < |entries| ==> now[i] == entries[i];
          assert i >= |entries| ==> now[i].line == lines[i - |entries|];
        }
      }
      if !KeyUsed(now, h.tenant, lines[done].key) { FreshUpTo(entries, h, lines, done + 1); }
    }
  }

  /** Lines of distinct keys on known accounts are created exactly if there are two or more, all amounts are
      positive, debits equal credits, and the tenant has none of the keys in use; another tenant's keys
      do not matter. */
  lemma CreatedIff(entries: seq<Entry>, accounts: set<string>, h: Header, lines: seq<Line>)
    requires DistinctKeys(lines)
    requires forall i :: 0 <= i < |lines| ==> lines[i].account in accounts || lines[i].account in {"1100", "4000", "2200", "1000", "1010", "1200"}
    ensures Post(entries, accounts, h, lines).1 == Created
            <==> && |lines| >= 2 && (forall i :: 0 <= i < |lines| ==> lines[i].amount > 0) && Sum(lines, Debit) == Sum(lines, Credit)
                 && forall i, k :: 0 <= i < |entries| && 0 <= k < |lines| && entries[i].header.tenant == h.tenant ==>
                      entries[i].line.key != lines[k].key
  {
    AllKnown(accounts, lines);
    CreatedWhen(entries, accounts, h, lines);
    if |lines| >= 2 && (forall i :: 0 <= i < |lines| ==> lines[i].amount > 0) && Sum(lines, Debit) == Sum(lines, Credit) {
      AllFreshIff(entries, h, lines);
    } else {
      assert Validate(lines).Some?;
    }
  }

  lemma CreatedWhen(entries: seq<Entry>, accounts: set<string>, h: Header, lines: seq<Line>)
    requires forall i :: 0 <= i < |lines| ==> lines[i].account in accounts + DEFAULT_ACCOUNTS
    ensures Post(entries, accounts, h, lines).1 == Created <==> Validate(lines).None? && FreshLines(entries, h, lines, 0) == |lines|
  {
  }

  lemma AllKnown(accounts: set<string>, lines: seq<Line>)
    requires forall i :: 0 <= i < |lines| ==> lines[i].account in accounts || lines[i].account in {"1100", "4000", "2200", "1000", "1010", "1200"}
    ensures forall i :: 0 <= i < |lines| ==> lines[i].account in accounts + DEFAULT_ACCOUNTS
  {
  }

  lemma AllFreshIff(entries: seq<Entry>, h: Header, lines: seq<Line>)
    requires DistinctKeys(lines)
    ensures FreshLines(entries, h, lines, 0) == |lines|
            <==> forall i, k :: 0 <= i < |entries| && 0 <= k < |lines| && entries[i].header.tenant == h.tenant ==>
                   entries[i].line.key != lines[k].key
  {
    var n := FreshLines(entries, h, lines, 0);
    FreshUpTo(entries, h, lines, 0);
    if n < |lines| {
      var i :| 0 <= i < |entries| && entries[i].header.tenant == h.tenant && entries[i].line.key == lines[n].key;
    } else {
      forall i, k | 0 <= i < |entries| && 0 <= k < |lines| && entries[i].header.tenant == h.tenant
        ensures entries[i].line.key != lines[k].key
      {
        assert !KeyUsed(entries, h.tenant, lines[k].key);
      }
    }
  }

  /** A journal of positive, balanced amounts is rejected for an account that is neither the tenant's nor a
      default one exactly if the writing gets that far. */
  lemma MissingAccountIff(entries: seq<Entry>, accounts: set<string>, h: Header, lines: seq<Line>)
    requires DistinctKeys(lines) && Validate(lines).None?
    ensures Post(entries, accounts, h, lines).1 == Rejected(AccountMissing)
            <==> exists i :: 0 <= i < |lines| && lines[i].account !in accounts
                             && lines[i].account !in {"1100", "4000", "2200", "1000", "1010", "1200"}
                             && forall k :: 0 <= k < i ==> !KeyUsed(entries, h.tenant, lines[k].key)
  {
    FreshUpTo(entries, h, lines, 0);
    var n := FreshLines(entries, h, lines, 0);
    if i :| 0 <= i < |lines| && i <= n && lines[i].account !in accounts + DEFAULT_ACCOUNTS {
      assert lines[i].account !in accounts;
    }
    if i :| 0 <= i < |lines| && lines[i].account !in accounts && lines[i].account !in {"1100", "4000", "2200", "1000", "1010", "1200"}
            && forall k :: 0 <= k < i ==> !KeyUsed(entries, h.tenant, lines[k].key) {
      assert i <= n;
      assert lines[i].account !in accounts + DEFAULT_ACCOUNTS;
    }
  }

  // ----- transactions -----

  datatype Request = Request(header: Header, lines: seq<Line>)

  /** A service call as a transaction: the database aborts it at a key already in use. */
  function Commit(entries: seq<Entry>, accounts: set<string>, r: Request): seq<Entry> {
    var (after, outcome) := Post(entries, accounts, r.header, r.lines);
    if outcome == Created then after else entries
  }

  function CommitAll(entries: seq<Entry>, accounts: set<string>, rs: seq<Request>): seq<Entry> {
    if rs == [] then entries
    else Commit(CommitAll(entries, accounts, rs[..|rs| - 1]), accounts, rs[|rs| - 1])
  }

  ghost predicate UniqueKeys(entries: seq<Entry>) {
    forall i, j :: 0 <= i < j < |entries| ==>
      entries[i].header.tenant != entries[j].header.tenant || entries[i].line.key != entries[j].line.key
  }

  lemma {:induction false} FreshLinesAreFresh(entries: seq<Entry>, h: Header, lines: seq<Line>, done: nat)
    requires done <= |lines| && UniqueKeys(entries + EntriesOf(h, lines[..done]))
    ensures UniqueKeys(entries + EntriesOf(h, lines[..FreshLines(entries, h, lines, done)]))
    decreases |lines| - done
  {
    if FreshLines(entries, h, lines, done) != done {
      var now := entries + EntriesOf(h, lines[..done]);
      assert entries + EntriesOf(h, lines[..done + 1]) == now + [Entry(h, lines[done])];
      FreshLinesAreFresh(entries, h, lines, done + 1);
    }
  }

  /** Whatever journals are submitted, in every state the books of every tenant and currency
      balance, no posting key occurs twice, and entries are only ever appended. */
  lemma {:induction false} BooksStayBalanced(entries: seq<Entry>, accounts: set<string>, rs: seq<Request>)
    requires Balanced(entries) && UniqueKeys(entries)
    ensures var after := CommitAll(entries, accounts, rs);
            Balanced(after) && UniqueKeys(after) && entries <= after
  {
    if rs != [] {
      BooksStayBalanced(entries, accounts, rs[..|rs| - 1]);
      var before, r := CommitAll(entries, accounts, rs[..|rs| - 1]), rs[|rs| - 1];
      if Post(before, accounts, r.header, r.lines).1 == Created {
        assert r.lines[..|r.lines|] == r.lines;
        BalancedIff(before, r.header, r.lines);
        assert before + EntriesOf(r.header, r.lines[..0]) == before;
        FreshLinesAreFresh(before, r.header, r.lines, 0);
      }
    }
  }

  /** Were a duplicate only skipped, as the catch clause intends, an unapplied-cash batch that shares
      the payment's own id could leave the books unbalanced: its debit is new, its credit is not. */
  lemma SharedBatchUnbalances(h: Header)
    ensures var settled := Post([], {}, h, SettlementJournal(7, None, 1.0, None, "CASH", false).value);
            var applied := Post(settled.0, {}, h, SettlementJournal(7, None, 1.0, None, "CASH", true).value);
            settled.1 == Created && Balanced(settled.0) && applied.1 == Duplicate && !Balanced(applied.0)
  {
    var first := SettlementJournal(7, None, 1.0, None, "CASH", false).value;
    var second := SettlementJournal(7, None, 1.0, None, "CASH", true).value;
    SettlementAcceptedIff(7, None, 1.0, None, "CASH");
    PairIsWellBuilt(UNAPPLIED, PaymentKey(7, 7, "unapplied"), AR, PaymentKey(7, 7, "ar"), 10000, None, None);
    assert Balanced([]);
    PostKeepsBalanceIff([], {}, h, first);
    TwoFreshLines([], h, first);
    var books := EntriesOf(h, first);
    assert [] + books == books && first[..2] == first;
    assert books[1].line.key == PaymentKey(7, 7, "ar");
    assert books + EntriesOf(h, second[..0]) == books;
    assert books + EntriesOf(h, second[..1]) == books + [Entry(h, second[0])];
    assert KeyUsed(books + [Entry(h, second[0])], h.tenant, second[1].key) by {
      assert (books + [Entry(h, second[0])])[1] == books[1];
    }
    assert FreshLines(books, h, second, 1) == 1;
    PostKeepsBalanceIff(books, {}, h, second);
  }

  lemma TwoFreshLines(entries: seq<Entry>, h: Header, lines: seq<Line>)
    requires |lines| == 2 && !KeyUsed(entries, h.tenant, lines[0].key) && !KeyUsed(entries, h.tenant, lines[1].key)
    requires lines[0].key != lines[1].key
    ensures FreshLines(entries, h, lines, 0) == 2
  {
    assert entries + EntriesOf(h, lines[..0]) == entries;
    assert entries + EntriesOf(h, lines[..1]) == entries + [Entry(h, lines[0])];
    assert FreshLines(entries, h, lines, 1) == FreshLines(entries, h, lines, 2) == 2;
  }
}
