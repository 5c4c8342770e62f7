/** The text of posting keys and charge keys (billing.rules.ts, ledger.service.ts). The other modules
    compare keys as structured values; here is why comparing their text is the same. Ids have some
    text without a colon, as UUIDs do. */
module KeyText {
  import opened Decimal
  import opened Ledger
  import opened Invoices

  type Names = Id -> string

  /** Different ids have different texts, and no text has a colon. */
  ghost predicate GoodNames(name: Names) {
    && (forall i :: ':' !in name(i))
    && (forall i, j :: name(i) == name(j) ==> i == j)
  }

  function Three(a: string, b: string, c: string): string {
    a + [':'] + (b + [':'] + c)
  }

  function PostingText(name: Names, k: PostingKey): string {
    match k
    case InvoiceKey(id, part) => Three("invoice", name(id), part)
    case InvoiceVoidKey(id, part) => Three("invoice", name(id), "void" + [':'] + part)
    case CreditNoteKey(id, part) => Three("credit_note", name(id), part)
    case PaymentKey(id, batch, part) => Three("payment", name(id), name(batch) + [':'] + part)
    case PaymentReversalKey(id, part) => Three("payment_reversal", name(id), part)
    case RefundKey(id, part) => Three("refund", name(id), part)
    case DepositDispositionKey(id, part) => Three("deposit_disposition", name(id), part)
  }

  function ChargeText(name: Names, k: ChargeKey): string {
    match k
    case Rent(lease, period) => Three("rent", name(lease), period)
    case Utility(lease, period, meter) => Three("utility", name(lease), period + [':'] + meter)
    case OtherCharge(text) => text
  }

  lemma SplitThree(a: string, b: string, c: string, x: string, y: string, z: string)
    requires ':' !in a && ':' !in b && ':' !in x && ':' !in y
    ensures Three(a, b, c) == Three(x, y, z) <==> a == x && b == y && c == z
  {
    if Three(a, b, c) == Three(x, y, z) {
      SplitAtSeparator(a, b + [':'] + c, x, y + [':'] + z, ':');
      SplitAtSeparator(b, c, y, z, ':');
    }
  }

  lemma SplitTwo(a: string, b: string, x: string, y: string)
    requires ':' !in a && ':' !in x
    ensures a + [':'] + b == x + [':'] + y <==> a == x && b == y
  {
    if a + [':'] + b == x + [':'] + y { SplitAtSeparator(a, b, x, y, ':'); }
  }

  function Kind(k: PostingKey): string {
    match k
    case InvoiceKey(_, _) => "invoice"
    case InvoiceVoidKey(_, _) => "invoice"
    case CreditNoteKey(_, _) => "credit_note"
    case PaymentKey(_, _, _) => "payment"
    case PaymentReversalKey(_, _) => "payment_reversal"
    case RefundKey(_, _) => "refund"
    case DepositDispositionKey(_, _) => "deposit_disposition"
  }

  function Rest(name: Names, k: PostingKey): string {
    match k
    case InvoiceVoidKey(_, part) => "void" + [':'] + part
    case PaymentKey(_, batch, part) => name(batch) + [':'] + part
    case _ => k.part
  }

  lemma KindsHaveNoColon(k: PostingKey)
    ensures ':' !in Kind(k)
  {
  }

  /** Two posting keys have one text only if they are the same key: no journal's keys collide with
      those of another journal, and an invoice's with those of its void. */
  lemma PostingTextIsInjective(name: Names, k: PostingKey, m: PostingKey)
    requires GoodNames(name) && ':' !in k.part && ':' !in m.part
    ensures PostingText(name, k) == PostingText(name, m) <==> k == m
  {
    KindsHaveNoColon(k);
    KindsHaveNoColon(m);
    SplitThree(Kind(k), name(k.id), Rest(name, k), Kind(m), name(m.id), Rest(name, m));
    if PostingText(name, k) == PostingText(name, m) { RestDecides(name, k, m); }
  }

  lemma RestDecides(name: Names, k: PostingKey, m: PostingKey)
    requires GoodNames(name) && ':' !in k.part && ':' !in m.part
    requires Kind(k) == Kind(m) && k.id == m.id && Rest(name, k) == Rest(name, m)
    ensures k == m
  {
    if Kind(k) == "invoice" {
      ColonTellsVoid(name, k);
      ColonTellsVoid(name, m);
    }
    if k.PaymentKey? {
      SplitTwo(name(k.batch), k.part, name(m.batch), m.part);
    } else if k.InvoiceVoidKey? {
      SplitTwo("void", k.part, "void", m.part);
    }
  }

  lemma ColonTellsVoid(name: Names, k: PostingKey)
    requires ':' !in k.part && Kind(k) == "invoice"
    ensures ':' in Rest(name, k) <==> k.InvoiceVoidKey?
  {
    if k.InvoiceVoidKey? {
      assert Rest(name, k)[4] == ':';
    }
  }

  /** The same for rent and utility charges, whose period keys have no colon. */
  lemma ChargeTextIsInjective(name: Names, k: ChargeKey, m: ChargeKey)
    requires GoodNames(name) && !k.OtherCharge? && !m.OtherCharge? && ':' !in k.period && ':' !in m.period
    ensures ChargeText(name, k) == ChargeText(name, m) <==> k == m
  {
    var a, b := if k.Rent? then "rent" else "utility", if m.Rent? then "rent" else "utility";
    var c, d := if k.Rent? then k.period else k.period + [':'] + k.meter, if m.Rent? then m.period else m.period + [':'] + m.meter;
    SplitThree(a, name(k.lease), c, b, name(m.lease), d);
    assert "rent" != "utility";
    if k.Utility? && m.Utility? { SplitTwo(k.period, k.meter, m.period, m.meter); }
  }
}
