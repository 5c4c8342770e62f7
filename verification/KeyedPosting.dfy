/** Posting, voiding and crediting under an idempotency key. */
module KeyedPosting {
  import opened Prelude
  import opened Ledger
  import opened Invoices
  import I = Idempotency

  // These transactions (invoice.service.ts, credit-note.service.ts) make their changes first and look
  // at the key last, so two calls with one key that both looked before either committed are told
  // apart by the invoice tables alone.

  type Sys = I.Sys<Books, Reply>

  function Answer(result: (Books, Reply)): Option<(Books, Reply)> {
    if result.1 == Changed || result.1 == Unchanged then Some(result) else None
  }

  /** The transaction of a call that has done its read. */
  function FinishEffect(call: Id): I.Effect<Books, Reply> {
    (r: I.Request, b: Books) => Answer(Finish(b, call))
  }

  /** The transaction of a void, whose request carries the version it expects. */
  function VoidEffect(id: Id, expected: I.Request -> nat): I.Effect<Books, Reply> {
    (r: I.Request, b: Books) => Answer(VoidInvoice(b, id, expected(r)))
  }

  /** The same request twice under one key. */
  predicate SameKey(r: I.Request, again: I.Request) {
    again.k == r.k && again.hash == r.hash
  }

  function Both(sys: Sys, r: I.Request, first: I.Effect<Books, Reply>, again: I.Request, second: I.Effect<Books, Reply>): (Sys, I.Reply<Reply>) {
    I.EffectsFirst(I.EffectsFirst(sys, r, first).0, again, second)
  }

  /** Two posts of a draft under one key, both past their look-up and their read, both take effect
      exactly when the total is 0; otherwise the posting key stops the second, which leaves no trace. */
  lemma RacingPostsBothCountIff(b: Books, rows: I.Rows<Reply>, r: I.Request, again: I.Request, id: Id, v: nat, c: Id, d: Id)
    requires Inv(b) && id < |b.invoices| && b.invoices[id].status == DRAFT && b.invoices[id].version == v && b.invoices[id].lines != []
    requires c != d && c !in b.calls && d !in b.calls && r.k !in rows && SameKey(r, again)
    ensures var ready := Step(Step(b, PostInvoiceOp(c, id, v)).0, PostInvoiceOp(d, id, v)).0;
            var sys := I.Sys(ready, rows, []);
            var one, two := I.EffectsFirst(sys, r, FinishEffect(c)).0, Both(sys, r, FinishEffect(c), again, FinishEffect(d));
            && one.applied == [r] && one.state.invoices[id].status == POSTED
            && (two.0.applied == [r, again] <==> TotalOf(b.invoices[id].lines) == 0)
            && (TotalOf(b.invoices[id].lines) != 0 ==> two == (one, I.Thrown))
  {
    TwoPostReads(b, id, v, c, d);
    FirstPost(Step(Step(b, PostInvoiceOp(c, id, v)).0, PostInvoiceOp(d, id, v)).0, id, c, d);
  }

  lemma TwoPostReads(b: Books, id: Id, v: nat, c: Id, d: Id)
    requires Inv(b) && id < |b.invoices| && b.invoices[id].status == DRAFT && b.invoices[id].version == v && b.invoices[id].lines != []
    requires c != d && c !in b.calls && d !in b.calls
    ensures var ready := Step(Step(b, PostInvoiceOp(c, id, v)).0, PostInvoiceOp(d, id, v)).0;
            && Inv(ready) && ready.invoices == b.invoices
            && c in ready.calls && d in ready.calls && ready.calls[c] == ready.calls[d] == PostingInvoice(id, b.invoices[id])
  {
    StepKeepsInv(b, PostInvoiceOp(c, id, v));
    StepKeepsInv(Step(b, PostInvoiceOp(c, id, v)).0, PostInvoiceOp(d, id, v));
  }

  lemma FirstPost(ready: Books, id: Id, c: Id, d: Id)
    requires Inv(ready) && id < |ready.invoices| && ready.invoices[id].status == DRAFT && c != d
    requires c in ready.calls && d in ready.calls && ready.calls[c] == ready.calls[d] == PostingInvoice(id, ready.invoices[id])
    ensures var (posted, reply) := Finish(ready, c);
            && reply == Changed && id < |posted.invoices| && posted.invoices[id].status == POSTED
            && Finish(posted, d).1 != Unchanged
            && (Finish(posted, d).1 == Changed <==> TotalOf(ready.invoices[id].lines) == 0)
  {
    FinishKeepsInv(ready, c);
    FewerCallsKeepInv(ready, ready.calls - {c});
    PostingDraftSucceeds(ready.(calls := ready.calls - {c}), id);
    var posted := Finish(ready, c).0;
    StalePostGoesThroughIff(posted, d);
    StalePostAnswers(posted, d);
  }

  /** A post that has done its read changes the invoice or is refused. */
  lemma StalePostAnswers(b: Books, call: Id)
    requires call in b.calls && b.calls[call].PostingInvoice?
    ensures Finish(b, call).1 != Unchanged
  {
  }

  /** Two posts of a credit note under one key, both past their reads: the second leaves no trace. */
  lemma RacingNotesCountOnce(b: Books, rows: I.Rows<Reply>, r: I.Request, again: I.Request, note: Id, v: nat, c: Id, d: Id)
    requires Inv(b) && note < |b.notes| && b.notes[note].status == NoteDraft && b.notes[note].version == v
    requires c != d && c !in b.calls && d !in b.calls && r.k !in rows && SameKey(r, again)
    ensures var ready := Step(Step(b, PostNoteOp(c, note, v)).0, PostNoteOp(d, note, v)).0;
            var sys := I.Sys(ready, rows, []);
            var one := I.EffectsFirst(sys, r, FinishEffect(c)).0;
            one.applied == [r] ==> Both(sys, r, FinishEffect(c), again, FinishEffect(d)) == (one, I.Thrown)
  {
    TwoNoteReads(b, note, v, c, d);
    FirstNote(Step(Step(b, PostNoteOp(c, note, v)).0, PostNoteOp(d, note, v)).0, note, c, d);
  }

  lemma TwoNoteReads(b: Books, note: Id, v: nat, c: Id, d: Id)
    requires Inv(b) && note < |b.notes| && b.notes[note].version == v
    requires c != d && c !in b.calls && d !in b.calls
    ensures var ready := Step(Step(b, PostNoteOp(c, note, v)).0, PostNoteOp(d, note, v)).0;
            && Inv(ready) && ready.notes == b.notes
            && c in ready.calls && d in ready.calls && ready.calls[c] == ready.calls[d] == PostingNote(note, b.notes[note])
  {
    StepKeepsInv(b, PostNoteOp(c, note, v));
    StepKeepsInv(Step(b, PostNoteOp(c, note, v)).0, PostNoteOp(d, note, v));
  }

  lemma FirstNote(ready: Books, note: Id, c: Id, d: Id)
    requires Inv(ready) && note < |ready.notes| && ready.notes[note].status == NoteDraft && c != d
    requires c in ready.calls && d in ready.calls && ready.calls[c] == ready.calls[d] == PostingNote(note, ready.notes[note])
    ensures Finish(ready, c).1 != Unchanged
    ensures Finish(ready, c).1 == Changed ==> Answer(Finish(Finish(ready, c).0, d)) == None
  {
    var posted := Finish(ready, c).0;
    assert NoteOk(ready, note);
    if Finish(ready, c).1 == Changed {
      FinishKeepsInv(ready, c);
      assert posted.notes[note].status == NotePosted && posted.calls[d] == PostingNote(note, ready.notes[note]);
      NoteCountsOnce(posted, d);
    }
  }

  function VersionOf(b: Books, id: Id): nat {
    if id < |b.invoices| then b.invoices[id].version else 0
  }

  /** Voiding is pinned: it reads the version after its lock. */
  lemma VoidIsPinned(id: Id, expected: I.Request -> nat)
    ensures I.Pinned(VoidEffect(id, expected), (b: Books) => VersionOf(b, id), (r: I.Request) => expected(r))
  {
    forall r: I.Request, b: Books | VoidEffect(id, expected)(r, b).Some?
      ensures var after := VoidEffect(id, expected)(r, b).value.0;
              after == b || (VersionOf(b, id) == expected(r) && VersionOf(after, id) == VersionOf(b, id) + 1)
    {
    }
  }

  /** So of any requests to void an invoice, with whatever keys, all past their look-ups, no two that
      expect the same version both change anything. */
  lemma RacingVoidsCountOnce(sys: Sys, rs: seq<I.Request>, id: Id, expected: I.Request -> nat, i: nat, j: nat)
    requires i < j < |rs| && expected(rs[i]) == expected(rs[j])
    ensures !(I.Changes(sys, rs, VoidEffect(id, expected), i) && I.Changes(sys, rs, VoidEffect(id, expected), j))
  {
    VoidIsPinned(id, expected);
    if I.Changes(sys, rs, VoidEffect(id, expected), i) && I.Changes(sys, rs, VoidEffect(id, expected), j) {
      I.PinnedEffectsOnce(sys, rs, VoidEffect(id, expected), (b: Books) => VersionOf(b, id), (r: I.Request) => expected(r), i, j);
    }
  }
}
