/** The outbox consumer (outbox-consumer.service.ts, tenant-context.ts). */
module Outbox {
  import opened Prelude

  // Any number of pollers interleave; each handles an event in the steps of processEvent and may stop
  // after any of them. An event's tenant, type and payload never change.

  type Id = nat

  datatype Status = Pending | Published | Failed

  /** The tenant fields of an event: the row's tenant id and what the payload claims. */
  datatype Event = Event(tenantId: Option<string>, claimed: Option<string>, status: Status)

  datatype Reason = MissingTenantId | InvalidTenantId | TenantMismatch

  predicate IsHex(c: char) {
    '0' <= c <= '9' || 'a' <= c <= 'f' || 'A' <= c <= 'F'
  }

  /** The pattern of tenant-context.ts: 8-4-4-4-12 hex digits, version 1 to 8, variant 8 to b. */
  predicate IsUuid(s: string) {
    && |s| == 36
    && (forall i :: 0 <= i < 36 ==> if i in {8, 13, 18, 23} then s[i] == '-' else IsHex(s[i]))
    && '1' <= s[14] <= '8'
    && s[19] in {'8', '9', 'a', 'b', 'A', 'B'}
  }

  function ValidateTenant(tenantId: Option<string>, claimed: Option<string>): Option<Reason> {
    match tenantId
    case None => if claimed.Some? then Some(MissingTenantId) else None
    case Some(t) =>
      if !IsUuid(t) then Some(InvalidTenantId)
      else if claimed.Some? && claimed.value != t then Some(TenantMismatch)
      else None
  }

  predicate TenantOk(e: Event) {
    ValidateTenant(e.tenantId, e.claimed).None?
  }

  /** A tenant claimed by a payload is only ever acted on for an event of that very tenant. */
  lemma AcceptedClaimIsTheTenant(tenantId: Option<string>, claimed: Option<string>)
    requires ValidateTenant(tenantId, claimed).None? && claimed.Some?
    ensures tenantId == claimed && IsUuid(claimed.value)
  {
  }

  /** Where a worker is with the event it took from a poll. */
  datatype Phase = Taken | Checked | Dispatched

  datatype Local = Local(event: Id, phase: Phase)

  datatype Db = Db(
    events: seq<Event>,
    processed: seq<Id>,          // processed_messages of this consumer, one row each
    dispatched: seq<Id>,         // successful dispatches, in order
    answeredTrue: seq<Id>,       // events for which some processEvent call returned true
    workers: map<Id, Local>)

  datatype Op =
    | Append(row: Event)
    | Take(worker: Id, event: Id)      // the event is in the page this worker polled
    | CheckTenant(worker: Id)          // tenant check and, if it passes, the processed lookup
    | Dispatch(worker: Id, succeeds: bool)
    | Record(worker: Id, aborts: bool) // the recording transaction
    | Crash(worker: Id)

  function SetStatus(db: Db, event: Id, status: Status): Db
    requires event < |db.events|
  {
    // updateMany where status = PENDING
    if db.events[event].status == Pending then db.(events := db.events[event := db.events[event].(status := status)]) else db
  }

  function Drop(db: Db, worker: Id): Db {
    db.(workers := db.workers - {worker})
  }

  function Step(db: Db, op: Op): Db {
    match op
    case Append(e) => db.(events := db.events + [e.(status := Pending)])
    case Take(w, e) =>
      if w in db.workers || e >= |db.events| then db else db.(workers := db.workers[w := Local(e, Taken)])
    case CheckTenant(w) =>
      if w !in db.workers || db.workers[w].phase != Taken || db.workers[w].event >= |db.events| then db
      else
        var e := db.workers[w].event;
        if !TenantOk(db.events[e]) then Drop(SetStatus(db, e, Failed), w)
        else if e in db.processed then Drop(SetStatus(db, e, Published), w)
        else db.(workers := db.workers[w := Local(e, Checked)])
    case Dispatch(w, succeeds) =>
      if w !in db.workers || db.workers[w].phase != Checked then db
      else
        var e := db.workers[w].event;
        if succeeds then db.(dispatched := db.dispatched + [e], workers := db.workers[w := Local(e, Dispatched)])
        else Drop(db, w)               // the event is only put off
    case Record(w, aborts) =>
      if w !in db.workers || db.workers[w].phase != Dispatched || db.workers[w].event >= |db.events| then db
      else
        var e := db.workers[w].event;
        if e in db.processed then
          // the unique index refuses the row: either the handler's update commits, or the database
          // has aborted the transaction and the event is only put off
          if aborts then Drop(db, w) else Drop(SetStatus(db, e, Published), w)
        else
          Drop(SetStatus(db, e, Published), w).(processed := db.processed + [e], answeredTrue := db.answeredTrue + [e])
    case Crash(w) => Drop(db, w)
  }

  function Run(db: Db, ops: seq<Op>): Db {
    if ops == [] then db else Step(Run(db, ops[..|ops| - 1]), ops[|ops| - 1])
  }

  // ----- the consumer -----

  class Consumer {
    var events: seq<Event>
    var processed: seq<Id>
    ghost var dispatched: seq<Id>
    ghost var answeredTrue: seq<Id>
    ghost const others: map<Id, Local>
    const worker: Id

    ghost function Tables(): Db
      reads this
    {
      Db(events, processed, dispatched, answeredTrue, others)
    }

    constructor (db: Db, worker: Id)
      ensures Tables() == db && this.worker == worker
    {
      events, processed, dispatched, answeredTrue, others := db.events, db.processed, db.dispatched, db.answeredTrue, db.workers;
      this.worker := worker;
    }

    /** `updateMany` on the event while it is pending. */
    method MoveFromPending(e: Id, status: Status)
      requires e < |events|
      modifies this`events
      ensures Tables() == SetStatus(old(Tables()), e, status)
    {
      if events[e].status == Pending {
        events := events[e := events[e].(status := status)];
      }
    }

    /** One event from start to finish without a crash; `true` when this call published it. */
    method ProcessEvent(e: Id, succeeds: bool) returns (published: bool)
      requires worker !in others && e < |events|
      modifies this
      ensures Tables() == Run(old(Tables()), [Take(worker, e), CheckTenant(worker), Dispatch(worker, succeeds), Record(worker, false)])
      ensures published <==> |answeredTrue| == |old(answeredTrue)| + 1
      ensures !published ==> answeredTrue == old(answeredTrue)
      ensures |events| == |old(events)|
    {
      Finished(Tables(), worker, e, succeeds);
      if ValidateTenant(events[e].tenantId, events[e].claimed).Some? {
        MoveFromPending(e, Failed);
        return false;
      }
      if e in processed {
        MoveFromPending(e, Published);
        return false;
      }
      if !succeeds {
        return false;
      }
      dispatched := dispatched + [e];
      processed, answeredTrue := processed + [e], answeredTrue + [e];
      MoveFromPending(e, Published);
      return true;
    }

    /** One poll over the page it read; returns how many events this poll published. */
    method Poll(page: seq<Id>, succeeds: seq<bool>) returns (published: nat)
      requires worker !in others && |succeeds| == |page| && forall i :: 0 <= i < |page| ==> page[i] < |events|
      modifies this
      ensures Tables() == Run(old(Tables()), PollOps(worker, page, succeeds))
      ensures published == |answeredTrue| - |old(answeredTrue)|
    {
      published := 0;
      for i := 0 to |page|
        invariant |events| == |old(events)|
        invariant Tables() == Run(old(Tables()), PollOps(worker, page[..i], succeeds[..i]))
        invariant published == |answeredTrue| - |old(answeredTrue)|
      {
        var didProcess := ProcessEvent(page[i], succeeds[i]);
        if didProcess {
          published := published + 1;
        }
        assert page[..i + 1][..i] == page[..i] && succeeds[..i + 1][..i] == succeeds[..i];
        RunConcat(old(Tables()), PollOps(worker, page[..i], succeeds[..i]), EventOps(worker, page[i], succeeds[i]));
      }
      assert page[..|page|] == page && succeeds[..|page|] == succeeds;
    }
  }

  function EventOps(w: Id, e: Id, succeeds: bool): seq<Op> {
    [Take(w, e), CheckTenant(w), Dispatch(w, succeeds), Record(w, false)]
  }

  /** The steps of one poll: each event of the page handled to the end before the next. */
  function PollOps(w: Id, page: seq<Id>, succeeds: seq<bool>): seq<Op>
    requires |page| == |succeeds|
  {
    if page == [] then []
    else
      var n := |page| - 1;
      PollOps(w, page[..n], succeeds[..n]) + EventOps(w, page[n], succeeds[n])
  }

  lemma {:induction false} RunConcat(db: Db, a: seq<Op>, b: seq<Op>)
    ensures Run(db, a + b) == Run(Run(db, a), b)
  {
    if b == [] {
      assert a + b == a;
    } else {
      RunConcat(db, a, b[..|b| - 1]);
      assert (a + b)[..|a + b| - 1] == a + b[..|b| - 1];
    }
  }

  lemma RunLast(db: Db, ops: seq<Op>, before: seq<Op>, op: Op)
    requires ops != [] && ops[..|ops| - 1] == before && ops[|ops| - 1] == op
    ensures Run(db, ops) == Step(Run(db, before), op)
  {
  }

  lemma RunFour(db: Db, a: Op, b: Op, c: Op, d: Op)
    ensures Run(db, [a, b, c, d]) == Step(Step(Step(Step(db, a), b), c), d)
  {
    RunLast(db, [a], [], a);
    RunLast(db, [a, b], [a], b);
    RunLast(db, [a, b, c], [a, b], c);
    RunLast(db, [a, b, c, d], [a, b, c], d);
  }

  lemma TakenAndDropped(workers: map<Id, Local>, w: Id, a: Local, b: Local, c: Local)
    requires w !in workers
    ensures workers[w := a] - {w} == workers
    ensures workers[w := a][w := b] - {w} == workers
    ensures workers[w := a][w := b][w := c] - {w} == workers
  {
  }

  lemma Finished(db: Db, w: Id, e: Id, succeeds: bool)
    requires w !in db.workers && e < |db.events|
    ensures var after := Run(db, [Take(w, e), CheckTenant(w), Dispatch(w, succeeds), Record(w, false)]);
            after == if !TenantOk(db.events[e]) then SetStatus(db, e, Failed)
                     else if e in db.processed then SetStatus(db, e, Published)
                     else if !succeeds then db
                     else SetStatus(db, e, Published).(dispatched := db.dispatched + [e], processed := db.processed + [e],
                                                       answeredTrue := db.answeredTrue + [e])
  {
    RunFour(db, Take(w, e), CheckTenant(w), Dispatch(w, succeeds), Record(w, false));
    TakenAndDropped(db.workers, w, Local(e, Taken), Local(e, Checked), Local(e, Dispatched));
  }

  /** A new event is PENDING until a worker takes it, and what becomes of it then is told by its tenant and
      by whether it could be dispatched. */
  lemma NewEventIsConsumed(db: Db, e: Event, w: Id, succeeds: bool)
    requires w !in db.workers && |db.events| !in db.processed
    ensures var appended := Step(db, Append(e));
            var n := |db.events|;
            var after := Run(appended, [Take(w, n), CheckTenant(w), Dispatch(w, succeeds), Record(w, false)]);
            && appended == db.(events := db.events + [e.(status := Pending)])
            && |after.events| == n + 1 && after.events[..n] == db.events
            && after.events[n] == e.(status := if !TenantOk(e) then Failed else if succeeds then Published else Pending)
            && (TenantOk(e) && succeeds <==> n in after.processed) && (TenantOk(e) && succeeds ==> n in after.dispatched)
  {
    Finished(Step(db, Append(e)), w, |db.events|, succeeds);
  }

  lemma CutOffAfterDispatch(db: Db, w: Id, e: Id)
    requires w !in db.workers && e < |db.events| && TenantOk(db.events[e]) && e !in db.processed
    ensures Run(db, [Take(w, e), CheckTenant(w), Dispatch(w, true), Crash(w)]) == db.(dispatched := db.dispatched + [e])
  {
    RunFour(db, Take(w, e), CheckTenant(w), Dispatch(w, true), Crash(w));
    TakenAndDropped(db.workers, w, Local(e, Taken), Local(e, Checked), Local(e, Dispatched));
  }

  // ----- safety over all interleavings -----

  ghost predicate NoDuplicates(s: seq<Id>) {
    forall i, j :: 0 <= i < j < |s| ==> s[i] != s[j]
  }

  ghost predicate Inv(db: Db) {
    && (forall w :: w in db.workers ==> db.workers[w].event < |db.events|)
    && (forall w :: w in db.workers && db.workers[w].phase != Taken ==> TenantOk(db.events[db.workers[w].event]))
    && (forall w :: w in db.workers && db.workers[w].phase == Dispatched ==> db.workers[w].event in db.dispatched)
    && NoDuplicates(db.processed)
    && db.answeredTrue == db.processed
    && (forall e :: e in db.processed ==> e < |db.events| && e in db.dispatched && TenantOk(db.events[e]))
    && (forall e :: 0 <= e < |db.events| && db.events[e].status == Published ==> e in db.processed)
    && (forall e :: 0 <= e < |db.events| && db.events[e].status == Failed ==> !TenantOk(db.events[e]))
  }

  lemma DropKeepsInv(db: Db, w: Id)
    requires Inv(db)
    ensures Inv(Drop(db, w))
  {
  }

  lemma AppendKeepsInv(db: Db, e: Event)
    requires Inv(db)
    ensures Inv(Step(db, Append(e)))
  {
    var after := Step(db, Append(e));
    assert forall i :: 0 <= i < |db.events| ==> after.events[i] == db.events[i];
  }

  /** Moving a status is safe when it says what is already true of the event. */
  lemma SetStatusKeepsInv(db: Db, e: Id, status: Status)
    requires Inv(db) && e < |db.events| && status != Pending
    requires status == Published ==> e in db.processed
    requires status == Failed ==> !TenantOk(db.events[e])
    ensures Inv(SetStatus(db, e, status))
  {
    var after := SetStatus(db, e, status);
    assert forall i :: 0 <= i < |db.events| ==> TenantOk(after.events[i]) == TenantOk(db.events[i]);
  }

  lemma ProcessedKeepsInv(db: Db, e: Id)
    requires Inv(db) && e < |db.events| && e in db.dispatched && TenantOk(db.events[e]) && e !in db.processed
    ensures Inv(db.(processed := db.processed + [e], answeredTrue := db.answeredTrue + [e]))
  {
  }

  lemma StepKeepsInv(db: Db, op: Op)
    requires Inv(db)
    ensures Inv(Step(db, op))
  {
    match op {
      case Append(e) => AppendKeepsInv(db, e);
      case CheckTenant(w) =>
        if w in db.workers && db.workers[w].phase == Taken {
          var e := db.workers[w].event;
          if !TenantOk(db.events[e]) {
            SetStatusKeepsInv(db, e, Failed);
            DropKeepsInv(SetStatus(db, e, Failed), w);
          } else if e in db.processed {
            SetStatusKeepsInv(db, e, Published);
            DropKeepsInv(SetStatus(db, e, Published), w);
          }
        }
      case Record(w, aborts) =>
        if w in db.workers && db.workers[w].phase == Dispatched { RecordKeepsInv(db, w, aborts); }
      case _ =>
    }
  }

  lemma RecordKeepsInv(db: Db, w: Id, aborts: bool)
    requires Inv(db) && w in db.workers && db.workers[w].phase == Dispatched
    ensures Inv(Step(db, Record(w, aborts)))
  {
    var e := db.workers[w].event;
    if e in db.processed {
      SetStatusKeepsInv(db, e, Published);
      DropKeepsInv(SetStatus(db, e, Published), w);
      DropKeepsInv(db, w);
    } else {
      var mid := db.(processed := db.processed + [e], answeredTrue := db.answeredTrue + [e]);
      ProcessedKeepsInv(db, e);
      SetStatusKeepsInv(mid, e, Published);
      DropKeepsInv(SetStatus(mid, e, Published), w);
      assert Step(db, Record(w, aborts)) == Drop(SetStatus(mid, e, Published), w);
    }
  }

  /** In every reachable state: a published event was dispatched successfully and has exactly one
      processed row, processEvent answered true for it exactly that once, and an event is failed
      only because of its tenant. */
  lemma {:induction false} RunKeepsInv(db: Db, ops: seq<Op>)
    requires Inv(db)
    ensures Inv(Run(db, ops))
  {
    if ops != [] {
      RunKeepsInv(db, ops[..|ops| - 1]);
      StepKeepsInv(Run(db, ops[..|ops| - 1]), ops[|ops| - 1]);
    }
  }

  /** How often processEvent has answered true for an event. */
  function TrueAnswers(answers: seq<Id>, e: Id): nat {
    if answers == [] then 0 else TrueAnswers(answers[..|answers| - 1], e) + if answers[|answers| - 1] == e then 1 else 0
  }

  lemma {:induction false} CountOfUnique(answers: seq<Id>, e: Id)
    requires NoDuplicates(answers)
    ensures TrueAnswers(answers, e) == if e in answers then 1 else 0
  {
    if answers != [] {
      var before := answers[..|answers| - 1];
      CountOfUnique(before, e);
      assert answers == before + [answers[|answers| - 1]];
    }
  }

  /** What the tables say about an event. */
  ghost predicate EventTrue(db: Db, e: Id)
    requires e < |db.events|
  {
    && TrueAnswers(db.answeredTrue, e) <= 1
    && (db.events[e].status == Published ==>
          TrueAnswers(db.answeredTrue, e) == 1 && TrueAnswers(db.processed, e) == 1 && e in db.dispatched)
    && (db.events[e].status == Failed ==> ValidateTenant(db.events[e].tenantId, db.events[e].claimed).Some?)
  }

  lemma PublishedOnce(db: Db, ops: seq<Op>, e: Id)
    requires Inv(db) && e < |Run(db, ops).events|
    ensures EventTrue(Run(db, ops), e)
  {
    RunKeepsInv(db, ops);
    CountOfUnique(Run(db, ops).answeredTrue, e);
  }

  const EMPTY := Db([], [], [], [], map[])

  /** So it is in every state reached from empty tables. */
  lemma PublishedOnceFromEmpty(ops: seq<Op>)
    ensures Inv(Run(EMPTY, ops))
    ensures forall e: Id :: e < |Run(EMPTY, ops).events| ==> EventTrue(Run(EMPTY, ops), e)
  {
    RunKeepsInv(EMPTY, ops);
    forall e: Id | e < |Run(EMPTY, ops).events| ensures EventTrue(Run(EMPTY, ops), e) {
      PublishedOnce(EMPTY, ops, e);
    }
  }

  ghost predicate ProcessedArePublished(db: Db) {
    forall e :: e in db.processed ==> e < |db.events| && db.events[e].status == Published
  }

  /** In such a state an event is PUBLISHED exactly if its processed row is there, so a recording refused
      by the unique index has nothing left to do, whether the database aborts it or not. */
  lemma {:induction false} PublishedIffProcessed(ops: seq<Op>, e: Id)
    requires e < |Run(EMPTY, ops).events|
    ensures Run(EMPTY, ops).events[e].status == Published <==> e in Run(EMPTY, ops).processed
    ensures forall w: Id :: e in Run(EMPTY, ops).processed && w in Run(EMPTY, ops).workers && Run(EMPTY, ops).workers[w] == Local(e, Dispatched) ==>
              forall aborts: bool :: Step(Run(EMPTY, ops), Record(w, aborts)) == Drop(Run(EMPTY, ops), w)
  {
    RunKeepsInv(EMPTY, ops);
    ProcessedStayPublished(ops);
  }

  lemma {:induction false} ProcessedStayPublished(ops: seq<Op>)
    ensures ProcessedArePublished(Run(EMPTY, ops))
  {
    if ops != [] {
      var before := ops[..|ops| - 1];
      ProcessedStayPublished(before);
      RunKeepsInv(EMPTY, before);
      StepKeepsPublished(Run(EMPTY, before), ops[|ops| - 1]);
    }
  }

  lemma StepKeepsPublished(db: Db, op: Op)
    requires Inv(db) && ProcessedArePublished(db)
    ensures ProcessedArePublished(Step(db, op))
  {
    match op {
      case Record(w, _) =>
        if w in db.workers && db.workers[w].phase == Dispatched {
          var e := db.workers[w].event;
          assert TenantOk(db.events[e]);
        }
      case _ =>
    }
  }

  /** A worker goes from taking an event to checking and to dispatching it, and never back, so that an
      event is dispatched at most once for every time it is taken. */
  lemma PhasesAdvance(db: Db, op: Op, w: Id)
    requires w in db.workers
    ensures var after := Step(db, op);
            w in after.workers && after.workers[w] != db.workers[w] ==>
              && after.workers[w].event == db.workers[w].event
              && (if db.workers[w].phase == Taken then after.workers[w].phase == Checked && after.dispatched == db.dispatched
                  else db.workers[w].phase == Checked && after.workers[w].phase == Dispatched && after.dispatched == db.dispatched + [db.workers[w].event])
    ensures Step(db, op).dispatched != db.dispatched ==>
              op.Dispatch? && op.worker in db.workers && db.workers[op.worker].phase == Checked
              && Step(db, op).workers == db.workers[op.worker := Local(db.workers[op.worker].event, Dispatched)]
  {
  }

  /** A status only ever moves from PENDING, and the rest of an event never changes. */
  lemma {:induction false} StatusMovesOnce(db: Db, ops: seq<Op>, e: Id)
    requires e < |db.events|
    ensures var after := Run(db, ops);
            && e < |after.events|
            && after.events[e].tenantId == db.events[e].tenantId && after.events[e].claimed == db.events[e].claimed
            && (db.events[e].status != Pending ==> after.events[e].status == db.events[e].status)
  {
    if ops != [] {
      StatusMovesOnce(db, ops[..|ops| - 1], e);
    }
  }

  /** Dispatch is at-least-once: a crash between dispatching and recording repeats it. */
  lemma CrashRepeatsDispatch(db: Db, w: Id, e: Id)
    requires w !in db.workers && e < |db.events| && TenantOk(db.events[e]) && e !in db.processed
    ensures var once := Run(db, [Take(w, e), CheckTenant(w), Dispatch(w, true), Crash(w)]);
            var again := Run(once, [Take(w, e), CheckTenant(w), Dispatch(w, true), Record(w, false)]);
            again.dispatched == db.dispatched + [e] + [e] && again.processed == db.processed + [e]
  {
    CutOffAfterDispatch(db, w, e);
    Finished(db.(dispatched := db.dispatched + [e]), w, e, true);
  }

  // ----- what a UUID looks like -----

  predicate HexText(s: string) {
    forall i :: 0 <= i < |s| ==> s[i] in "0123456789abcdefABCDEF"
  }

  lemma HexDigits(c: char)
    ensures IsHex(c) <==> c in "0123456789abcdefABCDEF"
  {
    var all := "0123456789abcdefABCDEF";
    if '0' <= c <= '9' { assert all[c as int - 48] == c; }
    if 'a' <= c <= 'f' { assert all[c as int - 87] == c; }
    if 'A' <= c <= 'F' { assert all[c as int - 49] == c; }
  }

  /** A tenant id is accepted exactly if it is five groups of 8, 4, 4, 4 and 12 hexadecimal digits between
      hyphens, the third beginning with a version from 1 to 8 and the fourth with a variant from 8 to b. */
  lemma UuidIff(s: string)
    ensures IsUuid(s)
            <==> && |s| == 36 && s[8] == '-' && s[13] == '-' && s[18] == '-' && s[23] == '-'
                 && HexText(s[..8]) && HexText(s[9..13]) && HexText(s[14..18]) && HexText(s[19..23]) && HexText(s[24..])
                 && s[14] in "12345678" && s[19] in "89abAB"
  {
    if |s| == 36 {
      forall x: char { HexDigits(x); }
      VersionDigits(s[14]);
      if HexText(s[..8]) && HexText(s[9..13]) && HexText(s[14..18]) && HexText(s[19..23]) && HexText(s[24..]) {
        forall i | 0 <= i < 36 && i !in {8, 13, 18, 23} ensures IsHex(s[i]) {
          assert i < 8 ==> s[i] == s[..8][i];
          assert 8 < i < 13 ==> s[i] == s[9..13][i - 9];
          assert 13 < i < 18 ==> s[i] == s[14..18][i - 14];
          assert 18 < i < 23 ==> s[i] == s[19..23][i - 19];
          assert 23 < i ==> s[i] == s[24..][i - 24];
        }
      }
    }
  }

  lemma VersionDigits(c: char)
    ensures '1' <= c <= '8' <==> c in "12345678"
  {
    if '1' <= c <= '8' { assert "12345678"[c as int - 49] == c; }
  }

  /** An event is let through exactly if it has no tenant and claims none, or its tenant is a UUID and the
      claim, if there is one, is the same. */
  lemma TenantPassesIff(e: Event)
    ensures TenantOk(e)
            <==> (e.tenantId.None? && e.claimed.None?)
                 || (e.tenantId.Some? && IsUuid(e.tenantId.value) && (e.claimed.Some? ==> e.claimed.value == e.tenantId.value))
    ensures ValidateTenant(e.tenantId, e.claimed) == Some(MissingTenantId) <==> e.tenantId.None? && e.claimed.Some?
    ensures ValidateTenant(e.tenantId, e.claimed) == Some(InvalidTenantId) <==> e.tenantId.Some? && !IsUuid(e.tenantId.value)
    ensures ValidateTenant(e.tenantId, e.claimed).None? <==> TenantOk(e)
  {
  }
}
