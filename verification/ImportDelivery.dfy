/** The delivery of a claimed import, from the event to the inventory. */
module ImportDelivery {
  import opened Prelude
  import O = Outbox
  import opened InventoryRules
  import opened InventoryImport

  // The outbox consumer (outbox-consumer.service.ts) and the import handler (inventory-import.handler.ts)
  // on one set of tables. Dispatching the event of the import runs the handler, which may be cut off or
  // fail after any write: if it fails the event is put off, if the process stops the poller is gone
  // with it. Any number of pollers interleave; handlers of this job run one after another on the
  // same rows.

  datatype System = System(db: O.Db, world: World)

  datatype Op =
    | Queue(op: O.Op)
    | Handle(worker: O.Id, steps: nat, throws: bool)

  /** The import an event stands for. */
  datatype Import = Import(event: O.Id, rows: seq<RowDto>, active: set<string>)

  predicate AtHand(s: System, im: Import, worker: O.Id) {
    worker in s.db.workers && s.db.workers[worker] == O.Local(im.event, O.Checked)
  }

  /** The handler comes to its end and does not throw. */
  predicate Succeeds(w: World, im: Import, steps: nat) {
    Finished(w.job) || Completes(Attempt(steps, false), im.rows, im.active)
  }

  function Step(s: System, im: Import, op: Op): System {
    match op
    case Queue(q) => if q.Dispatch? && AtHand(s, im, q.worker) then s else s.(db := O.Step(s.db, q))
    case Handle(w, steps, throws) =>
      if !AtHand(s, im, w) then s
      else
        var ok := Succeeds(s.world, im, steps);
        System(O.Step(s.db, if ok || throws then O.Dispatch(w, ok) else O.Crash(w)),
               Deliver(s.world, im.rows, im.active, steps, throws))
  }

  function Run(s: System, im: Import, ops: seq<Op>): System {
    if ops == [] then s else Step(Run(s, im, ops[..|ops| - 1]), im, ops[|ops| - 1])
  }

  function Imported(start: World, im: Import): Inventory {
    ApplyAll(start.inv, Writes(im.rows, im.active))
  }

  ghost predicate Inv(start: World, im: Import, s: System) {
    && O.Inv(s.db) && im.event < |s.db.events|
    && OnTheWay(start, s.world, Writes(im.rows, im.active))
    && (im.event in s.db.dispatched ==> s.world.inv == Imported(start, im) && (Finished(s.world.job) || im.rows == []))
    && (!O.TenantOk(s.db.events[im.event]) ==> s.world == start)
  }

  lemma EventStays(db: O.Db, op: O.Op, e: O.Id)
    requires e < |db.events|
    ensures e < |O.Step(db, op).events| && O.TenantOk(O.Step(db, op).events[e]) == O.TenantOk(db.events[e])
  {
  }

  lemma DispatchedOnlyByDispatch(db: O.Db, op: O.Op, e: O.Id)
    requires e in O.Step(db, op).dispatched && e !in db.dispatched
    ensures op.Dispatch? && op.worker in db.workers && db.workers[op.worker] == O.Local(e, O.Checked)
  {
  }

  lemma NothingToWrite(active: set<string>)
    ensures Writes([], active) == []
  {
  }

  lemma StepKeepsInv(start: World, im: Import, s: System, op: Op)
    requires Inv(start, im, s)
    ensures Inv(start, im, Step(s, im, op))
  {
    match op
    case Queue(q) =>
      if !(q.Dispatch? && AtHand(s, im, q.worker)) {
        O.StepKeepsInv(s.db, q);
        EventStays(s.db, q, im.event);
        if im.event in O.Step(s.db, q).dispatched && im.event !in s.db.dispatched {
          DispatchedOnlyByDispatch(s.db, q, im.event);
        }
      }
    case Handle(w, steps, throws) =>
      if AtHand(s, im, w) { HandleKeepsInv(start, im, s, w, steps, throws); }
  }

  /** What one delivery does to the inventory and the job. */
  lemma Handled(start: World, im: Import, w: World, steps: nat, throws: bool)
    requires OnTheWay(start, w, Writes(im.rows, im.active))
    ensures var after := Deliver(w, im.rows, im.active, steps, throws);
            && OnTheWay(start, after, Writes(im.rows, im.active))
            && (Succeeds(w, im, steps) ==> after.inv == Imported(start, im) && (Finished(after.job) || im.rows == []))
            && (Finished(w.job) || im.rows == [] ==> after.inv == w.inv && (Finished(after.job) || im.rows == []))
  {
    DeliveryStaysOnTheWay(start, w, im.rows, im.active, Attempt(steps, throws));
    NothingToWrite(im.active);
  }

  lemma HandleKeepsInv(start: World, im: Import, s: System, w: O.Id, steps: nat, throws: bool)
    requires Inv(start, im, s) && AtHand(s, im, w)
    ensures Inv(start, im, Step(s, im, Handle(w, steps, throws)))
  {
    var ok := Succeeds(s.world, im, steps);
    var q := if ok || throws then O.Dispatch(w, ok) else O.Crash(w);
    O.StepKeepsInv(s.db, q);
    EventStays(s.db, q, im.event);
    Handled(start, im, s.world, steps, throws);
    assert im.event in O.Step(s.db, q).dispatched ==> ok || im.event in s.db.dispatched;
  }

  lemma {:induction false} RunKeepsInv(start: World, im: Import, s: System, ops: seq<Op>)
    requires Inv(start, im, s)
    ensures Inv(start, im, Run(s, im, ops))
  {
    if ops != [] {
      RunKeepsInv(start, im, s, ops[..|ops| - 1]);
      StepKeepsInv(start, im, Run(s, im, ops[..|ops| - 1]), ops[|ops| - 1]);
    }
  }

  /** The tables when the event has been appended and nothing has been done about it. */
  ghost predicate Fresh(s: System, im: Import) {
    && O.Inv(s.db) && im.event < |s.db.events| && !Finished(s.world.job)
    && im.event !in s.db.dispatched
  }

  /** Over every interleaving of pollers, crashes and cut-off handlers: once the event is PUBLISHED the
      inventory is that of one uninterrupted run, and it stays so; until then one complete delivery is
      enough; and an event whose tenant does not check out never touches the inventory. */
  lemma PublishedMeansImported(start: System, im: Import, ops: seq<Op>)
    requires Fresh(start, im)
    ensures var s := Run(start, im, ops);
            && im.event < |s.db.events|
            && (s.db.events[im.event].status == O.Published ==> s.world.inv == Imported(start.world, im))
            && (Finished(s.world.job) ==> s.world.inv == Imported(start.world, im))
            && Imported(s.world, im) == Imported(start.world, im)
            && (!O.TenantOk(s.db.events[im.event]) ==> s.world == start.world)
  {
    RunKeepsInv(start.world, im, start, ops);
  }

  lemma RunLast(s: System, im: Import, ops: seq<Op>, before: seq<Op>, op: Op)
    requires ops != [] && ops[..|ops| - 1] == before && ops[|ops| - 1] == op
    ensures Run(s, im, ops) == Step(Run(s, im, before), im, op)
  {
  }

  lemma RunFour(s: System, im: Import, a: Op, b: Op, c: Op, d: Op)
    ensures Run(s, im, [a, b, c, d]) == Step(Step(Step(Step(s, im, a), im, b), im, c), im, d)
  {
    RunLast(s, im, [a], [], a);
    RunLast(s, im, [a, b], [a], b);
    RunLast(s, im, [a, b, c], [a, b], c);
    RunLast(s, im, [a, b, c, d], [a, b, c], d);
  }

  /** The event counts as dispatched exactly if the job is COMPLETED or PARTIALLY_COMPLETED already, and then
      the inventory is not touched again, or its handler gets through all the writes. Otherwise the poller
      lets the event go. */
  lemma DispatchedIff(s: System, im: Import, w: O.Id, steps: nat, throws: bool, n: nat)
    requires AtHand(s, im, w) && n == |Writes(im.rows, im.active)|
    ensures var after := Step(s, im, Handle(w, steps, throws));
            var done := s.world.job.status == Completed || s.world.job.status == PartiallyCompleted;
            && after.db.dispatched == s.db.dispatched + (if done || steps > n then [im.event] else [])
            && (w in after.db.workers <==> done || steps > n)
            && after.db.events == s.db.events && after.db.processed == s.db.processed
            && (done ==> after.world == s.world)
  {
    var done := s.world.job.status == Completed || s.world.job.status == PartiallyCompleted;
    assert Finished(s.world.job) <==> done;
    assert Succeeds(s.world, im, steps) <==> done || steps > n;
    LeavesTheHandler(s.db, w, im.event);
    if done {
      assert Deliver(s.world, im.rows, im.active, steps, throws) == s.world;
    }
  }

  lemma LeavesTheHandler(db: O.Db, w: O.Id, e: O.Id)
    requires w in db.workers && db.workers[w] == O.Local(e, O.Checked)
    ensures O.Step(db, O.Crash(w)) == O.Step(db, O.Dispatch(w, false)) == db.(workers := db.workers - {w})
    ensures O.Step(db, O.Dispatch(w, true)) == db.(dispatched := db.dispatched + [e], workers := db.workers[w := O.Local(e, O.Dispatched)])
  {
  }

  /** One poller handling the event to the end. */
  function FullDelivery(im: Import, w: O.Id, steps: nat): seq<Op> {
    [Queue(O.Take(w, im.event)), Queue(O.CheckTenant(w)), Handle(w, steps, false), Queue(O.Record(w, false))]
  }

  lemma FullDeliverySteps(s: System, im: Import, w: O.Id, steps: nat)
    requires w !in s.db.workers && im.event < |s.db.events| && O.TenantOk(s.db.events[im.event]) && im.event !in s.db.processed
    requires Completes(Attempt(steps, false), im.rows, im.active)
    ensures Run(s, im, FullDelivery(im, w, steps))
         == System(O.Run(s.db, O.EventOps(w, im.event, true)), Deliver(s.world, im.rows, im.active, steps, false))
  {
    var a, b, c, d := Queue(O.Take(w, im.event)), Queue(O.CheckTenant(w)), Handle(w, steps, false), Queue(O.Record(w, false));
    RunFour(s, im, a, b, c, d);
    O.RunFour(s.db, a.op, b.op, O.Dispatch(w, true), d.op);
  }

  /** And it can always still come to that: whatever was cut off before, one poller that gets through
      publishes the event and completes the import. */
  lemma OneDeliverySuffices(start: System, im: Import, ops: seq<Op>, w: O.Id, steps: nat)
    requires Fresh(start, im)
    requires var s := Run(start, im, ops);
             w !in s.db.workers && im.event < |s.db.events| && O.TenantOk(s.db.events[im.event]) && im.event !in s.db.processed
    requires Completes(Attempt(steps, false), im.rows, im.active)
    ensures var after := Run(Run(start, im, ops), im, FullDelivery(im, w, steps));
            && im.event < |after.db.events| && after.db.events[im.event].status == O.Published
            && after.world.inv == Imported(start.world, im)
            && (im.rows != [] ==> Finished(after.world.job))
  {
    var s := Run(start, im, ops);
    RunKeepsInv(start.world, im, start, ops);
    FullDeliverySteps(s, im, w, steps);
    O.Finished(s.db, w, im.event, true);
    DeliveryStaysOnTheWay(start.world, s.world, im.rows, im.active, Attempt(steps, false));
  }
}
