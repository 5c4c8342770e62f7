/** The worker of inventory imports (inventory-import.handler.ts). */
module InventoryImport {
  import opened Prelude
  import opened InventoryRules
  import opened InventoryExport

  // It applies an accepted import to the inventory. Natural keys stand for row ids: the partial unique
  // indexes allow one active row per key. The inventory is one store from tagged natural keys to rows,
  // each with a version.

  datatype UnitFields = UnitFields(
    name: string, unitType: string, allocationMode: string, capacity: int, building: Option<string>)

  datatype Key =
    | PropertyKey(property: string)
    | BuildingKey(property: string, building: string)
    | UnitKey(property: string, unit: string)
    | BedKey(property: string, unit: string, bed: string)
    | PropertyAmenity(property: string, amenity: string)
    | UnitAmenity(property: string, unit: string, amenity: string)

  datatype Value = PropertyValue(p: Property) | UnitValue(u: UnitFields) | BedValue(text: string) | Present

  datatype Row = Row(value: Value, version: nat)

  /** The inventory without row versions. */
  type Inventory = map<Key, Value>

  datatype Write = Write(key: Key, value: Value)

  function Apply(inv: Inventory, w: Write): Inventory {
    inv[w.key := w.value]
  }

  function ApplyAll(inv: Inventory, ws: seq<Write>): Inventory {
    if ws == [] then inv else Apply(ApplyAll(inv, ws[..|ws| - 1]), ws[|ws| - 1])
  }

  // ----- the writes of a run -----

  /** What the three caches of one run hold. */
  datatype Caches = Caches(properties: set<string>, buildings: set<(string, string)>, units: set<(string, string)>)

  const NO_CACHES := Caches({}, {}, {})

  function PropertyOf(d: RowDto): Property {
    Property(d.propertyCode, d.propertyName, d.propertyType, d.addressLine1, d.city, d.region,
             d.postalCode, d.countryCode, d.timeZone, d.defaultCurrency)
  }

  /** `if (dto.buildingCode)`: null and the empty text both mean no building. */
  function BuildingOf(d: RowDto): Option<string> {
    if d.buildingCode.Some? && d.buildingCode.value != "" then d.buildingCode else None
  }

  function UnitOf(d: RowDto): UnitFields {
    UnitFields(d.unitName, d.unitType, d.allocationMode, d.capacity, BuildingOf(d))
  }

  function PropertyWrite(d: RowDto): Write {
    Write(PropertyKey(d.propertyCode), PropertyValue(PropertyOf(d)))
  }

  function UnitWrite(d: RowDto): Write {
    Write(UnitKey(d.propertyCode, d.unitCode), UnitValue(UnitOf(d)))
  }

  predicate HasBed(d: RowDto) {
    d.allocationMode == "BED" && d.bedCode.Some? && d.bedCode.value != "" && d.bedLabel.Some? && d.bedLabel.value != ""
  }

  /** The active amenities among the codes, each once. */
  function FindAmenities(active: set<string>, codes: seq<string>): seq<string> {
    if codes == [] then []
    else
      var c := codes[|codes| - 1];
      var before := codes[..|codes| - 1];
      FindAmenities(active, before) + if c in active && c !in before then [c] else []
  }

  function LinkWrites(d: RowDto, amenities: seq<string>): seq<Write> {
    if amenities == [] then []
    else
      var a := amenities[|amenities| - 1];
      LinkWrites(d, amenities[..|amenities| - 1])
      + [Write(PropertyAmenity(d.propertyCode, a), Present), Write(UnitAmenity(d.propertyCode, d.unitCode, a), Present)]
  }

  function PropertyPart(d: RowDto, caches: Caches): seq<Write> {
    if d.propertyCode in caches.properties then [] else [PropertyWrite(d)]
  }

  function BuildingPart(d: RowDto, caches: Caches): seq<Write> {
    if BuildingOf(d).None? || (d.propertyCode, BuildingOf(d).value) in caches.buildings then []
    else [Write(BuildingKey(d.propertyCode, BuildingOf(d).value), Present)]
  }

  function UnitPart(d: RowDto, caches: Caches): seq<Write> {
    if (d.propertyCode, d.unitCode) in caches.units then [] else [UnitWrite(d)]
  }

  function BedPart(d: RowDto): seq<Write> {
    if HasBed(d) then [Write(BedKey(d.propertyCode, d.unitCode, d.bedCode.value), BedValue(d.bedLabel.value))] else []
  }

  function LinkPart(d: RowDto, active: set<string>): seq<Write> {
    LinkWrites(d, FindAmenities(active, d.amenityCodes))
  }

  function RowWrites(d: RowDto, caches: Caches, active: set<string>): seq<Write> {
    PropertyPart(d, caches) + BuildingPart(d, caches) + UnitPart(d, caches) + BedPart(d) + LinkPart(d, active)
  }

  lemma RowWritesInOrder(d: RowDto, caches: Caches, active: set<string>, before: seq<Write>)
    ensures before + RowWrites(d, caches, active)
         == before + PropertyPart(d, caches) + BuildingPart(d, caches) + UnitPart(d, caches) + BedPart(d) + LinkPart(d, active)
  {
    InOrder(before, PropertyPart(d, caches), BuildingPart(d, caches), UnitPart(d, caches), BedPart(d), LinkPart(d, active));
  }

  lemma InOrder<T>(a: seq<T>, p: seq<T>, b: seq<T>, u: seq<T>, e: seq<T>, l: seq<T>)
    ensures a + (p + b + u + e + l) == a + p + b + u + e + l
  {
    Associative(a, p + b + u + e, l);
    Associative(a, p + b + u, e);
    Associative(a, p + b, u);
    Associative(a, p, b);
  }

  lemma Associative<T>(a: seq<T>, b: seq<T>, c: seq<T>)
    ensures a + (b + c) == a + b + c
  {
  }

  function Remember(caches: Caches, d: RowDto): Caches {
    Caches(caches.properties + {d.propertyCode},
           caches.buildings + (if BuildingOf(d).Some? then {(d.propertyCode, BuildingOf(d).value)} else {}),
           caches.units + {(d.propertyCode, d.unitCode)})
  }

  function CachesAfter(rows: seq<RowDto>): Caches {
    if rows == [] then NO_CACHES else Remember(CachesAfter(rows[..|rows| - 1]), rows[|rows| - 1])
  }

  /** Everything one uninterrupted run writes, in order. */
  function Writes(rows: seq<RowDto>, active: set<string>): seq<Write> {
    if rows == [] then []
    else
      var before := rows[..|rows| - 1];
      Writes(before, active) + RowWrites(rows[|rows| - 1], CachesAfter(before), active)
  }

  // ----- the worker -----

  datatype JobStatus = Queued | Processing | Completed | PartiallyCompleted | Failed

  datatype Counts = Counts(total: nat, accepted: nat, rejected: nat, skipped: nat, applied: nat)

  datatype Job = Job(status: JobStatus, counts: Counts)

  function FinalStatus(counts: Counts, applied: nat): JobStatus {
    if counts.accepted > 0 && applied == 0 then Failed
    else if counts.rejected > 0 || counts.skipped > 0 then PartiallyCompleted
    else Completed
  }

  predicate Finished(job: Job) {
    job.status == Completed || job.status == PartiallyCompleted
  }

  function Min(a: nat, b: nat): nat {
    if a < b then a else b
  }

  function View(store: map<Key, Row>): Inventory {
    map k | k in store :: store[k].value
  }

  predicate Typed(inv: Inventory) {
    forall k :: k in inv && (k.BuildingKey? || k.PropertyAmenity? || k.UnitAmenity?) ==> inv[k] == Present
  }

  /** One worker process at work on the database. `steps` counts the writes it gets to make before
      it is cut off; after that nothing it does reaches the database. */
  class Worker {
    var store: map<Key, Row>
    var steps: nat
    const active: set<string>
    ghost var log: seq<Write>

    constructor (store: map<Key, Row>, steps: nat, active: set<string>)
      ensures this.store == store && this.steps == steps && this.active == active && log == []
    {
      this.store, this.steps, this.active, log := store, steps, active, [];
    }

    /** Insert a row, or update the row that has this key. */
    method Put(key: Key, value: Value)
      requires Typed(View(store)) && (key.PropertyKey? || key.UnitKey? || key.BedKey?)
      modifies this`store, this`steps, this`log
      ensures Typed(View(store)) && Advanced(old(View(store)), old(log), old(steps), Write(key, value))
    {
      log := log + [Write(key, value)];
      if steps > 0 {
        steps := steps - 1;
        store := store[key := Row(value, if key in store then store[key].version + 1 else 1)];
        assert View(store) == Apply(old(View(store)), Write(key, value));
      }
    }

    /** Insert a row unless one has this key already. */
    method PutIfAbsent(key: Key)
      requires Typed(View(store)) && (key.BuildingKey? || key.PropertyAmenity? || key.UnitAmenity?)
      modifies this`store, this`steps, this`log
      ensures Typed(View(store)) && Advanced(old(View(store)), old(log), old(steps), Write(key, Present))
    {
      log := log + [Write(key, Present)];
      if steps > 0 {
        steps := steps - 1;
        if key !in store {
          store := store[key := Row(Present, 1)];
        }
        assert key in View(store) && View(store)[key] == Present;
        assert View(store) == Apply(old(View(store)), Write(key, Present));
      }
    }

    ghost predicate Advanced(inv: Inventory, before: seq<Write>, budget: nat, w: Write)
      reads this
    {
      && log == before + [w]
      && steps == (if budget > 0 then budget - 1 else 0)
      && View(store) == if budget > 0 then Apply(inv, w) else inv
    }

    /** The database holds the first `budget` writes of the log. */
    ghost predicate Synced(start: Inventory, budget: nat)
      reads this
    {
      && Typed(View(store))
      && steps == (if budget > |log| then budget - |log| else 0)
      && View(store) == ApplyAll(start, log[..Min(budget, |log|)])
    }

    lemma SyncedStep(start: Inventory, budget: nat, inv: Inventory, before: seq<Write>, left: nat, w: Write)
      requires left == (if budget > |before| then budget - |before| else 0)
      requires inv == ApplyAll(start, before[..Min(budget, |before|)])
      requires Typed(View(store)) && Advanced(inv, before, left, w)
      ensures Synced(start, budget)
    {
      if left > 0 {
        assert before[..Min(budget, |before|)] == before;
        assert log[..Min(budget, |log|)] == log && log[..|log| - 1] == before;
      } else {
        assert log[..Min(budget, |log|)] == before[..Min(budget, |before|)];
      }
    }

    method UpsertProperty(d: RowDto, cache: set<string>, ghost start: Inventory, ghost budget: nat)
      returns (filled: set<string>)
      requires Synced(start, budget)
      modifies this`store, this`steps, this`log
      ensures Synced(start, budget) && filled == cache + {d.propertyCode}
      ensures log == old(log) + PropertyPart(d, Caches(cache, {}, {}))
    {
      if d.propertyCode in cache {
        return cache;
      }
      ghost var inv, before, left := View(store), log, steps;
      Put(PropertyKey(d.propertyCode), PropertyValue(PropertyOf(d)));
      SyncedStep(start, budget, inv, before, left, PropertyWrite(d));
      filled := cache + {d.propertyCode};
    }

    method UpsertBuilding(property: string, building: string, cache: set<(string, string)>,
                          ghost start: Inventory, ghost budget: nat)
      returns (filled: set<(string, string)>)
      requires Synced(start, budget)
      modifies this`store, this`steps, this`log
      ensures Synced(start, budget) && filled == cache + {(property, building)}
      ensures log == old(log) + if (property, building) in cache then [] else [Write(BuildingKey(property, building), Present)]
    {
      if (property, building) in cache {
        return cache;
      }
      ghost var inv, before, left := View(store), log, steps;
      PutIfAbsent(BuildingKey(property, building));
      SyncedStep(start, budget, inv, before, left, Write(BuildingKey(property, building), Present));
      filled := cache + {(property, building)};
    }

    method UpsertUnit(d: RowDto, cache: set<(string, string)>, ghost start: Inventory, ghost budget: nat)
      returns (filled: set<(string, string)>)
      requires Synced(start, budget)
      modifies this`store, this`steps, this`log
      ensures Synced(start, budget) && filled == cache + {(d.propertyCode, d.unitCode)}
      ensures log == old(log) + UnitPart(d, Caches({}, {}, cache))
    {
      if (d.propertyCode, d.unitCode) in cache {
        return cache;
      }
      ghost var inv, before, left := View(store), log, steps;
      Put(UnitKey(d.propertyCode, d.unitCode), UnitValue(UnitOf(d)));
      SyncedStep(start, budget, inv, before, left, UnitWrite(d));
      filled := cache + {(d.propertyCode, d.unitCode)};
    }

    method UpsertBed(d: RowDto, ghost start: Inventory, ghost budget: nat)
      requires HasBed(d) && Synced(start, budget)
      modifies this`store, this`steps, this`log
      ensures Synced(start, budget)
      ensures log == old(log) + BedPart(d)
    {
      ghost var inv, before, left := View(store), log, steps;
      Put(BedKey(d.propertyCode, d.unitCode, d.bedCode.value), BedValue(d.bedLabel.value));
      SyncedStep(start, budget, inv, before, left, Write(BedKey(d.propertyCode, d.unitCode, d.bedCode.value), BedValue(d.bedLabel.value)));
    }

    method LinkAmenities(d: RowDto, ghost start: Inventory, ghost budget: nat)
      requires Synced(start, budget)
      modifies this`store, this`steps, this`log
      ensures Synced(start, budget)
      ensures log == old(log) + LinkPart(d, active)
    {
      var amenities := FindAmenities(active, d.amenityCodes);
      for i := 0 to |amenities|
        invariant Synced(start, budget)
        invariant log == old(log) + LinkWrites(d, amenities[..i])
      {
        assert amenities[..i + 1][..i] == amenities[..i];
        Link(PropertyAmenity(d.propertyCode, amenities[i]), start, budget);
        Link(UnitAmenity(d.propertyCode, d.unitCode, amenities[i]), start, budget);
      }
      assert amenities[..|amenities|] == amenities;
    }

    method Link(key: Key, ghost start: Inventory, ghost budget: nat)
      requires Synced(start, budget) && (key.PropertyAmenity? || key.UnitAmenity?)
      modifies this`store, this`steps, this`log
      ensures Synced(start, budget)
      ensures log == old(log) + [Write(key, Present)]
    {
      ghost var inv, before, left := View(store), log, steps;
      PutIfAbsent(key);
      SyncedStep(start, budget, inv, before, left, Write(key, Present));
    }

    method ApplyRow(dto: RowDto, caches: Caches, ghost start: Inventory, ghost budget: nat)
      returns (filled: Caches)
      requires Synced(start, budget)
      modifies this`store, this`steps, this`log
      ensures Synced(start, budget) && filled == Remember(caches, dto)
      ensures log == old(log) + RowWrites(dto, caches, active)
    {
      var properties := UpsertProperty(dto, caches.properties, start, budget);
      ghost var done := old(log) + PropertyPart(dto, caches);
      assert log == done;
      var buildings := caches.buildings;
      var building := BuildingOf(dto);
      if building.Some? {
        buildings := UpsertBuilding(dto.propertyCode, building.value, buildings, start, budget);
      }
      done := done + BuildingPart(dto, caches);
      assert log == done;
      var units := UpsertUnit(dto, caches.units, start, budget);
      done := done + UnitPart(dto, caches);
      assert log == done;
      if HasBed(dto) {
        UpsertBed(dto, start, budget);
      }
      done := done + BedPart(dto);
      assert log == done;
      if |dto.amenityCodes| > 0 {
        LinkAmenities(dto, start, budget);
      }
      assert log == done + LinkPart(dto, active);
      RowWritesInOrder(dto, caches, active, old(log));
      filled := Caches(properties, buildings, units);
      assert filled.buildings == Remember(caches, dto).buildings;
    }

    /** The row loop. However early it is cut off, the database then holds exactly the writes
        made so far, a prefix of the writes of the uninterrupted run. */
    method ApplyRows(rows: seq<RowDto>) returns (applied: nat)
      requires Typed(View(store)) && log == []
      modifies this`store, this`steps, this`log
      ensures log == Writes(rows, active) && applied == |rows|
      ensures Typed(View(store))
      ensures View(store) == ApplyAll(old(View(store)), Writes(rows, active)[..Min(old(steps), |Writes(rows, active)|)])
      ensures steps == if old(steps) > |Writes(rows, active)| then old(steps) - |Writes(rows, active)| else 0
    {
      ghost var start, budget := View(store), steps;
      applied := 0;
      var caches := NO_CACHES;
      for i := 0 to |rows|
        invariant Synced(start, budget)
        invariant log == Writes(rows[..i], active) && applied == i
        invariant caches == CachesAfter(rows[..i])
      {
        assert rows[..i + 1][..i] == rows[..i];
        caches := ApplyRow(rows[i], caches, start, budget);
        applied := applied + 1;
      }
      assert rows[..|rows|] == rows;
    }

    /** One delivery of the commit event: nothing for a finished job, else the row loop and, unless
        the process was cut off on the way, the job's final status. `throws` tells a failure the
        handler still records from a process that just stops. */
    method ProcessInventoryImportCommit(job: Job, payloads: seq<Option<RowDto>>, throws: bool) returns (after: Job)
      requires Typed(View(store)) && log == []
      modifies this`store, this`steps, this`log
      ensures World(View(store), after) == Deliver(World(old(View(store)), job), Dtos(payloads), active, old(steps), throws)
    {
      if Finished(job) {
        return job;
      }
      var rows := Dtos(payloads);
      var applied := ApplyRows(rows);
      if steps == 0 {
        assert Writes(rows, active)[..Min(old(steps), |Writes(rows, active)|)] == Writes(rows, active)[..old(steps)];
        return job.(status := if throws then Failed else Processing);
      }
      assert Writes(rows, active)[..|Writes(rows, active)|] == Writes(rows, active);
      after := Job(FinalStatus(job.counts, applied), job.counts.(applied := applied));
    }
  }

  /** The accepted rows whose payload is a row object; the others are passed over. */
  function Dtos(payloads: seq<Option<RowDto>>): seq<RowDto> {
    if payloads == [] then []
    else
      Dtos(payloads[..|payloads| - 1])
      + if payloads[|payloads| - 1].Some? then [payloads[|payloads| - 1].value] else []
  }

  datatype World = World(inv: Inventory, job: Job)

  function Deliver(w: World, rows: seq<RowDto>, active: set<string>, steps: nat, throws: bool): World {
    var ws := Writes(rows, active);
    if Finished(w.job) then w
    else if steps <= |ws| then World(ApplyAll(w.inv, ws[..steps]), w.job.(status := if throws then Failed else Processing))
    else World(ApplyAll(w.inv, ws), Job(FinalStatus(w.job.counts, |rows|), w.job.counts.(applied := |rows|)))
  }

  // ----- what a list of writes leaves behind -----

  function LastWrite(ws: seq<Write>, k: Key): Option<Value> {
    if ws == [] then None
    else if ws[|ws| - 1].key == k then Some(ws[|ws| - 1].value)
    else LastWrite(ws[..|ws| - 1], k)
  }

  function At(inv: Inventory, k: Key): Option<Value> {
    if k in inv then Some(inv[k]) else None
  }

  lemma {:induction false} LastWriteCounts(inv: Inventory, ws: seq<Write>, k: Key)
    ensures At(ApplyAll(inv, ws), k) == if LastWrite(ws, k).Some? then LastWrite(ws, k) else At(inv, k)
  {
    if ws != [] { LastWriteCounts(inv, ws[..|ws| - 1], k); }
  }

  lemma SameEverywhere(a: Inventory, b: Inventory)
    requires forall k :: At(a, k) == At(b, k)
    ensures a == b
  {
    assert forall k :: k in a <==> At(a, k).Some?;
    assert forall k :: k in b <==> At(b, k).Some?;
    forall k | k in a ensures k in b && a[k] == b[k] {
      assert At(a, k) == At(b, k);
    }
  }

  lemma {:induction false} LastWriteOfPrefix(ws: seq<Write>, n: nat, k: Key)
    requires n <= |ws|
    ensures LastWrite(ws[..n], k).Some? ==> LastWrite(ws, k).Some?
  {
    if n < |ws| {
      LastWriteOfPrefix(ws[..|ws| - 1], n, k);
      assert ws[..|ws| - 1][..n] == ws[..n];
    } else {
      assert ws[..n] == ws;
    }
  }

  /** Running all the writes again hides whatever a cut-off run had already written. */
  lemma RerunAbsorbs(inv: Inventory, ws: seq<Write>, n: nat)
    requires n <= |ws|
    ensures ApplyAll(ApplyAll(inv, ws[..n]), ws) == ApplyAll(inv, ws)
  {
    forall k ensures At(ApplyAll(ApplyAll(inv, ws[..n]), ws), k) == At(ApplyAll(inv, ws), k) {
      LastWriteCounts(ApplyAll(inv, ws[..n]), ws, k);
      LastWriteCounts(inv, ws[..n], k);
      LastWriteCounts(inv, ws, k);
      LastWriteOfPrefix(ws, n, k);
    }
    SameEverywhere(ApplyAll(ApplyAll(inv, ws[..n]), ws), ApplyAll(inv, ws));
  }

  // ----- at-least-once delivery -----

  datatype Attempt = Attempt(steps: nat, throws: bool)

  function DeliverAll(w: World, rows: seq<RowDto>, active: set<string>, attempts: seq<Attempt>): World {
    if attempts == [] then w
    else
      var a := attempts[|attempts| - 1];
      Deliver(DeliverAll(w, rows, active, attempts[..|attempts| - 1]), rows, active, a.steps, a.throws)
  }

  predicate Completes(a: Attempt, rows: seq<RowDto>, active: set<string>) {
    a.steps > |Writes(rows, active)|
  }

  /** From `w` one complete run still leads to the inventory it would have given at `start`. */
  ghost predicate OnTheWay(start: World, w: World, ws: seq<Write>) {
    && ApplyAll(w.inv, ws) == ApplyAll(start.inv, ws)
    && (Finished(w.job) ==> w.inv == ApplyAll(start.inv, ws))
  }

  lemma DeliveryStaysOnTheWay(start: World, w: World, rows: seq<RowDto>, active: set<string>, a: Attempt)
    requires OnTheWay(start, w, Writes(rows, active))
    ensures OnTheWay(start, Deliver(w, rows, active, a.steps, a.throws), Writes(rows, active))
    ensures Completes(a, rows, active) ==>
              Deliver(w, rows, active, a.steps, a.throws).inv == ApplyAll(start.inv, Writes(rows, active))
  {
    var ws := Writes(rows, active);
    RerunAbsorbs(w.inv, ws, Min(a.steps, |ws|));
    assert ws[..|ws|] == ws;
  }

  lemma {:induction false} AttemptsStayOnTheWay(start: World, w: World, rows: seq<RowDto>, active: set<string>, attempts: seq<Attempt>)
    requires OnTheWay(start, w, Writes(rows, active))
    ensures OnTheWay(start, DeliverAll(w, rows, active, attempts), Writes(rows, active))
  {
    if attempts != [] {
      var before := attempts[..|attempts| - 1];
      AttemptsStayOnTheWay(start, w, rows, active, before);
      DeliveryStaysOnTheWay(start, DeliverAll(w, rows, active, before), rows, active, attempts[|attempts| - 1]);
    }
  }

  /** Any number of deliveries, each cut off after any write or not at all, then one that runs to
      the end, give the inventory of a single uninterrupted run; deliveries after that change
      nothing, and the job is finished unless it had no row to apply. */
  lemma ImportIsResumable(start: World, rows: seq<RowDto>, active: set<string>, attempts: seq<Attempt>,
                          last: Attempt, later: seq<Attempt>)
    requires !Finished(start.job) && Completes(last, rows, active)
    ensures var done := Deliver(DeliverAll(start, rows, active, attempts), rows, active, last.steps, last.throws);
            && done.inv == ApplyAll(start.inv, Writes(rows, active))
            && DeliverAll(done, rows, active, later).inv == done.inv
            && (rows != [] ==> Finished(done.job))
  {
    var ws := Writes(rows, active);
    var mid := DeliverAll(start, rows, active, attempts);
    AttemptsStayOnTheWay(start, start, rows, active, attempts);
    DeliveryStaysOnTheWay(start, mid, rows, active, last);
    var done := Deliver(mid, rows, active, last.steps, last.throws);
    LaterChangesNothing(done, rows, active, later);
  }

  lemma {:induction false} LaterChangesNothing(done: World, rows: seq<RowDto>, active: set<string>, later: seq<Attempt>)
    requires Finished(done.job) || Writes(rows, active) == []
    ensures DeliverAll(done, rows, active, later).inv == done.inv
    ensures Finished(done.job) ==> DeliverAll(done, rows, active, later).job == done.job
  {
    if later != [] {
      LaterChangesNothing(done, rows, active, later[..|later| - 1]);
    }
  }

  // ----- who wins -----

  /** The property data of the first row with this code. */
  function FirstProperty(rows: seq<RowDto>, code: string): Option<Property> {
    if rows == [] then None
    else
      var before, d := FirstProperty(rows[..|rows| - 1], code), rows[|rows| - 1];
      if before.Some? then before else if d.propertyCode == code then Some(PropertyOf(d)) else None
  }

  function LastProperty(rows: seq<RowDto>, code: string): Option<Property> {
    if rows == [] then None
    else
      var d := rows[|rows| - 1];
      if d.propertyCode == code then Some(PropertyOf(d)) else LastProperty(rows[..|rows| - 1], code)
  }

  function FirstUnit(rows: seq<RowDto>, property: string, unit: string): Option<UnitFields> {
    if rows == [] then None
    else
      var before, d := FirstUnit(rows[..|rows| - 1], property, unit), rows[|rows| - 1];
      if before.Some? then before
      else if d.propertyCode == property && d.unitCode == unit then Some(UnitOf(d)) else None
  }

  function LastUnit(rows: seq<RowDto>, property: string, unit: string): Option<UnitFields> {
    if rows == [] then None
    else
      var d := rows[|rows| - 1];
      if d.propertyCode == property && d.unitCode == unit then Some(UnitOf(d))
      else LastUnit(rows[..|rows| - 1], property, unit)
  }

  function LastBed(rows: seq<RowDto>, property: string, unit: string, bed: string): Option<string> {
    if rows == [] then None
    else
      var d := rows[|rows| - 1];
      if HasBed(d) && d.propertyCode == property && d.unitCode == unit && d.bedCode.value == bed then d.bedLabel
      else LastBed(rows[..|rows| - 1], property, unit, bed)
  }

  /** Some row asks for this building or amenity link. */
  predicate Asked(rows: seq<RowDto>, active: set<string>, k: Key) {
    exists i :: 0 <= i < |rows| && AsksFor(rows[i], active, k)
  }

  predicate AsksFor(d: RowDto, active: set<string>, k: Key) {
    match k
    case BuildingKey(p, b) => d.propertyCode == p && BuildingOf(d) == Some(b)
    case PropertyAmenity(p, a) => d.propertyCode == p && a in active && a in d.amenityCodes
    case UnitAmenity(p, u, a) => d.propertyCode == p && d.unitCode == u && a in active && a in d.amenityCodes
    case _ => false
  }

  /** What an uninterrupted run leaves under a key, read off the rows; None where it writes nothing. */
  function Winner(rows: seq<RowDto>, active: set<string>, k: Key): Option<Value> {
    match k
    case PropertyKey(c) => var p := FirstProperty(rows, c); if p.Some? then Some(PropertyValue(p.value)) else None
    case UnitKey(p, u) => var f := FirstUnit(rows, p, u); if f.Some? then Some(UnitValue(f.value)) else None
    case BedKey(p, u, b) => var l := LastBed(rows, p, u, b); if l.Some? then Some(BedValue(l.value)) else None
    case _ => if Asked(rows, active, k) then Some(Present) else None
  }

  lemma {:induction false} LastWriteOfConcat(a: seq<Write>, b: seq<Write>, k: Key)
    ensures LastWrite(a + b, k) == if LastWrite(b, k).Some? then LastWrite(b, k) else LastWrite(a, k)
  {
    if b == [] {
      assert a + b == a;
    } else {
      LastWriteOfConcat(a, b[..|b| - 1], k);
      assert (a + b)[..|a + b| - 1] == a + b[..|b| - 1];
    }
  }

  lemma {:induction false} FoundAmenities(active: set<string>, codes: seq<string>, a: string)
    ensures a in FindAmenities(active, codes) <==> a in active && a in codes
  {
    if codes != [] {
      var before := codes[..|codes| - 1];
      FoundAmenities(active, before, a);
      assert codes == before + [codes[|codes| - 1]];
    }
  }

  lemma {:induction false} LastLink(d: RowDto, amenities: seq<string>, k: Key)
    ensures LastWrite(LinkWrites(d, amenities), k)
         == if (k.PropertyAmenity? && k.property == d.propertyCode && k.amenity in amenities)
               || (k.UnitAmenity? && k.property == d.propertyCode && k.unit == d.unitCode && k.amenity in amenities)
            then Some(Present) else None
  {
    if amenities != [] {
      var before := amenities[..|amenities| - 1];
      var a := amenities[|amenities| - 1];
      LastLink(d, before, k);
      assert amenities == before + [a];
      var w1, w2 := Write(PropertyAmenity(d.propertyCode, a), Present), Write(UnitAmenity(d.propertyCode, d.unitCode, a), Present);
      var links := LinkWrites(d, before) + [w1, w2];
      assert links[..|links| - 1] == LinkWrites(d, before) + [w1];
      assert (LinkWrites(d, before) + [w1])[..|LinkWrites(d, before)|] == LinkWrites(d, before);
    }
  }

  /** The effect of one row's writes, given what the caches hold when it is reached. */
  function RowWinner(d: RowDto, caches: Caches, active: set<string>, k: Key): Option<Value> {
    match k
    case PropertyKey(c) =>
      if d.propertyCode == c && c !in caches.properties then Some(PropertyValue(PropertyOf(d))) else None
    case UnitKey(p, u) =>
      if d.propertyCode == p && d.unitCode == u && (p, u) !in caches.units then Some(UnitValue(UnitOf(d))) else None
    case BedKey(p, u, b) =>
      if HasBed(d) && d.propertyCode == p && d.unitCode == u && d.bedCode.value == b then Some(BedValue(d.bedLabel.value)) else None
    case BuildingKey(p, b) =>
      if AsksFor(d, active, k) && (p, b) !in caches.buildings then Some(Present) else None
    case _ => if AsksFor(d, active, k) then Some(Present) else None
  }

  lemma LastOfOne(w: Write, k: Key)
    ensures LastWrite([w], k) == if w.key == k then Some(w.value) else None
    ensures LastWrite([], k) == None
  {
    assert [w][..0] == [];
  }

  lemma LastOfParts(d: RowDto, caches: Caches, k: Key)
    ensures LastWrite(PropertyPart(d, caches), k) == if k.PropertyKey? then RowWinner(d, caches, {}, k) else None
    ensures LastWrite(BuildingPart(d, caches), k) == if k.BuildingKey? then RowWinner(d, caches, {}, k) else None
    ensures LastWrite(UnitPart(d, caches), k) == if k.UnitKey? then RowWinner(d, caches, {}, k) else None
    ensures LastWrite(BedPart(d), k) == if k.BedKey? then RowWinner(d, caches, {}, k) else None
  {
    LastOfOne(PropertyWrite(d), k);
    LastOfOne(UnitWrite(d), k);
    if BuildingOf(d).Some? { LastOfOne(Write(BuildingKey(d.propertyCode, BuildingOf(d).value), Present), k); }
    if HasBed(d) { LastOfOne(Write(BedKey(d.propertyCode, d.unitCode, d.bedCode.value), BedValue(d.bedLabel.value)), k); }
  }

  lemma LastOfFive(p: seq<Write>, b: seq<Write>, u: seq<Write>, e: seq<Write>, l: seq<Write>, k: Key)
    ensures LastWrite(p + b + u + e + l, k)
         == if LastWrite(l, k).Some? then LastWrite(l, k) else if LastWrite(e, k).Some? then LastWrite(e, k)
            else if LastWrite(u, k).Some? then LastWrite(u, k) else if LastWrite(b, k).Some? then LastWrite(b, k)
            else LastWrite(p, k)
  {
    LastWriteOfConcat(p + b + u + e, l, k);
    LastWriteOfConcat(p + b + u, e, k);
    LastWriteOfConcat(p + b, u, k);
    LastWriteOfConcat(p, b, k);
  }

  lemma LastWriteOfRow(d: RowDto, caches: Caches, active: set<string>, k: Key)
    ensures LastWrite(RowWrites(d, caches, active), k) == RowWinner(d, caches, active, k)
  {
    LastOfFive(PropertyPart(d, caches), BuildingPart(d, caches), UnitPart(d, caches), BedPart(d), LinkPart(d, active), k);
    LastOfParts(d, caches, k);
    LastLink(d, FindAmenities(active, d.amenityCodes), k);
    if k.PropertyAmenity? || k.UnitAmenity? {
      FoundAmenities(active, d.amenityCodes, k.amenity);
    }
  }

  lemma {:induction false} CachesHoldSeen(rows: seq<RowDto>, active: set<string>, p: string, u: string)
    ensures p in CachesAfter(rows).properties <==> FirstProperty(rows, p).Some?
    ensures (p, u) in CachesAfter(rows).units <==> FirstUnit(rows, p, u).Some?
    ensures (p, u) in CachesAfter(rows).buildings <==> Asked(rows, active, BuildingKey(p, u))
  {
    if rows != [] {
      CachesHoldSeen(rows[..|rows| - 1], active, p, u);
      AskedStep(rows, active, BuildingKey(p, u));
    }
  }

  lemma AskedStep(rows: seq<RowDto>, active: set<string>, k: Key)
    requires rows != []
    ensures Asked(rows, active, k) <==> Asked(rows[..|rows| - 1], active, k) || AsksFor(rows[|rows| - 1], active, k)
  {
    var before := rows[..|rows| - 1];
    if Asked(before, active, k) {
      var i :| 0 <= i < |before| && AsksFor(before[i], active, k);
      assert AsksFor(rows[i], active, k);
    }
    if Asked(rows, active, k) {
      var i :| 0 <= i < |rows| && AsksFor(rows[i], active, k);
      assert i < |before| ==> AsksFor(before[i], active, k);
    }
  }

  lemma {:induction false} WritesHaveWinners(rows: seq<RowDto>, active: set<string>, k: Key)
    ensures LastWrite(Writes(rows, active), k) == Winner(rows, active, k)
  {
    if rows != [] {
      var before, d := rows[..|rows| - 1], rows[|rows| - 1];
      WritesHaveWinners(before, active, k);
      LastWriteOfConcat(Writes(before, active), RowWrites(d, CachesAfter(before), active), k);
      LastWriteOfRow(d, CachesAfter(before), active, k);
      AskedStep(rows, active, k);
      match k {
        case PropertyKey(c) => CachesHoldSeen(before, active, c, "");
        case UnitKey(p, u) => CachesHoldSeen(before, active, p, u);
        case BuildingKey(p, b) => CachesHoldSeen(before, active, p, b);
        case _ =>
      }
    }
  }

  /** One uninterrupted run leaves, under every key: the first row's data for a property and for a
      unit, the last row's label for a bed, every building and amenity link some row asks for, and
      whatever was there before under all other keys. */
  lemma ImportedInventory(inv: Inventory, rows: seq<RowDto>, active: set<string>, k: Key)
    ensures At(ApplyAll(inv, Writes(rows, active)), k)
         == if Winner(rows, active, k).Some? then Winner(rows, active, k) else At(inv, k)
  {
    LastWriteCounts(inv, Writes(rows, active), k);
    WritesHaveWinners(rows, active, k);
  }

  // ----- are the caches only a speed-up? -----

  /** The writes of an importer without caches: every row writes its property and unit again. */
  function PlainWrites(rows: seq<RowDto>, active: set<string>): seq<Write> {
    if rows == [] then []
    else PlainWrites(rows[..|rows| - 1], active) + RowWrites(rows[|rows| - 1], NO_CACHES, active)
  }

  function PlainWinner(rows: seq<RowDto>, active: set<string>, k: Key): Option<Value> {
    match k
    case PropertyKey(c) => var p := LastProperty(rows, c); if p.Some? then Some(PropertyValue(p.value)) else None
    case UnitKey(p, u) => var f := LastUnit(rows, p, u); if f.Some? then Some(UnitValue(f.value)) else None
    case _ => Winner(rows, active, k)
  }

  lemma {:induction false} PlainWritesHaveWinners(rows: seq<RowDto>, active: set<string>, k: Key)
    ensures LastWrite(PlainWrites(rows, active), k) == PlainWinner(rows, active, k)
  {
    if rows != [] {
      var before, d := rows[..|rows| - 1], rows[|rows| - 1];
      PlainWritesHaveWinners(before, active, k);
      LastWriteOfConcat(PlainWrites(before, active), RowWrites(d, NO_CACHES, active), k);
      LastWriteOfRow(d, NO_CACHES, active, k);
      AskedStep(rows, active, k);
    }
  }

  /** The first and the last row of every property, and of every unit, carry the same data. */
  ghost predicate EndsAgree(rows: seq<RowDto>) {
    && (forall c :: FirstProperty(rows, c) == LastProperty(rows, c))
    && (forall p, u :: FirstUnit(rows, p, u) == LastUnit(rows, p, u))
  }

  /** The caches change the outcome of an import unless, for every property and unit code, the
      first and the last row that use it agree. */
  lemma CachesAreInvisibleIff(rows: seq<RowDto>, active: set<string>)
    ensures (forall inv :: ApplyAll(inv, Writes(rows, active)) == ApplyAll(inv, PlainWrites(rows, active))) <==> EndsAgree(rows)
  {
    if EndsAgree(rows) {
      forall inv ensures ApplyAll(inv, Writes(rows, active)) == ApplyAll(inv, PlainWrites(rows, active)) {
        forall k ensures At(ApplyAll(inv, Writes(rows, active)), k) == At(ApplyAll(inv, PlainWrites(rows, active)), k) {
          ImportedInventory(inv, rows, active, k);
          LastWriteCounts(inv, PlainWrites(rows, active), k);
          PlainWritesHaveWinners(rows, active, k);
        }
        SameEverywhere(ApplyAll(inv, Writes(rows, active)), ApplyAll(inv, PlainWrites(rows, active)));
      }
    } else {
      var k: Key;
      if c :| FirstProperty(rows, c) != LastProperty(rows, c) {
        k := PropertyKey(c);
      } else {
        var p, u :| FirstUnit(rows, p, u) != LastUnit(rows, p, u);
        k := UnitKey(p, u);
      }
      ImportedInventory(map[], rows, active, k);
      LastWriteCounts(map[], PlainWrites(rows, active), k);
      PlainWritesHaveWinners(rows, active, k);
      assert ApplyAll(map[], Writes(rows, active)) != ApplyAll(map[], PlainWrites(rows, active));
    }
  }

  // ----- importing an export -----

  /** The inventory holds these units and beds exactly as they were exported. */
  ghost predicate Holds(inv: Inventory, shown: Shown) {
    var u := shown.0;
    && At(inv, PropertyKey(u.property.code)) == Some(PropertyValue(u.property))
    && At(inv, UnitKey(u.property.code, u.code))
         == Some(UnitValue(UnitFields(u.name, u.unitType, u.allocationMode, u.capacity, u.building)))
    && (u.building.Some? ==> At(inv, BuildingKey(u.property.code, u.building.value)) == Some(Present))
    && (shown.1.Some? ==>
          At(inv, BedKey(u.property.code, u.code, shown.1.value.code)) == Some(BedValue(shown.1.value.bedLabel)))
  }

  function DtosShown(shown: seq<Shown>): seq<RowDto> {
    seq(|shown|, i requires 0 <= i < |shown| => DtoOf(shown[i].0, shown[i].1))
  }

  /** Every one of these writes repeats what is there. */
  ghost predicate AllHeld(inv: Inventory, ws: seq<Write>) {
    forall i :: 0 <= i < |ws| ==> At(inv, ws[i].key) == Some(ws[i].value)
  }

  lemma {:induction false} WritesChangeNothing(inv: Inventory, ws: seq<Write>)
    requires AllHeld(inv, ws)
    ensures ApplyAll(inv, ws) == inv
  {
    if ws != [] {
      WritesChangeNothing(inv, ws[..|ws| - 1]);
    }
  }

  lemma AllHeldConcat(inv: Inventory, a: seq<Write>, b: seq<Write>)
    requires AllHeld(inv, a) && AllHeld(inv, b)
    ensures AllHeld(inv, a + b)
  {
  }

  lemma ShownRowChangesNothing(inv: Inventory, shown: Shown, caches: Caches, active: set<string>)
    requires CleanShown(shown) && Holds(inv, shown)
    ensures AllHeld(inv, RowWrites(DtoOf(shown.0, shown.1), caches, active))
  {
    var d := DtoOf(shown.0, shown.1);
    assert LinkPart(d, active) == [];
    assert BuildingOf(d) == shown.0.building;
    AllHeldConcat(inv, PropertyPart(d, caches), BuildingPart(d, caches));
    AllHeldConcat(inv, PropertyPart(d, caches) + BuildingPart(d, caches), UnitPart(d, caches));
    AllHeldConcat(inv, PropertyPart(d, caches) + BuildingPart(d, caches) + UnitPart(d, caches), BedPart(d));
  }

  /** A list of rows none of which changes anything, whatever the caches hold. */
  ghost predicate NoneChanges(inv: Inventory, rows: seq<RowDto>, active: set<string>) {
    forall i, c :: 0 <= i < |rows| ==> AllHeld(inv, RowWrites(rows[i], c, active))
  }

  lemma {:induction false} RowsChangeNothing(inv: Inventory, rows: seq<RowDto>, active: set<string>)
    requires NoneChanges(inv, rows, active)
    ensures AllHeld(inv, Writes(rows, active))
  {
    if rows != [] {
      var before := rows[..|rows| - 1];
      RowsChangeNothing(inv, before, active);
      AllHeldConcat(inv, Writes(before, active), RowWrites(rows[|rows| - 1], CachesAfter(before), active));
    }
  }

  lemma ShownRowsChangeNothing(inv: Inventory, units: seq<Unit>, active: set<string>)
    requires forall j :: 0 <= j < |units| ==> CleanUnit(units[j])
    requires forall i :: 0 <= i < |AllShown(units)| ==> Holds(inv, AllShown(units)[i])
    ensures NoneChanges(inv, DtosShown(AllShown(units)), active)
  {
    var shown := AllShown(units);
    forall i, c | 0 <= i < |shown| ensures AllHeld(inv, RowWrites(DtosShown(shown)[i], c, active)) {
      AllShownClean(units, i);
      ShownRowChangesNothing(inv, shown[i], c, active);
    }
  }

  /** Exporting part of an inventory and importing the file leaves the inventory as it was, up to
      row versions: every row of the file is accepted with the data it was printed from, and
      applying those rows changes nothing. */
  lemma ImportOfExportIsIdentity(inv: Inventory, units: seq<Unit>, active: set<string>)
    requires units != [] && forall j :: 0 <= j < |units| ==> CleanUnit(units[j])
    requires forall j :: 0 <= j < |units| ==> !Bedless(units[j])
    requires forall i :: 0 <= i < |AllShown(units)| ==> Holds(inv, AllShown(units)[i])
    ensures var results := ValidateCsv(CsvText(units), []);
            && |results| == |AllShown(units)|
            && (forall i :: 0 <= i < |results| ==> results[i].Accepted? && results[i].dto == DtosShown(AllShown(units))[i])
    ensures ApplyAll(inv, Writes(DtosShown(AllShown(units)), active)) == inv
  {
    ExportValidates(units);
    var dtos := DtosShown(AllShown(units));
    ShownRowsChangeNothing(inv, units, active);
    RowsChangeNothing(inv, dtos, active);
    WritesChangeNothing(inv, Writes(dtos, active));
  }

  lemma ExportValidates(units: seq<Unit>)
    requires units != [] && forall j :: 0 <= j < |units| ==> CleanUnit(units[j]) && !Bedless(units[j])
    ensures var results := ValidateCsv(CsvText(units), []);
            && |results| == |AllShown(units)|
            && forall i :: 0 <= i < |results| ==> results[i].Accepted? && results[i].dto == DtosShown(AllShown(units))[i]
  {
    ExportImportRoundTrip(units);
    forall i | 0 <= i < |AllShown(units)| ensures ResultOf(AllShown(units)[i], i + 2).Accepted? {
      AllShownClean(units, i);
    }
  }

  // ----- which rows write a bed -----

  lemma {:induction false} LinksAreNoBeds(d: RowDto, amenities: seq<string>)
    ensures forall i :: 0 <= i < |LinkWrites(d, amenities)| ==> !LinkWrites(d, amenities)[i].key.BedKey?
  {
    if amenities != [] { LinksAreNoBeds(d, amenities[..|amenities| - 1]); }
  }

  /** A row writes a bed exactly if it is let by the bed and names its bed and label, and then under them. */
  lemma BedIsWrittenIff(d: RowDto, caches: Caches, active: set<string>, w: Write)
    requires w.key.BedKey?
    ensures w in RowWrites(d, caches, active)
            <==> && d.allocationMode == "BED" && d.bedCode.Some? && d.bedCode.value != "" && d.bedLabel.Some? && d.bedLabel.value != ""
                 && w == Write(BedKey(d.propertyCode, d.unitCode, d.bedCode.value), BedValue(d.bedLabel.value))
  {
    LinksAreNoBeds(d, FindAmenities(active, d.amenityCodes));
    assert w in RowWrites(d, caches, active) <==> w in BedPart(d);
  }
}
