/** Import jobs before they are claimed (import.service.ts).

    The dry run classifies every row of the file: valid or not, a duplicate of an earlier row or not,
    in the caller's property scope or not, and free of unknown amenities or not. At commit the scope
    is checked again, and accepted rows that are out of it by then are skipped. What other calls can
    do in between is the matter of the claims. */
module ImportJobs {
  import opened Prelude
  import opened Decimal
  import opened InventoryRules
  import opened InventoryExport
  import opened InventoryImport

  datatype RowStatus = ACCEPTED | REJECTED | SKIPPED

  datatype Reason =
    | NoReason
    | InvalidRow(code: ErrorCode, field: string)
    | DuplicateInFile
    | UnknownProperty
    | OutOfScope
    | UnknownAmenities(codes: seq<string>)

  datatype JobRow = JobRow(rowNumber: nat, status: RowStatus, reason: Reason, dto: Option<RowDto>)

  /** Property ids by code, and the codes of the active amenities. */
  datatype Catalog = Catalog(properties: map<string, nat>, amenities: set<string>)

  /** The properties the caller may touch; None means all of them, and new ones too. */
  type Scope = Option<set<nat>>

  // ----- the verdict on one row -----

  function UnitText(property: string, unit: string): string {
    property + "::" + unit
  }

  function UnitTextOf(d: RowDto): string {
    UnitText(d.propertyCode, d.unitCode)
  }

  /** One of the first n rows is valid and has this unit text. */
  predicate SeenBefore(results: seq<RowResult>, n: nat, text: string)
    requires n <= |results|
  {
    exists j :: 0 <= j < n && results[j].Accepted? && UnitTextOf(results[j].dto) == text
  }

  function ScopeReason(catalog: Catalog, scope: Scope, property: string): Reason {
    if scope.None? then NoReason
    else if property !in catalog.properties then UnknownProperty
    else if catalog.properties[property] !in scope.value then OutOfScope
    else NoReason
  }

  function UnknownCodes(codes: seq<string>, known: set<string>): seq<string> {
    if codes == [] then []
    else UnknownCodes(codes[..|codes| - 1], known) + if codes[|codes| - 1] in known then [] else [codes[|codes| - 1]]
  }

  /** What the dry run says of row i, told from the rows before it. */
  function Classify(results: seq<RowResult>, i: nat, catalog: Catalog, scope: Scope): JobRow
    requires i < |results|
  {
    match results[i]
    case Rejected(n, code, field, _) => JobRow(n, REJECTED, InvalidRow(code, field), None)
    case Accepted(n, dto, _) =>
      if dto.allocationMode != "BED" && SeenBefore(results, i, UnitTextOf(dto)) then JobRow(n, REJECTED, DuplicateInFile, Some(dto))
      else if ScopeReason(catalog, scope, dto.propertyCode) != NoReason then
        JobRow(n, SKIPPED, ScopeReason(catalog, scope, dto.propertyCode), Some(dto))
      else if UnknownCodes(dto.amenityCodes, catalog.amenities) != [] then
        JobRow(n, REJECTED, UnknownAmenities(UnknownCodes(dto.amenityCodes, catalog.amenities)), Some(dto))
      else JobRow(n, ACCEPTED, NoReason, Some(dto))
  }

  function CountOf(rows: seq<JobRow>, status: RowStatus): nat {
    if rows == [] then 0 else CountOf(rows[..|rows| - 1], status) + if rows[|rows| - 1].status == status then 1 else 0
  }

  function CountsOf(rows: seq<JobRow>): Counts {
    Counts(|rows|, CountOf(rows, ACCEPTED), CountOf(rows, REJECTED), CountOf(rows, SKIPPED), 0)
  }

  function ClassifyAll(results: seq<RowResult>, catalog: Catalog, scope: Scope): seq<JobRow> {
    seq(|results|, i requires 0 <= i < |results| => Classify(results, i, catalog, scope))
  }

  /** The loop of dryRun. */
  method DryRunRows(results: seq<RowResult>, catalog: Catalog, scope: Scope) returns (rows: seq<JobRow>, counts: Counts)
    ensures rows == ClassifyAll(results, catalog, scope) && counts == CountsOf(rows)
  {
    var seenUnits: set<string> := {};
    var accepted, rejected, skipped := 0, 0, 0;
    rows := [];
    for i := 0 to |results|
      invariant |rows| == i && forall k :: 0 <= k < i ==> rows[k] == Classify(results, k, catalog, scope)
      invariant forall text :: text in seenUnits <==> SeenBefore(results, i, text)
      invariant accepted == CountOf(rows, ACCEPTED) && rejected == CountOf(rows, REJECTED) && skipped == CountOf(rows, SKIPPED)
    {
      var result := results[i];
      var row;
      if result.Rejected? {
        row := JobRow(result.rowNumber, REJECTED, InvalidRow(result.code, result.field), None);
        rejected := rejected + 1;
      } else {
        var dto := result.dto;
        var text := UnitTextOf(dto);
        if text in seenUnits && dto.allocationMode != "BED" {
          row := JobRow(result.rowNumber, REJECTED, DuplicateInFile, Some(dto));
          rejected := rejected + 1;
        } else {
          seenUnits := seenUnits + {text};
          var denied := ScopeReason(catalog, scope, dto.propertyCode);
          var unknown := UnknownCodes(dto.amenityCodes, catalog.amenities);
          if denied != NoReason {
            row := JobRow(result.rowNumber, SKIPPED, denied, Some(dto));
            skipped := skipped + 1;
          } else if unknown != [] {
            row := JobRow(result.rowNumber, REJECTED, UnknownAmenities(unknown), Some(dto));
            rejected := rejected + 1;
          } else {
            row := JobRow(result.rowNumber, ACCEPTED, NoReason, Some(dto));
            accepted := accepted + 1;
          }
        }
      }
      assert row == Classify(results, i, catalog, scope);
      SeenStep(results, i);
      CountsStep(rows, row);
      rows := rows + [row];
    }
    counts := Counts(|results|, accepted, rejected, skipped, 0);
  }

  lemma CountsStep(rows: seq<JobRow>, row: JobRow)
    ensures forall status :: CountOf(rows + [row], status) == CountOf(rows, status) + if row.status == status then 1 else 0
  {
    assert (rows + [row])[..|rows|] == rows;
  }

  lemma SeenStep(results: seq<RowResult>, i: nat)
    requires i < |results|
    ensures forall text :: SeenBefore(results, i + 1, text)
                           <==> SeenBefore(results, i, text) || (results[i].Accepted? && UnitTextOf(results[i].dto) == text)
  {
    forall text
      ensures SeenBefore(results, i + 1, text)
              <==> SeenBefore(results, i, text) || (results[i].Accepted? && UnitTextOf(results[i].dto) == text)
    {
      if SeenBefore(results, i, text) {
        var j :| 0 <= j < i && results[j].Accepted? && UnitTextOf(results[j].dto) == text;
        assert 0 <= j < i + 1;
      }
    }
  }

  // ----- what the verdicts mean -----

  lemma {:induction false} EveryRowIsCounted(rows: seq<JobRow>)
    ensures CountOf(rows, ACCEPTED) + CountOf(rows, REJECTED) + CountOf(rows, SKIPPED) == |rows|
  {
    if rows != [] { EveryRowIsCounted(rows[..|rows| - 1]); }
  }

  lemma {:induction false} KnownIff(codes: seq<string>, known: set<string>)
    ensures UnknownCodes(codes, known) == [] <==> forall c :: c in codes ==> c in known
  {
    if codes != [] {
      KnownIff(codes[..|codes| - 1], known);
      assert codes == codes[..|codes| - 1] + [codes[|codes| - 1]];
    }
  }

  /** A row of a file is accepted exactly when it is valid, names a unit no earlier valid row names
      (bed rows excepted), lies in the caller's scope and links active amenities only. */
  lemma AcceptedIff(csvText: string, mapping: Mapping, i: nat, catalog: Catalog, scope: Scope)
    requires i < |ValidateCsv(csvText, mapping)|
    ensures var results := ValidateCsv(csvText, mapping);
            var row := Classify(results, i, catalog, scope);
            && (row.status == ACCEPTED <==>
                  && results[i].Accepted?
                  && (results[i].dto.allocationMode == "BED" || !SeenBefore(results, i, UnitTextOf(results[i].dto)))
                  && (scope.Some? ==> results[i].dto.propertyCode in catalog.properties
                                      && catalog.properties[results[i].dto.propertyCode] in scope.value)
                  && forall c :: c in results[i].dto.amenityCodes ==> c in catalog.amenities)
            && (row.status == ACCEPTED ==> row.dto == Some(results[i].dto) && WellFormed(results[i].dto))
  {
    var results := ValidateCsv(csvText, mapping);
    if results[i].Accepted? {
      KnownIff(results[i].dto.amenityCodes, catalog.amenities);
      AcceptedRowIsWellFormed(csvText, mapping, i);
    }
  }

  lemma AcceptedRowIsWellFormed(csvText: string, mapping: Mapping, i: nat)
    requires i < |ValidateCsv(csvText, mapping)| && ValidateCsv(csvText, mapping)[i].Accepted?
    ensures WellFormed(ValidateCsv(csvText, mapping)[i].dto)
  {
    var parsed := ReadCsv(csvText);
    AcceptedIffWellFormed(parsed.rows[i].rowNumber, parsed.rows[i].cells, mapping);
  }

  lemma {:induction false} UnknownAre(codes: seq<string>, known: set<string>)
    ensures forall c :: c in UnknownCodes(codes, known) <==> c in codes && c !in known
  {
    if codes != [] {
      UnknownAre(codes[..|codes| - 1], known);
      assert codes == codes[..|codes| - 1] + [codes[|codes| - 1]];
    }
  }

  /** The verdict on a valid row, whichever comes first: a duplicate unless it is a bed row; skipped where
      the scope does not have its property; rejected for amenities that are not active; accepted. */
  lemma VerdictOnValidRow(results: seq<RowResult>, i: nat, catalog: Catalog, scope: Scope)
    requires i < |results| && results[i].Accepted?
    ensures var dto, row := results[i].dto, Classify(results, i, catalog, scope);
            var duplicate := dto.allocationMode != "BED"
                             && exists j :: 0 <= j < i && results[j].Accepted?
                                            && results[j].dto.propertyCode + "::" + results[j].dto.unitCode == dto.propertyCode + "::" + dto.unitCode;
            var known := dto.propertyCode in catalog.properties;
            var denied := scope.Some? && (!known || catalog.properties[dto.propertyCode] !in scope.value);
            var unknown := exists c :: c in dto.amenityCodes && c !in catalog.amenities;
            && row.rowNumber == results[i].rowNumber && row.dto == Some(dto)
            && (duplicate ==> row.status == REJECTED && row.reason == DuplicateInFile)
            && (!duplicate && denied ==> row.status == SKIPPED && row.reason == if known then OutOfScope else UnknownProperty)
            && (!duplicate && !denied && unknown ==>
                  row.status == REJECTED && row.reason.UnknownAmenities?
                  && forall c :: c in row.reason.codes <==> c in dto.amenityCodes && c !in catalog.amenities)
            && (!duplicate && !denied && !unknown ==> row.status == ACCEPTED && row.reason == NoReason)
  {
    KnownIff(results[i].dto.amenityCodes, catalog.amenities);
    UnknownAre(results[i].dto.amenityCodes, catalog.amenities);
  }

  /** And on a row that is not valid. */
  lemma VerdictOnInvalidRow(results: seq<RowResult>, i: nat, catalog: Catalog, scope: Scope)
    requires i < |results| && results[i].Rejected?
    ensures Classify(results, i, catalog, scope)
         == JobRow(results[i].rowNumber, REJECTED, InvalidRow(results[i].code, results[i].field), None)
  {
  }

  /** Of two accepted rows for one unit the later one is a bed row. */
  lemma LaterRowsOfAUnitAreBeds(results: seq<RowResult>, i: nat, j: nat, catalog: Catalog, scope: Scope)
    requires i < j < |results|
    requires var a, c := Classify(results, i, catalog, scope), Classify(results, j, catalog, scope);
             && a.status == ACCEPTED && c.status == ACCEPTED
             && a.dto.value.propertyCode == c.dto.value.propertyCode && a.dto.value.unitCode == c.dto.value.unitCode
    ensures results[j].dto.allocationMode == "BED"
  {
    assert results[i].Accepted? && UnitTextOf(results[i].dto) == UnitTextOf(results[j].dto);
  }

  /** The text that stands for a unit tells units apart as long as property codes have no colon. */
  lemma UnitTextDecides(p: string, u: string, q: string, v: string)
    requires ':' !in p && ':' !in q
    ensures UnitText(p, u) == UnitText(q, v) <==> p == q && u == v
  {
    if UnitText(p, u) == UnitText(q, v) {
      assert UnitText(p, u) == p + [':'] + ([':'] + u);
      assert UnitText(q, v) == q + [':'] + ([':'] + v);
      SplitAtSeparator(p, [':'] + u, q, [':'] + v, ':');
      assert u == ([':'] + u)[1..] && v == ([':'] + v)[1..];
    }
  }

  /** With one it need not: different units of different properties share a text, and the later row
      is rejected as a duplicate. */
  lemma ColonsMakeFalseDuplicates(p: string, middle: string, u: string)
    ensures UnitText(UnitText(p, middle), u) == UnitText(p, UnitText(middle, u))
    ensures UnitText(p, middle) != p
  {
    assert p + "::" + middle + "::" + u == p + "::" + (middle + "::" + u);
    assert |UnitText(p, middle)| > |p|;
  }

  // ----- an export through the dry run -----

  function TextOfUnit(u: Unit): string {
    UnitText(u.property.code, u.code)
  }

  /** No unit, unless it is let by the bed, has the text of an earlier one. */
  ghost predicate TextsApart(units: seq<Unit>) {
    forall a, b :: 0 <= a < b < |units| && TextOfUnit(units[a]) == TextOfUnit(units[b]) ==> units[b].allocationMode == "BED"
  }

  ghost predicate RowsApart(shown: seq<Shown>) {
    forall i, j :: 0 <= i < j < |shown| && TextOfUnit(shown[i].0) == TextOfUnit(shown[j].0) ==> shown[j].0.allocationMode == "BED"
  }

  lemma {:induction false} RowsOfUnit(units: seq<Unit>, i: nat) returns (a: nat)
    requires i < |AllShown(units)|
    ensures a < |units| && AllShown(units)[i].0 == units[a]
    ensures |AllShown(units[..a])| <= i < |AllShown(units[..a])| + |BedsOf(units[a])|
  {
    var n := |units| - 1;
    if i < |AllShown(units[..n])| {
      a := RowsOfUnit(units[..n], i);
      assert units[..n][..a] == units[..a];
    } else {
      a := n;
    }
  }

  lemma {:induction false} FirstRowOfUnit(units: seq<Unit>, a: nat)
    requires a < |units|
    ensures var r := |AllShown(units[..a])|;
            r + |BedsOf(units[a])| <= |AllShown(units)| && AllShown(units)[r].0 == units[a]
  {
    var n := |units| - 1;
    SomeBed(units[a]);
    if a < n {
      FirstRowOfUnit(units[..n], a);
      assert units[..n][..a] == units[..a];
      assert AllShown(units[..n]) <= AllShown(units);
    } else {
      assert AllShown(units)[|AllShown(units[..n])|] == ShownOf(units[n], BedsOf(units[n]))[0];
    }
  }

  lemma SomeBed(u: Unit)
    ensures BedsOf(u) != []
  {
  }

  lemma {:induction false} RowsInOrder(units: seq<Unit>, a: nat, b: nat)
    requires a < b <= |units|
    ensures |AllShown(units[..a])| + |BedsOf(units[a])| <= |AllShown(units[..b])|
  {
    if a < b - 1 { RowsInOrder(units, a, b - 1); }
    assert units[..b][..b - 1] == units[..b - 1];
  }

  lemma ApartIff(units: seq<Unit>)
    ensures RowsApart(AllShown(units)) <==> TextsApart(units)
  {
    var shown := AllShown(units);
    if RowsApart(shown) {
      forall a, b | 0 <= a < b < |units| && TextOfUnit(units[a]) == TextOfUnit(units[b]) ensures units[b].allocationMode == "BED" {
        FirstRowOfUnit(units, a);
        FirstRowOfUnit(units, b);
        RowsInOrder(units, a, b);
        assert BedsOf(units[a]) != [];
        assert |AllShown(units[..a])| < |AllShown(units[..b])|;
      }
    }
    if TextsApart(units) {
      forall i, j | 0 <= i < j < |shown| && TextOfUnit(shown[i].0) == TextOfUnit(shown[j].0) ensures shown[j].0.allocationMode == "BED" {
        var a := RowsOfUnit(units, i);
        var b := RowsOfUnit(units, j);
        if b < a {
          RowsInOrder(units, b, a);
          assert false;
        }
      }
    }
  }

  /** The rows a dry run hands to the worker. */
  function AcceptedDtos(rows: seq<JobRow>): seq<RowDto> {
    if rows == [] then []
    else
      var row := rows[|rows| - 1];
      AcceptedDtos(rows[..|rows| - 1]) + if row.status == ACCEPTED && row.dto.Some? then [row.dto.value] else []
  }

  ghost predicate Exportable(units: seq<Unit>) {
    units != [] && forall j :: 0 <= j < |units| ==> CleanUnit(units[j]) && !Bedless(units[j])
  }

  lemma ExportedRow(units: seq<Unit>, i: nat)
    requires Exportable(units) && i < |AllShown(units)|
    ensures var results := ValidateCsv(CsvText(units), []);
            && i < |results| && results[i].Accepted? && results[i].dto == DtoOf(AllShown(units)[i].0, AllShown(units)[i].1)
  {
    ExportImportRoundTrip(units);
    AllShownClean(units, i);
  }

  lemma ExportedDuplicate(units: seq<Unit>, i: nat)
    requires Exportable(units) && i < |AllShown(units)| && |ValidateCsv(CsvText(units), [])| == |AllShown(units)|
    ensures var shown := AllShown(units);
            SeenBefore(ValidateCsv(CsvText(units), []), i, TextOfUnit(shown[i].0))
            <==> exists j :: 0 <= j < i && TextOfUnit(shown[j].0) == TextOfUnit(shown[i].0)
  {
    forall j | 0 <= j < |AllShown(units)|
      ensures ValidateCsv(CsvText(units), [])[j].Accepted?
              && UnitTextOf(ValidateCsv(CsvText(units), [])[j].dto) == TextOfUnit(AllShown(units)[j].0)
    {
      ExportedRow(units, j);
    }
  }

  lemma ExportedRowPassesIff(units: seq<Unit>, i: nat, catalog: Catalog, scope: Scope)
    requires Exportable(units) && i < |AllShown(units)| && |ValidateCsv(CsvText(units), [])| == |AllShown(units)|
    requires ScopeReason(catalog, scope, AllShown(units)[i].0.property.code) == NoReason
    ensures var shown, row := AllShown(units), Classify(ValidateCsv(CsvText(units), []), i, catalog, scope);
            && row.dto == Some(DtoOf(shown[i].0, shown[i].1))
            && (row.status == ACCEPTED
                <==> shown[i].0.allocationMode == "BED" || !exists j :: 0 <= j < i && TextOfUnit(shown[j].0) == TextOfUnit(shown[i].0))
  {
    ExportedRow(units, i);
    ExportedDuplicate(units, i);
  }

  /** In the caller's scope an export passes the dry run whole, each row with the data it was printed
      from, exactly when no unit but one let by the bed has the text of an earlier unit. */
  lemma ExportPassesDryRunIff(units: seq<Unit>, catalog: Catalog, scope: Scope)
    requires Exportable(units)
    requires forall j :: 0 <= j < |units| ==> ScopeReason(catalog, scope, units[j].property.code) == NoReason
    ensures var rows := ClassifyAll(ValidateCsv(CsvText(units), []), catalog, scope);
            && |rows| == |AllShown(units)|
            && (forall i :: 0 <= i < |rows| ==> rows[i].dto == Some(DtosShown(AllShown(units))[i]))
            && ((forall i :: 0 <= i < |rows| ==> rows[i].status == ACCEPTED) <==> TextsApart(units))
  {
    ExportedRowsPassIff(units, catalog, scope);
    ApartIff(units);
  }

  lemma ExportedRowsPassIff(units: seq<Unit>, catalog: Catalog, scope: Scope)
    requires Exportable(units)
    requires forall j :: 0 <= j < |units| ==> ScopeReason(catalog, scope, units[j].property.code) == NoReason
    ensures var shown, rows := AllShown(units), ClassifyAll(ValidateCsv(CsvText(units), []), catalog, scope);
            && |rows| == |shown|
            && forall i :: 0 <= i < |rows| ==>
                 && rows[i].dto == Some(DtosShown(shown)[i])
                 && (rows[i].status == ACCEPTED
                     <==> shown[i].0.allocationMode == "BED" || !exists j :: 0 <= j < i && TextOfUnit(shown[j].0) == TextOfUnit(shown[i].0))
  {
    ExportImportRoundTrip(units);
    var shown, rows := AllShown(units), ClassifyAll(ValidateCsv(CsvText(units), []), catalog, scope);
    forall i | 0 <= i < |rows|
      ensures rows[i].dto == Some(DtosShown(shown)[i])
      ensures rows[i].status == ACCEPTED
              <==> shown[i].0.allocationMode == "BED" || !exists j :: 0 <= j < i && TextOfUnit(shown[j].0) == TextOfUnit(shown[i].0)
    {
      var a := RowsOfUnit(units, i);
      ExportedRowPassesIff(units, i, catalog, scope);
    }
  }

  /** Units with codes of their own and no colon in a property code are apart. */
  lemma PlainCodesAreApart(units: seq<Unit>)
    requires forall j :: 0 <= j < |units| ==> ':' !in units[j].property.code
    requires forall a, b :: 0 <= a < b < |units| ==> (units[a].property.code, units[a].code) != (units[b].property.code, units[b].code)
    ensures TextsApart(units)
  {
    forall a, b | 0 <= a < b < |units| ensures TextOfUnit(units[a]) != TextOfUnit(units[b]) {
      UnitTextDecides(units[a].property.code, units[a].code, units[b].property.code, units[b].code);
    }
  }

  lemma {:induction false} AcceptedAreAmong(rows: seq<JobRow>, dtos: seq<RowDto>)
    requires |rows| == |dtos| && forall i :: 0 <= i < |rows| ==> rows[i].dto == Some(dtos[i])
    ensures forall k :: 0 <= k < |AcceptedDtos(rows)| ==> AcceptedDtos(rows)[k] in dtos
    ensures (forall i :: 0 <= i < |rows| ==> rows[i].status == ACCEPTED) ==> AcceptedDtos(rows) == dtos
  {
    if rows != [] {
      var n := |rows| - 1;
      AcceptedAreAmong(rows[..n], dtos[..n]);
      assert dtos == dtos[..n] + [dtos[n]];
    }
  }

  /** Export, validate, dry run, apply: the inventory is as it was whichever rows the dry run takes for
      duplicates, and every row reaches the worker exactly when the units are apart. */
  lemma ImportOfExportThroughDryRun(inv: Inventory, units: seq<Unit>, active: set<string>, catalog: Catalog, scope: Scope)
    requires Exportable(units)
    requires forall j :: 0 <= j < |units| ==> ScopeReason(catalog, scope, units[j].property.code) == NoReason
    requires forall i :: 0 <= i < |AllShown(units)| ==> Holds(inv, AllShown(units)[i])
    ensures var dtos := AcceptedDtos(ClassifyAll(ValidateCsv(CsvText(units), []), catalog, scope));
            && ApplyAll(inv, Writes(dtos, active)) == inv
            && (TextsApart(units) ==> dtos == DtosShown(AllShown(units)))
  {
    var rows := ClassifyAll(ValidateCsv(CsvText(units), []), catalog, scope);
    ExportPassesDryRunIff(units, catalog, scope);
    AcceptedAreAmong(rows, DtosShown(AllShown(units)));
    SomeRowsChangeNothing(inv, units, active, AcceptedDtos(rows));
  }

  lemma SomeRowsChangeNothing(inv: Inventory, units: seq<Unit>, active: set<string>, dtos: seq<RowDto>)
    requires Exportable(units) && forall i :: 0 <= i < |AllShown(units)| ==> Holds(inv, AllShown(units)[i])
    requires forall k :: 0 <= k < |dtos| ==> dtos[k] in DtosShown(AllShown(units))
    ensures ApplyAll(inv, Writes(dtos, active)) == inv
  {
    ShownRowsChangeNothing(inv, units, active);
    RowsChangeNothing(inv, dtos, active);
    WritesChangeNothing(inv, Writes(dtos, active));
  }

  // ----- the scope check at commit -----

  function Rescope(row: JobRow, catalog: Catalog, scope: Scope): JobRow {
    if row.status != ACCEPTED || row.dto.None? || ScopeReason(catalog, scope, row.dto.value.propertyCode) == NoReason then row
    else row.(status := SKIPPED, reason := ScopeReason(catalog, scope, row.dto.value.propertyCode))
  }

  function RescopeAll(rows: seq<JobRow>, catalog: Catalog, scope: Scope): seq<JobRow> {
    seq(|rows|, i requires 0 <= i < |rows| => Rescope(rows[i], catalog, scope))
  }

  function Demoted(rows: seq<JobRow>, catalog: Catalog, scope: Scope): nat {
    if rows == [] then 0
    else
      var row := rows[|rows| - 1];
      Demoted(rows[..|rows| - 1], catalog, scope) + if Rescope(row, catalog, scope) != row then 1 else 0
  }

  function Recount(counts: Counts, demoted: nat): Counts {
    counts.(accepted := if counts.accepted > demoted then counts.accepted - demoted else 0, skipped := counts.skipped + demoted)
  }

  method ReapplyPropertyScopeAtCommit(rows: seq<JobRow>, counts: Counts, catalog: Catalog, scope: Scope)
    returns (after: seq<JobRow>, recounted: Counts)
    ensures after == RescopeAll(rows, catalog, scope) && recounted == Recount(counts, Demoted(rows, catalog, scope))
  {
    var demoted := 0;
    after := rows;
    if scope.None? {
      NothingDemoted(rows, catalog);
      return rows, counts;
    }
    for i := 0 to |rows|
      invariant |after| == |rows| && demoted == Demoted(rows[..i], catalog, scope)
      invariant forall k :: 0 <= k < |rows| ==> after[k] == if k < i then Rescope(rows[k], catalog, scope) else rows[k]
    {
      assert rows[..i + 1][..i] == rows[..i];
      var row := after[i];
      if row.status == ACCEPTED && row.dto.Some? {
        var denied := ScopeReason(catalog, scope, row.dto.value.propertyCode);
        if denied != NoReason {
          after := after[i := row.(status := SKIPPED, reason := denied)];
          demoted := demoted + 1;
        }
      }
    }
    assert rows[..|rows|] == rows;
    recounted := if demoted == 0 then counts else Recount(counts, demoted);
  }

  lemma {:induction false} NothingDemoted(rows: seq<JobRow>, catalog: Catalog)
    ensures RescopeAll(rows, catalog, None) == rows && Demoted(rows, catalog, None) == 0
  {
    if rows != [] { NothingDemoted(rows[..|rows| - 1], catalog); }
  }

  ghost predicate CountsMatch(counts: Counts, rows: seq<JobRow>) {
    && counts.total == |rows| && counts.accepted == CountOf(rows, ACCEPTED)
    && counts.rejected == CountOf(rows, REJECTED) && counts.skipped == CountOf(rows, SKIPPED)
  }

  lemma {:induction false} DemotedRowsMove(rows: seq<JobRow>, catalog: Catalog, scope: Scope)
    ensures var after := RescopeAll(rows, catalog, scope);
            && CountOf(after, ACCEPTED) == CountOf(rows, ACCEPTED) - Demoted(rows, catalog, scope)
            && CountOf(after, SKIPPED) == CountOf(rows, SKIPPED) + Demoted(rows, catalog, scope)
            && CountOf(after, REJECTED) == CountOf(rows, REJECTED)
  {
    if rows != [] {
      var init := rows[..|rows| - 1];
      DemotedRowsMove(init, catalog, scope);
      var after := RescopeAll(rows, catalog, scope);
      assert after[..|after| - 1] == RescopeAll(init, catalog, scope);
    }
  }

  /** Whatever grants changed since the dry run, a check with nothing in between only takes rows away:
      those still accepted were accepted before and lie in the scope of the moment, the counts go on
      matching the rows, and checking again changes nothing. */
  lemma ScopeOnlyNarrows(rows: seq<JobRow>, counts: Counts, catalog: Catalog, scope: Scope)
    requires CountsMatch(counts, rows) && forall i :: 0 <= i < |rows| && rows[i].status == ACCEPTED ==> rows[i].dto.Some?
    ensures var after := RescopeAll(rows, catalog, scope);
            && CountsMatch(Recount(counts, Demoted(rows, catalog, scope)), after)
            && (forall i :: 0 <= i < |rows| ==>
                  (after[i].status == ACCEPTED <==>
                     && rows[i].status == ACCEPTED
                     && (scope.Some? ==> rows[i].dto.value.propertyCode in catalog.properties
                                         && catalog.properties[rows[i].dto.value.propertyCode] in scope.value)))
            && (forall i :: 0 <= i < |rows| ==> after[i].dto == rows[i].dto)
            && RescopeAll(after, catalog, scope) == after
  {
    DemotedRowsMove(rows, catalog, scope);
  }

  // ----- what the final status says -----

  lemma {:induction false} CountIsFull(rows: seq<JobRow>, status: RowStatus)
    ensures CountOf(rows, status) <= |rows|
    ensures CountOf(rows, status) == |rows| <==> forall i :: 0 <= i < |rows| ==> rows[i].status == status
  {
    if rows != [] {
      CountIsFull(rows[..|rows| - 1], status);
      assert forall i :: 0 <= i < |rows| - 1 ==> rows[..|rows| - 1][i] == rows[i];
    }
  }

  lemma {:induction false} EveryAcceptedIsHandedOver(rows: seq<JobRow>)
    requires forall i :: 0 <= i < |rows| && rows[i].status == ACCEPTED ==> rows[i].dto.Some?
    ensures |AcceptedDtos(rows)| == CountOf(rows, ACCEPTED)
  {
    if rows != [] { EveryAcceptedIsHandedOver(rows[..|rows| - 1]); }
  }

  /** A job whose rows are handed over as they were counted ends COMPLETED exactly when every row was
      accepted, and PARTIALLY_COMPLETED otherwise. */
  lemma CompletedMeansEveryRow(w: World, rows: seq<JobRow>, active: set<string>, steps: nat)
    requires forall i :: 0 <= i < |rows| && rows[i].status == ACCEPTED ==> rows[i].dto.Some?
    requires w.job.status != Completed && w.job.status != PartiallyCompleted && w.job.counts == CountsOf(rows)
    requires steps > |Writes(AcceptedDtos(rows), active)|
    ensures var job := Deliver(w, AcceptedDtos(rows), active, steps, false).job;
            && job.counts == CountsOf(rows).(applied := CountOf(rows, ACCEPTED))
            && job.status == if forall i :: 0 <= i < |rows| ==> rows[i].status == ACCEPTED then Completed else PartiallyCompleted
  {
    EveryAcceptedIsHandedOver(rows);
    EveryRowIsCounted(rows);
    CountIsFull(rows, ACCEPTED);
  }

  /** A delivery that finds usable rows counted but none to apply, or that throws, leaves the job FAILED; one
      that just stops leaves it PROCESSING. */
  lemma FailedMeans(w: World, dtos: seq<RowDto>, active: set<string>, steps: nat, throws: bool)
    requires w.job.status != Completed && w.job.status != PartiallyCompleted
    ensures var job := Deliver(w, dtos, active, steps, throws).job;
            var through := steps > |Writes(dtos, active)|;
            && (job.status == Failed <==> (through && w.job.counts.accepted > 0 && dtos == []) || (!through && throws))
            && (job.status == Processing <==> !through && !throws)
            && (!through ==> job.counts == w.job.counts)
  {
  }
}
