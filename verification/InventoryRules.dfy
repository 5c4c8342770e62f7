/** Reading and validating an inventory CSV (inventory-import.rules.ts).

    Character classes: white space is the set `trim` removes; upper and lower case are those of
    ASCII letters. */
module InventoryRules {
  import opened Prelude
  import opened Decimal
  import opened CsvLine

  const PROPERTY_TYPES := ["APARTMENT", "BOARDING_HOUSE", "MIXED", "OTHER"]
  const UNIT_TYPES := ["APARTMENT", "STUDIO", "PRIVATE_ROOM", "SHARED_ROOM"]
  const ALLOCATION_MODES := ["WHOLE_UNIT", "BED", "CAPACITY"]

  const HEADERS: seq<string> := [
    "property_code", "property_name", "property_type", "address_line1", "city", "region",
    "postal_code", "country_code", "time_zone", "default_currency", "building_code", "unit_code",
    "unit_name", "unit_type", "allocation_mode", "capacity", "bed_code", "bed_label", "amenity_codes"]

  datatype RowDto = RowDto(
    propertyCode: string, propertyName: string, propertyType: string, addressLine1: string,
    city: string, region: Option<string>, postalCode: Option<string>, countryCode: string,
    timeZone: string, defaultCurrency: string, buildingCode: Option<string>, unitCode: string,
    unitName: string, unitType: string, allocationMode: string, capacity: int,
    bedCode: Option<string>, bedLabel: Option<string>, amenityCodes: seq<string>)

  datatype ErrorCode = RequiredField | InvalidEnum | InvalidFormat | InvalidCombination | EmptyCsv

  type Cells = map<string, string>

  datatype RowResult =
    | Accepted(rowNumber: nat, dto: RowDto, raw: Cells)
    | Rejected(rowNumber: nat, code: ErrorCode, field: string, raw: Cells)

  datatype ParsedRow = ParsedRow(rowNumber: nat, cells: Cells)

  datatype ParsedCsv = ParsedCsv(headers: seq<string>, rows: seq<ParsedRow>)

  // ----- text -----

  predicate IsSpace(c: char) {
    || '\t' <= c <= '\r'
    || c == ' ' || c == '\U{00A0}' || c == '\U{1680}'
    || '\U{2000}' <= c <= '\U{200A}'
    || c == '\U{2028}' || c == '\U{2029}' || c == '\U{202F}' || c == '\U{205F}' || c == '\U{3000}'
    || c == '\U{FEFF}'
  }

  function TrimStart(s: string): string {
    if s != "" && IsSpace(s[0]) then TrimStart(s[1..]) else s
  }

  function TrimEnd(s: string): string {
    if s != "" && IsSpace(s[|s| - 1]) then TrimEnd(s[..|s| - 1]) else s
  }

  function Trim(s: string): string {
    TrimEnd(TrimStart(s))
  }

  function UpperChar(c: char): char {
    if 'a' <= c <= 'z' then (c as int - 32) as char else c
  }

  function LowerChar(c: char): char {
    if 'A' <= c <= 'Z' then (c as int + 32) as char else c
  }

  function ToUpper(s: string): string {
    seq(|s|, i requires 0 <= i < |s| => UpperChar(s[i]))
  }

  function ToLower(s: string): string {
    seq(|s|, i requires 0 <= i < |s| => LowerChar(s[i]))
  }

  function DropLastReturn(s: string): string {
    if s != "" && s[|s| - 1] == '\r' then s[..|s| - 1] else s
  }

  /** `text.split(/\r?\n/)`. */
  function SplitLines(text: string): seq<string>
    decreases |text|
  {
    var i := Find(text, '\n');
    FindInBounds(text, '\n');
    if i == |text| then [text] else [DropLastReturn(text[..i])] + SplitLines(text[i + 1..])
  }

  lemma {:induction false} FindInBounds(s: string, sep: char)
    ensures Find(s, sep) <= |s|
    ensures Find(s, sep) < |s| ==> s[Find(s, sep)] == sep
  {
    if s != "" && s[0] != sep { FindInBounds(s[1..], sep); }
  }

  /** `Number.parseInt(s, 10)`: an optional sign and the longest run of digits, if any. */
  function DigitPrefix(s: string): (p: string)
    ensures AllDigits(p)
  {
    if s == "" || !IsDigit(s[0]) then "" else [s[0]] + DigitPrefix(s[1..])
  }

  function ParseInt(s: string): Option<int> {
    var negative := s != "" && s[0] == '-';
    var body := if s != "" && (s[0] == '-' || s[0] == '+') then s[1..] else s;
    var digits := DigitPrefix(body);
    if digits == "" then None else Some(if negative then 0 - Value(digits) else Value(digits))
  }

  /** Split at every `|` or `;`. */
  function SplitCodes(s: string, current: string): seq<string> {
    if s == "" then [current]
    else if s[0] == '|' || s[0] == ';' then [current] + SplitCodes(s[1..], "")
    else SplitCodes(s[1..], current + [s[0]])
  }

  function TrimmedNonEmpty(parts: seq<string>): seq<string> {
    if parts == [] then []
    else (if Trim(parts[0]) == "" then [] else [Trim(parts[0])]) + TrimmedNonEmpty(parts[1..])
  }

  // ----- reading the file -----

  function StripBom(text: string): string {
    if text != "" && text[0] == '\U{FEFF}' then text[1..] else text
  }

  function NonBlank(lines: seq<string>): seq<string> {
    if lines == [] then []
    else (if TrimEnd(lines[0]) == "" then [] else [TrimEnd(lines[0])]) + NonBlank(lines[1..])
  }

  function HeaderCells(line: string): seq<string> {
    var raw := ReadLine(line);
    seq(|raw|, i requires 0 <= i < |raw| => ToLower(Trim(raw[i])))
  }

  /** The first n columns of a data line, by header name; a repeated header keeps the last. */
  function CellsOf(headers: seq<string>, values: seq<string>, n: nat): Cells
    requires n <= |headers|
  {
    if n == 0 then map[]
    else CellsOf(headers, values, n - 1)[headers[n - 1] := if n - 1 < |values| then values[n - 1] else ""]
  }

  function RowAt(headers: seq<string>, lines: seq<string>, i: nat): ParsedRow
    requires i < |lines|
  {
    ParsedRow(i + 1, CellsOf(headers, ReadLine(lines[i]), |headers|))
  }

  function ReadCsv(csvText: string): ParsedCsv {
    var lines := NonBlank(SplitLines(StripBom(csvText)));
    if lines == [] then ParsedCsv([], [])
    else
      var headers := HeaderCells(lines[0]);
      ParsedCsv(headers, seq(|lines| - 1, i requires 0 <= i < |lines| - 1 => RowAt(headers, lines, i + 1)))
  }

  method ParseInventoryCsv(csvText: string) returns (parsed: ParsedCsv)
    ensures parsed == ReadCsv(csvText)
  {
    var lines := NonBlank(SplitLines(StripBom(csvText)));
    if lines == [] {
      return ParsedCsv([], []);
    }
    var headerCells := HeaderCells(lines[0]);
    var rows: seq<ParsedRow> := [];
    for i := 1 to |lines|
      invariant |rows| == i - 1
      invariant forall k :: 0 <= k < |rows| ==> rows[k] == RowAt(headerCells, lines, k + 1)
    {
      var cells := ParseDataLine(headerCells, lines[i]);
      rows := rows + [ParsedRow(i + 1, cells)];
    }
    parsed := ParsedCsv(headerCells, rows);
  }

  method ParseDataLine(headerCells: seq<string>, line: string) returns (cells: Cells)
    ensures cells == CellsOf(headerCells, ReadLine(line), |headerCells|)
  {
    var values := ParseCsvLine(line);
    cells := map[];
    for c := 0 to |headerCells|
      invariant cells == CellsOf(headerCells, values, c)
    {
      cells := cells[headerCells[c] := if c < |values| then values[c] else ""];
    }
  }

  // ----- column mapping -----

  type Mapping = seq<(string, string)>

  function Normal(s: string): string {
    ToLower(Trim(s))
  }

  function Mapped(cells: Cells, mapping: Mapping): Cells {
    if mapping == [] then cells
    else
      var (source, target) := mapping[|mapping| - 1];
      var before := Mapped(cells, mapping[..|mapping| - 1]);
      if Normal(source) in cells then before[Normal(target) := cells[Normal(source)]] else before
  }

  method ApplyColumnMapping(cells: Cells, mapping: Mapping) returns (mapped: Cells)
    ensures mapped == Mapped(cells, mapping)
  {
    mapped := cells;
    for i := 0 to |mapping|
      invariant mapped == Mapped(cells, mapping[..i])
    {
      var (source, target) := mapping[i];
      assert mapping[..i + 1][..i] == mapping[..i];
      if Normal(source) in cells {
        mapped := mapped[Normal(target) := cells[Normal(source)]];
      }
    }
    assert mapping[..|mapping|] == mapping;
  }

  // ----- validating a row -----

  function Field(cells: Cells, name: string): string {
    if name in cells then Trim(cells[name]) else ""
  }

  function OrNull(s: string): Option<string> {
    if s == "" then None else Some(s)
  }

  function OrDefault(s: string, default: string): string {
    if s == "" then default else s
  }

  /** A row's fields after trimming, defaulting and upper-casing, before any check. */
  function Draft(cells: Cells): RowDto {
    RowDto(
      Field(cells, "property_code"), Field(cells, "property_name"),
      ToUpper(Field(cells, "property_type")), Field(cells, "address_line1"), Field(cells, "city"),
      OrNull(Field(cells, "region")), OrNull(Field(cells, "postal_code")),
      ToUpper(OrDefault(Field(cells, "country_code"), "US")), Field(cells, "time_zone"),
      ToUpper(OrDefault(Field(cells, "default_currency"), "USD")),
      OrNull(Field(cells, "building_code")), Field(cells, "unit_code"), Field(cells, "unit_name"),
      ToUpper(Field(cells, "unit_type")), ToUpper(Field(cells, "allocation_mode")), 1,
      OrNull(Field(cells, "bed_code")), OrNull(Field(cells, "bed_label")),
      TrimmedNonEmpty(SplitCodes(Field(cells, "amenity_codes"), "")))
  }

  /** The checks in the order they are made; the first that fails decides the error. */
  function CheckDraft(d: RowDto, capacityRaw: string): Result<RowDto, (ErrorCode, string)> {
    if d.propertyCode == "" then Err((RequiredField, "property_code"))
    else if d.propertyName == "" then Err((RequiredField, "property_name"))
    else if d.propertyType !in PROPERTY_TYPES then Err((InvalidEnum, "property_type"))
    else if d.addressLine1 == "" then Err((RequiredField, "address_line1"))
    else if d.city == "" then Err((RequiredField, "city"))
    else if |d.countryCode| != 2 then Err((InvalidFormat, "country_code"))
    else if d.timeZone == "" then Err((RequiredField, "time_zone"))
    else if |d.defaultCurrency| != 3 then Err((InvalidFormat, "default_currency"))
    else if d.unitCode == "" then Err((RequiredField, "unit_code"))
    else if d.unitName == "" then Err((RequiredField, "unit_name"))
    else if d.unitType !in UNIT_TYPES then Err((InvalidEnum, "unit_type"))
    else if d.allocationMode !in ALLOCATION_MODES then Err((InvalidEnum, "allocation_mode"))
    else if capacityRaw != "" && (ParseInt(capacityRaw).None? || ParseInt(capacityRaw).value < 1) then
      Err((InvalidFormat, "capacity"))
    else if (d.allocationMode == "BED" || d.allocationMode == "CAPACITY") && capacityRaw == "" then
      Err((RequiredField, "capacity"))
    else if d.allocationMode == "BED" && d.bedCode.None? then Err((RequiredField, "bed_code"))
    else if d.allocationMode == "BED" && d.bedLabel.None? then Err((RequiredField, "bed_label"))
    else if d.allocationMode != "BED" && (d.bedCode.Some? || d.bedLabel.Some?) then
      Err((InvalidCombination, "bed_code"))
    else Ok(d.(capacity := if capacityRaw == "" then 1 else ParseInt(capacityRaw).value))
  }

  function ValidateRow(rowNumber: nat, rawCells: Cells, mapping: Mapping): RowResult {
    var cells := Mapped(rawCells, mapping);
    match CheckDraft(Draft(cells), Field(cells, "capacity"))
    case Err((code, field)) => Rejected(rowNumber, code, field, cells)
    case Ok(dto) => Accepted(rowNumber, dto, cells)
  }

  function ValidateCsv(csvText: string, mapping: Mapping): seq<RowResult> {
    var parsed := ReadCsv(csvText);
    if parsed.headers == [] then [Rejected(1, EmptyCsv, "", map[])]
    else if parsed.rows == [] then [Rejected(2, EmptyCsv, "", map[])]
    else seq(|parsed.rows|, i requires 0 <= i < |parsed.rows| =>
               ValidateRow(parsed.rows[i].rowNumber, parsed.rows[i].cells, mapping))
  }

  // ----- what acceptance means -----

  ghost predicate WellFormed(d: RowDto) {
    && d.propertyCode != "" && d.propertyName != "" && d.addressLine1 != "" && d.city != ""
    && d.timeZone != "" && d.unitCode != "" && d.unitName != ""
    && d.propertyType in PROPERTY_TYPES && d.unitType in UNIT_TYPES && d.allocationMode in ALLOCATION_MODES
    && |d.countryCode| == 2 && |d.defaultCurrency| == 3 && d.capacity >= 1
    && (d.bedCode.Some? <==> d.allocationMode == "BED") && (d.bedLabel.Some? <==> d.allocationMode == "BED")
  }

  function CapacityOf(raw: string): Option<int> {
    if raw == "" then Some(1) else ParseInt(raw)
  }

  lemma CheckPassesIff(d: RowDto, raw: string, number: Option<int>)
    requires number == CapacityOf(raw)
    ensures var r := CheckDraft(d, raw);
            && (r.Ok? <==> && number.Some? && WellFormed(d.(capacity := number.value))
                           && (raw == "" ==> d.allocationMode != "BED" && d.allocationMode != "CAPACITY"))
            && (r.Ok? ==> r.value == d.(capacity := number.value))
  {
    if CheckDraft(d, raw).Ok? {
      assert WellFormed(d.(capacity := number.value));
    }
  }

  /** A row is accepted exactly when its trimmed and defaulted fields are well formed and its
      capacity is a number, or left out for a whole unit; it is accepted as just those fields. */
  lemma AcceptedIffWellFormed(rowNumber: nat, rawCells: Cells, mapping: Mapping)
    ensures var cells := Mapped(rawCells, mapping);
            var number := CapacityOf(Field(cells, "capacity"));
            var r := ValidateRow(rowNumber, rawCells, mapping);
            && (r.Accepted? <==> && number.Some? && WellFormed(Draft(cells).(capacity := number.value))
                                 && (Field(cells, "capacity") == "" ==>
                                       Draft(cells).allocationMode != "BED" && Draft(cells).allocationMode != "CAPACITY"))
            && (r.Accepted? ==> r.dto == Draft(cells).(capacity := number.value))
  {
    var cells := Mapped(rawCells, mapping);
    CheckPassesIff(Draft(cells), Field(cells, "capacity"), CapacityOf(Field(cells, "capacity")));
  }

  // ----- line breaks -----

  lemma {:induction false} FindIffAbsent(s: string, sep: char)
    ensures Find(s, sep) == |s| <==> sep !in s
  {
    if s != "" && s[0] != sep {
      FindIffAbsent(s[1..], sep);
      assert s == [s[0]] + s[1..];
    }
  }

  /** Splitting a file into lines leaves a line whole exactly when it has no line feed. */
  lemma SplitKeepsLineIff(s: string)
    ensures SplitLines(s) == [s] <==> '\n' !in s
  {
    FindIffAbsent(s, '\n');
    FindInBounds(s, '\n');
    var i := Find(s, '\n');
    if i < |s| { assert |SplitLines(s[i + 1..])| >= 1; }
  }

  lemma {:induction false} DoublingKeeps(value: string, c: char)
    ensures c in DoubleQuotes(value) <==> c in value
  {
    if value != "" {
      DoublingKeeps(value[1..], c);
      assert value == [value[0]] + value[1..];
    }
  }

  predicate SomeCellHas(cells: seq<string>, c: char) {
    exists k :: 0 <= k < |cells| && c in cells[k]
  }

  lemma {:induction false} PrintedFeed(cells: seq<string>)
    ensures '\n' in PrintLine(cells) <==> SomeCellHas(cells, '\n')
  {
    if cells != [] {
      DoublingKeeps(cells[0], '\n');
      assert '\n' in CsvEscape(cells[0]) <==> '\n' in cells[0];
      PrintedFeed(cells[1..]);
      assert cells == [cells[0]] + cells[1..];
      assert SomeCellHas(cells, '\n') <==> '\n' in cells[0] || SomeCellHas(cells[1..], '\n') by {
        if SomeCellHas(cells[1..], '\n') {
          var k :| 0 <= k < |cells[1..]| && '\n' in cells[1..][k];
          assert '\n' in cells[k + 1];
        }
      }
      if |cells| > 1 {
        assert PrintLine(cells) == CsvEscape(cells[0]) + "," + PrintLine(cells[1..]) by { assert EscapeAll(cells)[1..] == EscapeAll(cells[1..]); }
      }
    }
  }

  /** A printed line always reads back as a line; read as part of a file, which is cut into lines
      before quotes are looked at, it survives exactly when no cell has a line feed. */
  lemma PrintedLineSurvivesIff(cells: seq<string>)
    requires cells != []
    ensures ReadLine(PrintLine(cells)) == cells
    ensures SplitLines(PrintLine(cells)) == [PrintLine(cells)] <==> !SomeCellHas(cells, '\n')
  {
    ReadInvertsPrint(cells);
    SplitKeepsLineIff(PrintLine(cells));
    PrintedFeed(cells);
  }

  // ----- what a cell comes to -----

  /** White space of ECMAScript: tab to carriage return, space, the Unicode space separators, the line
      and paragraph separators, and the byte-order mark. */
  lemma SpacesAre(c: char)
    ensures IsSpace(c) <==> || 9 <= c as int <= 13 || c as int in {32, 160, 0x1680, 0x2028, 0x2029, 0x202F, 0x205F, 0x3000, 0xFEFF}
                            || 0x2000 <= c as int <= 0x200A
  {
  }

  lemma {:induction false} TrimStartCuts(s: string) returns (n: nat)
    ensures n <= |s| && TrimStart(s) == s[n..] && (forall i :: 0 <= i < n ==> IsSpace(s[i])) && (n < |s| ==> !IsSpace(s[n]))
  {
    if s != "" && IsSpace(s[0]) {
      n := TrimStartCuts(s[1..]);
      n := n + 1;
      assert s[n..] == s[1..][n - 1..];
    } else {
      n := 0;
    }
  }

  lemma {:induction false} TrimEndCuts(s: string) returns (n: nat)
    ensures n <= |s| && TrimEnd(s) == s[..n] && (forall i :: n <= i < |s| ==> IsSpace(s[i])) && (n > 0 ==> !IsSpace(s[n - 1]))
  {
    if s != "" && IsSpace(s[|s| - 1]) {
      n := TrimEndCuts(s[..|s| - 1]);
      assert s[..n] == s[..|s| - 1][..n];
    } else {
      n := |s|;
    }
  }

  /** Trimming cuts exactly the white space at both ends. */
  lemma TrimCuts(s: string) returns (a: nat, b: nat)
    ensures a <= b <= |s| && Trim(s) == s[a..b]
    ensures forall i :: 0 <= i < a || b <= i < |s| ==> IsSpace(s[i])
    ensures a < b ==> !IsSpace(s[a]) && !IsSpace(s[b - 1])
  {
    a := TrimStartCuts(s);
    var n := TrimEndCuts(s[a..]);
    b := a + n;
    assert s[a..][..n] == s[a..b];
    forall i | b <= i < |s| ensures IsSpace(s[i]) { assert s[i] == s[a..][i - a]; }
  }

  /** Upper and lower case exchange the 26 letters from code 97 with those from code 65, and leave every
      other character alone. */
  lemma CasesExchangeLetters(c: char, k: nat)
    ensures k < 26 ==> UpperChar((97 + k) as char) == (65 + k) as char && LowerChar((65 + k) as char) == (97 + k) as char
    ensures !(97 <= c as int < 123) ==> UpperChar(c) == c
    ensures !(65 <= c as int < 91) ==> LowerChar(c) == c
  {
  }

  // ----- column mapping -----

  /** The last pair of the mapping whose source column is there decides what its target column holds. */
  lemma {:induction false} LastSourceWins(cells: Cells, mapping: Mapping, i: nat)
    requires i < |mapping| && ToLower(Trim(mapping[i].0)) in cells
    requires forall j :: i < j < |mapping| && ToLower(Trim(mapping[j].1)) == ToLower(Trim(mapping[i].1)) ==> ToLower(Trim(mapping[j].0)) !in cells
    ensures ToLower(Trim(mapping[i].1)) in Mapped(cells, mapping)
    ensures Mapped(cells, mapping)[ToLower(Trim(mapping[i].1))] == cells[ToLower(Trim(mapping[i].0))]
    decreases |mapping|
  {
    var n := |mapping| - 1;
    MappedStep(cells, mapping);
    if i < n {
      LastSourceWins(cells, mapping[..n], i);
    }
  }

  lemma MappedStep(cells: Cells, mapping: Mapping)
    requires mapping != []
    ensures var n := |mapping| - 1;
            var before := Mapped(cells, mapping[..n]);
            Mapped(cells, mapping)
            == if ToLower(Trim(mapping[n].0)) in cells then before[ToLower(Trim(mapping[n].1)) := cells[ToLower(Trim(mapping[n].0))]] else before
  {
  }

  /** A column that is no target, or only of sources that are not there, stays as it was. */
  lemma {:induction false} OtherColumnsStay(cells: Cells, mapping: Mapping, column: string)
    requires forall j :: 0 <= j < |mapping| && ToLower(Trim(mapping[j].1)) == column ==> ToLower(Trim(mapping[j].0)) !in cells
    ensures column in Mapped(cells, mapping) <==> column in cells
    ensures column in cells ==> Mapped(cells, mapping)[column] == cells[column]
  {
    if mapping != [] {
      OtherColumnsStay(cells, mapping[..|mapping| - 1], column);
    }
  }

  // ----- amenity codes -----

  /** Parts with a separator, `|` or `;`, between any two. */
  function JoinParts(parts: seq<string>, separators: string): string
    requires |separators| + 1 == |parts|
  {
    if |parts| == 1 then parts[0] else parts[0] + [separators[0]] + JoinParts(parts[1..], separators[1..])
  }

  predicate OnePart(s: string) {
    '|' !in s && ';' !in s
  }

  lemma {:induction false} PartIsRead(part: string, rest: string, current: string)
    requires OnePart(part)
    ensures rest != "" && (rest[0] == '|' || rest[0] == ';') ==>
              SplitCodes(part + rest, current) == [current + part] + SplitCodes(rest[1..], "")
    ensures rest == "" ==> SplitCodes(part + rest, current) == [current + part]
  {
    if part == "" {
      assert part + rest == rest && current + part == current;
    } else {
      assert part + rest == [part[0]] + (part[1..] + rest) && (part + rest)[1..] == part[1..] + rest;
      assert current + part == current + [part[0]] + part[1..];
      PartIsRead(part[1..], rest, current + [part[0]]);
    }
  }

  lemma {:induction false} PartsAreRead(parts: seq<string>, separators: string)
    requires |separators| + 1 == |parts| && (forall i :: 0 <= i < |parts| ==> OnePart(parts[i]))
    requires forall i :: 0 <= i < |separators| ==> separators[i] == '|' || separators[i] == ';'
    ensures SplitCodes(JoinParts(parts, separators), "") == parts
  {
    if |parts| == 1 {
      PartIsRead(parts[0], "", "");
      assert parts[0] + "" == parts[0] && "" + parts[0] == parts[0] && parts == [parts[0]];
    } else {
      var rest := [separators[0]] + JoinParts(parts[1..], separators[1..]);
      PartIsRead(parts[0], rest, "");
      PartsAreRead(parts[1..], separators[1..]);
      assert rest[1..] == JoinParts(parts[1..], separators[1..]) && "" + parts[0] == parts[0];
      assert parts[0] + [separators[0]] + JoinParts(parts[1..], separators[1..]) == parts[0] + rest;
      assert parts == [parts[0]] + parts[1..];
    }
  }

  lemma {:induction false} TrimmedAre(parts: seq<string>)
    ensures forall c :: c in TrimmedNonEmpty(parts) <==> c != "" && exists i :: 0 <= i < |parts| && Trim(parts[i]) == c
    ensures (forall i :: 0 <= i < |parts| ==> parts[i] != "" && Trim(parts[i]) == parts[i]) ==> TrimmedNonEmpty(parts) == parts
  {
    if parts != [] {
      TrimmedAre(parts[1..]);
      forall c ensures c in TrimmedNonEmpty(parts) <==> c != "" && exists i :: 0 <= i < |parts| && Trim(parts[i]) == c {
        if i :| 0 <= i < |parts| && Trim(parts[i]) == c { assert i > 0 ==> Trim(parts[1..][i - 1]) == c; }
        if i :| 0 <= i < |parts[1..]| && Trim(parts[1..][i]) == c { assert Trim(parts[i + 1]) == c; }
      }
      if forall i :: 0 <= i < |parts| ==> parts[i] != "" && Trim(parts[i]) == parts[i] {
        assert Trim(parts[0]) == parts[0];
        assert parts == [parts[0]] + parts[1..];
      }
    }
  }

  /** A row's amenity codes are the trimmed parts of its cell between `|` and `;`, without blank ones; codes
      written there one by one are read back as they are. */
  lemma AmenityCodesAreRead(cells: Cells, parts: seq<string>, separators: string)
    requires |separators| + 1 == |parts| && (forall i :: 0 <= i < |parts| ==> OnePart(parts[i]))
    requires forall i :: 0 <= i < |separators| ==> separators[i] == '|' || separators[i] == ';'
    requires "amenity_codes" in cells && Trim(cells["amenity_codes"]) == JoinParts(parts, separators)
    ensures forall c :: c in Draft(cells).amenityCodes <==> c != "" && exists i :: 0 <= i < |parts| && Trim(parts[i]) == c
    ensures (forall i :: 0 <= i < |parts| ==> parts[i] != "" && Trim(parts[i]) == parts[i]) ==> Draft(cells).amenityCodes == parts
  {
    PartsAreRead(parts, separators);
    TrimmedAre(parts);
  }

  // ----- defaults and errors -----

  /** Country and currency have defaults, taken also where the cell is blank. */
  lemma BlankCellsHaveDefaults(cells: Cells)
    ensures "country_code" !in cells || Trim(cells["country_code"]) == "" ==> Draft(cells).countryCode == "US"
    ensures "default_currency" !in cells || Trim(cells["default_currency"]) == "" ==> Draft(cells).defaultCurrency == "USD"
    ensures "amenity_codes" !in cells ==> Draft(cells).amenityCodes == []
  {
    assert ToUpper("US") == "US" && ToUpper("USD") == "USD";
    assert Trim("") == "" && SplitCodes("", "") == [""] && [""][1..] == [];
  }

  const ERRORS := [
    (RequiredField, "property_code"), (RequiredField, "property_name"), (InvalidEnum, "property_type"),
    (RequiredField, "address_line1"), (RequiredField, "city"), (InvalidFormat, "country_code"), (RequiredField, "time_zone"),
    (InvalidFormat, "default_currency"), (RequiredField, "unit_code"), (RequiredField, "unit_name"), (InvalidEnum, "unit_type"),
    (InvalidEnum, "allocation_mode"), (InvalidFormat, "capacity"), (RequiredField, "capacity"), (RequiredField, "bed_code"),
    (RequiredField, "bed_label"), (InvalidCombination, "bed_code")]

  /** What each of them says of a row. */
  predicate Wrong(d: RowDto, capacityRaw: string, error: nat) {
    match error
    case 0 => d.propertyCode == ""
    case 1 => d.propertyName == ""
    case 2 => d.propertyType !in ["APARTMENT", "BOARDING_HOUSE", "MIXED", "OTHER"]
    case 3 => d.addressLine1 == ""
    case 4 => d.city == ""
    case 5 => |d.countryCode| != 2
    case 6 => d.timeZone == ""
    case 7 => |d.defaultCurrency| != 3
    case 8 => d.unitCode == ""
    case 9 => d.unitName == ""
    case 10 => d.unitType !in ["APARTMENT", "STUDIO", "PRIVATE_ROOM", "SHARED_ROOM"]
    case 11 => d.allocationMode !in ["WHOLE_UNIT", "BED", "CAPACITY"]
    case 12 => capacityRaw != "" && (ParseInt(capacityRaw).None? || ParseInt(capacityRaw).value < 1)
    case 13 => capacityRaw == "" && (d.allocationMode == "BED" || d.allocationMode == "CAPACITY")
    case 14 => d.bedCode.None? && d.allocationMode == "BED"
    case 15 => d.bedLabel.None? && d.allocationMode == "BED"
    case 16 => (d.bedCode.Some? || d.bedLabel.Some?) && d.allocationMode != "BED"
    case _ => false
  }

  function FirstWrong(d: RowDto, capacityRaw: string, from: nat): (k: nat)
    requires from <= 17
    ensures from <= k <= 17 && (k < 17 ==> Wrong(d, capacityRaw, k)) && forall j :: from <= j < k ==> !Wrong(d, capacityRaw, j)
    decreases 17 - from
  {
    if from == 17 || Wrong(d, capacityRaw, from) then from else FirstWrong(d, capacityRaw, from + 1)
  }

  /** A row is rejected exactly when something is wrong with it, and it is told the first thing that is. */
  lemma FirstErrorIsTold(d: RowDto, capacityRaw: string)
    ensures var k := FirstWrong(d, capacityRaw, 0);
            if k == 17 then CheckDraft(d, capacityRaw).Ok? else CheckDraft(d, capacityRaw) == Err(ERRORS[k])
  {
    var k := FirstWrong(d, capacityRaw, 0);
    assert PROPERTY_TYPES == ["APARTMENT", "BOARDING_HOUSE", "MIXED", "OTHER"];
    assert UNIT_TYPES == ["APARTMENT", "STUDIO", "PRIVATE_ROOM", "SHARED_ROOM"];
    assert ALLOCATION_MODES == ["WHOLE_UNIT", "BED", "CAPACITY"];
    assert (k > 0 ==> !Wrong(d, capacityRaw, 0)) && (k > 1 ==> !Wrong(d, capacityRaw, 1)) && (k > 2 ==> !Wrong(d, capacityRaw, 2));
    assert (k > 3 ==> !Wrong(d, capacityRaw, 3)) && (k > 4 ==> !Wrong(d, capacityRaw, 4)) && (k > 5 ==> !Wrong(d, capacityRaw, 5));
    assert (k > 6 ==> !Wrong(d, capacityRaw, 6)) && (k > 7 ==> !Wrong(d, capacityRaw, 7)) && (k > 8 ==> !Wrong(d, capacityRaw, 8));
    assert (k > 9 ==> !Wrong(d, capacityRaw, 9)) && (k > 10 ==> !Wrong(d, capacityRaw, 10)) && (k > 11 ==> !Wrong(d, capacityRaw, 11));
    assert (k > 12 ==> !Wrong(d, capacityRaw, 12)) && (k > 13 ==> !Wrong(d, capacityRaw, 13)) && (k > 14 ==> !Wrong(d, capacityRaw, 14));
    assert (k > 15 ==> !Wrong(d, capacityRaw, 15)) && (k > 16 ==> !Wrong(d, capacityRaw, 16));
    if k == 17 {
      assert d.propertyType in PROPERTY_TYPES && d.unitType in UNIT_TYPES && d.allocationMode in ALLOCATION_MODES;
      assert capacityRaw == "" || (ParseInt(capacityRaw).Some? && ParseInt(capacityRaw).value >= 1);
      assert d.allocationMode == "BED" ==> capacityRaw != "" && d.bedCode.Some? && d.bedLabel.Some?;
      assert d.allocationMode != "BED" ==> d.bedCode.None? && d.bedLabel.None?;
      assert d.allocationMode == "CAPACITY" ==> capacityRaw != "";
      assert d.propertyCode != "" && d.propertyName != "" && d.addressLine1 != "" && d.city != "";
      assert |d.countryCode| == 2 && d.timeZone != "" && |d.defaultCurrency| == 3 && d.unitCode != "" && d.unitName != "";
    }
  }

  // ----- reading a file -----

  /** A byte-order mark at the start is dropped, and nothing else. */
  lemma MarkIsDropped(text: string)
    ensures StripBom("\U{FEFF}" + text) == text
    ensures text == "" || text[0] as int != 0xFEFF ==> StripBom(text) == text
  {
    assert ("\U{FEFF}" + text)[1..] == text;
  }

  /** A line ends at a line feed, with or without a carriage return before it. */
  lemma LineIsCut(line: string, rest: string)
    requires '\n' !in line && (line != "" ==> line[|line| - 1] != '\r')
    ensures SplitLines(line + "\n" + rest) == [line] + SplitLines(rest)
    ensures SplitLines(line + "\r\n" + rest) == [line] + SplitLines(rest)
  {
    CutAtFeed(line, rest);
    CutAtFeed(line + "\r", rest);
    assert line + "\r" + "\n" + rest == line + "\r\n" + rest;
    assert (line + "\r")[..|line|] == line;
  }

  lemma CutAtFeed(line: string, rest: string)
    requires '\n' !in line
    ensures SplitLines(line + "\n" + rest) == [DropLastReturn(line)] + SplitLines(rest)
  {
    var text := line + "\n" + rest;
    FindAfter(line, rest, '\n');
    assert line + ['\n'] + rest == text;
    assert text[..|line|] == line && text[|line| + 1..] == rest;
  }

  /** Lines of white space are left out, and white space at the end of a line is cut. */
  lemma {:induction false} LinesAreKept(a: seq<string>, line: string, b: seq<string>)
    ensures NonBlank(a + [line] + b) == NonBlank(a) + (if TrimEnd(line) == "" then [] else [TrimEnd(line)]) + NonBlank(b)
  {
    if a == [] {
      assert a + [line] + b == [line] + b && ([line] + b)[1..] == b;
    } else {
      LinesAreKept(a[1..], line, b);
      assert (a + [line] + b)[0] == a[0] && (a + [line] + b)[1..] == a[1..] + [line] + b;
      assert NonBlank(a + [line] + b) == (if TrimEnd(a[0]) == "" then [] else [TrimEnd(a[0])]) + NonBlank(a[1..] + [line] + b);
    }
  }

  /** A cell is the value in the last column with its header, blank where the line is too short. */
  lemma {:induction false} LastColumnCounts(headers: seq<string>, values: seq<string>, n: nat, i: nat)
    requires i < n <= |headers| && forall j :: i < j < n ==> headers[j] != headers[i]
    ensures headers[i] in CellsOf(headers, values, n)
    ensures CellsOf(headers, values, n)[headers[i]] == if i < |values| then values[i] else ""
  {
    if i < n - 1 { LastColumnCounts(headers, values, n - 1, i); }
  }

  lemma {:induction false} DigitsAreTaken(digits: string, rest: string)
    requires AllDigits(digits) && (rest != "" ==> !IsDigit(rest[0]))
    ensures DigitPrefix(digits + rest) == digits
  {
    if digits == "" {
      assert digits + rest == rest;
    } else {
      DigitsAreTaken(digits[1..], rest);
      assert (digits + rest)[1..] == digits[1..] + rest;
    }
  }

  lemma UnsignedIsRead(n: nat, rest: string)
    requires rest != "" ==> !IsDigit(rest[0])
    ensures DigitPrefix(Digits(n) + rest) == Digits(n) && Value(Digits(n)) == n && (Digits(n) + rest)[0] == Digits(n)[0]
  {
    ValueOfDigits(n);
    DigitsAreTaken(Digits(n), rest);
  }

  /** A number is read from its digits, signed or not, whatever follows them that is no digit. */
  lemma NumberIsRead(n: nat, rest: string)
    requires rest != "" ==> !IsDigit(rest[0])
    ensures ParseInt(Digits(n) + rest) == Some(n)
    ensures ParseInt("+" + (Digits(n) + rest)) == Some(n)
    ensures ParseInt("-" + (Digits(n) + rest)).Some? && ParseInt("-" + (Digits(n) + rest)).value + n == 0
  {
    var text := Digits(n) + rest;
    UnsignedIsRead(n, rest);
    assert IsDigit(text[0]);
    assert ("+" + text)[1..] == text && ("-" + text)[1..] == text;
  }

  /** And nothing else is a number. */
  lemma OnlyNumbersAreRead(s: string)
    ensures ParseInt(s).Some? <==> (s != "" && IsDigit(s[0])) || (|s| > 1 && (s[0] == '-' || s[0] == '+') && IsDigit(s[1]))
  {
  }

  /** A file without a line that is not blank, or with none behind its header, is one rejected row. */
  lemma EmptyFilesAreRejected(csvText: string, mapping: Mapping)
    ensures NonBlank(SplitLines(StripBom(csvText))) == [] ==> ValidateCsv(csvText, mapping) == [Rejected(1, EmptyCsv, "", map[])]
    ensures |NonBlank(SplitLines(StripBom(csvText)))| == 1 && HeaderCells(NonBlank(SplitLines(StripBom(csvText)))[0]) != [] ==>
              ValidateCsv(csvText, mapping) == [Rejected(2, EmptyCsv, "", map[])]
    ensures |NonBlank(SplitLines(StripBom(csvText)))| > 1 && HeaderCells(NonBlank(SplitLines(StripBom(csvText)))[0]) != [] ==>
              |ValidateCsv(csvText, mapping)| == |NonBlank(SplitLines(StripBom(csvText)))| - 1
  {
  }
}
