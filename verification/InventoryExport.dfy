/** Printing the inventory as CSV (export.service.ts) and reading it back through the validator.

    The header line is followed by one line per unit, or one per bed where a unit is let by the bed
    and has beds. A cell that holds a comma, a quote or a line feed is put in quotes, and every cell
    is read back trimmed, so what comes back is what was printed exactly for the texts that are
    trimmed already and hold no line feed. */
module InventoryExport {
  import opened Prelude
  import opened Decimal
  import opened CsvLine
  import opened InventoryRules

  datatype Property = Property(
    code: string, name: string, propertyType: string, addressLine1: string, city: string,
    region: Option<string>, postalCode: Option<string>, countryCode: string, timeZone: string,
    defaultCurrency: string)

  datatype Bed = Bed(code: string, bedLabel: string)

  datatype Unit = Unit(
    property: Property, building: Option<string>, code: string, name: string, unitType: string,
    allocationMode: string, capacity: nat, beds: seq<Bed>)

  function OrEmpty(s: Option<string>): string {
    if s.Some? then s.value else ""
  }

  function RowCells(u: Unit, bed: Option<Bed>): seq<string> {
    [u.property.code, u.property.name, u.property.propertyType, u.property.addressLine1,
     u.property.city, OrEmpty(u.property.region), OrEmpty(u.property.postalCode),
     u.property.countryCode, u.property.timeZone, u.property.defaultCurrency, OrEmpty(u.building),
     u.code, u.name, u.unitType, u.allocationMode, Digits(u.capacity),
     if bed.Some? then bed.value.code else "", if bed.Some? then bed.value.bedLabel else "", ""]
  }

  /** A BED unit prints one row per bed; any other unit, and a BED unit without beds, prints one. */
  function BedsOf(u: Unit): seq<Option<Bed>> {
    if u.allocationMode == "BED" && u.beds != [] then seq(|u.beds|, i requires 0 <= i < |u.beds| => Some(u.beds[i]))
    else [None]
  }

  /** What one printed row shows: a unit, and one of its beds if it is let by the bed. */
  type Shown = (Unit, Option<Bed>)

  function ShownOf(u: Unit, beds: seq<Option<Bed>>): seq<Shown> {
    seq(|beds|, i requires 0 <= i < |beds| => (u, beds[i]))
  }

  function AllShown(units: seq<Unit>): seq<Shown> {
    if units == [] then []
    else
      var u := units[|units| - 1];
      AllShown(units[..|units| - 1]) + ShownOf(u, BedsOf(u))
  }

  function Print(shown: seq<Shown>): seq<string> {
    seq(|shown|, i requires 0 <= i < |shown| => PrintLine(RowCells(shown[i].0, shown[i].1)))
  }

  function CsvText(units: seq<Unit>): string {
    Join([Join(HEADERS, ",")] + Print(AllShown(units)), "\n") + "\n"
  }

  method Row(u: Unit, bed: Option<Bed>) returns (line: string)
    ensures line == PrintLine(RowCells(u, bed))
  {
    line := PrintLine(RowCells(u, bed));
  }

  method PushUnit(lines: seq<string>, unit: Unit) returns (longer: seq<string>)
    ensures longer == lines + Print(ShownOf(unit, BedsOf(unit)))
  {
    longer := lines;
    if unit.allocationMode == "BED" && |unit.beds| > 0 {
      for b := 0 to |unit.beds|
        invariant longer == lines + Print(ShownOf(unit, BedsOf(unit)[..b]))
      {
        var line := Row(unit, Some(unit.beds[b]));
        longer := longer + [line];
      }
      assert BedsOf(unit)[..|unit.beds|] == BedsOf(unit);
    } else {
      var line := Row(unit, None);
      longer := longer + [line];
    }
  }

  method PushUnits(header: string, units: seq<Unit>) returns (lines: seq<string>)
    ensures lines == [header] + Print(AllShown(units))
  {
    lines := [header];
    for i := 0 to |units|
      invariant lines == [header] + Print(AllShown(units[..i]))
    {
      PrintUnit(header, units, i);
      lines := PushUnit(lines, units[i]);
    }
    assert units[..|units|] == units;
  }

  method ToCsv(units: seq<Unit>) returns (text: string)
    ensures text == CsvText(units)
  {
    var lines := PushUnits(Join(HEADERS, ","), units);
    text := Join(lines, "\n") + "\n";
  }

  lemma PrintUnit(header: string, units: seq<Unit>, i: nat)
    requires i < |units|
    ensures [header] + Print(AllShown(units[..i + 1])) == [header] + Print(AllShown(units[..i])) + Print(ShownOf(units[i], BedsOf(units[i])))
  {
    var before, more := AllShown(units[..i]), ShownOf(units[i], BedsOf(units[i]));
    assert AllShown(units[..i + 1]) == before + more by { assert units[..i + 1][..i] == units[..i]; }
    PrintMore(before, more);
    ConcatAssociates([header], Print(before), Print(more));
  }

  lemma ConcatAssociates<T>(a: seq<T>, b: seq<T>, c: seq<T>)
    ensures a + (b + c) == a + b + c
  {
  }

  lemma PrintMore(shown: seq<Shown>, more: seq<Shown>)
    ensures Print(shown + more) == Print(shown) + Print(more)
  {
  }

  // ----- which units can make the trip -----

  /** No white space at either end and no line break inside. */
  predicate Printable(s: string) {
    (s == "" || (!IsSpace(s[0]) && !IsSpace(s[|s| - 1]))) && '\n' !in s
  }

  lemma {:induction false} TrimIsShorter(s: string)
    ensures |TrimEnd(s)| <= |s| && |TrimStart(s)| <= |s|
  {
    if s != "" && IsSpace(s[|s| - 1]) { TrimIsShorter(s[..|s| - 1]); }
    if s != "" && IsSpace(s[0]) { TrimIsShorter(s[1..]); }
  }

  /** Printable text is exactly the one-line text that trimming leaves alone. */
  lemma PrintableIff(s: string)
    ensures Printable(s) <==> Trim(s) == s && '\n' !in s
  {
    TrimIsShorter(s);
    TrimIsShorter(TrimStart(s));
    if s != "" && IsSpace(s[0]) {
      TrimIsShorter(s[1..]);
    } else if s != "" && IsSpace(s[|s| - 1]) {
      TrimIsShorter(s[..|s| - 1]);
    }
  }

  predicate Filled(s: string) {
    s != "" && Printable(s)
  }

  predicate FilledOrNull(s: Option<string>) {
    s.Some? ==> Filled(s.value)
  }

  /** The fields of a unit as the importer itself would have stored them. */
  ghost predicate CleanUnit(u: Unit) {
    var p := u.property;
    && Filled(p.code) && Filled(p.name) && Filled(p.addressLine1) && Filled(p.city)
    && FilledOrNull(p.region) && FilledOrNull(p.postalCode) && FilledOrNull(u.building)
    && Filled(p.countryCode) && |p.countryCode| == 2 && ToUpper(p.countryCode) == p.countryCode
    && Filled(p.timeZone)
    && Filled(p.defaultCurrency) && |p.defaultCurrency| == 3 && ToUpper(p.defaultCurrency) == p.defaultCurrency
    && Filled(u.code) && Filled(u.name) && u.capacity >= 1
    && p.propertyType in PROPERTY_TYPES && u.unitType in UNIT_TYPES && u.allocationMode in ALLOCATION_MODES
    && forall i :: 0 <= i < |u.beds| ==> Filled(u.beds[i].code) && Filled(u.beds[i].bedLabel)
  }

  predicate Bedless(u: Unit) {
    u.allocationMode == "BED" && u.beds == []
  }

  /** The row the importer should see for this unit and bed. */
  function DtoOf(u: Unit, bed: Option<Bed>): RowDto {
    var p := u.property;
    RowDto(p.code, p.name, p.propertyType, p.addressLine1, p.city, p.region, p.postalCode,
           p.countryCode, p.timeZone, p.defaultCurrency, u.building, u.code, u.name, u.unitType,
           u.allocationMode, u.capacity,
           if bed.Some? then Some(bed.value.code) else None,
           if bed.Some? then Some(bed.value.bedLabel) else None, [])
  }

  // ----- the header line -----

  predicate PlainChar(c: char) {
    'a' <= c <= 'z' || c == '_' || c == '1'
  }

  predicate Plain(s: string) {
    s != "" && forall i :: 0 <= i < |s| ==> PlainChar(s[i])
  }

  lemma PlainIsUntouched(s: string)
    requires Plain(s)
    ensures Trim(s) == s && ToLower(s) == s && CsvEscape(s) == s && '\n' !in s
  {
    assert !IsSpace(s[0]) && !IsSpace(s[|s| - 1]);
  }

  lemma HeadersArePlain(k: nat)
    requires k < |HEADERS|
    ensures Plain(HEADERS[k])
  {
  }

  lemma HeadersAreDistinct(j: nat, k: nat)
    requires j < k < |HEADERS|
    ensures HEADERS[j] != HEADERS[k]
  {
  }

  // ----- lines survive splitting -----

  predicate OneLine(s: string) {
    '\n' !in s
  }

  predicate SolidLine(s: string) {
    OneLine(s) && s != "" && !IsSpace(s[|s| - 1])
  }

  lemma {:induction false} JoinIsOneLine(parts: seq<string>)
    requires forall i :: 0 <= i < |parts| ==> OneLine(parts[i])
    ensures OneLine(Join(parts, ","))
  {
    if |parts| > 1 {
      JoinIsOneLine(parts[1..]);
    }
  }

  lemma {:induction false} JoinEnds(parts: seq<string>, separator: string)
    requires parts != [] && (|parts| == 1 ==> parts[0] != "") && separator != ""
    ensures var j, last := Join(parts, separator), parts[|parts| - 1];
            j != "" && j[|j| - 1] == if last == "" then separator[|separator| - 1] else last[|last| - 1]
  {
    if |parts| > 1 {
      if |parts| == 2 && parts[1] == "" {
        assert Join(parts[1..], separator) == "";
        assert Join(parts, separator) == parts[0] + separator;
      } else {
        JoinEnds(parts[1..], separator);
        var tail := Join(parts[1..], separator);
        var j := Join(parts, separator);
        assert j[|j| - 1] == tail[|tail| - 1];
      }
    }
  }

  lemma {:induction false} EscapeIsOneLine(value: string)
    requires OneLine(value)
    ensures OneLine(DoubleQuotes(value)) && OneLine(CsvEscape(value))
  {
    if value != "" { EscapeIsOneLine(value[1..]); }
  }

  lemma {:induction false} EscapeAllParts(cells: seq<string>, k: nat)
    requires k < |cells|
    ensures |EscapeAll(cells)| == |cells| && EscapeAll(cells)[k] == CsvEscape(cells[k])
  {
    if k > 0 {
      EscapeAllParts(cells[1..], k - 1);
    } else if |cells| > 1 {
      EscapeAllParts(cells[1..], 0);
    }
  }

  /** A row whose last cell is empty prints as a line that ends in a comma. */
  lemma PrintedRowIsSolid(cells: seq<string>)
    requires |cells| > 1 && cells[|cells| - 1] == ""
    requires forall i :: 0 <= i < |cells| ==> OneLine(cells[i])
    ensures SolidLine(PrintLine(cells))
  {
    forall i | 0 <= i < |cells| ensures |EscapeAll(cells)| == |cells| && EscapeAll(cells)[i] == CsvEscape(cells[i]) && OneLine(EscapeAll(cells)[i]) {
      EscapeAllParts(cells, i);
      EscapeIsOneLine(cells[i]);
    }
    JoinIsOneLine(EscapeAll(cells));
    JoinEnds(EscapeAll(cells), ",");
  }

  lemma {:induction false} PlainListIsPrinted(hs: seq<string>)
    requires forall i :: 0 <= i < |hs| ==> Plain(hs[i])
    ensures EscapeAll(hs) == hs
  {
    if hs != [] {
      PlainIsUntouched(hs[0]);
      PlainListIsPrinted(hs[1..]);
    }
  }

  lemma HeaderLineReads(hs: seq<string>)
    requires hs != [] && forall i :: 0 <= i < |hs| ==> Plain(hs[i])
    ensures HeaderCells(Join(hs, ",")) == hs
  {
    PlainListIsPrinted(hs);
    assert ReadLine(Join(hs, ",")) == hs by { ReadInvertsPrint(hs); }
    forall i | 0 <= i < |hs| ensures Normal(hs[i]) == hs[i] {
      PlainIsUntouched(hs[i]);
    }
  }

  lemma HeaderLineIsSolid(hs: seq<string>)
    requires hs != [] && forall i :: 0 <= i < |hs| ==> Plain(hs[i])
    ensures var line := Join(hs, ","); SolidLine(line) && PlainChar(line[0])
  {
    assert OneLine(Join(hs, ",")) by {
      forall i | 0 <= i < |hs| ensures OneLine(hs[i]) {
        PlainIsUntouched(hs[i]);
      }
      JoinIsOneLine(hs);
    }
    PlainEnds(hs[0]);
    PlainEnds(hs[|hs| - 1]);
    JoinEnds(hs, ",");
    JoinStarts(hs, ",");
  }

  lemma PlainEnds(s: string)
    requires Plain(s)
    ensures s != "" && PlainChar(s[0]) && !IsSpace(s[|s| - 1])
  {
  }

  lemma JoinStarts(parts: seq<string>, separator: string)
    requires parts != [] && parts[0] != ""
    ensures Join(parts, separator) != "" && Join(parts, separator)[0] == parts[0][0]
  {
  }

  lemma {:induction false} FindNewline(a: string, b: string)
    requires OneLine(a)
    ensures Find(a + "\n" + b, '\n') == |a|
  {
    FindAfter(a, b, '\n');
  }

  lemma {:induction false} SplitInvertsJoin(lines: seq<string>)
    requires lines != [] && forall i :: 0 <= i < |lines| ==> SolidLine(lines[i])
    ensures SplitLines(Join(lines, "\n") + "\n") == lines + [""]
  {
    if |lines| == 1 {
      SplitFirst(lines[0], "");
      assert lines[0] + "\n" + "" == Join(lines, "\n") + "\n";
      assert lines == [lines[0]];
    } else {
      var rest := Join(lines[1..], "\n");
      SplitInvertsJoin(lines[1..]);
      SplitFirst(lines[0], rest + "\n");
      ConcatAssociates(lines[0] + "\n", rest, "\n");
      assert lines + [""] == [lines[0]] + (lines[1..] + [""]);
    }
  }

  lemma SplitFirst(line: string, tail: string)
    requires SolidLine(line)
    ensures SplitLines(line + "\n" + tail) == [line] + SplitLines(tail)
  {
    var text := line + "\n" + tail;
    FindNewline(line, tail);
    assert text[..|line|] == line && text[|line| + 1..] == tail;
  }

  lemma {:induction false} SolidLinesAreKept(lines: seq<string>)
    requires forall i :: 0 <= i < |lines| ==> SolidLine(lines[i])
    ensures NonBlank(lines + [""]) == lines
  {
    if lines != [] {
      assert (lines + [""])[1..] == lines[1..] + [""];
      SolidLinesAreKept(lines[1..]);
    } else {
      assert NonBlank([""]) == NonBlank([]);
    }
  }

  lemma PrintedLinesComeBack(lines: seq<string>)
    requires lines != [] && forall i :: 0 <= i < |lines| ==> SolidLine(lines[i])
    requires SolidLine(lines[0]) && PlainChar(lines[0][0])
    ensures NonBlank(SplitLines(StripBom(Join(lines, "\n") + "\n"))) == lines
  {
    var text := Join(lines, "\n") + "\n";
    assert text[0] == lines[0][0];
    assert StripBom(text) == text;
    SplitInvertsJoin(lines);
    SolidLinesAreKept(lines);
  }

  /** A header and solid data lines come back from the file text unchanged. */
  lemma ReadPrintedLines(hs: seq<string>, data: seq<string>)
    requires hs != [] && forall i :: 0 <= i < |hs| ==> Plain(hs[i])
    requires forall i :: 0 <= i < |data| ==> SolidLine(data[i])
    ensures var parsed := ReadCsv(Join([Join(hs, ",")] + data, "\n") + "\n");
            && parsed.headers == hs
            && |parsed.rows| == |data|
            && forall i :: 0 <= i < |data| ==> parsed.rows[i] == ParsedRow(i + 2, CellsOf(hs, ReadLine(data[i]), |hs|))
  {
    var header := Join(hs, ",");
    assert HeaderCells(header) == hs && SolidLine(header) && PlainChar(header[0]) by {
      HeaderLineReads(hs);
      HeaderLineIsSolid(hs);
    }
    ReadLines(header, hs, data);
  }

  lemma ReadLines(header: string, hs: seq<string>, data: seq<string>)
    requires HeaderCells(header) == hs && SolidLine(header) && PlainChar(header[0])
    requires forall i :: 0 <= i < |data| ==> SolidLine(data[i])
    ensures var parsed := ReadCsv(Join([header] + data, "\n") + "\n");
            && parsed.headers == hs
            && |parsed.rows| == |data|
            && forall i :: 0 <= i < |data| ==> parsed.rows[i] == ParsedRow(i + 2, CellsOf(hs, ReadLine(data[i]), |hs|))
  {
    var lines := [header] + data;
    PrintedLinesComeBack(lines);
    ReadOfLines(Join(lines, "\n") + "\n", lines);
    forall i | 0 <= i < |data| ensures RowAt(hs, lines, i + 1) == ParsedRow(i + 2, CellsOf(hs, ReadLine(data[i]), |hs|)) {
      assert lines[i + 1] == data[i];
    }
  }

  lemma ReadOfLines(text: string, lines: seq<string>)
    requires lines != [] && NonBlank(SplitLines(StripBom(text))) == lines
    ensures var parsed := ReadCsv(text);
            && parsed.headers == HeaderCells(lines[0]) && |parsed.rows| == |lines| - 1
            && forall i :: 0 <= i < |parsed.rows| ==> parsed.rows[i] == RowAt(parsed.headers, lines, i + 1)
  {
  }

  // ----- cells come back under their header -----

  lemma {:induction false} CellUnderHeader(headers: seq<string>, values: seq<string>, n: nat, k: nat)
    requires k < n <= |headers| && n <= |values|
    requires forall i, j :: 0 <= i < j < |headers| ==> headers[i] != headers[j]
    ensures headers[k] in CellsOf(headers, values, n) && CellsOf(headers, values, n)[headers[k]] == values[k]
  {
    if k < n - 1 {
      CellUnderHeader(headers, values, n - 1, k);
    }
  }

  lemma FieldUnderHeader(values: seq<string>, k: nat)
    requires k < |HEADERS| == |values|
    ensures Field(CellsOf(HEADERS, values, |HEADERS|), HEADERS[k]) == Trim(values[k])
  {
    forall i, j | 0 <= i < j < |HEADERS| ensures HEADERS[i] != HEADERS[j] {
      HeadersAreDistinct(i, j);
    }
    CellUnderHeader(HEADERS, values, |HEADERS|, k);
  }

  // ----- the round trip -----

  predicate UpperWord(s: string) {
    s != "" && forall i :: 0 <= i < |s| ==> 'A' <= s[i] <= 'Z' || s[i] == '_'
  }

  lemma UpperWordIsUntouched(s: string)
    requires UpperWord(s)
    ensures ToUpper(s) == s && Printable(s)
  {
    assert !IsSpace(s[0]) && !IsSpace(s[|s| - 1]);
  }

  lemma ConstantsAreUpper(s: string)
    requires s in PROPERTY_TYPES || s in UNIT_TYPES || s in ALLOCATION_MODES
    ensures ToUpper(s) == s && Printable(s) && s != ""
  {
    assert UpperWord("APARTMENT") && UpperWord("BOARDING_HOUSE") && UpperWord("MIXED") && UpperWord("OTHER");
    assert UpperWord("STUDIO") && UpperWord("PRIVATE_ROOM") && UpperWord("SHARED_ROOM");
    assert UpperWord("WHOLE_UNIT") && UpperWord("BED") && UpperWord("CAPACITY");
    UpperWordIsUntouched(s);
  }

  lemma DigitsArePrintable(n: nat)
    ensures Printable(Digits(n))
  {
    var d := Digits(n);
    assert IsDigit(d[0]) && IsDigit(d[|d| - 1]);
    assert !IsSpace(d[0]) && !IsSpace(d[|d| - 1]);
    assert forall i :: 0 <= i < |d| ==> IsDigit(d[i]);
  }

  lemma ParseIntOfDigits(n: nat)
    ensures ParseInt(Digits(n)) == Some(n)
  {
    var d := Digits(n);
    assert IsDigit(d[0]);
    WholeDigitPrefix(d);
    ValueOfDigits(n);
  }

  lemma {:induction false} WholeDigitPrefix(d: string)
    requires AllDigits(d)
    ensures DigitPrefix(d) == d
  {
    if d != "" { WholeDigitPrefix(d[1..]); }
  }

  ghost predicate CleanShown(shown: Shown) {
    && CleanUnit(shown.0)
    && (shown.1.Some? ==> shown.0.allocationMode == "BED" && shown.0.beds != []
                           && Filled(shown.1.value.code) && Filled(shown.1.value.bedLabel))
    && (shown.1.None? && shown.0.allocationMode == "BED" ==> Bedless(shown.0))
  }

  lemma CleanCells(shown: Shown, k: nat)
    requires CleanShown(shown) && k < |RowCells(shown.0, shown.1)|
    ensures Printable(RowCells(shown.0, shown.1)[k])
  {
    ConstantsAreUpper(shown.0.property.propertyType);
    ConstantsAreUpper(shown.0.unitType);
    ConstantsAreUpper(shown.0.allocationMode);
    DigitsArePrintable(shown.0.capacity);
  }

  /** The cells hold, under each header, the value printed in that column. */
  ghost predicate Columns(cells: Cells, values: seq<string>) {
    |values| == |HEADERS| && forall k :: 0 <= k < |HEADERS| ==> Field(cells, HEADERS[k]) == values[k]
  }

  lemma ColumnsOfRow(shown: Shown)
    requires CleanShown(shown)
    ensures Columns(CellsOf(HEADERS, RowCells(shown.0, shown.1), |HEADERS|), RowCells(shown.0, shown.1))
  {
    var values := RowCells(shown.0, shown.1);
    forall k | 0 <= k < |HEADERS| ensures Field(CellsOf(HEADERS, values, |HEADERS|), HEADERS[k]) == values[k] {
      FieldUnderHeader(values, k);
      CleanCells(shown, k);
      PrintableIff(values[k]);
    }
  }

  lemma NamedColumns(cells: Cells, v: seq<string>)
    requires Columns(cells, v)
    ensures Field(cells, "property_code") == v[0] && Field(cells, "property_name") == v[1]
    ensures Field(cells, "property_type") == v[2] && Field(cells, "address_line1") == v[3]
    ensures Field(cells, "city") == v[4] && Field(cells, "region") == v[5]
    ensures Field(cells, "postal_code") == v[6] && Field(cells, "country_code") == v[7]
    ensures Field(cells, "time_zone") == v[8] && Field(cells, "default_currency") == v[9]
    ensures Field(cells, "building_code") == v[10] && Field(cells, "unit_code") == v[11]
    ensures Field(cells, "unit_name") == v[12] && Field(cells, "unit_type") == v[13]
    ensures Field(cells, "allocation_mode") == v[14] && Field(cells, "capacity") == v[15]
    ensures Field(cells, "bed_code") == v[16] && Field(cells, "bed_label") == v[17]
    ensures Field(cells, "amenity_codes") == v[18]
  {
    assert HEADERS[0] == "property_code" && HEADERS[1] == "property_name" && HEADERS[2] == "property_type";
    assert HEADERS[3] == "address_line1" && HEADERS[4] == "city" && HEADERS[5] == "region";
    assert HEADERS[6] == "postal_code" && HEADERS[7] == "country_code" && HEADERS[8] == "time_zone";
    assert HEADERS[9] == "default_currency" && HEADERS[10] == "building_code" && HEADERS[11] == "unit_code";
    assert HEADERS[12] == "unit_name" && HEADERS[13] == "unit_type" && HEADERS[14] == "allocation_mode";
    assert HEADERS[15] == "capacity" && HEADERS[16] == "bed_code" && HEADERS[17] == "bed_label";
    assert HEADERS[18] == "amenity_codes";
  }

  /** Draft as a function of the nineteen trimmed columns. */
  function DraftOf(v: seq<string>): RowDto
    requires |v| == |HEADERS|
  {
    RowDto(v[0], v[1], ToUpper(v[2]), v[3], v[4], OrNull(v[5]), OrNull(v[6]), ToUpper(OrDefault(v[7], "US")),
           v[8], ToUpper(OrDefault(v[9], "USD")), OrNull(v[10]), v[11], v[12], ToUpper(v[13]), ToUpper(v[14]), 1,
           OrNull(v[16]), OrNull(v[17]), TrimmedNonEmpty(SplitCodes(v[18], "")))
  }

  lemma DraftReadsColumns(cells: Cells, v: seq<string>)
    requires Columns(cells, v)
    ensures Draft(cells) == DraftOf(v)
  {
    NamedColumns(cells, v);
  }

  lemma DraftOfShown(shown: Shown)
    requires CleanShown(shown)
    ensures DraftOf(RowCells(shown.0, shown.1)) == DtoOf(shown.0, shown.1).(capacity := 1)
  {
    ConstantsAreUpper(shown.0.property.propertyType);
    ConstantsAreUpper(shown.0.unitType);
    ConstantsAreUpper(shown.0.allocationMode);
    assert TrimmedNonEmpty(SplitCodes("", "")) == [];
  }

  lemma DraftOfRow(shown: Shown, cells: Cells)
    requires CleanShown(shown)
    requires Columns(cells, RowCells(shown.0, shown.1))
    ensures Draft(cells) == DtoOf(shown.0, shown.1).(capacity := 1)
    ensures Field(cells, "capacity") == Digits(shown.0.capacity)
  {
    var v := RowCells(shown.0, shown.1);
    NamedColumns(cells, v);
    DraftReadsColumns(cells, v);
    DraftOfShown(shown);
  }

  /** A clean row passes every check, except for the missing bed of a BED unit without beds. */
  lemma CheckOfRow(shown: Shown, d: RowDto)
    requires CleanShown(shown) && d == DtoOf(shown.0, shown.1).(capacity := 1)
    ensures CheckDraft(d, Digits(shown.0.capacity))
         == if Bedless(shown.0) then Err((RequiredField, "bed_code")) else Ok(DtoOf(shown.0, shown.1))
  {
    ParseIntOfDigits(shown.0.capacity);
  }

  /** A printed row validates to the unit and bed it shows, unless it shows a BED unit without a
      bed; that row is refused for its missing bed code. */
  lemma RowRoundTrip(shown: Shown, rowNumber: nat, cells: Cells)
    requires CleanShown(shown) && cells == CellsOf(HEADERS, RowCells(shown.0, shown.1), |HEADERS|)
    ensures ValidateRow(rowNumber, cells, [])
         == if Bedless(shown.0) then Rejected(rowNumber, RequiredField, "bed_code", cells)
            else Accepted(rowNumber, DtoOf(shown.0, shown.1), cells)
  {
    ColumnsOfRow(shown);
    DraftOfRow(shown, cells);
    CheckOfRow(shown, Draft(cells));
  }

  lemma {:induction false} AllShownClean(units: seq<Unit>, i: nat)
    requires forall j :: 0 <= j < |units| ==> CleanUnit(units[j])
    requires i < |AllShown(units)|
    ensures CleanShown(AllShown(units)[i]) && AllShown(units)[i].0 in units
  {
    var u := units[|units| - 1];
    var before := AllShown(units[..|units| - 1]);
    if i < |before| {
      AllShownClean(units[..|units| - 1], i);
    }
  }

  function CellsShown(shown: Shown): Cells {
    CellsOf(HEADERS, RowCells(shown.0, shown.1), |HEADERS|)
  }

  function ResultOf(shown: Shown, rowNumber: nat): RowResult {
    if Bedless(shown.0) then Rejected(rowNumber, RequiredField, "bed_code", CellsShown(shown))
    else Accepted(rowNumber, DtoOf(shown.0, shown.1), CellsShown(shown))
  }

  lemma PrintedRowReads(shown: Shown)
    requires CleanShown(shown)
    ensures var line := PrintLine(RowCells(shown.0, shown.1));
            SolidLine(line) && ReadLine(line) == RowCells(shown.0, shown.1)
  {
    var cells := RowCells(shown.0, shown.1);
    forall k | 0 <= k < |cells| ensures OneLine(cells[k]) {
      CleanCells(shown, k);
    }
    PrintedRowIsSolid(cells);
    ReadInvertsPrint(cells);
  }

  lemma ReadOfExport(units: seq<Unit>)
    requires forall j :: 0 <= j < |units| ==> CleanUnit(units[j])
    ensures var parsed, shown := ReadCsv(CsvText(units)), AllShown(units);
            && parsed.headers == HEADERS && |parsed.rows| == |shown|
            && forall i :: 0 <= i < |shown| ==> parsed.rows[i] == ParsedRow(i + 2, CellsShown(shown[i]))
  {
    var shown := AllShown(units);
    var data := Print(shown);
    forall i | 0 <= i < |HEADERS| ensures Plain(HEADERS[i]) {
      HeadersArePlain(i);
    }
    forall i | 0 <= i < |shown| ensures SolidLine(data[i]) && ReadLine(data[i]) == RowCells(shown[i].0, shown[i].1) {
      AllShownClean(units, i);
      PrintedRowReads(shown[i]);
    }
    ReadPrintedLines(HEADERS, data);
  }

  lemma SomethingShown(units: seq<Unit>)
    requires units != []
    ensures AllShown(units) != []
  {
    assert BedsOf(units[|units| - 1]) != [];
  }

  lemma ValidatedOneByOne(csvText: string)
    requires ReadCsv(csvText).headers != [] && ReadCsv(csvText).rows != []
    ensures var results, rows := ValidateCsv(csvText, []), ReadCsv(csvText).rows;
            && |results| == |rows|
            && forall i :: 0 <= i < |rows| ==> results[i] == ValidateRow(rows[i].rowNumber, rows[i].cells, [])
  {
  }

  /** Printing any clean units and reading the text back gives, row by row in order, the data the
      rows were printed from; exactly the rows of BED units without beds are refused. */
  lemma ExportImportRoundTrip(units: seq<Unit>)
    requires forall j :: 0 <= j < |units| ==> CleanUnit(units[j])
    requires units != []
    ensures var results, shown := ValidateCsv(CsvText(units), []), AllShown(units);
            && |results| == |shown|
            && forall i :: 0 <= i < |shown| ==> results[i] == ResultOf(shown[i], i + 2)
  {
    var shown, parsed := AllShown(units), ReadCsv(CsvText(units));
    ReadOfExport(units);
    SomethingShown(units);
    ValidatedOneByOne(CsvText(units));
    forall i | 0 <= i < |shown| ensures ValidateCsv(CsvText(units), [])[i] == ResultOf(shown[i], i + 2) {
      ShownRowValidates(units, i, parsed.rows[i]);
    }
  }

  lemma ShownRowValidates(units: seq<Unit>, i: nat, row: ParsedRow)
    requires (forall j :: 0 <= j < |units| ==> CleanUnit(units[j])) && i < |AllShown(units)|
    requires row == ParsedRow(i + 2, CellsShown(AllShown(units)[i]))
    ensures ValidateRow(row.rowNumber, row.cells, []) == ResultOf(AllShown(units)[i], i + 2)
  {
    AllShownClean(units, i);
    RowRoundTrip(AllShown(units)[i], i + 2, CellsShown(AllShown(units)[i]));
  }
}
