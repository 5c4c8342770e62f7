/** One line of CSV: the reader of inventory-import.rules.ts and the writer of export.service.ts
    (section 2 of RFC 4180). */
module CsvLine {
  const QUOTE := '\"'

  /** Every quote doubled: `value.replace(/"/g, '""')`. */
  function DoubleQuotes(value: string): string {
    if value == "" then ""
    else (if value[0] == QUOTE then [QUOTE, QUOTE] else [value[0]]) + DoubleQuotes(value[1..])
  }

  function CsvEscape(value: string): string {
    if ',' in value || QUOTE in value || '\n' in value then [QUOTE] + DoubleQuotes(value) + [QUOTE] else value
  }

  function EscapeAll(cells: seq<string>): seq<string> {
    if cells == [] then [] else [CsvEscape(cells[0])] + EscapeAll(cells[1..])
  }

  function Join(parts: seq<string>, separator: string): string {
    if parts == [] then "" else if |parts| == 1 then parts[0] else parts[0] + separator + Join(parts[1..], separator)
  }

  /** One printed line: the escaped cells joined by commas. */
  function PrintLine(cells: seq<string>): string {
    Join(EscapeAll(cells), ",")
  }

  /** The reader as a function of what is left to read and the state it is in. */
  function ReadFrom(rest: string, current: string, inQuotes: bool): seq<string>
    decreases |rest|
  {
    if rest == "" then [current]
    else if rest[0] == QUOTE then
      if inQuotes && |rest| > 1 && rest[1] == QUOTE then ReadFrom(rest[2..], current + [QUOTE], true)
      else ReadFrom(rest[1..], current, !inQuotes)
    else if rest[0] == ',' && !inQuotes then [current] + ReadFrom(rest[1..], "", false)
    else ReadFrom(rest[1..], current + [rest[0]], inQuotes)
  }

  function ReadLine(line: string): seq<string> {
    ReadFrom(line, "", false)
  }

  method ParseCsvLine(line: string) returns (cells: seq<string>)
    ensures cells == ReadLine(line)
  {
    cells := [];
    var current := "";
    var inQuotes := false;
    var i := 0;
    while i < |line|
      invariant i <= |line|
      invariant cells + ReadFrom(line[i..], current, inQuotes) == ReadLine(line)
    {
      var ch := line[i];
      var rest := line[i..];
      assert rest[0] == ch && rest[1..] == line[i + 1..];
      if ch == QUOTE {
        if inQuotes && i + 1 < |line| && line[i + 1] == QUOTE {
          assert rest[2..] == line[i + 2..];
          current := current + [QUOTE];
          i := i + 1;
        } else {
          inQuotes := !inQuotes;
        }
      } else if ch == ',' && !inQuotes {
        cells := cells + [current];
        current := "";
      } else {
        current := current + [ch];
      }
      i := i + 1;
    }
    assert line[i..] == "";
    cells := cells + [current];
  }

  // ----- reading back what was printed -----

  lemma {:induction false} ReadPlain(value: string, tail: string, current: string)
    requires ',' !in value && QUOTE !in value
    ensures ReadFrom(value + tail, current, false) == ReadFrom(tail, current + value, false)
  {
    if value == "" {
      assert value + tail == tail && current + value == current;
    } else {
      ReadPlain(value[1..], tail, current + [value[0]]);
      assert (value + tail)[1..] == value[1..] + tail;
      assert current + [value[0]] + value[1..] == current + value;
    }
  }

  lemma {:induction false} ReadQuoted(value: string, tail: string, current: string)
    requires tail == "" || tail[0] == ','
    ensures ReadFrom(DoubleQuotes(value) + [QUOTE] + tail, current, true) == ReadFrom(tail, current + value, false)
  {
    var text := DoubleQuotes(value) + [QUOTE] + tail;
    if value == "" {
      assert text[1..] == tail && current + value == current;
    } else {
      ReadQuoted(value[1..], tail, current + [value[0]]);
      var rest := DoubleQuotes(value[1..]) + [QUOTE] + tail;
      assert current + [value[0]] + value[1..] == current + value;
      if value[0] == QUOTE {
        assert text[2..] == rest;
      } else {
        assert text[1..] == rest;
      }
    }
  }

  /** An escaped cell, at the end of a line or before a comma, is read as that one cell. */
  lemma ReadEscaped(value: string, tail: string)
    requires tail == "" || tail[0] == ','
    ensures ReadFrom(CsvEscape(value) + tail, "", false) == ReadFrom(tail, value, false)
  {
    if CsvEscape(value) == [QUOTE] + DoubleQuotes(value) + [QUOTE] {
      ReadInQuotes(value, tail);
    } else {
      ReadPlain(value, tail, "");
      assert "" + value == value;
    }
  }

  lemma ReadInQuotes(value: string, tail: string)
    requires tail == "" || tail[0] == ','
    ensures ReadFrom([QUOTE] + DoubleQuotes(value) + [QUOTE] + tail, "", false) == ReadFrom(tail, value, false)
  {
    var rest := DoubleQuotes(value) + [QUOTE] + tail;
    assert [QUOTE] + DoubleQuotes(value) + [QUOTE] + tail == [QUOTE] + rest;
    OpenQuote(rest);
    ReadQuoted(value, tail, "");
    assert "" + value == value;
  }

  lemma OpenQuote(rest: string)
    ensures ReadFrom([QUOTE] + rest, "", false) == ReadFrom(rest, "", true)
  {
    assert ([QUOTE] + rest)[1..] == rest;
  }

  /** Whatever the cells hold, commas, quotes and line breaks included, a printed line is read
      back as exactly the cells it was printed from. */
  lemma {:induction false} ReadInvertsPrint(cells: seq<string>)
    requires cells != []
    ensures ReadLine(PrintLine(cells)) == cells
  {
    if |cells| == 1 {
      assert EscapeAll(cells) == [CsvEscape(cells[0])];
      ReadEscaped(cells[0], "");
      assert CsvEscape(cells[0]) + "" == CsvEscape(cells[0]);
    } else {
      ReadInvertsPrint(cells[1..]);
      var tail := "," + PrintLine(cells[1..]);
      assert EscapeAll(cells)[1..] == EscapeAll(cells[1..]);
      assert EscapeAll(cells[1..]) != [];
      assert PrintLine(cells) == CsvEscape(cells[0]) + tail;
      ReadEscaped(cells[0], tail);
      assert tail[1..] == PrintLine(cells[1..]);
    }
  }
}
