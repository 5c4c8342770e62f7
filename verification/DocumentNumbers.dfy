/** Document numbers (billing.rules.ts). */
module DocumentNumbers {
  import opened Prelude
  import opened Decimal

  // A counter per tenant and setting key, reset on every change of year, printed as
  // PREFIX-YEAR-SEQUENCE with the sequence padded to six digits.
  //
  // An allocation is two steps: the look-up of the newest setting row takes no lock; the rest locks
  // the row that was found and reads it again, or creates a row if none was found. Rows are unique
  // per tenant, key and effective-from instant only, so a counter may come to have several.

  /** The JSON a setting row can hold, as far as parseSequenceSetting looks at it. */
  datatype SettingJson = NotAnObject | Record(year: Option<int>, number: Option<int>)

  datatype Sequence = Sequence(year: int, number: int)

  datatype Setting = Setting(value: SettingJson, effectiveFrom: int)

  function ParseSequenceSetting(value: SettingJson, currentYear: int): Sequence {
    match value
    case NotAnObject => Sequence(currentYear, 0)
    case Record(y, s) =>
      Sequence(if y.Some? then y.value else currentYear, if s.Some? then s.value else 0)
  }

  function NextSeq(json: SettingJson, year: int, currentYear: int): int {
    var current := ParseSequenceSetting(json, currentYear);
    if current.year == year then current.number + 1 else 1
  }

  function Stored(year: int, number: int): SettingJson {
    Record(Some(year), Some(number))
  }

  function FormatNumber(prefix: string, year: nat, number: nat): string {
    prefix + "-" + Digits(year) + "-" + PadStart(Digits(number), 6)
  }

  /** `orderBy: effectiveFrom desc`: the newest of the first n rows. */
  function Newest(rows: seq<Setting>, n: nat): (r: Option<nat>)
    requires n <= |rows|
    ensures r.Some? <==> n > 0
    ensures r.Some? ==> r.value < n && forall i :: 0 <= i < n ==> rows[i].effectiveFrom <= rows[r.value].effectiveFrom
  {
    if n == 0 then None
    else
      var before := Newest(rows, n - 1);
      if before.Some? && rows[before.value].effectiveFrom >= rows[n - 1].effectiveFrom then before else Some(n - 1)
  }

  predicate Taken(rows: seq<Setting>, instant: int) {
    exists i :: 0 <= i < |rows| && rows[i].effectiveFrom == instant
  }

  /** The rest of an allocation after its look-up. A refused insert ends the transaction. */
  function Allocate(rows: seq<Setting>, found: Option<nat>, year: int, currentYear: int, now: int): (seq<Setting>, Option<int>)
    requires found.Some? ==> found.value < |rows|
  {
    match found
    case Some(r) =>
      var number := NextSeq(rows[r].value, year, currentYear);
      (rows[r := rows[r].(value := Stored(year, number))], Some(number))
    case None => if Taken(rows, now) then (rows, None) else (rows + [Setting(Stored(year, 1), now)], Some(1))
  }

  /** tenant_settings, restricted to the rows this file reads. */
  class TenantSettings {
    var rows: map<(string, string), seq<Setting>>

    constructor ()
      ensures rows == map[]
    {
      rows := map[];
    }

    function RowsOf(k: (string, string)): seq<Setting>
      reads this
    {
      if k in rows then rows[k] else []
    }

    method FindSetting(tenantId: string, settingKey: string) returns (found: Option<nat>)
      ensures found == Newest(RowsOf((tenantId, settingKey)), |RowsOf((tenantId, settingKey))|)
    {
      var settings := RowsOf((tenantId, settingKey));
      found := None;
      for i := 0 to |settings|
        invariant found == Newest(settings, i)
      {
        if found.None? || settings[found.value].effectiveFrom < settings[i].effectiveFrom {
          found := Some(i);
        }
      }
    }

    /** The sequence number handed out, if any; the caller formats it with FormatNumber. */
    method AllocateDocumentNumber(tenantId: string, settingKey: string, found: Option<nat>, year: int, currentYear: int, now: int)
      returns (number: Option<int>)
      requires found.Some? ==> found.value < |RowsOf((tenantId, settingKey))|
      modifies this
      ensures (RowsOf((tenantId, settingKey)), number) == Allocate(old(RowsOf((tenantId, settingKey))), found, year, currentYear, now)
      ensures rows == if number.None? then old(rows) else old(rows)[(tenantId, settingKey) := RowsOf((tenantId, settingKey))]
    {
      var k := (tenantId, settingKey);
      var settings := RowsOf(k);
      if found.None? {
        if Taken(settings, now) {
          return None;
        }
        rows := rows[k := settings + [Setting(Stored(year, 1), now)]];
        return Some(1);
      }
      var current := ParseSequenceSetting(settings[found.value].value, currentYear);
      var next := if current.year == year then current.number + 1 else 1;
      rows := rows[k := settings[found.value := settings[found.value].(value := Stored(year, next))]];
      return Some(next);
    }
  }

  /** The number after the one stored, if that is of the same year; a row that tells no year is taken to be
      of the current one, and whatever tells no number starts at 1. */
  lemma NextNumberIs(json: SettingJson, year: int, currentYear: int)
    ensures NextSeq(json, year, currentYear)
         == if json.Record? && json.number.Some? && year == (if json.year.Some? then json.year.value else currentYear)
            then json.number.value + 1
            else 1
  {
  }

  // ----- runs on one counter -----

  /** A number handed out, and the row it was counted on. */
  datatype Issue = Issue(row: nat, year: nat, number: int)

  /** `calls` holds what each allocation under way has found. */
  datatype Counter = Counter(rows: seq<Setting>, calls: map<nat, Option<nat>>, log: seq<Issue>)

  datatype Op =
    | LookUp(call: nat)
    | Finish(call: nat, year: nat, currentYear: int, now: int)
    | Stop(call: nat)

  function Step(c: Counter, op: Op): Counter {
    match op
    case LookUp(call) => if call in c.calls then c else c.(calls := c.calls[call := Newest(c.rows, |c.rows|)])
    case Finish(call, year, currentYear, now) =>
      if call !in c.calls || (c.calls[call].Some? && c.calls[call].value >= |c.rows|) then c
      else
        var found := c.calls[call];
        var (rows, number) := Allocate(c.rows, found, year, currentYear, now);
        Counter(rows, c.calls - {call},
                if number.None? then c.log
                else c.log + [Issue(if found.Some? then found.value else |c.rows|, year, number.value)])
    case Stop(call) => c.(calls := c.calls - {call})
  }

  const FRESH := Counter([], map[], [])

  function Run(ops: seq<Op>): Counter {
    if ops == [] then FRESH else Step(Run(ops[..|ops| - 1]), ops[|ops| - 1])
  }

  /** The last number counted on a row. */
  function LastOn(log: seq<Issue>, row: nat): Option<Issue> {
    if log == [] then None
    else if log[|log| - 1].row == row then Some(log[|log| - 1])
    else LastOn(log[..|log| - 1], row)
  }

  function Expected(log: seq<Issue>, row: nat, year: nat): int {
    var last := LastOn(log, row);
    if last.Some? && last.value.year == year then last.value.number + 1 else 1
  }

  /** Every number follows from the last one on its row. */
  ghost predicate Counted(log: seq<Issue>) {
    forall i :: 0 <= i < |log| ==> log[i].number == Expected(log[..i], log[i].row, log[i].year)
  }

  ghost predicate Inv(c: Counter) {
    && Counted(c.log)
    && RowsTell(c.rows, c.log)
    && (forall k :: k in c.calls && c.calls[k].Some? ==> c.calls[k].value < |c.rows|)
  }

  lemma {:induction false} NeverOn(log: seq<Issue>, row: nat)
    requires forall i :: 0 <= i < |log| ==> log[i].row != row
    ensures LastOn(log, row) == None
  {
    if log != [] { NeverOn(log[..|log| - 1], row); }
  }

  lemma LogGrows(log: seq<Issue>, e: Issue)
    requires Counted(log) && e.number == Expected(log, e.row, e.year)
    ensures Counted(log + [e])
    ensures forall r :: LastOn(log + [e], r) == if r == e.row then Some(e) else LastOn(log, r)
  {
    var all := log + [e];
    assert all[..|log|] == log;
    forall i | 0 <= i < |all| ensures all[i].number == Expected(all[..i], all[i].row, all[i].year) {
      if i < |log| { assert all[..i] == log[..i]; }
    }
  }

  /** The rows tell the last number counted on each of them. */
  ghost predicate RowsTell(rows: seq<Setting>, log: seq<Issue>) {
    && (forall i :: 0 <= i < |log| ==> log[i].row < |rows|)
    && (forall r :: 0 <= r < |rows| ==> LastOn(log, r).Some?
                                        && rows[r].value == Stored(LastOn(log, r).value.year, LastOn(log, r).value.number))
  }

  lemma CountedOn(rows: seq<Setting>, log: seq<Issue>, r: nat, year: nat, number: int)
    requires Counted(log) && RowsTell(rows, log) && r < |rows| && number == Expected(log, r, year)
    ensures var after := log + [Issue(r, year, number)];
            Counted(after) && RowsTell(rows[r := rows[r].(value := Stored(year, number))], after)
  {
    LogGrows(log, Issue(r, year, number));
  }

  lemma FirstOn(rows: seq<Setting>, log: seq<Issue>, year: nat, now: int)
    requires Counted(log) && RowsTell(rows, log)
    ensures var after := log + [Issue(|rows|, year, 1)];
            Counted(after) && RowsTell(rows + [Setting(Stored(year, 1), now)], after)
  {
    NeverOn(log, |rows|);
    LogGrows(log, Issue(|rows|, year, 1));
  }

  lemma StepKeepsInv(c: Counter, op: Op)
    requires Inv(c)
    ensures Inv(Step(c, op))
  {
    if op.Finish? && op.call in c.calls {
      match c.calls[op.call] {
        case Some(r) => CountedOn(c.rows, c.log, r, op.year, NextSeq(c.rows[r].value, op.year, op.currentYear));
        case None => FirstOn(c.rows, c.log, op.year, op.now);
      }
    }
  }

  lemma {:induction false} RunKeepsInv(ops: seq<Op>)
    ensures Inv(Run(ops))
  {
    if ops != [] {
      RunKeepsInv(ops[..|ops| - 1]);
      StepKeepsInv(Run(ops[..|ops| - 1]), ops[|ops| - 1]);
    }
  }

  // ----- when numbers repeat -----

  /** The numbers of one year are counted on one row, with no other year in between on that row. */
  ghost predicate YearsStayTogether(log: seq<Issue>) {
    forall i, k :: 0 <= i < k < |log| && log[i].year == log[k].year ==>
      log[i].row == log[k].row && OneYear(log, i, k)
  }

  /** From i to k the row of entry i counts for one year only. */
  ghost predicate OneYear(log: seq<Issue>, i: nat, k: nat)
    requires i <= k < |log|
  {
    forall j :: i <= j <= k && log[j].row == log[i].row ==> log[j].year == log[i].year
  }

  function Text(prefix: string, e: Issue): string {
    FormatNumber(prefix, e.year, if e.number >= 0 then e.number else 0)
  }

  ghost predicate AllDistinct(prefix: string, log: seq<Issue>) {
    forall i, k :: 0 <= i < k < |log| ==> Text(prefix, log[i]) != Text(prefix, log[k])
  }

  lemma {:induction false} LastOnIs(log: seq<Issue>, row: nat) returns (p: Option<nat>)
    ensures p.None? <==> LastOn(log, row).None?
    ensures p.Some? ==> p.value < |log| && LastOn(log, row) == Some(log[p.value]) && log[p.value].row == row
    ensures forall j :: (if p.Some? then p.value + 1 else 0) <= j < |log| ==> log[j].row != row
  {
    if log == [] {
      p := None;
    } else if log[|log| - 1].row == row {
      p := Some(|log| - 1);
    } else {
      p := LastOnIs(log[..|log| - 1], row);
    }
  }

  /** The entry before i on its row, and what that makes of the number at i. */
  lemma Previous(log: seq<Issue>, i: nat) returns (p: Option<nat>)
    requires Counted(log) && i < |log|
    ensures p.Some? ==> p.value < i && log[p.value].row == log[i].row
    ensures forall j :: (if p.Some? then p.value + 1 else 0) <= j < i ==> log[j].row != log[i].row
    ensures log[i].number == if p.Some? && log[p.value].year == log[i].year then log[p.value].number + 1 else 1
  {
    p := LastOnIs(log[..i], log[i].row);
  }

  lemma {:induction false} Positive(log: seq<Issue>, i: nat)
    requires Counted(log) && i < |log|
    ensures log[i].number >= 1
    decreases i
  {
    var p := Previous(log, i);
    if p.Some? { Positive(log, p.value); }
  }

  /** Where the counting that led to entry i began: with number 1. */
  lemma {:induction false} Began(log: seq<Issue>, i: nat) returns (f: nat)
    requires Counted(log) && i < |log|
    ensures f <= i && log[f].row == log[i].row && log[f].year == log[i].year && log[f].number == 1 && OneYear(log, f, i)
    decreases i
  {
    var p := Previous(log, i);
    if p.Some? && log[p.value].year == log[i].year {
      f := Began(log, p.value);
    } else {
      f := i;
    }
  }

  lemma {:induction false} Grows(log: seq<Issue>, i: nat, k: nat)
    requires Counted(log) && i <= k < |log| && log[i].row == log[k].row && OneYear(log, i, k)
    ensures log[k].number >= log[i].number + if i < k then 1 else 0
    decreases k
  {
    if i < k {
      var p := Previous(log, k);
      assert p.Some? && i <= p.value;
      Grows(log, i, p.value);
    }
  }

  lemma FormatSplits(prefix: string, year: nat, number: nat)
    ensures FormatNumber(prefix, year, number) == (prefix + "-") + (Digits(year) + ['-'] + PadStart(Digits(number), 6))
  {
    Regroup(prefix + "-", Digits(year), ['-'], PadStart(Digits(number), 6));
  }

  lemma Regroup(a: string, b: string, c: string, d: string)
    ensures a + b + c + d == a + (b + c + d)
  {
  }

  lemma SameHead(head: string, s: string, t: string)
    requires head + s == head + t
    ensures s == t
  {
    assert s == (head + s)[|head|..] && t == (head + t)[|head|..];
  }

  /** The printed number determines year and sequence, past six digits as well. */
  lemma FormatIsInjective(prefix: string, y1: nat, s1: nat, y2: nat, s2: nat)
    requires FormatNumber(prefix, y1, s1) == FormatNumber(prefix, y2, s2)
    ensures y1 == y2 && s1 == s2
  {
    var a, b := Digits(y1), PadStart(Digits(s1), 6);
    var x, y := Digits(y2), PadStart(Digits(s2), 6);
    FormatSplits(prefix, y1, s1);
    FormatSplits(prefix, y2, s2);
    SameHead(prefix + "-", a + ['-'] + b, x + ['-'] + y);
    SplitAtSeparator(a, b, x, y, '-');
    ValueOfDigits(y1);
    ValueOfDigits(y2);
    ValueOfPadded(s1, 6);
    ValueOfPadded(s2, 6);
  }

  lemma SameText(prefix: string, log: seq<Issue>, i: nat, k: nat)
    requires Counted(log) && i < |log| && k < |log|
    ensures Text(prefix, log[i]) == Text(prefix, log[k]) <==> log[i].year == log[k].year && log[i].number == log[k].number
  {
    Positive(log, i);
    Positive(log, k);
    if Text(prefix, log[i]) == Text(prefix, log[k]) {
      FormatIsInjective(prefix, log[i].year, log[i].number, log[k].year, log[k].number);
    }
  }

  ghost predicate Different(log: seq<Issue>) {
    forall i, k :: 0 <= i < k < |log| ==> log[i].year != log[k].year || log[i].number != log[k].number
  }

  lemma DistinctTexts(prefix: string, log: seq<Issue>)
    requires Counted(log)
    ensures AllDistinct(prefix, log) <==> Different(log)
  {
    forall i, k | 0 <= i < k < |log|
      ensures Text(prefix, log[i]) == Text(prefix, log[k]) <==> log[i].year == log[k].year && log[i].number == log[k].number
    {
      SameText(prefix, log, i, k);
    }
  }

  lemma Repeats(log: seq<Issue>, i: nat, k: nat)
    requires Counted(log) && i < k < |log| && log[i].year == log[k].year
    requires !(log[i].row == log[k].row && OneYear(log, i, k))
    ensures !Different(log)
  {
    var f := Began(log, i);
    var g := Began(log, k);
    if log[i].row == log[k].row {
      assert f <= i < g;
    }
    assert f != g;
  }

  lemma DifferentIff(log: seq<Issue>)
    requires Counted(log)
    ensures Different(log) <==> YearsStayTogether(log)
  {
    if YearsStayTogether(log) {
      forall i, k | 0 <= i < k < |log| && log[i].year == log[k].year ensures log[i].number != log[k].number {
        Grows(log, i, k);
      }
    } else {
      var i, k :| 0 <= i < k < |log| && log[i].year == log[k].year && !(log[i].row == log[k].row && OneYear(log, i, k));
      Repeats(log, i, k);
    }
  }

  /** Over every interleaving of allocations: the printed numbers are pairwise different exactly when
      each year is counted on one row and, on it, in one stretch. */
  lemma DistinctIffYearsStayTogether(prefix: string, ops: seq<Op>)
    ensures AllDistinct(prefix, Run(ops).log) <==> YearsStayTogether(Run(ops).log)
  {
    RunKeepsInv(ops);
    DistinctTexts(prefix, Run(ops).log);
    DifferentIff(Run(ops).log);
  }

  function Occurrences(log: seq<Issue>, y: nat): nat {
    if log == [] then 0
    else Occurrences(log[..|log| - 1], y) + if log[|log| - 1].year == y then 1 else 0
  }

  lemma {:induction false} NoneSince(log: seq<Issue>, n: nat, k: nat, y: nat)
    requires n <= k <= |log| && forall j :: n <= j < k ==> log[j].year != y
    ensures Occurrences(log[..k], y) == Occurrences(log[..n], y)
  {
    if n < k {
      NoneSince(log, n, k - 1, y);
      assert log[..k][..k - 1] == log[..k - 1];
    }
  }

  /** Entries of a year since the last one on its row would sit on that row. */
  lemma NoneOfTheYear(log: seq<Issue>, i: nat, p: Option<nat>, j: nat)
    requires YearsStayTogether(log) && j < i < |log| && (p.Some? ==> p.value < i && log[p.value].row == log[i].row)
    requires (if p.Some? && log[p.value].year == log[i].year then p.value + 1 else 0) <= j
    requires forall x :: (if p.Some? then p.value + 1 else 0) <= x < i ==> log[x].row != log[i].row
    ensures log[j].year != log[i].year
  {
    if p.Some? && j <= p.value {
      assert log[j].year == log[i].year ==> log[j].row == log[i].row && OneYear(log, j, i);
    }
  }

  lemma {:induction false} CountsUp(log: seq<Issue>, i: nat)
    requires Counted(log) && YearsStayTogether(log) && i < |log|
    ensures log[i].number == Occurrences(log[..i], log[i].year) + 1
    decreases i
  {
    var y := log[i].year;
    var p := Previous(log, i);
    var n := if p.Some? && log[p.value].year == y then p.value + 1 else 0;
    forall j | n <= j < i ensures log[j].year != y {
      NoneOfTheYear(log, i, p, j);
    }
    NoneSince(log, n, i, y);
    if n > 0 {
      CountsUp(log, n - 1);
      assert log[..n][..n - 1] == log[..n - 1];
    }
  }

  /** And then the numbers of each year are 1, 2, 3, ... in order. */
  lemma NumbersCountUp(ops: seq<Op>, i: nat)
    requires YearsStayTogether(Run(ops).log) && i < |Run(ops).log|
    ensures var log := Run(ops).log; log[i].number == Occurrences(log[..i], log[i].year) + 1
  {
    RunKeepsInv(ops);
    CountsUp(Run(ops).log, i);
  }

  // ----- one row -----

  /** An allocation that had found no row creates one although by then there is one. */
  predicate LateFirst(c: Counter, op: Op) {
    op.Finish? && op.call in c.calls && c.calls[op.call] == None && c.rows != [] && !Taken(c.rows, op.now)
  }

  predicate EndsCall(op: Op, call: nat) {
    (op.Finish? || op.Stop?) && op.call == call
  }

  /** Call `call` looks up at a and does not end before b. */
  ghost predicate UnderWay(ops: seq<Op>, call: nat, a: nat, b: nat) {
    && a < b <= |ops| && ops[a] == LookUp(call) && call !in Run(ops[..a]).calls
    && forall m :: a < m < b ==> !EndsCall(ops[m], call)
  }

  /** At c an allocation creates the first row. */
  predicate CreatesFirst(ops: seq<Op>, c: nat) {
    c < |ops| && ops[c].Finish? && ops[c].call in Run(ops[..c]).calls && Run(ops[..c]).rows == []
  }

  /** An allocation looks up at a and ends at b, with an instant no row has; in between, at c, another
      one creates the first row. */
  ghost predicate OverlappingFirsts(ops: seq<Op>, a: nat, c: nat, b: nat) {
    && a < c < b < |ops| && CreatesFirst(ops, c)
    && ops[b].Finish? && UnderWay(ops, ops[b].call, a, b) && !Taken(Run(ops[..b]).rows, ops[b].now)
  }

  lemma PrefixStep(ops: seq<Op>, i: nat)
    requires i < |ops|
    ensures Run(ops[..i + 1]) == Step(Run(ops[..i]), ops[i])
  {
    assert ops[..i + 1][..i] == ops[..i];
  }

  lemma RowsOnStep(c: Counter, op: Op)
    requires Inv(c)
    ensures |Step(c, op).rows|
         == |c.rows| + if LateFirst(c, op) || (op.Finish? && op.call in c.calls && c.rows == []) then 1 else 0
  {
  }

  lemma {:induction false} RowsOnlyGrow(ops: seq<Op>, i: nat, k: nat)
    requires i <= k <= |ops|
    ensures |Run(ops[..i]).rows| <= |Run(ops[..k]).rows|
  {
    if i < k {
      RowsOnlyGrow(ops, i, k - 1);
      PrefixStep(ops, k - 1);
      RunKeepsInv(ops[..k - 1]);
      RowsOnStep(Run(ops[..k - 1]), ops[k - 1]);
    }
  }

  /** At k a call still holds what its look-up at a found. */
  ghost predicate Holds(ops: seq<Op>, call: nat, a: nat, k: nat)
    requires a <= |ops| && k <= |ops|
  {
    var found, calls := Run(ops[..a]).rows, Run(ops[..k]).calls;
    call in calls && calls[call] == Newest(found, |found|)
  }

  lemma HoldsNext(ops: seq<Op>, call: nat, a: nat, k: nat)
    requires a <= |ops| && k < |ops| && Holds(ops, call, a, k) && !EndsCall(ops[k], call)
    ensures Holds(ops, call, a, k + 1)
  {
    PrefixStep(ops, k);
  }

  lemma UnderWayBefore(ops: seq<Op>, call: nat, a: nat, k: nat)
    requires a < k < |ops| && UnderWay(ops, call, a, k + 1)
    ensures UnderWay(ops, call, a, k) && !EndsCall(ops[k], call)
  {
  }

  /** While a call is under way it holds what it found. */
  lemma {:induction false} HoldsWhatItFound(ops: seq<Op>, call: nat, a: nat, b: nat)
    requires UnderWay(ops, call, a, b)
    ensures Holds(ops, call, a, b)
    decreases b
  {
    if a < b - 1 {
      UnderWayBefore(ops, call, a, b - 1);
      HoldsWhatItFound(ops, call, a, b - 1);
      HoldsNext(ops, call, a, b - 1);
    } else {
      PrefixStep(ops, a);
    }
  }

  lemma CallOnStep(c: Counter, op: Op, call: nat)
    requires Inv(c)
    ensures call in Step(c, op).calls <==> (op == LookUp(call) && call !in c.calls) || (call in c.calls && !EndsCall(op, call))
  {
  }

  lemma JustUnderWay(ops: seq<Op>, call: nat, a: nat)
    requires a < |ops| && ops[a] == LookUp(call) && call !in Run(ops[..a]).calls
    ensures UnderWay(ops, call, a, a + 1)
  {
  }

  lemma StillUnderWay(ops: seq<Op>, call: nat, a: nat, b: nat)
    requires UnderWay(ops, call, a, b) && b < |ops| && !EndsCall(ops[b], call)
    ensures UnderWay(ops, call, a, b + 1)
  {
  }

  lemma {:induction false} LookedUp(ops: seq<Op>, call: nat, b: nat) returns (a: nat)
    requires b <= |ops| && call in Run(ops[..b]).calls
    ensures UnderWay(ops, call, a, b)
  {
    assert b > 0 by { assert ops[..0] == []; }
    PrefixStep(ops, b - 1);
    RunKeepsInv(ops[..b - 1]);
    CallOnStep(Run(ops[..b - 1]), ops[b - 1], call);
    if call in Run(ops[..b - 1]).calls {
      a := LookedUp(ops, call, b - 1);
      StillUnderWay(ops, call, a, b - 1);
    } else {
      a := b - 1;
      JustUnderWay(ops, call, a);
    }
  }

  lemma {:induction false} FirstRowBetween(ops: seq<Op>, a: nat, b: nat) returns (c: nat)
    requires a <= b <= |ops| && Run(ops[..a]).rows == [] && Run(ops[..b]).rows != []
    ensures a <= c < b && CreatesFirst(ops, c)
    decreases b
  {
    PrefixStep(ops, b - 1);
    RunKeepsInv(ops[..b - 1]);
    RowsOnStep(Run(ops[..b - 1]), ops[b - 1]);
    if Run(ops[..b - 1]).rows == [] {
      c := b - 1;
    } else {
      c := FirstRowBetween(ops, a, b - 1);
    }
  }

  lemma {:induction false} SecondRow(ops: seq<Op>, k: nat) returns (b: nat)
    requires k <= |ops| && |Run(ops[..k]).rows| > 1
    ensures b < k && LateFirst(Run(ops[..b]), ops[b])
  {
    assert k > 0 by { assert ops[..0] == []; }
    PrefixStep(ops, k - 1);
    RunKeepsInv(ops[..k - 1]);
    RowsOnStep(Run(ops[..k - 1]), ops[k - 1]);
    if |Run(ops[..k - 1]).rows| > 1 {
      b := SecondRow(ops, k - 1);
    } else {
      b := k - 1;
    }
  }

  lemma LateFirstOverlaps(ops: seq<Op>, b: nat) returns (a: nat, c: nat)
    requires b < |ops| && LateFirst(Run(ops[..b]), ops[b])
    ensures OverlappingFirsts(ops, a, c, b)
  {
    a := LookedUp(ops, ops[b].call, b);
    HoldsWhatItFound(ops, ops[b].call, a, b);
    PrefixStep(ops, a);
    c := FirstRowBetween(ops, a + 1, b);
  }

  lemma OverlapIsLateFirst(ops: seq<Op>, a: nat, c: nat, b: nat)
    requires OverlappingFirsts(ops, a, c, b)
    ensures LateFirst(Run(ops[..b]), ops[b])
  {
    RowsOnlyGrow(ops, a, c);
    HoldsWhatItFound(ops, ops[b].call, a, b);
    PrefixStep(ops, c);
    RunKeepsInv(ops[..c]);
    RowsOnStep(Run(ops[..c]), ops[c]);
    RowsOnlyGrow(ops, c + 1, b);
  }

  /** A counter keeps to one row exactly when no two of its first allocations overlap: none looks up
      before another creates the first row and ends after, unless its instant is taken. */
  lemma OneRowIff(ops: seq<Op>)
    ensures |Run(ops).rows| <= 1 <==> forall a: nat, c: nat, b: nat :: !OverlappingFirsts(ops, a, c, b)
  {
    assert ops[..|ops|] == ops;
    if |Run(ops).rows| > 1 {
      var b := SecondRow(ops, |ops|);
      var a, c := LateFirstOverlaps(ops, b);
    }
    forall a: nat, c: nat, b: nat | OverlappingFirsts(ops, a, c, b) ensures |Run(ops).rows| > 1 {
      OverlapIsLateFirst(ops, a, c, b);
      PrefixStep(ops, b);
      RunKeepsInv(ops[..b]);
      RowsOnStep(Run(ops[..b]), ops[b]);
      RowsOnlyGrow(ops, b + 1, |ops|);
    }
  }

  ghost predicate NeverReturns(log: seq<Issue>) {
    forall i, j, k :: 0 <= i < j < k < |log| && log[i].year == log[k].year ==> log[j].year == log[i].year
  }

  lemma OnOneRow(log: seq<Issue>)
    requires forall i :: 0 <= i < |log| ==> log[i].row == 0
    ensures YearsStayTogether(log) <==> NeverReturns(log)
  {
    if YearsStayTogether(log) {
      forall i, j, k | 0 <= i < j < k < |log| && log[i].year == log[k].year ensures log[j].year == log[i].year {
        assert OneYear(log, i, k);
      }
    }
  }

  /** While no two first allocations overlap, the numbers are pairwise different exactly when no year
      is used again after another year. */
  lemma DistinctIffNeverReturns(prefix: string, ops: seq<Op>)
    requires forall a: nat, c: nat, b: nat :: !OverlappingFirsts(ops, a, c, b)
    ensures AllDistinct(prefix, Run(ops).log) <==> NeverReturns(Run(ops).log)
  {
    OneRowIff(ops);
    RunKeepsInv(ops);
    DistinctIffYearsStayTogether(prefix, ops);
    OnOneRow(Run(ops).log);
  }

  /** In particular with years that never go backwards. */
  lemma OrderedYearsNeverReturn(prefix: string, ops: seq<Op>)
    requires forall a: nat, c: nat, b: nat :: !OverlappingFirsts(ops, a, c, b)
    requires var log := Run(ops).log; forall i, j :: 0 <= i <= j < |log| ==> log[i].year <= log[j].year
    ensures AllDistinct(prefix, Run(ops).log)
  {
    DistinctIffNeverReturns(prefix, ops);
  }

  // ----- both ways to repeat, at runs -----

  lemma RunLast(ops: seq<Op>, before: seq<Op>, op: Op)
    requires ops != [] && ops[..|ops| - 1] == before && ops[|ops| - 1] == op
    ensures Run(ops) == Step(Run(before), op)
  {
  }

  /** Two first allocations that both look up before either creates its row hand out the same number,
      in any year, unless their rows carry the very same instant. */
  lemma OverlappingFirstsRepeat(prefix: string, year: nat, t: int, u: int)
    ensures var log := Run([LookUp(0), LookUp(1), Finish(0, year, year, t), Finish(1, year, year, u)]).log;
            if t == u then log == [Issue(0, year, 1)] else log == [Issue(0, year, 1), Issue(1, year, 1)] && !AllDistinct(prefix, log)
  {
    var a, b, c, d := LookUp(0), LookUp(1), Finish(0, year, year, t), Finish(1, year, year, u);
    RunLast([a], [], a);
    RunLast([a, b], [a], b);
    RunLast([a, b, c], [a, b], c);
    RunLast([a, b, c, d], [a, b, c], d);
    assert Run([a, b]) == Counter([], map[0 := None, 1 := None], []);
    assert Run([a, b, c]).rows == [Setting(Stored(year, 1), t)] && Run([a, b, c]).log == [Issue(0, year, 1)];
    assert Taken(Run([a, b, c]).rows, u) <==> t == u by { assert Run([a, b, c]).rows[0].effectiveFrom == t; }
    var log := Run([a, b, c, d]).log;
    if t != u {
      assert log == [Issue(0, year, 1), Issue(1, year, 1)];
      assert Text(prefix, log[0]) == Text(prefix, log[1]);
    }
  }

  function Next(year: nat): seq<Op> {
    [LookUp(0), Finish(0, year, year, 0)]
  }

  lemma CallEnds(found: Option<nat>)
    ensures map[0 := found] - {0} == map[]
  {
  }

  lemma NextStep(ops: seq<Op>, year: nat)
    requires Run(ops).calls == map[] && |Run(ops).rows| == 1
    ensures var c, after := Run(ops), Run(ops + Next(year));
            var number := NextSeq(c.rows[0].value, year, year);
            after == Counter([c.rows[0].(value := Stored(year, number))], map[], c.log + [Issue(0, year, number)])
  {
    RunLast(ops + [LookUp(0)], ops, LookUp(0));
    RunLast(ops + Next(year), ops + [LookUp(0)], Finish(0, year, year, 0));
    assert Newest(Run(ops).rows, 1) == Some(0);
    CallEnds(Some(0));
  }

  /** Allocations one after another: leaving a year and coming back to it repeats its first number. */
  lemma GoingBackRepeatsANumber(prefix: string, year: nat, other: nat)
    requires year != other
    ensures var log := Run(Next(year) + Next(other) + Next(year)).log;
            log == [Issue(0, year, 1), Issue(0, other, 1), Issue(0, year, 1)] && !AllDistinct(prefix, log)
  {
    RunLast([LookUp(0)], [], LookUp(0));
    RunLast(Next(year), [LookUp(0)], Finish(0, year, year, 0));
    CallEnds(None);
    assert Run(Next(year)) == Counter([Setting(Stored(year, 1), 0)], map[], [Issue(0, year, 1)]);
    NextStep(Next(year), other);
    NextStep(Next(year) + Next(other), year);
    var log := Run(Next(year) + Next(other) + Next(year)).log;
    assert Text(prefix, log[0]) == Text(prefix, log[2]);
  }
}
