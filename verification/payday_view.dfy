/**
  The payday grid: a list of paydays is laid out in rows of one or two.
  The first payday and every extra payday get a row of their own, marked as
  priority; the others are paired off in list order.
*/
module PaydayView {
  import opened CalendarMath
  import opened DateExtensions

  /** One grid row: its paydays, whether each is an extra payday, and whether it spans the full width. */
  datatype PaydayRow = PaydayRow(items: seq<Day>, bonuses: seq<bool>, isPriority: bool)

  /** The paydays of all rows, row after row. */
  function Flatten(rows: seq<PaydayRow>): seq<Day> {
    if |rows| == 0 then [] else Flatten(rows[..|rows| - 1]) + rows[|rows| - 1].items
  }

  lemma FlattenAppend(rows: seq<PaydayRow>, row: PaydayRow)
    ensures Flatten(rows + [row]) == Flatten(rows) + row.items
  {
    assert (rows + [row])[..|rows|] == rows;
  }

  /** Whether the payday at position `i` must stand alone: it is the first one, or an extra one. */
  predicate PriorityAt(paydays: seq<Day>, i: nat)
    requires i < |paydays|
  {
    i == 0 || IsExtraPayDay(paydays[i], paydays)
  }

  /** Row shape: one or two paydays, a bonus flag for each, and flags that match `isExtraPayDay`. */
  ghost predicate WellFormed(row: PaydayRow, paydays: seq<Day>) {
    1 <= |row.items| <= 2 && |row.bonuses| == |row.items|
    && (forall k :: 0 <= k < |row.items| ==> row.bonuses[k] == IsExtraPayDay(row.items[k], paydays))
    && (row.isPriority ==> |row.items| == 1)
    && (|row.items| == 2 ==> !row.isPriority && !row.bonuses[0] && !row.bonuses[1])
  }

  /** Where a row starts, whether it stands alone: the row the loop body appends for position `i`. */
  function NextRow(paydays: seq<Day>, i: nat): (row: PaydayRow)
    requires i < |paydays|
    ensures i + |row.items| <= |paydays| && row.items == paydays[i..i + |row.items|]
    ensures WellFormed(row, paydays)
    ensures row.isPriority <==> PriorityAt(paydays, i)
    ensures !row.isPriority && |row.items| == 1 ==> i + 1 == |paydays| || PriorityAt(paydays, i + 1)
  {
    var payday := paydays[i];
    var bonus := IsExtraPayDay(payday, paydays);
    var isPriority := i == 0 || bonus;
    if isPriority then PaydayRow([payday], [bonus], true)
    else if i + 1 < |paydays| then
      var nextPayday := paydays[i + 1];
      var nextBonus := IsExtraPayDay(nextPayday, paydays);
      var nextIsPriority := i + 1 == 0 || nextBonus;
      if !nextIsPriority then PaydayRow([payday, nextPayday], [bonus, nextBonus], false)
      else PaydayRow([payday], [bonus], false)
    else PaydayRow([payday], [bonus], false)
  }

  /** Every row is well formed, and a row is priority exactly when it is the first row or starts with an extra payday. */
  ghost predicate RowsOk(rows: seq<PaydayRow>, paydays: seq<Day>) {
    forall r :: 0 <= r < |rows| ==>
      WellFormed(rows[r], paydays) && (rows[r].isPriority <==> r == 0 || rows[r].bonuses[0])
  }

  /** A single non-priority payday is only left alone when a priority row follows it. */
  ghost predicate Paired(rows: seq<PaydayRow>) {
    forall r :: 0 <= r < |rows| - 1 && !rows[r].isPriority && |rows[r].items| == 1 ==> rows[r + 1].isPriority
  }

  /** A lone non-priority payday in the last row was left alone because the list ends or a priority payday comes next. */
  ghost predicate OpenEnd(rows: seq<PaydayRow>, paydays: seq<Day>, i: nat)
    requires i <= |paydays|
  {
    |rows| > 0 && !rows[|rows| - 1].isPriority && |rows[|rows| - 1].items| == 1 ==>
      i == |paydays| || PriorityAt(paydays, i)
  }

  /** What the rows built so far satisfy once the loop has consumed `paydays[..i]`. */
  ghost predicate Batched(rows: seq<PaydayRow>, paydays: seq<Day>, i: nat) {
    i <= |paydays|
    && Flatten(rows) == paydays[..i]
    && (i == 0 <==> |rows| == 0)
    && RowsOk(rows, paydays)
    && Paired(rows)
    && OpenEnd(rows, paydays, i)
  }

  lemma RowsStep(rows: seq<PaydayRow>, row: PaydayRow, paydays: seq<Day>, first: bool)
    requires first <==> |rows| == 0
    requires RowsOk(rows, paydays)
    requires WellFormed(row, paydays) && (row.isPriority <==> first || row.bonuses[0])
    ensures RowsOk(rows + [row], paydays)
  {
    forall r | 0 <= r < |rows + [row]|
      ensures WellFormed((rows + [row])[r], paydays)
      ensures (rows + [row])[r].isPriority <==> r == 0 || (rows + [row])[r].bonuses[0]
    {
      if r < |rows| {
        assert (rows + [row])[r] == rows[r];
      } else {
        assert (rows + [row])[r] == row;
      }
    }
  }

  lemma PairedStep(rows: seq<PaydayRow>, row: PaydayRow)
    requires Paired(rows)
    requires |rows| > 0 && !rows[|rows| - 1].isPriority && |rows[|rows| - 1].items| == 1 ==> row.isPriority
    ensures Paired(rows + [row])
  {
    assert forall r :: 0 <= r < |rows| ==> (rows + [row])[r] == rows[r];
  }

  /** Appending a row with the properties `NextRow` promises keeps every row property. */
  lemma BatchedAppend(rows: seq<PaydayRow>, row: PaydayRow, paydays: seq<Day>, i: nat)
    requires i < |paydays| && Batched(rows, paydays, i)
    requires i + |row.items| <= |paydays| && row.items == paydays[i..i + |row.items|]
    requires WellFormed(row, paydays)
    requires row.isPriority <==> PriorityAt(paydays, i)
    requires !row.isPriority && |row.items| == 1 ==> i + 1 == |paydays| || PriorityAt(paydays, i + 1)
    ensures Batched(rows + [row], paydays, i + |row.items|)
  {
    var i' := i + |row.items|;
    FlattenStep(rows, row, paydays, i);
    assert row.items[0] == paydays[i];
    RowsStep(rows, row, paydays, i == 0);
    PairedStep(rows, row);
    assert OpenEnd(rows + [row], paydays, i');
  }

  lemma FlattenStep(rows: seq<PaydayRow>, row: PaydayRow, paydays: seq<Day>, i: nat)
    requires i + |row.items| <= |paydays| && row.items == paydays[i..i + |row.items|]
    requires Flatten(rows) == paydays[..i]
    ensures Flatten(rows + [row]) == paydays[..i + |row.items|]
  {
    FlattenAppend(rows, row);
    assert paydays[..i + |row.items|] == paydays[..i] + row.items;
  }

  /** In rows laid out this way, every extra payday sits alone in a priority row. */
  lemma ExtraPaydayStandsAlone(rows: seq<PaydayRow>, paydays: seq<Day>, r: nat, k: nat)
    requires RowsOk(rows, paydays)
    requires r < |rows| && k < |rows[r].items|
    requires IsExtraPayDay(rows[r].items[k], paydays)
    ensures rows[r].isPriority && |rows[r].items| == 1
  {
    assert WellFormed(rows[r], paydays);
  }

  /** `batchedPaydays(_:)`. */
  method BatchedPaydays(paydays: seq<Day>) returns (rows: seq<PaydayRow>)
    ensures Flatten(rows) == paydays
    ensures |paydays| == 0 <==> |rows| == 0
    ensures RowsOk(rows, paydays)
    ensures forall r :: 0 <= r < |rows| ==>
              WellFormed(rows[r], paydays) && (rows[r].isPriority <==> r == 0 || rows[r].bonuses[0])
    ensures forall r :: 0 <= r < |rows| && !rows[r].isPriority && |rows[r].items| == 1 ==>
              r == |rows| - 1 || rows[r + 1].isPriority
  {
    rows := [];
    var i := 0;
    while i < |paydays|
      invariant Batched(rows, paydays, i)
      decreases |paydays| - i
    {
      rows, i := AppendRow(rows, paydays, i);
    }
    assert paydays[..i] == paydays;
  }

  /** The loop body: append the row `NextRow` builds and move past its paydays. */
  method AppendRow(rows: seq<PaydayRow>, paydays: seq<Day>, i: nat) returns (rows': seq<PaydayRow>, i': nat)
    requires i < |paydays| && Batched(rows, paydays, i)
    ensures i < i' && Batched(rows', paydays, i')
  {
    var row := NextRow(paydays, i);
    rows' := rows + [row];
    i' := i + |row.items|;
    BatchedAppend(rows, row, paydays, i);
  }
}
