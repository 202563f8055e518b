/** Reconciliation of the three uploaded tables: two full outer merges on
    StudentID, then every missing cell is filled with a fixed default. Each
    table is a map from StudentID to its row, so keys are unique. */
module Reconcile {

  import opened Options
  import opened Students

  /** A row of the attendance table; any cell may be missing. */
  datatype AttendanceRow = AttendanceRow(
    attendance: Option<real>,
    attempts: Option<real>,
    name: Option<string>,
    standard: Option<string>,
    division: Option<string>)

  /** A row of the test-score table. */
  datatype TestRow = TestRow(test1: Option<real>, test2: Option<real>, test3: Option<real>)

  /** A row of the fee-payment table. */
  datatype FeeRow = FeeRow(feeDelay: Option<real>)

  type AttendanceTable = map<string, AttendanceRow>
  type TestTable = map<string, TestRow>
  type FeeTable = map<string, FeeRow>

  /** The cells an outer merge supplies for a key that one side lacks. */
  const NO_ATTENDANCE := AttendanceRow(None, None, None, None, None)
  const NO_TESTS := TestRow(None, None, None)
  const NO_FEE := FeeRow(None)

  /** A row of `attendance ⟗ tests`. */
  datatype PairRow = PairRow(attendance: AttendanceRow, tests: TestRow)

  /** A row of `(attendance ⟗ tests) ⟗ fees`: all columns, still with gaps. */
  datatype MergedRow = MergedRow(attendance: AttendanceRow, tests: TestRow, fee: FeeRow)

  /** The first outer merge: one row per key of either table, each side's
      columns taken from its own row when it has one. */
  function MergeTests(attendance: AttendanceTable, tests: TestTable): (m: map<string, PairRow>)
    ensures m.Keys == attendance.Keys + tests.Keys
    ensures forall id :: id in m ==>
      m[id].attendance == (if id in attendance then attendance[id] else NO_ATTENDANCE) &&
      m[id].tests == (if id in tests then tests[id] else NO_TESTS)
  {
    map id | id in attendance.Keys + tests.Keys ::
      PairRow(
        if id in attendance then attendance[id] else NO_ATTENDANCE,
        if id in tests then tests[id] else NO_TESTS)
  }

  /** The second outer merge, of the first one's result with the fee table. */
  function MergeFees(pairs: map<string, PairRow>, fees: FeeTable): (m: map<string, MergedRow>)
    ensures m.Keys == pairs.Keys + fees.Keys
    ensures forall id :: id in m ==>
      (id in pairs ==> m[id].attendance == pairs[id].attendance && m[id].tests == pairs[id].tests) &&
      (id !in pairs ==> m[id].attendance == NO_ATTENDANCE && m[id].tests == NO_TESTS) &&
      m[id].fee == (if id in fees then fees[id] else NO_FEE)
  {
    map id | id in pairs.Keys + fees.Keys ::
      var pair := if id in pairs then pairs[id] else PairRow(NO_ATTENDANCE, NO_TESTS);
      MergedRow(pair.attendance, pair.tests, if id in fees then fees[id] else NO_FEE)
  }

  /** Both merges, in the order the application performs them. */
  function Merged(attendance: AttendanceTable, tests: TestTable, fees: FeeTable): map<string, MergedRow>
  {
    MergeFees(MergeTests(attendance, tests), fees)
  }

  /** The default-fill: numbers become 0, except Attempts which becomes 1;
      Name, Standard and Division become "Unknown". A present cell keeps
      its value. */
  function FillDefaults(id: string, row: MergedRow): (r: Record)
    ensures r.id == id
    ensures row.attendance.name.Some? ==> r.name == row.attendance.name.value
    ensures row.attendance.standard.Some? ==> r.standard == row.attendance.standard.value
    ensures row.attendance.division.Some? ==> r.division == row.attendance.division.value
    ensures row.attendance.attendance.Some? ==> r.attendance == row.attendance.attendance.value
    ensures row.attendance.attempts.Some? ==> r.attempts == row.attendance.attempts.value
    ensures row.tests.test1.Some? ==> r.test1 == row.tests.test1.value
    ensures row.tests.test2.Some? ==> r.test2 == row.tests.test2.value
    ensures row.tests.test3.Some? ==> r.test3 == row.tests.test3.value
    ensures row.fee.feeDelay.Some? ==> r.feeDelay == row.fee.feeDelay.value
    ensures row.attendance.name.None? ==> r.name == "Unknown"
    ensures row.attendance.standard.None? ==> r.standard == "Unknown"
    ensures row.attendance.division.None? ==> r.division == "Unknown"
    ensures row.attendance.attendance.None? ==> r.attendance == 0.0
    ensures row.attendance.attempts.None? ==> r.attempts == 1.0
    ensures row.tests.test1.None? ==> r.test1 == 0.0
    ensures row.tests.test2.None? ==> r.test2 == 0.0
    ensures row.tests.test3.None? ==> r.test3 == 0.0
    ensures row.fee.feeDelay.None? ==> r.feeDelay == 0.0
  {
    Record(
      id,
      row.attendance.name.GetOr("Unknown"),
      row.attendance.standard.GetOr("Unknown"),
      row.attendance.division.GetOr("Unknown"),
      row.attendance.attendance.GetOr(0.0),
      row.attendance.attempts.GetOr(1.0),
      row.tests.test1.GetOr(0.0),
      row.tests.test2.GetOr(0.0),
      row.tests.test3.GetOr(0.0),
      row.fee.feeDelay.GetOr(0.0))
  }

  /** The StudentIDs that occur in a table of records. */
  function Ids(data: seq<Record>): set<string>
  {
    set i | 0 <= i < |data| :: data[i].id
  }

  /** No StudentID occurs twice. */
  predicate UniqueIds(data: seq<Record>)
  {
    forall i, j :: 0 <= i < j < |data| ==> data[i].id != data[j].id
  }


  /** `r` is the default-filled merged row of its own StudentID. */
  predicate RowFilled(r: Record, merged: map<string, MergedRow>)
  {
    r.id in merged && r == FillDefaults(r.id, merged[r.id])
  }

  /** `data` holds exactly one default-filled row per key of `merged`. */
  predicate FilledRows(data: seq<Record>, merged: map<string, MergedRow>)
  {
    && UniqueIds(data)
    && Ids(data) == merged.Keys
    && |data| == |merged.Keys|
    && forall i :: 0 <= i < |data| ==> RowFilled(data[i], merged)
  }

  /** `data` is the reconciliation of the three tables: exactly one row per
      StudentID of any table, each row the default-filled merged row. */
  predicate IsReconciliation(data: seq<Record>, attendance: AttendanceTable, tests: TestTable, fees: FeeTable)
  {
    FilledRows(data, Merged(attendance, tests, fees))
  }

  /** The default-fill applied to every row of the merged frame. */
  method FillMissing(merged: map<string, MergedRow>) returns (data: seq<Record>)
    ensures FilledRows(data, merged)
  {
    var pending := merged.Keys;
    data := [];
    assert Ids(data) == {};
    while pending != {}
      invariant pending <= merged.Keys
      invariant Ids(data) !! pending
      invariant Ids(data) + pending == merged.Keys
      invariant |data| + |pending| == |merged.Keys|
      invariant UniqueIds(data)
      invariant forall i :: 0 <= i < |data| ==> RowFilled(data[i], merged)
      decreases pending
    {
      var id :| id in pending;
      var row := FillDefaults(id, merged[id]);
      FillStep(data, pending, merged, id);
      data := data + [row];
      pending := pending - {id};
    }
  }

  /** One step of the default-fill: the row of a pending StudentID joins the
      table and its ID leaves the pending set. */
  lemma FillStep(data: seq<Record>, pending: set<string>, merged: map<string, MergedRow>, id: string)
    requires id in pending && pending <= merged.Keys
    requires Ids(data) !! pending && UniqueIds(data)
    requires forall i :: 0 <= i < |data| ==> RowFilled(data[i], merged)
    ensures var longer := data + [FillDefaults(id, merged[id])];
      && Ids(longer) !! pending - {id}
      && Ids(longer) + (pending - {id}) == Ids(data) + pending
      && UniqueIds(longer)
      && forall i :: 0 <= i < |longer| ==> RowFilled(longer[i], merged)
  {
    var row := FillDefaults(id, merged[id]);
    assert row.id == id && RowFilled(row, merged);
    AppendNewId(data, row);
    var longer := data + [row];
    forall i | 0 <= i < |longer|
      ensures RowFilled(longer[i], merged)
    {
      if i < |data| {
        assert longer[i] == data[i];
      }
    }
  }

  /** Appending a row with a new StudentID keeps the IDs unique and adds its ID. */
  lemma AppendNewId(data: seq<Record>, row: Record)
    requires UniqueIds(data) && row.id !in Ids(data)
    ensures UniqueIds(data + [row])
    ensures Ids(data + [row]) == Ids(data) + {row.id}
  {
    var longer := data + [row];
    assert forall i :: 0 <= i < |data| ==> longer[i] == data[i];
    assert longer[|data|] == row;
    forall i, j | 0 <= i < j < |longer|
      ensures longer[i].id != longer[j].id
    {
      if j == |data| {
        assert longer[i].id in Ids(data);
      }
    }
  }

  /** Both merges, then the default-fill. */
  method ReconcileTables(attendance: AttendanceTable, tests: TestTable, fees: FeeTable) returns (data: seq<Record>)
    ensures IsReconciliation(data, attendance, tests, fees)
    ensures Ids(data) == attendance.Keys + tests.Keys + fees.Keys
  {
    var merged := Merged(attendance, tests, fees);
    data := FillMissing(merged);
    MergedKeys(attendance, tests, fees);
  }

  /** Every StudentID of any table appears in the merged table. */
  lemma MergedKeys(attendance: AttendanceTable, tests: TestTable, fees: FeeTable)
    ensures Merged(attendance, tests, fees).Keys == attendance.Keys + tests.Keys + fees.Keys
  {
  }

  /** A cell present in its own table keeps its value. */
  lemma PresentCellsKept(attendance: AttendanceTable, tests: TestTable, fees: FeeTable, id: string)
    requires id in attendance.Keys + tests.Keys + fees.Keys
    ensures var r := FillDefaults(id, Merged(attendance, tests, fees)[id]);
      && r.id == id
      && (id in attendance && attendance[id].attendance.Some? ==> r.attendance == attendance[id].attendance.value)
      && (id in attendance && attendance[id].attempts.Some? ==> r.attempts == attendance[id].attempts.value)
      && (id in attendance && attendance[id].name.Some? ==> r.name == attendance[id].name.value)
      && (id in attendance && attendance[id].standard.Some? ==> r.standard == attendance[id].standard.value)
      && (id in attendance && attendance[id].division.Some? ==> r.division == attendance[id].division.value)
      && (id in tests && tests[id].test1.Some? ==> r.test1 == tests[id].test1.value)
      && (id in tests && tests[id].test2.Some? ==> r.test2 == tests[id].test2.value)
      && (id in tests && tests[id].test3.Some? ==> r.test3 == tests[id].test3.value)
      && (id in fees && fees[id].feeDelay.Some? ==> r.feeDelay == fees[id].feeDelay.value)
  {
  }

  /** A StudentID found only in the fee table gets every default and its own
      fee delay. */
  lemma FeeOnlyStudent(attendance: AttendanceTable, tests: TestTable, fees: FeeTable, id: string, delay: real)
    requires id !in attendance && id !in tests
    requires id in fees && fees[id].feeDelay == Some(delay)
    ensures FillDefaults(id, Merged(attendance, tests, fees)[id])
         == Record(id, "Unknown", "Unknown", "Unknown", 0.0, 1.0, 0.0, 0.0, 0.0, delay)
  {
  }

  /** A StudentID missing from the fee table gets a fee delay of 0. */
  lemma MissingFeeIsZero(attendance: AttendanceTable, tests: TestTable, fees: FeeTable, id: string)
    requires id in attendance.Keys + tests.Keys
    requires id !in fees
    ensures FillDefaults(id, Merged(attendance, tests, fees)[id]).feeDelay == 0.0
  {
  }
}
