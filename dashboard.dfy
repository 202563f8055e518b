/** What the dashboard derives from the unified table: the Risk_Level
    column, the sidebar filter and the per-level counts of the chart. */
module Dashboard {

  import opened Students
  import opened Seqs
  import Risk

  /** `data['Risk_Level'] = data.apply(calculate_risk, axis=1)`: every row is
      classified, one at a time, and keeps its other columns. */
  method AddRiskColumn(data: seq<Record>) returns (table: seq<Student>)
    ensures |table| == |data|
    ensures forall i :: 0 <= i < |data| ==> table[i].record == data[i] && table[i].riskLevel == Risk.Classify(data[i])
  {
    table := [];
    var i := 0;
    while i < |data|
      invariant 0 <= i <= |data|
      invariant |table| == i
      invariant forall k :: 0 <= k < i ==> table[k].record == data[k] && table[k].riskLevel == Risk.Classify(data[k])
    {
      var level := Risk.CalculateRisk(data[i]);
      table := table + [Student(data[i], level)];
      i := i + 1;
    }
  }

  /** The values chosen in the three multiselect widgets. */
  datatype Selection = Selection(standards: set<string>, divisions: set<string>, riskLevels: set<string>)

  /** A row passes the filter when its Standard, Division and Risk_Level are
      each among the chosen values. */
  predicate Selected(s: Student, selection: Selection)
  {
    && s.record.standard in selection.standards
    && s.record.division in selection.divisions
    && LevelName(s.riskLevel) in selection.riskLevels
  }

  /** The boolean-mask filter: exactly the selected rows, in table order. */
  function FilterStudents(table: seq<Student>, selection: Selection): (filtered: seq<Student>)
    ensures IsSubsequence(filtered, table)
    ensures forall s :: s in filtered ==> Selected(s, selection)
    ensures forall i :: 0 <= i < |table| && Selected(table[i], selection) ==> table[i] in filtered
    ensures forall s :: multiset(filtered)[s] == if Selected(s, selection) then multiset(table)[s] else 0
  {
    var keep := (s: Student) => Selected(s, selection);
    SelectIsSubsequence(table, keep);
    SelectSound(table, keep);
    SelectComplete(table, keep);
    forall s
      ensures multiset(Select(table, keep))[s] == if Selected(s, selection) then multiset(table)[s] else 0
    {
      SelectMultiplicity(table, keep, s);
    }
    Select(table, keep)
  }

  /** The x-axis of the chart: `['Low', 'Medium', 'High']`. */
  const RISK_LEVELS: seq<string> := ["Low", "Medium", "High"]

  /** How many rows carry the label spelled `name`. */
  function Occurrences(rows: seq<Student>, name: string): nat
  {
    if rows == [] then 0
    else (if LevelName(rows[0].riskLevel) == name then 1 else 0) + Occurrences(rows[1..], name)
  }

  /** The labels that occur in `rows`. */
  function LevelsPresent(rows: seq<Student>): set<string>
  {
    set i | 0 <= i < |rows| :: LevelName(rows[i].riskLevel)
  }

  /** A label that occurs is counted at least once, and one that does not is
      counted zero times. */
  lemma {:induction false} OccurrencesPositive(rows: seq<Student>, name: string)
    ensures Occurrences(rows, name) > 0 <==> name in LevelsPresent(rows)
  {
    if rows != [] {
      OccurrencesPositive(rows[1..], name);
      assert LevelsPresent(rows) == {LevelName(rows[0].riskLevel)} + LevelsPresent(rows[1..]) by {
        forall x | x in LevelsPresent(rows)
          ensures x in {LevelName(rows[0].riskLevel)} + LevelsPresent(rows[1..])
        {
          var i :| 0 <= i < |rows| && LevelName(rows[i].riskLevel) == x;
          if i > 0 {
            assert rows[1..][i - 1] == rows[i];
          }
        }
        forall x | x in LevelsPresent(rows[1..])
          ensures x in LevelsPresent(rows)
        {
          var i :| 0 <= i < |rows[1..]| && LevelName(rows[1..][i].riskLevel) == x;
          assert rows[i + 1] == rows[1..][i];
        }
      }
    }
  }

  /** Every row carries one of the three labels, so the three counts add up
      to the number of rows. */
  lemma {:induction false} OccurrencesSum(rows: seq<Student>)
    ensures Occurrences(rows, "Low") + Occurrences(rows, "Medium") + Occurrences(rows, "High") == |rows|
  {
    if rows != [] {
      OccurrencesSum(rows[1..]);
    }
  }

  /** `value_counts()`: each label that occurs, with how often it occurs. */
  function ValueCounts(rows: seq<Student>): (counts: map<string, nat>)
    ensures counts.Keys == LevelsPresent(rows)
    ensures forall k :: k in counts ==> counts[k] == Occurrences(rows, k) && counts[k] > 0
  {
    forall k | k in LevelsPresent(rows)
      ensures Occurrences(rows, k) > 0
    {
      OccurrencesPositive(rows, k);
    }
    map k | k in LevelsPresent(rows) :: Occurrences(rows, k)
  }

  /** `.reindex(labels).fillna(0)`: the counts in the order of `labels`, zero
      for a label that was not counted. */
  function Reindex(counts: map<string, nat>, labels: seq<string>): (r: seq<nat>)
    ensures |r| == |labels|
    ensures forall i :: 0 <= i < |labels| && labels[i] !in counts ==> r[i] == 0
    ensures forall i :: 0 <= i < |labels| && labels[i] in counts ==> r[i] == counts[labels[i]]
  {
    seq(|labels|, i requires 0 <= i < |labels| => if labels[i] in counts then counts[labels[i]] else 0)
  }

  /** The bars of the risk chart: the number of Low, Medium and High rows,
      which together account for every filtered row. */
  function RiskCounts(filtered: seq<Student>): (counts: seq<nat>)
    ensures |counts| == 3
    ensures forall i :: 0 <= i < 3 ==> counts[i] == Occurrences(filtered, RISK_LEVELS[i])
    ensures counts[0] + counts[1] + counts[2] == |filtered|
  {
    var counts := Reindex(ValueCounts(filtered), RISK_LEVELS);
    forall i | 0 <= i < 3
      ensures counts[i] == Occurrences(filtered, RISK_LEVELS[i])
    {
      OccurrencesPositive(filtered, RISK_LEVELS[i]);
    }
    OccurrencesSum(filtered);
    counts
  }
}
