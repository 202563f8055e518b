/** The risk classifier: four threshold rules add points to a score, and the
    score is mapped to Low, Medium or High. */
module Risk {

  import opened Students

  // The four rules, each worth a fixed number of points.

  /** Attendance strictly below 75 percent is worth 2 points. */
  function AttendancePoints(r: Record): nat
  {
    if r.attendance < 75.0 then 2 else 0
  }

  /** More than 3 attempts is worth 2 points. */
  function AttemptPoints(r: Record): nat
  {
    if r.attempts > 3.0 then 2 else 0
  }

  /** The three tests, oldest first, fall strictly: Test3 < Test2 < Test1. */
  predicate FallingScores(r: Record)
  {
    r.test3 < r.test2 < r.test1
  }

  /** A strictly falling score trend is worth 1 point. */
  function TrendPoints(r: Record): nat
  {
    if FallingScores(r) then 1 else 0
  }

  /** A fee delay of more than 15 days is worth 1 point. */
  function FeePoints(r: Record): nat
  {
    if r.feeDelay > 15.0 then 1 else 0
  }

  /** The risk score: the sum of the points of all four rules. */
  function RiskScore(r: Record): (score: nat)
    ensures score <= 6
  {
    AttendancePoints(r) + AttemptPoints(r) + TrendPoints(r) + FeePoints(r)
  }

  /** The label of a score: the first of `>= 4` and `>= 2` that holds. */
  function LevelOfScore(score: int): (level: RiskLevel)
    ensures level == High <==> score >= 4
    ensures level == Medium <==> 2 <= score < 4
    ensures level == Low <==> score < 2
  {
    if score >= 4 then High
    else if score >= 2 then Medium
    else Low
  }

  /** The label every record is given; total and deterministic. It is High
      exactly when the score is at least 4, Medium exactly when it is 2 or 3. */
  function Classify(r: Record): (level: RiskLevel)
    ensures level == High <==> RiskScore(r) >= 4
    ensures level == Medium <==> 2 <= RiskScore(r) < 4
    ensures level == Low <==> RiskScore(r) < 2
  {
    LevelOfScore(RiskScore(r))
  }

  /** The classifier as the application runs it: an accumulator that each
      matching rule increases, then an if/elif chain over its value. */
  method CalculateRisk(row: Record) returns (level: RiskLevel)
    ensures level == Classify(row)
  {
    var riskScore := 0;
    if row.attendance < 75.0 {
      riskScore := riskScore + 2;
    }
    if row.attempts > 3.0 {
      riskScore := riskScore + 2;
    }
    if row.test3 < row.test2 < row.test1 {
      riskScore := riskScore + 1;
    }
    if row.feeDelay > 15.0 {
      riskScore := riskScore + 1;
    }
    if riskScore >= 4 {
      level := High;
    } else if riskScore >= 2 {
      level := Medium;
    } else {
      level := Low;
    }
  }

  /** The thresholds are strict: attendance exactly 75, exactly 3 attempts and
      a delay of exactly 15 days earn nothing, and equal consecutive test
      scores are not a falling trend. */
  lemma Boundaries(r: Record)
    ensures AttendancePoints(r.(attendance := 75.0)) == 0
    ensures AttemptPoints(r.(attempts := 3.0)) == 0
    ensures FeePoints(r.(feeDelay := 15.0)) == 0
    ensures r.test1 == r.test2 || r.test2 == r.test3 ==> TrendPoints(r) == 0
  {
  }

  /** A larger score never gives a lower label. */
  lemma LevelOfScoreMonotone(a: int, b: int)
    requires a <= b
    ensures Rank(LevelOfScore(a)) <= Rank(LevelOfScore(b))
  {
  }

  /** Lowering attendance, all else equal, never lowers the label. */
  lemma LowerAttendanceNeverLowersRisk(r: Record, attendance: real)
    requires attendance <= r.attendance
    ensures Rank(Classify(r)) <= Rank(Classify(r.(attendance := attendance)))
  {
  }

  /** Raising the number of attempts, all else equal, never lowers the label. */
  lemma MoreAttemptsNeverLowerRisk(r: Record, attempts: real)
    requires attempts >= r.attempts
    ensures Rank(Classify(r)) <= Rank(Classify(r.(attempts := attempts)))
  {
  }

  /** Raising the fee delay, all else equal, never lowers the label. */
  lemma LongerFeeDelayNeverLowersRisk(r: Record, feeDelay: real)
    requires feeDelay >= r.feeDelay
    ensures Rank(Classify(r)) <= Rank(Classify(r.(feeDelay := feeDelay)))
  {
  }

  /** A record that differs only in the columns the rules read. */
  function Sample(attendance: real, attempts: real, test1: real, test2: real, test3: real, feeDelay: real): Record
  {
    Record("S0001", "Student_1", "1", "A", attendance, attempts, test1, test2, test3, feeDelay)
  }

  /** Three records and the labels the rule table gives them. */
  lemma LiteralCases()
    ensures RiskScore(Sample(80.0, 2.0, 70.0, 60.0, 50.0, 5.0)) == 1
    ensures Classify(Sample(80.0, 2.0, 70.0, 60.0, 50.0, 5.0)) == Low
    ensures RiskScore(Sample(60.0, 4.0, 90.0, 95.0, 99.0, 20.0)) == 5
    ensures Classify(Sample(60.0, 4.0, 90.0, 95.0, 99.0, 20.0)) == High
    ensures RiskScore(Sample(70.0, 2.0, 50.0, 60.0, 70.0, 0.0)) == 2
    ensures Classify(Sample(70.0, 2.0, 50.0, 60.0, 70.0, 0.0)) == Medium
  {
  }

  /** The colour of a Risk_Level cell; any string other than "High" and
      "Medium" is shown green. */
  function RiskColor(risk: string): (color: string)
    ensures color == "red" <==> risk == "High"
    ensures color == "orange" <==> risk == "Medium"
    ensures color == "green" <==> risk != "High" && risk != "Medium"
  {
    if risk == "High" then "red"
    else if risk == "Medium" then "orange"
    else "green"
  }

  /** The three labels get three different colours. */
  lemma RiskColorOfLevels()
    ensures RiskColor(LevelName(High)) == "red"
    ensures RiskColor(LevelName(Medium)) == "orange"
    ensures RiskColor(LevelName(Low)) == "green"
  {
  }
}
