/** The canonical per-student row of the dashboard and its derived risk label. */
module Students {

  /** One row of the unified table once every missing cell has been filled.
      The numeric columns are reals: pandas keeps them as floats once a merge
      has introduced missing cells, and every rule compares them with a
      threshold. */
  datatype Record = Record(
    id: string,
    name: string,
    standard: string,
    division: string,
    attendance: real,
    attempts: real,
    test1: real,
    test2: real,
    test3: real,
    feeDelay: real)

  /** The three values of the Risk_Level column. */
  datatype RiskLevel = Low | Medium | High

  /** The label as the Risk_Level column spells it. */
  function LevelName(level: RiskLevel): string
  {
    match level
    case Low => "Low"
    case Medium => "Medium"
    case High => "High"
  }

  /** The order Low < Medium < High. */
  function Rank(level: RiskLevel): nat
  {
    match level
    case Low => 0
    case Medium => 1
    case High => 2
  }

  /** A row of the table after the Risk_Level column has been added. */
  datatype Student = Student(record: Record, riskLevel: RiskLevel)
}
