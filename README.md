# Drop-out risk dashboard: a Dafny model

This project models the logic behind a small Streamlit dashboard. The dashboard
merges three per-student tables (attendance, test scores, fee payments) into one
table keyed by StudentID and fills missing cells with fixed defaults. It falls
back to generated data when the uploads are missing or unreadable. It labels
every student Low, Medium or High risk with a four-rule point score, filters the
table by Standard, Division and Risk_Level, and counts the labels for a chart.
On request it e-mails the mentor one alert per High-risk row of the filtered
table.

Modules, one per component of `dropout_dashboard_extended.py`:

- `Students` (students.dfy): the unified row `Record`, the label `RiskLevel`, and a classified row `Student`.
- `Risk` (risk.dfy): the four scoring rules, the score-to-label map and `risk_color`. `CalculateRisk` is the accumulator as the code writes it. `Classify` is the specification it is proved against.
- `Reconcile` (reconcile.dfy): the two full outer merges, as functions on maps, and the default-fill. `ReconcileTables` produces one filled row per StudentID.
- `Generator` (generator.dfy): `str(i)`, `zfill`, the IDs `"S" + str(i).zfill(4)` and the names `"Student_i"`, and the generated table. The random columns are a parameter.
- `Seqs` (seqs.dfy): order-preserving selection (boolean-mask indexing) and its lemmas. These are subsequence, soundness and exact multiplicities.
- `Dashboard` (dashboard.dfy): adding the Risk_Level column, the sidebar filter, and `value_counts().reindex([...]).fillna(0)`.
- `Notify` (notify.dfy): the configuration gate and the send loop over High rows with its `sent_count`.
- `App` (app.dfy): one refresh of `main`, composed from the above.

Numeric columns are `real`. Pandas stores them as floats once a merge has
introduced missing cells, and every rule compares them with a constant. The SMTP
transport is the parameter `send: Student -> bool`: `true` means the alert went
out, `false` means `send_email` raised. The seeded random draws of the generator
are the parameter `draw: nat -> Draw`.

## Model

| member | source | states |
|---|---|---|
| `Risk.RiskScore` | dropout_dashboard_extended.py:41-49 | the score is the sum of the four rules' points (2, 2, 1, 1) and never exceeds 6 |
| `Risk.LevelOfScore` | dropout_dashboard_extended.py:51-56 | High exactly when the score is at least 4, Medium exactly when it is 2 or 3, Low exactly when it is below 2 |
| `Risk.CalculateRisk` | dropout_dashboard_extended.py:40-56 | the accumulator-and-if/elif classifier returns the label of `Classify` for every record; it has no precondition, so it is total |
| `Risk.Classify` | dropout_dashboard_extended.py:40-56 | every record gets exactly one label: High iff its score is at least 4, Medium iff the score is 2 or 3, Low iff the score is below 2 |
| `Risk.Boundaries` | dropout_dashboard_extended.py:42-48 | attendance exactly 75, attempts exactly 3 and fee delay exactly 15 earn no points; equal consecutive test scores are no falling trend |
| `Risk.LevelOfScoreMonotone` | dropout_dashboard_extended.py:51-56 | a higher score never gives a lower label in the order Low < Medium < High |
| `Risk.LowerAttendanceNeverLowersRisk` | dropout_dashboard_extended.py:41-56 | lowering attendance with all else fixed never lowers the label |
| `Risk.MoreAttemptsNeverLowerRisk` | dropout_dashboard_extended.py:41-56 | raising attempts with all else fixed never lowers the label |
| `Risk.LongerFeeDelayNeverLowersRisk` | dropout_dashboard_extended.py:41-56 | raising the fee delay with all else fixed never lowers the label |
| `Risk.LiteralCases` | dropout_dashboard_extended.py:40-56 | (80, 2, 70/60/50, 5) scores 1 and is Low; (60, 4, 90/95/99, 20) scores 5 and is High; (70, 2, 50/60/70, 0) scores 2 and is Medium |
| `Risk.RiskColor` | dropout_dashboard_extended.py:59-65 | red iff the label is "High", orange iff "Medium", green for every other string |
| `Risk.RiskColorOfLevels` | dropout_dashboard_extended.py:59-65 | the three labels get red, orange and green |
| `Reconcile.FillDefaults` | dropout_dashboard_extended.py:99-109 | the row keeps its StudentID; each present cell keeps its value; a missing Name, Standard or Division becomes "Unknown", a missing Attempts becomes 1, and every other missing number becomes 0 |
| `Reconcile.MergeTests` | dropout_dashboard_extended.py:95 | the outer merge holds a row for every key of either table; each side's columns come from its own row, or are all missing when that table lacks the key |
| `Reconcile.MergeFees` | dropout_dashboard_extended.py:96 | the second outer merge keeps the first merge's columns for its keys and adds the fee columns, missing where the fee table lacks the key |
| `Reconcile.MergedKeys` | dropout_dashboard_extended.py:95-96 | the merged keys are exactly the union of the three tables' StudentIDs |
| `Reconcile.FillMissing` | dropout_dashboard_extended.py:99-109 | one default-filled row per merged key, no StudentID twice, as many rows as keys |
| `Reconcile.FillStep` | dropout_dashboard_extended.py:99-109 | filling one more key's row adds exactly that StudentID, keeps the IDs unique and every row default-filled |
| `Reconcile.ReconcileTables` | dropout_dashboard_extended.py:94-109 | the result holds every StudentID of any table exactly once, and each row is its merged row with the defaults filled in |
| `Reconcile.PresentCellsKept` | dropout_dashboard_extended.py:95-109 | a cell present in its source table keeps its value in the reconciled row |
| `Reconcile.FeeOnlyStudent` | dropout_dashboard_extended.py:95-109 | an ID only in the fee table gets attendance 0, attempts 1, Name/Standard/Division "Unknown", test scores 0 and its own fee delay |
| `Reconcile.MissingFeeIsZero` | dropout_dashboard_extended.py:96-102 | an ID missing from the fee table gets a fee delay of 0 |
| `Generator.NatToString` | dropout_dashboard_extended.py:15 | `str(i)` is a non-empty digit string without a leading zero for i > 0 |
| `Generator.ParseNatToString` | dropout_dashboard_extended.py:15 | reading `str(n)` back as a decimal number gives n |
| `Generator.NatToStringInjective` | dropout_dashboard_extended.py:15 | different numbers have different decimal strings |
| `Generator.NatToStringLength` | dropout_dashboard_extended.py:15 | a number below 10^k has at most k digits |
| `Generator.ZFill` | dropout_dashboard_extended.py:15 | `zfill` of an unsigned digit string keeps it as a suffix, pads with '0' only, and gives length max(len, width) |
| `Generator.ParseZFill` | dropout_dashboard_extended.py:15 | zero-padding a digit string keeps it a digit string and keeps its numeric value |
| `Generator.ZFillInjective` | dropout_dashboard_extended.py:15 | zero-padding strings without a leading zero maps different strings to different strings |
| `Generator.ZFillIsFixedDigits` | dropout_dashboard_extended.py:15 | zero-padding `str(n)` to width w gives the last w digits of n when n < 10^w |
| `Generator.StudentId` | dropout_dashboard_extended.py:15 | the ID is "S" followed by at least four digits, and those digits read back as the student number |
| `Generator.StudentName` | dropout_dashboard_extended.py:16 | the name is "Student_" followed by digits that read back as the student number |
| `Generator.StudentIdInjective` | dropout_dashboard_extended.py:15 | different student numbers get different IDs |
| `Generator.StudentIdLength` | dropout_dashboard_extended.py:15 | for 1 <= i <= 9999 the ID has exactly 5 characters |
| `Generator.StudentIdOrdered` | dropout_dashboard_extended.py:15 | for 1 <= i < j <= 9999, ID i sorts before ID j in string order |
| `Generator.StudentIdsAscending` | dropout_dashboard_extended.py:15 | for m <= 9999 the IDs of students 1..m are five characters long and ascend in string order |
| `Generator.GenerateStudentData` | dropout_dashboard_extended.py:13-37 | N rows; row i is student i + 1 with ID "S" + zfill(str(i + 1), 4) and name "Student_" + str(i + 1) |
| `Generator.GeneratedIdsDistinct` | dropout_dashboard_extended.py:15-16 | the generated IDs are pairwise distinct for every N |
| `Generator.GeneratedIdsAscending` | dropout_dashboard_extended.py:15-16 | for N <= 9999 the generated IDs ascend in string order and each has length 5 |
| `Seqs.Select` | dropout_dashboard_extended.py:133-137 | boolean-mask indexing never yields more rows than it started with |
| `Seqs.SelectIsSubsequence` | dropout_dashboard_extended.py:133-137 | the selected rows are a subsequence of the frame: the mask keeps the row order |
| `Seqs.SelectSound` | dropout_dashboard_extended.py:133-137 | every selected row passes the mask and comes from the frame |
| `Seqs.SelectMultiplicity` | dropout_dashboard_extended.py:133-137 | a row passing the mask is selected exactly as often as it occurs in the frame; a row failing it never |
| `Seqs.SelectComplete` | dropout_dashboard_extended.py:133-137 | every row of the frame that passes the mask is selected |
| `Seqs.SelectAll` | dropout_dashboard_extended.py:169 | a mask that every row passes leaves the frame unchanged |
| `Dashboard.AddRiskColumn` | dropout_dashboard_extended.py:121 | every row keeps its columns and gets the label `Classify` gives it, in the same order |
| `Dashboard.FilterStudents` | dropout_dashboard_extended.py:133-137 | the filtered rows are an order-preserving subsequence; each kept row has its Standard, Division and Risk_Level selected; every such row is kept, as often as it occurs, and no other |
| `Dashboard.OccurrencesPositive` | dropout_dashboard_extended.py:153 | a label is counted at least once iff it occurs in the rows |
| `Dashboard.OccurrencesSum` | dropout_dashboard_extended.py:153 | the Low, Medium and High counts add up to the number of rows |
| `Dashboard.ValueCounts` | dropout_dashboard_extended.py:153 | `value_counts` has a key for each label that occurs, with its positive number of occurrences |
| `Dashboard.Reindex` | dropout_dashboard_extended.py:153 | reindexing lists the counts in the order of the labels, 0 for a label without a count |
| `Dashboard.RiskCounts` | dropout_dashboard_extended.py:153 | three bars, the numbers of Low, Medium and High rows, summing to the filtered length |
| `Notify.ConfigCompleteFields` | dropout_dashboard_extended.py:166 | `all([...])` over the five settings holds exactly when no string setting is empty and the port is not 0 |
| `Notify.HighRiskStudents` | dropout_dashboard_extended.py:169 | exactly the High rows of the filtered table, in order: every one is High and filtered, every High filtered row is there, and each High row occurs as often as in the filtered table |
| `Notify.AllHighKept` | dropout_dashboard_extended.py:169 | a frame whose every row is High passes the High mask unchanged |
| `Notify.Notices` | dropout_dashboard_extended.py:174-195 | one notice per row, in order, Sent exactly when the transport accepts that row |
| `Notify.SentCount` | dropout_dashboard_extended.py:173-196 | the success count never exceeds the number of notices |
| `Notify.SentCountIsAccepted` | dropout_dashboard_extended.py:190-196 | the success count equals the number of rows the transport accepts |
| `Notify.SendNotifications` | dropout_dashboard_extended.py:165-196 | an incomplete configuration sends nothing; no High row gives the no-high-risk outcome; otherwise every High filtered row is attempted in order, and `sent_count` is the number of successes |
| `Notify.SendEach` | dropout_dashboard_extended.py:173-196 | the loop tries every High row in order, records Sent or Failed for each without stopping at a failure, and its `sent_count` is the number of Sent notices |
| `Notify.OnlyHighRiskNotified` | dropout_dashboard_extended.py:169-196 | every attempted send is for a High row of the filtered table; `sent_count` is at most the number of High rows and equals the accepted ones |
| `Notify.PartialFailureIsolated` | dropout_dashboard_extended.py:169-196 | with three High rows and a failure on the second, the first and third are sent and the count is 2 |
| `Notify.OneFailureOfThree` | dropout_dashboard_extended.py:190-196 | three rows whose second send fails give the notices Sent, Failed, Sent and a count of 2 |
| `App.LoadData` | dropout_dashboard_extended.py:88-118 | complete readable uploads are reconciled; otherwise (a file missing, or reading or merging raised) the generated 1000-row table is used |
| `App.RunDashboard` | dropout_dashboard_extended.py:80-196 | one refresh: every row gets `Classify`'s label; the filtered table and the counts are the ones above and the counts sum to the filtered length; without a request there is no notification; with one, the outcome is the configuration error, the no-high-risk message, or one notice per High filtered row in order with `sent_count` successes, exactly as the button handler decides |

## Left out

- The Streamlit interface is not modelled: titles, sidebar widgets, multiselect defaults, data-frame styling, the bar chart and the messages. These are presentation only. The user's choices enter as the parameters `Selection`, `EmailConfig` and `notify`.
- `pd.read_csv` is CSV parsing inside a foreign library. A table arrives already parsed as a map. A failure to read or merge arrives as `Unreadable` and only selects the fallback.
- `send_email` and `smtplib.SMTP_SSL` are network I/O. They are the oracle `send`, which answers for each row whether the alert went out. So the transport's answer is a function of the row, not of the attempt.
- The message subject and body are template text and are not modelled.
- The random columns of `generate_student_data` come from numpy's seeded generator. Their distributions and `.round(2)` are not modelled. They enter through `draw`, unconstrained.
- Pandas behaviour outside unique keys is not modelled: NaN arithmetic, duplicate StudentIDs (rows would multiply), an empty StudentID cell (it is not in the `fillna` dict of lines 99-109, so it stays NaN, and the merges match NaN keys with each other), and a missing StudentID column. The tables are maps, so keys are unique.
- Reconcile.ReconcileTables: the row order is unspecified. Pandas sorts the keys of an outer merge; the model lays rows out in an arbitrary order.
- `fillna(..., inplace=True)` and `data['Risk_Level'] = ...` change the frame in place. The model builds new sequences instead (`FillMissing`, `AddRiskColumn`), so aliasing of the frame is not captured. A filled row has a different type from an unfilled one.
- Floating point is modelled as exact reals. Float rounding and NaN comparisons (always false) are not modelled. After the fill no filled cell is NaN.
- Each uploaded table is assumed to carry all its columns, with numbers in the six numeric columns and text in Standard and Division. The source fails otherwise, and every one of these failures is outside the `try` of dropout_dashboard_extended.py:89-115, so the refresh stops with an error instead of falling back to the generated table. (`fillna` at line 99 skips a column that is not there.) The model's rows have every column with its declared type by construction, so none of these failure paths is modelled:
  - a missing Attendance%, Attempts, Test2_Score, Test3_Score or Fee_Delay_Days column raises KeyError in `calculate_risk` (lines 42-48), called by `data.apply` at line 121. A missing Test1_Score column raises there only on a row with Test3_Score < Test2_Score, because the chained comparison of line 46 reads Test1_Score only then; otherwise it raises KeyError at `filtered_data[display_cols]` on line 148;
  - text in Attendance%, Attempts or Fee_Delay_Days raises TypeError at the comparisons of lines 42, 44 and 48. At line 46, a text cell compared with a number raises TypeError; the chained comparison stops early when `Test3_Score < Test2_Score` is false, and text in all three Test columns is compared as strings and raises nothing. The model's scores are numbers only, so string comparison is not modelled either;
  - a missing Standard column raises KeyError at line 125, a missing Division column at line 126, and a missing Name column at `filtered_data[display_cols]` on line 148;
  - `pd.read_csv` reads a Standard column of digits (the app's own grades "1" to "12" of line 9) as numbers. When a Standard cell is missing (an empty cell, or a StudentID absent from the attendance table), `fillna` puts the string 'Unknown' into that numeric column, and `sorted(data['Standard'].unique())` at line 125 raises TypeError. The model types Standard as text, so its refresh carries on. The same holds for Division at line 126.
- The SMTP port is an `int`. `all([...])` treats it as missing only when it is 0.
