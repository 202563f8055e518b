/** One refresh of the dashboard: load or generate the data, classify every
    row, filter, count, and on request notify the mentor. */
module App {

  import opened Options
  import opened Students
  import Risk
  import Reconcile
  import Generator
  import Dashboard
  import Notify

  /** What the three file uploaders yield. */
  datatype Upload =
    | NotUploaded                  // at least one of the three files is missing
    | Unreadable(cause: string)    // reading or merging the files raised an error
    | Tables(attendance: Reconcile.AttendanceTable, tests: Reconcile.TestTable, fees: Reconcile.FeeTable)

  /** The data the dashboard works on: the reconciled uploads, or the
      generated fallback when no complete, readable upload is available. */
  method LoadData(upload: Upload, draw: nat -> Generator.Draw) returns (data: seq<Record>, synthetic: bool)
    ensures synthetic <==> !upload.Tables?
    ensures synthetic ==> data == Generator.GenerateStudentData(Generator.NUM_STUDENTS, draw)
    ensures upload.Tables? ==> Reconcile.IsReconciliation(data, upload.attendance, upload.tests, upload.fees)
  {
    if upload.Tables? {
      data := Reconcile.ReconcileTables(upload.attendance, upload.tests, upload.fees);
      synthetic := false;
    } else {
      data := Generator.GenerateStudentData(Generator.NUM_STUDENTS, draw);
      synthetic := true;
    }
  }

  /** The records of a classified table. */
  function Records(table: seq<Student>): (records: seq<Record>)
    ensures |records| == |table|
    ensures forall i :: 0 <= i < |table| ==> records[i] == table[i].record
  {
    seq(|table|, i requires 0 <= i < |table| => table[i].record)
  }

  /** Everything one refresh produces. */
  datatype View = View(
    table: seq<Student>,
    synthetic: bool,
    filtered: seq<Student>,
    riskCounts: seq<nat>,
    notification: Option<Notify.Outcome>)

  /** One refresh; `notify` says whether the notification button was pressed. */
  method RunDashboard(
    upload: Upload,
    draw: nat -> Generator.Draw,
    selection: Dashboard.Selection,
    config: Notify.EmailConfig,
    notify: bool,
    send: Student -> bool)
    returns (view: View)
    ensures view.synthetic <==> !upload.Tables?
    ensures view.synthetic ==> Records(view.table) == Generator.GenerateStudentData(Generator.NUM_STUDENTS, draw)
    ensures upload.Tables? ==> Reconcile.IsReconciliation(Records(view.table), upload.attendance, upload.tests, upload.fees)
    ensures forall i :: 0 <= i < |view.table| ==> view.table[i].riskLevel == Risk.Classify(view.table[i].record)
    ensures view.filtered == Dashboard.FilterStudents(view.table, selection)
    ensures view.riskCounts == Dashboard.RiskCounts(view.filtered)
    ensures view.riskCounts[0] + view.riskCounts[1] + view.riskCounts[2] == |view.filtered|
    ensures !notify ==> view.notification == None
    ensures notify ==> view.notification == Some(
      if !Notify.ConfigComplete(config) then Notify.MissingConfiguration
      else if Notify.HighRiskStudents(view.filtered) == [] then Notify.NoHighRisk
      else
        var notices := Notify.Notices(Notify.HighRiskStudents(view.filtered), send);
        Notify.Delivered(notices, Notify.SentCount(notices)))
    ensures notify && view.notification.value.Delivered? ==>
      forall n :: n in view.notification.value.notices ==> n.student in view.filtered && n.student.riskLevel == High
  {
    var data, synthetic := LoadData(upload, draw);
    var table := Dashboard.AddRiskColumn(data);
    assert Records(table) == data;
    var filtered := Dashboard.FilterStudents(table, selection);
    var counts := Dashboard.RiskCounts(filtered);
    var notification: Option<Notify.Outcome> := None;
    if notify {
      var outcome := Notify.SendNotifications(config, filtered, send);
      if outcome.Delivered? {
        Notify.OnlyHighRiskNotified(filtered, send);
      }
      notification := Some(outcome);
    }
    view := View(table, synthetic, filtered, counts, notification);
  }
}
