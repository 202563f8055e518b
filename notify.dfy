/** E-mail alerts for high-risk students: a configuration check, then one
    send per High row of the filtered table, each failure caught on its own. */
module Notify {

  import opened Students
  import opened Seqs

  /** The five fields of the sidebar's e-mail configuration. */
  datatype EmailConfig = EmailConfig(
    smtpServer: string,
    smtpPort: int,
    senderEmail: string,
    senderPassword: string,
    mentorEmail: string)

  /** A configuration value as Python sees it: a string or a number. */
  datatype Value = Text(text: string) | Number(number: int)

  /** Python truthiness: an empty string and the number 0 are false. */
  predicate Truthy(v: Value)
  {
    match v
    case Text(t) => t != ""
    case Number(x) => x != 0
  }

  /** `all(values)`. */
  predicate All(values: seq<Value>)
  {
    forall i :: 0 <= i < |values| ==> Truthy(values[i])
  }

  /** `all([smtp_server, smtp_port, sender_email, sender_password, mentor_email])`. */
  predicate ConfigComplete(c: EmailConfig)
  {
    All([Text(c.smtpServer), Number(c.smtpPort), Text(c.senderEmail), Text(c.senderPassword), Text(c.mentorEmail)])
  }

  /** The configuration is complete exactly when no string field is empty
      and the port is not 0. */
  lemma ConfigCompleteFields(c: EmailConfig)
    ensures ConfigComplete(c) <==>
      c.smtpServer != "" && c.smtpPort != 0 && c.senderEmail != "" && c.senderPassword != "" && c.mentorEmail != ""
  {
    var values := [Text(c.smtpServer), Number(c.smtpPort), Text(c.senderEmail), Text(c.senderPassword), Text(c.mentorEmail)];
    if ConfigComplete(c) {
      assert Truthy(values[0]) && Truthy(values[1]) && Truthy(values[2]) && Truthy(values[3]) && Truthy(values[4]);
    }
  }

  /** What the dashboard reports for one attempted send. */
  datatype Notice = Sent(student: Student) | Failed(student: Student)

  /** What pressing the notification button produces. */
  datatype Outcome =
    | MissingConfiguration
    | NoHighRisk
    | Delivered(notices: seq<Notice>, sentCount: nat)

  /** The mask `Risk_Level == 'High'`. */
  predicate IsHigh(s: Student)
  {
    s.riskLevel == High
  }

  /** `filtered_data[filtered_data['Risk_Level'] == 'High']`. */
  function HighRiskStudents(filtered: seq<Student>): (high: seq<Student>)
    ensures forall s :: s in high ==> s.riskLevel == High && s in filtered
    ensures forall i :: 0 <= i < |filtered| && filtered[i].riskLevel == High ==> filtered[i] in high
    ensures IsSubsequence(high, filtered)
    ensures forall s :: multiset(high)[s] == if s.riskLevel == High then multiset(filtered)[s] else 0
  {
    forall s
      ensures multiset(Select(filtered, IsHigh))[s] == if s.riskLevel == High then multiset(filtered)[s] else 0
    {
      SelectMultiplicity(filtered, IsHigh, s);
    }
    SelectSound(filtered, IsHigh);
    SelectComplete(filtered, IsHigh);
    SelectIsSubsequence(filtered, IsHigh);
    Select(filtered, IsHigh)
  }

  /** One notice per row, in order: Sent when the transport accepted it. */
  function Notices(rows: seq<Student>, send: Student -> bool): (notices: seq<Notice>)
    ensures |notices| == |rows|
    ensures forall i :: 0 <= i < |rows| ==> notices[i].student == rows[i] && (notices[i].Sent? <==> send(rows[i]))
  {
    seq(|rows|, i requires 0 <= i < |rows| => if send(rows[i]) then Sent(rows[i]) else Failed(rows[i]))
  }

  /** The number of successful sends in a list of notices. */
  function SentCount(notices: seq<Notice>): (n: nat)
    ensures n <= |notices|
  {
    if notices == [] then 0
    else (if notices[0].Sent? then 1 else 0) + SentCount(notices[1..])
  }

  /** The successful sends are exactly the rows the transport accepts. */
  lemma {:induction false} SentCountIsAccepted(rows: seq<Student>, send: Student -> bool)
    ensures SentCount(Notices(rows, send)) == |Select(rows, send)|
  {
    if rows != [] {
      SentCountIsAccepted(rows[1..], send);
      assert Notices(rows, send)[1..] == Notices(rows[1..], send);
    }
  }

  /** The notification button. `send` is the SMTP transport: for each row it
      either delivers the alert (true) or raises an error (false). */
  method SendNotifications(config: EmailConfig, filtered: seq<Student>, send: Student -> bool) returns (outcome: Outcome)
    ensures !ConfigComplete(config) ==> outcome == MissingConfiguration
    ensures ConfigComplete(config) && HighRiskStudents(filtered) == [] ==> outcome == NoHighRisk
    ensures ConfigComplete(config) && HighRiskStudents(filtered) != [] ==>
      outcome == Delivered(Notices(HighRiskStudents(filtered), send), SentCount(Notices(HighRiskStudents(filtered), send)))
  {
    if !ConfigComplete(config) {
      return MissingConfiguration;
    }
    var high := HighRiskStudents(filtered);
    if high == [] {
      return NoHighRisk;
    }
    var notices, sentCount := SendEach(high, send);
    outcome := Delivered(notices, sentCount);
  }

  /** The loop over the High rows: each send is tried in turn, a failure is
      caught and recorded, and `sent_count` counts the successes. */
  method SendEach(high: seq<Student>, send: Student -> bool) returns (notices: seq<Notice>, sentCount: nat)
    ensures notices == Notices(high, send)
    ensures sentCount == SentCount(notices)
  {
    sentCount := 0;
    notices := [];
    var i := 0;
    while i < |high|
      invariant 0 <= i <= |high|
      invariant notices == Notices(high[..i], send)
      invariant sentCount == SentCount(notices)
    {
      var row := high[i];
      if send(row) {
        notices := notices + [Sent(row)];
        sentCount := sentCount + 1;
      } else {
        notices := notices + [Failed(row)];
      }
      SentCountAppend(notices[..i], notices[i]);
      assert notices[..i] == Notices(high[..i], send);
      assert high[..i + 1] == high[..i] + [row];
      i := i + 1;
    }
    assert high[..i] == high;
  }

  /** Appending one notice adds one to the count when it is a success. */
  lemma {:induction false} SentCountAppend(notices: seq<Notice>, n: Notice)
    ensures SentCount(notices + [n]) == SentCount(notices) + (if n.Sent? then 1 else 0)
  {
    if notices != [] {
      SentCountAppend(notices[1..], n);
      assert (notices + [n])[1..] == notices[1..] + [n];
    } else {
      assert ([] + [n])[1..] == [];
    }
  }

  /** Every send that is attempted is for a High row of the filtered table,
      and the count of successes never exceeds the number of High rows. */
  lemma OnlyHighRiskNotified(filtered: seq<Student>, send: Student -> bool)
    ensures var high := HighRiskStudents(filtered);
      var notices := Notices(high, send);
      && (forall i :: 0 <= i < |notices| ==> notices[i].student.riskLevel == High && notices[i].student in filtered)
      && SentCount(notices) <= |high|
      && SentCount(notices) == |Select(high, send)|
  {
    var high := HighRiskStudents(filtered);
    SentCountIsAccepted(high, send);
    assert forall i :: 0 <= i < |high| ==> high[i] in high;
  }

  /** Three High rows, the transport fails for the second: the first and the
      third are still sent and two successes are reported. */
  lemma PartialFailureIsolated(a: Student, b: Student, c: Student, send: Student -> bool)
    requires a.riskLevel == High && b.riskLevel == High && c.riskLevel == High
    requires send(a) && !send(b) && send(c)
    ensures var notices := Notices(HighRiskStudents([a, b, c]), send);
      && notices == [Sent(a), Failed(b), Sent(c)]
      && SentCount(notices) == 2
  {
    AllHighKept([a, b, c]);
    OneFailureOfThree(a, b, c, send);
  }

  /** A frame of High rows passes the High mask unchanged. */
  lemma AllHighKept(rows: seq<Student>)
    requires forall k :: 0 <= k < |rows| ==> rows[k].riskLevel == High
    ensures HighRiskStudents(rows) == rows
  {
    SelectAll(rows, IsHigh);
  }

  /** The notices and the count for three rows of which the second fails. */
  lemma OneFailureOfThree(a: Student, b: Student, c: Student, send: Student -> bool)
    requires send(a) && !send(b) && send(c)
    ensures Notices([a, b, c], send) == [Sent(a), Failed(b), Sent(c)]
    ensures SentCount([Sent(a), Failed(b), Sent(c)]) == 2
  {
    var expected := [Sent(a), Failed(b), Sent(c)];
    assert Notices([a, b, c], send) == expected;
    assert SentCount(expected[1..][1..]) == 1 by {
      assert expected[1..][1..] == [Sent(c)];
      assert expected[1..][1..][1..] == [];
    }
    assert expected[1..] == [Failed(b), Sent(c)];
  }
}
