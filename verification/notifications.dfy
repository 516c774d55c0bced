/**
 The `get_context` functions of the three SPC notifications. Each replaces
 a non-dict argument by an empty mapping and then `setdefault`s a subject
 and a message, so the result always carries both keys, keeps every value
 already present, and adds nothing else.
 */
module Notifications {
  import opened Text

  /** The argument a notification hands to `get_context`. */
  datatype ContextArg = Dict(entries: map<string, string>) | NotDict

  /** `if not isinstance(context, dict): context = {}`. */
  function AsDict(arg: ContextArg): map<string, string> {
    if arg.Dict? then arg.entries else map[]
  }

  /** Python's `dict.setdefault(key, value)`, as the mapping it leaves behind. */
  function SetDefault(m: map<string, string>, key: string, value: string): (r: map<string, string>)
    ensures r.Keys == m.Keys + {key}
    ensures key in m ==> r == m
    ensures key !in m ==> r[key] == value
    ensures forall k :: k in m ==> r[k] == m[k]
  {
    if key in m then m else m[key := value]
  }

  /** The whole of every builder: two `setdefault` calls on the argument taken as a dict. */
  function WithDefaults(arg: ContextArg, subject: string, message: string): (r: map<string, string>)
    ensures r.Keys == AsDict(arg).Keys + {"subject", "message"}
    ensures forall k :: k in AsDict(arg) ==> r[k] == AsDict(arg)[k]
    ensures "subject" !in AsDict(arg) ==> r["subject"] == subject
    ensures "message" !in AsDict(arg) ==> r["message"] == message
  {
    SetDefault(SetDefault(AsDict(arg), "subject", subject), "message", message)
  }

  /** Feeding a built context back in returns it unchanged. */
  lemma WithDefaultsIdempotent(arg: ContextArg, subject: string, message: string)
    ensures WithDefaults(Dict(WithDefaults(arg, subject, message)), subject, message) == WithDefaults(arg, subject, message)
  {
  }

  /** `spc_corrective_action_new_notification.get_context`. */
  function CorrectiveActionNewContext(arg: ContextArg): (r: map<string, string>)
    ensures "subject" in r && "message" in r
    ensures r.Keys == AsDict(arg).Keys + {"subject", "message"}
    ensures forall k :: k in AsDict(arg) ==> r[k] == AsDict(arg)[k]
    ensures "subject" !in AsDict(arg) ==> r["subject"] == "New Corrective Action Created"
    ensures "message" !in AsDict(arg) ==> r["message"] == "A new corrective action has been created and requires attention."
  {
    WithDefaults(arg, "New Corrective Action Created", "A new corrective action has been created and requires attention.")
  }

  /** `spc_corrective_action_due_reminder_notification.get_context`. */
  function CorrectiveActionDueReminderContext(arg: ContextArg): (r: map<string, string>)
    ensures "subject" in r && "message" in r
    ensures r.Keys == AsDict(arg).Keys + {"subject", "message"}
    ensures forall k :: k in AsDict(arg) ==> r[k] == AsDict(arg)[k]
    ensures "subject" !in AsDict(arg) ==> r["subject"] == "Corrective Action Due Reminder"
    ensures "message" !in AsDict(arg) ==> r["message"] == "A corrective action is due soon and requires attention."
  {
    WithDefaults(arg, "Corrective Action Due Reminder", "A corrective action is due soon and requires attention.")
  }

  /** The notification's own name, against which every branch below tests a fixed substring. */
  const ReportGeneratedName: string := "spc_report_generated_notification"

  /**
   `spc_report_generated_notification.get_context`, with its chain of
   substring tests against the constant notification name kept as written.
   */
  function ReportGeneratedContext(arg: ContextArg): (r: map<string, string>)
    ensures forall k :: k in AsDict(arg) ==> k in r && r[k] == AsDict(arg)[k]
  {
    if Contains(ReportGeneratedName, "alert_new") then
      WithDefaults(arg, "New SPC Alert Created", "A new SPC quality alert has been triggered.")
    else if Contains(ReportGeneratedName, "alert_escalation") then
      WithDefaults(arg, "SPC Alert Escalation", "An SPC alert has been escalated.")
    else if Contains(ReportGeneratedName, "report_generated") then
      WithDefaults(arg, "SPC Report Generated", "An SPC report has been generated.")
    else if Contains(ReportGeneratedName, "process_capability") then
      WithDefaults(arg, "Process Capability Study Completed", "A process capability study has been completed.")
    else
      AsDict(arg)
  }

  /** The name has no 'w', so it cannot contain "alert_new". */
  lemma ReportNameLacksAlertNew()
    ensures !Contains(ReportGeneratedName, "alert_new")
  {
    assert "alert_new"[8] == 'w';
    NotContainedWhenCharMissing(ReportGeneratedName, "alert_new", 8);
  }

  /** The name has no 'l', so it cannot contain "alert_escalation". */
  lemma ReportNameLacksAlertEscalation()
    ensures !Contains(ReportGeneratedName, "alert_escalation")
  {
    assert "alert_escalation"[1] == 'l';
    NotContainedWhenCharMissing(ReportGeneratedName, "alert_escalation", 1);
  }

  /** "report_generated" occurs in the name right after "spc_". */
  lemma ReportNameHasReportGenerated()
    ensures Contains(ReportGeneratedName, "report_generated")
  {
    var head, tail := "spc_", "_notification";
    assert ReportGeneratedName == head + "report_generated" + tail;
    assert ReportGeneratedName[|head|..|head| + |"report_generated"|] == "report_generated";
    assert OccursAt("report_generated", ReportGeneratedName, 4);
  }

  /**
   Only the "report_generated" branch can run, so the builder is the plain
   two-default builder with the report texts.
   */
  lemma ReportGeneratedTakesOneBranch(arg: ContextArg)
    ensures ReportGeneratedContext(arg) == WithDefaults(arg, "SPC Report Generated", "An SPC report has been generated.")
  {
    ReportNameLacksAlertNew();
    ReportNameLacksAlertEscalation();
    ReportNameHasReportGenerated();
  }

  /** The report builder on any input: both keys present, the report texts as defaults, idempotent. */
  lemma ReportGeneratedDefaults(arg: ContextArg)
    ensures var r := ReportGeneratedContext(arg);
            && r.Keys == AsDict(arg).Keys + {"subject", "message"}
            && ("subject" !in AsDict(arg) ==> r["subject"] == "SPC Report Generated")
            && ("message" !in AsDict(arg) ==> r["message"] == "An SPC report has been generated.")
            && ReportGeneratedContext(Dict(r)) == r
  {
    ReportGeneratedTakesOneBranch(arg);
    ReportGeneratedTakesOneBranch(Dict(ReportGeneratedContext(arg)));
    WithDefaultsIdempotent(arg, "SPC Report Generated", "An SPC report has been generated.");
  }
}
