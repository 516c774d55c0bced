/** `SPCAlert.validate`: an advisory for an unassigned High or Critical alert. */
module SpcAlert {
  import opened Frappe

  datatype Alert = Alert(severity: string, assignedTo: string)

  function Validate(a: Alert): (r: Outcome<Alert, ()>)
    ensures r.Saved? && r.doc == a
    ensures r.advised <==> !Filled(a.assignedTo) && (a.severity == "High" || a.severity == "Critical")
  {
    Saved(a, !Filled(a.assignedTo) && a.severity in ["High", "Critical"])
  }

  /** Low and Medium alerts, and assigned alerts, raise nothing. */
  lemma NoAdvisoryForLowOrAssigned(a: Alert)
    requires a.severity in ["Low", "Medium"] || Filled(a.assignedTo)
    ensures !Validate(a).advised
  {
  }
}
