/** `SPCCorrectiveActionItem.validate`: an advisory when completion precedes the target. */
module SpcCorrectiveActionItem {
  import opened Frappe
  import opened Dates

  datatype ActionItem = ActionItem(targetDate: string, completionDate: string)

  function Validate(i: ActionItem): (r: Outcome<ActionItem, ()>)
    ensures r.Saved? && r.doc == i
    ensures r.advised <==> Filled(i.targetDate) && Filled(i.completionDate) && Before(i.completionDate, i.targetDate)
  {
    Saved(i, Filled(i.targetDate) && Filled(i.completionDate) && Before(i.completionDate, i.targetDate))
  }

  /** Completion on or after the target raises nothing. */
  lemma NoAdvisoryWhenOnOrAfterTarget(i: ActionItem)
    requires i.completionDate == i.targetDate || Before(i.targetDate, i.completionDate)
    ensures !Validate(i).advised
  {
    BeforeIrreflexive(i.targetDate);
    BeforeAsymmetric(i.targetDate, i.completionDate);
  }
}
