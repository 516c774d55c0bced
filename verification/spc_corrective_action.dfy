/** `SPCCorrectiveAction.validate`: an advisory when the due date has passed. */
module SpcCorrectiveAction {
  import opened Frappe
  import opened Dates

  datatype CorrectiveAction = CorrectiveAction(dueDate: string)

  function Validate(a: CorrectiveAction, today: string): (r: Outcome<CorrectiveAction, ()>)
    ensures r.Saved? && r.doc == a
    ensures r.advised <==> Filled(a.dueDate) && Before(a.dueDate, today)
  {
    Saved(a, Filled(a.dueDate) && Before(a.dueDate, today))
  }

  /** A due date of today or later raises nothing. */
  lemma NoAdvisoryWhenDueTodayOrLater(a: CorrectiveAction, today: string)
    requires a.dueDate == today || Before(today, a.dueDate)
    ensures !Validate(a, today).advised
  {
    BeforeIrreflexive(today);
    BeforeAsymmetric(today, a.dueDate);
  }
}
