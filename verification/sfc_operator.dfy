/** `SFCOperator.before_save`: copy the employee's name once from the Employee master. */
module SfcOperator {
  import opened Frappe

  datatype Operator = Operator(employee: string, employeeName: string)

  /** `lookup` is `frappe.get_value("Employee", employee, "employee_name")`. */
  function BeforeSave(o: Operator, lookup: string -> Option<string>): (r: Operator)
    ensures r.employee == o.employee
    ensures Filled(o.employeeName) ==> r == o
    ensures Filled(o.employee) && !Filled(o.employeeName) && lookup(o.employee).Some? && Filled(lookup(o.employee).value)
            ==> r.employeeName == lookup(o.employee).value
    ensures r.employeeName != o.employeeName ==> lookup(o.employee) == Some(r.employeeName)
  {
    o.(employeeName := Populate(o.employeeName, o.employee, lookup))
  }

  lemma BeforeSaveIdempotent(o: Operator, lookup: string -> Option<string>)
    ensures BeforeSave(BeforeSave(o, lookup), lookup) == BeforeSave(o, lookup)
  {
    PopulateIdempotent(o.employeeName, o.employee, lookup);
  }
}
