/** `SPCParameterSpecification.before_save`: copy the parameter's name once from its master. */
module SpcParameterSpecification {
  import opened Frappe

  datatype Specification = Specification(parameter: string, parameterName: string)

  /** `lookup` is `frappe.get_value("SPC Parameter Master", parameter, "parameter_name")`. */
  function BeforeSave(s: Specification, lookup: string -> Option<string>): (r: Specification)
    ensures r.parameter == s.parameter
    ensures Filled(s.parameterName) ==> r == s
    ensures !Filled(s.parameter) ==> r == s
    ensures Filled(s.parameter) && !Filled(s.parameterName) && lookup(s.parameter).Some? && Filled(lookup(s.parameter).value)
            ==> r.parameterName == lookup(s.parameter).value
    ensures lookup(s.parameter).None? ==> r == s
  {
    s.(parameterName := Populate(s.parameterName, s.parameter, lookup))
  }

  /** Without a parameter the lookup is never consulted; a second save is a no-op. */
  lemma BeforeSaveNoLookupAndIdempotent(s: Specification, lookup: string -> Option<string>, other: string -> Option<string>)
    ensures !Filled(s.parameter) ==> BeforeSave(s, lookup) == BeforeSave(s, other)
    ensures BeforeSave(BeforeSave(s, lookup), lookup) == BeforeSave(s, lookup)
  {
    if !Filled(s.parameter) {
      PopulateIgnoresLookup(s.parameterName, s.parameter, lookup, other);
    }
    PopulateIdempotent(s.parameterName, s.parameter, lookup);
  }
}
