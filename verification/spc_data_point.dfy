/**
 The SPC Data Point form handlers: `refresh` defaults the measurement time,
 `parameter` copies the parameter's name from the master, and `data_value`
 sets the two-way In Control / Out of Control status from the parameter's
 spec limits. The asynchronous server calls are taken as already answered:
 each answer is an `Option` input.
 */
module SpcDataPoint {
  import opened Frappe
  import opened SpcLimits
  import opened QualityStatus

  datatype DataPoint = DataPoint(
    parameter: string,
    parameterName: string,
    dataValue: Option<real>,
    measurementTime: string,
    batchReference: string,
    qualityStatus: string)

  /** `refresh`: an empty measurement time takes the current time; a set one is kept. */
  function OnRefresh(d: DataPoint, now: string): (r: DataPoint)
    ensures Filled(d.measurementTime) ==> r == d
    ensures !Filled(d.measurementTime) ==> r == d.(measurementTime := now)
  {
    d.(measurementTime := DefaultIfEmpty(d.measurementTime, now))
  }

  /**
   `parameter`: when the parameter is set and the master answers, the form
   takes the master's `parameter_name`, whatever was there before; with no
   parameter or no answer the record is untouched. `lookup` is
   `frappe.db.get_value("SPC Parameter Master", name, "parameter_name")`:
   Some(x) is an answer carrying x, None is an empty answer.
   */
  function OnParameter(d: DataPoint, lookup: string -> Option<string>): (r: DataPoint)
    ensures r.(parameterName := d.parameterName) == d
    ensures r.parameterName != d.parameterName ==> lookup(d.parameter) == Some(r.parameterName)
    ensures Filled(d.parameter) && lookup(d.parameter).Some? ==> r.parameterName == lookup(d.parameter).value
    ensures !Filled(d.parameter) || lookup(d.parameter).None? ==> r == d
  {
    if Filled(d.parameter) then
      match lookup(d.parameter)
      case Some(name) => d.(parameterName := name)
      case None => d
    else
      d
  }

  /**
   `data_value`: with a parameter, a truthy value and a master whose spec
   limits are both truthy, the status becomes Out of Control exactly when the
   value lies outside [LSL, USL] and In Control otherwise. In every other case
   the record is untouched.
   */
  function OnDataValue(d: DataPoint, lookup: string -> Option<ParameterMaster>): (r: DataPoint)
    ensures r.(qualityStatus := d.qualityStatus) == d
    ensures r.qualityStatus != d.qualityStatus ==> r.qualityStatus in {"In Control", "Out of Control"}
    ensures !(Filled(d.parameter) && Truthy(d.dataValue)) ==> r == d
    ensures lookup(d.parameter).None? ==> r == d
    ensures lookup(d.parameter).Some? && !SpecLimitsSet(lookup(d.parameter).value) ==> r == d
    ensures Filled(d.parameter) && Truthy(d.dataValue) && lookup(d.parameter).Some?
            && SpecLimitsSet(lookup(d.parameter).value) ==>
              var p := lookup(d.parameter).value;
              var v := d.dataValue.value;
              (r.qualityStatus == "In Control" <==> p.lowerSpecLimit.value <= v <= p.upperSpecLimit.value)
              && (r.qualityStatus == "Out of Control" <==> v < p.lowerSpecLimit.value || p.upperSpecLimit.value < v)
  {
    if Filled(d.parameter) && Truthy(d.dataValue) then
      match lookup(d.parameter)
      case Some(p) =>
        if SpecLimitsSet(p) then
          d.(qualityStatus := ControlLabel(ClientAssess(d.dataValue.value, p.lowerSpecLimit.value, p.upperSpecLimit.value)))
        else
          d
      case None => d
    else
      d
  }

  /** The form's Out of Control is exactly the server's Critical for the same value and master. */
  lemma OutOfControlIffCritical(d: DataPoint, lookup: string -> Option<ParameterMaster>)
    requires Filled(d.parameter) && Truthy(d.dataValue) && lookup(d.parameter).Some?
    requires SpecLimitsSet(lookup(d.parameter).value)
    ensures var p := lookup(d.parameter).value;
            OnDataValue(d, lookup).qualityStatus == "Out of Control" <==>
              Assess(d.dataValue.value, p.lowerSpecLimit.value, p.upperSpecLimit.value) == Critical
  {
    var p := lookup(d.parameter).value;
    ClientAgreesWithServer(d.dataValue.value, p.lowerSpecLimit.value, p.upperSpecLimit.value);
  }
}
