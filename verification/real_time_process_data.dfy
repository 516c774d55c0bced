/**
 `RealTimeProcessData.before_save`: default the timestamp, then, when a
 parameter and a truthy value are present, assess the quality status from
 the parameter's spec limits. A failed parameter lookup is swallowed and
 yields "Normal".
 */
module RealTimeProcessData {
  import opened Frappe
  import opened SpcLimits
  import opened QualityStatus

  datatype ProcessData = ProcessData(
    parameter: string,
    dataValue: Option<real>,
    timestamp: string,
    qualityStatus: string)

  /**
   The status the assessment writes, or None when it leaves the status
   alone. `lookup` stands for `frappe.get_doc("SPC Parameter Master", name)`;
   None is a lookup that raised.
   */
  function AssessedStatus(d: ProcessData, lookup: string -> Option<ParameterMaster>): (s: Option<string>)
    requires Filled(d.parameter) && Truthy(d.dataValue)
    ensures lookup(d.parameter).None? ==> s == Some("Normal")
    ensures s.Some? ==> s.value in {"Normal", "Warning", "Critical"}
    ensures lookup(d.parameter).Some? ==>
              (s.Some? <==> SpecLimitsSet(lookup(d.parameter).value))
  {
    match lookup(d.parameter)
    case None => Some("Normal")
    case Some(p) =>
      if SpecLimitsSet(p) then
        Some(SeverityLabel(Assess(d.dataValue.value, p.lowerSpecLimit.value, p.upperSpecLimit.value)))
      else
        None
  }

  function BeforeSave(d: ProcessData, now: string, lookup: string -> Option<ParameterMaster>): (r: ProcessData)
    ensures r.parameter == d.parameter && r.dataValue == d.dataValue
    ensures Filled(d.timestamp) ==> r.timestamp == d.timestamp
    ensures !Filled(d.timestamp) ==> r.timestamp == now
    ensures !(Filled(d.parameter) && Truthy(d.dataValue)) ==> r.qualityStatus == d.qualityStatus
    ensures Filled(d.parameter) && Truthy(d.dataValue) && lookup(d.parameter).None? ==>
              r.qualityStatus == "Normal"
    ensures r.qualityStatus != d.qualityStatus ==> r.qualityStatus in {"Normal", "Warning", "Critical"}
  {
    var stamped := d.(timestamp := DefaultIfEmpty(d.timestamp, now));
    if Filled(d.parameter) && Truthy(d.dataValue) then
      match AssessedStatus(d, lookup)
      case Some(s) => stamped.(qualityStatus := s)
      case None => stamped
    else
      stamped
  }

  /**
   With a found parameter whose limits are both set, the status is the
   three-way class of the value; the text "Critical" is written exactly when
   the value lies outside [LSL, USL].
   */
  lemma BeforeSaveClassifies(d: ProcessData, now: string, lookup: string -> Option<ParameterMaster>)
    requires Filled(d.parameter) && Truthy(d.dataValue) && lookup(d.parameter).Some?
    requires SpecLimitsSet(lookup(d.parameter).value)
    ensures var p := lookup(d.parameter).value;
            var v, lsl, usl := d.dataValue.value, p.lowerSpecLimit.value, p.upperSpecLimit.value;
            && BeforeSave(d, now, lookup).qualityStatus == SeverityLabel(Assess(v, lsl, usl))
            && (BeforeSave(d, now, lookup).qualityStatus == "Critical" <==> v > usl || v < lsl)
  {
    var p := lookup(d.parameter).value;
    var v, lsl, usl := d.dataValue.value, p.lowerSpecLimit.value, p.upperSpecLimit.value;
    if BeforeSave(d, now, lookup).qualityStatus == "Critical" {
      SeverityLabelInjective(Assess(v, lsl, usl), Critical);
    }
  }

  /** A found parameter with a 0 or missing limit leaves the status unchanged. */
  lemma BeforeSaveKeepsStatusWithoutLimits(d: ProcessData, now: string, lookup: string -> Option<ParameterMaster>)
    requires lookup(d.parameter).Some?
    requires !SpecLimitsSet(lookup(d.parameter).value)
    ensures BeforeSave(d, now, lookup).qualityStatus == d.qualityStatus
  {
  }

  /**
   The swallowed lookup failure is indistinguishable from a genuine Normal
   classification: a record whose parameter cannot be read ends up exactly as
   it would with any parameter whose limits class the value as Normal.
   */
  lemma LookupFailureLooksNormal(d: ProcessData, now: string, failing: string -> Option<ParameterMaster>, found: string -> Option<ParameterMaster>)
    requires Filled(d.parameter) && Truthy(d.dataValue)
    requires failing(d.parameter).None? && found(d.parameter).Some?
    requires SpecLimitsSet(found(d.parameter).value)
    requires Assess(d.dataValue.value, found(d.parameter).value.lowerSpecLimit.value, found(d.parameter).value.upperSpecLimit.value) == Normal
    ensures BeforeSave(d, now, failing) == BeforeSave(d, now, found)
  {
  }

  /** A second save with the same clock-independent master data changes nothing more. */
  lemma BeforeSaveIdempotent(d: ProcessData, now: string, later: string, lookup: string -> Option<ParameterMaster>)
    requires Filled(now)
    ensures BeforeSave(BeforeSave(d, now, lookup), later, lookup) == BeforeSave(d, now, lookup)
  {
  }
}
