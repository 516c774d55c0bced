/**
 The two quality classifiers that compare a measured value against a
 parameter's specification limits: the server-side three-way assessment
 (Critical / Warning / Normal, with a warning band of 10 % of the spec range
 inside each limit) and the coarser two-way rule used by the forms
 (In Control / Out of Control).
 */
module QualityStatus {

  datatype Severity = Normal | Warning | Critical

  /** The status text written to the record. */
  function SeverityLabel(s: Severity): (t: string)
    ensures |t| > 0
  {
    match s
    case Normal => "Normal"
    case Warning => "Warning"
    case Critical => "Critical"
  }

  /** Different severities are written as different texts. */
  lemma SeverityLabelInjective(a: Severity, b: Severity)
    requires SeverityLabel(a) == SeverityLabel(b)
    ensures a == b
  {
  }

  /** The warning margin: `spec_range * 0.1`. */
  function WarningMargin(lsl: real, usl: real): real {
    (usl - lsl) / 10.0
  }

  function Min(a: real, b: real): real {
    if a <= b then a else b
  }

  /**
   How deep inside the spec range a value lies: its distance to the nearer
   limit, negative when it lies outside the range.
   */
  function Depth(value: real, lsl: real, usl: real): real {
    Min(value - lsl, usl - value)
  }

  /**
   `RealTimeProcessData.assess_quality_status` on a found parameter with
   both limits set. The contract states the classes by depth: outside the
   range is Critical, less than one margin inside is Warning, and at least
   one margin inside is Normal.
   */
  function Assess(value: real, lsl: real, usl: real): (s: Severity)
    ensures s == Critical <==> Depth(value, lsl, usl) < 0.0
    ensures s == Warning <==> 0.0 <= Depth(value, lsl, usl) < WarningMargin(lsl, usl)
    ensures s == Normal <==> WarningMargin(lsl, usl) <= Depth(value, lsl, usl)
  {
    var margin := WarningMargin(lsl, usl);
    if value > usl || value < lsl then Critical
    else if value > usl - margin || value < lsl + margin then Warning
    else Normal
  }

  /** With LSL = 10 and USL = 20 the margin is 1. */
  lemma AssessExamples()
    ensures Assess(20.5, 10.0, 20.0) == Critical
    ensures Assess(9.5, 10.0, 20.0) == Critical
    ensures Assess(19.5, 10.0, 20.0) == Warning
    ensures Assess(20.0, 10.0, 20.0) == Warning
    ensures Assess(10.0, 10.0, 20.0) == Warning
    ensures Assess(19.0, 10.0, 20.0) == Normal
    ensures Assess(15.0, 10.0, 20.0) == Normal
  {
  }

  /** With the limits the wrong way round, no value escapes Critical. */
  lemma InvertedLimitsAlwaysCritical(value: real, lsl: real, usl: real)
    requires usl < lsl
    ensures Assess(value, lsl, usl) == Critical
  {
  }

  /** With properly ordered limits the midpoint is always Normal, so all three classes occur. */
  lemma MidpointIsNormal(lsl: real, usl: real)
    requires lsl < usl
    ensures Assess((lsl + usl) / 2.0, lsl, usl) == Normal
    ensures Assess(usl, lsl, usl) == Warning
    ensures Assess(usl + 1.0, lsl, usl) == Critical
  {
  }

  /** The classifier treats both limits alike: mirroring a value through the midpoint keeps its class. */
  lemma AssessSymmetric(value: real, lsl: real, usl: real)
    ensures Assess(lsl + usl - value, lsl, usl) == Assess(value, lsl, usl)
  {
  }

  /** Moving a value towards the middle of the range never makes its class worse. */
  lemma AssessMonotoneTowardsCentre(v: real, w: real, lsl: real, usl: real)
    requires Depth(v, lsl, usl) <= Depth(w, lsl, usl)
    ensures Assess(v, lsl, usl) == Normal ==> Assess(w, lsl, usl) == Normal
    ensures Assess(w, lsl, usl) == Critical ==> Assess(v, lsl, usl) == Critical
  {
  }

  datatype ControlState = InControl | OutOfControl

  function ControlLabel(s: ControlState): (t: string)
    ensures |t| > 0
  {
    match s
    case InControl => "In Control"
    case OutOfControl => "Out of Control"
  }

  /**
   The two-way rule of the SPC Data Point and Batch AMB forms: a value
   strictly beyond either limit is Out of Control; the limits themselves
   count as In Control.
   */
  function ClientAssess(value: real, lower: real, upper: real): (s: ControlState)
    ensures s == InControl <==> lower <= value <= upper
  {
    if value > upper || value < lower then OutOfControl else InControl
  }

  /** The form's rule and the server's rule agree on what lies outside the limits. */
  lemma ClientAgreesWithServer(value: real, lsl: real, usl: real)
    ensures ClientAssess(value, lsl, usl) == OutOfControl <==> Assess(value, lsl, usl) == Critical
    ensures ClientAssess(value, lsl, usl) == InControl <==> Assess(value, lsl, usl) != Critical
  {
  }
}
