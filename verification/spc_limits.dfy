/**
 Limit consistency of the two SPC master records: the specification limits
 of an SPC Parameter Master and the control limits and centre line of an
 SPC Control Chart. Both checks compare only truthy fields, so a limit of 0
 is treated exactly like a missing one.
 */
module SpcLimits {
  import opened Frappe

  /** An SPC Parameter Master: a measurable parameter and its spec limits. */
  datatype ParameterMaster = ParameterMaster(
    name: string,
    parameterName: string,
    upperSpecLimit: Option<real>,
    lowerSpecLimit: Option<real>)

  /** Both spec limits are present and non-zero, so the classifiers use them. */
  predicate SpecLimitsSet(p: ParameterMaster) {
    Truthy(p.upperSpecLimit) && Truthy(p.lowerSpecLimit)
  }

  datatype LimitError =
    | SpecLimitsInverted   // upper spec limit not above the lower one
    | ControlLimitsInverted  // UCL not above LCL
    | CenterAboveUpper     // centre line above UCL
    | CenterBelowLower     // centre line below LCL

  /**
   The ordering a parameter master must respect: whenever both limits are
   present and non-zero, the upper one lies strictly above the lower one.
   */
  predicate SpecLimitsOrdered(p: ParameterMaster) {
    SpecLimitsSet(p) ==> p.lowerSpecLimit.value < p.upperSpecLimit.value
  }

  /** `SPCParameterMaster.validate`: a pure check that never changes the record. */
  function ValidateParameterMaster(p: ParameterMaster): (r: Outcome<ParameterMaster, LimitError>)
    ensures r.Saved? <==> SpecLimitsOrdered(p)
    ensures r.Saved? ==> r.doc == p && !r.advised
    ensures r.Thrown? ==> r.error == SpecLimitsInverted
  {
    if SpecLimitsSet(p) && p.upperSpecLimit.value <= p.lowerSpecLimit.value then
      Thrown(SpecLimitsInverted)
    else
      Saved(p, false)
  }

  /** A limit that is 0 or missing switches the check off, whatever the other limit is. */
  lemma ParameterMasterIgnoresFalsyLimit(p: ParameterMaster)
    requires !SpecLimitsSet(p)
    ensures ValidateParameterMaster(p) == Saved(p, false)
  {
  }

  /** Validating an accepted record again accepts it again, unchanged. */
  lemma ParameterMasterIdempotent(p: ParameterMaster)
    requires ValidateParameterMaster(p).Saved?
    ensures ValidateParameterMaster(ValidateParameterMaster(p).doc) == ValidateParameterMaster(p)
  {
  }

  /** An SPC Control Chart's limits. */
  datatype ControlChart = ControlChart(
    parameter: string,
    upperControlLimit: Option<real>,
    lowerControlLimit: Option<real>,
    centerLine: Option<real>)

  /**
   The consistency a control chart must show, field by field: each pair of
   truthy values must be ordered LCL < UCL, centre line <= UCL and
   centre line >= LCL.
   */
  predicate ChartConsistent(c: ControlChart) {
    var ucl, lcl, cl := c.upperControlLimit, c.lowerControlLimit, c.centerLine;
    && (Truthy(ucl) && Truthy(lcl) ==> lcl.value < ucl.value)
    && (Truthy(cl) && Truthy(ucl) ==> cl.value <= ucl.value)
    && (Truthy(cl) && Truthy(lcl) ==> lcl.value <= cl.value)
  }

  /**
   `SPCControlChart.validate`: three checks, raised in source order, so the
   limit-ordering error wins over the centre-line errors and "above UCL"
   wins over "below LCL".
   */
  function ValidateControlChart(c: ControlChart): (r: Outcome<ControlChart, LimitError>)
    ensures r.Saved? <==> ChartConsistent(c)
    ensures r.Saved? ==> r.doc == c && !r.advised
    ensures r == Thrown(ControlLimitsInverted) <==>
              Truthy(c.upperControlLimit) && Truthy(c.lowerControlLimit)
              && c.upperControlLimit.value <= c.lowerControlLimit.value
    ensures r == Thrown(CenterAboveUpper) ==>
              Truthy(c.centerLine) && Truthy(c.upperControlLimit)
              && c.centerLine.value > c.upperControlLimit.value
    ensures r == Thrown(CenterBelowLower) ==>
              Truthy(c.centerLine) && Truthy(c.lowerControlLimit)
              && c.centerLine.value < c.lowerControlLimit.value
    ensures r.Thrown? ==> r.error != SpecLimitsInverted
  {
    var ucl, lcl, cl := c.upperControlLimit, c.lowerControlLimit, c.centerLine;
    if Truthy(ucl) && Truthy(lcl) && ucl.value <= lcl.value then
      Thrown(ControlLimitsInverted)
    else if Truthy(cl) && Truthy(ucl) && cl.value > ucl.value then
      Thrown(CenterAboveUpper)
    else if Truthy(cl) && Truthy(lcl) && cl.value < lcl.value then
      Thrown(CenterBelowLower)
    else
      Saved(c, false)
  }

  /** Any LCL < UCL with the centre line anywhere in [LCL, UCL], endpoints included, is accepted. */
  lemma ControlChartAcceptsCenteredLine(c: ControlChart)
    requires c.upperControlLimit.Some? && c.lowerControlLimit.Some? && c.centerLine.Some?
    requires c.lowerControlLimit.value < c.upperControlLimit.value
    requires c.lowerControlLimit.value <= c.centerLine.value <= c.upperControlLimit.value
    ensures ValidateControlChart(c) == Saved(c, false)
  {
  }

  /** A zero limit is treated as absent: UCL = 0 with LCL = 5 passes. */
  lemma ControlChartZeroLimitIsAbsent()
    ensures ValidateControlChart(ControlChart("p", Some(0.0), Some(5.0), None)).Saved?
    ensures ValidateControlChart(ControlChart("p", Some(0.0), Some(5.0), Some(7.0))).Saved?
  {
  }

  /** Validating an accepted chart again accepts it again, unchanged. */
  lemma ControlChartIdempotent(c: ControlChart)
    requires ValidateControlChart(c).Saved?
    ensures ValidateControlChart(ValidateControlChart(c).doc) == ValidateControlChart(c)
  {
  }
}
