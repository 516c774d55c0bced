/**
 The COA AMB form script: the overall compliance score over quality tests
 and SPC parameters, and the colour of the Cpk / Ppk dashboard indicators.
 */
module CoaAmbForm {
  import opened Frappe
  import opened ChildTables

  /** The statuses of the certificate's two child tables; a missing table is empty. */
  datatype Coa = Coa(
    qualityTestStatuses: seq<string>,
    spcParameterStatuses: seq<string>,
    cpkValue: Option<real>,
    ppkValue: Option<real>)

  /** Passed rows: tests with status "Pass" plus parameters "In Control". */
  function PassedRows(c: Coa): nat {
    CountStatus(c.qualityTestStatuses, "Pass") + CountStatus(c.spcParameterStatuses, "In Control")
  }

  function TotalRows(c: Coa): nat {
    |c.qualityTestStatuses| + |c.spcParameterStatuses|
  }

  /** Every row of both tables passed. */
  predicate AllPassed(c: Coa) {
    && (forall i :: 0 <= i < |c.qualityTestStatuses| ==> c.qualityTestStatuses[i] == "Pass")
    && (forall i :: 0 <= i < |c.spcParameterStatuses| ==> c.spcParameterStatuses[i] == "In Control")
  }

  /** The passed count reaches the total exactly when every row passed. */
  lemma AllPassedIffCounted(c: Coa)
    ensures PassedRows(c) <= TotalRows(c)
    ensures PassedRows(c) == TotalRows(c) <==> AllPassed(c)
  {
    var a, b := CountStatus(c.qualityTestStatuses, "Pass"), CountStatus(c.spcParameterStatuses, "In Control");
    assert a <= |c.qualityTestStatuses| && b <= |c.spcParameterStatuses|;
    assert a + b == TotalRows(c) <==> a == |c.qualityTestStatuses| && b == |c.spcParameterStatuses|;
  }

  /**
   `calculate_compliance_score`: `passed / total * 100`, or 0 for a
   certificate with no rows at all.
   */
  function ComplianceScore(c: Coa): (score: real)
    ensures 0.0 <= score <= 100.0
    ensures TotalRows(c) == 0 ==> score == 0.0
    ensures score == 100.0 <==> TotalRows(c) > 0 && AllPassed(c)
    ensures TotalRows(c) > 0 ==> PassedRows(c) <= TotalRows(c) && score == Percentage(PassedRows(c), TotalRows(c))
  {
    var total, passed := TotalRows(c), PassedRows(c);
    if total > 0 then
      AllPassedIffCounted(c);
      Percentage(passed, total)
    else
      0.0
  }

  datatype Colour = Green | Orange

  /** 1.33, the conventional capability threshold. */
  const CapableIndex: real := 1.33

  /**
   The Cpk / Ppk indicator of `QualityDashboard.init_dashboard`: shown only
   for a truthy index, green from 1.33 up and orange below.
   */
  function IndexIndicator(index: Option<real>): (c: Option<Colour>)
    ensures c.Some? <==> Truthy(index)
    ensures c == Some(Green) <==> Truthy(index) && index.value >= CapableIndex
    ensures c == Some(Orange) <==> Truthy(index) && index.value < CapableIndex
  {
    if Truthy(index) then Some(if index.value >= CapableIndex then Green else Orange) else None
  }

  /** The dashboard's two capability indicators, Cpk first. */
  function CapabilityIndicators(c: Coa): (r: (Option<Colour>, Option<Colour>))
    ensures r.0 == IndexIndicator(c.cpkValue) && r.1 == IndexIndicator(c.ppkValue)
  {
    (IndexIndicator(c.cpkValue), IndexIndicator(c.ppkValue))
  }
}
