/**
 The Batch AMB form script: net weight from gross and tare, the quality
 status derived from the test-result pass ratio, and the in/out-of-control
 check of a newly added SPC parameter row.
 */
module BatchAmbForm {
  import opened Frappe
  import opened QualityStatus
  import opened ChildTables
  import opened BatchAmb

  /** `calculate_net_weight`: gross minus tare, each read as `|| 0`. */
  function CalculateNetWeight(b: Batch): (r: Batch)
    ensures r.(totalNetWeight := b.totalNetWeight) == b
    ensures r.totalNetWeight.Some?
    ensures r.totalNetWeight.value + OrZero(b.totalTaraWeight) == OrZero(b.totalGrossWeight)
  {
    b.(totalNetWeight := Some(OrZero(b.totalGrossWeight) - OrZero(b.totalTaraWeight)))
  }

  /**
   `(passed / total * 100).toFixed(1)` counted in tenths: the nearest whole
   number of tenths of a percent, a half rounded up.
   */
  function RoundedTenths(passed: nat, total: nat): (n: nat)
    requires passed <= total && total > 0
    ensures n <= 1000
    ensures 2 * total * n <= 2000 * passed + total < 2 * total * (n + 1)
  {
    var a, d := 2000 * passed + total, 2 * total;
    var n := a / d;
    assert a == d * n + a % d && 0 <= a % d < d;
    assert d * (n + 1) == d * n + d;
    assert n <= 1000 by {
      assert d * n <= a < d * 1001;
      IntScaleLt(n, 1001, d);
    }
    n
  }

  lemma IntScaleLt(a: int, b: int, k: int)
    requires k > 0 && k * a < k * b
    ensures a < b
  {
  }

  /**
   The rounded score read back as a number, as the threshold comparisons do.
   Floating-point error is not modelled.
   */
  function RoundedPercentage(passed: nat, total: nat): (p: real)
    requires passed <= total && total > 0
    ensures Percentage(passed, total) - 0.05 < p <= Percentage(passed, total) + 0.05
    ensures 0.0 <= p <= 100.0
  {
    var n := RoundedTenths(passed, total);
    RoundingBounds(passed, total, n);
    (n as real) / 10.0
  }

  lemma ScaleLe(a: real, b: real, k: real)
    requires k > 0.0 && a * k <= b * k
    ensures a <= b
  {
  }

  lemma ScaleLt(a: real, b: real, k: real)
    requires k > 0.0 && a * k < b * k
    ensures a < b
  {
  }

  /** An integer product read as a real is the product of the reals. */
  lemma {:induction false} CastProduct(a: int, b: nat)
    ensures (a * b) as real == (a as real) * (b as real)
  {
    if b > 0 {
      CastProduct(a, b - 1);
      assert a * b == a * (b - 1) + a;
    }
  }

  /**
   The rounding error of the rounded score: with `x * t == 100 p` and the
   floor-division bounds, `n / 10` lies within 0.05 of `x`.
   */
  lemma ErrorWithinHalfTenth(x: real, t: real, p: real, n: real)
    requires t > 0.0 && x * t == p * 100.0
    requires 2.0 * (t * n) <= 2000.0 * p + t < 2.0 * (t * n) + 2.0 * t
    ensures x - 0.05 < n / 10.0 <= x + 0.05
  {
    var y := n / 10.0 - x;
    assert (n / 10.0) * (20.0 * t) == 2.0 * (t * n);
    assert x * (20.0 * t) == 2000.0 * p;
    assert y * (20.0 * t) == 2.0 * (t * n) - 2000.0 * p;
    ScaleLe(y, 0.05, 20.0 * t);
    ScaleLt(-0.05, y, 20.0 * t);
  }

  /** The floor-division facts behind the half-up rounding, carried over to reals. */
  lemma RoundingBounds(passed: nat, total: nat, tenths: nat)
    requires passed <= total && total > 0
    requires 2 * total * tenths <= 2000 * passed + total < 2 * total * (tenths + 1)
    ensures (tenths as real) / 10.0 <= Percentage(passed, total) + 0.05
    ensures Percentage(passed, total) - 0.05 < (tenths as real) / 10.0
  {
    var t, p, n := total as real, passed as real, tenths as real;
    CastProduct(total, tenths);
    assert 2 * total * tenths == 2 * (total * tenths);
    assert 2 * total * (tenths + 1) == 2 * (total * tenths) + 2 * total;
    ErrorWithinHalfTenth(Percentage(passed, total), t, p, n);
  }

  datatype Verdict = Approved | UnderReview | Rejected

  function VerdictLabel(v: Verdict): string {
    match v
    case Approved => "Approved"
    case UnderReview => "Under Review"
    case Rejected => "Rejected"
  }

  /** The status thresholds of `update_quality_indicators`. */
  function VerdictFor(score: real): (v: Verdict)
    ensures v == Approved <==> 95.0 <= score
    ensures v == UnderReview <==> 80.0 <= score < 95.0
    ensures v == Rejected <==> score < 80.0
  {
    if score >= 95.0 then Approved else if score >= 80.0 then UnderReview else Rejected
  }

  function PassedCount(results: seq<TestResult>): (n: nat)
    ensures n <= |results|
  {
    CountStatus(seq(|results|, i requires 0 <= i < |results| => results[i].status), "Pass")
  }

  /**
   `update_quality_indicators`: with at least one test result the status
   follows the rounded pass percentage; with none the batch is untouched.
   */
  function UpdateQualityIndicators(b: Batch): (r: Batch)
    ensures r.(qualityStatus := b.qualityStatus) == b
    ensures |b.qualityTestResults| == 0 ==> r == b
    ensures |b.qualityTestResults| > 0 ==>
              r.qualityStatus == VerdictLabel(VerdictFor(RoundedPercentage(PassedCount(b.qualityTestResults), |b.qualityTestResults|)))
  {
    if |b.qualityTestResults| > 0 then
      var score := RoundedPercentage(PassedCount(b.qualityTestResults), |b.qualityTestResults|);
      b.(qualityStatus := VerdictLabel(VerdictFor(score)))
    else
      b
  }

  /** Every result passing approves the batch; no result passing rejects it. */
  lemma AllOrNothingPassing(b: Batch)
    requires |b.qualityTestResults| > 0
    ensures (forall i :: 0 <= i < |b.qualityTestResults| ==> b.qualityTestResults[i].status == "Pass") ==>
              UpdateQualityIndicators(b).qualityStatus == "Approved"
    ensures (forall i :: 0 <= i < |b.qualityTestResults| ==> b.qualityTestResults[i].status != "Pass") ==>
              UpdateQualityIndicators(b).qualityStatus == "Rejected"
  {
    var rs := b.qualityTestResults;
    var statuses := seq(|rs|, i requires 0 <= i < |rs| => rs[i].status);
    if forall i :: 0 <= i < |rs| ==> rs[i].status == "Pass" {
      assert forall i :: 0 <= i < |statuses| ==> statuses[i] == "Pass";
    }
    if forall i :: 0 <= i < |rs| ==> rs[i].status != "Pass" {
      assert forall i :: 0 <= i < |statuses| ==> statuses[i] != "Pass";
    }
  }

  /**
   Rounding to one decimal moves a score across a threshold only from within
   0.05 below it, and then always upwards: outside [94.95, 95) and
   [79.95, 80) the rounded and the exact percentage get the same verdict,
   and inside those bands the rounded score lands exactly on the threshold.
   */
  lemma RoundingOnlyMattersNearThresholds(passed: nat, total: nat)
    requires passed <= total && total > 0
    ensures var exact, rounded := Percentage(passed, total), RoundedPercentage(passed, total);
            && (!(94.95 <= exact < 95.0) && !(79.95 <= exact < 80.0) ==> VerdictFor(rounded) == VerdictFor(exact))
            && (94.95 <= exact < 95.0 ==> rounded == 95.0)
            && (79.95 <= exact < 80.0 ==> rounded == 80.0)
  {
    var exact := Percentage(passed, total);
    var tenths := RoundedTenths(passed, total);
    assert RoundedPercentage(passed, total) == (tenths as real) / 10.0;
    if exact >= 95.0 {
      assert tenths >= 950;
    } else if exact >= 94.95 {
      assert tenths == 950;
    } else if exact >= 80.0 {
      assert 800 <= tenths < 950;
    } else if exact >= 79.95 {
      assert tenths == 800;
    } else {
      assert tenths < 800;
    }
  }

  /** 1899 passes out of 1999 is 94.997 %, below 95, yet the rounded "95.0" approves the batch. */
  lemma RoundingApprovesBelowThreshold()
    ensures Percentage(1899, 1999) < 95.0
    ensures VerdictFor(RoundedPercentage(1899, 1999)) == Approved
  {
    assert RoundedTenths(1899, 1999) == 950;
  }

  /**
   `validate_spc_parameter`: with actual value and both limits truthy the row
   becomes Out of Control, with an advisory, exactly when the value lies
   outside [lower, upper], and In Control otherwise; without them the row is
   untouched.
   */
  function ValidateSpcParameter(row: BatchParameter): (r: Outcome<BatchParameter, ()>)
    ensures r.Saved?
    ensures r.doc.(status := row.status) == row
    ensures !(Truthy(row.actualValue) && Truthy(row.upperLimit) && Truthy(row.lowerLimit)) ==>
              r.doc == row && !r.advised
    ensures Truthy(row.actualValue) && Truthy(row.upperLimit) && Truthy(row.lowerLimit) ==>
              && (r.doc.status == "In Control" <==> row.lowerLimit.value <= row.actualValue.value <= row.upperLimit.value)
              && (r.doc.status == "Out of Control" <==> !(row.lowerLimit.value <= row.actualValue.value <= row.upperLimit.value))
              && (r.advised <==> r.doc.status == "Out of Control")
  {
    if Truthy(row.actualValue) && Truthy(row.upperLimit) && Truthy(row.lowerLimit) then
      var state := ClientAssess(row.actualValue.value, row.lowerLimit.value, row.upperLimit.value);
      Saved(row.(status := ControlLabel(state)), state == OutOfControl)
    else
      Saved(row, false)
  }
}
