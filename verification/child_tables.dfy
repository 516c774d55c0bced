/** Counting the rows of a child table by their status, as `rows.filter(r => r.status === s).length`. */
module ChildTables {

  function CountStatus(statuses: seq<string>, status: string): (n: nat)
    ensures n <= |statuses|
    ensures n == |statuses| <==> forall i :: 0 <= i < |statuses| ==> statuses[i] == status
    ensures n == 0 <==> forall i :: 0 <= i < |statuses| ==> statuses[i] != status
  {
    if |statuses| == 0 then 0
    else
      var rest := CountStatus(statuses[1..], status);
      assert forall i :: 1 <= i < |statuses| ==> statuses[i] == statuses[1..][i - 1];
      (if statuses[0] == status then 1 else 0) + rest
  }

  lemma {:induction false} CountStatusConcat(a: seq<string>, b: seq<string>, status: string)
    ensures CountStatus(a + b, status) == CountStatus(a, status) + CountStatus(b, status)
    decreases |a|
  {
    if |a| == 0 {
      assert a + b == b;
    } else {
      assert (a + b)[0] == a[0] && (a + b)[1..] == a[1..] + b;
      CountStatusConcat(a[1..], b, status);
    }
  }

  /** The pass ratio as an exact percentage, `passed / total * 100`. */
  function Percentage(passed: nat, total: nat): (p: real)
    requires passed <= total && total > 0
    ensures 0.0 <= p <= 100.0
    ensures p == 100.0 <==> passed == total
    ensures p == 0.0 <==> passed == 0
    ensures p * (total as real) == (passed as real) * 100.0
  {
    (passed as real) * 100.0 / (total as real)
  }
}
