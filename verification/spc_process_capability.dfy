/**
 `SPCProcessCapability.validate`: stamp the completion date when a study is
 completed, and set the placeholder capability indices cp = 1.5 and
 cpk = 1.3 once at least two data points carry a truthy value. The indices
 are constants in the source, not statistics.
 */
module SpcProcessCapability {
  import opened Frappe

  datatype Study = Study(
    studyStatus: string,
    completionDate: string,
    dataValues: seq<Option<real>>,  // `data_value` of each data-point row
    cpValue: Option<real>,
    cpkValue: Option<real>)

  const PlaceholderCp: real := 1.5
  const PlaceholderCpk: real := 1.3

  /** Length of `[dp.data_value for dp in data_points if dp.data_value]`. */
  function TruthyCount(values: seq<Option<real>>): (n: nat)
    ensures n <= |values|
  {
    if |values| == 0 then 0
    else (if Truthy(values[0]) then 1 else 0) + TruthyCount(values[1..])
  }

  /** Two distinct rows with a truthy value. */
  predicate HasTwoTruthy(values: seq<Option<real>>) {
    exists i, j :: 0 <= i < j < |values| && Truthy(values[i]) && Truthy(values[j])
  }

  predicate HasTruthy(values: seq<Option<real>>) {
    exists i :: 0 <= i < |values| && Truthy(values[i])
  }

  lemma {:induction false} TruthyCountPositive(values: seq<Option<real>>)
    ensures TruthyCount(values) >= 1 <==> HasTruthy(values)
    decreases |values|
  {
    if |values| > 0 {
      TruthyCountPositive(values[1..]);
      if HasTruthy(values[1..]) {
        var i :| 0 <= i < |values[1..]| && Truthy(values[1..][i]);
        assert Truthy(values[i + 1]);
      }
      if HasTruthy(values) && !Truthy(values[0]) {
        var i :| 0 <= i < |values| && Truthy(values[i]);
        assert Truthy(values[1..][i - 1]);
      }
    }
  }

  /** The count reaches 2 exactly when two distinct rows hold a truthy value. */
  lemma {:induction false} TruthyCountAtLeastTwo(values: seq<Option<real>>)
    ensures TruthyCount(values) >= 2 <==> HasTwoTruthy(values)
    decreases |values|
  {
    if |values| > 0 {
      var tail := values[1..];
      TruthyCountAtLeastTwo(tail);
      TruthyCountPositive(tail);
      if TruthyCount(values) >= 2 {
        if Truthy(values[0]) {
          var j :| 0 <= j < |tail| && Truthy(tail[j]);
          assert Truthy(values[j + 1]);
        } else {
          var i, j :| 0 <= i < j < |tail| && Truthy(tail[i]) && Truthy(tail[j]);
          assert Truthy(values[i + 1]) && Truthy(values[j + 1]);
        }
      }
      if HasTwoTruthy(values) {
        var i, j :| 0 <= i < j < |values| && Truthy(values[i]) && Truthy(values[j]);
        assert Truthy(tail[j - 1]);
        if i > 0 {
          assert Truthy(tail[i - 1]);
        }
      }
    }
  }

  function Validate(s: Study, today: string): (r: Study)
    ensures r.studyStatus == s.studyStatus && r.dataValues == s.dataValues
    ensures s.studyStatus == "Completed" && !Filled(s.completionDate) ==> r.completionDate == today
    ensures s.studyStatus != "Completed" || Filled(s.completionDate) ==> r.completionDate == s.completionDate
    ensures HasTwoTruthy(s.dataValues) ==> r.cpValue == Some(PlaceholderCp) && r.cpkValue == Some(PlaceholderCpk)
    ensures !HasTwoTruthy(s.dataValues) ==> r.cpValue == s.cpValue && r.cpkValue == s.cpkValue
  {
    var dated := if s.studyStatus == "Completed" && !Filled(s.completionDate) then s.(completionDate := today) else s;
    TruthyCountAtLeastTwo(s.dataValues);
    if |s.dataValues| > 0 && TruthyCount(s.dataValues) > 1 then
      dated.(cpValue := Some(PlaceholderCp), cpkValue := Some(PlaceholderCpk))
    else
      dated
  }

  /** Rows whose value is 0 do not count: one real reading plus any number of zeros sets nothing. */
  lemma ZeroValuesNotCounted(s: Study, today: string)
    requires |s.dataValues| >= 1 && Truthy(s.dataValues[0])
    requires forall i :: 1 <= i < |s.dataValues| ==> s.dataValues[i] == Some(0.0)
    ensures Validate(s, today).cpValue == s.cpValue && Validate(s, today).cpkValue == s.cpkValue
  {
  }
}
