/**
 `BatchProcessingHistory.before_save`: an advisory, never a block, when the
 recorded value lies strictly outside its limits. A field the record does
 not carry (`hasattr` false) reads as None.
 */
module BatchProcessingHistory {
  import opened Frappe

  datatype History = History(
    actualValue: Option<real>,
    upperLimit: Option<real>,
    lowerLimit: Option<real>)

  function BeforeSave(h: History): (r: Outcome<History, ()>)
    ensures r.Saved? && r.doc == h
    ensures r.advised <==>
              Truthy(h.actualValue) && Truthy(h.upperLimit) && Truthy(h.lowerLimit)
              && !(h.lowerLimit.value <= h.actualValue.value <= h.upperLimit.value)
  {
    var advised :=
      Truthy(h.actualValue) && Truthy(h.upperLimit) && Truthy(h.lowerLimit)
      && (h.actualValue.value > h.upperLimit.value || h.actualValue.value < h.lowerLimit.value);
    Saved(h, advised)
  }

  /** A value sitting exactly on either limit raises no advisory. */
  lemma NoAdvisoryAtLimits(h: History)
    requires h.actualValue == h.upperLimit || h.actualValue == h.lowerLimit
    requires h.upperLimit.Some? && h.lowerLimit.Some? && h.lowerLimit.value <= h.upperLimit.value
    ensures !BeforeSave(h).advised
  {
  }
}
