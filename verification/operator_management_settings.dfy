/**
 `OperatorManagementSettings.validate`: shift hours first, then the operator
 limit. The "must be greater than 0" guards are written `x and x <= 0`, and
 since 0 is falsy they reject only negative values.
 */
module OperatorManagementSettings {
  import opened Frappe

  datatype Settings = Settings(defaultShiftHours: Option<real>, maxOperatorsPerShift: Option<int>)

  datatype SettingsError = ShiftHoursNotPositive | MaxOperatorsNotPositive

  function Validate(s: Settings): (r: Outcome<Settings, SettingsError>)
    ensures r == Thrown(ShiftHoursNotPositive) <==>
              s.defaultShiftHours.Some? && s.defaultShiftHours.value < 0.0
    ensures r == Thrown(MaxOperatorsNotPositive) <==>
              !(s.defaultShiftHours.Some? && s.defaultShiftHours.value < 0.0)
              && s.maxOperatorsPerShift.Some? && s.maxOperatorsPerShift.value < 0
    ensures r.Saved? ==> r.doc == s && !r.advised
  {
    if Truthy(s.defaultShiftHours) && s.defaultShiftHours.value <= 0.0 then
      Thrown(ShiftHoursNotPositive)
    else if TruthyInt(s.maxOperatorsPerShift) && s.maxOperatorsPerShift.value <= 0 then
      Thrown(MaxOperatorsNotPositive)
    else
      Saved(s, false)
  }

  /** Zero shift hours and zero operators pass, despite the "> 0" messages. */
  lemma ZeroSettingsAccepted()
    ensures Validate(Settings(Some(0.0), Some(0))) == Saved(Settings(Some(0.0), Some(0)), false)
  {
  }
}
