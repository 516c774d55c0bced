# amb_w_spc business rules in Dafny

This project models the business rules of the `amb_w_spc` Frappe app. The
app does statistical process control (SPC) for a manufacturing plant. The
rules live in the app's record hooks (`before_save`, `validate`), its form
scripts and a few helpers. The model lifts each rule into a pure function
over an immutable record and proves what the rule promises.

The model covers:

- **Limit checks and quality classifiers.**
  - The spec-limit check of an SPC Parameter Master.
  - The control-limit and centre-line checks of an SPC Control Chart.
  - The server's three-way Critical / Warning / Normal classifier, with a warning band of 10 % of the spec range.
  - The forms' two-way In Control / Out of Control rule.
  - The out-of-limit advisory of Batch Processing History.
  - The batch pass-ratio verdict and the certificate-of-analysis compliance score.
- **Record sanity checks.**
  - Batch dates and quantities.
  - Transaction quantities.
  - Shift and operator settings.
  - Capability-study completion.
  - Alert, corrective-action and action-item advisories.
- **Auto-population and defaulting.**
  - Display names copied from a master record without ever overwriting one.
  - Generated report names.
  - Timestamps defaulted when empty.
  - The `get_context` builders of three notifications.
  - The batch endpoints: numbered batch creation, bulk approval and mapping a batch onto an SPC Data Point.
- **Permissions.** The warehouse permission map, as a function of the user's role set.
- **The title-name repair tool.** `TitleNameFixer` detects and repairs doctype metadata: document types of "Master"/"Document", link targets written as spaced titles, and unique `naming_series` fields. The model covers its detection predicates, its two string rewrites, and its three repair passes with their counters and error lists.

Conventions used throughout:

- Numbers are `Option<real>`. Python/JavaScript truthiness is `Frappe.Truthy`: `None` and `0` are both falsy. This is why several "must be greater than 0" checks accept 0.
- Text fields are strings. `""` stands for both `None` and the empty string.
- Dates are ISO strings compared with Python's `<` on strings (`Dates.Before`).
- The clock is a parameter. Every framework lookup (`get_value`, `get_doc`) is a function parameter returning `Option`.
- A hook returns `Frappe.Outcome`: the record as saved plus whether an advisory (`msgprint`) was shown, or the blocking error (`throw`) it raised. Message texts are not modelled.
- Where the code and its apparent intent differ, the model follows the code. Examples:
  - The permission map's "Wareprise User" role spelling.
  - The `parameter` handler of the SPC Data Point form overwrites an existing name.
  - The report notification's branches test a constant string.

## Model

| member | source | states |
|---|---|---|
| Frappe.OrZero | amb_w_spc/sfc_manufacturing/doctype/batch_amb/batch_amb.js:47-48 | `x \|\| 0` yields the value when it is truthy and 0 when it is missing or 0 |
| Frappe.DefaultIfEmpty | amb_w_spc/real_time_monitoring/doctype/real_time_process_data/real_time_process_data.py:7-8 | an empty field takes the clock value, and a set field is kept |
| Frappe.DefaultIfEmptyIdempotent | amb_w_spc/shop_floor_control/doctype/sfc_transaction/sfc_transaction.py:7-8 | once defaulted with a non-empty clock value, a later save with any other clock value changes nothing |
| Frappe.Populate | amb_w_spc/sfc_manufacturing/doctype/batch_amb/batch_amb.py:7-10 | a set name is never overwritten; an unset reference leaves it alone; a change only ever copies a non-empty lookup answer for the reference; an empty name with a set reference and a non-empty answer takes that answer |
| Frappe.PopulateIdempotent | amb_w_spc/operator_management/doctype/sfc_operator/sfc_operator.py:7-10 | a second auto-population with the same master data changes nothing |
| Frappe.PopulateIgnoresLookup | amb_w_spc/core_spc/doctype/spc_parameter_specification/spc_parameter_specification.py:7 | the master is not consulted when the name is set or the reference is empty: any two lookups give the same result |
| Dates.BeforeIrreflexive | amb_w_spc/sfc_manufacturing/doctype/batch_amb/batch_amb.py:18 | string `<` is irreflexive, so equal dates never trip a `<` check |
| Dates.BeforeAsymmetric | amb_w_spc/spc_quality_management/doctype/spc_corrective_action/spc_corrective_action.py:11 | two dates are never each before the other |
| Dates.BeforeTransitive | amb_w_spc/spc_quality_management/doctype/spc_corrective_action_item/spc_corrective_action_item.py:10 | string `<` is transitive |
| Dates.BeforeTotal | amb_w_spc/spc_quality_management/doctype/spc_corrective_action_item/spc_corrective_action_item.py:10 | any two distinct dates are ordered one way or the other |
| SpcLimits.ValidateParameterMaster | amb_w_spc/core_spc/doctype/spc_parameter_master/spc_parameter_master.py:8-11 | a master is accepted exactly when its truthy spec limits are strictly ordered; rejection is the inverted-limits error; acceptance leaves the record unchanged and raises no advisory |
| SpcLimits.ParameterMasterIgnoresFalsyLimit | amb_w_spc/core_spc/doctype/spc_parameter_master/spc_parameter_master.py:9 | a 0 or missing limit switches the check off, whatever the other limit is |
| SpcLimits.ParameterMasterIdempotent | amb_w_spc/core_spc/doctype/spc_parameter_master/spc_parameter_master.py:8-11 | validating an accepted master again accepts it again, unchanged |
| SpcLimits.ValidateControlChart | amb_w_spc/core_spc/doctype/spc_control_chart/spc_control_chart.py:8-17 | a chart is accepted exactly when its truthy limits and centre line are consistent (LCL < UCL, CL <= UCL, CL >= LCL); the limit error is raised exactly when both limits are truthy and UCL <= LCL; each centre-line error implies its violation; acceptance changes nothing |
| SpcLimits.ControlChartAcceptsCenteredLine | amb_w_spc/core_spc/doctype/spc_control_chart/spc_control_chart.py:9-17 | every LCL < UCL with the centre line in [LCL, UCL], endpoints included, is accepted unchanged |
| SpcLimits.ControlChartZeroLimitIsAbsent | amb_w_spc/core_spc/doctype/spc_control_chart/spc_control_chart.py:9 | UCL = 0 with LCL = 5 passes, with or without a centre line of 7, because 0 is falsy |
| SpcLimits.ControlChartIdempotent | amb_w_spc/core_spc/doctype/spc_control_chart/spc_control_chart.py:8-17 | validating an accepted chart again accepts it again, unchanged |
| QualityStatus.SeverityLabelInjective | amb_w_spc/real_time_monitoring/doctype/real_time_process_data/real_time_process_data.py:24-29 | the three status texts are distinct, so the written text determines the class |
| QualityStatus.Assess | amb_w_spc/real_time_monitoring/doctype/real_time_process_data/real_time_process_data.py:19-29 | exactly one class, described by the value's depth inside [LSL, USL]: Critical when the value is outside, Warning when it is less than one 10 % margin inside, Normal when it is at least one margin inside |
| QualityStatus.AssessExamples | amb_w_spc/real_time_monitoring/doctype/real_time_process_data/real_time_process_data.py:23-29 | with LSL 10 and USL 20: 20.5 and 9.5 are Critical; 19.5, 20 and 10 are Warning; 19 and 15 are Normal |
| QualityStatus.InvertedLimitsAlwaysCritical | amb_w_spc/real_time_monitoring/doctype/real_time_process_data/real_time_process_data.py:23 | with USL < LSL every value is Critical |
| QualityStatus.MidpointIsNormal | amb_w_spc/real_time_monitoring/doctype/real_time_process_data/real_time_process_data.py:23-29 | with ordered limits the midpoint is Normal, the USL itself is Warning and a value beyond it is Critical |
| QualityStatus.AssessSymmetric | amb_w_spc/real_time_monitoring/doctype/real_time_process_data/real_time_process_data.py:23-27 | mirroring a value through the midpoint of the range keeps its class |
| QualityStatus.AssessMonotoneTowardsCentre | amb_w_spc/real_time_monitoring/doctype/real_time_process_data/real_time_process_data.py:23-29 | moving a value deeper into the range never worsens its class |
| QualityStatus.ClientAssess | amb_w_spc/core_spc/doctype/spc_data_point/spc_data_point.js:50-57 | In Control exactly when lower <= value <= upper |
| QualityStatus.ClientAgreesWithServer | amb_w_spc/core_spc/doctype/spc_data_point/spc_data_point.js:50-57 | the forms' Out of Control is exactly the server's Critical, and In Control exactly not Critical |
| RealTimeProcessData.AssessedStatus | amb_w_spc/real_time_monitoring/doctype/real_time_process_data/real_time_process_data.py:14-32 | a failed parameter lookup gives "Normal"; a found parameter gives a status exactly when both its limits are truthy; any status is one of the three class texts |
| RealTimeProcessData.BeforeSave | amb_w_spc/real_time_monitoring/doctype/real_time_process_data/real_time_process_data.py:5-12 | the timestamp is set only when empty; no assessment without a parameter and a truthy value; a failed lookup yields "Normal"; any change of status writes a class text; parameter and value are kept |
| RealTimeProcessData.BeforeSaveClassifies | amb_w_spc/real_time_monitoring/doctype/real_time_process_data/real_time_process_data.py:19-29 | with both limits truthy the status is the three-way class, and "Critical" is written exactly when the value is above USL or below LSL |
| RealTimeProcessData.BeforeSaveKeepsStatusWithoutLimits | amb_w_spc/real_time_monitoring/doctype/real_time_process_data/real_time_process_data.py:19 | a found parameter with a 0 or missing limit leaves the status unchanged |
| RealTimeProcessData.LookupFailureLooksNormal | amb_w_spc/real_time_monitoring/doctype/real_time_process_data/real_time_process_data.py:30-32 | a record whose parameter cannot be read is saved exactly as with a parameter that classes the value Normal |
| RealTimeProcessData.BeforeSaveIdempotent | amb_w_spc/real_time_monitoring/doctype/real_time_process_data/real_time_process_data.py:5-12 | a second save with the same master data and any clock changes nothing |
| SpcDataPoint.OnRefresh | amb_w_spc/core_spc/doctype/spc_data_point/spc_data_point.js:17-20 | the measurement time is set to the clock only when empty |
| SpcDataPoint.OnParameter | amb_w_spc/core_spc/doctype/spc_data_point/spc_data_point.js:23-33 | only the parameter name changes, only to a lookup answer for the record's parameter, and always when the parameter is set and the master answers; without a parameter or an answer the record is untouched |
| SpcDataPoint.OnDataValue | amb_w_spc/core_spc/doctype/spc_data_point/spc_data_point.js:35-64 | only the status changes, and only to In Control or Out of Control; with a parameter, a truthy value and both spec limits truthy, Out of Control holds exactly outside [LSL, USL] and In Control exactly inside; a falsy value or parameter, no answer, or a falsy limit leaves the record untouched |
| SpcDataPoint.OutOfControlIffCritical | amb_w_spc/core_spc/doctype/spc_data_point/spc_data_point.js:49-57 | the form marks a value Out of Control exactly when the server classifier would call it Critical |
| BatchProcessingHistory.BeforeSave | amb_w_spc/core_spc/doctype/batch_processing_history/batch_processing_history.py:9-17 | never blocks and never changes the record; an advisory exactly when all three values are truthy and the value lies outside [lower, upper] |
| BatchProcessingHistory.NoAdvisoryAtLimits | amb_w_spc/core_spc/doctype/batch_processing_history/batch_processing_history.py:13 | a value sitting on either limit raises no advisory |
| BatchAmb.BeforeSave | amb_w_spc/sfc_manufacturing/doctype/batch_amb/batch_amb.py:5-10 | only the item name can change; a set name or an unset item code leaves the batch untouched; a non-empty lookup answer fills an empty name; any change is the lookup's answer |
| BatchAmb.Validate | amb_w_spc/sfc_manufacturing/doctype/batch_amb/batch_amb.py:12-23 | the date error exactly when both dates are set and expiry sorts before production; the quantity error exactly when the dates pass and the quantity is negative, so the date error wins; acceptance changes nothing |
| BatchAmb.SameDayExpiryAccepted | amb_w_spc/sfc_manufacturing/doctype/batch_amb/batch_amb.py:18 | expiry on the production date passes the date check |
| BatchAmb.ZeroOrMissingQuantityAccepted | amb_w_spc/sfc_manufacturing/doctype/batch_amb/batch_amb.py:22 | a quantity of 0 or none passes the quantity check |
| BatchAmb.SetMissingValues | amb_w_spc/sfc_manufacturing/doctype/batch_amb/batch_amb.py:29-32 | the mapped data point refers back to the source batch, carries the clock value and status "Pending", and keeps the mapper's parameter and value |
| BatchAmb.BatchId | amb_w_spc/sfc_manufacturing/doctype/batch_amb/batch_amb.py:49 | every id starts with "AMB-BATCH-" and is long enough to hold the date, a dash and at least three digits |
| BatchAmb.BatchIdShape | amb_w_spc/sfc_manufacturing/doctype/batch_amb/batch_amb.py:49 | for the first 999 batches of a day the number part is exactly three digits |
| BatchAmb.BatchIdParts | amb_w_spc/sfc_manufacturing/doctype/batch_amb/batch_amb.py:49 | the id reads back as its parts: after "AMB-BATCH-" comes exactly the given date, then a dash, then digits that parse back to the loop position plus one |
| BatchAmb.BatchIdInjective | amb_w_spc/sfc_manufacturing/doctype/batch_amb/batch_amb.py:49 | two loop positions on one day never share an id |
| BatchAmb.NewBatch | amb_w_spc/sfc_manufacturing/doctype/batch_amb/batch_amb.py:47-53 | the record for loop position i has the i-th id, the item code, today's production date and status "Pending" |
| BatchAmb.NewBatchValid | amb_w_spc/sfc_manufacturing/doctype/batch_amb/batch_amb.py:47-54 | every generated batch passes `validate` |
| BatchAmb.InsertedPositions | amb_w_spc/sfc_manufacturing/doctype/batch_amb/batch_amb.py:45-57 | the loop positions whose insert succeeds are below the count, strictly increasing, and each one's batch was accepted |
| BatchAmb.InsertedPositionsComplete | amb_w_spc/sfc_manufacturing/doctype/batch_amb/batch_amb.py:45-57 | every position whose insert succeeds is listed, so a position is skipped only when its insert fails |
| BatchAmb.CreateMultipleBatches | amb_w_spc/sfc_manufacturing/doctype/batch_amb/batch_amb.py:43-60 | the returned count is the number of inserted batches and at most the requested count (none for a negative count); the inserted batches are exactly those of the successful positions, in loop order, with pairwise distinct ids, the item code, today's date and "Pending" |
| BatchAmb.DistinctPositionsDistinctIds | amb_w_spc/sfc_manufacturing/doctype/batch_amb/batch_amb.py:49 | batches built for strictly increasing positions have pairwise distinct ids |
| BatchAmb.ApprovedCount | amb_w_spc/sfc_manufacturing/doctype/batch_amb/batch_amb.py:65-72 | at most one approval per name |
| BatchAmb.BulkApproveBatches | amb_w_spc/sfc_manufacturing/doctype/batch_amb/batch_amb.py:62-75 | the approved count is at most the number of names, matches the per-name reference count, and counts exactly the saved records; each saved record is some named batch with status "Approved" |
| BatchAmbForm.CalculateNetWeight | amb_w_spc/sfc_manufacturing/doctype/batch_amb/batch_amb.js:46-50 | net plus tara equals gross, each missing operand read as 0; nothing else changes |
| BatchAmbForm.RoundedTenths | amb_w_spc/sfc_manufacturing/doctype/batch_amb/batch_amb.js:57 | the nearest whole number of tenths of the pass percentage, halves rounded up, at most 1000 |
| BatchAmbForm.RoundedPercentage | amb_w_spc/sfc_manufacturing/doctype/batch_amb/batch_amb.js:57 | the rounded score lies within 0.05 of the exact percentage and within [0, 100] |
| BatchAmbForm.RoundingBounds | amb_w_spc/sfc_manufacturing/doctype/batch_amb/batch_amb.js:57 | the integer half-up bounds put the rounded score within 0.05 of the exact percentage |
| BatchAmbForm.VerdictFor | amb_w_spc/sfc_manufacturing/doctype/batch_amb/batch_amb.js:65-71 | Approved exactly from 95 up, Under Review exactly in [80, 95), Rejected exactly below 80 |
| BatchAmbForm.PassedCount | amb_w_spc/sfc_manufacturing/doctype/batch_amb/batch_amb.js:55 | the passed count never exceeds the number of results |
| BatchAmbForm.UpdateQualityIndicators | amb_w_spc/sfc_manufacturing/doctype/batch_amb/batch_amb.js:52-73 | only the quality status changes; no results means no change; otherwise the status is the verdict of the rounded pass percentage |
| BatchAmbForm.AllOrNothingPassing | amb_w_spc/sfc_manufacturing/doctype/batch_amb/batch_amb.js:54-71 | all results passing approves the batch; none passing rejects it |
| BatchAmbForm.RoundingOnlyMattersNearThresholds | amb_w_spc/sfc_manufacturing/doctype/batch_amb/batch_amb.js:57-71 | the rounded and the exact score get the same verdict except when the exact score lies in [94.95, 95) or [79.95, 80); there the rounded score is exactly 95 or 80 |
| BatchAmbForm.RoundingApprovesBelowThreshold | amb_w_spc/sfc_manufacturing/doctype/batch_amb/batch_amb.js:57-66 | 1899 passes out of 1999 is below 95 % yet is approved |
| BatchAmbForm.ValidateSpcParameter | amb_w_spc/sfc_manufacturing/doctype/batch_amb/batch_amb.js:75-91 | only the row status changes; with value and both limits truthy, Out of Control with an advisory exactly outside [lower, upper] and In Control exactly inside; otherwise the row is untouched and nothing is shown |
| ChildTables.CountStatus | amb_w_spc/sfc_manufacturing/doctype/coa_amb/coa_amb.js:59 | the count is at most the table length; it equals the length exactly when every row has the status and is 0 exactly when none has |
| ChildTables.CountStatusConcat | amb_w_spc/sfc_manufacturing/doctype/coa_amb/coa_amb.js:57-66 | counting over two tables one after the other is the sum of the two counts |
| ChildTables.Percentage | amb_w_spc/sfc_manufacturing/doctype/coa_amb/coa_amb.js:69 | `passed / total * 100` lies in [0, 100]; it is 100 exactly when all passed and 0 exactly when none did |
| CoaAmbForm.AllPassedIffCounted | amb_w_spc/sfc_manufacturing/doctype/coa_amb/coa_amb.js:57-66 | the passed rows of both tables never exceed the total, and reach it exactly when every test is "Pass" and every parameter "In Control" |
| CoaAmbForm.ComplianceScore | amb_w_spc/sfc_manufacturing/doctype/coa_amb/coa_amb.js:51-70 | the score lies in [0, 100]; it is 0 with no rows, 100 exactly when there are rows and all passed, and otherwise the pass percentage over both tables |
| CoaAmbForm.IndexIndicator | amb_w_spc/sfc_manufacturing/doctype/coa_amb/coa_amb.js:39-41 | an indicator only for a truthy index: green exactly from 1.33 up, orange exactly below |
| CoaAmbForm.CapabilityIndicators | amb_w_spc/sfc_manufacturing/doctype/coa_amb/coa_amb.js:38-47 | the Cpk and the Ppk indicators follow the same rule, each from its own index |
| SfcTransaction.BeforeSave | amb_w_spc/shop_floor_control/doctype/sfc_transaction/sfc_transaction.py:5-8 | the transaction time is set only when empty; the quantity is kept |
| SfcTransaction.Validate | amb_w_spc/shop_floor_control/doctype/sfc_transaction/sfc_transaction.py:10-15 | rejected exactly when the quantity is negative, so 0 and none pass; acceptance changes nothing |
| OperatorManagementSettings.Validate | amb_w_spc/operator_management/doctype/operator_management_settings/operator_management_settings.py:5-15 | the shift-hours error exactly for negative hours; the operator error exactly for a negative operator limit with valid hours, so the shift error wins; acceptance changes nothing |
| OperatorManagementSettings.ZeroSettingsAccepted | amb_w_spc/operator_management/doctype/operator_management_settings/operator_management_settings.py:10-15 | zero hours and zero operators pass despite the "must be greater than 0" checks |
| SpcProcessCapability.TruthyCountAtLeastTwo | amb_w_spc/spc_quality_management/doctype/spc_process_capability/spc_process_capability.py:17-18 | the list of truthy data values has at least two entries exactly when two distinct rows hold a truthy value |
| SpcProcessCapability.TruthyCountPositive | amb_w_spc/spc_quality_management/doctype/spc_process_capability/spc_process_capability.py:17 | the list of truthy data values is non-empty exactly when some row holds a truthy value |
| SpcProcessCapability.Validate | amb_w_spc/spc_quality_management/doctype/spc_process_capability/spc_process_capability.py:5-21 | a completed study without a date gets today, and any other date is kept; cp = 1.5 and cpk = 1.3 exactly when two rows hold truthy values, otherwise both are kept |
| SpcProcessCapability.ZeroValuesNotCounted | amb_w_spc/spc_quality_management/doctype/spc_process_capability/spc_process_capability.py:17 | one real reading plus any number of zero readings sets no index |
| SpcAlert.Validate | amb_w_spc/spc_quality_management/doctype/spc_alert/spc_alert.py:8-13 | never blocks and never changes the alert; an advisory exactly for an unassigned High or Critical alert |
| SpcAlert.NoAdvisoryForLowOrAssigned | amb_w_spc/spc_quality_management/doctype/spc_alert/spc_alert.py:10 | Low, Medium and assigned alerts raise nothing |
| SpcCorrectiveAction.Validate | amb_w_spc/spc_quality_management/doctype/spc_corrective_action/spc_corrective_action.py:8-12 | never blocks and never changes the action; an advisory exactly when a due date is set and sorts before today |
| SpcCorrectiveAction.NoAdvisoryWhenDueTodayOrLater | amb_w_spc/spc_quality_management/doctype/spc_corrective_action/spc_corrective_action.py:11 | a due date of today or later raises nothing |
| SpcCorrectiveActionItem.Validate | amb_w_spc/spc_quality_management/doctype/spc_corrective_action_item/spc_corrective_action_item.py:8-11 | never blocks and never changes the item; an advisory exactly when both dates are set and completion sorts before target |
| SpcCorrectiveActionItem.NoAdvisoryWhenOnOrAfterTarget | amb_w_spc/spc_quality_management/doctype/spc_corrective_action_item/spc_corrective_action_item.py:10 | completion on or after the target raises nothing |
| SpcParameterSpecification.BeforeSave | amb_w_spc/core_spc/doctype/spc_parameter_specification/spc_parameter_specification.py:5-10 | a set name or an empty parameter leaves the record untouched; a non-empty answer fills an empty name; a failed lookup changes nothing; the parameter is kept |
| SpcParameterSpecification.BeforeSaveNoLookupAndIdempotent | amb_w_spc/core_spc/doctype/spc_parameter_specification/spc_parameter_specification.py:7-10 | without a parameter the master is never consulted; a second save changes nothing |
| SfcOperator.BeforeSave | amb_w_spc/operator_management/doctype/sfc_operator/sfc_operator.py:5-10 | a set name is never overwritten; a non-empty answer fills an empty name; any change is the lookup's answer; the employee is kept |
| SfcOperator.BeforeSaveIdempotent | amb_w_spc/operator_management/doctype/sfc_operator/sfc_operator.py:7-10 | a second save changes nothing |
| SpcReport.BeforeSave | amb_w_spc/spc_quality_management/doctype/spc_report/spc_report.py:5-8 | an empty name with type and period set becomes type, " Report - ", period, piece by piece; otherwise the report is untouched |
| SpcReport.BeforeSaveIdempotent | amb_w_spc/spc_quality_management/doctype/spc_report/spc_report.py:7-8 | a generated name is kept on the next save |
| SpcReport.GeneratedNamesDistinct | amb_w_spc/spc_quality_management/doctype/spc_report/spc_report.py:8 | reports of one type for different periods get different names |
| Notifications.SetDefault | amb_w_spc/spc_quality_management/notification/spc_corrective_action_new_notification/spc_corrective_action_new_notification.py:13 | `setdefault` adds the key if absent, with the given value, and keeps every existing entry |
| Notifications.WithDefaults | amb_w_spc/spc_quality_management/notification/spc_corrective_action_new_notification/spc_corrective_action_new_notification.py:9-16 | the result has exactly the argument's keys plus subject and message; existing values are kept; missing ones take the defaults |
| Notifications.WithDefaultsIdempotent | amb_w_spc/spc_quality_management/notification/spc_corrective_action_new_notification/spc_corrective_action_new_notification.py:13-16 | feeding a built context back in returns it unchanged |
| Notifications.CorrectiveActionNewContext | amb_w_spc/spc_quality_management/notification/spc_corrective_action_new_notification/spc_corrective_action_new_notification.py:3-16 | a non-dict argument counts as empty; both keys are present; existing values are kept; missing ones take the new-action texts |
| Notifications.CorrectiveActionDueReminderContext | amb_w_spc/spc_quality_management/notification/spc_corrective_action_due_reminder_notification/spc_corrective_action_due_reminder_notification.py:3-13 | a non-dict argument counts as empty; both keys are present; existing values are kept; missing ones take the reminder texts |
| Notifications.ReportGeneratedContext | amb_w_spc/spc_quality_management/notification/spc_report_generated_notification/spc_report_generated_notification.py:3-24 | whatever branch runs, every entry of the argument survives unchanged |
| Notifications.ReportNameLacksAlertNew | amb_w_spc/spc_quality_management/notification/spc_report_generated_notification/spc_report_generated_notification.py:11 | the alert_new branch cannot run |
| Notifications.ReportNameLacksAlertEscalation | amb_w_spc/spc_quality_management/notification/spc_report_generated_notification/spc_report_generated_notification.py:14 | the alert_escalation branch cannot run |
| Notifications.ReportNameHasReportGenerated | amb_w_spc/spc_quality_management/notification/spc_report_generated_notification/spc_report_generated_notification.py:17 | the report_generated test always succeeds |
| Notifications.ReportGeneratedTakesOneBranch | amb_w_spc/spc_quality_management/notification/spc_report_generated_notification/spc_report_generated_notification.py:11-22 | only the report_generated branch runs, so the builder is the plain two-default builder with the report texts |
| Notifications.ReportGeneratedDefaults | amb_w_spc/spc_quality_management/notification/spc_report_generated_notification/spc_report_generated_notification.py:7-24 | both keys are present; missing ones take the report texts; the builder is idempotent |
| WarehousePermissions.UserWarehousePermissions | amb_w_spc/system_integration/utils.py:16-22 | pick-task management always equals warehouse manager; System Manager grants all five permissions |
| WarehousePermissions.PermissionsMatchRoleTable | amb_w_spc/system_integration/utils.py:16-22 | a permission is granted exactly when some role of the user grants it in the role-by-role table |
| WarehousePermissions.PermissionsMonotone | amb_w_spc/system_integration/utils.py:16-22 | adding roles never takes a permission away |
| WarehousePermissions.OnlyKnownRolesMatter | amb_w_spc/system_integration/utils.py:17-21 | roles other than the five named ones make no difference |
| WarehousePermissions.UnknownRolesGrantNothing | amb_w_spc/system_integration/utils.py:16-22 | a user without any of the five roles, including one with no roles, gets no permission |
| WarehousePermissions.WarehouseUserCannotViewWarehouse | amb_w_spc/system_integration/utils.py:17-20 | "Warehouse User" alone grants the reports but not warehouse viewing, because the code checks for "Wareprise User" |
| Text.Lower | title_name_fixer.py:112 | `lower()` keeps the length and lower-cases each character |
| Text.Count | title_name_fixer.py:96 | the count is at most the length and is 0 exactly when the character is absent |
| Text.CountConcat | title_name_fixer.py:96 | counting over a concatenation is the sum of the counts |
| Text.NotContainedWhenCharMissing | amb_w_spc/spc_quality_management/notification/spc_report_generated_notification/spc_report_generated_notification.py:11-14 | a substring with a character the string lacks does not occur in it |
| Text.ZeroPad | amb_w_spc/sfc_manufacturing/doctype/batch_amb/batch_amb.py:49 | `{n:03d}` is all digits and at least the width long |
| Text.ZeroPadRoundTrip | amb_w_spc/sfc_manufacturing/doctype/batch_amb/batch_amb.py:49 | the padded digits read back as the number |
| Text.ZeroPadExactWidth | amb_w_spc/sfc_manufacturing/doctype/batch_amb/batch_amb.py:49 | below 10^width the padded form has exactly width digits |
| Text.ZeroPadInjective | amb_w_spc/sfc_manufacturing/doctype/batch_amb/batch_amb.py:49 | distinct numbers pad to distinct strings |
| Text.DigitsRoundTrip | amb_w_spc/sfc_manufacturing/doctype/batch_amb/batch_amb.py:49 | the decimal digits of a number read back as the number |
| TitleNameText.Capitalize | title_name_fixer.py:96 | `capitalize()` keeps the length, upper-cases the first character and lower-cases the rest |
| TitleNameText.Split | title_name_fixer.py:96 | `split('_')` always yields at least one piece |
| TitleNameText.SplitCount | title_name_fixer.py:96 | there is one piece more than there are underscores |
| TitleNameText.SplitPiecesClean | title_name_fixer.py:96 | no piece contains the separator |
| TitleNameText.SplitJoin | title_name_fixer.py:96 | joining the pieces with the separator gives back the input |
| TitleNameText.ProperNameSplitJoin | title_name_fixer.py:96 | the word-by-word proper name is the capitalise-each-piece-and-join-with-spaces expression |
| TitleNameText.ProperNameCharwise | title_name_fixer.py:96 | the proper name has the input's length; each underscore becomes a space; a character at the start or after an underscore is upper-cased; every other character is lower-cased |
| TitleNameText.ProperNameSpaces | title_name_fixer.py:96 | the proper name has no underscore, and its spaces are the input's underscores plus its spaces, so exactly the underscores for a space-free input |
| TitleNameText.ReplaceChar | title_name_fixer.py:112 | `replace` swaps exactly the occurrences of one character and keeps the rest |
| TitleNameText.LinkOption | title_name_fixer.py:112 | the rewritten link target keeps the length and contains no space |
| TitleNameText.LinkOptionAt | title_name_fixer.py:112 | each space becomes `_` and every other character is lower-cased |
| TitleNameText.LinkOptionIdempotent | title_name_fixer.py:112 | rewriting a rewritten target changes nothing |
| TitleNameText.LinkOptionChangesSpaced | title_name_fixer.py:112 | a target with a space is always changed by the rewrite |
| TitleNameText.LinkOptionOfProperName | title_name_fixer.py:96-112 | the two rewrites are inverse on space-free names: the link rewrite of a proper name is the name lower-cased, and a lower-case snake_case name comes back unchanged |
| TitleNameDetect.FieldIssues | title_name_fixer.py:50-65 | the field loop adds no document-type issue and at most one link and one naming_series issue per field |
| TitleNameDetect.FieldIssuesExact | title_name_fixer.py:50-65 | a link issue is reported exactly for each Link field whose target is non-empty and contains a space; a naming_series issue naming the doctype exactly when some field is a unique naming_series |
| TitleNameDetect.DetectIssues | title_name_fixer.py:38-65 | at most one document-type issue per doctype |
| TitleNameDetect.DetectDocumentTypeExact | title_name_fixer.py:38-45 | a document-type issue is reported exactly for each doctype whose document type is "Master" or "Document" |
| TitleNameDetect.DetectLinkFieldExact | title_name_fixer.py:38-60 | the scan's link issues are exactly those of its doctypes' field loops |
| TitleNameDetect.DetectNamingSeriesExact | title_name_fixer.py:38-65 | the scan's naming_series issues are exactly those of its doctypes' field loops |
| TitleNameDetect.DetectIssuesConcat | title_name_fixer.py:38-65 | scanning two runs of doctypes lists the first run's issues first, list by list, so doctype order is preserved |
| TitleNameDetect.FieldIssuesConcat | title_name_fixer.py:50-65 | scanning two runs of one doctype's fields lists the first run's issues first, list by list, so within a doctype the issues follow field order, one entry per flagged field (a doctype with two unique naming_series fields is listed twice) |
| TitleNameDetect.AppendAssociative | title_name_fixer.py:38-65 | joining issue lists is associative |
| TitleNameFix.FirstIndex | title_name_fixer.py:109-117 | the `for ... break` search stops at the first matching field, or finds none |
| TitleNameFix.FixDocumentType | title_name_fixer.py:93-103 | a missing doctype leaves the store alone and records one error; a present one gets its proper name as document type; the counter moves exactly when that changed the value; the issue is resolved afterwards |
| TitleNameFix.FixDocumentTypes | title_name_fixer.py:93-103 | at most one fix or error per issue; the store keeps its doctypes; every error names a missing doctype |
| TitleNameFix.DocumentTypesChangeOnly | title_name_fixer.py:93-103 | the pass only ever sets document types to proper names |
| TitleNameFix.DocumentTypesResolve | title_name_fixer.py:93-103 | afterwards every present issue doctype has its proper name as document type |
| TitleNameFix.DocumentTypeFixesCountChanges | title_name_fixer.py:97-100 | the counter is 0 exactly when the pass changed nothing |
| TitleNameFix.DocumentTypeMissingReported | title_name_fixer.py:102-103 | every issue whose doctype is missing leaves an error naming it |
| TitleNameFix.DocumentTypesNothingLeft | title_name_fixer.py:97 | a store where every issue is already resolved is left alone, with no fix counted |
| TitleNameFix.DocumentTypesIdempotent | title_name_fixer.py:93-103 | a second document-type pass fixes nothing |
| TitleNameFix.LinkFieldIndex | title_name_fixer.py:109-111 | the first field with the issue's fieldname and target, or none exactly when no field matches |
| TitleNameFix.WithLinkOption | title_name_fixer.py:112-113 | only the chosen field changes, and only its target, to the rewritten issue target |
| TitleNameFix.FixLinkField | title_name_fixer.py:106-119 | a missing doctype leaves the store alone and records one error naming doctype and field; otherwise the first matching field gets the rewritten target; one fix is counted exactly when a field matched; no count means no change |
| TitleNameFix.FixLinkFields | title_name_fixer.py:106-119 | at most one fix or error per issue; no fix means no change; the store keeps its doctypes; every error names a missing doctype |
| TitleNameFix.LinkFieldsChangeOnly | title_name_fixer.py:106-119 | the pass only ever gives fields space-free link targets |
| TitleNameFix.WithLinkOptionResolves | title_name_fixer.py:109-117 | with unique fieldnames, rewriting the first matching field of a spaced target leaves no field matching |
| TitleNameFix.FixLinkFieldResolves | title_name_fixer.py:106-119 | with unique fieldnames, fixing a spaced target resolves its issue |
| TitleNameFix.LinkFieldsResolve | title_name_fixer.py:106-119 | with unique fieldnames and spaced targets, the pass resolves every issue |
| TitleNameFix.LinkFieldsNothingLeft | title_name_fixer.py:109-111 | a store where no issue's field is left is untouched, with no fix counted |
| TitleNameFix.LinkFieldMissingReported | title_name_fixer.py:118-119 | every issue whose doctype is missing leaves an error naming the doctype and the field |
| TitleNameFix.NamingSeriesIndex | title_name_fixer.py:125-126 | the first unique naming_series field, or none exactly when none is left |
| TitleNameFix.WithoutUnique | title_name_fixer.py:127 | only the chosen field changes, and only by having its unique flag cleared |
| TitleNameFix.FixNamingSeries | title_name_fixer.py:122-133 | a missing doctype records one error; otherwise the first unique naming_series field is cleared; one fix is counted exactly when one was there, and the count is 0 exactly when nothing changed |
| TitleNameFix.FixNamingSeriesAll | title_name_fixer.py:122-133 | at most one fix or error per name; the store keeps its doctypes; every error names a missing doctype |
| TitleNameFix.NamingSeriesChangeOnly | title_name_fixer.py:122-133 | the pass only ever clears unique flags |
| TitleNameFix.NamingSeriesFixesCountChanges | title_name_fixer.py:126-129 | the counter is 0 exactly when the pass changed nothing |
| TitleNameFix.WithoutUniqueResolves | title_name_fixer.py:125-131 | with unique fieldnames, clearing the first unique naming_series field leaves none |
| TitleNameFix.FixNamingSeriesResolves | title_name_fixer.py:122-133 | with unique fieldnames, one fix resolves its doctype |
| TitleNameFix.NamingSeriesResolve | title_name_fixer.py:122-133 | with unique fieldnames, the pass resolves every named doctype |
| TitleNameFix.NamingSeriesNothingLeft | title_name_fixer.py:126 | a store where no named doctype has a unique naming_series field is untouched, with no fix counted |
| TitleNameFix.NamingSeriesMissingReported | title_name_fixer.py:132-133 | every name missing from the store leaves an error naming it |
| TitleNameFix.ApplyFixes | title_name_fixer.py:77-139 | the three passes keep the store's doctypes and report at most one fix or error per issue |
| TitleNameFix.ApplyFixesUnfold | title_name_fixer.py:91-139 | the passes run in order, each on the store the previous one left; the results collect their counters and errors |
| TitleNameFix.ApplyFixesErrorsInOrder | title_name_fixer.py:93-133 | the error list holds document-type errors, then link errors, then naming_series errors |
| TitleNameFix.ApplyFixesErrorsNameMissing | title_name_fixer.py:102-133 | every reported error names a doctype the store lacks |
| TitleNameFix.ApplyFixesNoFixNoChange | title_name_fixer.py:93-133 | a run that counts no fix leaves the store as it was |
| TitleNameFix.FirstRunResolvesDocTypes | title_name_fixer.py:93-103 | after a run every document-type issue is resolved |
| TitleNameFix.FirstRunResolvesLinks | title_name_fixer.py:106-119 | with unique fieldnames and spaced targets, after a run every link issue is resolved |
| TitleNameFix.FirstRunResolvesNaming | title_name_fixer.py:122-133 | with unique fieldnames, after a run every naming_series issue is resolved |
| TitleNameFix.ApplyFixesNothingLeft | title_name_fixer.py:93-133 | a run over a store where every issue is already resolved fixes nothing and changes nothing |
| TitleNameFix.ApplyFixesIdempotent | title_name_fixer.py:77-139 | with unique fieldnames and spaced targets, a second run finds nothing to fix and leaves the store as the first run left it |
| TitleNameFix.DetectedLinkTargetsSpaced | title_name_fixer.py:52-60 | every detected link issue has a spaced target |
| TitleNameFix.DetectThenFixIdempotent | title_name_fixer.py:38-139 | detecting and then fixing twice: the second run fixes nothing and changes nothing |

## Left out

- Persistence and framework calls are parameters or are not modelled. This covers `get_doc`, `get_value`, `get_all`, `insert`, `save` and `db.commit`. A lookup is an `Option`-valued function; `BatchAmb.CreateMultipleBatches` and `BatchAmb.BulkApproveBatches` take the insert and save outcome as a predicate, so which items fail is not modelled.
- The clock (`nowdate`, `now_datetime`, `frappe.datetime.now_datetime`) is a parameter.
- BatchAmb.CreateMultipleBatches: the clock is read once per call. The source calls `nowdate()` twice per loop iteration, once for the id and once for `production_date`, so a run across midnight can give a batch whose id date differs from its production date; the model does not cover that.
- Notifications.WithDefaults: the context is a mapping from strings to strings, and the builders return a new mapping. The source calls `setdefault` on the caller's own dict, whose values can be any object, and returns that same dict; the aliasing and the non-string values are not modelled.
- The session user and `frappe.get_roles` are not modelled; the role set is the input of `WarehousePermissions.UserWarehousePermissions`.
- Floating point is not modelled: limits, margins and scores are exact reals.
- BatchAmbForm.RoundedPercentage: `toFixed(1)` is modelled as exact half-up rounding to tenths, not IEEE double rounding. Near a half-tenth the two can differ.
- `int(count)` in `create_multiple_batches` takes an integer; the parse error of a non-numeric count is not modelled.
- `hasattr` in Batch Processing History: a field the record lacks reads as None.
- Message texts of `throw` and `msgprint` are not modelled: only error versus advisory versus none, plus which error is raised first.
- UI effects are not modelled. This covers the hard-coded dashboard indicators, `refresh_field`, custom buttons, routes, `show_alert`, the `batch_reference` handler's console log, and the nonexistent `update_compliance` call.
- The `setTimeout` delay of `update_compliance_score` is not modelled; the score is what `calculate_compliance_score` computes.
- The asynchronous server calls of the SPC Data Point form are taken as already answered.
- TitleNameDetect.DetectIssues: each doctype's field list is taken as already parsed from its JSON text. JSON parse failure and a failing `get_all` are not modelled; the latter returns the issues found so far. The progress prints are not modelled.
- TitleNameFix.ApplyFixes: saves always succeed, and the outer `try`/`except` around all three passes is not modelled. An error entry keeps the kind, doctype and field but not the exception text. `issues.get(key, [])` with a missing key is the empty list of `Issues`.
- TitleNameFix.ApplyFixesIdempotent: stated only for stores where no doctype has two fields with one fieldname, as Frappe enforces. With duplicate fieldnames a second link or naming_series pass can find a further field.
- TitleNameFix.FirstRunResolvesLinks, `LinkFieldsResolve`, `FirstRunResolvesNaming`, `NamingSeriesResolve` and `DetectThenFixIdempotent` carry the same unique-fieldname assumption, for the same reason.
- TitleNameText.ProperNameSpaces: the proper name's space count equals the input's underscore count only for a space-free input. In general it is underscores plus spaces, and that is what is proved.
- Case mapping covers ASCII letters only; Python's Unicode `lower`, `upper` and `capitalize` are not modelled.
- The `spc_data_point.js` `parameter` handler overwrites an existing parameter name whenever the master answers. This is modelled as written.
- `batch_amb_list.js` and `third_party_api.js` are not modelled: they are list-view and UI scripts.
- The file-rewriting scripts `fix_fstrings.py`, `manual_fix.py` and `nuclear_fix.py` are not modelled: they are regex edits of files on disk.
- Install, boot, patch, hooks and `app_migrator.py` files are not modelled: they are setup glue with no business rule.
- `TitleNameFixer.__init__` and `usage_example` are not modelled: they only read the site and call the two methods in turn.
