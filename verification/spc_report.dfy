/** `SPCReport.before_save`: generate "<type> Report - <period>" when no name is given. */
module SpcReport {
  import opened Frappe

  datatype Report = Report(reportName: string, reportType: string, timePeriod: string)

  const Infix: string := " Report - "

  function BeforeSave(rep: Report): (r: Report)
    ensures r.reportType == rep.reportType && r.timePeriod == rep.timePeriod
    ensures Filled(rep.reportName) || !Filled(rep.reportType) || !Filled(rep.timePeriod) ==> r == rep
    ensures !Filled(rep.reportName) && Filled(rep.reportType) && Filled(rep.timePeriod) ==>
              && |r.reportName| == |rep.reportType| + |Infix| + |rep.timePeriod|
              && r.reportName[..|rep.reportType|] == rep.reportType
              && r.reportName[|rep.reportType|..|rep.reportType| + |Infix|] == Infix
              && r.reportName[|rep.reportType| + |Infix|..] == rep.timePeriod
  {
    if !Filled(rep.reportName) && Filled(rep.reportType) && Filled(rep.timePeriod) then
      rep.(reportName := rep.reportType + Infix + rep.timePeriod)
    else
      rep
  }

  /** A generated name is kept on the next save. */
  lemma BeforeSaveIdempotent(rep: Report)
    ensures BeforeSave(BeforeSave(rep)) == BeforeSave(rep)
  {
  }

  /** Reports of one type for different periods get different names. */
  lemma GeneratedNamesDistinct(a: Report, b: Report)
    requires !Filled(a.reportName) && Filled(a.reportType) && Filled(a.timePeriod)
    requires !Filled(b.reportName) && Filled(b.reportType) && Filled(b.timePeriod)
    requires a.reportType == b.reportType && a.timePeriod != b.timePeriod
    ensures BeforeSave(a).reportName != BeforeSave(b).reportName
  {
    var n := |a.reportType| + |Infix|;
    assert BeforeSave(a).reportName[n..] == a.timePeriod;
    assert BeforeSave(b).reportName[n..] == b.timePeriod;
  }
}
