/** The report-type validator (server/report/middleware.ts). */
module ReportMiddleware {
  import opened Http

  /** The report types the application knows. */
  const ReportTypes: seq<string> := ["offensive", "sensitive", "misinformation"]

  const InvalidTypeMessage: string := "Please select type of report."

  /** Lets the request through exactly when the `:type` segment is one of `ReportTypes`,
      compared case-sensitively; otherwise answers 404, echoing the rejected type in `yo`. */
  function IsValidReportType(reportType: string): (v: Verdict)
    ensures v.Next? <==> reportType in ReportTypes
    ensures v.Halt? ==> v.response == Response(404, InvalidType(InvalidTypeMessage, reportType))
  {
    if reportType != "offensive" && reportType != "sensitive" && reportType != "misinformation" then
      Halt(Response(404, InvalidType(InvalidTypeMessage, reportType)))
    else
      Next
  }

  /** The comparison is case-sensitive, and an absent segment (read as "") is rejected. */
  lemma RejectsOtherSpellings()
    ensures IsValidReportType("Offensive").Halt?
    ensures IsValidReportType("spam").Halt?
    ensures IsValidReportType("").Halt?
  {
  }
}
