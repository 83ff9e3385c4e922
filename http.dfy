/** The request/response boundary of the report routes, and express's validator chains. */
module Http {
  import opened Common
  import Reports

  /** What a report route reads from a request: the session's user, the `:freetId` and
      `:type` path segments, and `content` from the body. */
  datatype Request = Request(sessionUserId: Option<Id>, freetId: Id, reportType: string, content: Option<string>)

  /** The JSON bodies the report routes send. Responses list stored reports as they are
      stored; the field renaming of server/report/util.ts is not part of this model. */
  datatype Body =
    | NotLoggedIn
    | FreetNotFound
    | InvalidType(error: string, yo: string)
    | Summary(totalCount: nat, offensiveCount: nat, sensitiveCount: nat, misinformationCount: nat)
    | TypeReports(reports: seq<Reports.Report>, count: nat)
    | Created(message: string, report: Reports.Report)

  datatype Response = Response(status: nat, body: Body)

  /** What a middleware does: call `next`, or end the request with a response. */
  datatype Verdict = Next | Halt(response: Response)

  /** An express validator chain: the first middleware that ends the request decides the
      response and the later ones never run; the handler runs only when all call `next`. */
  function RunChain(checks: seq<Verdict>): (v: Verdict)
    ensures v.Next? <==> forall i :: 0 <= i < |checks| ==> checks[i].Next?
    ensures v.Halt? ==> exists i :: 0 <= i < |checks| && checks[i] == v
                                    && forall j :: 0 <= j < i ==> checks[j].Next?
  {
    if checks == [] then Next
    else if checks[0].Halt? then checks[0]
    else RunChain(checks[1..])
  }
}
