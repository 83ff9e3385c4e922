/** The report routes (server/report/router.ts): the per-freet summary, the per-type listing
    and report creation, each behind its validator chain. */
module ReportRouter {
  import opened Common
  import opened Http
  import Reports
  import ContentFilters
  import ReportMiddleware
  import Table

  /** A request carries a session user: an id that is present and not empty (an empty id is
      falsy in the session check, which is why the creation handler can fall back on ''). */
  predicate LoggedIn(req: Request) {
    req.sessionUserId.Some? && req.sessionUserId.value != ""
  }

  /** `isUserLoggedIn` (server/user/middleware.ts is not part of this model): 403 without a
      session user, as the route documentation states. */
  function IsUserLoggedIn(req: Request): Verdict {
    if LoggedIn(req) then Next else Halt(Response(403, NotLoggedIn))
  }

  /** `isFreetExists` (server/freet/middleware.ts is not part of this model): 404 when the
      freet is not among the existing `freets`, as the route documentation states. */
  function IsFreetExists(freets: set<Id>, req: Request): Verdict {
    if req.freetId in freets then Next else Halt(Response(404, FreetNotFound))
  }

  const CreatedMessage: string := "Your report was created successfully."

  /** Every stored report has one of the known types. */
  ghost predicate TypesValid(rs: seq<Reports.Report>) {
    forall x :: x in rs ==> x.reportType in ReportMiddleware.ReportTypes
  }

  /** GET /api/reports/:freetId: 404 for a missing freet; otherwise 200 with the total score
      and the three per-type counts, unless reading the detection flag crashes. */
  function GetSummary(reports: Reports.ReportCollection, filters: ContentFilters.ContentFilterCollection,
                      freets: set<Id>, req: Request): (r: Result<Response>)
    reads reports, filters
    ensures req.freetId !in freets ==> r == Ok(Response(404, FreetNotFound))
    ensures req.freetId in freets ==>
              (r.Crash? <==> forall i :: 0 <= i < |filters.filters| ==> filters.filters[i].freetId != req.freetId)
    ensures req.freetId in freets && r.Ok? ==>
              && r.value.status == 200
              && r.value.body == Summary(reports.GetCountOfAll(filters, freets, req.freetId).value,
                                         reports.GetCountOfType(freets, req.freetId, "offensive"),
                                         reports.GetCountOfType(freets, req.freetId, "sensitive"),
                                         reports.GetCountOfType(freets, req.freetId, "misinformation"))
  {
    var checks := [IsFreetExists(freets, req)];
    assert checks[0] == IsFreetExists(freets, req);
    match RunChain(checks)
    case Halt(res) => Ok(res)
    case Next =>
      match reports.GetCountOfAll(filters, freets, req.freetId)
      case Crash(p) => Crash(p)
      case Ok(c1) =>
        var c2 := reports.GetCountOfType(freets, req.freetId, "offensive");
        var c3 := reports.GetCountOfType(freets, req.freetId, "sensitive");
        var c4 := reports.GetCountOfType(freets, req.freetId, "misinformation");
        Ok(Response(200, Summary(c1, c2, c3, c4)))
  }

  /** A summary's total is at least the sum of its three per-type counts; it exceeds the sum by
      exactly `DetectionBonus` or nothing, according to the detection flag, when every report on
      the freet has a known type. */
  lemma SummaryTotalCoversCategories(reports: Reports.ReportCollection, filters: ContentFilters.ContentFilterCollection,
                                     freets: set<Id>, req: Request)
    requires req.freetId in freets
    requires GetSummary(reports, filters, freets, req).Ok?
    ensures var s := GetSummary(reports, filters, freets, req).value.body;
            s.Summary? && s.offensiveCount + s.sensitiveCount + s.misinformationCount <= s.totalCount
    ensures TypesValid(reports.reports) ==>
              var s := GetSummary(reports, filters, freets, req).value.body;
              var bonus := if filters.GetStatus(freets, req.freetId).value then Reports.DetectionBonus else 0;
              s.totalCount == s.offensiveCount + s.sensitiveCount + s.misinformationCount + bonus
  {
    reports.CategoryCounts(freets, req.freetId, "offensive", "sensitive", "misinformation");
  }

  /** GET /api/reports/:freetId/:type: 404 for a missing freet, then 404 for an unknown type;
      otherwise 200 with the freet's reports of that type, in stored order, and their number. */
  function GetTypeReports(reports: Reports.ReportCollection, freets: set<Id>, req: Request): (res: Response)
    reads reports
    ensures req.freetId !in freets ==> res == Response(404, FreetNotFound)
    ensures req.freetId in freets && req.reportType !in ReportMiddleware.ReportTypes ==>
              res == Response(404, InvalidType(ReportMiddleware.InvalidTypeMessage, req.reportType))
    ensures res.status == 200 <==> req.freetId in freets && req.reportType in ReportMiddleware.ReportTypes
    ensures res.status == 200 ==>
              && res.body.TypeReports?
              && res.body.count == |res.body.reports|
              && forall x :: x in res.body.reports <==>
                               x in reports.reports && x.freetId == req.freetId && x.reportType == req.reportType
    ensures res.status == 200 ==>
              res.body == TypeReports(reports.FindAllOfType(freets, req.freetId, req.reportType),
                                      reports.GetCountOfType(freets, req.freetId, req.reportType))
  {
    var checks := [IsFreetExists(freets, req), ReportMiddleware.IsValidReportType(req.reportType)];
    assert checks[0] == IsFreetExists(freets, req) && checks[1] == ReportMiddleware.IsValidReportType(req.reportType);
    match RunChain(checks)
    case Halt(res) => res
    case Next =>
      var typeReports := reports.FindAllOfType(freets, req.freetId, req.reportType);
      var count := reports.GetCountOfType(freets, req.freetId, req.reportType);
      Response(200, TypeReports(typeReports, count))
  }

  /** POST /api/reports/:freetId/:type. The checks run in order (logged in, freet exists, type
      known) and the first that fails answers; only when all pass is exactly one report stored,
      by the session user, on the freet and of the type in the path, with the body's content. */
  method PostReport(reports: Reports.ReportCollection, freets: set<Id>, req: Request) returns (res: Response)
    requires reports.Valid()
    modifies reports
    ensures reports.Valid()
    ensures !LoggedIn(req) ==> res == Response(403, NotLoggedIn)
    ensures LoggedIn(req) && req.freetId !in freets ==> res == Response(404, FreetNotFound)
    ensures LoggedIn(req) && req.freetId in freets && req.reportType !in ReportMiddleware.ReportTypes ==>
              res == Response(404, InvalidType(ReportMiddleware.InvalidTypeMessage, req.reportType))
    ensures res.status == 201 <==>
              LoggedIn(req) && req.freetId in freets && req.reportType in ReportMiddleware.ReportTypes
    ensures res.status != 201 ==> reports.reports == old(reports.reports) && reports.nextId == old(reports.nextId)
    ensures res.status == 201 ==>
              var report := Reports.Report(old(reports.nextId), req.sessionUserId.value, req.freetId, req.reportType, req.content);
              && res == Response(201, Created(CreatedMessage, report))
              && reports.reports == old(reports.reports) + [report]
              && reports.nextId == old(reports.nextId) + 1
    ensures TypesValid(old(reports.reports)) ==> TypesValid(reports.reports)
  {
    var checks := [IsUserLoggedIn(req), IsFreetExists(freets, req), ReportMiddleware.IsValidReportType(req.reportType)];
    assert checks[0] == IsUserLoggedIn(req) && checks[1] == IsFreetExists(freets, req)
        && checks[2] == ReportMiddleware.IsValidReportType(req.reportType);
    var verdict := RunChain(checks);
    if verdict.Halt? {
      return verdict.response;
    }
    var userId := if req.sessionUserId.Some? then req.sessionUserId.value else "";
    var report := reports.AddOne(userId, req.freetId, req.reportType, req.content);
    res := Response(201, Created(CreatedMessage, report));
  }

  /** A client of the contracts above. Freet "X" gets two offensive reports, one sensitive
      report and a clean detection record; freet "Y" has no reports and a positive detection;
      freet "Z" has no detection record, so its summary crashes. */
  method SummaryExamples() {
    var freets := {"X", "Y", "Z"};
    var reports := new Reports.ReportCollection();
    var filters := new ContentFilters.ContentFilterCollection();
    var _ := filters.AddOne("X", false);
    PostsOnX(reports, freets);
    SummaryOfX(reports, filters, freets);
    SummariesOfYAndZ(freets);
  }

  /** The three accepted posts on freet "X" in `SummaryExamples`, stored in order with ids 0 to 2. */
  method PostsOnX(reports: Reports.ReportCollection, freets: set<Id>)
    requires "X" in freets
    requires reports.Valid() && reports.reports == [] && reports.nextId == 0
    modifies reports
    ensures reports.reports == [Reports.Report(0, "u1", "X", "offensive", None),
                                Reports.Report(1, "u1", "X", "offensive", Some("again")),
                                Reports.Report(2, "u2", "X", "sensitive", None)]
  {
    var _ := PostReport(reports, freets, Request(Some("u1"), "X", "offensive", None));
    var _ := PostReport(reports, freets, Request(Some("u1"), "X", "offensive", Some("again")));
    var _ := PostReport(reports, freets, Request(Some("u2"), "X", "sensitive", None));
  }

  /** Posts the creation route refuses, and stores nothing for: a type outside the three, no
      session, and an empty session id. */
  method RefusedPosts() {
    var freets := {"X"};
    var reports := new Reports.ReportCollection();
    var spam := PostReport(reports, freets, Request(Some("u2"), "X", "spam", None));
    assert spam.status == 404;
    var anonymous := PostReport(reports, freets, Request(None, "X", "sensitive", None));
    assert anonymous.status == 403;
    var unnamed := PostReport(reports, freets, Request(Some(""), "X", "sensitive", None));
    assert unnamed.status == 403;
    assert reports.reports == [];
  }

  /** The summaries of freets "Y" and "Z" in `SummaryExamples`: no reports, and a positive
      detection record for "Y" only. */
  method SummariesOfYAndZ(freets: set<Id>)
    requires "Y" in freets && "Z" in freets
  {
    var none := new Reports.ReportCollection();
    var flagged := new ContentFilters.ContentFilterCollection();
    var _ := flagged.AddOne("Y", true);
    var y := GetSummary(none, flagged, freets, Request(None, "Y", "", None));
    assert y == Ok(Response(200, Summary(10, 0, 0, 0)));
    var z := GetSummary(none, flagged, freets, Request(None, "Z", "", None));
    assert z.Crash?;
  }

  /** The summary of freet "X" in `SummaryExamples`: three reports and no detection. */
  method SummaryOfX(reports: Reports.ReportCollection, filters: ContentFilters.ContentFilterCollection, freets: set<Id>)
    requires "X" in freets
    requires reports.reports == [Reports.Report(0, "u1", "X", "offensive", None),
                                 Reports.Report(1, "u1", "X", "offensive", Some("again")),
                                 Reports.Report(2, "u2", "X", "sensitive", None)]
    requires filters.filters == [ContentFilters.ContentFilter("X", false)]
  {
    var s := reports.reports;
    assert filters.GetStatus(freets, "X") == Ok(false);
    assert reports.FindAll(freets, "X") == s by {
      SelectOfThree(s, Reports.OnFreet("X"));
    }
    assert reports.GetCountOfType(freets, "X", "offensive") == 2 by {
      SelectOfThree(s, Reports.OnFreetOfType("X", "offensive"));
    }
    assert reports.GetCountOfType(freets, "X", "sensitive") == 1 by {
      SelectOfThree(s, Reports.OnFreetOfType("X", "sensitive"));
    }
    assert reports.GetCountOfType(freets, "X", "misinformation") == 0 by {
      SelectOfThree(s, Reports.OnFreetOfType("X", "misinformation"));
    }
    assert reports.GetCountOfAll(filters, freets, "X") == Ok(3);
    var x := GetSummary(reports, filters, freets, Request(None, "X", "", None));
    assert x == Ok(Response(200, Summary(3, 2, 1, 0)));
  }

  /** `Select` on a three-document table, document by document. */
  lemma {:induction false} SelectOfThree(s: seq<Reports.Report>, p: Reports.Report -> bool)
    requires |s| == 3
    ensures Table.Select(s, p) == (if p(s[0]) then [s[0]] else [])
                                  + ((if p(s[1]) then [s[1]] else []) + (if p(s[2]) then [s[2]] else []))
  {
    assert s == [s[0]] + s[1..] && s[1..] == [s[1]] + s[2..] && s[2..] == [s[2]] + [];
    Table.SelectCons(s[2], [], p);
    Table.SelectCons(s[1], s[2..], p);
    Table.SelectCons(s[0], s[1..], p);
  }
}
