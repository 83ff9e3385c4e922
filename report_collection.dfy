/** The report ledger (server/report/collection.ts): reports stored per freet, the per-freet
    and per-type queries, their counts, the total score and the cascade deletes. */
module Reports {
  import opened Common
  import Table
  import ContentFilters

  /** A stored report (server/report/model.ts). `id` is the `_id` the store assigns on
      creation; `content` is optional in the schema. */
  datatype Report = Report(id: nat, authorId: Id, freetId: Id, reportType: string, content: Option<string>)

  /** The fixed amount a positive content-filter detection adds to a freet's total score. */
  const DetectionBonus: nat := 10

  function IdOf(r: Report): int {
    r.id
  }

  /** The MongoDB filter `{freetId: f}`. */
  function OnFreet(f: Id): Report -> bool {
    (r: Report) => r.freetId == f
  }

  /** The MongoDB filter `{type: t}`. */
  function OfType(t: string): Report -> bool {
    (r: Report) => r.reportType == t
  }

  /** The MongoDB filter `{freetId: f, type: t}`. */
  function OnFreetOfType(f: Id, t: string): Report -> bool {
    (r: Report) => r.freetId == f && r.reportType == t
  }

  /** The documents that survive `deleteMany({freetId: f})`. */
  function NotOnFreet(f: Id): Report -> bool {
    (r: Report) => r.freetId != f
  }

  /** The documents that survive `deleteMany({authorId: a})`. */
  function NotByAuthor(a: Id): Report -> bool {
    (r: Report) => r.authorId != a
  }

  /** The Report collection. `freets` arguments stand for the freets that
      `FreetCollection.findOne` finds: the queries dereference that lookup's result unchecked,
      so they are modelled only for existing freets (the report routes check that first). */
  class ReportCollection {
    var reports: seq<Report>
    /** The `_id` the store gives the next report. */
    var nextId: nat

    /** Every stored report has its own `_id`: ids increase along the table and stay below `nextId`. */
    ghost predicate Valid()
      reads this
    {
      && Table.Increasing(reports, IdOf)
      && forall x :: x in reports ==> x.id < nextId
    }

    constructor ()
      ensures Valid() && reports == [] && nextId == 0
    {
      reports := [];
      nextId := 0;
    }

    /** Stores one new report with the given fields and a fresh `_id`; no check for an
        earlier report by the same author on the same freet with the same type. */
    method AddOne(authorId: Id, freetId: Id, reportType: string, content: Option<string>) returns (report: Report)
      requires Valid()
      modifies this
      ensures Valid()
      ensures report == Report(old(nextId), authorId, freetId, reportType, content)
      ensures reports == old(reports) + [report] && nextId == old(nextId) + 1
      ensures forall x :: x in old(reports) ==> x.id != report.id
    {
      report := Report(nextId, authorId, freetId, reportType, content);
      reports := reports + [report];
      nextId := nextId + 1;
    }

    /** The reports on the freet, in the order they were stored. */
    function FindAll(freets: set<Id>, freetId: Id): (r: seq<Report>)
      reads this
      requires freetId in freets
      ensures forall x :: x in r <==> x in reports && x.freetId == freetId
      ensures r == Table.Select(reports, OnFreet(freetId))
    {
      Table.Select(reports, OnFreet(freetId))
    }

    /** `FindAll` lists each report on the freet as often as it is stored, and no other report. */
    lemma FindAllMultiplicity(freets: set<Id>, freetId: Id)
      requires freetId in freets
      ensures forall x :: multiset(FindAll(freets, freetId))[x] == if x.freetId == freetId then multiset(reports)[x] else 0
    {
      Table.SelectMultiplicity(reports, OnFreet(freetId));
    }

    /** The reports of one type on the freet: `FindAll` narrowed to that type. */
    function FindAllOfType(freets: set<Id>, freetId: Id, reportType: string): (r: seq<Report>)
      reads this
      requires freetId in freets
      ensures forall x :: x in r <==> x in reports && x.freetId == freetId && x.reportType == reportType
      ensures r == Table.Select(FindAll(freets, freetId), OfType(reportType))
    {
      Table.SelectNarrow(reports, OnFreet(freetId), OfType(reportType), OnFreetOfType(freetId, reportType));
      Table.Select(reports, OnFreetOfType(freetId, reportType))
    }

    /** The number of reports of one type on the freet, never more than all its reports. */
    function GetCountOfType(freets: set<Id>, freetId: Id, reportType: string): (n: nat)
      reads this
      requires freetId in freets
      ensures n == |FindAllOfType(freets, freetId, reportType)|
      ensures n <= |FindAll(freets, freetId)|
    {
      |FindAllOfType(freets, freetId, reportType)|
    }

    /** The freet's total score: its number of reports, plus `DetectionBonus` when its content
        filter flagged it. The detection flag is read first, so a freet without a content filter
        record makes the whole computation crash. */
    function GetCountOfAll(filters: ContentFilters.ContentFilterCollection, freets: set<Id>, freetId: Id): (r: Result<nat>)
      reads this, filters
      requires freetId in freets
      ensures r.Crash? <==> forall i :: 0 <= i < |filters.filters| ==> filters.filters[i].freetId != freetId
      ensures r.Ok? ==> filters.GetStatus(freets, freetId).Ok?
      ensures r.Ok? ==> r.value == |FindAll(freets, freetId)| + if filters.GetStatus(freets, freetId).value then DetectionBonus else 0
    {
      match filters.GetStatus(freets, freetId)
      case Crash(p) => Crash(p)
      case Ok(detect) =>
        var count := |FindAll(freets, freetId)|;
        Ok(if detect then count + DetectionBonus else count)
    }

    /** The per-type counts of three distinct types add up to at most the freet's number of
        reports, and to exactly that number when every report on the freet has one of them. */
    lemma CategoryCounts(freets: set<Id>, freetId: Id, t1: string, t2: string, t3: string)
      requires freetId in freets
      requires t1 != t2 && t1 != t3 && t2 != t3
      ensures GetCountOfType(freets, freetId, t1) + GetCountOfType(freets, freetId, t2)
                + GetCountOfType(freets, freetId, t3) <= |FindAll(freets, freetId)|
      ensures (forall x :: x in reports && x.freetId == freetId ==> x.reportType == t1 || x.reportType == t2 || x.reportType == t3) ==>
                GetCountOfType(freets, freetId, t1) + GetCountOfType(freets, freetId, t2)
                  + GetCountOfType(freets, freetId, t3) == |FindAll(freets, freetId)|
    {
      Table.SelectPartition(reports, OnFreet(freetId),
        OnFreetOfType(freetId, t1), OnFreetOfType(freetId, t2), OnFreetOfType(freetId, t3));
    }

    /** Removes every report on the freet; all other reports stay, in order. */
    method DeleteManyByFreet(freetId: Id)
      requires Valid()
      modifies this
      ensures Valid() && nextId == old(nextId)
      ensures reports == Table.Select(old(reports), NotOnFreet(freetId))
      ensures forall x :: x in reports <==> x in old(reports) && x.freetId != freetId
    {
      Table.SelectIncreasing(reports, NotOnFreet(freetId), IdOf);
      reports := Table.Select(reports, NotOnFreet(freetId));
    }

    /** Removes every report by the author; all other reports stay, in order. */
    method DeleteManyByAuthor(authorId: Id)
      requires Valid()
      modifies this
      ensures Valid() && nextId == old(nextId)
      ensures reports == Table.Select(old(reports), NotByAuthor(authorId))
      ensures forall x :: x in reports <==> x in old(reports) && x.authorId != authorId
    {
      Table.SelectIncreasing(reports, NotByAuthor(authorId), IdOf);
      reports := Table.Select(reports, NotByAuthor(authorId));
    }
  }
}
