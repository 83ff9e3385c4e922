/** The detection store (server/contentFilter/collection.ts): one detect flag per freet, as
    produced by the profanity scan, plus the scan's entry point `runFilter`. */
module ContentFilters {
  import opened Common
  import Table

  /** A stored content filter (server/contentFilter/model.ts). The document's own `_id` is
      never read by the collection and is not modelled. */
  datatype ContentFilter = ContentFilter(freetId: Id, detect: bool)

  /** The MongoDB filter `{freetId: f}`. */
  function ForFreet(f: Id): ContentFilter -> bool {
    (c: ContentFilter) => c.freetId == f
  }

  /** The documents that survive `deleteMany({freetId: f})`. */
  function NotForFreet(f: Id): ContentFilter -> bool {
    (c: ContentFilter) => c.freetId != f
  }

  /** The ContentFilter collection. `freets` arguments stand for the freets that
      `FreetCollection.findOne` finds: the source dereferences that lookup's result unchecked,
      so a call for a missing freet is outside what its callers do. */
  class ContentFilterCollection {
    var filters: seq<ContentFilter>

    constructor ()
      ensures filters == []
    {
      filters := [];
    }

    /** Stores a new record even when `freetId` already has one. */
    method AddOne(freetId: Id, detect: bool) returns (c: ContentFilter)
      modifies this
      ensures c == ContentFilter(freetId, detect)
      ensures filters == old(filters) + [c]
      ensures forall freets | freetId in freets && old(GetStatus(freets, freetId)).Ok? ::
                GetStatus(freets, freetId) == old(GetStatus(freets, freetId))
    {
      c := ContentFilter(freetId, detect);
      Table.FirstWhereAppend(filters, c, ForFreet(freetId));
      filters := filters + [c];
    }

    /** The `detect` of the first record for the freet; a crash reading `detect` of null
        when the freet has no record. */
    function GetStatus(freets: set<Id>, freetId: Id): (r: Result<bool>)
      reads this
      requires freetId in freets
      ensures r.Crash? <==> forall i :: 0 <= i < |filters| ==> filters[i].freetId != freetId
      ensures r.Crash? ==> r.property == "detect"
      ensures r.Ok? ==> exists i :: 0 <= i < |filters| && filters[i] == ContentFilter(freetId, r.value)
                                    && forall j :: 0 <= j < i ==> filters[j].freetId != freetId
    {
      match Table.FirstWhere(filters, ForFreet(freetId))
      case None => Crash("detect")
      case Some(i) => Ok(filters[i].detect)
    }

    /** Overwrites `detect` on the first record for the freet, the one `GetStatus` reads; a
        crash assigning `detect` of null when there is none. */
    method UpdateStatus(freets: set<Id>, freetId: Id, detect: bool) returns (r: Result<()>)
      requires freetId in freets
      modifies this
      ensures match Table.FirstWhere(old(filters), ForFreet(freetId))
                case None => r == Crash("detect") && filters == old(filters)
                case Some(i) => r == Ok(()) && filters == old(filters)[i := ContentFilter(freetId, detect)]
      ensures r.Ok? <==> old(GetStatus(freets, freetId)).Ok?
      ensures r.Ok? ==> GetStatus(freets, freetId) == Ok(detect)
    {
      var found := Table.FirstWhere(filters, ForFreet(freetId));
      if found.None? {
        return Crash("detect");
      }
      var i := found.value;
      Table.FirstWhereUpdate(filters, i, ContentFilter(freetId, detect), ForFreet(freetId));
      filters := filters[i := filters[i].(detect := detect)];
      r := Ok(());
    }

    /** Removes every record for the freet; the other records stay, in order. */
    method DeleteFilter(freetId: Id)
      modifies this
      ensures filters == Table.Select(old(filters), NotForFreet(freetId))
      ensures forall c :: c in filters <==> c in old(filters) && c.freetId != freetId
    {
      filters := Table.Select(filters, NotForFreet(freetId));
    }
  }

  /** The part of the censor-sensor library that `runFilter` uses; the library is not part of
      this model. A filter's state is its set of enabled tiers; `initialTiers` is what a fresh
      `new CensorSensor()` enables, and the two queries are left uninterpreted. */
  datatype CensorSensor = CensorSensor(
    initialTiers: set<nat>,
    isProfane: (set<nat>, string) -> bool,
    profaneIshWords: (set<nat>, string) -> seq<string>)

  function DisableTier(tiers: set<nat>, tier: nat): set<nat> {
    tiers - {tier}
  }

  function EnableTier(tiers: set<nat>, tier: nat): set<nat> {
    tiers + {tier}
  }

  /** The tiers of the filter `runFilter` builds: tier 2 disabled, then tiers 1, 3 and 4 enabled. */
  function FilterTiers(lib: CensorSensor): (tiers: set<nat>)
    ensures 2 !in tiers && 1 in tiers && 3 in tiers && 4 in tiers
    ensures lib.initialTiers <= {1, 2, 3, 4} ==> tiers == {1, 3, 4}
  {
    EnableTier(EnableTier(EnableTier(DisableTier(lib.initialTiers, 2), 1), 3), 4)
  }

  /** The words a fresh filter finds in `content`: none unless it calls the content profane,
      otherwise the distinct words `profaneIshWords` lists. */
  function RunFilter(lib: CensorSensor, content: string): (words: set<string>)
    ensures !lib.isProfane(FilterTiers(lib), content) ==> words == {}
    ensures lib.isProfane(FilterTiers(lib), content) ==>
              forall w :: w in words <==> w in lib.profaneIshWords(FilterTiers(lib), content)
  {
    var filter := FilterTiers(lib);
    if lib.isProfane(filter, content) then set w | w in lib.profaneIshWords(filter, content) else {}
  }

  /** Because every call builds and configures its own filter, the words found depend on the
      content and the library's lexicon only, not on which tiers the library enables by default. */
  lemma RunFilterIgnoresDefaults(lib: CensorSensor, other: CensorSensor, content: string)
    requires lib.isProfane == other.isProfane && lib.profaneIshWords == other.profaneIshWords
    requires lib.initialTiers <= {1, 2, 3, 4} && other.initialTiers <= {1, 2, 3, 4}
    ensures RunFilter(lib, content) == RunFilter(other, content)
  {
    assert FilterTiers(lib) == FilterTiers(other);
  }
}
