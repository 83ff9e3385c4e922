/** Per-user sensitivity settings (server/sensitivitySetting/collection.ts): two display flags
    per user, created off and switched by four setters that each assign one flag. */
module SensitivitySettings {
  import opened Common
  import Table

  /** A stored setting (server/sensitivitySetting/model.ts). The document's own `_id` is never
      read by the collection and is not modelled. */
  datatype SensitivitySetting = SensitivitySetting(userId: Id, showSensitiveContent: bool, showHiddenFreet: bool)

  /** The two flags of a setting. */
  datatype Flag = SensitiveContent | HiddenFreet

  function Get(s: SensitivitySetting, flag: Flag): bool {
    match flag
    case SensitiveContent => s.showSensitiveContent
    case HiddenFreet => s.showHiddenFreet
  }

  /** The setting with one flag assigned: the user and the other flag are untouched. */
  function Assign(s: SensitivitySetting, flag: Flag, value: bool): (r: SensitivitySetting)
    ensures r.userId == s.userId
    ensures Get(r, flag) == value
    ensures forall other :: other != flag ==> Get(r, other) == Get(s, other)
  {
    match flag
    case SensitiveContent => s.(showSensitiveContent := value)
    case HiddenFreet => s.(showHiddenFreet := value)
  }

  /** The property a setter assigns, named as the TypeError names it when there is no setting. */
  function PropertyName(flag: Flag): string {
    match flag
    case SensitiveContent => "showSensitiveContent"
    case HiddenFreet => "showHiddenFreet"
  }

  /** The MongoDB filter `{userId: u}`. */
  function OfUser(u: Id): SensitivitySetting -> bool {
    (s: SensitivitySetting) => s.userId == u
  }

  /** The documents that survive `deleteMany({userId: u})`. */
  function NotOfUser(u: Id): SensitivitySetting -> bool {
    (s: SensitivitySetting) => s.userId != u
  }

  /** The table after a setter for `flag` has run for the user: the user's first setting (the
      one `findOne` returns) has the flag assigned and every other document is unchanged. A
      user without a setting leaves the table as it was, since the setter crashes before saving. */
  function AssignFirst(table: seq<SensitivitySetting>, userId: Id, flag: Flag, value: bool): (r: seq<SensitivitySetting>)
    ensures |r| == |table|
    ensures forall j :: 0 <= j < |table| ==> r[j].userId == table[j].userId
    ensures Table.FirstWhere(r, OfUser(userId)) == Table.FirstWhere(table, OfUser(userId))
    ensures match Table.FirstWhere(table, OfUser(userId))
              case None => r == table
              case Some(i) => r[i] == Assign(table[i], flag, value)
                              && forall j :: 0 <= j < |table| && j != i ==> r[j] == table[j]
  {
    match Table.FirstWhere(table, OfUser(userId))
    case None => table
    case Some(i) =>
      Table.FirstWhereUpdate(table, i, Assign(table[i], flag, value), OfUser(userId));
      table[i := Assign(table[i], flag, value)]
  }

  /** Of two calls of the same setter only the later counts; with equal values the setter is
      idempotent. */
  lemma RepeatedSetter(table: seq<SensitivitySetting>, userId: Id, flag: Flag, first: bool, second: bool)
    ensures AssignFirst(AssignFirst(table, userId, flag, first), userId, flag, second)
            == AssignFirst(table, userId, flag, second)
    ensures AssignFirst(AssignFirst(table, userId, flag, first), userId, flag, first)
            == AssignFirst(table, userId, flag, first)
  {
  }

  /** Setters of different flags do not interfere: their order does not matter. */
  lemma SettersCommute(table: seq<SensitivitySetting>, userId: Id, a: bool, b: bool)
    ensures AssignFirst(AssignFirst(table, userId, SensitiveContent, a), userId, HiddenFreet, b)
            == AssignFirst(AssignFirst(table, userId, HiddenFreet, b), userId, SensitiveContent, a)
  {
  }

  /** The SensitivitySetting collection. `users` arguments stand for the users that
      `UserCollection.findOneByUserId` finds: `findUserSetting` dereferences that lookup's
      result unchecked, so the queries and setters are modelled only for existing users (the
      callers pass the session user, whose record is assumed to still exist). */
  class SensitivitySettingCollection {
    var settings: seq<SensitivitySetting>

    constructor ()
      ensures settings == []
    {
      settings := [];
    }

    /** Stores a new setting for the user with both flags off. */
    method AddOne(userId: Id) returns (s: SensitivitySetting)
      modifies this
      ensures s == SensitivitySetting(userId, false, false)
      ensures settings == old(settings) + [s]
    {
      s := SensitivitySetting(userId, false, false);
      settings := settings + [s];
    }

    /** The user's first setting, or None (`findOne` yields null) when the user has none. */
    function FindUserSetting(users: set<Id>, userId: Id): (r: Option<SensitivitySetting>)
      reads this
      requires userId in users
      ensures r.None? <==> forall i :: 0 <= i < |settings| ==> settings[i].userId != userId
      ensures r.Some? ==> exists i :: 0 <= i < |settings| && settings[i] == r.value && r.value.userId == userId
                                      && forall j :: 0 <= j < i ==> settings[j].userId != userId
    {
      match Table.FirstWhere(settings, OfUser(userId))
      case None => None
      case Some(i) => Some(settings[i])
    }

    /** The shared body of the four setters: assigns one flag of the user's setting and saves
        it, returning the saved setting; crashes when the user has no setting. */
    method SetFlag(users: set<Id>, userId: Id, flag: Flag, value: bool) returns (r: Result<SensitivitySetting>)
      requires userId in users
      modifies this
      ensures settings == AssignFirst(old(settings), userId, flag, value)
      ensures r == match old(FindUserSetting(users, userId))
                   case None => Crash(PropertyName(flag))
                   case Some(s) => Ok(Assign(s, flag, value))
      ensures r.Ok? ==> FindUserSetting(users, userId) == Some(r.value)
    {
      var found := Table.FirstWhere(settings, OfUser(userId));
      if found.None? {
        return Crash(PropertyName(flag));
      }
      var i := found.value;
      var setting := Assign(settings[i], flag, value);
      Table.FirstWhereUpdate(settings, i, setting, OfUser(userId));
      settings := settings[i := setting];
      r := Ok(setting);
    }

    method HideSensitiveContent(users: set<Id>, userId: Id) returns (r: Result<SensitivitySetting>)
      requires userId in users
      modifies this
      ensures settings == AssignFirst(old(settings), userId, SensitiveContent, false)
      ensures r == match old(FindUserSetting(users, userId))
                   case None => Crash("showSensitiveContent")
                   case Some(s) => Ok(s.(showSensitiveContent := false))
    {
      r := SetFlag(users, userId, SensitiveContent, false);
    }

    method ShowSensitiveContent(users: set<Id>, userId: Id) returns (r: Result<SensitivitySetting>)
      requires userId in users
      modifies this
      ensures settings == AssignFirst(old(settings), userId, SensitiveContent, true)
      ensures r == match old(FindUserSetting(users, userId))
                   case None => Crash("showSensitiveContent")
                   case Some(s) => Ok(s.(showSensitiveContent := true))
    {
      r := SetFlag(users, userId, SensitiveContent, true);
    }

    method HideHiddenFreet(users: set<Id>, userId: Id) returns (r: Result<SensitivitySetting>)
      requires userId in users
      modifies this
      ensures settings == AssignFirst(old(settings), userId, HiddenFreet, false)
      ensures r == match old(FindUserSetting(users, userId))
                   case None => Crash("showHiddenFreet")
                   case Some(s) => Ok(s.(showHiddenFreet := false))
    {
      r := SetFlag(users, userId, HiddenFreet, false);
    }

    method ShowHiddenFreet(users: set<Id>, userId: Id) returns (r: Result<SensitivitySetting>)
      requires userId in users
      modifies this
      ensures settings == AssignFirst(old(settings), userId, HiddenFreet, true)
      ensures r == match old(FindUserSetting(users, userId))
                   case None => Crash("showHiddenFreet")
                   case Some(s) => Ok(s.(showHiddenFreet := true))
    {
      r := SetFlag(users, userId, HiddenFreet, true);
    }

    /** Removes every setting of the user; other users' settings stay, in order. */
    method DeleteSetting(userId: Id)
      modifies this
      ensures settings == Table.Select(old(settings), NotOfUser(userId))
      ensures forall s :: s in settings <==> s in old(settings) && s.userId != userId
    {
      settings := Table.Select(settings, NotOfUser(userId));
    }
  }
}
