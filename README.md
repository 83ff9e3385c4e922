# Moderation core of Fritter, modelled in Dafny

Fritter lets users report freets (short posts) as offensive, sensitive or misinformation. It
also runs a profanity scan on each freet and stores the outcome as a per-freet detect flag. This
project models the server side of that moderation slice:

- the report ledger (`ReportCollection`): storing reports, the per-freet and per-type queries,
  their counts, the total score and the cascade deletes;
- the detection store (`ContentFilterCollection`) and the shell of its scanner `runFilter`;
- the per-user sensitivity settings (`SensitivitySettingCollection`);
- the report-type validator;
- the three report routes and their validator chains.

Each MongoDB collection is a class holding a `seq` of records in insertion order. The model
assumes that insertion order is the natural order `find` and `findOne` return. Methods that
write a collection reassign that field. Read-only queries are functions with `reads` clauses.
The generic filters behind the queries are in `Table`: `Select` is a `find` or the survivors of
a `deleteMany`, and `FirstWhere` is a `findOne`.

External collaborators are parameters:

- `freets: set<Id>` is the set of freets that `FreetCollection.findOne` finds;
- `users: set<Id>` is the set of users that `UserCollection.findOneByUserId` finds;
- the session user is `Request.sessionUserId`;
- the censor-sensor library is a `CensorSensor` value holding uninterpreted functions.

The source dereferences several lookups without a null check:

- `FreetCollection.findOne` in the report and content-filter queries (`freet._id`);
- `UserCollection.findOneByUserId` in `findUserSetting` (`user._id`).

These two lookups are preconditions (`freetId in freets`, `userId in users`). A missing
content filter or sensitivity setting is modelled explicitly as `Result.Crash(property)`,
the TypeError on `property` of null.

Behaviour of the code the model keeps:

- The summary reads the freet's detection flag before it counts anything. A freet without a
  content-filter record makes the summary crash. `SummaryExamples` shows such a freet ("Z").
- `addOne` on content filters stores a second record for a freet that already has one.
  `getStatus` and `updateStatus` only ever see the first record. `updateStatus` on a freet
  without a record crashes and changes nothing.
- `ReportCollection.addOne` stores any type string. Stored types are all valid because every
  report is created through the POST route, and `PostReport` preserves that `TypesValid`
  invariant.
- An unknown report type is answered with 404 and the message "Please select type of report.".
- The session check refuses an empty user id like a missing one (403). Its file
  (server/user/middleware.ts) is not part of this model. The creation handler relies on this
  check: its comment at server/report/router.ts:83 says that its fallback to '' never yields
  an empty author.

`ReportRouter.SummaryExamples` builds concrete tables and checks these summaries (the helpers
`PostsOnX`, `SummaryOfX` and `SummariesOfYAndZ` do the work):

- two offensive reports, one sensitive report and a clean detection record give
  `{3, 2, 1, 0}`;
- no reports and a positive detection give `{10, 0, 0, 0}`;
- no detection record makes the summary crash.

`ReportRouter.RefusedPosts` checks that a report of type "spam" is refused with 404, and a
report without a session, or with an empty session id, with 403, and that none is stored.

## Model

| member | source | states |
|---|---|---|
| `Table.Select` | server/report/collection.ts:44 | a `find` returns exactly the stored documents that match its filter, never more than the table holds |
| `Table.FirstWhere` | server/contentFilter/collection.ts:40 | `findOne` picks the first matching document: it matches and no earlier one does; the result is None exactly when nothing matches |
| `Table.SelectMultiplicity` | server/report/collection.ts:44 | a `find` keeps each matching document as often as the table holds it and drops every other document |
| `Table.SelectAppend` | server/report/collection.ts:25-45 | a report stored last is listed last for every filter it matches and is invisible to every other filter, so queries list reports in creation order |
| `Table.SelectIdempotent` | server/report/collection.ts:92-103 | a second `deleteMany` with the same filter removes nothing more (report, content-filter and setting deletes are all `Select` with a negated filter) |
| `Table.FirstWhereAppend` | server/contentFilter/collection.ts:23-42 | appending a document never changes which document `findOne` picks once one already matched |
| `ContentFilters.ContentFilterCollection.AddOne` | server/contentFilter/collection.ts:23-30 | appends exactly the record (freetId, detect), even when the freet already has one, and `GetStatus` keeps answering from the earlier record |
| `ContentFilters.ContentFilterCollection.GetStatus` | server/contentFilter/collection.ts:38-42 | for an existing freet: crashes on `detect` exactly when no record is stored for it, otherwise returns the detect of the first record for it |
| `ContentFilters.ContentFilterCollection.UpdateStatus` | server/contentFilter/collection.ts:50-55 | overwrites the detect of the first record for the freet only; afterwards `GetStatus` returns the new value; crashes without changing anything when there is no record |
| `ContentFilters.ContentFilterCollection.DeleteFilter` | server/contentFilter/collection.ts:83-85 | removes every record for the freet and keeps all others, in order |
| `ContentFilters.FilterTiers` | server/contentFilter/collection.ts:64-68 | the filter built by runFilter has tier 2 disabled and tiers 1, 3 and 4 enabled; with the library's four tiers it is exactly {1, 3, 4} |
| `ContentFilters.RunFilter` | server/contentFilter/collection.ts:63-76 | the empty set when the library does not call the content profane, otherwise exactly the words `profaneIshWords` lists |
| `ContentFilters.RunFilterIgnoresDefaults` | server/contentFilter/collection.ts:63-68 | because each call builds and configures a fresh filter, the result depends only on the content and the lexicon, not on the library's default tiers |
| `Reports.ReportCollection.AddOne` | server/report/collection.ts:25-34 | appends exactly one report with the given author, freet, type and content and a fresh id; earlier reports are unchanged and no duplicate check is made |
| `Reports.ReportCollection.FindAll` | server/report/collection.ts:42-45 | for an existing freet, exactly the stored reports on that freet, in the order they were stored (the `Select` of the table by freet, whose order, length and multiplicities `SelectAppend` and `SelectMultiplicity` fix) |
| `Reports.ReportCollection.FindAllMultiplicity` | server/report/collection.ts:42-45 | `findAll` lists each report on the freet as often as it is stored and no other report, so its length is the freet's report count |
| `Reports.ReportCollection.FindAllOfType` | server/report/collection.ts:70-73 | exactly the stored reports on the freet with the type, which is `FindAll` filtered by type and so a sub-list of it |
| `Reports.ReportCollection.GetCountOfType` | server/report/collection.ts:82-85 | the length of `FindAllOfType`, never more than the length of `FindAll` |
| `Reports.ReportCollection.GetCountOfAll` | server/report/collection.ts:53-61 | crashes exactly when the freet has no content-filter record; otherwise the number of the freet's reports plus 10 when its detect flag is set |
| `Reports.ReportCollection.CategoryCounts` | server/report/collection.ts:70-85 | the counts of three distinct types sum to at most the freet's number of reports, and to exactly that number when every report on it has one of the three types |
| `Reports.ReportCollection.DeleteManyByFreet` | server/report/collection.ts:92-94 | removes every report on the freet and keeps all others, in order, with their ids still unique |
| `Reports.ReportCollection.DeleteManyByAuthor` | server/report/collection.ts:101-103 | removes every report by the author and keeps all others, in order, with their ids still unique |
| `ReportMiddleware.IsValidReportType` | server/report/middleware.ts:11-23 | calls next exactly when the type is one of the `reportType` constant's values; otherwise ends the request with 404, the message 'Please select type of report.' and the rejected type |
| `ReportMiddleware.RejectsOtherSpellings` | server/report/middleware.ts:14 | the comparison is case-sensitive: 'Offensive', 'spam' and the empty type are rejected |
| `Http.RunChain` | server/report/router.ts:77-81 | an express validator chain lets the handler run exactly when every check calls next; otherwise the first check that ends the request decides the response |
| `ReportRouter.GetSummary` | server/report/router.ts:19-35 | 404 for a missing freet; otherwise crashes exactly when the freet has no detection record, else 200 with totalCount = getCountofAll and the offensive, sensitive and misinformation counts |
| `ReportRouter.SummaryTotalCoversCategories` | server/report/router.ts:27-32 | a summary's totalCount is at least the sum of its three category counts, and equals that sum plus 10 or 0 according to the detect flag when every stored report has a known type |
| `ReportRouter.GetTypeReports` | server/report/router.ts:47-60 | 404 for a missing freet, then 404 with the validator's message for an unknown type; otherwise 200 with `findAllOfType`'s list (exactly the freet's reports of that type, in stored order) and `getCountofType` as its count, which equals the list's length |
| `ReportRouter.PostReport` | server/report/router.ts:75-91 | checks login, refusing a missing or empty session id (403), then freet existence (404), then type (404), storing nothing on any failure; on success stores exactly one report by the session user with the path's freet and type and the body's content, answers 201 with it, and keeps every stored type valid |
| `SensitivitySettings.Assign` | server/sensitivitySetting/collection.ts:46-90 | assigning one flag of a setting sets that flag and leaves the user and the other flag unchanged |
| `SensitivitySettings.AssignFirst` | server/sensitivitySetting/collection.ts:35-90 | a setter changes only the user's first setting, which stays the one `findOne` picks, and changes nothing when the user has no setting |
| `SensitivitySettings.RepeatedSetter` | server/sensitivitySetting/collection.ts:46-90 | of two calls of one setter only the later counts; calling a setter twice with the same value is calling it once |
| `SensitivitySettings.SettersCommute` | server/sensitivitySetting/collection.ts:46-90 | setters of the two different flags give the same state in either order |
| `SensitivitySettings.SensitivitySettingCollection.AddOne` | server/sensitivitySetting/collection.ts:19-27 | appends a setting for the user with showSensitiveContent and showHiddenFreet both false |
| `SensitivitySettings.SensitivitySettingCollection.FindUserSetting` | server/sensitivitySetting/collection.ts:35-38 | the user's first setting, or None exactly when the user has no setting |
| `SensitivitySettings.SensitivitySettingCollection.SetFlag` | server/sensitivitySetting/collection.ts:46-90 | assigns one flag of the user's first setting and returns the saved setting, which `FindUserSetting` then returns; crashes, changing nothing, when the user has no setting |
| `SensitivitySettings.SensitivitySettingCollection.HideSensitiveContent` | server/sensitivitySetting/collection.ts:46-51 | sets showSensitiveContent to false on the user's setting, leaving showHiddenFreet; crashes without a setting |
| `SensitivitySettings.SensitivitySettingCollection.ShowSensitiveContent` | server/sensitivitySetting/collection.ts:59-64 | sets showSensitiveContent to true on the user's setting, leaving showHiddenFreet; crashes without a setting |
| `SensitivitySettings.SensitivitySettingCollection.HideHiddenFreet` | server/sensitivitySetting/collection.ts:72-77 | sets showHiddenFreet to false on the user's setting, leaving showSensitiveContent; crashes without a setting |
| `SensitivitySettings.SensitivitySettingCollection.ShowHiddenFreet` | server/sensitivitySetting/collection.ts:85-90 | sets showHiddenFreet to true on the user's setting, leaving showSensitiveContent; crashes without a setting |
| `SensitivitySettings.SensitivitySettingCollection.DeleteSetting` | server/sensitivitySetting/collection.ts:97-99 | removes every setting of the user and keeps other users' settings, in order |

## Left out

- Persistence, `async`/`await`, `save()` and `populate`: each write is one atomic update of an in-memory table, and a returned document is the stored record itself.
- Concurrency: interleaved requests, including the unguarded create-if-absent race on content filters, are not modelled.
- The censor-sensor library: its lexicon, its tier semantics and its case handling are unknown here, so `isProfane` and `profaneIshWords` stay uninterpreted.
- `UserCollection` lookups: `findUserSetting` and the four setters require that the user exists (`userId in users`). In the source they are called after `isUserLoggedIn` only, so a session whose user was deleted would crash on `user._id`; that crash is not modelled.
- Freet lookups: the report and content-filter queries require that the freet exists (`freetId in freets`). The report routes check this first with `isFreetExists`. The callers of `updateStatus` and `getStatus` outside the report routes are not part of this model, so the crash on `freet._id` is not modelled for them.
- `FreetCollection`, `UserCollection`, `isUserLoggedIn` and `isFreetExists`: only their outcomes are modelled (existence sets, and 403/404 responses whose messages are not part of this model).
- ObjectIds: ids are strings compared for equality. Report `_id`s come from a counter in the collection. ContentFilter and SensitivitySetting `_id`s are never read and are not modelled.
- The response projection in server/report/util.ts (username, id strings): responses carry the stored report.
- The `console.log` in the report-type validator.
- Absent optional path segments: a missing `:type` is modelled as the empty string, which the validator rejects as it rejects `undefined`. The route shape for a missing `:freetId` is left to `isFreetExists`.
- What express does with a handler that throws: a crash is reported as `Crash` and no response is modelled.
- server/sensitivitySetting/router.ts and client/store.ts: HTTP dispatch over the setters, and UI state.
