# Feature flags: a Dafny model of the flag service and its client

The system is a feature-flag service. A set of serverless handlers keeps
the flags in a DynamoDB table: they create, toggle, edit, delete and list
flags, one at a time or in bulk. A second table registers the browser
connections of a WebSocket API. Every change to a flag is pushed to each
registered connection, and a connection whose push comes back 404 or 410
(Gone, section 15.5.11 of RFC 9110) is removed. A React client:

- lists the flags of one environment, searched and sorted;
- refreshes the list when a push arrives;
- creates and edits flags through dialogs;
- keeps a light or dark theme;
- sends every request through one `fetcher`, which attaches the bearer
  token (section 2.1 of RFC 6750) and reacts to an expired session.

The model has three layers:

- **Backend state.** The tables are the fields of a class, `Store.Tables`:
  - `flags`: flags by id;
  - `counter`: the id counter;
  - `connections`: the connection registry;
  - `posts`: the log of pushes made.
- **Handlers.** Each handler is a method on that state (`CreateFlag.Handle`,
  `UpdateFlag.Handle`, …).
  - It receives the things it cannot decide itself as parameters: the store
    calls that throw and the outcome of each push (a `World`), the token
    verifier, the password hasher and the clock.
  - Its contract states the status code and the whole new state.
  - `Store.Tables.Broadcast` is the fan-out every flag handler ends with. It
    is a loop over the scanned registry, proved against the `FannedOut`
    relation.
- **Client.** The pure parts (filters, comparators, tag parsing, header
  merge, response classification) are functions with lemmas. The stateful
  parts are classes whose methods change their fields: the list page state,
  the card list controls, the dialogs, the form, the theme and the WebSocket
  subscription.

Several parts of the model are definitions of JavaScript built-ins:

- `String.prototype.trim`, `split`, `toLowerCase` and `includes`: module `Text`;
- `parseInt`: module `Decimal`;
- `Array.prototype.sort` with a consistent comparator: module `Sorting`;
- `Array.prototype.filter`: module `Filtering`.

Module `Tags` holds the comma-separated tag syntax of the dialogs. Its main
result is a round trip: `Tags.ParseRender` proves that parsing the ", "-joined
tags gives them back.

## Model

| member | source | states |
|---|---|---|
| Store.WithEnabled | backend/handlers/updateFlag.js:43 | the record gets the requested `enabled`, and every other attribute stays as it was |
| Store.Pruned | backend/handlers/createFlag.js:114-122 | the fan-out removes only connections from the scanned snapshot |
| Store.Pushes | backend/handlers/createFlag.js:96-103 | there is one push per scanned connection, and every push carries the same event |
| Store.PushesReach | backend/handlers/createFlag.js:96-103 | the pushes go to exactly the scanned connections |
| Store.Scan | backend/handlers/createFlag.js:68-74 | the scan lists every registered connection once and nothing else |
| Store.FanOut | backend/handlers/createFlag.js:96-135 | one push per scanned connection, in order; a connection is deleted exactly when its push failed with 404 or 410 and its delete went through; the prune-failure flag is set exactly when some such delete threw |
| Store.Tables.Broadcast | backend/handlers/updateFlag.js:49-84 | the fan-out as a state change: flags and counter unchanged, registry and push log related by `FannedOut`; success exactly when the scan worked and no uncaught stale-delete failed |
| Auth.Either | backend/handlers/auth/util.js:11 | `a \|\| b \|\| ""`: the first header when it is non-empty, else the second, else empty |
| Auth.FailureStatus | backend/handlers/updateFlag.js:91-101 | 401 exactly for "Not authenticated", 500 for any other error |
| Auth.MatchesAfterRun | backend/handlers/auth/util.js:12 | when text follows the white-space run, the only matching split is at the end of the run |
| Auth.MatchesInRun | backend/handlers/auth/util.js:12 | when the run reaches the end of the header, the capture can only be its last character |
| Auth.BearerTokenMatches | backend/handlers/auth/util.js:12-13 | the token is defined exactly when `/^Bearer\s+(.+)$/i` matches, and it is the capture of the greedy match |
| Auth.AuthorizeRefuses | backend/handlers/auth/util.js:12-13 | `authorize` throws "Not authenticated" exactly when the regex does not match |
| Auth.VerifyFailureIs500 | backend/handlers/auth/util.js:14 | a token that `jwt.verify` rejects propagates as another error, so the catch blocks answer 500 |
| Auth.LowercaseHeaderWins | backend/handlers/auth/util.js:11 | a non-empty `authorization` header is used, and `Authorization` is then ignored |
| Auth.NoHeaderRefused | backend/handlers/auth/util.js:11-13 | a missing or empty header is refused with "Not authenticated" |
| Decimal.LeadingDigits | backend/handlers/deleteFlag.js:26 | the longest prefix of decimal digits |
| Decimal.ParseIntDecimal | backend/handlers/deleteFlag.js:26 | `parseInt` of an integer's decimal form, followed by any non-digit text, gives that integer back |
| Decimal.ValueOfDigits | backend/handlers/deleteFlag.js:26 | the digits of `n` have value `n` |
| CreateFlag.NewFlag | backend/handlers/createFlag.js:51-57 | the new record: given id, non-empty trimmed name, a listed environment, disabled, no description, tags or modification time |
| CreateFlag.ExtraFieldsIgnored | backend/handlers/createFlag.js:24 | body properties other than `name` and `environment` do not change the record |
| CreateFlag.Handle | backend/handlers/createFlag.js:21-152 | 400 exactly for an invalid body, with nothing changed; otherwise the counter goes up by one, and a failing put gives 500 with no record and no push; else the record is stored under the new id, "flag-created" is fanned out, prune failures are swallowed, and the answer is 201 with that record; never 401 |
| CreateFlag.CreateTwice | backend/handlers/createFlag.js:37-48 | two successful creates get strictly increasing ids; the counter never goes down |
| UpdateFlag.Handle | backend/handlers/updateFlag.js:22-102 | an `authorize` error gives its status before any body check; 400 exactly for an authorised non-boolean `enabled`; nothing changes unless the write happens; the write sets only `enabled` on the record under the parsed id (creating it when missing), then "flag-updated" is fanned out and an uncaught prune failure gives 500 |
| UpdateFlag.UpdateMissing | backend/handlers/updateFlag.js:39-46 | on a missing id the update leaves a record holding only the id and `enabled` |
| EditFlag.Requested | backend/handlers/editFlag.js:26-46 | the edit a valid body asks for: trimmed non-empty name; description, modified_at and tags present exactly when sent, each as sent |
| EditFlag.EditFrame | backend/handlers/editFlag.js:49-67 | an edit never touches id, environment, enabled or created_at, and absent properties keep their values |
| EditFlag.ClausesEdit | backend/handlers/editFlag.js:49-67 | applying the update clauses to any record gives that record after the edit |
| EditFlag.BuildUpdate | backend/handlers/editFlag.js:49-67 | the expression built step by step starts with the name clause, has at most four clauses and performs exactly the edit |
| EditFlag.Commit | backend/handlers/editFlag.js:70-122 | the record under the id becomes the edited one, no other record changes, "flag-updated" is fanned out, and an uncaught prune failure gives 500 |
| EditFlag.Handle | backend/handlers/editFlag.js:20-132 | an `authorize` error gives its status first; 400 exactly for an authorised invalid body; no change without the write; after it, the record is the requested edit of what was there and the rest as in `Commit` |
| DeleteFlag.Handle | backend/handlers/deleteFlag.js:20-122 | 400 exactly for a NaN id; otherwise the record is removed whether or not it existed, every other record is kept, "flag-deleted" is fanned out with prune failures swallowed, and the answer is 200, or 500 when the scan fails |
| BulkUpdate.WithEnabledTwice | backend/handlers/bulkUpdateFlags.js:30-41 | setting `enabled` twice is setting it once, so duplicate ids are harmless |
| BulkUpdate.EnableAllAt | backend/handlers/bulkUpdateFlags.js:30-41 | after the per-id updates, a key is present exactly when it was before or its update went through; updated records have `enabled` set and nothing else changed; others are untouched |
| BulkUpdate.EnableAllValid | backend/handlers/bulkUpdateFlags.js:30-41 | the updates keep each record under its own id |
| BulkUpdate.UpdateEach | backend/handlers/bulkUpdateFlags.js:30-41 | the loop over `ids` leaves the table `EnableAll` describes and reports whether some update threw |
| BulkUpdate.Handle | backend/handlers/bulkUpdateFlags.js:20-84 | an `authorize` error gives its status first; 400 exactly for an authorised body that is not numeric ids plus a boolean; the updates that went through stay even when another throws (500, no push); otherwise one "flags-updated" with all ids is fanned out |
| BulkDelete.RemoveAllAt | backend/handlers/bulkDeleteFlags.js:29-38 | after the per-id deletes, a key remains exactly when it was there and its delete did not go through, with its record unchanged |
| BulkDelete.NoneLeft | backend/handlers/bulkDeleteFlags.js:29-38 | when no delete throws, no requested id remains |
| BulkDelete.RemoveAllValid | backend/handlers/bulkDeleteFlags.js:29-38 | the deletes keep each record under its own id |
| BulkDelete.DeleteEach | backend/handlers/bulkDeleteFlags.js:29-38 | the loop over `ids` leaves the table `RemoveAll` describes and reports whether some delete threw |
| BulkDelete.Handle | backend/handlers/bulkDeleteFlags.js:19-81 | an `authorize` error gives its status first; 400 exactly for an authorised non-numeric `ids`; a failed delete gives 500 without a push; otherwise one "flags-deleted" with all ids is fanned out |
| Connections.Registered | backend/handlers/onConnect.js:17-22 | the connection is in the registry afterwards unless the put threw, and no other connection changes |
| Connections.Unregistered | backend/handlers/onDisconnect.js:16-21 | the connection is gone afterwards unless the delete threw, and no other connection changes |
| Connections.RegisterPresent | backend/handlers/onConnect.js:17-22 | registering a present connection changes nothing |
| Connections.RegisterTwice | backend/handlers/onConnect.js:17-22 | registering twice is registering once |
| Connections.UnregisterAbsent | backend/handlers/onDisconnect.js:16-21 | removing an absent connection changes nothing |
| Connections.Connect | backend/handlers/onConnect.js:12-33 | always 200; the registry becomes `Registered`, and the other tables and the push log are untouched |
| Connections.Disconnect | backend/handlers/onDisconnect.js:12-33 | 200, or 500 when the delete throws; the registry becomes `Unregistered`, and the rest is untouched |
| Sorting.Sort | backend/handlers/getFlags.js:22 | `sort` returns a permutation of its input, sorted whenever the comparator is a total preorder on it |
| Sorting.SortSorted | backend/handlers/getFlags.js:22 | an already sorted input comes back unchanged |
| GetFlags.ByIdTotal | backend/handlers/getFlags.js:22 | `a.id - b.id` orders any list of records totally |
| GetFlags.Handle | backend/handlers/getFlags.js:10-39 | an `authorize` error gives its status; 200 exactly for an authorised caller and a successful scan, with a permutation of the scan sorted by id; otherwise an empty body with 401 or 500 |
| GetFlags.ListsTable | backend/handlers/getFlags.js:18-27 | on a table keyed by id, the body lists every record once, with ids strictly rising |
| Me.HeaderToken | backend/handlers/auth/me.js:26-29 | a header token exists exactly when the header starts with "Bearer " (case-sensitive), and it is the rest of the header |
| Me.UpToSemicolon | backend/handlers/auth/me.js:34 | `[^;]+`: the longest prefix without ";" |
| Me.SearchFromMatches | backend/handlers/auth/me.js:34-35 | the search finds the leftmost position where "token=" is followed by a non-";" character, and yields the text up to the next ";" |
| Me.CookieTokenMatches | backend/handlers/auth/me.js:33-35 | the cookie token exists exactly when `/token=([^;]+)/` matches, and it is the capture of the leftmost match |
| Me.HeaderFirst | backend/handlers/auth/me.js:32-36 | a non-empty header token is used, and the cookie is then ignored |
| Me.Profile | backend/handlers/auth/me.js:46-50 | the body holds exactly the email, firstName and lastName the payload has |
| Me.Handle | backend/handlers/auth/me.js:22-55 | 200 exactly when a token is found and verifies, with the profile; 401 otherwise with no profile; never 500 |
| Me.NoCredentials | backend/handlers/auth/me.js:38-40 | no header and no cookie gives 401 |
| Register.Public | backend/handlers/auth/register.js:44 | the public profile is the stored record without `passwordHash` |
| Register.NewUser | backend/handlers/auth/register.js:28-37 | the stored record keeps the fields as sent, the creation time, and the hash of the password in place of the password |
| Register.UserTable.Handle | backend/handlers/auth/register.js:11-54 | 400 exactly when a field is missing or falsy; 409 exactly for a registered email; 201 exactly for an insert, which adds one entry keyed by email and returns its public profile; the table changes only on 201 |
| Register.RegisterTwice | backend/handlers/auth/register.js:19-25 | after a successful registration, the same email gets 409 (or 500 when the lookup throws) |
| Register.InsertOnly | backend/handlers/auth/register.js:38-41 | a successful insert adds exactly one entry and keeps every other one |
| Text.TrimMiddle | backend/handlers/createFlag.js:27 | `trim()` is a slice of the text whose own ends are not white space, and everything it cuts off on either side is white space |
| Text.TrimNotBlank | backend/handlers/editFlag.js:30-51 | a name that passes the blank check is still not blank once trimmed |
| Text.TrimEmpty | frontend/src/components/FlagForm.jsx:14 | a text trims to "" exactly when it is all white space |
| Text.TrimTrimmed | backend/handlers/editFlag.js:51 | trimming a trimmed non-empty text changes nothing |
| Text.LowerIdempotent | frontend/src/App.jsx:97 | `toLowerCase()` leaves lowercase text as it is, so lowering twice is lowering once |
| Text.TrimLower | frontend/src/App.jsx:97 | `trim()` and `toLowerCase()` commute |
| Text.Split | frontend/src/components/v2/CreateFlagModalV2.jsx:85 | `split(",")` yields separator-free pieces that join back to the input |
| Text.SplitAtSeparator | frontend/src/components/v2/CreateFlagModalV2.jsx:85 | the text before the first separator is the first piece |
| Text.SplitConcat | frontend/src/components/v2/CreateFlagModalV2.jsx:85 | splitting two texts joined by the separator gives the pieces of the first, then those of the second |
| Text.LexTrichotomy | frontend/src/App.jsx:115-117 | the character order on texts is asymmetric, and two texts are equal exactly when neither is below the other |
| Text.LexTransitive | frontend/src/App.jsx:115-117 | the character order on texts is transitive |
| Text.LexCompare | frontend/src/components/v2/FeatureListV2.jsx:37 | -1, 0 or 1 exactly as the first text is below, equal to or above the second |
| Filtering.Filter | frontend/src/App.jsx:93-95 | `filter` keeps each passing element as often as it occurs and drops every other one |
| Filtering.FilterOne | frontend/src/App.jsx:93-95 | one element is kept exactly when it passes |
| Filtering.FilterConcat | frontend/src/App.jsx:93-95 | filtering a concatenation gives the filtered parts in their order, so with `FilterOne` the result is the passing elements in input order |
| Filtering.FilterAll | frontend/src/App.jsx:98-102 | a filter every element passes returns the list unchanged |
| Tags.TrimAll | frontend/src/components/v2/CreateFlagModalV2.jsx:86 | each piece trimmed, in place |
| Tags.DropEmpty | frontend/src/components/v2/CreateFlagModalV2.jsx:87 | `filter(Boolean)`: exactly the non-empty pieces occur in the result |
| Tags.DropEmptyOne | frontend/src/components/v2/CreateFlagModalV2.jsx:87 | one piece is kept exactly when it is not empty |
| Tags.DropEmptyConcat | frontend/src/components/v2/CreateFlagModalV2.jsx:87 | the kept pieces of two lists in a row come in that order |
| Tags.Parse | frontend/src/components/v2/CreateFlagModalV2.jsx:84-87 | every parsed tag is non-empty, trimmed and comma-free |
| Tags.ParseConcat | frontend/src/components/v2/CreateFlagModalV2.jsx:84-87 | the tags of two texts joined by a comma are those of the first followed by those of the second |
| Tags.ParsePiece | frontend/src/components/v2/CreateFlagModalV2.jsx:84-87 | a comma-free text gives no tag when it is all white space, else the one trimmed tag |
| Tags.TrimmedPieces | frontend/src/components/v2/CreateFlagModalV2.jsx:84-87 | the trimmed non-empty pieces of a split are well-formed tags |
| Tags.SplitRendered | frontend/src/components/v2/EditFlagModalV2.jsx:23-32 | splitting the ", "-joined tags gives the first tag and the others with a leading space |
| Tags.TrimSpaced | frontend/src/components/v2/EditFlagModalV2.jsx:33 | trimming the space-prefixed tags gives the tags |
| Tags.DropEmptyNone | frontend/src/components/v2/EditFlagModalV2.jsx:34 | dropping empties from non-empty pieces changes nothing |
| Tags.ParseRender | frontend/src/components/v2/EditFlagModalV2.jsx:23-34 | parsing the ", "-joined well-formed tags gives them back, in order |
| Tags.ParseExample | frontend/src/components/v2/CreateFlagModalV2.jsx:84-87 | two letters around a comma, as in "a,b", parse to those two one-letter tags |
| Tags.RenderExample | frontend/src/components/v2/EditFlagModalV2.jsx:23 | ["t1", "t2"] is shown as "t1, t2" |
| Subscriber.Wire | frontend/src/hooks/useAwsWebSocketFlags.js:27-33 | every pushed message parses to an object whose `event` is the event's tag |
| Subscriber.TagGap | frontend/src/hooks/useAwsWebSocketFlags.js:29-33 | a push triggers a refresh exactly for the three single-flag events, not for "flags-updated" or "flags-deleted" |
| Subscriber.RefreshCount | frontend/src/hooks/useAwsWebSocketFlags.js:29-40 | at most one refresh per message |
| Subscriber.Subscription.constructor | frontend/src/hooks/useAwsWebSocketFlags.js:6-17 | a socket is created exactly when the URL is set and holds no "<"; nothing has opened or been counted |
| Subscriber.Subscription.OnOpen | frontend/src/hooks/useAwsWebSocketFlags.js:19-22 | the socket is open and `didOpen` is set |
| Subscriber.Subscription.OnMessage | frontend/src/hooks/useAwsWebSocketFlags.js:24-44 | one refresh for a recognised message; an unparseable one is counted as a logged error and the socket state is unchanged |
| Subscriber.Subscription.OnError | frontend/src/hooks/useAwsWebSocketFlags.js:49-54 | an error is reported only once the socket has opened |
| Subscriber.Subscription.OnClose | frontend/src/hooks/useAwsWebSocketFlags.js:46-47 | the socket is closed and nothing else happens: no reconnection |
| Subscriber.Subscription.Cleanup | frontend/src/hooks/useAwsWebSocketFlags.js:56-65 | `close()` is called exactly when a socket exists and is connecting or open |
| Subscriber.Subscription.Deliver | frontend/src/hooks/useAwsWebSocketFlags.js:24-44 | a stream of messages refreshes once per recognised message |
| Subscriber.Unconfigured | frontend/src/hooks/useAwsWebSocketFlags.js:6-13 | with an unusable URL there is no socket, and the cleanup closes nothing |
| Subscriber.BulkUpdateIgnored | frontend/src/hooks/useAwsWebSocketFlags.js:29-33 | a "flags-updated" push to an open socket triggers no refresh |
| Rows.OrElse | frontend/src/components/v2/FeatureListV2.jsx:41 | `a \|\| b` on an optional text |
| AppList.CurrentEnv | frontend/src/App.jsx:90-91 | tabs 0, 1 and 2 name Production, Staging and Development; any other tab names none |
| AppList.EnvFlags | frontend/src/App.jsx:93-95 | the loaded rows of the tab's environment, each as often as loaded; nothing before the first load |
| AppList.UnknownTabEmpty | frontend/src/App.jsx:90-95 | a tab outside the three shows nothing |
| AppList.Searched | frontend/src/App.jsx:97-102 | a blank query keeps the rows; otherwise exactly the rows whose lowercased name contains the trimmed lowercased query |
| AppList.BlankQueryKeepsAll | frontend/src/App.jsx:97-102 | an all-white-space query filters nothing out |
| AppList.SearchIgnoresCase | frontend/src/App.jsx:97-102 | the search is case-insensitive: queries that lowercase alike select the same rows in the same order |
| AppList.SearchLowered | frontend/src/App.jsx:97-102 | lowercasing the query first changes nothing |
| AppList.SortedFlags | frontend/src/App.jsx:104-120 | the sorted copy is a permutation of the searched rows, in the comparator's order by name, and by date when every date parses |
| AppList.KeyLessAsymmetric | frontend/src/App.jsx:107-117 | no two rows are each less than the other |
| AppList.OrderByKey | frontend/src/App.jsx:115-117 | in asc a row may precede another unless its key is greater; in desc unless it is smaller |
| AppList.OrderConsistent | frontend/src/App.jsx:104-118 | the comparator is a total preorder by name, and by date when every date parses |
| AppList.SortedByName | frontend/src/App.jsx:108-118 | sorted by name, lowercased names rise in asc and fall in desc |
| AppList.SortedByCreated | frontend/src/App.jsx:111-118 | sorted by date, creation times rise in asc and fall in desc when every date parses |
| AppList.Flip | frontend/src/App.jsx:124 | the header switches to the other direction |
| AppList.ToggleBody | frontend/src/App.jsx:53-57 | the PATCH body is `{enabled: !currentlyEnabled}` and nothing else |
| AppList.ToggleAccepted | frontend/src/App.jsx:56 | `updateFlag` accepts the toggle's body, and the body asks for the opposite state |
| AppList.ShownRows | frontend/src/App.jsx:90-120 | `sortedFlags`: exactly the loaded rows of the tab's environment that pass the search, each as often as loaded, in the comparator's order by name, and by date when every loaded date parses |
| AppList.ListState.constructor | frontend/src/App.jsx:19-24 | nothing loaded, tab 0, empty query, sorted by name ascending |
| AppList.ListState.Load | frontend/src/App.jsx:30-39 | a successful load replaces the rows and clears the error; a failed one keeps the rows and records it |
| AppList.ListState.SelectTab | frontend/src/App.jsx:21 | only the tab changes |
| AppList.ListState.SetQuery | frontend/src/App.jsx:22 | only the query changes |
| AppList.ListState.HandleSort | frontend/src/App.jsx:122-129 | the current column flips its direction; another column becomes current and ascending |
| AppList.ListState.Shown | frontend/src/App.jsx:90-120 | the table's rows for the page's state: exactly the loaded rows of the selected tab that pass the search, each as often as loaded, sorted as `ShownRows` says |
| AppList.ListState.View | frontend/src/App.jsx:131-134 | a recorded load error shows only the error, whatever rows remain; before the first load the page is loading; otherwise the table lists `sortedFlags` |
| AppList.SortTwice | frontend/src/App.jsx:122-129 | two clicks on the current column restore its direction; on another column they leave it descending |
| AppList.FailedReload | frontend/src/App.jsx:30-39 | a failed reload keeps the loaded rows but replaces the table by the error |
| FeatureList.EnvRows | frontend/src/components/v2/FeatureListV2.jsx:19-22 | exactly the rows of the layout's environment, each as often as given |
| FeatureList.Searched | frontend/src/components/v2/FeatureListV2.jsx:24-30 | exactly the rows whose lowercased name contains the lowercased, untrimmed term |
| FeatureList.SearchIgnoresCase | frontend/src/components/v2/FeatureListV2.jsx:24-30 | the search is case-insensitive: terms that lowercase alike select the same rows in the same order |
| FeatureList.SearchLowered | frontend/src/components/v2/FeatureListV2.jsx:24-30 | lowercasing the term first changes nothing |
| FeatureList.EmptyTermKeepsAll | frontend/src/components/v2/FeatureListV2.jsx:24-30 | an empty term keeps every row in order |
| FeatureList.ModifiedKey | frontend/src/components/v2/FeatureListV2.jsx:39-48 | "modified" uses modified_at when non-empty, else created_at; an unreadable date counts as 0 |
| FeatureList.CmpAntisymmetric | frontend/src/components/v2/FeatureListV2.jsx:35-50 | swapping the rows negates the comparison |
| FeatureList.DescReverses | frontend/src/components/v2/FeatureListV2.jsx:51 | the desc comparator is the asc comparator with the rows swapped, that is, its negation |
| FeatureList.OrderConsistent | frontend/src/components/v2/FeatureListV2.jsx:34-52 | the comparator is a total preorder on any rows, in either direction |
| FeatureList.Sorted | frontend/src/components/v2/FeatureListV2.jsx:32-54 | a permutation of the searched rows, sorted by the comparator |
| FeatureList.SortedByDate | frontend/src/components/v2/FeatureListV2.jsx:38-51 | by a date column, the keys rise in "asc" and fall otherwise |
| FeatureList.SortedByName | frontend/src/components/v2/FeatureListV2.jsx:36-37 | by name, the names rise in "asc" and fall otherwise |
| FeatureList.CardToggle | frontend/src/components/v2/FeatureListV2.jsx:115 | a card's switch reports the row's id and its current state |
| FeatureList.ListControls.constructor | frontend/src/components/v2/FeatureListV2.jsx:15-17 | empty search, sorted by creation, ascending |
| FeatureList.ListControls.SetSearch | frontend/src/components/v2/FeatureListV2.jsx:67 | only the term changes |
| FeatureList.ListControls.SetSortField | frontend/src/components/v2/FeatureListV2.jsx:73-81 | only the column changes, to one of the three offered |
| FeatureList.ListControls.ToggleDirection | frontend/src/components/v2/FeatureListV2.jsx:83 | "asc" becomes "desc", anything else "asc"; nothing else changes |
| FeatureList.ListControls.Cards | frontend/src/components/v2/FeatureListV2.jsx:19-54 | for the list's search term and sort choice: exactly the environment's rows whose lowercased name contains the lowercased term, each as often as given, sorted by the directed comparator |
| FeatureList.CardsOf | frontend/src/components/v2/FeatureListV2.jsx:19-54 | exactly the environment's rows whose lowercased name contains the lowercased term, each as often as given, sorted by the directed comparator |
| FeatureList.ToggleTwice | frontend/src/components/v2/FeatureListV2.jsx:83 | two presses restore the direction |
| CreateModal.InitialEnv | frontend/src/components/v2/CreateFlagModalV2.jsx:19-20 | the prop when set, else the context value when set, else "Development" |
| CreateModal.InitialEnvListed | frontend/src/components/v2/CreateFlagModalV2.jsx:11-20 | listed or absent prop and context give a listed environment |
| CreateModal.Blank | frontend/src/components/v2/CreateFlagModalV2.jsx:22-28 | empty texts, disabled, on the given environment |
| CreateModal.Submitted | frontend/src/components/v2/CreateFlagModalV2.jsx:78-89 | trimmed name and description, parsed well-formed tags, environment and switch passed through |
| CreateModal.SubmittedTagsExample | frontend/src/components/v2/CreateFlagModalV2.jsx:84-87 | typing two letters around a comma, as in "a,b", submits those two tags |
| CreateModal.Dialog.constructor | frontend/src/components/v2/CreateFlagModalV2.jsx:19-29 | closed, blank form on the initial environment, dropdown closed |
| CreateModal.Dialog.Open | frontend/src/components/v2/CreateFlagModalV2.jsx:33-44 | opening resets to a blank form on the initial environment and closes the dropdown |
| CreateModal.Dialog.Close | frontend/src/components/v2/CreateFlagModalV2.jsx:57 | the dialog is hidden and keeps its form |
| CreateModal.Dialog.SetName | frontend/src/components/v2/CreateFlagModalV2.jsx:103-104 | only the name changes |
| CreateModal.Dialog.SetDescription | frontend/src/components/v2/CreateFlagModalV2.jsx:158-159 | only the description changes |
| CreateModal.Dialog.SetTags | frontend/src/components/v2/CreateFlagModalV2.jsx:174-175 | only the tag text changes |
| CreateModal.Dialog.SetEnabled | frontend/src/components/v2/CreateFlagModalV2.jsx:187-188 | only the switch changes |
| CreateModal.Dialog.ToggleDropdown | frontend/src/components/v2/CreateFlagModalV2.jsx:119 | the list opens or closes |
| CreateModal.Dialog.ClickOutside | frontend/src/components/v2/CreateFlagModalV2.jsx:46-55 | while the dialog is rendered, a click outside closes the dropdown and nothing else changes |
| CreateModal.Dialog.Choose | frontend/src/components/v2/CreateFlagModalV2.jsx:130-141 | picking an entry sets that listed environment and closes the list |
| CreateModal.Dialog.Submit | frontend/src/components/v2/CreateFlagModalV2.jsx:77-90 | the submitted payload, whose environment is the initial one or a listed one |
| CreateModal.Reopen | frontend/src/components/v2/CreateFlagModalV2.jsx:33-44 | reopening after edits gives a blank form again |
| EditModal.Prefilled | frontend/src/components/v2/EditFlagModalV2.jsx:19-25 | the flag's name, its description or "", its tags joined with ", " |
| EditModal.Saved | frontend/src/components/v2/EditFlagModalV2.jsx:29-41 | id, trimmed name and description, parsed well-formed tags, and nothing else |
| EditModal.SaveUnchanged | frontend/src/components/v2/EditFlagModalV2.jsx:19-41 | saving untouched fields gives the flag's trimmed name, description and well-formed tags back |
| EditModal.DeleteOf | frontend/src/components/v2/EditFlagModalV2.jsx:43-45 | delete asks for the flag's id and name |
| EditModal.Dialog.constructor | frontend/src/components/v2/EditFlagModalV2.jsx:15-17 | three empty fields |
| EditModal.Dialog.FlagChanged | frontend/src/components/v2/EditFlagModalV2.jsx:19-25 | a flag prefills the fields; no flag leaves them |
| EditModal.Dialog.SetName | frontend/src/components/v2/EditFlagModalV2.jsx:73 | only the name changes |
| EditModal.Dialog.SetDescription | frontend/src/components/v2/EditFlagModalV2.jsx:86 | only the description changes |
| EditModal.Dialog.SetTags | frontend/src/components/v2/EditFlagModalV2.jsx:99 | only the tag text changes |
| EditModal.Dialog.Submit | frontend/src/components/v2/EditFlagModalV2.jsx:27-41 | saving is possible only when rendered (open with a flag) and gives the saved payload of the fields |
| EditModal.OpenAndSave | frontend/src/components/v2/EditFlagModalV2.jsx:19-41 | opening on a flag and saving at once gives back its id, name and tags |
| FlagForm.Submitted | frontend/src/components/FlagForm.jsx:25 | the request carries the trimmed name and the environment |
| FlagForm.Body | frontend/src/components/FlagForm.jsx:25 | the body has exactly `name` and `environment` |
| FlagForm.BodyAccepted | frontend/src/components/FlagForm.jsx:14-26 | a non-blank name is accepted by `createFlag` exactly when the environment is one of its three |
| FlagForm.InfoError | frontend/src/components/FlagForm.jsx:30 | `err.info?.error` when truthy |
| FlagForm.ErrorText | frontend/src/components/FlagForm.jsx:30 | the info error, else the message, else "Failed to create flag"; never empty |
| FlagForm.FetchErrorShown | frontend/src/components/FlagForm.jsx:30 | a failed request shows the server's `error` when it has one, else the fetcher's message |
| FlagForm.SessionExpiredShown | frontend/src/components/FlagForm.jsx:30 | an expired session shows "Session expired" |
| FlagForm.Form.constructor | frontend/src/components/FlagForm.jsx:7-10 | empty name, the initial environment, not loading, no error |
| FlagForm.Form.SetName | frontend/src/components/FlagForm.jsx:64 | only the name changes |
| FlagForm.Form.SetEnvironment | frontend/src/components/FlagForm.jsx:80 | only the environment changes |
| FlagForm.Form.Submit | frontend/src/components/FlagForm.jsx:12-26 | a request goes out exactly when the name is not blank; a blank one shows "Name cannot be empty"; otherwise the error clears and loading starts |
| FlagForm.Form.Settle | frontend/src/components/FlagForm.jsx:21-33 | `onCreated` runs only after success; an error from the request or from `onCreated` is shown; loading ends in every case |
| FlagForm.FailedCreate | frontend/src/components/FlagForm.jsx:12-34 | a failed create leaves `onCreated` uncalled, loading off and an error shown |
| DarkMode.InitialTheme | frontend/src/hooks/useDarkMode.js:7-16 | the stored choice when it is exactly "light" or "dark", else the system preference |
| DarkMode.Toggled | frontend/src/hooks/useDarkMode.js:47-49 | the toggle switches to the other theme |
| DarkMode.ToggleTwice | frontend/src/hooks/useDarkMode.js:47-49 | two toggles give the theme back |
| DarkMode.PersistedOverrides | frontend/src/hooks/useDarkMode.js:29 | what the persist effect stores is an explicit choice |
| DarkMode.ThemeState.constructor | frontend/src/hooks/useDarkMode.js:7-30 | mounting shows and stores the initial theme |
| DarkMode.ThemeState.SetTheme | frontend/src/hooks/useDarkMode.js:21-30 | a change is applied to the root element and to storage; setting the same theme touches nothing |
| DarkMode.ThemeState.Toggle | frontend/src/hooks/useDarkMode.js:47-49 | the other theme, shown and stored |
| DarkMode.ThemeState.SystemChange | frontend/src/hooks/useDarkMode.js:35-41 | a system change applies exactly when storage holds no explicit choice |
| DarkMode.ThemeState.ClearStorage | frontend/src/hooks/useDarkMode.js:37 | storage loses the choice; the theme on screen stays |
| DarkMode.SystemChangeAfterMount | frontend/src/hooks/useDarkMode.js:29-40 | after mounting, a system change is ignored |
| DarkMode.SystemChangeAfterClear | frontend/src/hooks/useDarkMode.js:36-40 | once the stored choice is removed, a system change applies |
| DarkMode.ToggleTwiceRestores | frontend/src/hooks/useDarkMode.js:47-49 | two toggles restore the theme and leave it stored |
| Fetcher.RequestHeaders | frontend/src/api.js:14-18 | the caller's headers plus Content-Type (the caller's wins) plus, exactly when a token is stored, "Bearer " + token as Authorization (the token wins) |
| Fetcher.Sent | frontend/src/api.js:20 | the caller's options with the merged headers and credentials "omit" |
| Fetcher.Classify | frontend/src/api.js:30-41 | ok with a parsed body gives the body; not ok gives the fixed message, the status and the parsed body as info; ok with an unparseable body gives the parse error |
| Fetcher.Session.Fetch | frontend/src/api.js:11-42 | every call reaches `fetch` once; a 401 (checked first) removes the token, dispatches "session-expired" and fails with `SessionExpiredError`; otherwise the token stays and the result is `Classify` |
| Fetcher.ExpiredThenRetry | frontend/src/api.js:22-28 | after a 401 the next request carries Authorization only when the caller sets it |
| Fetcher.TokenReachesBackend | frontend/src/api.js:17 | the header the fetcher attaches makes `authorize` capture exactly the stored token |

## Left out

- I/O and logging: `console` output and HTTP response headers and bodies are not modelled, nor the JSON text. A handler's answer is its status code plus the record or profile it returns.
- AWS SDK: DynamoDB and the API Gateway management client are the fields of `Store.Tables`. Endpoint construction and `Buffer` are not modelled.
- Store and push failures: which store calls throw, and the HTTP status of each failed push, come from a `World` parameter.
- Scan pagination: a scan is taken to return every item at once.
- Concurrency: the `Promise.all` fan-out and the per-id bulk writes run as sequential loops. Concurrent counter increments and register's check-then-put race are not modelled. Each push outcome touches only its own connection, so the loop order does not matter.
- buildResponse: `editFlag`, `bulkUpdateFlags` and `bulkDeleteFlags` import `buildResponse` from auth/util.js, which exports only `authorize`. As shipped, those calls throw a TypeError. The model answers with the status code each branch selects, as if the helper existed.
- Upsert: an update or edit of a missing id creates a record holding only the attributes set, because DynamoDB's UpdateItem is an upsert. It is not a no-op.
- Path parameters: a missing `pathParameters` object (a TypeError, so 500) is not modelled; the id is a string parameter.
- jwt.verify: it is an uninterpreted `Verifier` that yields the payload or fails. A payload that is not an object is not modelled.
- bcrypt.hash: it is an uninterpreted `Hasher`, and the salt is folded into it.
- login.js is not part of this model.
- Me.Handle: `event.headers` being undefined (a TypeError caught as 401) is the same as no headers.
- JSON numbers are modelled as integers. A non-integer id in a bulk request is not modelled.
- Decimal.ParseIntDecimal: `parseInt` returns a double, so integers beyond 2^53 come back rounded; the model reads every integer back exactly.
- Strings: a Dafny `char` is a Unicode scalar value, while a JavaScript string holds UTF-16 code units. Outside the Basic Multilingual Plane a character counts once here and twice there, so lengths, split positions and the order of `<` can differ. In JavaScript such a character sorts below U+E000–U+FFFF; in `Text.LexLess` it sorts above them.
- Rows.Row: a client row always carries a name, an environment and a creation date. The id-and-enabled records that an update of a missing id leaves (`UpdateFlag.UpdateMissing`) are not representable on the client. On such a record App.jsx would behave differently: a tab outside the three would show it (`undefined === undefined`), unlike `AppList.UnknownTabEmpty`, and the search would throw on its missing name.
- Text.Lower: it lowercases ASCII letters only.
- Text.LexCompare: it stands for `localeCompare` as a character-by-character comparison; locale collation is not modelled.
- Date.parse and getTime: they are an abstract `DateParser` that yields a time or nothing (NaN).
- AppList.SortedByCreated: proved only when every creation date parses. NaN keys make the comparator inconsistent, and the engine's order is then unspecified.
- Clock: `new Date().toISOString()` is the `now` parameter.
- SSR: the `typeof window === "undefined"` branch of the theme hook is not modelled.
- Effect timing: React renders, effect scheduling and stale closures are not modelled. Each handler or effect is one method call, and props are fixed per dialog instance.
- The HTML `required` attribute on the create dialog's name input is not modelled.
- fetch rejections: a network error rejects `fetch` before any status exists, and is not modelled.
- `res.json()` on an ok response: its failure is the `Err` branch of `Response.body`.
- Presentation and orchestration: presentation components and orchestration files (AppV2, routing, session and auth wiring, login and register forms) are not part of this model.
- Subscriber: reconnect attempts and the browser's own readyState transitions (other than through `onopen`, `onclose` and the cleanup) are not modelled.
