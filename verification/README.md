# Hockey team site: client logic model

A Dafny model of the logic inside the hockey team site's web client: the data
hooks that read from and write to the team's remote service, the views
derived from the records they return (schedule score lines and result
badges, the player statistics table, the standings figures), and the
content-management panel's password gate and form handlers.

The model is split into modules that follow the client's files:

- `Backend` (`backend.dfy`): the service's records (player, game, team
  record, player statistics, news post). Optional fields are `Option`s.
- `Text` (`text.dfy`): the JavaScript string built-ins the client uses.
  These are `trim` (with ECMAScript's whitespace set), `toUpperCase` on
  Latin letters, and the decimal rendering of an integer together with the
  reading that inverts it.
- `Sorting` (`sorting.dfy`): a stable sort by an integer key. This is what
  `Array.prototype.sort` does with a numeric comparator. A descending
  comparator `b[k] - a[k]` is a sort by the negated key.
- `Queries` (`queries.dfy`): the read hooks, their cache keys and their
  fallbacks when there is no service connection. It also holds the
  arguments the write hooks send, the link normalisation they apply, and
  the invalidation routing. `QueryCache` is a class holding the cached
  entries and the stale key set, updated by `Store`, `Invalidate` and
  `ApplyMutation`.
- `Schedule` (`schedule.dfy`): the score line and the W/L/OT badge.
- `PlayerStatsView` (`player_stats.dfy`): the join of roster and
  statistics, the ranking by a chosen column and the position badges.
- `Standings` (`standings.dfy`): the counters, games played, win rate,
  loss column and win bar.
- `AdminForms` (`admin_forms.dfy`): every panel form handler's checks, as a
  function from the form's fields to `Option<Request>`. `None` means no
  request leaves the client.
- `AdminPanel` (`admin_panel.dfy`): the panel's state as classes. These are
  the gate, the session, and the players, statistics-editor, games, news
  and team-record sections. Each submit handler builds its request with
  `AdminForms`, hands it to the write hook (`Submit`) and updates its own
  form state only when the write succeeded.

JavaScript's `parseInt` is a parameter of the handlers, returning
`Option<int>`, where `None` stands for `NaN`. The service's verdict on a
write is a boolean parameter (`accepted`). The answer to each read comes
from a `Service` value, or from nothing while there is no connection.

Three facts about the code shape the model:

- Upcoming and completed games are read through separate service calls;
  the client does not split one game list into the two.
- The cache key of the full game list is `allGames`.
- Request de-duplication and refetching are done by the query library,
  which is not part of this model.

## Model

| member | source | states |
|---|---|---|
| Text.Trim | src/frontend/src/pages/AdminPage.tsx:266 | the trimmed text is empty exactly when the input is all whitespace |
| Text.TrimInfix | src/frontend/src/pages/AdminPage.tsx:266 | the trimmed text is the infix of the input left after removing whitespace at both ends: everything removed is whitespace |
| Text.TrimEdges | src/frontend/src/pages/AdminPage.tsx:266 | a trimmed text neither starts nor ends with whitespace |
| Text.TrimIdempotent | src/frontend/src/hooks/useQueries.ts:118-119 | trimming an already trimmed text (the form trims, then the hook trims again) changes nothing |
| Text.ToUpper | src/frontend/src/pages/PlayerStatsPage.tsx:74 | same length, each character upper-cased; what this gives the badge is stated by `Text.UpperOfLower` and `PlayerStatsView.BadgeIgnoresCase` |
| Text.UpperOfLower | src/frontend/src/pages/PlayerStatsPage.tsx:74 | upper-casing a lower-cased text equals upper-casing the original |
| Text.NatToStringValue | src/frontend/src/pages/SchedulePage.tsx:9 | the digits of a natural number's decimal rendering read back as that number |
| Text.IntToStringRoundTrip | src/frontend/src/pages/AdminPage.tsx:176-178 | reading the decimal rendering of any integer, negative included, gives the integer back |
| Text.IntToStringInjective | src/frontend/src/pages/PlayerStatsPage.tsx:83-85 | distinct numbers have distinct renderings, so string keys identify player numbers |
| Sorting.SortBy | src/frontend/src/hooks/useQueries.ts:14 | the result is a permutation of the input, sorted non-decreasing by the key |
| Sorting.SortByStable | src/frontend/src/hooks/useQueries.ts:14 | elements with equal keys keep their relative order |
| Sorting.SortByKeepsTieOrder | src/frontend/src/pages/PlayerStatsPage.tsx:87-89 | if the input was ordered by a second key, ties of the sort key stay ordered by it |
| Sorting.StableSortIsUnique | src/frontend/src/hooks/useQueries.ts:14 | any sorted sequence that keeps every key's elements in input order is exactly the sort's result |
| Queries.KeyOf | src/frontend/src/hooks/useQueries.ts:10-97 | each read's key: only latest-news carries an argument, the decimal count |
| Queries.DefaultLatestKey | src/frontend/src/hooks/useQueries.ts:68-71 | the latest-news read without a count uses the key `["latestNews", "2"]` |
| Queries.KeyOfInjective | src/frontend/src/hooks/useQueries.ts:68-71 | distinct reads (latest-news with distinct counts included) never share a cache entry |
| Queries.RosterOrder | src/frontend/src/hooks/useQueries.ts:13-14 | the roster is a permutation of the service's list in non-decreasing jersey order |
| Queries.RosterOrderStable | src/frontend/src/hooks/useQueries.ts:14 | players sharing a number keep the service's order |
| Queries.Fetch | src/frontend/src/hooks/useQueries.ts:11-100 | every read yields data of its own shape; without a connection every list is empty and the team record is all zeros; the players read yields the roster order |
| Queries.FetchReadsOnlyItsCollection | src/frontend/src/hooks/useQueries.ts:11-100 | services that agree on the collection a query's root reads from answer that query alike, so the `ReadsFrom` table used by the invalidation rules is the one the reads follow |
| Queries.NormalizeUrl | src/frontend/src/hooks/useQueries.ts:118-119 | a link is sent as null exactly when it is blank, otherwise trimmed and non-empty |
| Queries.NormalizeTrimmedUrl | src/frontend/src/hooks/useQueries.ts:138-139 | normalising an already trimmed link gives the same result |
| Queries.ServicePlayer | src/frontend/src/hooks/useQueries.ts:116-121 | the player record handed to the service: fields passed through, each link sent as `NormalizeUrl` of the typed text (null exactly when blank, otherwise the trimmed text) |
| Queries.Invalidates | src/frontend/src/hooks/useQueries.ts:122-259 | each write invalidates exactly the roots of the reads of the collection it writes (players; statistics; all three game lists; both news lists; the team record) |
| Queries.Matching | src/frontend/src/hooks/useQueries.ts:221 | a one-element filter matches exactly the cached keys with that root, whatever their arguments; used by `Queries.StaleAfter` and `Queries.NewsWriteCoversEveryCount` |
| Queries.StaleAfter | src/frontend/src/hooks/useQueries.ts:122-259 | a failed write changes nothing; a successful one adds exactly the cached keys reading the written collection |
| Queries.StaleAfterStaysCached | src/frontend/src/hooks/useQueries.ts:122-259 | invalidation marks only cached keys, so every stale key keeps a stored result (the cache invariant `Queries.QueryCache.Valid`) |
| Queries.NewsWriteCoversEveryCount | src/frontend/src/hooks/useQueries.ts:71 | a news write marks every cached latest-news key stale whatever its count, and the full news list too |
| Queries.StaleAfterIdempotent | src/frontend/src/hooks/useQueries.ts:177-179 | repeating a successful write's invalidation adds nothing more |
| Queries.InvalidationsDisjoint | src/frontend/src/hooks/useQueries.ts:122-259 | writes to different collections invalidate disjoint sets of roots |
| Queries.QueryCache.Store | src/frontend/src/hooks/useQueries.ts:11-16 | a completed read, which runs only while connected, stores its result under its key and clears its staleness |
| Queries.QueryCache.Invalidate | src/frontend/src/hooks/useQueries.ts:122 | every cached key under the root becomes stale; no stored result changes |
| Queries.QueryCache.ApplyMutation | src/frontend/src/hooks/useQueries.ts:122-259 | the new stale set is `StaleAfter` of the old one; entries are unchanged |
| Schedule.FormatScore | src/frontend/src/pages/SchedulePage.tsx:7-12 | a lone en dash when a score is missing; otherwise a line that reads back as exactly the two scores |
| Schedule.ScoreLineReads | src/frontend/src/pages/SchedulePage.tsx:9 | `<home>–<away>` reads back as the pair (home, away) |
| Schedule.NoDashInNumber | src/frontend/src/pages/SchedulePage.tsx:9 | a rendered number contains no en dash, so the separator is unambiguous |
| Schedule.PlaceholderReadsNothing | src/frontend/src/pages/SchedulePage.tsx:11 | the placeholder line is not a score |
| Schedule.GetResult | src/frontend/src/pages/SchedulePage.tsx:14-27 | no badge exactly when a score is missing; otherwise W, L or OT exactly when our score is above, below or equal to theirs, from the home or away side |
| Schedule.FlipSidesSwapsResult | src/frontend/src/pages/SchedulePage.tsx:18-26 | swapping home and away with the same scores swaps W and L and keeps OT |
| Schedule.ResultExamples | src/frontend/src/pages/SchedulePage.tsx:18-25 | the badges of concrete home and away games |
| PlayerStatsView.StatsIndex | src/frontend/src/pages/PlayerStatsPage.tsx:83-85 | every entry's rendered number is a key, and each key maps to the last entry carrying it |
| PlayerStatsView.LookupFindsLastEntry | src/frontend/src/pages/PlayerStatsPage.tsx:83-85 | the lookup for a number yields the last entry with that number |
| PlayerStatsView.LookupMissesAbsentNumber | src/frontend/src/pages/PlayerStatsPage.tsx:27 | a number without an entry is not found |
| PlayerStatsView.BuildRow | src/frontend/src/pages/PlayerStatsPage.tsx:26-32 | the row of the player: the entry's figures or zeros, points equal to goals plus assists |
| PlayerStatsView.RowWithoutStats | src/frontend/src/pages/PlayerStatsPage.tsx:27-30 | a player without statistics gets zero games, goals, assists and points |
| PlayerStatsView.RowWithStats | src/frontend/src/pages/PlayerStatsPage.tsx:26-31 | a player with statistics gets the figures of its last entry |
| PlayerStatsView.BuildRows | src/frontend/src/pages/PlayerStatsPage.tsx:87-88 | one row per player, in roster order; that the rows are exactly the roster's players with their last statistics is `PlayerStatsView.TableRowsArePlayers` and `PlayerStatsView.RowWithStats` |
| PlayerStatsView.Rank | src/frontend/src/pages/PlayerStatsPage.tsx:89 | a permutation of the rows, non-increasing in the chosen column |
| PlayerStatsView.OpensRankedByPoints | src/frontend/src/pages/PlayerStatsPage.tsx:81 | the page opens with the rows ranked by points, highest first |
| PlayerStatsView.StatsTable | src/frontend/src/pages/PlayerStatsPage.tsx:83-89 | as many rows as players, non-increasing in the column, each with points equal to goals plus assists |
| PlayerStatsView.TableRowsArePlayers | src/frontend/src/pages/PlayerStatsPage.tsx:87-88 | every player's row is in the table and every row belongs to a roster player |
| PlayerStatsView.RankStable | src/frontend/src/pages/PlayerStatsPage.tsx:89 | rows tied in the column keep their order |
| PlayerStatsView.TiesInJerseyOrder | src/frontend/src/pages/PlayerStatsPage.tsx:87-89 | on the roster as the players read delivers it, tied rows come in ascending jersey order |
| PlayerStatsView.PositionBadgeClass | src/frontend/src/pages/PlayerStatsPage.tsx:65-75 | the neutral style exactly when the upper-cased position is none of C, LW, RW, D, G |
| PlayerStatsView.BadgeIgnoresCase | src/frontend/src/pages/PlayerStatsPage.tsx:74 | a position in lower case gets the same style |
| PlayerStatsView.WingsShareBadge | src/frontend/src/pages/PlayerStatsPage.tsx:67-68 | both wings get the same, non-neutral style |
| Standings.CountersOf | src/frontend/src/pages/StandingsPage.tsx:39-43 | the record's five counters, or all zeros without a record; the consequences for the page are `Standings.MissingRecordShowsNothing` |
| Standings.WinPercent | src/frontend/src/pages/StandingsPage.tsx:44-45 | zero when no game was played, otherwise the rate times the games played is a hundred times the wins |
| Standings.WinPercentBounds | src/frontend/src/pages/StandingsPage.tsx:45 | with non-negative counters the rate lies between 0 and 100, and is 100 exactly when every game played was won |
| Standings.WinPercentExamples | src/frontend/src/pages/StandingsPage.tsx:45 | the rate of a blank record is 0 and of 7-3-0 is 70 |
| Standings.LossColumn | src/frontend/src/pages/StandingsPage.tsx:124 | wins plus the loss column is the number of games played |
| Standings.WinBar | src/frontend/src/pages/StandingsPage.tsx:115-118 | a bar exactly when a game was played, as wide as the win rate |
| Standings.MissingRecordShowsNothing | src/frontend/src/pages/StandingsPage.tsx:39-45 | without a record the derived games played and win rate are zero and there is no win bar |
| AdminForms.Authenticate | src/frontend/src/pages/AdminPage.tsx:37-45 | the typed text is handed on, unchanged, exactly when it is the pass phrase |
| AdminForms.FindStats | src/frontend/src/pages/AdminPage.tsx:174 | the first entry for the player, or none exactly when no entry has its number |
| AdminForms.PrefillStatsForm | src/frontend/src/pages/AdminPage.tsx:174-179 | `"0"` in every field without an entry, otherwise fields that read back as the entry's figures |
| AdminForms.SaveStatsRequest | src/frontend/src/pages/AdminPage.tsx:181-197 | a request exactly when all three fields are numbers and none is negative, carrying them and the credential |
| AdminForms.SaveUneditedStats | src/frontend/src/pages/AdminPage.tsx:174-197 | saving the editor as it opened re-sends the shown figures when none is negative, and sends nothing otherwise (zeros without an entry) |
| AdminForms.PrefillMatchesTable | src/frontend/src/pages/AdminPage.tsx:174 | with unique player numbers the editor opens on the entry the statistics table shows |
| AdminForms.PrefillAndTableDisagreeOnDuplicates | src/frontend/src/pages/AdminPage.tsx:174 | with two entries for one number the editor opens on the first while the table shows the last |
| AdminForms.AddPlayerRequest | src/frontend/src/pages/AdminPage.tsx:262-283 | no request unless the number is a number and the trimmed name and position are non-empty; fields trimmed except the photo, a non-number age sent as 0 |
| AdminForms.EditFormOf | src/frontend/src/pages/AdminPage.tsx:291-305 | the edit form shows the player's fields; number and age read back as the player's, absent links as empty |
| AdminForms.UpdatePlayerRequest | src/frontend/src/pages/AdminPage.tsx:307-324 | no request without a player being edited; the number sent is always that player's own |
| AdminForms.UneditedUpdateResendsPlayer | src/frontend/src/pages/AdminPage.tsx:291-324 | for a tidy player (`Tidy`: text fields without surrounding whitespace, links absent or trimmed and non-blank), saving the edit form unchanged hands the service exactly the player it opened on |
| AdminForms.SentPlayersAreTidy | src/frontend/src/pages/AdminPage.tsx:262-324 | every player the add and edit forms send is tidy, so a player stored through the panel is re-sent unchanged by an unedited save |
| AdminForms.AddedPlayerLinks | src/frontend/src/hooks/useQueries.ts:118-119 | a link typed in the add form reaches the service as null exactly when blank, otherwise trimmed |
| AdminForms.RemovePlayerRequest | src/frontend/src/pages/AdminPage.tsx:332-335 | a removal is sent exactly when confirmed, with the number and the credential |
| AdminForms.AddGameRequest | src/frontend/src/pages/AdminPage.tsx:591-604 | no request if the trimmed date, opponent or location is empty; otherwise the trimmed fields |
| AdminForms.UpdateScoreRequest | src/frontend/src/pages/AdminPage.tsx:612-625 | a request exactly when a score form is open and both scores are numbers (negatives included), always marking the game completed |
| AdminForms.RemoveGameRequest | src/frontend/src/pages/AdminPage.tsx:633-636 | a removal is sent exactly when confirmed |
| AdminForms.AddNewsRequest | src/frontend/src/pages/AdminPage.tsx:799-806 | no request if the trimmed title, body or date is empty; otherwise the trimmed fields |
| AdminForms.UpdateNewsRequest | src/frontend/src/pages/AdminPage.tsx:819-829 | a request exactly when a post is being edited, with that post's id |
| AdminForms.RemoveNewsRequest | src/frontend/src/pages/AdminPage.tsx:837-840 | a removal is sent exactly when confirmed |
| AdminForms.TeamInfoFormOf | src/frontend/src/pages/AdminPage.tsx:935-944 | each field of the filled form reads back as the record's counter |
| AdminForms.TeamInfoRequest | src/frontend/src/pages/AdminPage.tsx:946-961 | a request exactly when all five fields are numbers; negative values are sent unchanged |
| AdminForms.UneditedTeamInfoResendsRecord | src/frontend/src/pages/AdminPage.tsx:935-961 | submitting the form as filled re-sends the record |
| AdminPanel.Submit | src/frontend/src/hooks/useQueries.ts:122-259 | with no request the cache is untouched; with one the stale set follows `StaleAfter` of its kind, and success is reported exactly when it was accepted |
| AdminPanel.PasswordGate.Type | src/frontend/src/pages/AdminPage.tsx:62 | typing replaces the text and clears the error |
| AdminPanel.PasswordGate.HandleSubmit | src/frontend/src/pages/AdminPage.tsx:37-45 | hands on `Authenticate` of the typed text; the error is shown exactly when it is not the pass phrase |
| AdminPanel.AdminSession.GateSubmit | src/frontend/src/pages/AdminPage.tsx:1006-1010 | the pass phrase unlocks the panel with that credential and clears the gate's error; anything else shows the error and leaves the session as it was |
| AdminPanel.AdminSession.Lock | src/frontend/src/pages/AdminPage.tsx:1023 | the lock button forgets the credential and shows the gate again, freshly mounted with nothing typed and no error |
| AdminPanel.PlayersSection.HandleAdd | src/frontend/src/pages/AdminPage.tsx:262-288 | sends `AddPlayerRequest` of the form; the form is cleared only when the player was added |
| AdminPanel.PlayersSection.StartEdit | src/frontend/src/pages/AdminPage.tsx:291-305 | the player becomes the one edited, with `EditFormOf` it |
| AdminPanel.PlayersSection.CancelEdit | src/frontend/src/pages/AdminPage.tsx:392 | nothing is being edited any more |
| AdminPanel.PlayersSection.HandleUpdate | src/frontend/src/pages/AdminPage.tsx:307-330 | sends `UpdatePlayerRequest` of the edit form; the edit closes only when the update succeeded |
| AdminPanel.PlayersSection.HandleRemove | src/frontend/src/pages/AdminPage.tsx:332-340 | sends a removal only when confirmed; the cache changes only then |
| AdminPanel.PlayersSection.ToggleStats | src/frontend/src/pages/AdminPage.tsx:533 | opens the player's statistics editor, or closes it when that editor was open |
| AdminPanel.PlayersSection.CloseStats | src/frontend/src/pages/AdminPage.tsx:565 | no statistics editor is open |
| AdminPanel.InlineStatsEditor.constructor | src/frontend/src/pages/AdminPage.tsx:170-179 | the editor, mounted while its section has it open, starts with `PrefillStatsForm` |
| AdminPanel.InlineStatsEditor.HandleSave | src/frontend/src/pages/AdminPage.tsx:181-203 | sends `SaveStatsRequest` of the form; only when the figures were stored does the section's `onClose` clear `statsOpenFor`, and nothing else of the section changes |
| AdminPanel.InlineStatsEditor.Cancel | src/frontend/src/pages/AdminPage.tsx:239 | the cancel button closes the editor through the section's `onClose`, sending nothing |
| AdminPanel.GamesSection.HandleAdd | src/frontend/src/pages/AdminPage.tsx:591-610 | sends `AddGameRequest` of the form; the form resets (home game) only when the game was added |
| AdminPanel.GamesSection.OpenScoreForm | src/frontend/src/pages/AdminPage.tsx:761 | opens the score form on the game with both scores at `"0"` |
| AdminPanel.GamesSection.CancelScore | src/frontend/src/pages/AdminPage.tsx:734 | closes the score form |
| AdminPanel.GamesSection.HandleUpdateScore | src/frontend/src/pages/AdminPage.tsx:612-631 | nothing without an open score form; otherwise sends `UpdateScoreRequest`, closing the form only on success |
| AdminPanel.GamesSection.HandleRemove | src/frontend/src/pages/AdminPage.tsx:633-641 | sends a removal only when confirmed |
| AdminPanel.NewsSection.HandleAdd | src/frontend/src/pages/AdminPage.tsx:799-812 | sends `AddNewsRequest` of the form; the form is cleared only when the post was added |
| AdminPanel.NewsSection.StartEdit | src/frontend/src/pages/AdminPage.tsx:814-817 | the post becomes the one edited, its fields in the edit form |
| AdminPanel.NewsSection.CancelEdit | src/frontend/src/pages/AdminPage.tsx:868 | nothing is being edited any more |
| AdminPanel.NewsSection.HandleUpdate | src/frontend/src/pages/AdminPage.tsx:819-835 | sends `UpdateNewsRequest`; the edit closes only when the update succeeded |
| AdminPanel.NewsSection.HandleRemove | src/frontend/src/pages/AdminPage.tsx:837-845 | sends a removal only when confirmed |
| AdminPanel.TeamInfoSection.Render | src/frontend/src/pages/AdminPage.tsx:933-944 | the form is filled from the record on the first render that has one, and never overwritten afterwards |
| AdminPanel.TeamInfoSection.HandleSubmit | src/frontend/src/pages/AdminPage.tsx:946-966 | sends `TeamInfoRequest` of the form; the form is kept whatever the outcome |

## Left out

- The query library's internals are not modelled: de-duplication of concurrent reads, refetch scheduling, subscriber tracking, and fetches that are superseded. A read is modelled as a completed `Store`.
- The service connection hook (`useActor`) is not part of this model. The connection is an `Option<Service>` parameter.
- Every read is enabled only while connected and not already fetching (`enabled: !!actor && !isFetching`). `QueryCache.Store` therefore requires a connection. `Fetch(q, None)` is the query function's own fallback, which the library does not call. While no read has completed the views see "not loaded", which `StatsTable` and `CountersOf` take as `None`. The `isFetching` half of the guard belongs to the library's scheduling and is not modelled.
- Awaiting, try/catch, toasts and `confirm()` dialogs are not modelled. The dialog's answer is the `confirmed` parameter, and the service's verdict is `accepted`.
- The photo upload (a browser file reader) is not modelled. The photo is an opaque string, passed through.
- Typing into the section forms is not modelled key by key. A form is any value of its datatype. Only the gate's `Type` is modelled.
- `toFixed(1)` and the CSS width string are not modelled. The win rate is an exact `real`.
- Standings.WinPercent: JavaScript floating-point division and its rounding are not modelled.
- `parseInt` (prefix parsing, `"1.5"` read as 1) is not modelled. It is a parameter returning `Option<int>`. `Text.ParseDecimal`, which reads only plain decimal integers, stands in for it only in the round-trip lemmas.
- Conversions between the service's big integers and JavaScript numbers (`Number(...)`, `BigInt(...)`) are not modelled. The model uses unbounded integers, so precision lost beyond 2^53 is not captured.
- Text.ToUpper: upper-cases Latin letters only. The Unicode case mappings beyond ASCII are not modelled.
- The service's own behaviour is not modelled. This covers its credential check, how it splits games into upcoming and completed, and its storage. Its answers are the fields of `Service`, and the model only shows that the credential is forwarded unchanged.
- The roster and home pages and the application shell are presentation only and are not part of this model.
