# Personalised feed server: verified model

This project models the personalised-feed logic of the server in
`server.js`. The server keeps a ledger of per-user genre likes in
`engagements.json`. It records a like by looking up the liked activity in the
global feed (`POST /engage/:userId`). It rebuilds a user's personalised feed
in four steps (`POST /rebuild-personalized/:userId`):

1. It scores the first page of the global feed with a language-model oracle,
   which is given the user's ranked genre preferences.
2. It removes the old personalised items one by one.
3. It keeps the items scored strictly above 0.7.
4. It appends personalised copies of those items to the global feed,
   addressed to `personalized:<user>`.

Modules, one per part of the pipeline:

- `Activities` (`activity.dfy`): the activity record, the 100-entry page a
  feed read returns, lookup of the first match by foreign id, and removal by
  foreign id.
- `Ledger` (`ledger.dfy`): profiles, the count-or-zero-plus-one increment, and
  the like decision `RecordLike`, whose outcome is `Ok(newLedger)` or
  `GenreNotFound`.
- `Preferences` (`preferences.dfy`): the stable ranking by like count, and the
  `- genre (n likes)` text with its `No strong preferences.` fallback.
- `Selection` (`selection.dfy`): scoring with the NaN-to-0 default, the
  threshold filter, and the personalised copy with its derived id
  `<foreign_id>:p-<user>`.
- `Server` (`server.dfy`): an in-memory feed store (class `FeedStore`) and the
  server (class `Server`). The server holds the saved ledger. Its methods
  `Engage`, `RemoveOldItems` and `RebuildPersonalized` change that state in
  place, as the handlers do.

A profile is a sequence of `(genre, likes)` entries in insertion order, not a
map. A JavaScript object keeps its keys in insertion order, and the stable
sort at `server.js:110-111` ranks tied genres in that order. `Ledger.Count`
gives the map view, in which a missing genre counts 0.

Some behaviour of the code is worth stating explicitly:

- A removal that fails aborts the rebuild (`server.js:133-135`). It is not
  skipped and reported.
- A failed oracle call rejects the whole `Promise.all` (`server.js:117-129`),
  so nothing is removed or added. Only a reply that is not a number falls back
  to relevance 0.
- "No activity with that id" and "activity without a genre" throw the same
  `Genre not found` error (`server.js:88`). So the model has one
  `GenreNotFound` outcome for both cases.
- The copies are appended to the global feed and addressed with `to`
  (`server.js:145,149`). Nothing is written to the personalised feed directly.

## Model

| member | source | states |
|---|---|---|
| `Activities.HasGenre` | server.js:88 | a genre counts only when it is present and not the empty string: an absent or empty genre fails the like |
| `Activities.Page` | server.js:86 | a read with limit 100 returns a prefix of the feed of at most 100 entries: the whole feed when it is shorter, exactly 100 entries otherwise |
| `Activities.FindIndex` | server.js:87 | the result is the position of the first activity whose foreign id matches; there is no result exactly when no activity in the page matches |
| `Activities.Without` | server.js:134 | removing by foreign id keeps exactly the entries whose id is not among the removed ids, and never adds entries |
| `Activities.WithoutAppend` | server.js:134 | removal keeps the order and multiplicity of what is left: removing from a concatenation concatenates what is left of each part |
| `Activities.WithoutTwice` | server.js:133-135 | removing one more id after a set of ids is the same as removing the union, so the loop's removals add up |
| `Activities.WithoutOwnIds` | server.js:132-135 | removing every id that occurs in a feed empties it |
| `Ledger.Count` | server.js:91 | a genre that is not in the profile counts 0 |
| `Ledger.CountFirstEntry` | server.js:91 | a genre that is in the profile counts the likes stored in its first entry |
| `Ledger.Increment` | server.js:91 | the liked genre's count rises by exactly 1 and every other genre's count is unchanged |
| `Ledger.IncrementGenres` | server.js:91 | an existing genre keeps its place and a new genre is added at the end, as object keys keep insertion order |
| `Ledger.IncrementKeepsDistinct` | server.js:91 | an increment never creates a second entry for a genre |
| `Ledger.ProfileOf` | server.js:83 | a user with a profile gets it; a user without one gets the empty profile, in which every genre counts 0 |
| `Ledger.Like` | server.js:83-91 | for the liking user and genre the count rises by exactly 1, every other (user, genre) count is unchanged, every other user's profile is left exactly as it was (order included), and a user without a profile gets one |
| `Ledger.RecordLike` | server.js:86-92 | the outcome is Ok exactly when the first activity in the page with the given id has a non-empty genre, and then the new ledger is `Like` of that genre for the user (one more like of it, nothing else changed); with no match the outcome is GenreNotFound |
| `Ledger.LikeKeepsDistinct` | server.js:91 | a like keeps every profile of the ledger free of repeated genres |
| `Ledger.LikeAllCounts` | server.js:91 | after any run of likes by a user, the user's count for a genre is its old count plus the number of likes of that genre in the run |
| `Ledger.LikeAllOthersUnchanged` | server.js:83-91 | a run of likes by one user leaves every other user's counts unchanged |
| `Preferences.Insert` | server.js:111 | inserting into a list ranked by non-increasing count keeps it ranked and adds exactly the inserted entry |
| `Preferences.Rank` | server.js:110-111 | the ranking is ordered by like count, highest first, and is a permutation of the profile's entries |
| `Preferences.InsertStable` | server.js:111 | the inserted entry goes ahead of every entry with the same count and keeps the others' relative order |
| `Preferences.RankStable` | server.js:110-111 | the sort is stable: for each count, the entries with that count appear in their insertion order |
| `Preferences.NatToString` | server.js:112 | a count renders as a non-empty string of decimal digits that, read left to right, denotes the count, with no leading zero except for 0 itself |
| `Preferences.Line` | server.js:112 | a line is `- `, then the genre, then ` (`, the count and ` likes)`; it has no newline when the genre has none |
| `Preferences.JoinLines` | server.js:112 | the joined lines are empty exactly when there are no entries, start with a line's `-` otherwise, and for one entry are exactly its line; with `JoinLinesSnoc` this fixes the text as the lines joined by newlines |
| `Preferences.JoinLinesSnoc` | server.js:112 | one more entry adds a newline and then its line at the end of the text |
| `Preferences.JoinLinesNewlines` | server.js:112 | when no genre contains a newline, the text of n entries has exactly n - 1 newlines, one between each two lines |
| `Preferences.PreferenceText` | server.js:110-112 | the empty profile gives `No strong preferences.`; any other profile gives its ranked lines joined by newlines |
| `Preferences.PreferenceTextEmpty` | server.js:110-112 | the text is `No strong preferences.` exactly when the profile is empty |
| `Preferences.JazzRockLedger` | server.js:83-91 | two likes of jazz and then one of rock, on an empty ledger, give the profile jazz 2, rock 1 |
| `Preferences.JazzRockRank` | server.js:110-111 | that profile ranks jazz (2) ahead of rock (1) |
| `Preferences.JazzRockLines` | server.js:112 | its lines join to `- jazz (2 likes)` and `- rock (1 likes)` separated by a newline |
| `Preferences.JazzRockText` | server.js:110-112 | its preference text is those two lines |
| `Selection.ScoreAll` | server.js:117-129 | scoring succeeds exactly when every oracle call replies; each item is then the input item with its relevance set from the reply, in input order, and a reply that is not a number gives 0 |
| `Selection.RelevanceOf` | server.js:127 | a reply that is not a number gives relevance 0; a number is the relevance itself |
| `Selection.Above` | server.js:137 | an item is above the threshold exactly when it has a relevance strictly greater than 0.7; exactly 0.7 is not |
| `Selection.Keep` | server.js:137 | the kept items are exactly the input items whose relevance is strictly above 0.7 |
| `Selection.KeepAppend` | server.js:137 | the filter keeps input order: filtering a concatenation concatenates the filtered parts |
| `Selection.UnparseableNeverKept` | server.js:126-137 | an item whose reply was not a number has relevance 0 and is never kept |
| `Selection.DerivedId` | server.js:141 | the copy's id is the source id, then `:p-`, then the user id |
| `Selection.Copy` | server.js:138-146 | the copy has the derived id and is addressed only to `personalized:<user>`; every other field is the source item's |
| `Selection.Select` | server.js:137-147 | the selection is the copy of each kept item, one for one and in order; see `SelectMembers` and `SelectAppend` for what that means |
| `Selection.SelectMembers` | server.js:137-147 | the selection holds exactly the personalised copies of the items above 0.7; each copy keeps its relevance above 0.7 and is addressed to `personalized:<user>` |
| `Selection.SelectAppend` | server.js:137-147 | selecting from a concatenation gives the two selections in order |
| `Selection.DerivedIdInjective` | server.js:141 | for one user, two source ids with the same derived id are the same id |
| `Selection.DerivedIdsCollideAcrossUsers` | server.js:141 | for different users, different source ids can get the same derived id |
| `Selection.KeepDistinct` | server.js:137 | filtering a page without duplicate foreign ids gives no duplicate ids |
| `Selection.SelectDistinct` | server.js:137-147 | a page without duplicate foreign ids gives copies without duplicate ids |
| `Server.FeedStore.RemoveActivity` | server.js:134 | a successful removal drops the entries with that foreign id from that user's personalised feed only; a rejected removal changes nothing |
| `Server.FeedStore.AddActivities` | server.js:149 | a successful append adds the activities at the end of the global feed; a rejected one changes nothing |
| `Server.RemovedBefore` | server.js:133-135 | the loop gets through exactly the items before the first one whose removal is rejected |
| `Server.SmallFeedCleared` | server.js:132-135 | a completed loop empties a personalised feed of at most 100 entries |
| `Server.Server.Engage` | server.js:77-100 | the saved ledger becomes the RecordLike ledger when the like resolves, and is left unchanged when it does not; a ledger whose profiles have no repeated genre keeps that property |
| `Server.Server.RemoveOldItems` | server.js:132-135 | the first page of the user's personalised feed is removed in order up to the first rejected removal, whose id is returned; the global feed and other users' feeds are unchanged |
| `Server.Server.RebuildPersonalized` | server.js:103-155 | a failed oracle call changes nothing; otherwise the old items are removed up to the first rejected removal, which ends the rebuild; after a complete removal the selected copies are appended to the global feed and returned, unless the append is rejected |

## Left out

- Server.Server.Engage: requests are modelled one at a time. In the source a
  like reads the whole ledger file (`server.js:82`), awaits the feed read
  (`server.js:86`) and then writes back the whole ledger built from its own
  copy (`server.js:92`). A like by any user that is saved during that await is
  overwritten and lost, so for overlapping requests "one more like, nothing
  else changed" does not hold of the saved file.
- Ledger.Increment: genres and user ids that are names inherited from
  `Object.prototype` are not modelled. For a genre such as `constructor`,
  `toString` or `valueOf`, `|| 0` keeps the inherited function and `+ 1`
  turns the count into a string. For the genre `__proto__` the assignment is
  ignored and the like is silently lost. For a user id `constructor` or
  `__proto__` every like fails with a `TypeError`. Here every name counts
  from 0. Counts are also unbounded here; JavaScript numbers stop growing
  past 2^53.

- HTTP routing, CORS, JSON bodies, status codes, token issuance and static
  files (`server.js:13-44`, `server.js:157-184`). `GET /feed/personalized` is
  only a read.
- Loading and saving `engagements.json`, and JSON (de)serialisation
  (`server.js:26-37`). The field `Server.engagements` stands for the saved
  file. A load that fails would give the empty ledger.
- The feed service's own behaviour is not modelled:
  - the order in which a read returns activities (newest first);
  - fan-out of activities through `to` into `personalized:<user>`;
  - upserting activities that share a foreign id and time.
  A read returns the first 100 entries of the modelled sequence. An append
  adds at the end. A removal drops every entry with that foreign id.
  So for a feed longer than 100 entries the modelled page holds the 100
  oldest entries, where the service returns the 100 newest: `Engage` can fail
  on, and `RebuildPersonalized` skips, recent activities the service would
  return.
- The failures of the feed service are parameters: the foreign ids whose
  removal it rejects, and whether it rejects the append. A failed read of
  either feed is not modelled.
- How the oracle prompt is built, and the OpenAI call itself
  (`server.js:119-124`). The oracle is a function of the prompt's inputs:
  genre, popularity and preference text. So two calls with the same prompt
  get the same reply. The real service may answer differently each time.
- `parseFloat` and floating point: a reply is either a `real` or not a number.
  Infinities and the precision of 0.7 are not modelled.
- `Promise.all` runs the oracle calls concurrently. Here they are a
  sequential map, which gives the same results in the same order.
- The `/seed-global` data and its timestamps (`server.js:46-74`).
- Genre names that look like array indices. A JavaScript object lists those
  keys first, in numeric order, so for such names the tie order in the ranking
  differs from the insertion order modelled here.
- A request body without `foreign_id`, and activities without a foreign id or
  a popularity. In JavaScript these give `undefined`. Here every activity has
  a string id and an integer popularity.
