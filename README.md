# Wellness session tracker — verified model of the client-side services

This project models the logic of a browser wellness-session tracker in Dafny.
Users sign in, browse and create guided sessions (meditation, yoga,
mindfulness, breathing), favourite them, play their YouTube videos, and track
completion streaks.

Every service keeps one serialised list under a fixed key of the browser's
key-value store. It reads the list, changes it and writes it back. Each store
is modelled as a class with one field per key. A list key is a field of type
`Storage.Slot<T>`, which takes one of three values:

- `Absent`: the key is missing or empty.
- `Unparseable`: the stored text does not parse.
- `Stored(items)`: the parsed list.

The sign-in record is a single object, not a list: `Auth.AuthStore` holds it in
a field of type `Auth.AuthSlot` with the same three cases. The per-user
first-login keys `wellness_first_login_<userId>` are one map from user id to
stored text, the field `Profile.ProfileStore.firstLogin`.

The services' methods update that field in place. Time is a parameter:
timestamps in milliseconds, "now" as ISO text for profiles, and the
timestamp-to-calendar-day function `dayOf`. Random ids are parameters too.

Modules, one per source file, plus three shared helper modules:

| module | models |
|---|---|
| `Completion` | the completion ledger and the progress summary with its streak walk (`src/lib/completion.ts`) |
| `Favorites` | the favourites toggle (`src/lib/favorites.ts`) |
| `Sessions` | the session catalogue with its seeding defaults (`src/lib/sessions.ts`) |
| `Profile` | the profile upsert and the sticky first-login date (`src/lib/profile.ts`) |
| `Auth` | the mock sign-in state (`src/lib/auth.ts`) |
| `Validation` | the length and range bounds of the form schemas (`src/lib/validation.ts`) |
| `Browse` | the browse page's filter chain (`src/pages/BrowseSessions.tsx`) |
| `YouTube` | the link pattern shared by both video components |
| `CreateSessionForm` | the form's defaults, duration fallback and link helpers (`src/components/sessions/CreateSessionForm.tsx`) |
| `VideoModal` | the player dialog's address and render guards (`src/components/sessions/VideoModal.tsx`) |
| `Wrappers` | `Option` and `Result` (helper) |
| `Storage` | the `Slot` type and `Timestamp` (helper) |
| `Sequences` | `filter`, `findIndex`, `some`, `map` with their guarantees (helper) |

Behaviour of the program worth knowing:

- The streak walk (src/lib/completion.ts:80-93) has no iteration cap. It terminates anyway, because each step that counts a day moves the cursor below one more of the finitely many active days. `Completion.WalkStreak` proves this with a `decreases` measure.
- Read and parse failures are caught by every service's readers, which return `[]` or `null` (src/lib/completion.ts:25-27, src/lib/favorites.ts:19-21, src/lib/profile.ts:20, src/lib/sessions.ts:114, :130 and :184, src/lib/auth.ts:25). In src/lib/completion.ts, src/lib/favorites.ts and src/lib/profile.ts the writes sit inside the same `try`, so a failing write is swallowed too: `toggleFavorite` answers `false` (src/lib/favorites.ts:49-52) and `markSessionComplete` writes nothing (src/lib/completion.ts:44-46). In src/lib/sessions.ts and src/lib/auth.ts the writes (src/lib/sessions.ts:119, `saveSessions` at src/lib/sessions.ts:190-192, src/lib/auth.ts:43 and :59) sit outside any `try`, so a failing write there throws to the caller.
- `markSessionComplete` stores the duration it is given without checking that it is positive (src/lib/completion.ts:31-41).
- `getUserSessions` seeds the defaults both when the key is absent and when it does not parse (src/lib/sessions.ts:123-141): the parse failure is caught and falls through to the seeding.

## Model

| member | source | states |
|---|---|---|
| `Completion.CompletionLedger.GetCompletionsByUser` | src/lib/completion.ts:18-29 | exactly the stored records of the user, in stored order (a subsequence); none when the key is absent or does not parse |
| `Completion.CompletionLedger.MarkSessionComplete` | src/lib/completion.ts:31-47 | appends exactly one record stamped `now` after all earlier ones; the user's record list gains it at the end and every other user's list is unchanged; an unparseable store is not written |
| `Completion.CompletionLedger.GetUserProgress` | src/lib/completion.ts:49-102 | the summary equals `ProgressOf` of the user's records at today's day: count, minutes, latest time, streak; zeros and no date for no records; the grace step is taken at most once |
| `Completion.GroupByDate` | src/lib/completion.ts:66-74 | the `forEach` loop collects exactly the set of calendar days of the records |
| `Completion.WalkStreak` | src/lib/completion.ts:76-93 | the `while (true)` walk terminates and counts exactly `Streak(days, today)`; it steps past a day without a record once when today has none and never otherwise |
| `Completion.TotalMinutes` | src/lib/completion.ts:53 | when no duration is negative, the total is non-negative and at least each record's duration |
| `Completion.RunLength` | src/lib/completion.ts:80-93 | the run ending at a day is empty exactly when that day has no record, and never longer than the number of active days up to it |
| `Completion.Streak` | src/lib/completion.ts:77-93 | the streak is zero exactly when neither today nor yesterday has a record |
| `Completion.ProgressOf` | src/lib/completion.ts:49-102 | the count is the number of records; there is a last date exactly when there are records; no records give zero minutes and no streak |
| `Completion.Latest` | src/lib/completion.ts:61-64 | the latest time is the `completedAt` of some record and no record is later |
| `Completion.ByUser` | src/lib/completion.ts:23 | keeps exactly the records whose user matches, as a subsequence |
| `Completion.RunLengthSpec` | src/lib/completion.ts:80-92 | the run ending at a day consists of active days and the day before it is inactive |
| `Completion.RunLengthUnique` | src/lib/completion.ts:80-92 | any run of active days ending at a day and preceded by an inactive day has exactly the computed length |
| `Completion.StreakSpec` | src/lib/completion.ts:77-93 | the streak is the run of consecutive active days ending today, or yesterday when today has no record, and the day before the run is inactive |
| `Completion.StreakBound` | src/lib/completion.ts:80-93 | the streak is at most the number of distinct completion days |
| `Completion.RunLengthMonotone` | src/lib/completion.ts:80-92 | more active days never shorten a run |
| `Completion.StreakMonotone` | src/lib/completion.ts:77-93 | more active days never shorten the streak |
| `Completion.StreakExamples` | src/lib/completion.ts:77-93 | no days give 0; today only gives 1; three days up to today give 3; yesterday and three days ago give 1 |
| `Completion.SameDayTwice` | src/lib/completion.ts:52-93 | two records today count twice in the total and add both durations, but make a streak of one day |
| `Completion.TotalMinutesAppend` | src/lib/completion.ts:53 | the minutes of a concatenation are the sum of the parts' minutes |
| `Completion.TotalMinutesRemove` | src/lib/completion.ts:53 | removing one record subtracts exactly its duration |
| `Completion.MultisetRemove` | src/lib/completion.ts:53 | removing one occurrence of a record from two equal multisets leaves equal multisets |
| `Completion.TotalMinutesPermutation` | src/lib/completion.ts:53 | reordering the records does not change the minutes total |
| `Completion.LatestSameRecords` | src/lib/completion.ts:61-64 | lists with the same records have the same latest time, whatever their order |
| `Completion.ProgressOrderIndependent` | src/lib/completion.ts:49-102 | the whole summary depends only on the multiset of records, not on the stored order |
| `Completion.ByUserAppend` | src/lib/completion.ts:36-41 | an appended record goes to the end of its own user's records and to no other user's |
| `Completion.ProgressAfterCompletion` | src/lib/completion.ts:49-102 | one more record raises the count by one and the minutes by its duration; the latest time is at least its time; the streak does not shrink and is at least one when the record is dated today |
| `Completion.DaysUpToStep` | src/lib/completion.ts:84 | stepping the cursor back one day removes exactly that day from the days still ahead of the walk |
| `Completion.CompletionLedger.IsSessionCompletedToday` | src/lib/completion.ts:104-112 | true exactly when some stored record has this user, this session and today's calendar day |
| `Favorites.Toggled` | src/lib/favorites.ts:30-47 | with an entry for the pair, the first such entry is removed and nothing else; without one, an entry for the pair dated now is appended |
| `Favorites.ToggledKeepsOthers` | src/lib/favorites.ts:30-47 | toggling leaves every entry for another pair in place, in the same relative order |
| `Favorites.ToggledMembership` | src/lib/favorites.ts:30-47 | without duplicates, toggling flips the toggled pair's membership, keeps every other pair's, and leaves no duplicates |
| `Favorites.ToggleTwice` | src/lib/favorites.ts:25-48 | without duplicates, toggling a pair twice restores every pair's membership, and restores the list itself when the pair was absent |
| `Favorites.FavoritesStore.GetFavoritesByUser` | src/lib/favorites.ts:10-23 | one session id per entry of the user, in stored order (the i-th id is the i-th such entry's); so an id is listed exactly when the store holds an entry for it and the user; nothing when the key is absent or does not parse |
| `Favorites.FavoritesStore.ToggleFavorite` | src/lib/favorites.ts:25-53 | removes the first entry for the pair and answers false, or appends one and answers true; when the store held no duplicate pairs, afterwards `IsFavorited` equals the answer and no duplicates appear; an unparseable store answers false unwritten |
| `Favorites.FavoritesStore.IsFavorited` | src/lib/favorites.ts:55-58 | true exactly when the store holds an entry for the session and the user |
| `Sessions.DefaultPublicSessions` | src/lib/sessions.ts:18-80 | five public defaults, each public, by "system" and dated at load time |
| `Sessions.DefaultUserSessions` | src/lib/sessions.ts:82-105 | two user defaults, each private, by "user" and dated before load time |
| `Sessions.Merge` | src/lib/sessions.ts:164 | an update that gives no field leaves the session as it is; one that gives no id, owner or creation time keeps those |
| `Sessions.MergeTwice` | src/lib/sessions.ts:164 | applying the same update twice gives what applying it once gives |
| `Sessions.SessionsStore.constructor` | src/lib/sessions.ts:18-105 | the service holds the two default lists built at load time and the two keys' current contents |
| `Sessions.SeedFor` | src/lib/sessions.ts:135-138 | the default user sessions, in order, each re-owned by the user and otherwise unchanged |
| `Sessions.SeedIsOwned` | src/lib/sessions.ts:128-141 | reading the user's sessions back from a freshly seeded store returns the whole seed |
| `Sessions.Created` | src/lib/sessions.ts:144-149 | the new session carries exactly the draft's fields plus the given id and creation time |
| `Sessions.WithoutId` | src/lib/sessions.ts:172-174 | keeps exactly the sessions with another id; is shorter exactly when some session had the id, and is the input otherwise |
| `Sessions.SessionsStore.GetPublicSessions` | src/lib/sessions.ts:108-121 | a stored list, even an empty one, is returned unwritten; otherwise the public defaults built at load time are stored and returned |
| `Sessions.SessionsStore.GetUserSessions` | src/lib/sessions.ts:123-142 | a stored list yields exactly its sessions created by the user, in order, unwritten; otherwise the user's seed replaces the key and is returned |
| `Sessions.SessionsStore.CreateSession` | src/lib/sessions.ts:144-156 | the new session is appended after all existing ones (an unparseable list counts as empty) |
| `Sessions.SessionsStore.UpdateSession` | src/lib/sessions.ts:158-168 | with no session of that id, returns null and writes nothing; otherwise overrides the given fields of the first such session in place, leaves the rest, and returns it |
| `Sessions.SessionsStore.DeleteSession` | src/lib/sessions.ts:170-178 | answers whether some session had the id; only then writes the list without every such session |
| `Sessions.SessionsStore.GetAllSessions` | src/lib/sessions.ts:180-188 | the stored list; empty when the key is absent or does not parse |
| `Sessions.SessionsStore.SaveSessions` | src/lib/sessions.ts:190-192 | the key holds exactly the given list |
| `Profile.FindProfile` | src/lib/profile.ts:18 | the first profile with the user id, or none exactly when no profile has it |
| `Profile.UpsertSpec` | src/lib/profile.ts:53-60 | after the upsert the user's profile is the new one, other users' profiles are unchanged, one profile per user is kept, and the list grows only when the user had none |
| `Profile.FirstIndexAgree` | src/lib/profile.ts:31 | lists that agree on the entries of a user have the same first profile for that user |
| `Profile.BuildProfile` | src/lib/profile.ts:45-51 | the name is the given non-empty one or "Wellness User"; the picture is the given one; the join date is the one settled on; the session count is the given one or 0 |
| `Profile.Upsert` | src/lib/profile.ts:31-57 | the new profile is in the list, every other user's profile stays, and nothing else is added |
| `Profile.FirstLogin` | src/lib/profile.ts:36-38 | the stored first-login date of the user when there is a non-empty one, none otherwise |
| `Profile.JoinDate` | src/lib/profile.ts:34-43 | the join date is the given one, else the stored first-login date, else now, which is then recorded for that user only |
| `Profile.JoinDateSticky` | src/lib/profile.ts:34-43 | once a first-login date is recorded, later calls without a join date reuse it |
| `Profile.ProfileStore.GetUserProfile` | src/lib/profile.ts:13-24 | the first stored profile with the user id, none earlier having it; null exactly when none has the user id, and always when the store is absent or unparseable |
| `Profile.ProfileStore.CreateOrUpdateProfile` | src/lib/profile.ts:26-70 | builds the profile, upserts it and returns what the user's profile now reads as; other users' profiles are unchanged; an unparseable list yields the default profile dated now, unwritten |
| `Profile.ProfileStore.UpdateDisplayName` | src/lib/profile.ts:72-77 | nothing happens without a profile; otherwise only the name changes (an empty one becomes "Wellness User"), with an empty stored join date refilled by the join-date rule; the first-login dates change only as that rule says, so only this user's, and only when the stored join date is empty |
| `Profile.ProfileStore.UpdateProfilePicture` | src/lib/profile.ts:79-84 | nothing happens without a profile; otherwise only the picture changes, with the same name and join-date defaulting; the first-login dates change only as the join-date rule says, so only this user's, and only when the stored join date is empty |
| `Auth.EmailPrefix` | src/lib/auth.ts:40 | a prefix of the e-mail with no '@', followed by '@' or the end |
| `Auth.EmailPrefixUnique` | src/lib/auth.ts:40 | any string with those three properties is the prefix, so they specify it completely |
| `Auth.EmailPrefixExamples` | src/lib/auth.ts:40 | "jane@example.com" gives "jane"; text without '@' is kept whole; a leading '@' gives "" |
| `Auth.StateOf` | src/lib/auth.ts:15-29 | signed in exactly when the stored record holds a user |
| `Auth.AuthStore.GetAuthState` | src/lib/auth.ts:15-29 | reports the stored user, signed in exactly when there is one; absent or unreadable reads as signed out |
| `Auth.AuthStore.Login` | src/lib/auth.ts:31-45 | an empty e-mail or password fails with its message and stores nothing; otherwise a user named after the e-mail prefix is stored and reads back as signed in |
| `Auth.AuthStore.Signup` | src/lib/auth.ts:47-61 | any empty field fails with its message and stores nothing; otherwise a user with exactly the given e-mail and name is stored and reads back as signed in |
| `Auth.AuthStore.Logout` | src/lib/auth.ts:63-65 | the key is removed and the state reads as signed out |
| `Validation.IsWhitespace` | src/lib/validation.ts:7 | no visible ASCII character ('!' to '~') counts as white space, so trimming never removes one |
| `Validation.FrontCut` | src/lib/validation.ts:7 | the front cut is preceded only by white space and falls on a character that is not white space, or at the end |
| `Validation.FrontCutUnique` | src/lib/validation.ts:7 | any index with those properties is the front cut |
| `Validation.BackCut` | src/lib/validation.ts:7 | the back cut is followed only by white space and falls after a character that is not white space, or at the front cut |
| `Validation.BackCutUnique` | src/lib/validation.ts:7 | any index with those properties is the back cut |
| `Validation.Trim` | src/lib/validation.ts:7 | a slice of the input with only white space outside it, itself neither starting nor ending with white space |
| `Validation.TrimUnique` | src/lib/validation.ts:7 | any slice with only white space around it that neither starts nor ends with white space is the trim, so the contract of `Trim` determines it |
| `Validation.TrimOfTrimmed` | src/lib/validation.ts:7 | a string without surrounding white space is its own trim |
| `Validation.TrimIdempotent` | src/lib/validation.ts:7 | trimming twice is trimming once |
| `Validation.TrimOfBlank` | src/lib/validation.ts:26-27 | white space alone trims to the empty string |
| `Validation.TrimPadded` | src/lib/validation.ts:7 | trimming removes exactly the white space padded around a trimmed string |
| `Validation.ParseText` | src/lib/validation.ts:24-28 | a trimmed field passes exactly when its trimmed length is within the bounds, yielding the trimmed text; otherwise the too-short or too-long issue |
| `Validation.ReparseText` | src/lib/validation.ts:24-28 | a text field reads the same whether or not it was already trimmed |
| `Validation.Message` | src/lib/validation.ts:9-46 | every issue carries the non-empty message its schema attaches to it |
| `Validation.ParseTitle` | src/lib/validation.ts:24-28 | a title passes exactly when its trimmed length is 1 to 200 |
| `Validation.ParseDescription` | src/lib/validation.ts:29-33 | a description passes exactly when its trimmed length is 1 to 2000 |
| `Validation.ParseDuration` | src/lib/validation.ts:34-37 | a duration passes exactly when it is 1 to 180, 180 included |
| `Validation.ParseSession` | src/lib/validation.ts:23-38 | the session form passes exactly when every field does, yielding the trimmed values; otherwise one issue per failing field, in field order |
| `Validation.ReparseSession` | src/lib/validation.ts:23-38 | what the session schema accepts it accepts again, unchanged |
| `Validation.ParseDisplayName` | src/lib/validation.ts:41-47 | a display name passes exactly when its trimmed length is 1 to 50 |
| `Validation.ReparseDisplayName` | src/lib/validation.ts:41-47 | an accepted display name is accepted again, unchanged |
| `Validation.ParseEmail` | src/lib/validation.ts:5-9 | an e-mail passes the length bound exactly when its trimmed length is at most 255 |
| `Validation.ParsePassword` | src/lib/validation.ts:10-13 | a password passes exactly when its untrimmed length is 8 to 72 |
| `Validation.ParseName` | src/lib/validation.ts:14-19 | a missing name passes; a given one passes exactly when its trimmed length is 1 to 100 |
| `Validation.ParseAuth` | src/lib/validation.ts:4-20 | the auth form passes exactly when every field does, yielding the trimmed values; otherwise one issue per failing field, in field order |
| `Validation.ReparseAuth` | src/lib/validation.ts:4-20 | what the auth schema accepts it accepts again, unchanged |
| `Validation.BoundaryExamples` | src/lib/validation.ts:10-37 | 1 and 180 minutes pass while 0 and 181 fail; a password of 8 characters counts its leading space; 7 characters fail |
| `Validation.BlankTitleExample` | src/lib/validation.ts:24-28 | a title of white space alone is reported as missing, with the message "Title is required" |
| `Validation.PaddedTitleExample` | src/lib/validation.ts:24-28 | white space around a title is dropped |
| `Browse.Lower` | src/pages/BrowseSessions.tsx:27 | lower-cases each character, keeping the length |
| `Browse.Contains` | src/pages/BrowseSessions.tsx:27-29 | true exactly when the term occurs at some position of the text |
| `Browse.Step` | src/pages/BrowseSessions.tsx:25-41 | a switched-off step keeps the list; a switched-on one keeps only matching sessions; neither lengthens it |
| `Browse.BrowseFilter` | src/pages/BrowseSessions.tsx:21-44 | the shown list is never longer than the full list, and equals it when no filter is active |
| `Browse.StepIsFilter` | src/pages/BrowseSessions.tsx:25-41 | each step is one filter by its gate |
| `Browse.StepAfterFilter` | src/pages/BrowseSessions.tsx:25-41 | a step after a filter is one filter by the conjunction of the two |
| `Browse.BrowseFilterIsOneFilter` | src/pages/BrowseSessions.tsx:21-44 | the chain equals a single filter by the conjunction of the active criteria, so the order of the steps does not matter |
| `Browse.BrowseFilterKeeps` | src/pages/BrowseSessions.tsx:21-44 | the shown sessions are a subsequence of the list, and a session is shown exactly when it passes every active criterion |
| `Browse.BrowseFilterCriteria` | src/pages/BrowseSessions.tsx:25-36 | each shown session matches the search term and the type when those filters are active |
| `Browse.MatchesSearch` | src/pages/BrowseSessions.tsx:26-30 | the empty term matches every session |
| `Browse.LowerIdempotent` | src/pages/BrowseSessions.tsx:27-29 | lower-casing twice is lower-casing once |
| `Browse.SearchIgnoresCase` | src/pages/BrowseSessions.tsx:26-30 | for every session and term, the term matches exactly what its lower-case form matches |
| `Browse.SearchIgnoresTitleCase` | src/pages/BrowseSessions.tsx:26-30 | "CALM" and "calm" both find a session titled "Calm" |
| `YouTube.MatchesAt` | src/components/sessions/CreateSessionForm.tsx:63 | a match at a position needs a 'y' there and room for the shorter marker and one id character |
| `YouTube.MarkersExclusive` | src/components/sessions/CreateSessionForm.tsx:63 | the two alternatives of the pattern never both match at one position |
| `YouTube.IdEnd` | src/components/sessions/CreateSessionForm.tsx:63 | the greedy id run: every character in it is allowed, and it is followed by a forbidden character or the end |
| `YouTube.FindMatchFrom` | src/components/sessions/CreateSessionForm.tsx:63 | the leftmost matching position from a start, or none exactly when the pattern matches nowhere there |
| `YouTube.FindMatch` | src/components/sessions/CreateSessionForm.tsx:63 | the leftmost position where the pattern matches, or none exactly when it matches nowhere |
| `YouTube.ExtractVideoId` | src/components/sessions/CreateSessionForm.tsx:63 | the id is found exactly when the pattern matches; it is non-empty, free of `&`, newline, `?` and `#`, follows the leftmost match's marker, and runs as far as possible |
| `YouTube.NoMatchBeforeY` | src/components/sessions/CreateSessionForm.tsx:63 | the pattern cannot match at a position that does not hold 'y' |
| `YouTube.MatchAfterPrefix` | src/components/sessions/CreateSessionForm.tsx:63 | with no 'y' before a marker followed by an id character, the leftmost match is at that marker and the id starts right after it |
| `YouTube.IdRunsToEnd` | src/components/sessions/CreateSessionForm.tsx:63 | an id of allowed characters that runs to the end of the text is taken whole by the greedy run |
| `YouTube.ExtractAfterMarker` | src/components/sessions/CreateSessionForm.tsx:63 | an id placed after a marker, with no 'y' before it, is extracted whole |
| `YouTube.WatchLinkRoundTrip` | src/components/sessions/CreateSessionForm.tsx:63 | the id put into a watch link is the id extracted from it |
| `YouTube.ShortLinkRoundTrip` | src/components/sessions/CreateSessionForm.tsx:63 | the id put into a short link is the id extracted from it |
| `YouTube.MatchesFrom` | src/components/sessions/CreateSessionForm.tsx:68 | true exactly when the pattern matches at some position from the start given |
| `CreateSessionForm.FormEmbedUrl` | src/components/sessions/CreateSessionForm.tsx:62-65 | the embed base followed by the extracted id, or empty when there is no match |
| `CreateSessionForm.IsValidYouTubeUrl` | src/components/sessions/CreateSessionForm.tsx:67-69 | true exactly when the pattern matches somewhere in the text |
| `CreateSessionForm.ValidIffEmbed` | src/components/sessions/CreateSessionForm.tsx:62-69 | a link is valid exactly when it yields a non-empty embed address |
| `CreateSessionForm.WatchLinkEmbed` | src/components/sessions/CreateSessionForm.tsx:62-69 | a watch link for an id previews that id and is valid |
| `CreateSessionForm.NoMarkerNoEmbed` | src/components/sessions/CreateSessionForm.tsx:62-69 | text with neither marker has no embed address and is not valid |
| `CreateSessionForm.OrText` | src/components/sessions/CreateSessionForm.tsx:25-35 | a given non-empty value wins over the default |
| `CreateSessionForm.InitialFormData` | src/components/sessions/CreateSessionForm.tsx:25-35 | each field starts from the given non-empty or non-zero value, else its default |
| `CreateSessionForm.BlankFormDefaults` | src/components/sessions/CreateSessionForm.tsx:25-35 | without initial data the form starts from 'meditation', 10, 'Beginner', not public, 'youtube' and empty texts |
| `CreateSessionForm.ReopenKeepsValues` | src/components/sessions/CreateSessionForm.tsx:25-35 | opening the form on a form's values keeps them when none is empty or zero, and the duration is never zero |
| `CreateSessionForm.DurationOr` | src/components/sessions/CreateSessionForm.tsx:157 | a number that does not parse, or zero, becomes 10; any other number is kept; the result is never zero |
| `VideoModal.ModalEmbedUrl` | src/components/sessions/VideoModal.tsx:13-16 | the embed base, the id and the autoplay parameters, or empty when there is no match |
| `VideoModal.ModalAgreesWithForm` | src/components/sessions/VideoModal.tsx:13-16 | the dialog has a player address exactly when the form calls the link valid, and it is the form's preview address plus the player parameters |
| `VideoModal.View` | src/components/sessions/VideoModal.tsx:18-57 | nothing renders without a session or a link; "Video not available" shows exactly when the link is not valid; otherwise the player gets the address and the title |
| `VideoModal.WatchLinkPlays` | src/components/sessions/VideoModal.tsx:13-57 | a session with a watch link plays that video |

## Left out

- The browser store and JSON. A key is a class field. A parse failure is the `Unparseable` state. Quota and write errors are not modelled: every write succeeds.
- Extra stored keys that a spread such as `{ ...old, ...profile }` would keep. Stored objects have exactly the modelled fields. The replacement profile sets all five fields, so the merge equals the new profile.
- Clocks and random ids. `Date.now()`, `new Date().toISOString()` and `Math.random()` become parameters. The calendar day of a timestamp (`toDateString` in the local time zone) is the parameter `dayOf`, and consecutive days differ by one. Time zones and daylight-saving changes are not modelled.
- `Validation.ParseDuration`: fractional durations, which the schema's `z.number()` accepts (1.5 passes), are not modelled: the duration is an `int`.
- `Completion.CompletionLedger.MarkSessionComplete`: a completion's duration is an `int` (`CompletedSession.duration`), so fractional durations are not modelled.
- `Completion.Latest`: completion times are integer milliseconds, not ISO strings. Malformed timestamps (which sort as `NaN`) are not modelled.
- `Validation.ParseEmail`: checks only the length bound. The e-mail format check belongs to the schema library and is not modelled.
- `Validation.Message`: its contract states only that every message is non-empty, not its text. The text is in the function body and is checked for the title in `Validation.BlankTitleExample`.
- `Validation.Trim`: lengths count characters, not UTF-16 code units, so characters outside the Basic Multilingual Plane count once.
- `Browse.Lower`: lower-cases ASCII letters only. Unicode case mapping is not modelled.
- `CreateSessionForm.DurationOr`: takes the result of `parseInt` as given (`None` for `NaN`). The text parsing of `parseInt` itself is not modelled.
- `VideoModal.View`: a session's missing `videoUrl` is modelled as the empty string, which renders the same.
- Floating-point percentages, the theme, routing, the other pages and components, `src/contexts/AuthContext.tsx` and the profile editing dialog. These files are not part of this model.
