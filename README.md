# snappp bookkeeping, modelled in Dafny

snappp tracks the Snapchat scores of a list of users. It has two parts:

- **A Chrome extension.**
  - Its content script holds a per-user history of readings and alerts, and answers popup messages.
  - Its background worker trims and ages that history and raises notifications.
  - Its popup keeps a local mirror of the tracked-user list.
- **A desktop application** (Python).
  - Browser automation reads a score from a profile page.
  - An SQLite store keeps users and readings and derives changes, stats and suspicious activity.
  - A dashboard classifies and orders that data.
  - The main window holds the tracked-user list and runs the polling loop.

This project models the bookkeeping around the scraper. The scraping itself is modelled only by its outcomes.

## Modules

| module | file | models |
|---|---|---|
| Base | base.dfy | Option, `LastN` (`slice(-n)`), `Take`, `Filter`, subsequences, `RemoveFirst`, `ConcatMap` |
| Text | text.dfy | ASCII digits and decimal values, number formatting, Python's `strip`, `split` |
| Sorting | sorting.dfy | stable sorts by an integer key (newest first / oldest first), lexicographic string sort |
| ExtensionData | extension_data.dfy | the extension's score entries, alerts and per-user records |
| Content | content.dfy | chrome-extension/js/content.js: the parsers and the `SnapchatTracker` store (class `Tracker`) |
| Background | background.dfy | chrome-extension/js/background.js: `cleanupOldData`, notification priority, message dispatch |
| Popup | popup.dfy | chrome-extension/js/popup.js: the `TrackerPopup` mirror (class `TrackerPopup`) |
| Database | database.dfy | src/database.py: `DatabaseManager` over two in-memory tables, with its queries as functions |
| Automation | automation.dfy | src/automation.py: the score parsers and the `_extract_score` / `get_user_score` cascades |
| Dashboard | dashboard.dfy | src/ui/dashboard.py: time ranges, alert levels and tags, the alert list, the stats cell, graph points |
| MainApp | main_app.dfy | main.py: the tracked-user list, the start/stop rules and the polling loop (class `SnapchatTracker`) |

## Modelling conventions

- **Timestamps** are integers: milliseconds in the extension, seconds in the database. The current time is a parameter `now`. `datetime('now', '-N hours')` becomes `now - N * 3600` for N >= 0. For a negative N the modifier reads `'--N hours'`, which SQLite rejects, so the cut-off is NULL and no row passes `timestamp >= NULL`.
- **Answers from other components become parameters.** A popup operation takes `ok`, which stands for `response && response.success`. A failed `getStatus` is `None`.
- **Scraper steps.** For the scraper, each step's outcome is an input. `Step<T>` is either "returned this value" or "raised".
- **Regular expressions.** Their matches are inputs: the first capture of each text pattern, or all captures of each HTML pattern. The model applies the code's guards and range filters to them. The content script's `/\d{3,8}/g` is simple enough to be modelled directly (`DigitMatches`).
- **Object key order.** JavaScript's `for … in` visits an object's array-index keys first (canonical numerals below 2^32 - 1, in ascending value) and then its other keys in creation order. The content-script store keeps the creation order in `keyOrder` and enumerates `ForInOrder(keyOrder)`.
- **The polling loop** runs beside a user interface that can clear `is_tracking` at any time. It is modelled as one sequential run against two oracles:
  - `stopAt` is the number of reads of the flag that see true. Every later read sees false.
  - `fetch` is the sequence of `get_user_score` answers, in call order.

  The result is a log of cycles. For each cycle it records the users checked, their answers, whether the wait began, and how many one-second ticks passed.

## Model

| member | source | states |
|---|---|---|
| Content.ParseScore | chrome-extension/js/content.js:402-412 | a score exists iff the text has 3 to 8 digits once non-digits are removed; the score is the decimal value of those digits, below 10^8 (empty text gives none) |
| Content.ExtractNumbers | chrome-extension/js/content.js:414-418 | every extracted number is below 10^8 |
| Content.DigitMatchesSlices | chrome-extension/js/content.js:416 | each match of `/\d{3,8}/g` is the slice of the text at its start, and the matches run left to right without overlapping |
| Content.DigitMatchesEmpty | chrome-extension/js/content.js:416 | the pattern matches nothing iff the text has no three digits in a row |
| Content.ExtractNumbersSpec | chrome-extension/js/content.js:414-418 | no number iff the text has no three digits in a row; the k-th number is the decimal value of the k-th run of 3 to 8 digits, the runs taken left to right without overlap |
| Content.DigitMatchesGreedy | chrome-extension/js/content.js:416 | the matching is greedy and skips nothing: each run stops at 8 digits or at a non-digit (or the end), and no three digits in a row lie before the first run, between two runs or after the last |
| Content.ExtractNumbersOfNumeral | chrome-extension/js/content.js:402-418 | on a numeral of 3 to 8 digits both parsers return exactly its value |
| Content.ProfileAreaScore | chrome-extension/js/content.js:365-377 | returns an extracted number in [100, 10^7]; returns none iff no extracted number lies in that range |
| Content.PreviousScore | chrome-extension/js/content.js:450-452 | none iff the history is empty, otherwise the last entry's score |
| Content.NewAlert | chrome-extension/js/content.js:466-496 | an alert is raised iff there was a previous score and the new score exceeds it; its increase is new minus previous; it is suspicious iff there is no new snap; it is stamped at `now` |
| Content.NewAlertSuspicious | chrome-extension/js/content.js:466-480 | a suspicious alert is raised exactly for an increase over a non-empty history without a new snap |
| Content.StoredHistory | chrome-extension/js/content.js:455-465 | after a reading, the history is non-empty, ends with the reading, has at most 100 entries, and is a suffix of the old history plus the reading |
| Content.UpdateRecord | chrome-extension/js/content.js:448-501 | the new record's readings are the last 100 of old plus new; its alerts are the last 50 of the old alerts plus the alert the reading raises |
| Content.AllAlertsFrom | chrome-extension/js/content.js:521-525 | every merged alert comes from some user's alert list |
| Content.RecentAlerts | chrome-extension/js/content.js:520-531 | min(n, 20) of the n merged alerts, newest first, none more often than it was merged, each from some user's list; any merged alert left out is no newer than every alert returned |
| Content.ForInOrderSpec | chrome-extension/js/content.js:522 | `for … in` visits every key exactly once: array-index keys first, ascending by value, then the other keys in creation order |
| Content.Tracker.constructor | chrome-extension/js/content.js:5-11 | not tracking, with no users and no records |
| Content.Tracker.Restored | chrome-extension/js/content.js:5-22 | the constructor followed by `initializeTracker` with a stored flag: tracking iff the flag was set, yet no timer, since the `startTracking` call returns at its first line; no users and no records |
| Content.ReloadWhileTracking | chrome-extension/js/content.js:13-22 | after a reload with tracking stored on and a later `startTracking` message, the tracker is tracking with no timer installed |
| Content.Tracker.StartTracking | chrome-extension/js/content.js:109-124 | starts iff it was not tracking, and then installs the timer; otherwise the timer is as before; afterwards it is tracking; users and records unchanged |
| Content.Tracker.StopTracking | chrome-extension/js/content.js:126-139 | stops iff it was tracking; afterwards it is not tracking and has no timer; users and records unchanged |
| Content.Tracker.AddUser | chrome-extension/js/content.js:141-161 | no change for an empty or already tracked name; otherwise the name is appended, and it gets an empty record (and a key) only when the store has neither its own record nor an inherited `Object.prototype` property of that name |
| Content.Tracker.RemoveUser | chrome-extension/js/content.js:163-170 | the first occurrence of the name goes (no change when absent); the name is absent afterwards and every other name keeps its membership; the records are unchanged |
| Content.Tracker.ClearUsers | chrome-extension/js/content.js:172-177 | both the user list and the records are emptied |
| Content.Tracker.ClearAlerts | chrome-extension/js/content.js:179-185 | every record keeps its readings and has no alerts; the keys and the user list are unchanged |
| Content.Tracker.StoreScoreData | chrome-extension/js/content.js:443-504 | stores iff the user has a record or is not an inherited property name, and otherwise changes nothing (the source throws); when it stores, the record becomes its update, created empty first if missing, and a new key is appended to the key order; every other record is unchanged |
| Content.Tracker.GetRecentAlerts | chrome-extension/js/content.js:520-531 | at most 20 alerts, newest first, each from some stored record; users are merged in `for … in` order (`ForInOrder`) |
| Content.Tracker.HandleMessage | chrome-extension/js/content.js:63-107 | an error response iff the action is unknown, and then nothing changes; `getStatus` reports the current state and the recent alerts and changes nothing; each of the six other actions leaves exactly the new state of its operation |
| Background.CleanupOldData | chrome-extension/js/background.js:85-117 | the same usernames; each record becomes its cleaned form, with at most 100 readings and 50 alerts |
| Background.CleanUserBounds | chrome-extension/js/background.js:96-103 | a cleaned record has at most 100 readings and at most 50 alerts |
| Background.CleanUserRecent | chrome-extension/js/background.js:90-116 | every remaining reading and alert is newer than `now` minus 30 days |
| Background.CleanUserSurvivors | chrome-extension/js/background.js:96-116 | the kept lists are order-preserving subsequences of the originals; a reading or alert survives iff it is among the last 100 (50 for alerts) and newer than the cut-off, with its multiplicity kept |
| Background.CleanUserIdempotent | chrome-extension/js/background.js:96-116 | cleaning a cleaned record again with the same `now` changes nothing |
| Background.CleanupIdempotent | chrome-extension/js/background.js:92-117 | a second cleanup of the whole store with the same `now` changes nothing |
| Background.Priority | chrome-extension/js/background.js:56 | priority 2 iff the type is `suspicious`, otherwise 1 |
| Background.HandleMessage | chrome-extension/js/background.js:24-46 | an error response, with the message `Unknown action`, iff the action is not one of the three known ones; the storage data iff the action is `getStorageData`; success iff it is `showNotification` or `setStorageData`; a notification is produced iff the action is `showNotification`, with the request's title and message and priority 2 iff the type is `suspicious` |
| Popup.Without | chrome-extension/js/popup.js:220-221 | every occurrence of the name is gone; every other name keeps its membership and multiplicity, in order |
| Popup.WithoutAdded | chrome-extension/js/popup.js:116-126 | removing a name that was just added to a list without it restores the list |
| Popup.RenderedAlerts | chrome-extension/js/popup.js:242 | the first min(n, 10) alerts |
| Popup.LatestScore | chrome-extension/js/popup.js:198-200 | 'Unknown' (none) iff there is no record or no reading; otherwise the last reading's score |
| Popup.TrackerPopup.constructor | chrome-extension/js/popup.js:4-10 | not tracking, with empty lists and an empty input box |
| Popup.TrackerPopup.LoadStatus | chrome-extension/js/popup.js:49-63 | a successful answer replaces the four mirrored fields; a failed one leaves them |
| Popup.TrackerPopup.ToggleTracking | chrome-extension/js/popup.js:94-102 | asks to stop when tracking and to start otherwise; the flag flips iff the answer is a success |
| Popup.TrackerPopup.AddUser | chrome-extension/js/popup.js:104-127 | an empty trimmed input sends nothing; an already listed name sends nothing and clears the input; otherwise the name is sent and, on success only, appended exactly once and the input cleared |
| Popup.TrackerPopup.RemoveUser | chrome-extension/js/popup.js:214-226 | on success every occurrence of the name and its record are removed; on failure nothing changes |
| Popup.TrackerPopup.ClearUsers | chrome-extension/js/popup.js:129-142 | sends iff the list is non-empty and the user confirms; on success both the list and the records are empty, otherwise both are unchanged |
| Popup.TrackerPopup.ClearAlerts | chrome-extension/js/popup.js:144-154 | sends iff there are alerts; on success the alerts are empty, otherwise unchanged |
| Database.Usernames | src/database.py:20 | the username column, row by row |
| Database.UserIdOf | src/database.py:55-61 | none iff no row has the name; otherwise the id of a row with that name |
| Database.DatabaseManager.constructor | src/database.py:11-41 | both tables empty; the table invariants hold |
| Database.DatabaseManager.AddUser | src/database.py:43-53 | true iff the name was absent, and then exactly one row with the next id is appended; the name is present afterwards; usernames stay unique; readings unchanged |
| Database.DatabaseManager.AddScoreEntry | src/database.py:63-84 | a missing user is created first; then exactly one reading for that user's id is appended |
| Database.DatabaseManager.CleanupOldData | src/database.py:205-214 | for `days` >= 0 exactly the readings at or after the cut-off are kept and the count returned is the number deleted; for a negative `days` the cut-off is NULL and nothing is deleted; users untouched |
| Database.FilterIdsAscending | src/database.py:205-214 | deleting readings keeps the remaining ids ascending, so the primary-key order the `MAX(id)` subquery relies on survives a cleanup |
| Database.CleanupKeeps | src/database.py:205-214 | a reading is kept iff it is at or after the cut-off; kept plus deleted is the old table size |
| Database.UserScoresSpec | src/database.py:86-109 | nothing for an unknown user; otherwise min(limit, n) of the user's n readings (all n for a negative limit, as a permutation), newest first, none more often than stored, none older than a reading left out |
| Database.LatestBefore | src/database.py:124-138 | the predecessor is a reading of the same user strictly earlier, with the largest id among those; none iff no such reading exists |
| Database.ChangeFor | src/database.py:124-146 | a change exists iff there is a predecessor with a smaller score; it carries the reading's time, score and snap flag and the difference |
| Database.ChangesOf | src/database.py:140-148 | at most one change per row, all strictly positive |
| Database.ChangesOfCollect | src/database.py:140-148 | the row loop collects, in order, the change of each row that has one |
| Database.ChangesOfMembership | src/database.py:140-148 | a change is listed iff some row gives it |
| Database.ChangesOfSorted | src/database.py:140-148 | changes of rows ordered by time are ordered by time |
| Database.WindowRowOf | src/database.py:124-138 | a row is fetched iff it is the user's and inside the window |
| Database.WindowChangesMembership | src/database.py:116-150 | the window's changes are exactly the changes of the user's readings inside the window |
| Database.ScoreChangesSpec | src/database.py:116-150 | nothing for an unknown user and nothing for a negative `hours` (NULL cut-off); oldest first; every change positive; a change is reported iff `hours` >= 0 and some reading of the user in the window has a predecessor with a smaller score |
| Database.CollectChanges | src/database.py:140-148 | the loop over the fetched rows yields the changes of those rows |
| Database.RowChange | src/database.py:141-146 | one row's change against its predecessor |
| Database.DatabaseManager.GetScoreChanges | src/database.py:116-150 | equals the changes of the user's window, and nothing for an unknown user or a negative `hours` (see ScoreChangesSpec) |
| Database.AllUsersSpec | src/database.py:152-157 | usernames in ascending order, each row's name exactly once |
| Database.SumPositive | src/database.py:175-176 | a sum of positive changes is at least their count |
| Database.UserStatsSpec | src/database.py:159-187 | empty iff the user has no reading. Otherwise: the current score, time and snap flag are those of the newest reading; `changes_today` and `total_change_today` are the count and sum of the 24-hour changes (the sum is zero iff the count is); the daily change is newest minus oldest of the fetched readings |
| Database.FetchedNonEmpty | src/database.py:161-163 | with a positive limit, readings are fetched iff the user has a reading |
| Database.FetchedNewest | src/database.py:165 | the first fetched reading is one of the user's own and the newest of them |
| Database.SuspiciousOfMembership | src/database.py:223-230 | a record is listed iff some change has no new snap and a positive increase |
| Database.GatheredSuspiciousFrom | src/database.py:220-230 | every gathered record comes from some tracked user's change without a new snap |
| Database.GatheredSuspiciousTo | src/database.py:220-230 | every tracked user's change without a new snap is gathered |
| Database.AppendSuspicious | src/database.py:223-230 | the inner loop appends exactly one user's suspicious records |
| Database.SuspiciousActivitySpec | src/database.py:216-231 | newest first; a permutation of the gathered records; a record is listed iff some user has a change in the window without a new snap |
| Database.DatabaseManager.GetSuspiciousActivity | src/database.py:216-231 | equals the suspicious activity of the tables (see SuspiciousActivitySpec) |
| Automation.ParsePyScore | src/automation.py:339-353 | a score exists iff the text has 1 to 7 digits once non-digits are removed; the score is their decimal value, in [0, 9999999] |
| Automation.CaptureValue | src/automation.py:373-374 | a capture converts iff it is a non-empty run of digits, to its decimal value |
| Automation.FirstPatternScore | src/automation.py:367-378 | none iff no pattern's capture is in range; otherwise the value of the first pattern whose capture converts and lies in [100, 10^7] |
| Automation.ParseScoreFromText | src/automation.py:355-378 | none for empty text or text over 100 characters; otherwise the first in-range capture; always in [100, 10^7] |
| Automation.FirstAcceptable | src/automation.py:390-400 | none iff no capture is acceptable; otherwise the value of the first acceptable capture, every earlier one unacceptable; the result is in range |
| Automation.FirstAcceptableAppend | src/automation.py:390-400 | scanning two lists of captures in turn gives the first list's hit if any, else the second's |
| Automation.ParseScoreFromHtmlFirst | src/automation.py:380-402 | the nested scan equals one scan of all captures in pattern order: none iff no capture is acceptable, otherwise the value of the first acceptable one |
| Automation.ParseScoreFromHtml | src/automation.py:380-402 | none iff no pattern has an acceptable capture; otherwise the first acceptable capture of the first pattern that has one, every earlier pattern having none; in [100, 10^7] |
| Automation.ElementsScore | src/automation.py:296-303 | a score is the parse of the first displayed element whose text parses, with every earlier element hidden or unparsable; none only when no element parses before an element that raises; in [0, 9999999] |
| Automation.SelectorsScore | src/automation.py:293-305 | none iff no selector yields a score; otherwise the score of the first selector that yields one, every earlier selector yielding none; in [0, 9999999] |
| Automation.TextScore | src/automation.py:307-322 | none iff no element gives a text score; otherwise the score of the first element that gives one, every earlier one giving none; in [100, 10^7] |
| Automation.TextElementScore | src/automation.py:309-318 | an element gives nothing iff it is hidden, raises, or its stripped text does not parse; otherwise it gives the text parser's result on its stripped text, in range |
| Automation.ScanElements | src/automation.py:296-303 | the element loop with its early exits computes `ElementsScore` |
| Automation.ScanSelectors | src/automation.py:293-305 | the selector loop computes `SelectorsScore` |
| Automation.ScanTexts | src/automation.py:307-322 | the text-element loop computes `TextScore` |
| Automation.Cascade | src/automation.py:293-333 | the first strategy with a result wins; none iff all three fail |
| Automation.ExtractScore | src/automation.py:277-337 | the loops and early returns compute the cascade of the three strategies; a lookup that raises counts as a failed strategy |
| Automation.GetUserScore | src/automation.py:87-129 | a record iff search and open succeed, a score is extracted, the snap check returns and nothing raises; the record carries the score, the snap flag and `now` |
| Dashboard.ParseTimeRange | src/ui/dashboard.py:488-496 | 1h, 6h, 24h, 7d, 30d map to 1, 6, 24, 168, 720 hours; any other string maps to 24 |
| Dashboard.LevelOf | src/ui/dashboard.py:456-465 | HIGH iff the increase is at least 50; MEDIUM iff it is in [20, 50); LOW iff it is below 20 |
| Dashboard.LevelMonotone | src/ui/dashboard.py:456-465 | a larger increase never has a lower level |
| Dashboard.AlertTag | src/ui/dashboard.py:326-331 | "warning" iff there is no new snap, "normal" iff there is one |
| Dashboard.AlertsOfMembership | src/ui/dashboard.py:313-336 | one user's alerts are exactly their changes, each tagged by its snap flag |
| Dashboard.AllDashAlertsFrom | src/ui/dashboard.py:313-336 | every collected alert is a 24-hour change of some user, tagged by its snap flag |
| Dashboard.AllDashAlertsTo | src/ui/dashboard.py:313-336 | every 24-hour change of every user is collected as an alert |
| Dashboard.AllDashAlertsMembership | src/ui/dashboard.py:309-336 | an alert is collected iff it is a 24-hour change of some user, tagged by its snap flag |
| Dashboard.TakeNewest | src/ui/dashboard.py:340-349 | after a newest-first sort, an alert cut off by the cap is no newer than any alert kept |
| Dashboard.ShownAlertsTaken | src/ui/dashboard.py:340-349 | sorting newest first and keeping 50 keeps min(n, 50) alerts, sorted, none more often than before |
| Dashboard.ShownAlertsSpec | src/ui/dashboard.py:309-349 | min(n, 50) of the n collected alerts, newest first, none more often than collected, each from a user's 24-hour change; an alert cut off is no newer than any shown |
| Dashboard.AppendAlerts | src/ui/dashboard.py:315-336 | the inner loop appends exactly one user's alerts |
| Dashboard.UpdateAlerts | src/ui/dashboard.py:309-349 | the list built by the loops is the shown alert list (see ShownAlertsSpec) |
| Dashboard.LastChangeLabel | src/ui/dashboard.py:396-401 | the cell is never empty |
| Dashboard.LastChangeLabelSpec | src/ui/dashboard.py:396-401 | a leading "+" iff the last change is positive; "0" with fewer than two readings; the cell reads back as the newest score minus the second newest |
| Dashboard.PointsSinceMembership | src/ui/dashboard.py:248-260 | a point is kept iff its reading is at or after the cut-off |
| Dashboard.PlottedPointsSpec | src/ui/dashboard.py:241-267 | the plotted points are sorted by time, a permutation of the filtered points, and a point is plotted iff it is a fetched reading at or after `now` minus the range |
| Dashboard.PlotPoints | src/ui/dashboard.py:241-267 | the points the loop builds are the plotted points (see PlottedPointsSpec) |
| MainApp.NonEmptyMappedMembership | main.py:195 | a name survives iff it is non-empty and is the stripped form of some line |
| Text.TrimEnds | main.py:195 | stripped text has no whitespace at either end |
| Text.TrimFactor | main.py:195 | stripped text is the contiguous part of the input that starts after the leading whitespace |
| Text.TrimSpec | main.py:195 | everything stripping removes, before and after what is left, is whitespace |
| MainApp.TrimmedLine | main.py:195 | a stripped non-empty line has no blank at either end and no newline |
| MainApp.InputNamesSpec | main.py:194-195 | the names are exactly the non-empty stripped lines of the stripped text; none has a blank at an end or a newline |
| MainApp.NewNamesSpec | main.py:197-203 | the appended names keep the list duplicate-free; every appended name was new and requested; afterwards a name is tracked iff it was tracked or requested |
| MainApp.NewNamesSnoc | main.py:198-201 | one more typed name is appended iff it is neither tracked nor among the names appended before it |
| MainApp.UsernamesSnoc | src/database.py:43-50 | adding a user row adds its name at the end of the username column |
| MainApp.LogShapeSnoc | main.py:261-300 | a log whose earlier cycles are all full stays well-shaped when a cycle that checks a prefix of the list is added |
| MainApp.UserIdOfExtend | src/database.py:55-61 | rows appended to the user table do not change the id of a user already in it |
| MainApp.FiledUnderExtend | main.py:276-280 | rows filed under their users stay so when the user table grows |
| MainApp.FiledUnderAppend | main.py:272-280 | two batches of filed rows, one after the other, file the concatenated answers |
| MainApp.SnapchatTracker.StoreAnswer | main.py:276-280 | one appended row carries the answer and is filed under the answer's user; the user table only grows |
| MainApp.SnapchatTracker.constructor | main.py:19-38 | not tracking, no automation, an interval of 300 seconds, and the tracked list loaded from the database's users in ascending order |
| MainApp.SnapchatTracker.SetupBrowser | main.py:130-143 | automation is available afterwards iff it was before or this setup succeeded; nothing else changes |
| MainApp.SnapchatTracker.AddName | main.py:198-202 | a name is appended (and added to the database) iff it was not tracked |
| MainApp.SnapchatTracker.AddNames | main.py:197-203 | the list becomes the old list plus the new names; the count is their number; the database's usernames grow by exactly those; readings unchanged |
| MainApp.SnapchatTracker.AddUsers | main.py:193-207 | the names of the input text are added: the old list stays a prefix, no duplicates appear, the count equals the names appended |
| MainApp.SnapchatTracker.RemoveUser | main.py:212-224 | with a selection and a confirmation, the first occurrence of the selected name goes (the selected row); otherwise nothing changes |
| MainApp.SnapchatTracker.ToggleTracking | main.py:226-257 | tracking afterwards iff it was stopped, automation exists and the list is non-empty; on start the interval is minutes × 60 |
| MainApp.SnapchatTracker.CheckUsers | main.py:265-290 | users are checked in list order, one flag read each; a shorter pass means the flag turned false; one row is appended per answer, in order, carrying that answer and filed under the checked user's id; the pass makes one fetch per user, and the j-th answer is the fetch oracle's answer to call `calls0 + j` |
| MainApp.SnapchatTracker.Wait | main.py:297-300 | at most `tracking_interval` ticks; fewer only when the flag turned false |
| MainApp.SnapchatTracker.RunCycle | main.py:261-300 | one cycle checks a prefix of the list, waits only after checking everyone, is full while the flag stays true, and files each answer under the user checked; its answers are the oracle's next answers in call order |
| MainApp.SnapchatTracker.TrackingLoop | main.py:259-304 | the loop reads the flag exactly as often as it sees true; every cycle but the last is full, every cycle checks a prefix of the list in order, and the appended rows are the answers, in order, each filed under the id of the user it was fetched for; the fetch count it returns is the number of checks, and the checks of all cycles, in order, carry the oracle's answers in call order |
| MainApp.AllChecksSnoc | main.py:265-290 | a cycle's checks follow those of the earlier cycles in the log, and if each answers the oracle in call order so does the whole log |

## Left out

- DOM and Selenium strategies. This covers `searchForUser`, `findAndClickUser`, `isClickable`, `checkForNewSnap`, the DOM lookups of `extractScoreFromPage`, and `setup_driver`, `_verify_login`, `_search_user`, `_open_user_profile`, `_find_clickable_parent`, `_check_new_snap` and `_go_back_to_main`. They drive a browser; only their outcomes enter the model, as parameters.
- The regular-expression engine of `_parse_score_from_text` and `_parse_score_from_html`: its captures are inputs.
- Unicode: Python's `\d`/`\D` accept all Unicode digits; the model's digits are the ASCII ones.
- Text.Trim: strips only the six ASCII blanks (space, tab, line feed, vertical tab, form feed, carriage return). Python's `str.strip` also removes U+001C to U+001F, U+0085 and the Unicode spaces; JavaScript's `trim` also removes U+00A0, U+FEFF, U+2028, U+2029 and the other Unicode space separators. Names and element texts that begin or end with those characters are trimmed less than in the source.
- Content.Tracker.Restored: of what `loadSettings` loads, only the tracking flag is modelled. The restored user list and records are left out, because their key order after a round trip through `chrome.storage` is the storage's own. The model keeps the reachable state it produces: tracking with no timer, so `Valid` claims only that a timer implies tracking.
- Storage, messaging and notifications. This covers `chrome.storage`, `chrome.runtime`/`chrome.tabs` messages, the rest of `loadSettings`, `saveSettings`, `getStorageData`/`setStorageData`, the notification calls, message boxes, the status line, and every tkinter, matplotlib and DOM widget.
- Timers, threads and sleeps, and the time they take: `setInterval`, `root.after`, `time.sleep`, random typing delays. The content script's automatic checks (`checkAllUsers`, `checkUserScore`) are not modelled either: they are DOM-driven and exist only for those timers.
- `get_latest_score` and `export_data` in src/database.py, and `export_data` in main.py. They are not part of the modelled core.
- Content.ExtractNumbers: its own contract gives only the bound; what the numbers are, read from the text, is stated by `ExtractNumbersSpec`, and that the runs are the greedy leftmost ones by `DigitMatchesGreedy`.
- Content.ProfileAreaScore: models strategy 2 for one profile container only. The earlier selectors of that strategy are DOM lookups.
- Content.Tracker.StoreScoreData: the timestamp is the parameter `now`, in place of `Date.now()`. The notification for a suspicious alert is left out.
- Background.CleanupOldData: works on the store's value as loaded. Loading, saving and the error log are left out. Records without a `scores` or `alerts` field do not arise in the model.
- Database.DatabaseManager.AddScoreEntry: the reading's timestamp is `now`, in place of SQLite's `CURRENT_TIMESTAMP`. Its second lookup of the user id cannot fail once the user exists, so its `False` branch is not modelled. The result is always true.
- Database.UserScoresSpec: rows with equal timestamps come in table order. SQLite leaves their order unspecified.
- Database.ScoreChangesSpec: `ORDER BY s1.timestamp` leaves the order of readings with equal timestamps unspecified; the model takes them in table order.
- Database.DatabaseManager.constructor: models a fresh database. With an existing file, `CREATE TABLE IF NOT EXISTS` keeps the rows already stored; that starting state is not modelled.
- Database.DatabaseManager.AddUser and Database.DatabaseManager.AddScoreEntry: the `sqlite3.Error` branches that return `False` for a failing database are not modelled; `AddUser`'s `False` is the duplicate-name case only.
- MainApp.SnapchatTracker.TrackingLoop: the interface thread may change `tracked_users` while the loop enumerates it; the model reads the list as fixed for the run.
- Popup.LatestScore: for an `Object.prototype` property name with no record of its own, the source throws while rendering; the model gives none.
- The dashboard's timestamp strings, `fromisoformat`/`strptime`, and their parse errors. Timestamps are integers, and the dashboard's local "now" and the database's UTC times are taken to be one clock.
- The dashboard's alert text and its `%m/%d %H:%M` formatting; only the tag, user, change and time of an alert are modelled.
- MainApp.SnapchatTracker.RemoveUser: the listbox mirrors `tracked_users`, so the selection is an index into that list.
- MainApp.SnapchatTracker.SetupBrowser: closing the previous automation is not modelled.
- MainApp.SnapchatTracker.ToggleTracking: the interval box is an integer parameter. A non-numeric entry raises in the source, and that case is not modelled.
- MainApp.SnapchatTracker.TrackingLoop: the flag is an oracle that reads true a fixed number of times and false after that. It does not model a restart that begins a second loop thread before the old one sees the stop. It also leaves out the exception branch of the loop and its one-minute retry. Each stored reading's time is its answer's timestamp.
