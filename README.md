# Today's Challenge: the client-side state rules in Dafny

"Today's Challenge" is a small React app. Each day the user picks one of
five challenge categories: fortune, economics, health, quiz or
conversation. The app fetches that day's content from a generative
service, caches it for the session, and records the completion in an
activity ledger kept in local storage. A history page lists the ledger
seven entries per page, highlights completed days on a calendar and ranks
the categories by how often they were done.

This project models the state rules behind that, one Dafny module per
source file:

- `Types` (`types.dfy`): the shared datatypes from `types.ts`.
- `Constants` (`constants.dfy`): the category registry `CATEGORIES` and
  the `CATEGORY_MAP` reduce.
- `DateStrings` and `LogOrder` (`date_strings.dfy`, `log_order.dfy`):
  the `localeCompare` order on date strings, and the stable newest-first
  sort used by the ledger (`contexts/AppContext.tsx:96`) and the history
  page (`pages/MyPage.tsx:175`). Both are written as functions with their order and
  permutation laws.
- `AppContext` (`app_context.dfy`): the ledger.
  - `Complete` is `completeChallenge` on values.
  - The class `AppStore` holds the context's state and performs the same
    update step by step. It scans with `findIndex`, adjusts the counts,
    assigns or pushes into an array, and sorts that array in place. It is
    proved equal to `Complete`.
  - The lemmas state what a completion guarantees.
  - The module also covers the load guard, the gated persist, `setBirthDate`
    and `getTodaysCompletion`.
- `ContentCache` (`content_cache.dfy`): the `useChallengeContent` hook's
  `fetchContent`. The session store is a `map`, and the content service
  is an oracle whose outcome is a parameter.
- `ChallengePage` (`challenge_page.dfy`): the page's rules.
  - the birth-date form and the quiz state machine;
  - the option styling;
  - the completion guard;
  - the day-change tick and the unmount reset.
- `MyPage` (`my_page.dfy`): the history page's arithmetic.
  - the sorted copy, page count, page slices and page moves;
  - the completed-date set and the calendar's day strings;
  - the stats ranking.

The clock is a parameter everywhere (`today`, `clockToday`). The ledger
dates a completion in UTC (`contexts/AppContext.tsx:19`), while the
challenge page computes its date in Asia/Seoul time
(`pages/ChallengePage.tsx:8`). The model keeps the two values separate
(`PageState.HandleComplete` takes the ledger's `ledgerToday`) and models
neither conversion.

Two facts about the code that the model keeps:

- Everything is stored under one fixed key, `todayChallengeApp`, with no
  per-user key.
- Submitting a birth date does not drop cached fortune content.
  `fetchContent` removes only the legacy un-suffixed key, so returning to a
  birth date already used that day is a cache hit.

## Model

| member | source | states |
|---|---|---|
| Types.KeyNameInitials | types.ts:3 | the string names of two different category keys start with different letters |
| Types.KeyNameInjective | types.ts:3 | distinct category keys have distinct string names |
| Constants.ReduceStepAddsOneKey | constants.ts:43-46 | one reduce step adds exactly its category's key, maps it to that category, and leaves every earlier key's entry unchanged |
| Constants.ReducedKeys | constants.ts:43-46 | the keys of the folded map are exactly the keys that occur in the list |
| Constants.ReducedLookup | constants.ts:43-46 | when the keys are distinct, the folded map sends each listed key to its own entry |
| Constants.CategoriesListing | constants.ts:10-41 | `CATEGORIES` has five entries, in the order fortune, economics, health, quiz, conversation; their keys are distinct and cover every `CategoryKey` |
| Constants.CategoryMap | constants.ts:43-46 | `CATEGORY_MAP` is total over `CategoryKey`, each value carries its own key, and `CATEGORY_MAP[c.key] == c` for every listed `c` |
| Constants.BuildCategoryMap | constants.ts:43-46 | the mutating reduce loop builds the folded map, whose keys are exactly those listed |
| DateStrings.LexLessIrreflexive | contexts/AppContext.tsx:96 | no date string sorts strictly before itself |
| DateStrings.LexLessTransitive | contexts/AppContext.tsx:96 | the date-string order is transitive |
| DateStrings.LexLessTotal | contexts/AppContext.tsx:96 | any two different date strings are ordered one way or the other |
| DateStrings.AtLeastTransitive | contexts/AppContext.tsx:96 | "sorts at or after" is transitive, so a newest-first order only needs checking between neighbours |
| LogOrder.InsertDescSorted | contexts/AppContext.tsx:96 | inserting an entry into a newest-first log keeps it newest first |
| LogOrder.SortDescPermutation | contexts/AppContext.tsx:96 | the newest-first sort returns a permutation of its input (same multiset, same length) |
| LogOrder.SortDescSorted | contexts/AppContext.tsx:96 | the sort's result is newest first |
| LogOrder.SortDescOfSorted | contexts/AppContext.tsx:96 | sorting a log that is already newest first leaves it unchanged, because the sort is stable |
| LogOrder.CountBounds | contexts/AppContext.tsx:72 | a count of selected entries is at most the log's length, and it is positive iff some entry is selected |
| LogOrder.CountSortDesc | contexts/AppContext.tsx:96 | sorting keeps, for every date and every category, the number of entries |
| AppContext.FindIndex | contexts/AppContext.tsx:72 | `findIndex` returns the first index dated `today`, or -1 exactly when no entry is dated `today` |
| AppContext.GetTodaysCompletion | contexts/AppContext.tsx:106-109 | returns nothing iff no entry is dated `today`; otherwise returns the first entry dated `today` |
| AppContext.CompleteToday | contexts/AppContext.tsx:66-94 | after a completion, the new entry (today, key, `CATEGORY_MAP[key].name`, content) is in the log. If dates were unique before, exactly one entry is dated `today` and `getTodaysCompletion` returns the new entry |
| AppContext.CompleteLength | contexts/AppContext.tsx:72-94 | the log grows by one if no entry was dated `today`, and otherwise keeps its length |
| AppContext.CompleteKeepsOtherDates | contexts/AppContext.tsx:71-96 | the new log is a permutation of the old log with today's entry swapped for the new one (or the new one added); every entry of another date occurs as often as before |
| AppContext.CompleteSorted | contexts/AppContext.tsx:96 | after a completion the log is newest first |
| AppContext.CompleteStats | contexts/AppContext.tsx:74-81 | the completed category's count rises by one, an absent count reading as 0. The category of a replaced entry of today falls by one, only when its count is nonzero. Re-completing the same category nets zero, and every other count is unchanged |
| AppContext.CompletePreservesInv | contexts/AppContext.tsx:66-103 | a completion keeps dates unique, every count equal to the number of entries of its category, and the log newest first |
| AppContext.ReplayPreservesInv | contexts/AppContext.tsx:66-103 | any sequence of completions keeps the ledger invariant and leaves `userInfo` unchanged |
| AppContext.ReplayFromEmpty | contexts/AppContext.tsx:23-103 | from the empty initial state, after any sequence of completions, dates are unique and each count equals the number of entries of its category (so no count is negative); the log is newest first |
| AppContext.SameDayRecompletion | contexts/AppContext.tsx:74-94 | completing the same category twice on one day leaves one entry for the day, holding the second content, and the counts are as after the first completion |
| AppContext.SameDayMigration | contexts/AppContext.tsx:74-94 | completing one category and then another on the same day moves the day's count from the first category to the second |
| AppContext.LoadAfterPersist | contexts/AppContext.tsx:31-52 | loading what the persist effect wrote gives back the same data |
| AppContext.LoadGuard | contexts/AppContext.tsx:36-38 | a stored `activityLog` that is not an array loads as `[]`, and the other fields load as stored |
| AppContext.InsertIntoPrefix | contexts/AppContext.tsx:96 | one pass of the in-place sort: the array's first `i+1` cells become the stable insertion of `a[i]` into the sorted prefix, and later cells are untouched |
| AppContext.SortInPlace | contexts/AppContext.tsx:96 | the in-place sort leaves the array equal to the stable newest-first sort of its old contents |
| AppContext.FindTodayIndex | contexts/AppContext.tsx:72 | the scan returns the first index dated `today`, or -1 |
| AppContext.PlaceInArray | contexts/AppContext.tsx:71-94 | the working copy holds the old log with the entry assigned at today's index, or pushed at the end when there is none |
| AppContext.AppStore.constructor | contexts/AppContext.tsx:22-27 | the provider starts uninitialised, with empty user info, an empty log and empty stats |
| AppContext.AppStore.Load | contexts/AppContext.tsx:30-46 | loading sets `isInitialized` on every path. Parsed data replaces the state, with a non-array log reset to `[]`; otherwise the state is kept |
| AppContext.AppStore.Persist | contexts/AppContext.tsx:49-57 | the whole state is written under the fixed key only once initialised, a failed write changes nothing, and the state itself is unchanged |
| AppContext.AppStore.SetBirthDate | contexts/AppContext.tsx:59-64 | only `userInfo.birthDate` changes; the log, the stats and the other user fields stay as they were |
| AppContext.AppStore.CompleteChallenge | contexts/AppContext.tsx:66-104 | the step-by-step update produces exactly `Complete` of the old state, so every lemma about `Complete` holds of the store |
| ContentCache.FortuneKeySeparatesBirthDates | hooks/useChallengeContent.ts:37-39 | two fortune keys for the same date are equal iff the birth dates are equal |
| ContentCache.OtherKeysIgnoreBirthDate | hooks/useChallengeContent.ts:37-39 | keys of non-fortune categories do not depend on the user |
| ContentCache.CacheKeysSeparateCategories | hooks/useChallengeContent.ts:37-39 | for the same date and user, two different categories never share a cache key |
| ContentCache.LegacyKeyIsNotCurrent | hooks/useChallengeContent.ts:28-39 | the removed legacy key `challengeCache_<date>_fortune` is never the current fortune key |
| ContentCache.Dispatch | services/geminiService.ts:142-164 | the corrected dispatch agrees with the dispatch as written on every category except conversation, which now gets its fetcher's outcome instead of null |
| ContentCache.ContentLoader.constructor | hooks/useChallengeContent.ts:10-12 | the hook starts with no content, not loading and no error |
| ContentCache.ContentLoader.FetchContent | hooks/useChallengeContent.ts:15-73 | per path, with the service's dispatch as written (so a conversation miss gets null): no category does nothing; fortune without a birth date clears content and error without touching the cache or the service; fortune removes exactly the legacy key; a hit serves the stored content without calling the service; a successful fetch is shown and stored under the key, or, if the session write throws, shown with the retry error and not stored; a null answer or a thrown error (split on "API key") sets the error and writes nothing; `isLoading` ends false |
| ContentCache.RefetchIsCacheHit | hooks/useChallengeContent.ts:43-57 | for a category the service has a fetcher for, right after a fetch that succeeded and was cached, a second call with the same category, date and user is a cache hit: the service is not called and the same content is shown |
| ContentCache.ConversationMissFails | hooks/useChallengeContent.ts:52-61 | as written, a conversation fetch that misses the cache always ends with the load-failed error and the session unchanged, whatever the fetcher would return, so the next fetch misses again |
| ChallengePage.FortuneForm.constructor | pages/ChallengePage.tsx:27-28 | the form is prefilled from the stored birth date and starts submitted iff one is set |
| ChallengePage.FortuneForm.Edit | pages/ChallengePage.tsx:47 | typing replaces the input text and leaves the submitted flag as it was |
| ChallengePage.FortuneForm.HandleSubmit | pages/ChallengePage.tsx:30-38 | exactly eight ASCII digits store the birth date and mark the form submitted; any other input only raises the alert and changes nothing |
| ChallengePage.AcceptedBirthDateIsPresent | pages/ChallengePage.tsx:32-33 | a birth date the form accepts counts as present for the content hook |
| ChallengePage.QuizState.constructor | pages/ChallengePage.tsx:103-104 | the quiz starts with no option selected and not submitted |
| ChallengePage.QuizState.Select | pages/ChallengePage.tsx:128 | clicking an option selects it, except after submission, when nothing changes |
| ChallengePage.QuizState.HandleSubmit | pages/ChallengePage.tsx:106-110 | checking the answer succeeds only with a non-empty option selected |
| ChallengePage.ButtonClass | pages/ChallengePage.tsx:112-117 | neutral iff not submitted; green iff submitted and the option is the answer (even if selected); red iff submitted, not the answer and selected; otherwise dimmed |
| ChallengePage.QuizLooks | pages/ChallengePage.tsx:112-133 | before submission every button is neutral. After it, the green buttons are exactly the occurrences of the answer, the red ones exactly those of a wrong selection, and none is neutral |
| ChallengePage.PageState.constructor | pages/ChallengePage.tsx:184-187 | the page holds the route's category and starts with the clock's date as `today` |
| ChallengePage.PageState.DayTick | pages/ChallengePage.tsx:190-194 | `today` is updated iff the clock's date differs, and afterwards equals it |
| ChallengePage.PageState.HandleComplete | pages/ChallengePage.tsx:211-216 | a completion is recorded (and the page navigates home) iff both the category and the content are present; otherwise the ledger is unchanged |
| ChallengePage.PageState.Unmount | pages/ChallengePage.tsx:200-207 | leaving a fortune page resets the birth date to `''`, which then counts as absent; other pages change nothing |
| MyPage.SortedActivityLog | pages/MyPage.tsx:175 | the sorted copy is a newest-first permutation of the log, equal to the log when that is already newest first |
| MyPage.TotalPages | pages/MyPage.tsx:173-176 | the page count is `ceil(n / 7)`: the fewest pages of seven that hold `n` items, and 0 iff the log is empty |
| MyPage.JsSlice | pages/MyPage.tsx:177-180 | within bounds, `slice(start, end)` is the subsequence `[start, end)`, and it is never longer than the array |
| MyPage.PageItemsWindow | pages/MyPage.tsx:177-180 | page `p` shows the items at indices `[(p-1)*7, p*7)`, cut at the end: at most seven, and at least one on every page up to the page count |
| MyPage.PagesPartition | pages/MyPage.tsx:176-180 | pages `1..totalPages`, concatenated, are exactly the sorted log |
| MyPage.Pager.constructor | pages/MyPage.tsx:172 | paging starts on page 1, which is within bounds for any page count |
| MyPage.Pager.PreviousPage | pages/MyPage.tsx:182-184 | moves back only from a page above 1, and keeps the page within `[1, max(1, totalPages)]` |
| MyPage.Pager.NextPage | pages/MyPage.tsx:186-188 | moves forward only from a page below `totalPages`, and keeps the page within `[1, max(1, totalPages)]` |
| MyPage.CompletedDates | pages/MyPage.tsx:190 | a date is in the completed set iff some log entry carries it |
| MyPage.HighlightedIffLogged | pages/MyPage.tsx:120-121 | a calendar day is highlighted iff some log entry carries its date string |
| MyPage.DayStringIsIsoDate | pages/MyPage.tsx:120 | for four-digit years, the calendar's day string has the log's `YYYY-MM-DD` shape: month and day zero-padded to two digits |
| MyPage.DayStringOrder | pages/MyPage.tsx:120 | for four-digit years, day strings compare lexicographically exactly as the days compare chronologically, and different days get different strings |
| MyPage.RankStats | pages/MyPage.tsx:136-138 | the ranked rows are exactly the entries with a positive count, each as often as listed, largest count first; there are none iff no count is positive |
| MyPage.RankedStatsMatchLedger | pages/MyPage.tsx:136-147 | over a listing of the stats map, category `k` is shown with count `n` iff the ledger counts `n > 0` for `k`; the empty message shows iff every count is 0 |

## Left out

- The UI itself is not modelled: JSX rendering, routing, navigation and the
  browser `alert` are outside the model. Only the state changes and the
  flags returned by the handlers (`alerted`, `navigatedHome`) are modelled.
- Clocks are parameters. `new Date().toISOString()` (UTC) and
  `toLocaleDateString('en-CA', { timeZone: 'Asia/Seoul' })` are not
  modelled, and neither are the one-minute interval or the effect
  scheduling.
- The calendar's `Date` arithmetic is not modelled (`firstDay`,
  `daysInMonth`, `setMonth`): `DayString` takes the year, month and day as
  given.
- `localeCompare` on date strings is modelled as plain lexicographic order.
  This agrees on the ASCII `YYYY-MM-DD` strings the app produces.
- `Array.prototype.sort` is modelled as a stable insertion sort. JavaScript
  only specifies the result of a stable sort, not its algorithm, so the
  proved result is the one the language guarantees.
- Local and session storage are modelled as values, and
  `JSON.stringify`/`JSON.parse` as an identity round trip.
- AppContext.AppStore.Load: a local-storage read that fails or does not parse
  is modelled (`Unparseable`) and only logged, like a failed local-storage
  write in `Persist`. Parsed data is assumed to hold a `userInfo` and a
  `categoryStats` of the right shape, with non-negative integer counts; the
  code guards only `activityLog`.
- ContentCache.ContentLoader.FetchContent: a session-store write that throws
  is modelled (`sessionWriteSucceeds`). Its message is assumed not to mention
  "API key", so it sets the retry error.
- ContentCache.ContentLoader.FetchContent: a session-store read or a
  `JSON.parse` of cached text that throws is not modelled. The cached text is
  always the non-empty JSON the hook wrote, so a hit is a key that is
  present.
- ContentCache.ContentLoader.FetchContent: the legacy-key removal is outside
  the hook's `try`, so a throw there would escape the hook; that case is not
  modelled.
- The content service (`services/geminiService.ts`) is an oracle. Its
  network calls, prompts and schemas are not part of this model. Only its
  dispatch contract is modelled (`DispatchAsWritten`, `Dispatch`).
- The async ordering of concurrent `fetchContent` calls is not modelled.
  Each call runs to completion.
- Route values that are not category keys are not modelled:
  `categoryKey` is a `CategoryKey` or absent.
- ContentCache.ContentLoader.FetchContent: on a null answer or a thrown error, the
  previous `content` is kept, as the code leaves it; the hook does not
  clear it.
- ContentCache.ContentLoader.FetchContent: the fortune key's `no_birthdate` branch is
  modelled, but no call reaches it, because fortune without a birth date
  returns earlier.
- ChallengePage.QuizState.HandleSubmit: the check is JavaScript truthiness, so an
  empty-string option counts as no selection.
- MyPage.Pager.NextPage: takes the page count as computed for the current log.
  A log that shrinks between renders is not modelled.
- MyPage.RankStats: takes any listing of the stats map as its input. The order in
  which `Object.entries` lists the keys is not modelled, and on equal counts
  the ranking keeps that order.
- Authentication, login pages, the Kakao and Google SDKs and the app's
  bootstrapping are not part of this model.

## Findings

The hook model (`ContentLoader.FetchContent`) follows the code and goes
through the dispatch as written. The corrected dispatch is stated and proved
on its own.

| source | as written | input that shows it | evidently intended | confidence | as-written member | corrected member |
|---|---|---|---|---|---|---|
| services/geminiService.ts:142-148, 164 | the fetcher table has an entry `language` and none for the category key `conversation`, so `contentFetchers['conversation']` is undefined and the dispatch answers null | category `conversation` on any date: the hook sets the load-failed error and never shows conversation content | the conversation category reaches its fetcher like every other category | not executed | ContentCache.ConversationNeverFetchedAsWritten | ContentCache.DispatchReachesEveryFetcher |
