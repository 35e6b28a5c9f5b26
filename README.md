# goodjob-front, the sequential rules of the client

goodjob-front is a React single-page client for a job-search service. It lets a user sign in,
bookmark postings, search jobs from the header, track their own applications (status, note,
due date, calendar view), get recommendations for an uploaded CV and read notifications. Most
of the code renders views and calls the backend. Spread through the stores and a few
components, though, are small state machines and list transformations. This project models
those in Dafny and proves what they promise:

- **`Auth`** (`store/authStore.ts`): the token store.
  - The access token, the logged-in flag and `localStorage` as one session value.
  - The persisted snapshot (`partialize`) and rehydration on page load.
  - Logout, forced logout and withdrawal.
  - The class `AuthStore` updates its fields in place, one method per action.
- **`Interceptors`** (`api/axiosInstance.ts`): the shared HTTP client.
  - The bearer header is attached only when a token is present.
  - On a first 401 the request is marked `_retry`, the token is refreshed through the same client, and the request is replayed once.
  - A failed refresh clears the tokens and goes to `/signIn`.
  - The server is a script of answers, one consumed per request sent. An exhausted script ends the run with `Exhausted`. That is the fuel of the model and says nothing about the client.
- **`Bookmarks`** (`store/bookmarkStore.ts`): the optimistic bookmark list.
  - Add appends the job; remove filters it out.
  - Both happen before the request, and the list is resynced from the server when the request fails.
- **`MainHeader`** (`components/common/header/MainHeader.tsx`): the header search box.
  - The search history in `localStorage` is a move-to-front list.
  - A live search needs a query longer than one character.
  - At most eight results are shown.
- **`Manage`** (`pages/index/components/manage/Manage.tsx`): the application list.
  - Sort-column toggling and status-filter toggling.
  - The search/filter/sort effect.
  - The mapping to calendar events.
  - The guard in front of an edit.
- **`ManageItem`** (`pages/index/components/manage/ManageItem.tsx`): one application row.
  - The status colour table and the drop-up placement arithmetic.
  - The note edit/save/cancel state and the mobile due-date text.
- **`CalendarDialog`** (`components/common/dialog/CalendarDialog.tsx`): turns the picked date into `YYYY-MM-DD`, then reports it and closes.
- **`RecommendationCache`** (`store/recommendationCacheStore.ts`): the per-CV recommendation cache and the choice of the newest CV.
- **`Notifications`** (`store/NotificationStore.ts`): the notification list and the batch lookup of the jobs notifications point to.

Shared modules:

| module | holds |
|---|---|
| `Wrappers` | `Option` |
| `Seqs` | filter, count and subsequence facts |
| `Text` | decimal printing and parsing, `join` and `split` |
| `Http` | a call is resolved with a status and data, or rejected; an async action returns or throws |
| `Types` | the record shapes of `types/*.ts` and JavaScript truthiness of an optional string |

Where a source file works by updating state, the model is a class. Its fields are the store's
or component's state, and each method's `ensures` ties the new state to a pure function of the
old one (`Auth.AfterSetTokens`, `ManageItem.AfterNoteSave`, `Interceptors.Dispatch`, ...). The
lemmas are stated about those functions. A method with a loop in the source keeps its loop:
`Notifications.NotificationStore.CollectJobIds` has the `forEach` push loop.

Three behaviours of the code that the model keeps as written:

- Each request answered with a 401 runs its own refresh. Concurrent 401s are not queued behind one refresh.
- A 401 on the refresh request itself goes through the same 401 handling (see Findings).
- The notification store keeps one `notiList`. Every fetch replaces it, whatever notification type it asked for.

## Model

| member | source | states |
|---|---|---|
| Auth.Initial | src/store/authStore.ts:20-21 | a page load starts with no token (`null`) and not logged in, with localStorage as found, so the flag agrees with the token |
| Auth.PartializeOnlyToken | src/store/authStore.ts:69-71 | two sessions persist the same snapshot exactly when their tokens are equal: only `accessToken` is persisted |
| Auth.AfterSet | src/store/authStore.ts:67-71 | `set` through `persist` writes the new fields and rewrites the `user-token` entry with the snapshot; every other key is kept |
| Auth.AfterSetIsLoggedIn | src/store/authStore.ts:22 | sets the flag and keeps the token |
| Auth.AfterSetTokens | src/store/authStore.ts:23 | the token becomes `t`, the flag is `t` truthy, and the snapshot of `t` is persisted |
| Auth.AfterClearTokens | src/store/authStore.ts:24 | token null, flag false, flag consistent |
| Auth.ClearTokensIdempotent | src/store/authStore.ts:24 | clearing twice is clearing once |
| Auth.AfterForceLogout | src/store/authStore.ts:44-51 | token null, flag false; exactly the four logout keys are removed and every other entry is unchanged |
| Auth.AfterLogout | src/store/authStore.ts:26-43 | a rejected POST rethrows with nothing changed; status 200 does the forced-logout cleanup; any other status changes nothing |
| Auth.AfterWithdraw | src/store/authStore.ts:52-65 | token and flag never change; localStorage is emptied exactly on status 200; it throws exactly when the DELETE rejects |
| Auth.AfterRehydrate | src/store/authStore.ts:72-78 | a stored snapshot's token is restored; a truthy token sets the flag, otherwise the flag is kept; storage is not written |
| Auth.ActionsKeepConsistent | src/store/authStore.ts:23-65 | from a consistent state, setTokens, clearTokens, setForceLogout, setLogout and withdraw all leave the flag in agreement with the token |
| Auth.SetIsLoggedInBreaksConsistency | src/store/authStore.ts:22 | `setIsLoggedIn(true)` without a token breaks that agreement |
| Auth.SetTokensSurvivesReload | src/store/authStore.ts:67-78 | persist, reload and rehydrate after `setTokens(t)` give back token `t` with a consistent flag |
| Auth.ForceLogoutSurvivesReload | src/store/authStore.ts:44-51 | after a forced logout a reload starts with no token and logged out |
| Auth.AuthStore.constructor | src/store/authStore.ts:17-21 | the store starts in the initial session over the given localStorage |
| Auth.AuthStore.Set | src/store/authStore.ts:67-71 | the state becomes `AfterSet` of the old state |
| Auth.AuthStore.SetIsLoggedIn | src/store/authStore.ts:22 | the state becomes `AfterSetIsLoggedIn` of the old state |
| Auth.AuthStore.SetTokens | src/store/authStore.ts:23 | the state becomes `AfterSetTokens` of the old state |
| Auth.AuthStore.ClearTokens | src/store/authStore.ts:24 | the state becomes `AfterClearTokens` of the old state |
| Auth.AuthStore.SetForceLogout | src/store/authStore.ts:44-51 | the state becomes `AfterForceLogout` of the old state |
| Auth.AuthStore.SetLogout | src/store/authStore.ts:26-43 | state and settlement are those of `AfterLogout` |
| Auth.AuthStore.Withdraw | src/store/authStore.ts:52-65 | state and settlement are those of `AfterWithdraw` |
| Auth.AuthStore.Rehydrate | src/store/authStore.ts:72-78 | the state becomes `AfterRehydrate` of the old state |
| Interceptors.Attach | src/api/axiosInstance.ts:10-19 | with a truthy token the header becomes `Bearer <token>`; otherwise the config is returned unchanged; target and `_retry` are kept |
| Interceptors.Refreshed | src/api/axiosInstance.ts:34-35 | the refreshed token is stored with `setTokens`; nothing else in the world changes |
| Interceptors.ReplayOf | src/api/axiosInstance.ts:27-37 | the replay is the original target, marked retried, with `Bearer <new token>` |
| Interceptors.SignedOut | src/api/axiosInstance.ts:38-42 | a failed refresh clears the tokens and sets the location to `/signIn` |
| Interceptors.Dispatch | src/api/axiosInstance.ts:10-47 | one request through both interceptors only adds to the log of sent requests and only consumes answers |
| Interceptors.PassThrough | src/api/axiosInstance.ts:22 | a 2xx answer resolves with that response, after one send and no other change |
| Interceptors.NoRefreshWithoutFirst401 | src/api/axiosInstance.ts:45 | a failure that is not a 401, or a 401 on a retried request, is rejected with that very error after one send; no refresh, the session untouched |
| Interceptors.RetriedSentOnce | src/api/axiosInstance.ts:26 | a request already marked retried is sent at most once (exactly once unless the script is exhausted) and changes neither session nor location |
| Interceptors.RefreshThenReplay | src/api/axiosInstance.ts:26-37 | first 401 then a good refresh: the token is stored with `setTokens`, and the request is replayed exactly once, retried, with the new bearer; the replay's result is the call's result |
| Interceptors.RefreshFailureSignsOut | src/api/axiosInstance.ts:38-42 | first 401 then a failed refresh: tokens cleared, location `/signIn`, rejection with the refresh error, no replay |
| Interceptors.RefreshSendsOnlyRefresh | src/api/axiosInstance.ts:29-33 | a refresh dispatch, however deeply nested, sends nothing but refresh requests |
| Interceptors.ReplayedAtMostOnce | src/api/axiosInstance.ts:26-37 | however the refreshes nest, an original request reaches its target at most twice: the first attempt and one replay |
| Interceptors.RefreshNestingUnbounded | src/api/axiosInstance.ts:29-33 | as written: with a refresh endpoint that keeps answering 401, every answer goes to one more nested refresh; the call never settles and the session and location never change |
| Interceptors.DispatchExcludingRefresh | src/api/axiosInstance.ts:26 | corrected dispatch, with the refresh endpoint excluded from refreshing: it only adds to the log and only consumes answers |
| Interceptors.ExcludingRefreshIsBounded | src/api/axiosInstance.ts:26-42 | corrected: one call sends at most three requests and settles whenever three answers are available |
| Interceptors.ExcludingRefreshSignsOut | src/api/axiosInstance.ts:38-42 | corrected: a refresh endpoint answering 401 signs the user out and rejects with the refresh error |
| Interceptors.Client.constructor | src/api/axiosInstance.ts:5-8 | the client is bound to the auth store, with nothing sent yet |
| Interceptors.Client.Request | src/api/axiosInstance.ts:10-47 | the in-place run (header mutation, `_retry`, store writes, location) ends in the world and outcome `Dispatch` computes |
| Bookmarks.FindFirst | src/store/bookmarkStore.ts:24 | `find`: nothing exactly when no job has the id, otherwise the first job with it |
| Bookmarks.FindJob | src/store/bookmarkStore.ts:24 | the job found in `jobList` has the id and comes from the list; a null list finds nothing |
| Bookmarks.OptimisticAdd | src/store/bookmarkStore.ts:23-31 | the list changes exactly when the job is found and no bookmark has its id, and then becomes old (null read as empty) plus the job marked bookmarked |
| Bookmarks.AddMakesBookmarked | src/store/bookmarkStore.ts:24-31 | when the job exists, the id is bookmarked after the add |
| Bookmarks.AddKeepsIdsUnique | src/store/bookmarkStore.ts:26 | adding never creates a duplicate id |
| Bookmarks.AddIdempotent | src/store/bookmarkStore.ts:23-31 | adding twice is adding once |
| Bookmarks.OptimisticRemove | src/store/bookmarkStore.ts:69-74 | no entry with the id remains; every other entry keeps its number of copies; nothing new appears |
| Bookmarks.RemoveKeepsOrder | src/store/bookmarkStore.ts:72-74 | removal distributes over concatenation, so the kept entries keep their order |
| Bookmarks.RemoveIdempotent | src/store/bookmarkStore.ts:72-74 | removing twice is removing once |
| Bookmarks.RemoveAbsentIsNoOp | src/store/bookmarkStore.ts:69-74 | removing an absent id leaves the list (null read as empty) as it was |
| Bookmarks.RemoveUndoesAdd | src/store/bookmarkStore.ts:18-74 | removing an id just added restores the list before the add |
| Bookmarks.BookmarkStore.constructor | src/store/bookmarkStore.ts:16 | the list starts null |
| Bookmarks.BookmarkStore.GetBookmark | src/store/bookmarkStore.ts:47-63 | success stores and returns the server list; failure rethrows with the list unchanged |
| Bookmarks.BookmarkStore.AddBookmark | src/store/bookmarkStore.ts:18-46 | the optimistic list stays when the POST succeeds and its status is returned; on failure the list is resynced (undefined returned) or, if the resync fails too, the error is thrown |
| Bookmarks.BookmarkStore.RemoveBookmark | src/store/bookmarkStore.ts:64-91 | the same for the filtered list and the DELETE |
| MainHeader.ReadHistory | src/components/common/header/MainHeader.tsx:92 | an absent `search-history` entry reads as the empty history |
| MainHeader.SavedHistory | src/components/common/header/MainHeader.tsx:93 | the saved history starts with the query and holds it nowhere else |
| MainHeader.SavedHistoryHoldsQueryOnce | src/components/common/header/MainHeader.tsx:93 | after saving, the query occurs exactly once |
| MainHeader.SavedHistoryKeepsOthers | src/components/common/header/MainHeader.tsx:93 | every other entry keeps its multiplicity, and the rest is a subsequence of the old history (order kept) |
| MainHeader.SavedHistoryLength | src/components/common/header/MainHeader.tsx:93 | new length = old length + 1 - occurrences of the query; no cap |
| MainHeader.SavedHistoryIdempotent | src/components/common/header/MainHeader.tsx:90-96 | saving the same query twice is saving it once |
| MainHeader.SavedHistoryNoDuplicates | src/components/common/header/MainHeader.tsx:90-96 | a duplicate-free history stays duplicate-free |
| MainHeader.DeletedHistory | src/components/common/header/MainHeader.tsx:105 | the query is gone, every other entry keeps its number of copies, and the result is a subsequence of the old history (order kept) |
| MainHeader.DeletedHistoryIdempotent | src/components/common/header/MainHeader.tsx:102-108 | deleting twice is deleting once |
| MainHeader.DeleteUndoesSave | src/components/common/header/MainHeader.tsx:90-108 | deleting a query just saved gives the old history without it |
| MainHeader.DisplayedResults | src/components/common/header/MainHeader.tsx:50 | the shown results are a prefix of the response, of length min(8, size) |
| MainHeader.SearchBox.constructor | src/components/common/header/MainHeader.tsx:14-21 | empty query, no results, not searching, empty history |
| MainHeader.SearchBox.SaveSearchHistory | src/components/common/header/MainHeader.tsx:90-96 | the entry becomes `SavedHistory` of what was stored, one change event is dispatched, nothing else changes |
| MainHeader.SearchBox.GetSearchHistory | src/components/common/header/MainHeader.tsx:98-100 | the shown history becomes the stored one |
| MainHeader.SearchBox.DeleteSearchHistory | src/components/common/header/MainHeader.tsx:102-108 | the entry becomes `DeletedHistory` of what was stored, one change event is dispatched |
| MainHeader.SearchBox.DebouncedSearch | src/components/common/header/MainHeader.tsx:41-58 | an empty query sends nothing; otherwise a response's first eight results are shown, a failure keeps the old ones, and the spinner ends off |
| MainHeader.SearchBox.HandleSearchChange | src/components/common/header/MainHeader.tsx:30-39 | a search is sent exactly when the query's JavaScript length (UTF-16 code units) exceeds one; a shorter one clears the results |
| Text.Utf16Length | src/components/common/header/MainHeader.tsx:33 | the JavaScript `length` of a string lies between its character count and twice it, and equals the count exactly when no character lies above U+FFFF |
| MainHeader.FiresSearchSpec | src/components/common/header/MainHeader.tsx:33 | two or more characters search, none does not, and a single character searches exactly when it lies above U+FFFF |
| Manage.HandleSort | src/pages/index/components/manage/Manage.tsx:51-56 | the field becomes the clicked one; the order is `desc` exactly when the same field was `asc` |
| Manage.HandleSortTwiceRestores | src/pages/index/components/manage/Manage.tsx:54 | clicking the current column twice restores the configuration |
| Manage.HandleSortNewColumn | src/pages/index/components/manage/Manage.tsx:54 | a new column starts ascending, and a second click makes it descending |
| Manage.ToggleStatusFilter | src/pages/index/components/manage/Manage.tsx:58-62 | the status is present afterwards exactly when it was absent; the other statuses are kept; an absent one is appended |
| Manage.ToggleStatusFilterTwice | src/pages/index/components/manage/Manage.tsx:58-62 | toggling twice gives back the same set of statuses, and the same list when the status was absent |
| Manage.ContainsAt | src/pages/index/components/manage/Manage.tsx:75-77 | `includes` holds exactly when the needle occurs at some index |
| Manage.SortBy | src/pages/index/components/manage/Manage.tsx:87-108 | the sort result is ordered by the comparator's key and is a permutation of its input |
| Manage.FilteredSpec | src/pages/index/components/manage/Manage.tsx:68-84 | an application survives exactly when it matches the folded query (empty keeps all) and its status is in the filter (empty keeps all), and then with all its copies; one that fails keeps none |
| Manage.VisibleSpec | src/pages/index/components/manage/Manage.tsx:66-110 | the stored list is a permutation of the filtered one, ascending or descending by the chosen key, a null due date counting as 0 |
| Manage.VisibleWithoutFilters | src/pages/index/components/manage/Manage.tsx:68-84 | with no query and no status filter every application is shown |
| Manage.EventOf | src/pages/index/components/manage/Manage.tsx:243-250 | an event carries the application's id, title, company and status, with start equal to end |
| Manage.EventsOfSpec | src/pages/index/components/manage/Manage.tsx:233-251 | one event per application with a truthy due date, in list order |
| Manage.CalendarEventsSpec | src/pages/index/components/manage/Manage.tsx:232-252 | no events before the first filter run; otherwise each event comes from a filtered application with a due date |
| Manage.ManageView.constructor | src/pages/index/components/manage/Manage.tsx:18-26 | empty query and filter, due-date descending, nothing filtered yet, no store calls |
| Manage.ManageView.SetSort | src/pages/index/components/manage/Manage.tsx:51-56 | the sort becomes `HandleSort` of the old one; nothing else changes |
| Manage.ManageView.ToggleStatus | src/pages/index/components/manage/Manage.tsx:58-62 | the filter becomes `ToggleStatusFilter` of the old one; nothing else changes |
| Manage.ManageView.ApplyFilters | src/pages/index/components/manage/Manage.tsx:65-111 | nothing is computed while the applications are null; otherwise the stored list is `Visible` of the current inputs |
| Manage.ManageView.HandleApplicationEdit | src/pages/index/components/manage/Manage.tsx:38-49 | an untracked job id makes no store call and returns; for a tracked one the edit is requested, a rejected edit is rethrown with no reload, a resolved edit is followed by a reload, whose data replaces the applications or whose rejection is rethrown |
| ManageItem.StatusColor | src/pages/index/components/manage/ManageItem.tsx:38-57 | total; grey exactly for the statuses outside the six coloured ones (`준비중` and any unknown string) |
| ManageItem.StatusColorMatchesTable | src/pages/index/components/manage/ManageItem.tsx:38-57 | the colour is the table's entry, grey for anything else |
| ManageItem.StatusColorsDistinct | src/pages/index/components/manage/ManageItem.tsx:40-53 | the six coloured statuses have pairwise distinct colours |
| ManageItem.DropdownHeight | src/pages/index/components/manage/ManageItem.tsx:88 | the dropdown is at least its 40px frame high |
| ManageItem.DropUpMonotone | src/pages/index/components/manage/ManageItem.tsx:88-89 | more options never turn a drop-up back into a drop-down |
| ManageItem.ActionMenuUpImpliesDropUp | src/pages/index/components/manage/ManageItem.tsx:85-107 | where the 70px actions menu opens upward, any non-empty status dropdown does too |
| ManageItem.SevenOptionsThreshold | src/pages/index/components/manage/ManageItem.tsx:88-89 | with the seven statuses the dropdown opens upward exactly when less than 292px remain below the anchor |
| ManageItem.NoteText | src/pages/index/components/manage/ManageItem.tsx:29 | the job's note when it is truthy, else the empty string |
| ManageItem.InitialRow | src/pages/index/components/manage/ManageItem.tsx:25-31 | a row starts out of edit mode, with the job's note as text and nothing reported |
| ManageItem.AfterNoteEdit | src/pages/index/components/manage/ManageItem.tsx:109-111 | edit mode on, text and reports kept |
| ManageItem.AfterType | src/pages/index/components/manage/ManageItem.tsx:234 | the edited text becomes what was typed |
| ManageItem.AfterNoteSave | src/pages/index/components/manage/ManageItem.tsx:113-116 | edit mode off and one `onNoteChange` with the edited text |
| ManageItem.AfterNoteCancel | src/pages/index/components/manage/ManageItem.tsx:118-121 | edit mode off, text back to the job's note, nothing reported |
| ManageItem.AfterSelectStatus | src/pages/index/components/manage/ManageItem.tsx:212-215 | one `onStatusChange` and the dropdown closed |
| ManageItem.EditTypeSave | src/pages/index/components/manage/ManageItem.tsx:109-116 | edit, type, save reports exactly the typed text |
| ManageItem.EditTypeCancel | src/pages/index/components/manage/ManageItem.tsx:109-121 | edit, type, cancel returns the row to its initial state |
| ManageItem.RowState.constructor | src/pages/index/components/manage/ManageItem.tsx:25-31 | the row state is `InitialRow` |
| ManageItem.RowState.HandleNoteEdit | src/pages/index/components/manage/ManageItem.tsx:109-111 | the state becomes `AfterNoteEdit` of the old one |
| ManageItem.RowState.SetEditedNote | src/pages/index/components/manage/ManageItem.tsx:234 | the state becomes `AfterType` of the old one |
| ManageItem.RowState.HandleNoteSave | src/pages/index/components/manage/ManageItem.tsx:113-116 | the state becomes `AfterNoteSave` of the old one |
| ManageItem.RowState.HandleNoteCancel | src/pages/index/components/manage/ManageItem.tsx:118-121 | the state becomes `AfterNoteCancel` of the old one |
| ManageItem.RowState.SelectStatus | src/pages/index/components/manage/ManageItem.tsx:212-215 | the state becomes `AfterSelectStatus` of the old one |
| ManageItem.RowState.ToggleStatusDropdown | src/pages/index/components/manage/ManageItem.tsx:192-194 | only the dropdown flag flips |
| ManageItem.RowState.ToggleActions | src/pages/index/components/manage/ManageItem.tsx:363 | only the actions-menu flag flips |
| ManageItem.RowState.PlaceStatusDropdown | src/pages/index/components/manage/ManageItem.tsx:85-95 | while the dropdown is open, `dropUp` becomes the placement rule; otherwise nothing changes |
| ManageItem.RowState.PlaceActionsMenu | src/pages/index/components/manage/ManageItem.tsx:97-107 | while the menu is open, `actionMenuUp` becomes the 70px rule; otherwise nothing changes |
| ManageItem.ReplaceDashes | src/pages/index/components/manage/ManageItem.tsx:176 | same length, no `-` left, every other character kept |
| ManageItem.ReplaceDashesAppend | src/pages/index/components/manage/ManageItem.tsx:176 | the replacement distributes over concatenation |
| ManageItem.ReplaceDashesInDate | src/pages/index/components/manage/ManageItem.tsx:176 | `Y-M-D` becomes `Y.M.D` |
| ManageItem.MobileDueDateAsWritten | src/pages/index/components/manage/ManageItem.tsx:172-183 | as written: the due text is shown exactly when there is no real due date |
| ManageItem.MobileDueDateInverted | src/pages/index/components/manage/ManageItem.tsx:172-176 | as written: `2025-06-30` shows the "set due date" button and a null date shows the text ` 마감` |
| ManageItem.MobileDueDate | src/pages/index/components/manage/ManageItem.tsx:172-183 | corrected: the text is shown exactly when there is a real due date, and it is the dotted date followed by ` 마감` |
| ManageItem.MobileDueDateIntended | src/pages/index/components/manage/ManageItem.tsx:285-286 | corrected: like the desktop row, a real due date is shown as text (`Y.M.D 마감`) and a missing one as the button; the code as written does the reverse on every input |
| CalendarDialog.ChosenDate | src/components/common/dialog/CalendarDialog.tsx:24-29 | a single value is used as is; a range uses its first element |
| CalendarDialog.PadStart2 | src/components/common/dialog/CalendarDialog.tsx:33-34 | the padded string has at least two characters |
| CalendarDialog.Pad2Spec | src/components/common/dialog/CalendarDialog.tsx:33-34 | below 10 one leading `0`, from 10 to 99 unchanged; always two digits that read back as the number |
| CalendarDialog.FormatDate | src/components/common/dialog/CalendarDialog.tsx:32-35 | the string has dashes before the last two-digit fields: year, `-`, month, `-`, day |
| CalendarDialog.FormatDateReadsBack | src/components/common/dialog/CalendarDialog.tsx:32-35 | the pieces read back as the year, `getMonth() + 1` and the day |
| CalendarDialog.FormatDateLength | src/components/common/dialog/CalendarDialog.tsx:32-35 | a four-digit year gives a string of length 10 |
| CalendarDialog.FormatDateInjective | src/components/common/dialog/CalendarDialog.tsx:32-35 | distinct dates give distinct strings |
| CalendarDialog.DateString | src/components/common/dialog/CalendarDialog.tsx:23-36 | empty exactly when no date was picked, otherwise the formatted date |
| CalendarDialog.OnChangeCalendar | src/components/common/dialog/CalendarDialog.tsx:22-39 | the value is kept; `onSelectDate` is called with the string, even `''`, and then `toggle`, once each |
| CalendarDialog.OnChangeCalendarReports | src/components/common/dialog/CalendarDialog.tsx:32-38 | distinct picked dates reach the parent as distinct strings |
| RecommendationCache.ReduceLatest | src/store/recommendationCacheStore.ts:34-38 | the reduction returns the seed or a list element, no older than the seed or than any element |
| RecommendationCache.LatestCv | src/store/recommendationCacheStore.ts:34-38 | the chosen CV is one of the list |
| RecommendationCache.ReduceLatestFrom | src/store/recommendationCacheStore.ts:34-38 | continuing the reduction from the first newest of a prefix gives the first newest of the whole list |
| RecommendationCache.LatestCvIsFirstNewest | src/store/recommendationCacheStore.ts:34-38 | the chosen CV has a maximal `uploadedAt`, and on ties it is the earliest listed (strict `>`) |
| RecommendationCache.RecommendationStore.constructor | src/store/recommendationCacheStore.ts:16-17 | nothing selected, empty cache |
| RecommendationCache.RecommendationStore.SetSelectedCVId | src/store/recommendationCacheStore.ts:18 | only the selected id changes |
| RecommendationCache.RecommendationStore.SetRecommendations | src/store/recommendationCacheStore.ts:19-22 | `cache[cvId] = data`; every other key is unchanged; the selected id is untouched |
| RecommendationCache.RecommendationStore.GetSelectedCVId | src/store/recommendationCacheStore.ts:24-45 | with CVs, the newest one's id is stored and returned; an empty list or a failed GET throws with the selection unchanged |
| Notifications.AfterFetchNotiList | src/store/NotificationStore.ts:31-43 | the list becomes the response content; a failed GET leaves it |
| Notifications.LaterFetchWins | src/store/NotificationStore.ts:42 | of two fetches the later successful one decides the list |
| Notifications.JobIds | src/store/NotificationStore.ts:60-66 | at most one id per notification |
| Notifications.JobIdsAppend | src/store/NotificationStore.ts:63-65 | the collected ids of a concatenation are the concatenation of the collected ids (item order) |
| Notifications.JobIdsCount | src/store/NotificationStore.ts:60-66 | each id is collected exactly as many times as there are items whose `jobId` is that number |
| Notifications.JobIdsSpec | src/store/NotificationStore.ts:60-66 | every collected id is some item's numeric id, each id is collected exactly as many times as items carry it, and none are collected exactly when no item has one |
| Notifications.IdStrings | src/store/NotificationStore.ts:69 | each id printed in decimal |
| Notifications.ParseIdStrings | src/store/NotificationStore.ts:69 | parsing the printed ids gives back the ids |
| Notifications.NoCommaInDecimal | src/store/NotificationStore.ts:69 | a printed integer holds no comma |
| Notifications.BatchQueryRoundTrip | src/store/NotificationStore.ts:69 | splitting the joined query at `,` and parsing gives back exactly the ids |
| Notifications.NotificationStore.constructor | src/store/NotificationStore.ts:17-20 | both lists start empty |
| Notifications.NotificationStore.FetchNotiList | src/store/NotificationStore.ts:31-57 | the list becomes `AfterFetchNotiList`; it throws exactly when the GET rejects; the job list is untouched |
| Notifications.NotificationStore.CollectJobIds | src/store/NotificationStore.ts:60-66 | the push loop collects `JobIds` of the notifications, nothing for null |
| Notifications.NotificationStore.FetchNotiJobList | src/store/NotificationStore.ts:58-83 | no ids: no request and nothing changes; otherwise the query is the joined ids, status 200 stores the data, another status stores `[]`, and a rejection throws with the list unchanged |

## Left out

- Timing is not modelled: debounce, `setTimeout` and races between concurrent requests. Every operation runs to completion before the next. `MainHeader.SearchBox.HandleSearchChange` runs the debounced search at once.
- Rendering and DOM wiring are not modelled: JSX, click-outside listeners, focus and blur, `matchMedia`, `navigate`. The `search-history-changed` event is counted; its listeners are not modelled. `console` logging and `alert` are dropped.
- Library behaviour is abstracted into parameters:
  - `new Date(...)` parsing is a function from string to an integer time.
  - `localeCompare` is a collation key.
  - `toLowerCase` is a fold function.
  - An invalid date string (a `NaN` time) is not represented.
- `getBoundingClientRect().bottom` and `window.innerHeight` are integers, not floating point.
- `null` and `undefined` are both `None`. A response body is typed as the field the code reads; a malformed body is not modelled.
- `localStorage` entries are values, not text:
  - A `JSON.parse` failure on the search history is not modelled.
  - Auth: an entry under `user-token` that is not this store's snapshot is treated as absent on rehydration.
- `Manage.SortBy`: the in-place `filtered.sort` is modelled on a sequence. The sorted array is a fresh copy (`[...applications]`), so its identity is not observable. The sort is a stable insertion sort. Stability is not stated as a lemma: the contract states order and permutation only.
- `Interceptors.Dispatch`: the answer script bounds each run; an exhausted script ends it with `Exhausted`. On an endpoint that keeps answering 401, the client as written has no bound, which is the first finding.
- URL and query-string building is not modelled; only the batch id list is. Header objects other than `Authorization` and `withCredentials` are left out too.
- `jobStore.ts` is not part of this model. The job list that `addBookmark` searches is a parameter.
- `getnotiJobList` and `deleteNoti` (NotificationStore.ts:21-29, 84-98) change no state and are left out.
- The store calls that `handleApplicationEdit` makes (`editApplications`, `getApplications`) are recorded as a trace, and what their requests settle to is a parameter. Their URLs, bodies and headers (applyStore.ts:29-55) are not modelled.
- The parent callbacks of ManageItem (`onNoteChange`, `onStatusChange`) and CalendarDialog (`onSelectDate`, `toggle`) are recorded as traces of calls.

## Findings

| source | as written | input that shows it | evidently intended | confidence | as-written member | corrected member |
|---|---|---|---|---|---|---|
| src/api/axiosInstance.ts:26-33 | the refresh POST goes through the same response interceptor with a fresh config, so a 401 on the refresh endpoint starts another refresh | a refresh endpoint that answers 401 every time: each answer is spent on one more nested refresh; the call never settles and the user is never signed out | a 401 on the refresh request itself is not refreshed again, so the user is signed out after at most three requests | not executed | Interceptors.RefreshNestingUnbounded | Interceptors.ExcludingRefreshIsBounded |
| src/pages/index/components/manage/ManageItem.tsx:172-183 | the mobile row shows the due-date text when the due date is falsy and the "set due date" button when it is set | `applyDueDate = "2025-06-30"` shows the button; `applyDueDate = null` shows ` 마감` | show `2025.06.30 마감` for a set date and the button for a missing one, as the desktop row does at line 286 | not executed | ManageItem.MobileDueDateInverted | ManageItem.MobileDueDateIntended |
