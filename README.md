# Complaint-management admin front end: a Dafny model

This project models the sequential logic of a React admin front end for a
complaint-management system. The models cover:

- the shared validators;
- the date and text formatters;
- the pagination hook and the page-number control;
- the notification context and its dropdown;
- the one-time-password page;
- the student, staff and profile forms;
- the two "create" pages;
- the complaint assignment modal;
- the complaint detail component and page;
- the student list page.

Each source file becomes one Dafny module. The form depends on what the
source does:

- Pure helpers (validators, formatters, date helpers, page numbers) are
  functions with named results, plus lemmas about them.
- Components and hooks that keep state (`useState` cells changed by event
  handlers and effects) are classes. Each cell is a field, each handler is a
  method with a `modifies` clause, and its postcondition states the whole
  new state.
  - Where the state is complex, it is tied to a pure function of the old
    state, and the lemmas are proved about that function.
- A call to the server, the clock, browser storage or a confirmation dialog
  becomes a parameter: the outcome the call produced, or the current time.

Four shared modules hold what several components use:

- `Text`: characters, ASCII case, JavaScript whitespace and `trim`,
  substrings, decimal rendering, split and join.
- `Lists`: `filter`, "map where", subsequences and counting.
- `Optional`.
- `FormFields`: a small model of the JavaScript values held in form state,
  including truthiness, ordered records, the `{...prev, [name]: value}`
  update, error maps, and the checks that the forms share.

Some behaviours of the source are modelled as written and stated as lemmas,
even where they look unintended:

- `getRelativeDate` is not modelled on its own: the `'relative'` format goes
  to the locale parameter like every other non-`'ago'` format.
- For a date in the future, `getTimeAgo` gives a negative count of seconds.
- The forms use the unanchored email pattern `\S+@\S+\.\S+`, which accepts
  strings that the shared validator refuses.
- The status badge of the complaint component lowers the status, but its
  actions compare it exactly.
- In edit mode the student and staff forms still send the two empty password
  fields. Only the confirmation is dropped.
- The complaint page trims the drop reason; the detail component does not.
- `markAsRead` lowers the unread counter even when the entry is already read.
- The complaint page passes `loading` and `processing` to the assignment
  modal, but the modal reads `isLoading`. It places the detail component
  without `onAssign` and `onDrop`, so that component's own action buttons
  have no handler on this page. Only the page's own buttons and the modal
  are wired.

## Model

| member | source | states |
|---|---|---|
| Validators.IndexOf | src/utils/validators.js:9 | the first position of a character, or the length when it is absent: every earlier character differs from it |
| Validators.IsValidEmail | src/utils/validators.js:6-11 | an empty email is refused; an accepted one has an '@' and no whitespace |
| Validators.EmailMatchesPattern | src/utils/validators.js:9-10 | the check accepts exactly the strings of `^[^\s@]+@[^\s@]+\.[^\s@]+$`, both directions |
| Validators.ValidatePassword | src/utils/validators.js:18-61 | valid iff at least 8 characters with an upper-case letter, a lower-case letter and a digit; each failing rule, in the source's order, gives its own message; valid iff the message is 'Password is valid' |
| Validators.StripPhone | src/utils/validators.js:72 | the stripped number holds no space, parenthesis or dash |
| Validators.IsValidPhone | src/utils/validators.js:68-73 | accepted exactly when the number is non-empty and, once whitespace, parentheses and dashes are deleted, is 10 to 15 digits or a '+' followed by 10 to 15 digits |
| Validators.PhoneIgnoresSeparators | src/utils/validators.js:72 | inserting a separator anywhere in a non-empty number does not change the verdict |
| Validators.StripPhonePlain | src/utils/validators.js:72 | a number without separators is checked as written |
| Validators.ValidateRequired | src/utils/validators.js:81-86 | an error exactly when the value is absent or blank (all whitespace), and then it is '<field> is required' |
| Validators.ValidateMatch | src/utils/validators.js:163-168 | no error iff the two values are equal; otherwise '<field> do not match', 'Passwords' by default |
| Validators.FieldErrorNotEmpty | src/utils/validators.js:98-147 | every error the field checks leave is a non-empty message |
| Validators.FormErrorsEntries | src/utils/validators.js:94-154 | a field is in the error map iff one of its checks failed, with that field's last failing message; only fields with rules appear |
| Validators.FormValidIffNoFieldFails | src/utils/validators.js:94-154 | the error map is empty iff no field's checks fail |
| Validators.EmptyValueSkipsFormatChecks | src/utils/validators.js:102-147 | on a missing or empty value the email, phone, password and length checks are skipped; a custom error wins over the required one |
| Validators.LastFailingCheckWins | src/utils/validators.js:137-147 | a value over the maximum length reports that message whatever else failed; under the minimum reports that unless also over the maximum |
| Validators.CheckField | src/utils/validators.js:99-147 | the seven checks in the source's order leave exactly the field's error as the last failing check defines it |
| Validators.ValidateForm | src/utils/validators.js:94-154 | the loop over the rules builds exactly the error map of all fields; `isValid` iff that map is empty; keys are rule fields |
| Validators.EmailPattern | src/utils/validators.js:9 | the language of `^[^\s@]+@[^\s@]+\.[^\s@]+$` written out: one '@' after a non-empty part, then a '.' with something on both sides, no whitespace and no other '@' |
| Validators.PhonePattern | src/utils/validators.js:71 | the language of `^\+?[0-9]{10,15}$`: an optional '+', then 10 to 15 digits and nothing else |
| Validators.FieldError | src/utils/validators.js:99-147 | the error one field's rules leave: required, email, phone, password, custom, minLength and maxLength in that order, each failure overwriting the one before |
| Validators.FormErrors | src/utils/validators.js:94-154 | the error map the forEach builds: the rules in their order, each field with an error getting its entry |
| FormDate.AgoBucket | src/utils/formDate.js:95-127 | the unit is chosen by the thresholds 60 s, 60 min, 24 h, 30 days and 12 thirty-day months, each range stated both ways, and the count is the elapsed time floored to that unit |
| FormDate.SingularExactlyForOne | src/utils/formDate.js:106-126 | the phrase is the singular '1 <unit> ago' exactly when the count is 1 |
| FormDate.AgoBucketMonotone | src/utils/formDate.js:99-126 | a longer elapsed time never lands in a smaller unit, and in the same unit never shows a smaller count |
| FormDate.FutureTimeAgo | src/utils/formDate.js:97-107 | a date in the future always reads as a negative count of seconds ago, whatever its distance |
| FormDate.FutureTimeAgoUnderASecond | src/utils/formDate.js:97-107 | one millisecond in the future already reads '-1 seconds ago' |
| FormDate.FutureTimeAgoFiveSeconds | src/utils/formDate.js:97-107 | five seconds in the future reads '-5 seconds ago' |
| FormDate.TimeAgoExamples | src/utils/formDate.js:106-112 | 0 ms is '0 seconds ago', 1 s is '1 second ago', 90 s is '1 minute ago' |
| FormDate.TimeAgoLongerExamples | src/utils/formDate.js:114-120 | one day is '1 day ago', two hours is '2 hours ago' |
| FormDate.FormatDate | src/utils/formDate.js:7-52 | 'N/A' for a missing or empty date, 'Invalid date' for one whose time is not a number, the time-ago phrase for the 'ago' format, and the locale rendering for the other formats |
| FormDate.DurationOf | src/utils/formDate.js:139-145 | hours below 24 and minutes below 60, and the parts add up to the input to within one minute |
| FormDate.SplitDuration | src/utils/formDate.js:139-145 | the source's chain of floored divisions computes exactly those days, hours and minutes |
| FormDate.AppendPieces | src/utils/formDate.js:147-159 | the `+=` steps append the day piece and the hour piece (each with a space) when non-zero, and the minute piece when non-zero or when nothing came before |
| FormDate.FormatDuration | src/utils/formDate.js:134-162 | '0m' for a missing or non-positive input; otherwise the non-zero pieces of days, hours and minutes joined by single spaces, the minute piece kept when it stands alone |
| FormDate.BuiltTrimsToJoin | src/utils/formDate.js:147-161 | trimming what the steps build gives exactly the pieces joined by single spaces |
| FormDate.DurationTextShape | src/utils/formDate.js:134-162 | the duration text is never empty, starts with a digit and ends with 'd', 'h' or 'm' |
| FormDate.DurationExampleFull | src/utils/formDate.js:134-162 | one day, two hours, thirty minutes and 999 ms is '1d 2h 30m' |
| FormDate.DurationExampleDay | src/utils/formDate.js:149-159 | exactly one day is '1d', with no zero hours or minutes |
| FormDate.DurationExampleUnderMinute | src/utils/formDate.js:157-158 | 59 999 ms is '0m' |
| FormDate.UnitName | src/utils/formDate.js:106-126 | the English name of each unit, as the phrases use it |
| FormDate.Phrase | src/utils/formDate.js:106-126 | '1 <unit> ago' for a count of one and '<n> <unit>s ago' for any other count |
| FormDate.GetTimeAgo | src/utils/formDate.js:95-127 | getTimeAgo on the elapsed milliseconds: the phrase of AgoBucket for a past date, and the floored negative seconds for a future one |
| FormDate.TimeAgoEndsInAgo | src/utils/formDate.js:95-127 | every text getTimeAgo gives, for a past or a future date, ends in ' ago' |
| Formatters.DigitsOf | src/utils/formatters.js:54 | only digits remain, never more characters than the input |
| Formatters.UsLayout | src/utils/formatters.js:58 | the "(AAA) BBB-CCCC" layout: the parenthesis, space and dash sit right after the first and second groups |
| Formatters.FormatPhoneNumber | src/utils/formatters.js:49-66 | 'N/A' for an empty number, the input unchanged under ten digits, the length and punctuation of the US layout for ten digits, and for more the length and the leading '+' (where each digit goes is FormatPhoneLayout) |
| Formatters.FormatPhoneKeepsDigits | src/utils/formatters.js:54-61 | a formatted number carries exactly the digits of the input, in order |
| Formatters.FormatPhoneIdempotent | src/utils/formatters.js:49-66 | formatting a formatted number changes nothing |
| Formatters.TruncateText | src/utils/formatters.js:69-75 | a text within the limit comes back unchanged; a longer one is its first `maxLength` characters followed by '...' |
| Formatters.TruncateIdempotent | src/utils/formatters.js:69-75 | truncating twice equals truncating once |
| Formatters.Capitalize | src/utils/formatters.js:95 | capitalising a word keeps its length |
| Formatters.CapitalizeAll | src/utils/formatters.js:95 | the map capitalises every word and keeps the word count |
| Formatters.TitleCase | src/utils/formatters.js:92-96 | the character reading: a character at the start or after a space is upper-cased, every other one kept, length kept |
| Formatters.CapitalizeWordsIsTitleCase | src/utils/formatters.js:94-96 | splitting on spaces, capitalising each word and rejoining is exactly that character-by-character title case |
| Formatters.FormatName | src/utils/formatters.js:89-90 | 'N/A' for an empty name |
| Formatters.FormatNamePointwise | src/utils/formatters.js:89-97 | a non-empty name keeps its length and exactly its spaces; the first character of every word is upper-cased and all others lower-cased |
| Formatters.FormatNameIdempotent | src/utils/formatters.js:89-97 | formatting a formatted (non-empty) name changes nothing |
| Formatters.GetStatusClass | src/utils/formatters.js:100-117 | a listed status gets its table entry, any other status the gray class |
| Formatters.StatusClassGroups | src/utils/formatters.js:101-116 | green exactly for COMPLETED, ACTIVE, APPROVED and SUCCESS, red exactly for DROPPED, INACTIVE, REJECTED and FAILED; the lookup is case-sensitive |
| Formatters.UsLayoutGroups | src/utils/formatters.js:58 | the three digit groups stand, in order, between '(' and ') ', after ') ' and before '-', and after '-' |
| Formatters.FormatPhoneLayout | src/utils/formatters.js:56-61 | ten digits fill the US layout in order; with more, '+' and the first n-10 digits (the country code), one space, then the US layout of the last ten digits, with '(', ')', ' ' and '-' at their exact positions |
| Formatters.CapitalizeWords | src/utils/formatters.js:94-96 | `split(' ')`, each word capitalised, `join(' ')`; its character-by-character meaning is CapitalizeWordsIsTitleCase |
| PaginationHook.TotalPagesFor | src/hooks/usePagination.js:27-29 | at least one page; one page for no rows; otherwise the least page count that holds all rows (the ceiling of rows over limit) |
| PaginationHook.ClampPage | src/hooks/usePagination.js:58-62 | the page is at least 1 and at most `totalPages`, the request itself when in range, 1 below the range and the last page above it |
| PaginationHook.Initial | src/hooks/usePagination.js:17-24 | the initial state is consistent: one page, no rows |
| PaginationHook.StepsKeepConsistent | src/hooks/usePagination.js:27-81 | every handler and both fetch halves keep `totalPages` equal to the page count of `totalItems`; a filter change keeps limit and rows; a page change changes only the page |
| PaginationHook.PageChangeInRange | src/hooks/usePagination.js:58-62 | a page change always lands in [1, totalPages], on the requested page when it is in range |
| PaginationHook.ResetsToFirstPage | src/hooks/usePagination.js:65-76 | limit and filter changes store the new value and go back to page 1 |
| PaginationHook.FetchSucceeds | src/hooks/usePagination.js:32-49 | a resolved fetch shows `data` (or none), stores `total` (or 0), recomputes the page count, clears the error and the loading flag, and keeps the request parameters |
| PaginationHook.FetchFails | src/hooks/usePagination.js:43-49 | a rejected fetch empties the rows, reports the message or 'Failed to fetch data', keeps the totals and clears the loading flag |
| PaginationHook.RefreshIdempotent | src/hooks/usePagination.js:79-81 | a second refresh against a backend that answers each request the same way changes nothing |
| PaginationHook.ScenarioClampToLastPage | src/hooks/usePagination.js:28-62 | 25 rows in pages of 10 make 3 pages, and asking for page 5 shows page 3 |
| PaginationHook.ScenarioEmptyList | src/hooks/usePagination.js:28-49 | an empty response gives one page, page 1, no rows and no error |
| PaginationHook.Pager.constructor | src/hooks/usePagination.js:11-24 | the initial cells: no rows, not loading, no error, the initial page, limit and filters, no items, one page |
| PaginationHook.Pager.SetPage | src/hooks/usePagination.js:58-62 | stores the clamped page, in [1, totalPages], the request itself when in range; nothing else changes |
| PaginationHook.Pager.SetLimit | src/hooks/usePagination.js:65-69 | stores the limit, goes to page 1 and recomputes the page count |
| PaginationHook.Pager.SetFilters | src/hooks/usePagination.js:72-76 | replaces the filters wholesale and goes to page 1 |
| PaginationHook.Pager.BeginFetch | src/hooks/usePagination.js:32-37 | raises the loading flag, clears the error and returns the current page, limit and filters as the request, changing none of them |
| PaginationHook.Pager.CompleteFetch | src/hooks/usePagination.js:41-49 | applies the outcome as the success or failure branch and ends not loading, keeping the page count consistent |
| PaginationControls.Run | src/components/common/Pagination.jsx:29-33 | the window lo..hi as consecutive page buttons, empty when lo > hi |
| PaginationControls.GetPageNumbers | src/components/common/Pagination.jsx:13-46 | the pushes, including the loop over the sibling window, build exactly the row: page 1 first, the last page last when there is more than one |
| PaginationControls.RowEnds | src/components/common/Pagination.jsx:17-43 | the row starts with page 1 and, with more than one page, ends with the last page |
| PaginationControls.PageNumbersNumbers | src/components/common/Pagination.jsx:17-43 | the page buttons are 1, then max(2, current − siblings) up to min(last − 1, current + siblings), then the last page when there is more than one |
| PaginationControls.RowShape | src/components/common/Pagination.jsx:17-43 | first entry 1, last entry the last page, page numbers strictly increasing; an ellipsis follows 1 iff the window starts beyond 2, and precedes the last page iff the window ends before the second-to-last page |
| PaginationControls.RowCoversCurrentPage | src/components/common/Pagination.jsx:17-43 | all page numbers lie in [1, totalPages]; a current page in range is among them |
| PaginationControls.RowWellFormed | src/components/common/Pagination.jsx:17-43 | for a current page in range, adjacent page buttons are consecutive pages and an ellipsis stands between two buttons exactly where pages are skipped |
| PaginationControls.WindowRowWellFormed | src/components/common/Pagination.jsx:20-43 | the same for a non-empty sibling window inside 2..last − 1 |
| PaginationControls.RowSlots | src/components/common/Pagination.jsx:17-43 | the length of the row and what stands at each position |
| PaginationControls.ButtonsForwardTheirPage | src/components/common/Pagination.jsx:48-56 | with more than one page, every page button other than the current one passes the guard, enabled Previous and Next pass it for the neighbouring pages, and nothing passes while disabled |
| PaginationControls.Row | src/components/common/Pagination.jsx:17-43 | the row getPageNumbers builds: page 1, an ellipsis when the window starts after page 2, the window, an ellipsis when it ends before the second-to-last page, and the last page when there is more than one |
| PaginationControls.ForwardsPageChange | src/components/common/Pagination.jsx:48-52 | onPageChange is called only for another page between 1 and totalPages, and never while disabled |
| PaginationControls.RendersNothing | src/components/common/Pagination.jsx:54-56 | nothing is rendered for one page or none |
| PaginationControls.PreviousDisabled | src/components/common/Pagination.jsx:63 | Previous is disabled on page 1 or while the control is disabled |
| PaginationControls.NextDisabled | src/components/common/Pagination.jsx:100 | Next is disabled on the last page or while the control is disabled |
| NotificationStore.StyleOf | src/contexts/NotificationContext.jsx:7-44 | a toast gets a style exactly for the four known types SUCCESS, ERROR, WARNING and INFO |
| NotificationStore.CountUnread | src/contexts/NotificationContext.jsx:68 | the number of unread entries, never more than the list length |
| NotificationStore.Initial | src/contexts/NotificationContext.jsx:49-77 | after mounting there are no toasts, the stored list (or none) is shown, and the counter equals its number of unread entries |
| NotificationStore.AddToast | src/contexts/NotificationContext.jsx:80-99 | the new toast with that id, type and message is appended at the end; the other toasts and the centre are unchanged |
| NotificationStore.RemoveToast | src/contexts/NotificationContext.jsx:103-105 | the toasts with that id go, every other toast stays in order, and the centre is unchanged |
| NotificationStore.NewNoticeFields | src/contexts/NotificationContext.jsx:109-118 | because `...data` comes last, every key the data has wins, even a falsy one; the defaults (Date.now() id, type 'complaint', unread) apply only to the missing keys |
| NotificationStore.AddPersistent | src/contexts/NotificationContext.jsx:108-133 | the new entry is prepended and the counter goes up by one whatever the entry says; the toasts are unchanged |
| NotificationStore.MarkRead | src/contexts/NotificationContext.jsx:138-142 | entries with the id become read, every other entry stays, the length is kept |
| NotificationStore.MarkAsRead | src/contexts/NotificationContext.jsx:136-152 | the matching entries become read and the counter becomes max(0, counter − 1), whether or not anything matched |
| NotificationStore.MarkAllAsRead | src/contexts/NotificationContext.jsx:155-167 | every entry becomes read, each otherwise unchanged, and the counter is 0 |
| NotificationStore.Clear | src/contexts/NotificationContext.jsx:169-186 | as written: the entries with that id go, the rest stay in order, and the counter is untouched because the unread check at lines 184-186 never sees the entry |
| NotificationStore.FindNotice | src/contexts/NotificationContext.jsx:172 | the FIRST entry with the id: a listed entry with that id, with no earlier entry carrying it; none exactly when no entry has the id |
| NotificationStore.ClearFixed | src/contexts/NotificationContext.jsx:169-186 | as intended: the same list as the written clear; the counter drops by one exactly when the entry found was unread, and otherwise stays |
| NotificationStore.ClearAll | src/contexts/NotificationContext.jsx:190-198 | the centre is empty and the counter is 0 |
| NotificationStore.MarkReadCount | src/contexts/NotificationContext.jsx:138-142 | marking by id lowers the unread number by the number of unread entries with that id |
| NotificationStore.ClearCount | src/contexts/NotificationContext.jsx:175 | clearing by id lowers the unread number by the number of unread entries with that id |
| NotificationStore.AddThenRemoveToast | src/contexts/NotificationContext.jsx:80-105 | adding a toast with a fresh id and removing it gives back the state |
| NotificationStore.AddPersistentSync | src/contexts/NotificationContext.jsx:108-133 | adding keeps the counter in step with the list exactly when the new entry is unread |
| NotificationStore.MarkAsReadSync | src/contexts/NotificationContext.jsx:136-152 | marking keeps the counter in step exactly when one unread entry has the id, or nothing was unread |
| NotificationStore.ClearSync | src/contexts/NotificationContext.jsx:169-186 | clearing keeps the counter in step exactly when no unread entry has the id |
| NotificationStore.ResetsSync | src/contexts/NotificationContext.jsx:155-198 | mark-all and clear-all put the counter back in step with the list |
| NotificationStore.MarkReadTwiceDrifts | src/contexts/NotificationContext.jsx:151 | marking an already-read entry again still lowers the counter: it reads 0 while one entry is unread |
| NotificationStore.Store.constructor | src/contexts/NotificationContext.jsx:49-77 | the mounted state, with the counter in step with the stored list |
| NotificationStore.Store.AddNotification | src/contexts/NotificationContext.jsx:80-99 | the state becomes `AddToast` of the old one, and the returned id is the timestamp |
| NotificationStore.Store.Success | src/contexts/NotificationContext.jsx:201-203 | adds a SUCCESS toast |
| NotificationStore.Store.Error | src/contexts/NotificationContext.jsx:205-207 | adds an ERROR toast |
| NotificationStore.Store.Warning | src/contexts/NotificationContext.jsx:209-211 | adds a WARNING toast |
| NotificationStore.Store.Info | src/contexts/NotificationContext.jsx:213-215 | adds an INFO toast |
| NotificationStore.Store.RemoveNotification | src/contexts/NotificationContext.jsx:103-105 | the state becomes `RemoveToast` of the old one |
| NotificationStore.Store.AddPersistentNotification | src/contexts/NotificationContext.jsx:108-133 | the state becomes `AddPersistent` of the old one, and the returned id is the new first entry's |
| NotificationStore.Store.MarkNoticeAsRead | src/contexts/NotificationContext.jsx:136-152 | the state becomes `MarkAsRead` of the old one |
| NotificationStore.Store.MarkAllNoticesAsRead | src/contexts/NotificationContext.jsx:155-167 | the state becomes `MarkAllAsRead` of the old one |
| NotificationStore.Store.ClearNotificationAsWritten | src/contexts/NotificationContext.jsx:169-186 | the state becomes the written clear of the old one: only the list changes |
| NotificationStore.Store.ClearNotification | src/contexts/NotificationContext.jsx:169-186 | the state becomes the corrected clear of the old one |
| NotificationStore.Store.ClearAllNotifications | src/contexts/NotificationContext.jsx:190-198 | the state becomes `ClearAll` of the old one |
| NotificationStore.FoundUnreadCount | src/contexts/NotificationContext.jsx:172-173 | with unique ids, the entry found is unread exactly when one unread entry has that id |
| NotificationStore.ClearFixedSync | src/contexts/NotificationContext.jsx:169-186 | the corrected clear keeps the counter equal to the number of unread entries whenever ids are unique |
| NotificationStore.ClearLeavesStaleCount | src/contexts/NotificationContext.jsx:184-186 | as written, clearing the only entry, unread, leaves the counter at one over an empty list |
| NotificationStore.SetRead | src/contexts/NotificationContext.jsx:140 | `{ ...notification, isRead: true }` |
| NotificationStore.NoticeDefaults | src/contexts/NotificationContext.jsx:109-116 | the literal before the spread: id `data.id \|\| now`, type `data.type \|\| 'complaint'`, createdAt `data.createdAt \|\| now`, unread |
| NotificationStore.Spread | src/contexts/NotificationContext.jsx:117 | `...data` last: every key data carries overrides the literal |
| NotificationStore.NewNotice | src/contexts/NotificationContext.jsx:109-118 | the new entry: the defaults, then the spread of data |
| NotificationDropdown.UnreadCount | src/components/notification/NotificationDropdown.jsx:10 | the number of unread entries, 0 when no list is passed |
| NotificationDropdown.BadgeLabelMeaning | src/components/notification/NotificationDropdown.jsx:99-103 | the badge is shown exactly when something is unread; it reads '9+' exactly from ten on, and below ten it is the count's single digit |
| NotificationDropdown.Listed | src/components/notification/NotificationDropdown.jsx:123-125 | at most seven entries are listed, the first ones of the list, none without a list |
| NotificationDropdown.ListCapMeaning | src/components/notification/NotificationDropdown.jsx:125-157 | 'View all notifications' appears exactly when the cap leaves entries out, and then seven are listed; otherwise the whole list is |
| NotificationDropdown.RouteDeterminesKind | src/components/notification/NotificationDropdown.jsx:37-45 | each path prefix is used by exactly one type, every unknown type going to '/notifications/'; the rest of the route is the entity id, or the entry's own id for the last |
| NotificationDropdown.OtherRoutesDistinct | src/components/notification/NotificationDropdown.jsx:43-45 | two entries of unknown type share a route exactly when they share an id |
| NotificationDropdown.Click | src/components/notification/NotificationDropdown.jsx:30-48 | the entry's id is marked read exactly when it is unread, and the route is the one its type chooses |
| NotificationDropdown.ClickMarksEntryRead | src/components/notification/NotificationDropdown.jsx:32-34 | passed on to the store's `markAsRead`, a click leaves an unread entry read and lowers the unread count; a read entry asks for nothing |
| NotificationDropdown.Dropdown.constructor | src/components/notification/NotificationDropdown.jsx:6 | the dropdown starts closed |
| NotificationDropdown.Dropdown.Toggle | src/components/notification/NotificationDropdown.jsx:26-28 | the bell flips the open flag |
| NotificationDropdown.Dropdown.ClickOutside | src/components/notification/NotificationDropdown.jsx:13-24 | a mouse-down outside closes it |
| NotificationDropdown.Dropdown.ClickNotification | src/components/notification/NotificationDropdown.jsx:30-48 | the click asks for exactly `Click(n)` and closes the dropdown |
| NotificationDropdown.Dropdown.ClickMarkAll | src/components/notification/NotificationDropdown.jsx:110-120 | offered only with something unread; asks to mark all and closes |
| NotificationDropdown.Dropdown.ClickViewAll | src/components/notification/NotificationDropdown.jsx:157-167 | offered only above seven entries; navigates to '/notifications' and closes |
| NotificationDropdown.BadgeLabel | src/components/notification/NotificationDropdown.jsx:99-103 | no badge when all is read, '9+' above nine, the count otherwise |
| NotificationDropdown.OffersMarkAll | src/components/notification/NotificationDropdown.jsx:110 | 'Mark all as read' is shown only when something is unread |
| NotificationDropdown.OffersViewAll | src/components/notification/NotificationDropdown.jsx:157 | 'View all notifications' is shown only for a list of more than seven |
| NotificationDropdown.RouteFor | src/components/notification/NotificationDropdown.jsx:37-45 | the route of a click: the complaint, student or staff path with the entity id, otherwise the notifications path with the entry's own id |
| Otp.Concat | src/pages/auth/Otp.jsx:106 | joining digit cells gives a digit string |
| Otp.ChangeCell | src/pages/auth/Otp.jsx:48-54 | a value of digits only (the empty one included) replaces exactly that cell; any other value leaves every cell as it was |
| Otp.ChangeKeepsDigits | src/pages/auth/Otp.jsx:48-54 | edits keep six digit-only cells and never touch another cell |
| Otp.PasteRoundTrip | src/pages/auth/Otp.jsx:69-81 | a paste is taken exactly when the trimmed text is six digits, and then each cell holds one digit and the cells join back to that text |
| Otp.CountdownTick | src/pages/auth/Otp.jsx:23-33 | while resend is disabled a tick at 1 or below stops at 0 and enables resend, otherwise it counts down by one; with resend enabled nothing runs |
| Otp.CountdownRunsOut | src/pages/auth/Otp.jsx:24-32 | from n seconds resend stays disabled for n − 1 ticks, counting down one per tick, and the n-th tick enables it at 0 |
| Otp.ResendAfterThirtyTicks | src/pages/auth/Otp.jsx:10-32 | after opening, resend is still disabled after 29 ticks and enabled after the 30th |
| Otp.SubmitResult | src/pages/auth/Otp.jsx:102-127 | a code that is not six characters long sets 'Please enter the complete 6-digit OTP' and attempts no login; otherwise the joined code is sent, and only a successful login navigates |
| Otp.SentCodeIsSixDigits | src/pages/auth/Otp.jsx:106-114 | any code sent to `login` is six digits |
| Otp.InitialState | src/pages/auth/Otp.jsx:7-11 | six empty cells, no error, not loading, 30 seconds with resend disabled |
| Otp.OtpPage.constructor | src/pages/auth/Otp.jsx:7-15 | the initial state, with the email from session storage |
| Otp.OtpPage.HandleChange | src/pages/auth/Otp.jsx:48-60 | the cells become `ChangeCell` of the old ones and nothing else changes |
| Otp.OtpPage.HandlePaste | src/pages/auth/Otp.jsx:69-81 | a refused paste changes nothing; an accepted one replaces the cells with the pasted digits |
| Otp.OtpPage.Tick | src/pages/auth/Otp.jsx:24-32 | the countdown takes one `CountdownTick` and nothing else changes |
| Otp.OtpPage.Resend | src/pages/auth/Otp.jsx:83-100 | without an email it only navigates to '/login'; a successful resend disables resend, restarts at 30 and clears the error; a failed one sets 'Failed to resend OTP' and keeps the countdown |
| Otp.OtpPage.Submit | src/pages/auth/Otp.jsx:102-127 | the error and the effect are `SubmitResult` of the cells; the cells and the countdown are unchanged |
| Otp.PastedCells | src/pages/auth/Otp.jsx:69-81 | the cells a paste fills: one digit each, and only for a trimmed text of exactly six digits |
| Otp.Ticks | src/pages/auth/Otp.jsx:24-32 | k steps of the one-second interval |
| FormFields.Keys | src/components/student/StudentForm.jsx:127 | the keys of a form in their order of declaration, the order `Object.keys` visits them |
| FormFields.SetGet | src/components/student/StudentForm.jsx:48-51 | after `{...prev, [name]: value}` the field reads the new value and every other field reads what it read before |
| FormFields.SetKeys | src/components/student/StudentForm.jsx:48-51 | the spread update keeps the key order when the key is present and appends it when it is not |
| FormFields.SetKeepsDistinct | src/components/student/StudentForm.jsx:48-51 | the spread update never duplicates a key |
| FormFields.GetOfEntry | src/components/student/StudentForm.jsx:7-18 | with distinct keys, reading a key gives the value written with it |
| FormFields.ClearError | src/components/student/StudentForm.jsx:53-59 | clearing a field's error keeps the same fields with errors, empties that field's message and leaves the others untouched |
| FormFields.Put | src/components/student/StudentForm.jsx:83 | setting a message adds exactly that key with that message and keeps the others |
| FormFields.ErrorsOf | src/components/student/StudentForm.jsx:79-115 | the collected errors hold exactly the fields whose check produced a message, each with that message |
| FormFields.ErrorsOfEmpty | src/components/student/StudentForm.jsx:116 | the form is valid exactly when no check produced a message |
| FormFields.RequiredError | src/components/student/StudentForm.jsx:83 | a required field has an error exactly when its value is falsy, with the field's own message |
| FormFields.EmailError | src/components/student/StudentForm.jsx:85-89 | 'Email is required' for a falsy value; otherwise 'Email is invalid' exactly when `String(value)` does not match the loose pattern |
| FormFields.StrictEmailIsLoose | src/utils/validators.js:6-11 | every email the shared validator accepts also passes the forms' pattern |
| FormFields.LooseEmailAdmitsSpaces | src/components/student/StudentForm.jsx:87 | the forms' pattern accepts 'a b@c.d', which the shared validator refuses: the two checks differ |
| FormFields.PhoneError | src/components/student/StudentForm.jsx:96-98 | 'Phone number is invalid' exactly for a truthy value whose `String(value)` does not match `^\+?[0-9]{10,15}$` |
| FormFields.FormPhoneIsValidPhone | src/utils/validators.js:68-73 | every phone number the forms accept is accepted by the shared validator |
| FormFields.PasswordError | src/components/student/StudentForm.jsx:102-106 | the required message for a falsy value; otherwise the length message exactly when the value is text under eight characters |
| FormFields.ConfirmError | src/components/student/StudentForm.jsx:108-112 | the required message when empty; otherwise an error exactly when it differs from the password, with 'Passwords do not match' |
| FormFields.OrEmpty | src/components/student/StudentForm.jsx:27-33 | `value or ''`: a truthy value is kept, anything else becomes the empty string |
| FormFields.CollectEntries | src/components/student/StudentForm.jsx:127-136 | the loop appends exactly the entries the filter keeps: the upload only when present, the omitted keys never, everything else as it stands |
| FormFields.SubmittedEntries | src/components/student/StudentForm.jsx:127-136 | the sent entries keep the form's order, are exactly the form's entries that pass, and carry the form's own values |
| FormFields.Truthy | src/components/student/StudentForm.jsx:83 | JavaScript truthiness of a form value: non-empty text, a non-zero number, true, or a chosen file |
| FormFields.StrOf | src/components/student/StudentForm.jsx:87 | `String(value)` as a regular expression test reads it: text as is, a number in decimal, a flag as 'true' or 'false' |
| FormFields.ShorterThan | src/components/student/StudentForm.jsx:104 | `value.length < n`: true only for text shorter than n, since other values have no length |
| FormFields.Get | src/components/student/StudentForm.jsx:83 | `obj[key]`: the value of the first entry with that key, undefined when there is none |
| FormFields.Set | src/components/student/StudentForm.jsx:48-51 | `{ ...obj, [key]: value }`: an existing key keeps its place, a new one goes last |
| FormFields.LooseEmail | src/components/student/StudentForm.jsx:87 | the unanchored `\S+@\S+\.\S+`: somewhere an '@' after a non-space, then non-spaces, a '.' and a non-space |
| FormFields.LoadedPhoneText | src/components/student/StudentForm.jsx:32 | the number 9876543210 renders as the text '9876543210' |
| FormFields.NumericPhoneAccepted | src/components/student/StudentForm.jsx:96-98 | a phone number loaded as the number 9876543210 passes the phone check |
| FormFields.Sends | src/components/student/StudentForm.jsx:127-136 | which entries the submit loop copies: the picture only when chosen, the omitted fields never, the rest always |
| StudentForm.EmptyForm | src/components/student/StudentForm.jsx:7-18 | the initial state: every declared field in order, all text empty, no picture |
| StudentForm.Loaded | src/components/student/StudentForm.jsx:24-37 | an edit-mode load: each text field is the fetched record's property or '', no picture, both passwords empty |
| StudentForm.EditModeSkipsPasswords | src/components/student/StudentForm.jsx:101-113 | in edit mode neither password field can carry an error |
| StudentForm.ErrorsEmptyIffAcceptable | src/components/student/StudentForm.jsx:79-117 | the form validates exactly when the name, email, student id, department and batch are filled in, the email passes the pattern, a given phone number passes, and outside edit mode the password has 8 characters and the confirmation matches it |
| StudentForm.NoErrorsAcceptable | src/components/student/StudentForm.jsx:79-117 | an empty error map means every check passed |
| StudentForm.ErrorMeansUnacceptable | src/components/student/StudentForm.jsx:79-117 | any recorded error means some check failed |
| StudentForm.RequiredMessages | src/components/student/StudentForm.jsx:83-93 | each missing required field carries its own message |
| StudentForm.PasswordMessages | src/components/student/StudentForm.jsx:101-113 | outside edit mode: the required and length messages on the password, the required and mismatch messages on the confirmation |
| StudentForm.Named | src/components/student/StudentForm.jsx:127-136 | the sent entries under the fields' property names, in the same order with the same values |
| StudentForm.SentFields | src/components/student/StudentForm.jsx:127-136 | what is sent: the form's entries in order, all but the confirmation, the picture only when one was chosen, with the form's values; the empty passwords of edit mode included |
| StudentForm.StudentFormView.constructor | src/components/student/StudentForm.jsx:7-18 | the component starts with the initial form and no errors |
| StudentForm.StudentFormView.Load | src/components/student/StudentForm.jsx:24-37 | in edit mode with a record the form becomes its loaded form; otherwise nothing changes; the errors stay |
| StudentForm.StudentFormView.HandleInputChange | src/components/student/StudentForm.jsx:46-60 | the field takes the typed text, every other field stays, and that field's error is emptied |
| StudentForm.StudentFormView.HandleProfilePictureChange | src/components/student/StudentForm.jsx:62-69 | a chosen file becomes the picture; no file changes nothing |
| StudentForm.StudentFormView.ValidateForm | src/components/student/StudentForm.jsx:79-117 | the new error map is the form's errors, and the result says whether it is empty |
| StudentForm.StudentFormView.HandleSubmit | src/components/student/StudentForm.jsx:119-144 | nothing is sent unless the form validates; then the sent fields under their names, followed in edit mode by the record's id when it has one |
| StudentForm.Message | src/components/student/StudentForm.jsx:83-113 | the message validateForm records for one field, the password checks only outside edit mode |
| StudentForm.Errors | src/components/student/StudentForm.jsx:79-117 | the error map: one entry per checked field whose check fails |
| StudentForm.Acceptable | src/components/student/StudentForm.jsx:79-117 | the form passes every check: the required fields filled, the email and phone patterns, and outside edit mode the password rules |
| StaffForm.EmptyForm | src/components/staff/StaffForm.jsx:7-17 | the initial state: every declared field in order, all text empty, no picture |
| StaffForm.Loaded | src/components/staff/StaffForm.jsx:23-35 | an edit-mode load: each text field is the fetched record's property or '', no picture, both passwords empty |
| StaffForm.EditModeSkipsPasswords | src/components/staff/StaffForm.jsx:97-110 | in edit mode neither password field can carry an error |
| StaffForm.ErrorsEmptyIffAcceptable | src/components/staff/StaffForm.jsx:77-114 | the form validates exactly when the name, email, department and designation are filled in, the email passes the pattern, a given phone number passes, and outside edit mode the password has 8 characters and the confirmation matches it |
| StaffForm.NoErrorsAcceptable | src/components/staff/StaffForm.jsx:77-114 | an empty error map means every check passed |
| StaffForm.ErrorMeansUnacceptable | src/components/staff/StaffForm.jsx:77-114 | any recorded error means some check failed |
| StaffForm.RequiredMessages | src/components/staff/StaffForm.jsx:81-90 | each missing required field carries its own message |
| StaffForm.PasswordMessages | src/components/staff/StaffForm.jsx:97-110 | outside edit mode: the required and length messages on the password, the required and mismatch messages on the confirmation |
| StaffForm.Named | src/components/staff/StaffForm.jsx:124-133 | the sent entries under the fields' property names, in the same order with the same values |
| StaffForm.SentFields | src/components/staff/StaffForm.jsx:124-133 | what is sent: the form's entries in order, all but the confirmation, the picture only when one was chosen, with the form's values; the empty passwords of edit mode included |
| StaffForm.StaffFormView.constructor | src/components/staff/StaffForm.jsx:7-17 | the component starts with the initial form and no errors |
| StaffForm.StaffFormView.Load | src/components/staff/StaffForm.jsx:23-35 | in edit mode with a record the form becomes its loaded form; otherwise nothing changes; the errors stay |
| StaffForm.StaffFormView.HandleInputChange | src/components/staff/StaffForm.jsx:44-58 | the field takes the typed text, every other field stays, and that field's error is emptied |
| StaffForm.StaffFormView.HandleProfilePictureChange | src/components/staff/StaffForm.jsx:60-67 | a chosen file becomes the picture; no file changes nothing |
| StaffForm.StaffFormView.ValidateForm | src/components/staff/StaffForm.jsx:77-114 | the new error map is the form's errors, and the result says whether it is empty |
| StaffForm.StaffFormView.HandleSubmit | src/components/staff/StaffForm.jsx:116-141 | nothing is sent unless the form validates; then the sent fields under their names, followed in edit mode by the record's id when it has one |
| StaffForm.Message | src/components/staff/StaffForm.jsx:81-110 | the message validateForm records for one field, the password checks only outside edit mode |
| StaffForm.Errors | src/components/staff/StaffForm.jsx:77-114 | the error map: one entry per checked field whose check fails |
| StaffForm.Acceptable | src/components/staff/StaffForm.jsx:77-114 | the form passes every check: the required fields filled, the email and phone patterns, and outside edit mode the password rules |
| ProfileForm.EmptyForm | src/components/profile/profileForm.jsx:7-18 | the initial state: every declared field in order, all text empty, no picture |
| ProfileForm.Loaded | src/components/profile/profileForm.jsx:26-39 | the fields in order; name, email, phoneNumber, department, designation and bio are each `profile.x \|\| ''`; no picture; the three passwords empty |
| ProfileForm.ErrorsStayOnTab | src/components/profile/profileForm.jsx:85-113 | the profile tab only checks name, email and phone; the password tab only checks the three password fields |
| ProfileForm.ErrorsEmptyIffAcceptable | src/components/profile/profileForm.jsx:81-117 | the active tab validates exactly when its checks pass: name, email pattern and phone on the profile tab; current password, an 8-character new password and a matching confirmation on the password tab |
| ProfileForm.ProfileMessages | src/components/profile/profileForm.jsx:86-88 | a missing name or email carries its message on the profile tab |
| ProfileForm.PasswordMessages | src/components/profile/profileForm.jsx:100-112 | the password tab's required, length and mismatch messages |
| ProfileForm.ProfileEntries | src/components/profile/profileForm.jsx:127-137 | the profile tab sends name, email, phone, department, designation and bio in that order with the form's values, then the picture only when one was chosen |
| ProfileForm.ClearPasswordsMeaning | src/components/profile/profileForm.jsx:149-154 | after a password save the three password fields are empty, every other field is unchanged and the order is kept |
| ProfileForm.ProfileFormView.constructor | src/components/profile/profileForm.jsx:7-22 | the initial form, no errors, not editing, on the profile tab |
| ProfileForm.ProfileFormView.Load | src/components/profile/profileForm.jsx:26-46 | a profile replaces the form with its loaded form; no profile changes nothing |
| ProfileForm.ProfileFormView.SetActiveTab | src/components/profile/profileForm.jsx:198-209 | switching tabs changes only the tab; the other tab's errors stay |
| ProfileForm.ProfileFormView.StartEditing | src/components/profile/profileForm.jsx:381 | editing starts; nothing else changes |
| ProfileForm.ProfileFormView.HandleInputChange | src/components/profile/profileForm.jsx:48-62 | the field takes the typed text, every other field stays, and that field's error is emptied |
| ProfileForm.ProfileFormView.HandleProfilePictureChange | src/components/profile/profileForm.jsx:64-71 | a chosen file becomes the picture; no file changes nothing |
| ProfileForm.ProfileFormView.ValidateForm | src/components/profile/profileForm.jsx:81-117 | the new error map is the active tab's errors, and the result says whether it is empty |
| ProfileForm.ProfileFormView.HandleSubmit | src/components/profile/profileForm.jsx:119-158 | a failing form saves nothing and stays; otherwise the profile tab saves its entries, the password tab saves the two passwords and empties the password fields, and editing ends |
| ProfileForm.ProfileFormView.CancelEdit | src/components/profile/profileForm.jsx:160-185 | back to the profile's loaded form when there is one, no errors, editing ends |
| ProfileForm.Message | src/components/profile/profileForm.jsx:85-113 | the message for one field, checking only the active tab's fields |
| ProfileForm.Errors | src/components/profile/profileForm.jsx:81-117 | the error map of the active tab |
| ProfileForm.Acceptable | src/components/profile/profileForm.jsx:81-117 | the active tab passes every check |
| CreateStudent.InitialForm | src/pages/student/CreateStudent.jsx:8-17 | the initial state declares every field once, in order |
| CreateStudent.InitialValues | src/pages/student/CreateStudent.jsx:8-17 | every text field empty, the admission year the current year, the student active |
| CreateStudent.ValueOf | src/pages/student/CreateStudent.jsx:26 | a checkbox contributes its checked flag, any other input its text |
| CreateStudent.ErrorsEmptyIffFilled | src/pages/student/CreateStudent.jsx:41-44 | the form validates exactly when name, email, student id and course are filled in; there are no format checks |
| CreateStudent.RequiredMessages | src/pages/student/CreateStudent.jsx:41-44 | only the required fields can carry errors, each missing one with its own message |
| CreateStudent.InitialFormRefused | src/pages/student/CreateStudent.jsx:41-44 | an untouched form is refused on every required field |
| CreateStudent.CreateStudentPage.constructor | src/pages/student/CreateStudent.jsx:8-20 | the initial form, no errors, not submitting, no submit error |
| CreateStudent.CreateStudentPage.HandleChange | src/pages/student/CreateStudent.jsx:22-36 | the field takes the checkbox flag or the text, every other field stays, and that field's error is emptied |
| CreateStudent.CreateStudentPage.ValidateForm | src/pages/student/CreateStudent.jsx:38-48 | the new error map is the form's errors, and the result says whether it is empty |
| CreateStudent.CreateStudentPage.HandleSubmit | src/pages/student/CreateStudent.jsx:50-67 | an invalid form sends nothing and changes only the errors; a valid one is sent as it stands; success navigates to '/students' with 'Student created successfully', failure shows the error's message or 'Failed to create student'; submitting ends either way |
| CreateStudent.Message | src/pages/student/CreateStudent.jsx:41-44 | the required message of each of the four required fields |
| CreateStudent.Errors | src/pages/student/CreateStudent.jsx:38-48 | the error map: one entry per empty required field |
| CreateStaff.InitialForm | src/pages/staff/CreateStaff.jsx:8-18 | the initial state declares every field once, in order |
| CreateStaff.InitialValues | src/pages/staff/CreateStaff.jsx:8-18 | every text field empty, at most ten complaints, the member active |
| CreateStaff.ValueOf | src/pages/staff/CreateStaff.jsx:27 | a checkbox contributes its checked flag, any other input its text |
| CreateStaff.ErrorsEmptyIffFilled | src/pages/staff/CreateStaff.jsx:42-46 | the form validates exactly when name, email, staff id, department and position are filled in; there are no format checks |
| CreateStaff.RequiredMessages | src/pages/staff/CreateStaff.jsx:42-46 | only the required fields can carry errors, each missing one with its own message |
| CreateStaff.InitialFormRefused | src/pages/staff/CreateStaff.jsx:42-46 | an untouched form is refused on every required field |
| CreateStaff.CreateStaffPage.constructor | src/pages/staff/CreateStaff.jsx:8-21 | the initial form, no errors, not submitting, no submit error |
| CreateStaff.CreateStaffPage.HandleChange | src/pages/staff/CreateStaff.jsx:23-37 | the field takes the checkbox flag or the text, every other field stays, and that field's error is emptied |
| CreateStaff.CreateStaffPage.ValidateForm | src/pages/staff/CreateStaff.jsx:39-50 | the new error map is the form's errors, and the result says whether it is empty |
| CreateStaff.CreateStaffPage.HandleSubmit | src/pages/staff/CreateStaff.jsx:52-69 | an invalid form sends nothing and changes only the errors; a valid one is sent as it stands; success navigates to '/staffs' with 'Staff member created successfully', failure shows the error's message or 'Failed to create staff member'; submitting ends either way |
| CreateStaff.Message | src/pages/staff/CreateStaff.jsx:42-46 | the required message of each of the five required fields |
| CreateStaff.Errors | src/pages/staff/CreateStaff.jsx:39-50 | the error map: one entry per empty required field |
| AssignModal.FilteredMeaning | src/components/complaint/AssignComplaintModal.jsx:17-30 | the shown staff keep the list's order; with an empty term they are the whole list, otherwise exactly the members whose name, email or department contains the term |
| AssignModal.FilterIgnoresCase | src/components/complaint/AssignComplaintModal.jsx:20-24 | the search ignores case: a term and its lowered form show the same staff |
| AssignModal.SearchFindsOwnName | src/components/complaint/AssignComplaintModal.jsx:20-24 | searching for a member's own non-empty name always shows that member |
| AssignModal.TonesMonotone | src/components/complaint/AssignComplaintModal.jsx:125-138 | more active complaints never improve the workload badge and a higher response rate never worsens its badge, with the boundaries at 3 and 6 and at 60 and 80 |
| AssignModal.OpenShowsEverything | src/components/complaint/AssignComplaintModal.jsx:33-38 | right after opening, the filter shows the whole list and the Assign button is disabled |
| AssignModal.AssignModalView.constructor | src/components/complaint/AssignComplaintModal.jsx:13-15 | nothing selected, no term, nothing shown |
| AssignModal.AssignModalView.SyncFilter | src/components/complaint/AssignComplaintModal.jsx:17-30 | with a list the shown staff become the filtered list; without one they stay |
| AssignModal.AssignModalView.Open | src/components/complaint/AssignComplaintModal.jsx:33-38 | opening clears the selection and the search term |
| AssignModal.AssignModalView.SetSearchTerm | src/components/complaint/AssignComplaintModal.jsx:91 | typing sets the term and nothing else |
| AssignModal.AssignModalView.Select | src/components/complaint/AssignComplaintModal.jsx:107 | clicking an entry selects its id and changes nothing else |
| AssignModal.AssignModalView.HandleAssign | src/components/complaint/AssignComplaintModal.jsx:40-45 | with a selection it asks for the assignment with the complaint-id prop and the selected id, then for closing; without one it asks for nothing |
| AssignModal.Matches | src/components/complaint/AssignComplaintModal.jsx:20-24 | the lowered term occurs in the lowered name, email or department |
| AssignModal.Filtered | src/components/complaint/AssignComplaintModal.jsx:17-30 | the entries the filter effect shows: the whole list for an empty term, the matching ones otherwise |
| AssignModal.WorkloadTone | src/components/complaint/AssignComplaintModal.jsx:125-128 | green under three active complaints, yellow under six, red from six on |
| AssignModal.RateTone | src/components/complaint/AssignComplaintModal.jsx:134-137 | green from 80, yellow from 60, red below |
| AssignModal.AssignDisabled | src/components/complaint/AssignComplaintModal.jsx:58 | Assign is disabled with nothing selected or while loading |
| ComplaintView.BadgeIgnoresCase | src/components/complaint/ComplaintDetail.jsx:22-37 | the status badge is chosen on the lowered status, so a status and its lowered form get the same badge |
| ComplaintView.ActionsTable | src/components/complaint/ComplaintDetail.jsx:206-241 | only a pending complaint offers Assign, pending and assigned ones offer Drop, only a resolved one offers Mark as Closed, and any other status offers nothing |
| ComplaintView.ActionsAreCaseSensitive | src/components/complaint/ComplaintDetail.jsx:22-37 | every status with an action has a coloured badge, but the actions compare the status exactly: 'Pending' is yellow and offers nothing |
| ComplaintView.ComplaintDetailView.constructor | src/components/complaint/ComplaintDetail.jsx:9-12 | both dialogs closed, no reason, no selection |
| ComplaintView.ComplaintDetailView.Perform | src/components/complaint/ComplaintDetail.jsx:206-241 | Assign and Drop open their dialogs and ask for nothing; Mark as Closed asks for an assignment of the complaint to 'close' |
| ComplaintView.ComplaintDetailView.SelectStaff | src/components/complaint/ComplaintDetail.jsx:284 | choosing a staff entry sets the selection and nothing else |
| ComplaintView.ComplaintDetailView.SetDropReason | src/components/complaint/ComplaintDetail.jsx:348 | typing sets the reason and nothing else |
| ComplaintView.ComplaintDetailView.HandleAssignSubmit | src/components/complaint/ComplaintDetail.jsx:39-44 | with a selection it asks for the assignment with the complaint's id and closes the dialog; without one nothing happens |
| ComplaintView.ComplaintDetailView.HandleDropSubmit | src/components/complaint/ComplaintDetail.jsx:46-51 | a non-empty reason, blank or not, is sent as typed and closes the dialog; an empty one does nothing |
| ComplaintView.ComplaintDetailView.CloseAssignModal | src/components/complaint/ComplaintDetail.jsx:250 | the assign dialog closes and nothing else changes |
| ComplaintView.ComplaintDetailView.CloseDropModal | src/components/complaint/ComplaintDetail.jsx:311 | the drop dialog closes and nothing else changes |
| ComplaintView.StatusBadge | src/components/complaint/ComplaintDetail.jsx:22-37 | the badge colour of the lowered status, gray for an unknown one |
| ComplaintView.Actions | src/components/complaint/ComplaintDetail.jsx:206-241 | the buttons each exact status offers |
| ComplaintPage.TopStaff | src/pages/complaint/ComplaintDetail.jsx:51 | the first three staff returned, or all of them when there are fewer |
| ComplaintPage.FindStaff | src/pages/complaint/ComplaintDetail.jsx:79 | the FIRST staff member with the id: a listed member with that id and no earlier one; none for an undefined id; some member whenever one has the id |
| ComplaintPage.ComplaintDetailPage.constructor | src/pages/complaint/ComplaintDetail.jsx:16-29 | no complaint, loading, no error, no staff, both dialogs closed, no reason, not processing, no messages |
| ComplaintPage.ComplaintDetailPage.FetchDetails | src/pages/complaint/ComplaintDetail.jsx:31-45 | a fetched complaint replaces the copy; a failed fetch sets 'Failed to fetch complaint details'; loading ends either way |
| ComplaintPage.ComplaintDetailPage.LoadStaffList | src/pages/complaint/ComplaintDetail.jsx:47-57 | a fetched list keeps its first three staff; a failure sets 'Failed to load staff list'; loading ends either way |
| ComplaintPage.ComplaintDetailPage.HandleAssignClick | src/pages/complaint/ComplaintDetail.jsx:59-62 | loads the staff list and opens the assign dialog |
| ComplaintPage.ComplaintDetailPage.HandleDropClick | src/pages/complaint/ComplaintDetail.jsx:64-66 | opens the drop dialog and changes nothing else |
| ComplaintPage.ComplaintDetailPage.SetDropReason | src/pages/complaint/ComplaintDetail.jsx:225 | typing sets the reason |
| ComplaintPage.ComplaintDetailPage.HandleAssignSubmit | src/pages/complaint/ComplaintDetail.jsx:68-92 | on success the copy becomes assigned to the listed member with that id, if any, every other field kept, with the success message and the dialog closed; on failure only the error is set |
| ComplaintPage.ComplaintDetailPage.HandleDropSubmit | src/pages/complaint/ComplaintDetail.jsx:94-124 | a reason that trims to empty sends nothing and only sets the error; otherwise the reason goes out as typed, and success marks the copy dropped with it, closes the dialog and empties the input, while failure only sets the error |
| ComplaintPage.ComplaintDetailPage.SendDrop | src/pages/complaint/ComplaintDetail.jsx:100-123 | the part after the reason check: success marks the copy dropped with the reason, closes the dialog and empties the input; failure sets 'Failed to drop complaint' |
| ComplaintPage.ComplaintDetailPage.DismissError | src/pages/complaint/ComplaintDetail.jsx:156 | the error banner's close button empties the error |
| ComplaintPage.ComplaintDetailPage.ClearSuccess | src/pages/complaint/ComplaintDetail.jsx:85-87 | the timer empties the success message |
| ComplaintPage.ComplaintDetailPage.CloseAssignModal | src/pages/complaint/ComplaintDetail.jsx:200 | the assign dialog closes |
| ComplaintPage.ComplaintDetailPage.CloseDropModal | src/pages/complaint/ComplaintDetail.jsx:210 | the drop dialog closes and the reason is kept |
| ComplaintPage.ComplaintDetailPage.AssignFromModalAsWritten | src/pages/complaint/ComplaintDetail.jsx:198-205 | the handler as wired receives the modal's first argument, the missing complaint id, so a successful assignment assigns the complaint to no one |
| ComplaintPage.ComplaintDetailPage.AssignFromModal | src/pages/complaint/ComplaintDetail.jsx:68-80 | wired as the modal intends, a successful assignment goes to the listed member with the selected id |
| ComplaintPage.WiredAssignLosesSelection | src/pages/complaint/ComplaintDetail.jsx:203 | for every selected listed member, the wired call finds no one while the intended call finds someone |
| ComplaintPage.WiredAssignExample | src/pages/complaint/ComplaintDetail.jsx:203 | one member with id '7', selected: the wired call finds no one, the intended call finds that member |
| ComplaintPage.DropReasonTrimmed | src/pages/complaint/ComplaintDetail.jsx:95 | the page refuses a reason of one space, which the detail component's own check lets through |
| ComplaintPage.ComplaintDetailPage.ShowsActions | src/pages/complaint/ComplaintDetail.jsx:164-189 | the Assign and Drop buttons show only when loaded without error and the status is exactly 'pending' |
| ComplaintPage.WiredStaffId | src/pages/complaint/ComplaintDetail.jsx:203 | the id handleAssignSubmit takes as the staff id when wired straight to the modal: the modal's first argument, its `complaintId` prop |
| StudentsPage.MessageOr | src/pages/student/Students.jsx:23 | `message or fallback`: a given message wins, and with a non-empty fallback the result is never empty |
| StudentsPage.SetActiveMeaning | src/pages/student/Students.jsx:62-64 | activating or deactivating keeps the list's length and order, sets the flag on the students with that id and leaves every other student as it was |
| StudentsPage.SetActiveLastWins | src/pages/student/Students.jsx:62-84 | of two successive activations or deactivations of one student, the second decides |
| StudentsPage.RemovedMeaning | src/pages/student/Students.jsx:107 | a delete keeps every other student in order, and no student with that id |
| StudentsPage.RemoveAbsent | src/pages/student/Students.jsx:107 | deleting an id no student has leaves the list unchanged |
| StudentsPage.ButtonsAgreeWithGuard | src/pages/student/Students.jsx:39-43 | with the page in range, Previous and Next are enabled exactly when the guard accepts the page they ask for |
| StudentsPage.StudentsListPage.constructor | src/pages/student/Students.jsx:6-13 | no students, loading, no messages, page 1 of 1, no search, all statuses |
| StudentsPage.StudentsListPage.FetchStudents | src/pages/student/Students.jsx:15-33 | asks for the current page, ten to a page, with the term and filter; data replaces the list and page count, an error field or a thrown error sets its message or the fallback; loading ends |
| StudentsPage.StudentsListPage.HandlePageChange | src/pages/student/Students.jsx:39-43 | a page between 1 and the page count is taken, any other is ignored |
| StudentsPage.StudentsListPage.SetSearchTerm | src/pages/student/Students.jsx:154 | typing sets the term and nothing else |
| StudentsPage.StudentsListPage.SetActiveFilter | src/pages/student/Students.jsx:170 | choosing a filter sets it and nothing else |
| StudentsPage.StudentsListPage.HandleSearch | src/pages/student/Students.jsx:45-49 | submitting the search goes back to page 1 |
| StudentsPage.StudentsListPage.ApplyActive | src/pages/student/Students.jsx:51-89 | on success the students with that id get the flag and the message is shown; on an error field or a thrown error only the error is set |
| StudentsPage.StudentsListPage.HandleActivate | src/pages/student/Students.jsx:51-69 | success marks the students with that id active with 'Student activated successfully'; a failure sets its message or the fallback |
| StudentsPage.StudentsListPage.HandleDeactivate | src/pages/student/Students.jsx:71-89 | success marks the students with that id inactive with 'Student deactivated successfully'; a failure sets its message or the fallback |
| StudentsPage.StudentsListPage.HandleDelete | src/pages/student/Students.jsx:91-112 | nothing is asked without confirmation; on success the students with that id leave the list with 'Student deleted successfully'; a failure sets its message or the fallback |
| StudentsPage.SetActive | src/pages/student/Students.jsx:62-64 | the list after an activate or deactivate: the students with that id take the new flag |
| StudentsPage.Removed | src/pages/student/Students.jsx:107 | the list after a delete: the students with another id |
| StudentsPage.AcceptsPage | src/pages/student/Students.jsx:39-43 | the page change guard: between 1 and totalPages |
| Text.Lower | src/components/complaint/AssignComplaintModal.jsx:21-23 | lowering keeps the length and maps every letter to lower case, leaving other characters alone |
| Text.LowerIdempotent | src/components/complaint/AssignComplaintModal.jsx:21-23 | lowering a lowered string changes nothing |
| Text.TrimStart | src/utils/formDate.js:161 | trimming the front drops exactly a leading run of whitespace and stops at the first other character |
| Text.TrimEnd | src/utils/formDate.js:161 | trimming the end drops exactly a trailing run of whitespace and stops at the last other character |
| Text.TrimEmptyIffBlank | src/pages/complaint/ComplaintDetail.jsx:95 | a string trims to empty exactly when all of it is whitespace |
| Text.TrimUnpadded | src/utils/formDate.js:161 | a string with no whitespace at either end trims to itself |
| Text.NatToString | src/utils/formDate.js:147-159 | a number's decimal rendering is a non-empty run of digits with no leading zero |
| Text.NatToStringRoundTrip | src/utils/formDate.js:147-159 | reading back a rendered number gives the number |
| Text.Split | src/utils/formatters.js:94 | splitting never leaves the separator in a piece and always gives at least one piece |
| Text.JoinSplit | src/utils/formatters.js:94-96 | joining the pieces of a split with the same separator gives the string back |
| Text.IntToStringInjective | src/components/notification/NotificationDropdown.jsx:44 | distinct notification ids render differently, so distinct ids route to distinct pages |

## Left out

- Rendering: JSX, class names other than the ones the logic chooses, icons, focus handling (`handleKeyDown` only moves focus), modal layout and the Back and Cancel navigation buttons.
- Timers: each `setTimeout` and `setInterval` callback is a method the caller invokes (`Tick`, `ClearSuccess`, `RemoveNotification`); their timing is not modelled.
- Browser storage, `FileReader` previews and `window.confirm`: their results are parameters, and the picture preview URL is not modelled.
- The locale library: `toLocaleString`, `toLocaleDateString` and `getRelativeDate` are one parameter of `FormDate.FormatDate`; the formatters that wrap other libraries (moment, `Intl`, file sizes) are not part of this model.
- Strings are sequences of characters: lengths are not UTF-16 code units, and case mapping is the ASCII one.
- Asynchrony: a fetch is split into the request and its outcome (`PaginationHook.Pager.BeginFetch` and `CompleteFetch`); interleavings of overlapping requests and stale closures (`handleSearch` fetching with the old page) are not modelled.
- Input names are limited to each form's declared fields; an event for an unknown name, which the source would add as a new key, is not modelled.
- Staff response rates and complaint counts are integers; fractional response rates are not modelled.
- PaginationHook.TotalPagesFor: requires a limit of at least 1. With a zero limit the source computes `Math.ceil(totalItems / 0)`: for a positive total that is Infinity, which the `|| 1` fallback keeps, and for a zero total it is NaN, which becomes 1 page. Neither value is an integer page count, so a zero limit is excluded.
- PaginationHook.Pager.constructor: requires an initial limit of at least 1, for the same reason.
- PaginationHook.Pager.SetLimit: requires a new limit of at least 1, for the same reason.
- Formatters.TruncateText: the maximum length is a natural number; a negative one is not modelled.
- Formatters.FormatNameIdempotent: stated for non-empty names only, since an empty name becomes 'N/A'.
- ComplaintPage.ComplaintDetailPage.HandleAssignSubmit: requires a loaded complaint, since the page only shows the modal once one is loaded; the spread of a null complaint is not modelled.
- ComplaintPage.ComplaintDetailPage.HandleDropSubmit: requires a loaded complaint, for the same reason.
- ComplaintPage.ComplaintDetailPage.SendDrop: requires a loaded complaint, for the same reason.
- ComplaintView.ComplaintDetailView.Perform: requires the action to be one the status offers, since only those buttons are rendered.
- NotificationDropdown.Dropdown.ClickMarkAll: requires the mark-all button to be shown, since it is rendered only when something is unread.
- NotificationDropdown.Dropdown.ClickViewAll: requires the view-all button to be shown, for the same reason.
- Validators.ValidateForm: requires distinct field names, which a JavaScript object of rules has by construction.
- NotificationStore.Store.ClearNotificationAsWritten: models the state change only; the `ReferenceError` the source then throws to its caller is not modelled.

## Findings

| source | as written | input that shows it | evidently intended | confidence | as-written member | corrected member |
|---|---|---|---|---|---|---|
| src/pages/complaint/ComplaintDetail.jsx:203 | the page passes `handleAssignSubmit(staffId)` as the modal's `onAssign`, but the modal calls `onAssign(complaintId, selectedStaffId)` (src/components/complaint/AssignComplaintModal.jsx:40-45) and the page gives it no `complaintId`, so the handler receives `undefined` | select the listed member with id '7' and press Assign: the request carries no staff id and the copy is marked assigned to no one | the selected staff id reaches `assignComplaint` and `assignedTo` | not executed | ComplaintPage.ComplaintDetailPage.AssignFromModalAsWritten | ComplaintPage.ComplaintDetailPage.AssignFromModal |
| src/contexts/NotificationContext.jsx:184-186 | `clearNotification` finds the entry inside the list updater but tests `notification` outside it, where the name is undeclared, so the unread counter is never lowered | one unread entry, counter 1: clearing it leaves the counter at 1 over an empty list | the counter drops by one when the cleared entry was unread | not executed | NotificationStore.Store.ClearNotificationAsWritten | NotificationStore.Store.ClearNotification |
