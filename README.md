# time-trade-frontend — a Dafny model of its client-side logic

The application is a Next.js front end over a hosted backend: a personal reminder
planner (a home list of today's reminders, a month calendar with per-day dots, an
"add reminder" sheet), a community board (post list, new-post form), a profile page
and the shared chrome (floating header, bottom navigation, route-change spinner,
banner carousel). This project models the logic those components run in the browser:

- the day arithmetic they rely on (date-fns `startOfMonth`, `endOfMonth`,
  `eachDayOfInterval`, `getDay`, `format(d, 'yyyy-MM-dd')`, and
  `Date.prototype.toISOString`);
- the rows they read and write, and the filters on them;
- the state of each component as a class whose methods are its event handlers.

The backend tables are in-memory classes (`ReminderModel.ReminderStore`,
`NewPost.PostTable`). Whether a backend call fails is a boolean parameter. What the
backend hands back (the signed-in user, a profile row, a public URL, the clock) is a
parameter too. A handler that starts a fetch without awaiting it returns a flag for
each fetch it starts. The caller then runs that fetch as a separate event.

Modules, one per source file plus shared ones:

- `Options`, `Text`, `Seqs`: an option type; JavaScript string operations (`String(n)`, `padStart`, `trim`, `split`, `charAt`, `||`); sequence filters.
- `Calendar`, `IsoDate`: proleptic Gregorian dates numbered in days from 1970-01-01. On top of them, `yyyy-MM-dd` formatting and the date part of `toISOString`, both with their read-back.
- `ReminderModel`: the `reminders` row, the active/done split and the table stand-in.
- `RemindersPage` (`app/reminders/page.tsx`), `TodayReminders` and `AddReminder` (`components/home/`).
- `CommunityList` (`app/community/page.tsx`), `NewPost` (`app/community/new/page.tsx`), `Profile` (`app/profile/page.tsx`).
- `HomeHeader`, `PageLoadingSpinner`, `BottomNav`, `BannerCarousel` (`components/common/`).

A new reminder is meant to default to the current day in a fixed time zone offset.
The code stores the UTC date of the chosen instant instead. The model follows the
code, and the difference is the first finding below.

## Model

| member | source | states |
|---|---|---|
| Text.NatToStringRoundTrip | components/common/banner-carousel.tsx:93 | `String(n)` of a non-negative number reads back as `n` |
| Text.PadStart | components/common/banner-carousel.tsx:93 | `padStart` fills on the left up to the width, never truncates, and ends with the original string |
| Text.PaddedNumberRoundTrip | components/common/banner-carousel.tsx:93 | a zero-padded number is all digits and reads back as the number |
| Text.TrimEmptyIffBlank | components/home/FloatingAddButton.tsx:39 | `trim()` gives the empty string exactly when every character is white space |
| Text.TrimIsInfix | app/community/new/page.tsx:98-99 | the trimmed text is a contiguous part of the original |
| Text.SplitJoin | app/community/new/page.tsx:73 | joining the pieces of `split('.')` with '.' gives the name back |
| Text.SplitLast | app/community/new/page.tsx:73 | `split(c).pop()` is the suffix after the last separator, free of separators, or the whole string when it has none |
| Text.FirstChar | app/profile/page.tsx:95 | `charAt(0)` is one character, the first, or empty for the empty string |
| Text.OrElse | app/profile/page.tsx:74-76 | `s \|\| fallback` gives the string when present and non-empty, and the fallback otherwise |
| Seqs.Any | app/reminders/page.tsx:36 | `some` holds exactly when some element satisfies the test |
| Seqs.FilterMembership | app/reminders/page.tsx:74-75 | a value is in a `filter` result exactly when it is in the list and passes the test |
| Calendar.FromDayNumber | components/home/TodayReminders.tsx:15-16 | every day number names exactly one valid date |
| Calendar.DayNumberInjective | app/reminders/page.tsx:170-172 | two valid dates with the same day number are the same day (`isSameDay`) |
| Calendar.DayNumberRoundTrip | app/reminders/page.tsx:170-172 | a date comes back from its day number |
| Calendar.DayOfWeek | app/reminders/page.tsx:31 | `getDay()` lies in 0..6 |
| Calendar.NextDayNextWeekday | app/reminders/page.tsx:31 | the next day falls on the next weekday, Saturday wrapping to Sunday |
| Calendar.EndOfMonth | app/reminders/page.tsx:24 | `endOfMonth` is the month's last day: no valid day of that month comes later |
| Calendar.EndOfMonthThenNextMonth | app/reminders/page.tsx:24 | the day after `endOfMonth` is the first of the next month |
| Calendar.EachDayOfInterval | app/reminders/page.tsx:25 | every day from start to end inclusive, consecutive and ascending |
| Calendar.MonthDays | app/reminders/page.tsx:23-25 | a month's interval is day 1 to its last day, 28 to 31 days, no gap |
| IsoDate.UtcDate | components/home/TodayReminders.tsx:16 | the UTC day of an instant is the day whose 24 hours contain it |
| IsoDate.IsoDateStringIsDatePart | components/home/TodayReminders.tsx:16 | `toISOString().split("T")[0]` is exactly the date part of the instant's UTC date |
| IsoDate.ParseYmd | app/reminders/page.tsx:47-48 | a string is read as a date exactly when it has the `dddd-dd-dd` shape |
| IsoDate.IsoDatePartRoundTrip | components/home/TodayReminders.tsx:16 | for years 0..9999 the ISO date part is ten characters and reads back as the date |
| IsoDate.FormatYmdIsIsoDatePart | app/reminders/page.tsx:61 | for years 1..9999 `format(d, 'yyyy-MM-dd')` equals the ISO date part |
| IsoDate.FormatYmdRoundTrip | app/reminders/page.tsx:35 | for years 1..9999 the formatted date reads back as the date |
| IsoDate.FormatYmdInjective | app/reminders/page.tsx:35-36 | for years 1..9999 two dates format alike exactly when they are the same day |
| ReminderModel.StatusFor | app/reminders/page.tsx:91 | a toggle writes 'done' exactly when marking done, and 'pending' otherwise |
| ReminderModel.ShowDoneSection | app/reminders/page.tsx:240 | the done section is shown exactly for a non-empty done list |
| ReminderModel.PartitionComplete | app/reminders/page.tsx:74-75 | the active and done lists together are the day's rows (as a multiset), active rows are not done, done rows are done |
| ReminderModel.PartitionStable | app/reminders/page.tsx:74-75 | the split preserves order: it distributes over concatenation |
| ReminderModel.PartitionExample | components/home/TodayReminders.tsx:35-36 | pending, done, pending, done splits into items 1, 3 and items 2, 4 |
| ReminderModel.WithStatus | app/reminders/page.tsx:92-95 | the update changes the status of the rows with the id and nothing else |
| ReminderModel.DeleteDoneOnEffect | app/reminders/page.tsx:114-118 | the bulk delete empties that day's done list, keeps its active list and leaves every other day unchanged |
| ReminderModel.MarkDoneLeavesActive | components/home/TodayReminders.tsx:80-83 | marking a row done and fetching the day again gives the old active list minus that id |
| ReminderModel.ReminderStore.Insert | components/home/FloatingAddButton.tsx:46-53 | a successful insert appends the row; on an error nothing changes |
| ReminderModel.ReminderStore.UpdateStatus | app/reminders/page.tsx:92-95 | a successful update rewrites the status of the matching rows; on an error nothing changes |
| ReminderModel.ReminderStore.DeleteById | app/reminders/page.tsx:106 | a successful delete removes the rows with the id; on an error nothing changes |
| ReminderModel.ReminderStore.DeleteDoneOn | app/reminders/page.tsx:114-118 | a successful delete removes the done rows of the date; on an error nothing changes |
| RemindersPage.MonthRangeInclusive | app/reminders/page.tsx:41-48 | a day lies within the `gte`/`lte` bounds exactly when it belongs to the month (years 1..9999) |
| RemindersPage.HasReminders | app/reminders/page.tsx:34-37 | a day has a dot exactly when its `yyyy-MM-dd` string is among the fetched dates |
| RemindersPage.DotIffStored | app/reminders/page.tsx:34-56 | after a month fetch, a day of the month shows a dot exactly when some row is dated that day |
| RemindersPage.MonthGrid | app/reminders/page.tsx:164-173 | the grid is as many blanks as day 1's weekday, then every day of the month in order with its dot |
| RemindersPage.GridFollowsInterval | app/reminders/page.tsx:23-25 | the grid's day cells are exactly the days `eachDayOfInterval` lists from `startOfMonth` to `endOfMonth`, in order, each with its `hasReminders` dot |
| RemindersPage.WeekdayInMonth | app/reminders/page.tsx:164-166 | day `k` of a month falls `k - 1` weekdays after day 1 |
| RemindersPage.SingleDateMarksOneCell | app/reminders/page.tsx:169-173 | a grid built for a single stored day marks that day's cell and no other |
| RemindersPage.GridColumns | app/reminders/page.tsx:164-166 | in seven columns, every day lands under its own weekday heading |
| RemindersPage.CellStyleOf | app/reminders/page.tsx:179-186 | exactly one style applies: selected first, then today, past, or upcoming |
| RemindersPage.SectionHeading | app/reminders/page.tsx:204-244 | "오늘 " and the noun exactly when the selected day is today, else the `M월 d일` label and the noun; the to-do heading (:204) passes "할일", the done heading (:244) "완료" |
| RemindersPage.TodoSection | app/reminders/page.tsx:126-213 | loading wins, then the empty note, then the list; the note is "할일이 없었어요" exactly when the selected day is before today (`isPast`, :126), else "할일이 없어요" |
| RemindersPage.TodayGetsPresentNote | app/reminders/page.tsx:124-126 | today's empty list gets the present-tense note |
| RemindersPage.Page.constructor | app/reminders/page.tsx:15-20 | the selected day and the shown month start at today, with empty lists |
| RemindersPage.Page.FetchMonthReminders | app/reminders/page.tsx:40-56 | the dots become the month's row dates; on an error the old dots stay |
| RemindersPage.Page.FetchReminders | app/reminders/page.tsx:59-79 | the lists become the day's active and done rows; on an error loading stays raised and the lists stay |
| RemindersPage.Page.SelectDay | app/reminders/page.tsx:85-178 | a click (:178) selects the day and changes nothing else; the `[selectedDate]` effect (:85-87) then fetches that day again, every time |
| RemindersPage.Page.ToggleDone | app/reminders/page.tsx:90-102 | the status is written, and the day is fetched again only on success |
| RemindersPage.Page.DeleteDone | app/reminders/page.tsx:105-109 | the row is deleted, and the day is fetched again whatever the outcome |
| RemindersPage.Page.DeleteAllDone | app/reminders/page.tsx:112-122 | the selected day's done rows are deleted, and both the day and the month are fetched again |
| RemindersPage.Page.OnAdded | app/reminders/page.tsx:280-283 | after an add, both the selected day and the month are fetched again |
| TodayReminders.KstDateIsKoreanDay | components/home/TodayReminders.tsx:13-17 | `getKSTDate` is the ten-character form of the calendar day in Korea and reads back as it |
| TodayReminders.KstDayExample | components/home/TodayReminders.tsx:13-17 | 2024-01-31T15:00Z is 1 February in Korea; a millisecond earlier it is 31 January |
| TodayReminders.TodaySection | components/home/TodayReminders.tsx:109-112 | loading wins, then "오늘 할일이 없어요" for an empty list, then the list |
| TodayReminders.TodayList.constructor | components/home/TodayReminders.tsx:10-12 | empty lists, not loading |
| TodayReminders.TodayList.FetchReminders | components/home/TodayReminders.tsx:22-40 | the lists become the Korean day's active and done rows; on an error loading stays raised and the lists stay |
| TodayReminders.TodayList.ToggleDone | components/home/TodayReminders.tsx:70-85 | on success the active list drops the id when marked done, stays in sync with the table, and a fetch follows |
| TodayReminders.TodayList.DeleteDone | components/home/TodayReminders.tsx:88-92 | the row is deleted and a fetch follows whatever the outcome |
| TodayReminders.TodayList.DeleteAllDone | components/home/TodayReminders.tsx:95-99 | today's done rows (Korean date) are deleted and a fetch follows |
| AddReminder.NewReminder | components/home/FloatingAddButton.tsx:46-53 | the inserted row is pending, not important, with the user, the untrimmed text and the date string |
| AddReminder.UtcDayVersusKstDay | components/home/FloatingAddButton.tsx:44 | the UTC day equals the Korean day exactly before 15:00 UTC; after that Korea is a day ahead |
| AddReminder.IsoDatePartInjective | components/home/FloatingAddButton.tsx:44 | for years 0..9999 two ISO date parts agree exactly for the same day |
| AddReminder.AsWrittenDefaultDate | components/home/FloatingAddButton.tsx:44 | as written, a default-dated reminder lands on the home list's day exactly from 09:00 KST on |
| AddReminder.AsWrittenMorningExample | components/home/FloatingAddButton.tsx:44 | as written, at 08:00 KST on 1 February 2024 the row is dated 31 January |
| AddReminder.AsWrittenPickedDayInKorea | components/home/FloatingAddButton.tsx:44 | as written, a day picked in Korea (local midnight) is stored as the day before |
| AddReminder.DefaultDateIsToday | components/home/FloatingAddButton.tsx:44 | corrected: the default date is stored as the Korean day the home list asks for |
| AddReminder.PickedDayIsStored | components/home/FloatingAddButton.tsx:104-107 | corrected: a picked day is stored as that day in any time zone |
| AddReminder.SaveOutcomeOrder | components/home/FloatingAddButton.tsx:35-42 | a missing user is reported first, then a blank text, then the insert's outcome; the four cases are exclusive |
| AddReminder.AddSheet.constructor | components/home/FloatingAddButton.tsx:24-27 | closed, empty text, dated now, calendar closed |
| AddReminder.AddSheet.SetOpen | components/home/FloatingAddButton.tsx:72 | the button opens the sheet, changing nothing else |
| AddReminder.AddSheet.SetCalendarOpen | components/home/FloatingAddButton.tsx:90 | the popover opens or closes, changing nothing else |
| AddReminder.AddSheet.EditTask | components/home/FloatingAddButton.tsx:121 | typing replaces the text, changing nothing else |
| AddReminder.AddSheet.SelectCalendarDate | components/home/FloatingAddButton.tsx:104-107 | a picked date replaces the selection, no date keeps it; the popover closes |
| AddReminder.AddSheet.Save | components/home/FloatingAddButton.tsx:30-66 | only an `Added` outcome inserts the pending row and resets the form and notifies; every other outcome changes nothing |
| AddReminder.AddSheet.InsertPending | components/home/FloatingAddButton.tsx:46-65 | the pending row is appended exactly when the insert succeeds, and only then is the text cleared, the date reset to now, the sheet closed and `onAdded` called |
| NewPost.SizeLimitBoundary | app/community/new/page.tsx:26 | a file is refused exactly above 5 MiB: 5242880 bytes pass, 5242881 do not |
| NewPost.ExtensionIsAfterLastDot | app/community/new/page.tsx:73 | the extension is the text after the last '.', or the whole name without one |
| NewPost.StoragePathKeepsExtension | app/community/new/page.tsx:73-75 | the upload path lies under `community/` and keeps the file's extension |
| NewPost.NewPostRow | app/community/new/page.tsx:93-104 | trimmed title and body, zero counters, and the nickname or "사용자" as the non-empty author name |
| NewPost.StoredTextIsTrimmed | app/community/new/page.tsx:98-99 | a field that passed the check is stored non-empty with no white space at either end |
| NewPost.PostTable.Insert | app/community/new/page.tsx:93-104 | a successful insert appends the post; on an error nothing changes |
| NewPost.RedirectOf | app/community/new/page.tsx:106-111 | to /login without a user, to /community after posting, nowhere after a failed insert |
| NewPost.NewPostPage.constructor | app/community/new/page.tsx:16-21 | an empty, non-anonymous form with no image, not submitting |
| NewPost.NewPostPage.EditTitle | app/community/new/page.tsx:152 | typing replaces the title, changing nothing else |
| NewPost.NewPostPage.EditContent | app/community/new/page.tsx:163 | typing replaces the body, changing nothing else |
| NewPost.NewPostPage.SetAnonymous | app/community/new/page.tsx:144 | the switch sets the anonymity flag, changing nothing else |
| NewPost.NewPostPage.SelectImage | app/community/new/page.tsx:23-31 | a file over the limit is refused with nothing changed; otherwise it is held; a held file is never too large |
| NewPost.NewPostPage.PreviewLoaded | app/community/new/page.tsx:33-35 | the read data URL becomes the preview |
| NewPost.NewPostPage.RemoveImage | app/community/new/page.tsx:40-43 | both the file and the preview are dropped |
| NewPost.UploadImage | app/community/new/page.tsx:69-90 | with a file, the upload goes to the storage path built from the user, the clock and the extension; the post gets the public URL only when the upload succeeds; with no file nothing is uploaded |
| NewPost.NewPostPage.StartSubmit | app/community/new/page.tsx:45-51 | it proceeds exactly when neither field is blank, and then raises `isSubmitting` |
| NewPost.Publish | app/community/new/page.tsx:69-104 | with an image, the upload path is `community/<user>-<ms>.<ext>`; the public URL is kept only if the upload worked; the post row is appended exactly when the insert succeeds |
| NewPost.NewPostPage.FinishSubmit | app/community/new/page.tsx:53-117 | no user means no upload and no insert; a failed upload only drops the image; the post is inserted on success; `isSubmitting` always ends lowered |
| CommunityList.Flatten | app/community/page.tsx:49-53 | the profile image moves to the top level and every other field is kept |
| CommunityList.Transform | app/community/page.tsx:49-53 | every row is flattened, in the order fetched; no data gives no posts |
| CommunityList.FlattenKeepsEverythingElse | app/community/page.tsx:49-53 | putting the image back under `profiles` restores the fetched row |
| CommunityList.DisplayName | app/community/page.tsx:104 | "익명" for an anonymous post, otherwise the author name |
| CommunityList.AvatarSrc | app/community/page.tsx:97 | never a picture for an anonymous post; otherwise the profile image when non-empty |
| CommunityList.FallbackInitial | app/community/page.tsx:99 | one character: '익' when anonymous, else the name's first letter, else 'U' |
| CommunityList.CountShown | app/community/page.tsx:124 | a missing count shows as 0, a present one as itself |
| CommunityList.AnonymousHidesAuthor | app/community/page.tsx:97-104 | an anonymous post's card is the same whoever wrote it |
| CommunityList.ListOf | app/community/page.tsx:79-88 | loading note, then the empty note, then one card per post in order |
| CommunityList.CommunityPage.constructor | app/community/page.tsx:28-29 | no posts, loading |
| CommunityList.CommunityPage.FetchPosts | app/community/page.tsx:35-57 | the posts become the flattened rows; on an error they stay; loading ends either way |
| Profile.DisplayName | app/profile/page.tsx:74 | the nickname when present and non-empty, else "사용자"; never empty |
| Profile.EmailLine | app/profile/page.tsx:76 | the e-mail when present and non-empty, else "환영합니다" |
| Profile.AvatarInitial | app/profile/page.tsx:95 | exactly one character, the display name's first |
| Profile.DefaultInitial | app/profile/page.tsx:74 | without a nickname the initial is '사' |
| Profile.AvatarUrl | app/profile/page.tsx:75 | the profile's image, or none without a profile |
| Profile.ViewOf | app/profile/page.tsx:66-72 | the loading screen exactly while loading, else the name, e-mail, avatar and initial |
| Profile.ProfilePage.constructor | app/profile/page.tsx:19-21 | no user, no profile, loading |
| Profile.ProfilePage.CheckUser | app/profile/page.tsx:27-53 | without a user: redirect to /login, still loading; else the user is kept, the profile only when its query succeeds, and loading ends |
| Profile.ProfilePage.Logout | app/profile/page.tsx:55-64 | to /login exactly when signing out succeeds |
| HomeHeader.ShowsAfter | components/common/HomeHeader.tsx:16-22 | the header hides exactly when the page scrolls down to a position past 80 |
| HomeHeader.NearTopShows | components/common/HomeHeader.tsx:16 | at or above 80 the header always shows |
| HomeHeader.ScrollUpShows | components/common/HomeHeader.tsx:19-21 | scrolling up or standing still always shows the header |
| HomeHeader.FloatingHeader.constructor | components/common/HomeHeader.tsx:10-11 | shown, last position 0 |
| HomeHeader.FloatingHeader.OnScroll | components/common/HomeHeader.tsx:14-24 | the visibility depends only on the last and current position; the current becomes the last; a hidden header was last seen past 80 |
| PageLoadingSpinner.CurrentPath | components/common/PageLoadingSpinner.tsx:14 | the current path is the pathname followed directly by the query string, or by nothing |
| PageLoadingSpinner.EffectStep | components/common/PageLoadingSpinner.tsx:16-30 | the flag rises exactly for a recorded path that differs, which is then kept; otherwise the path is recorded; a timer is pending exactly while loading |
| PageLoadingSpinner.TimerStep | components/common/PageLoadingSpinner.tsx:21-23 | a pending timer lowers the flag; the recorded path is untouched |
| PageLoadingSpinner.Overlay | components/common/PageLoadingSpinner.tsx:33-42 | the overlay with "로딩 중..." exists exactly while loading |
| PageLoadingSpinner.FirstRunShowsNothing | components/common/PageLoadingSpinner.tsx:26-29 | the first run records the path and shows nothing |
| PageLoadingSpinner.RecordedPathIsFirst | components/common/PageLoadingSpinner.tsx:17-30 | as written, once recorded the path is never replaced, whatever the later paths |
| PageLoadingSpinner.AsWrittenBackToFirstPage | components/common/PageLoadingSpinner.tsx:17-30 | as written, "/" then "/community" then "/" shows no overlay on the way back |
| PageLoadingSpinner.CorrectedEffectStep | components/common/PageLoadingSpinner.tsx:17-30 | corrected: the same rule for the flag, but the new path is always recorded |
| PageLoadingSpinner.CorrectedRecordsLast | components/common/PageLoadingSpinner.tsx:17-30 | corrected: the recorded path is always the last one visited |
| PageLoadingSpinner.CorrectedShowsEveryChange | components/common/PageLoadingSpinner.tsx:16-18 | corrected: the overlay appears exactly when the next path differs from the last one visited |
| PageLoadingSpinner.Spinner.constructor | components/common/PageLoadingSpinner.tsx:10-11 | not loading, nothing recorded, no timer |
| PageLoadingSpinner.Spinner.Effect | components/common/PageLoadingSpinner.tsx:13-31 | the new state is the as-written step on the current path; a timer is pending exactly while loading |
| PageLoadingSpinner.Spinner.TimerFired | components/common/PageLoadingSpinner.tsx:21-23 | the flag is lowered and the recorded path kept |
| BottomNav.Bar | components/common/BottomNav.tsx:29-45 | one button per item in table order, highlighted exactly when the pathname equals its path |
| BottomNav.PathsDistinct | components/common/BottomNav.tsx:10-15 | the four paths are pairwise different |
| BottomNav.AtMostOneActive | components/common/BottomNav.tsx:31 | at most one button is highlighted, whatever the pathname |
| BottomNav.ClickTarget | components/common/BottomNav.tsx:35 | a click goes to exactly the item's path |
| BottomNav.ClickHighlightsItem | components/common/BottomNav.tsx:31-35 | after a click the clicked button, and no other, is highlighted |
| BottomNav.SubPathHighlightsNothing | components/common/BottomNav.tsx:31 | a page below "/chat" highlights nothing: prefixes do not match |
| BannerCarousel.IndexLabel | components/common/banner-carousel.tsx:93 | the label is at least five characters long; its content is what IndexLabelRoundTrip and TwoDigitsNeverTruncates state |
| BannerCarousel.IndexLabelRoundTrip | components/common/banner-carousel.tsx:93 | splitting the label at '/' reads back the one-based index and the total |
| BannerCarousel.TwoDigitsNeverTruncates | components/common/banner-carousel.tsx:93 | padding keeps the whole number: from 10 on unchanged, below 10 one leading '0' |
| BannerCarousel.LabelEndsWithTotal | components/common/banner-carousel.tsx:13-20 | there are four slides, so the label ends in "/04" |
| BannerCarousel.InitialLabel | components/common/banner-carousel.tsx:10 | the first slide's label is "01/04" |
| BannerCarousel.Carousel.constructor | components/common/banner-carousel.tsx:10-11 | the first slide, playing |
| BannerCarousel.Carousel.Label | components/common/banner-carousel.tsx:93 | the shown label ends in "/04" |
| BannerCarousel.Carousel.OnSelect | components/common/banner-carousel.tsx:23-26 | the library's selected slide becomes the index; nothing happens before the library is ready |
| BannerCarousel.Carousel.TogglePlay | components/common/banner-carousel.tsx:69 | the play button flips playing and paused |

## Left out

- The backend SDK (queries, inserts, updates, deletes, auth, storage upload, `getPublicUrl`): it is a foreign service. In-memory tables stand in for it, and its answers and errors are parameters.
- Row order: the reminder table keeps insertion order, which stands for `created_at` ascending. The community list takes the backend's newest-first order as given.
- Users: no reminder query filters by user, and the model does the same. Row-level security on the backend is outside the model.
- `is_important` is not sent on insert; its column default is taken to be false.
- The realtime subscription of the home list (components/home/TodayReminders.tsx:46-65): it is asynchronous and event-driven. A change it reports would only start the same fetch that is modelled.
- Timers: carousel autoplay (components/common/banner-carousel.tsx:35-43) and the spinner's 200 ms timeout are explicit events, not time.
- The carousel library: embla's looping, `scrollNext` and snap computation. Its selected snap is a parameter.
- The indicator bar width (components/common/banner-carousel.tsx:85): it is a floating-point percentage.
- `FileReader` is not modelled; only the result handed to `onloadend` is. Window scroll listeners are left out too: each scroll is an event whose position is a parameter.
- Scroll positions are integers; `window.scrollY` can be fractional.
- Locale text from date-fns `ko`: the `yyyy년 M월` month heading, the `yyyy년 M월 d일 (EEE)` date button and toast, and `formatDistanceToNow`. Only `M월 d일` is modelled.
- Toast texts, console logging, `router.back()` and the card-click navigation to a post.
- The `catch` branch of the new-post handler (app/community/new/page.tsx:112-114) is not modelled: the backend's answers are parameters, so nothing throws. The `finally` lowering of `isSubmitting` is modelled.
- Browser-enforced `maxLength` on the title (100) and body (2000).
- Strings are sequences of code points: `length` and `charAt(0)` differ from UTF-16 on characters outside the Basic Multilingual Plane.
- Time zones: the browser's zone is a fixed offset, with no daylight saving. The calendar component is assumed to hand back local midnight of the picked day.
- Instants are milliseconds limited to the JavaScript `Date` range.
- `today` in the schedule page is a parameter (a `Date` of the local calendar).
- The comment-threading page (app/community/[id]/page.tsx) is not part of this model. Neither are the login pages, the slot pages, the layout, the home page, or the markup-only components (header, menu card, slot card, floating button, responsive container).
- IsoDate.IsoDatePartRoundTrip: holds only for years 0..9999; the six-digit extended years of `toISOString` are not read back.
- IsoDate.FormatYmdRoundTrip: holds only for years 1..9999; date-fns era years for years up to 0 are not read back.
- RemindersPage.MonthRangeInclusive: stated for years 1..9999 only.
- TodayReminders.KstDateIsKoreanDay: stated for Korean years 0..9999 only.
- AddReminder.AddSheet.Save: stores the date as the source does (the UTC date); the intended date, AddReminder.StoredDate, appears only in the corrected lemmas (see Findings).
- PageLoadingSpinner.Spinner.Effect: keeps the source's recording of the first path only; the corrected step is PageLoadingSpinner.CorrectedEffectStep (see Findings).

## Findings

In both rows the state classes keep the behaviour as written, since they model the
application. The corrected definitions sit beside them, with the intended property
proved about each.

| source | as written | input that shows it | evidently intended | confidence | as-written member | corrected member |
|---|---|---|---|---|---|---|
| components/home/FloatingAddButton.tsx:44 | the reminder's date is `selectedDate.toISOString().split("T")[0]`, the UTC date of the chosen instant | at 2024-01-31T23:00:00Z (08:00 on 1 February in Korea) the default-dated row is stored as 2024-01-31, while the home list asks for 2024-02-01; a day picked in the calendar in Korea (local midnight) is stored as the day before | the day the sheet shows, written `yyyy-MM-dd` in the browser's time zone | high; not executed | AddReminder.AsWrittenDefaultDate, AddReminder.AsWrittenMorningExample, AddReminder.AsWrittenPickedDayInKorea | AddReminder.StoredDate, with AddReminder.DefaultDateIsToday and AddReminder.PickedDayIsStored |
| components/common/PageLoadingSpinner.tsx:17-30 | `prevPath` is recorded only when nothing is recorded or the path is unchanged, so it stays the first path visited | visiting "/" then "/community" then "/" shows no overlay on the way back to "/" | record the new path on every run, so each change of route shows the overlay | medium; not executed | PageLoadingSpinner.RecordedPathIsFirst, PageLoadingSpinner.AsWrittenBackToFirstPage | PageLoadingSpinner.CorrectedEffectStep, with PageLoadingSpinner.CorrectedRecordsLast and PageLoadingSpinner.CorrectedShowsEveryChange |
