# CRESA recognition app — a Dafny model of its core

CRESA's employee-recognition application lets colleagues give each other
applause ("Millas Extra") tied to one of five company principles. Every applause
received is worth 100 points and moves the receiver up a seven-step level
ladder. Three applause for one principle earn that principle's badge. Points
can be spent on rewards in the marketplace. Administrators see a dashboard, a
searchable and paginated data table with CSV export, and a chart of applause
per principle. All data lives in Google Sheets, read as CSV and turned into
typed records.

This project models that core in Dafny, one module per source file:

| module | source file | form |
|---|---|---|
| `Constants` | `constants.ts` | values |
| `Types` | `types.ts` | datatypes |
| `LevelUtils` | `utils/levelUtils.ts` | functions, `getUserLevel` as a method with its loop |
| `BadgeUtils` | `utils/badgeUtils.ts` | the grouping loop and the badge loop as methods, specified by functions |
| `CsvExporter` | `utils/csvExporter.ts` | the line-building loop as a method, specified by functions |
| `SheetsService` | `services/googleSheetsService.ts` | header normalisation and transforms as functions, the row-building loop as a method |
| `AuthContext` | `context/AuthContext.tsx` | the session as a class, notifications as methods specified by functions |
| `DataContext` | `context/DataContext.tsx` | the loaded data as a class |
| `ToastContext` | `context/ToastContext.tsx` | the toast list as a class |
| `DataTable` | `components/admin/DataTable.tsx` | derived values as functions, the component state as a class |
| `PrinciplesChart` | `components/admin/PrinciplesChart.tsx` | functions |
| `Leaderboard` | `components/user/Leaderboard.tsx` | functions |
| `RewardCard` | `components/user/RewardCard.tsx` | functions |
| `AdminDashboard` | `pages/AdminDashboard.tsx` | functions |
| `Marketplace` | `pages/Marketplace.tsx` | derived values as functions, the page state as a class |
| `MyResults` | `pages/MyResults.tsx` | functions |

Three helper modules hold the JavaScript semantics the code relies on:

- `Js`: `Option`, ASCII `toLowerCase`, `trim`, `includes`, `split` and `join`, `parseInt` with and without a radix, and `String(n)`.
- `Seqs`: `filter`, counting, sums, `map`, `slice` and the stable `sort`, with their lemmas.
- `JsObject`: plain objects used as dictionaries, with `Object.keys`/`Object.entries` key order (integer-like keys first, ascending, then insertion order).

Dates are strings, as in the sheets. Wherever the code turns a date into a
number (`new Date(x).getTime()`), the model takes the conversion as a function
parameter `timeOf`. The current time and the network are parameters as well.

## Model

| member | source | states |
|---|---|---|
| `Constants.LevelsWellFormed` | constants.ts:20-28 | The level ladder starts at level 0 with threshold 0, entry i is level i, thresholds strictly increase, and the top level (6) needs 12 applause. |
| `Constants.BadgeDefinitionsDistinct` | constants.ts:32-38 | There are five badge definitions, and no two share a name or a principle. |
| `LevelUtils.CalculateGrossPoints` | utils/levelUtils.ts:21-23 | Gross points are a multiple of 100, and dividing them by 100 gives the applause count back. |
| `LevelUtils.FindReward` | utils/levelUtils.ts:47 | `find` returns the first reward carrying the id, or nothing exactly when no reward carries it. |
| `LevelUtils.CalculateNetPoints` | utils/levelUtils.ts:34-55 | With no redemptions, net points equal gross points. The lemmas below give the rest of its meaning. |
| `LevelUtils.SpentNonNegative` | utils/levelUtils.ts:45-52 | When no parsed cost is negative, the points spent on redemptions that are not rejected are never negative. |
| `LevelUtils.NetAtMostGross` | utils/levelUtils.ts:34-55 | When no parsed cost is negative, net points never exceed gross points. |
| `LevelUtils.NetAfterRedemption` | utils/levelUtils.ts:41-54 | Appending a redemption lowers net points by its cost, which is 0 for an unknown reward or an unparsable cost, unless it is rejected. |
| `LevelUtils.NetAfterRejection` | utils/levelUtils.ts:41-43 | Replacing a redemption by a rejected one gives back exactly the cost it held, if it was not already rejected. |
| `LevelUtils.ActiveSplit` | utils/levelUtils.ts:41-52 | Spent points split over a list cut around one redemption, which counts only when it is not rejected. |
| `LevelUtils.NetPermutation` | utils/levelUtils.ts:41-54 | Net points do not depend on the order of the redemptions. |
| `LevelUtils.HighestReached` | utils/levelUtils.ts:63-77 | The reference search from the top: the highest level whose threshold the count reaches, or level 0; every higher level is out of reach. |
| `LevelUtils.GetUserLevel` | utils/levelUtils.ts:63-77 | The bottom-up loop with its `break` returns the level the search from the top finds. That level is in the ladder, and its threshold is reached unless it is level 0. |
| `LevelUtils.LevelClosedForm` | constants.ts:20-28 | The level of a count is 0 for a negative count, count/2 up to 12 applause, and 6 from then on. |
| `LevelUtils.LevelMonotone` | utils/levelUtils.ts:63-77 | More applause never gives a lower level. |
| `LevelUtils.GetNextLevelInfo` | utils/levelUtils.ts:84-88 | There is a next level exactly when the current level is between -1 and 5, and then it is the ladder entry for level+1. |
| `LevelUtils.FindLevel` | utils/levelUtils.ts:86 | `find` by level number: the entry found has that number, or nothing is found exactly when no entry has it. |
| `LevelUtils.GetProgressToNextLevel` | utils/levelUtils.ts:95-122 | From 12 applause up, and only then, the result is 100 % with 0 needed and "Máximo". From 0 to 11 the bar is at 0 % on an even count and at 50 % on an odd one, 2 or 1 applause are needed, and count + needed is the next level's threshold, whose name is reported. A negative count x stays on the first level: 50·x %, 2 − x needed, next level "Aprendiz". |
| `LevelUtils.RungBelowTop` | utils/levelUtils.ts:109-111 | Below 12 applause the current level starts at twice its number and the next one is two applause higher, so the applause into the level is the count's parity. |
| `BadgeUtils.WithPrinciple` | utils/badgeUtils.ts:35 | The applause for one principle: no more than all of them, and each one carries that principle. |
| `BadgeUtils.WithPrincipleMultiplicity` | utils/badgeUtils.ts:25-30 | Each applause appears in its principle's group as often as it was received, and in no other group. |
| `BadgeUtils.WithPrinciplePermutation` | utils/badgeUtils.ts:25-30 | Reordering the applause received only reorders each principle's group. |
| `BadgeUtils.GroupByPrinciple` | utils/badgeUtils.ts:23-30 | After the grouping loop, the object holds each occurring principle's applause in arrival order, and no entry for a principle that never occurs. |
| `BadgeUtils.GroupStep` | utils/badgeUtils.ts:26-29 | One iteration of the grouping loop keeps the grouping correct for the longer prefix. |
| `BadgeUtils.EarnedBadges` | utils/badgeUtils.ts:33-58 | One badge per definition, in definition order, with the definition's name, principle and description. The count is the number of applause for that principle, the badge is earned iff the count reaches 3, and a date is present iff it is earned. |
| `BadgeUtils.CalculateEarnedBadges` | utils/badgeUtils.ts:19-59 | The grouping and the loop over the definitions compute exactly `EarnedBadges`. |
| `BadgeUtils.EarnedDateReachesThreshold` | utils/badgeUtils.ts:43-49 | The earned date is the moment the threshold was reached: at least three applause are dated no later, and at most two strictly earlier. |
| `BadgeUtils.BadgesIgnoreOrder` | utils/badgeUtils.ts:19-59 | The order applause arrive in changes no count, no earned flag and no earned date as a point in time. |
| `BadgeUtils.BadgesAfterApplause` | utils/badgeUtils.ts:25-39 | One more applause adds one to its own principle's count and leaves the other counts alone; an earned badge stays earned. |
| `CsvExporter.ObjectKeys` | utils/csvExporter.ts:24 | `Object.keys` lists each property of the row exactly once. |
| `CsvExporter.CellText` | utils/csvExporter.ts:32-33 | A missing, `null` or `undefined` value becomes the empty text; any other value becomes `String(value)`. |
| `CsvExporter.EscapeField` | utils/csvExporter.ts:37-40 | A value without a comma is written unchanged. A value with a comma is enclosed in quotes, and an RFC 4180 reader decodes it back to the value. |
| `CsvExporter.UndoubleDouble` | utils/csvExporter.ts:38 | Undoing the quote doubling gives the original text back. |
| `CsvExporter.QuotedValueWithoutCommaMisread` | utils/csvExporter.ts:37-40 | A value that is itself in quotes but holds no comma is written bare, so an RFC 4180 reader strips its quotes: `"ok"` comes back as `ok`. |
| `CsvExporter.Fields` | utils/csvExporter.ts:31-41 | One field per header, in header order; field j is the escaped text of the row's value under header j. |
| `CsvExporter.RecordLines` | utils/csvExporter.ts:29-44 | One line per row, in row order, each the row's fields joined by commas. |
| `CsvExporter.CsvLines` | utils/csvExporter.ts:24-44 | `csvRows` has one line more than there are rows: the first row's keys joined by commas, then each row's line in order. |
| `CsvExporter.CsvText` | utils/csvExporter.ts:19-21 | There is no text exactly when the table is empty. |
| `CsvExporter.ExportToCsv` | utils/csvExporter.ts:17-47 | The `forEach` loop and the final `join('\n')` produce exactly `CsvText`. |
| `CsvExporter.RecordLinesStep` | utils/csvExporter.ts:43 | Pushing one row's line extends the lines of the rows before it. |
| `CsvExporter.LinesOfCsv` | utils/csvExporter.ts:47 | When no header or value holds a line feed, splitting the text at line feeds gives the header line and one line per row. |
| `CsvExporter.NoLineBreakInRecord` | utils/csvExporter.ts:29-43 | A row whose values hold no line feed gives a line without a line feed. |
| `CsvExporter.FieldsOfLine` | utils/csvExporter.ts:43 | When no value of the row holds a comma, splitting its line at commas gives each value's text in header order. |
| `CsvExporter.NoCharInJoin` | utils/csvExporter.ts:43 | Joining texts with a separator adds no character that is in neither. |
| `CsvExporter.NoCharInDoubled` | utils/csvExporter.ts:38 | Doubling quotes adds no character other than the quote. |
| `CsvExporter.NoCharInEscape` | utils/csvExporter.ts:37-40 | Escaping a field adds no character other than the quote. |
| `SheetsService.StripQuotes` | services/googleSheetsService.ts:38 | Stripping one quote at each end never lengthens a header cell. A cell quoted at both ends loses exactly its first and last character; one quoted at the start only loses the first; one quoted at the end only loses the last. A lone quote becomes empty text. |
| `SheetsService.StripQuotesOfQuoted` | services/googleSheetsService.ts:38 | Wrapping a name that neither starts nor ends with a quote in quotes and stripping them gives the name back. |
| `SheetsService.NormalizeQuoted` | services/googleSheetsService.ts:35-44 | A quoted header cell holding a clean column name normalises to that name. |
| `SheetsService.PlainStepsOfQuoted` | services/googleSheetsService.ts:37-41 | Trimming, quote stripping, BOM removal, lower-casing and the character replacement turn a quoted run of key characters into that run. |
| `SheetsService.RemoveBom` | services/googleSheetsService.ts:39 | No byte order mark is left, and no character is added. |
| `SheetsService.ReplaceInvalid` | services/googleSheetsService.ts:41 | The length is kept, every character becomes one of `[a-z0-9_]`, and those characters are kept in place. |
| `SheetsService.CollapseUnderscores` | services/googleSheetsService.ts:42 | No two underscores are left in a row. The result is empty only for an empty input, starts with the input's first character, and adds no character. |
| `SheetsService.PlainSteps` | services/googleSheetsService.ts:37-41 | After trimming, quote and BOM removal, lower-casing and replacement, only `[a-z0-9_]` characters are left. |
| `SheetsService.NormalizeHeader` | services/googleSheetsService.ts:35-44 | Every normalised column name is clean: only `[a-z0-9_]`, never two underscores in a row, never a trailing underscore. |
| `SheetsService.RemoveBomOfClean` | services/googleSheetsService.ts:39 | Text without a byte order mark passes BOM removal unchanged. |
| `SheetsService.CollapseOfClean` | services/googleSheetsService.ts:42 | Text without a double underscore passes the collapse unchanged. |
| `SheetsService.KeyCharIsPlain` | services/googleSheetsService.ts:37-41 | A character of `[a-z0-9_]` is not white space, not a quote and not a BOM, and lower-casing keeps it. |
| `SheetsService.PlainStepsOfKeyChars` | services/googleSheetsService.ts:37-41 | A name made of `[a-z0-9_]` passes the character steps unchanged. |
| `SheetsService.NormalizeClean` | services/googleSheetsService.ts:35-44 | A name that is already clean is its own normalisation. |
| `SheetsService.NormalizeIdempotent` | services/googleSheetsService.ts:35-44 | Normalising twice is the same as normalising once. |
| `SheetsService.TrailingSymbolDropped` | services/googleSheetsService.ts:41-43 | A clean name followed by one symbol (as in `estado:`) normalises to the name alone. |
| `SheetsService.StepsBeforeUnderscores` | services/googleSheetsService.ts:37-41 | A name of `[a-z0-9_]` followed by one symbol comes out of the character steps as the name plus one underscore. |
| `SheetsService.StripQuotesOfUnquoted` | services/googleSheetsService.ts:38 | Text that neither starts nor ends with a quote passes quote stripping unchanged. |
| `SheetsService.LowerThenReplace` | services/googleSheetsService.ts:40-41 | Lower-casing and replacement turn a name of `[a-z0-9_]` plus one invalid character into the name plus one underscore. |
| `SheetsService.Unquote` | services/googleSheetsService.ts:53-55 | A cell of at least two characters that starts and ends with a quote loses both quotes; any other cell, including a lone quote, is kept as it is. |
| `SheetsService.CellValue` | services/googleSheetsService.ts:52-55 | A column without a cell gets the empty text; otherwise the cell is trimmed and then unquoted. |
| `SheetsService.BuildEntry` | services/googleSheetsService.ts:50-58 | The `forEach` over the columns builds exactly the row object `Entry` describes. |
| `SheetsService.EntryKeys` | services/googleSheetsService.ts:51-57 | A row's properties are the column names, each once, in the order they first appear. |
| `SheetsService.EntryValue` | services/googleSheetsService.ts:51-57 | A column holds the cell under its last occurrence in the header: a repeated column is overwritten. |
| `SheetsService.EntryIsPutAll` | services/googleSheetsService.ts:51-57 | The row object is the columns written in header order, each with its cell text. |
| `JsObject.PutAllKeys` | services/googleSheetsService.ts:51-57 | Writing keys one after the other gives an object whose keys are the written keys, each once, in the order of their first write. |
| `JsObject.PutAllValue` | services/googleSheetsService.ts:56 | A key holds the value of its last write: writes to other keys do not disturb it. |
| `SheetsService.HeaderOf` | services/googleSheetsService.ts:35-44 | Every column name taken from the header line is clean. |
| `SheetsService.EntriesOf` | services/googleSheetsService.ts:48-59 | One object per data line, in order, each built from that line's cells. |
| `SheetsService.ParseCsv` | services/googleSheetsService.ts:28-60 | A trimmed text of fewer than two lines gives no rows. Otherwise there is one row per line after the header, and row i is built from the header's names and line i+1's cells. |
| `SheetsService.ParsedRow` | services/googleSheetsService.ts:48-59 | Every parsed row has exactly the header's distinct names as properties, and a name that occurs once holds its cell. |
| `SheetsService.TextOr` | services/googleSheetsService.ts:85-88 | `x || fallback`: a missing or empty value gives the fallback, any other value itself. |
| `SheetsService.RoleOf` | services/googleSheetsService.ts:72-81 | The role is admin iff the raw role is "administrador" or "admin". It is colaborador iff the raw role is "colaborador", "lector" or empty. Any other name makes an otorgador. |
| `SheetsService.NumberOr0` | services/googleSheetsService.ts:92 | A missing or non-numeric value gives 0; otherwise its number. |
| `SheetsService.TransformUser` | services/googleSheetsService.ts:68-93 | Each user field comes from its column with the code's fallback. The role follows `rol_otorgador` before `rol`. The status is active iff the lower-cased status is exactly "activo". A missing creation date is the loading time. |
| `SheetsService.TransformUsers` | services/googleSheetsService.ts:67-95 | One user per row, in order. |
| `SheetsService.RolOtorgadorPreferred` | services/googleSheetsService.ts:69 | When `rol_otorgador` is filled in, whatever `rol` says does not change the role. |
| `SheetsService.NoRoleIsColaborador` | services/googleSheetsService.ts:69-76 | A user with neither role column filled in is a colaborador. |
| `SheetsService.PaddedStatusInactive` | services/googleSheetsService.ts:90 | The status is not trimmed, so " activo" with a leading space makes the user inactive. |
| `SheetsService.DateText` | services/googleSheetsService.ts:144-152 | A missing or empty date gives the empty text. A parsable date gives its ISO form, and an unparsable one stays as written. |
| `SheetsService.TransformApplause` | services/googleSheetsService.ts:142-155 | Each applause field comes from its column or is empty, and the date is normalised as `DateText` says. |
| `SheetsService.TransformReward` | services/googleSheetsService.ts:163-172 | The id is trimmed. Level, stock and cost default to "0" and are never empty. The other fields come from their columns. |
| `SheetsService.TransformRedemption` | services/googleSheetsService.ts:179-196 | The reward id is trimmed, the date is normalised, and the optional columns pass through as they are, missing or not. |
| `SheetsService.TrimIdempotent` | services/googleSheetsService.ts:165 | Trimming twice is trimming once. |
| `SheetsService.RewardIdsMatchAfterTrim` | services/googleSheetsService.ts:165-186 | A reward and a redemption whose ids differ only by surrounding white space carry the same reward id, and that id has no white space left at either end. |
| `AuthContext.FindByEmail` | context/AuthContext.tsx:102 | No user is found iff no e-mail matches, ignoring case. A user that is found is the first match. |
| `AuthContext.FirstMatchAfterHead` | context/AuthContext.tsx:102 | When the first user does not match, the first match in the rest is the first match of the whole list. |
| `AuthContext.FirstAccountDecides` | context/AuthContext.tsx:102-105 | `CredentialsAccepted`: only the first account with the e-mail is checked. The credentials are accepted iff it is active and the password equals its `clave_hash`; a missing password is never accepted. |
| `AuthContext.SenderNameMeaning` | context/AuthContext.tsx:55-59 | The first user with the giver's id names the sender. An unknown id or a blank name gives "alguien", so the name is never empty. |
| `AuthContext.AuthSession.UnreadCount` | context/AuthContext.tsx:125 | The unread count never exceeds the number of notices, and it is 0 exactly when every notice is read. |
| `AuthContext.UnknownEmailRejected` | context/AuthContext.tsx:102-112 | An e-mail that no user has is always rejected. |
| `AuthContext.ApplauseNotifications` | context/AuthContext.tsx:54-64 | One applause notice per recent applause, in order. |
| `AuthContext.BadgeNotifications` | context/AuthContext.tsx:67-79 | One badge notice per badge that is earned and has a date; every notice comes from such a badge, and each such badge has its notice. |
| `AuthContext.BuildNotifications` | context/AuthContext.tsx:49-81 | The effect's body (the two `forEach` loops, then the sort) produces exactly `NotificationsFor`. |
| `AuthContext.PushApplauseNotices` | context/AuthContext.tsx:54-64 | The first loop pushes exactly the applause notices. |
| `AuthContext.PushBadgeNotices` | context/AuthContext.tsx:70-79 | The second loop appends exactly the badge notices to what is already there. |
| `AuthContext.ApplauseNotificationsStep` | context/AuthContext.tsx:56 | One iteration of the first loop pushes the next applause's notice. |
| `AuthContext.BadgeNotificationsStep` | context/AuthContext.tsx:71 | One iteration of the second loop pushes the next badge's notice. |
| `AuthContext.RecentIsLastFive` | context/AuthContext.tsx:54 | `slice(-5)` keeps the five most recent applause, or all of them when there are fewer. |
| `AuthContext.NotificationsShape` | context/AuthContext.tsx:47-83 | The notices are sorted newest first and all unread. There is one per recent applause plus one per dated earned badge, so never more than 5 + 5. |
| `AuthContext.UnsortedUnread` | context/AuthContext.tsx:61-76 | Every notice is created unread. |
| `AuthContext.NotificationSources` | context/AuthContext.tsx:47-83 | Every stored notice stands for one of the five most recent applause received or for a badge earned with a date. |
| `AuthContext.UnsortedSources` | context/AuthContext.tsx:54-79 | Before sorting, every notice stands for a recent applause or a badge earned with a date. |
| `AuthContext.AuthSession.constructor` | context/AuthContext.tsx:40-43 | The session starts signed out, not loading, with no error and no notices. |
| `AuthContext.AuthSession.Login` | context/AuthContext.tsx:85-114 | Login succeeds iff the data is loaded and the credentials are accepted; the user is then the account found and the error is cleared. On failure the user is kept, and the error says whether the data was missing or the credentials were wrong. Loading always ends false, and the notices are untouched. |
| `AuthContext.AuthSession.Logout` | context/AuthContext.tsx:116-119 | Logging out clears the user and the notices and nothing else. |
| `AuthContext.AuthSession.MarkNotificationsAsRead` | context/AuthContext.tsx:121-125 | The same notices in the same order, each marked read, so the unread count becomes 0; the rest of the session is kept. |
| `AuthContext.AuthSession.RefreshNotifications` | context/AuthContext.tsx:47-83 | For a signed-in user with loaded data the notices become `NotificationsFor` that user; otherwise they are kept. User, loading and error never change. |
| `DataContext.IdsByMillisecond` | context/DataContext.tsx:101-114 | Ids minted in different milliseconds differ, ids minted in the same millisecond are equal, and a redemption id never equals an applause id. |
| `DataContext.DataStore.constructor` | context/DataContext.tsx:52-63 | The store starts with empty sheets, loading, and without an error. |
| `DataContext.DataStore.FinishLoad` | context/DataContext.tsx:66-79 | After the initial load, loading is over. On success the four sheets are replaced; on failure they are kept and the error is recorded. |
| `DataContext.DataStore.AddApplause` | context/DataContext.tsx:98-106 | The new applause, with an `app-` id and the current date, is appended; nothing else changes. |
| `DataContext.DataStore.AddRedemption` | context/DataContext.tsx:111-119 | The new redemption, with a `red-` id, the current date and status "Pendiente", is appended; nothing else changes. |
| `ToastContext.WithoutIdMeaning` | context/ToastContext.tsx:35-37 | Removing by id keeps exactly the toasts with another id, in their order. |
| `ToastContext.RemoveAfterAdd` | context/ToastContext.tsx:35-43 | Dismissing a toast just added, whose id no other toast shares, restores the list. |
| `ToastContext.SameMillisecondCollision` | context/ToastContext.tsx:41 | Two toasts raised in the same millisecond share an id, so dismissing one dismisses both. |
| `ToastContext.ToastList.constructor` | context/ToastContext.tsx:32 | The list starts empty. |
| `ToastContext.ToastList.AddToast` | context/ToastContext.tsx:40-43 | The new toast, identified by the current millisecond, is appended. |
| `ToastContext.ToastList.RemoveToast` | context/ToastContext.tsx:35-37 | The list keeps exactly the toasts with another id, in order. |
| `DataTable.MatchesSearchMeaning` | components/admin/DataTable.tsx:39-45 | A row passes the search iff one of its properties, in whatever enumeration order, shows the term, ignoring case. |
| `DataTable.MatchInValues` | components/admin/DataTable.tsx:42-44 | Some value of the listed entries matches iff some listed entry matches. |
| `DataTable.FilteredData` | components/admin/DataTable.tsx:37-46 | An empty term keeps every row. Otherwise exactly the rows with a matching property are kept, in their original order. |
| `DataTable.IsSubsequenceOfSelf` | components/admin/DataTable.tsx:38 | The unfiltered data is trivially in its own order. |
| `DataTable.PaginatedData` | components/admin/DataTable.tsx:49-52 | A page holds at most ten rows: the ten starting at row (page-1)*10, or fewer at the end. A page past the end is empty, and so is page 0. |
| `DataTable.TotalPages` | components/admin/DataTable.tsx:55 | The fewest pages of ten that hold every row; 0 pages iff there are no rows. |
| `DataTable.PagesCoverRows` | components/admin/DataTable.tsx:49-55 | Row k of the filtered rows appears on page k/10+1, at position k mod 10, and that page exists. |
| `DataTable.Headers` | components/admin/DataTable.tsx:58 | The headers are the first row's properties, each once, or none for empty data. |
| `DataTable.HeadersOrder` | components/admin/DataTable.tsx:58 | The headers come in `Object.keys` order: array-index names first, ascending by value, then the others; with no array-index name, exactly the first row's keys in creation order. |
| `DataTable.Render` | components/admin/DataTable.tsx:58-113 | "No hay datos para mostrar." shows iff there is no data, even while searching. Otherwise the table shows at most ten rows, counted in "Mostrando n de m", where m is the number of matching rows and n ≤ m. |
| `DataTable.Component.constructor` | components/admin/DataTable.tsx:28-32 | The table starts with an empty search term on page 1. |
| `DataTable.Component.Export` | components/admin/DataTable.tsx:80 | Exportar writes the CSV of every matching row, all pages together. |
| `DataTable.Component.SetSearchTerm` | components/admin/DataTable.tsx:76 | Typing sets the term and keeps the current page. |
| `DataTable.Component.Previous` | components/admin/DataTable.tsx:112 | Anterior goes back one page, never below page 1. |
| `DataTable.Component.Next` | components/admin/DataTable.tsx:113 | Siguiente moves one page on, never past the last page. |
| `DataTable.NextWithoutRows` | components/admin/DataTable.tsx:113 | With no matching row there are no pages, Siguiente is still enabled on page 1, and pressing it reaches page 0, which shows no row. |
| `DataTable.NarrowedSearchPastEnd` | components/admin/DataTable.tsx:49-55 | Narrowing the search on a late page shows an empty page, because the page is not reset. |
| `PrinciplesChart.ChartData` | components/admin/PrinciplesChart.tsx:37-43 | The `forEach` fills the counts object with one tally per principle, and its entries become the slices. |
| `PrinciplesChart.SliceValues` | components/admin/PrinciplesChart.tsx:39-42 | Each slice's value is the number of applause naming its principle, and is at least 1. |
| `PrinciplesChart.SliceNames` | components/admin/PrinciplesChart.tsx:39-42 | There is exactly one slice per distinct principle that occurs. |
| `PrinciplesChart.SlicesSumToTotal` | components/admin/PrinciplesChart.tsx:37-43 | The slices add up to the number of applause. |
| `PrinciplesChart.EmptyChart` | components/admin/PrinciplesChart.tsx:45-47 | There are no slices, and so the no-data message shows, iff there is no applause. |
| `Leaderboard.LeaderboardData` | components/user/Leaderboard.tsx:34-50 | Ten rows, or every eligible user when there are fewer, highest points first. The rows are a sub-multiset of the eligible users' rows, so each user appears at most as often as the user list holds that user. Each row is an active non-admin user of the list, and its points are 100 per applause received; the carried-over points passed as a second argument are ignored. |
| `Leaderboard.BoardIsPrefix` | components/user/Leaderboard.tsx:47-49 | Sorting and keeping ten leaves a sub-multiset of the eligible rows of length ten or all of them. |
| `Leaderboard.BoardRows` | components/user/Leaderboard.tsx:36-49 | Every kept row is an eligible user of the list with 100 points per applause received, and the rows run from most to fewest points. |
| `Leaderboard.RankedEntries` | components/user/Leaderboard.tsx:35-47 | Every ranked row belongs to an eligible user of the list and carries that user's gross points. |
| `Leaderboard.LeftOutScoreNoHigher` | components/user/Leaderboard.tsx:47-49 | An eligible user either has a row on the board or has no more points than any row on it. |
| `Leaderboard.EligibleEntryRanked` | components/user/Leaderboard.tsx:35-47 | Every eligible user's row is among the ranked rows. |
| `Leaderboard.SmallTeamAllListed` | components/user/Leaderboard.tsx:49 | With at most ten eligible users, the board holds every one of their rows. |
| `AdminDashboard.ActiveUserCount` | pages/AdminDashboard.tsx:21 | The active-user count is at most the number of users. It is 0 iff nobody is active, and equals the number of users iff everyone is. |
| `AdminDashboard.CountNoneOrAll` | pages/AdminDashboard.tsx:21 | A filtered count is 0 iff no element passes, and is the full length iff every element passes. |
| `AdminDashboard.CountReceptors` | pages/AdminDashboard.tsx:27-30 | The `forEach` builds exactly the tally of receptor ids, in first-seen order. |
| `AdminDashboard.FindUser` | pages/AdminDashboard.tsx:35 | The user found is the first one carrying the id, and no user is found iff none carries it. |
| `AdminDashboard.TopRecognized` | pages/AdminDashboard.tsx:26-38 | The memo counts the receptors, sorts the entries by count, keeps five, and looks each id up. |
| `AdminDashboard.DisplayName` | pages/AdminDashboard.tsx:84 | An unknown id, or a user with an empty name, shows as "Desconocido"; otherwise the user's name is shown. |
| `AdminDashboard.TopRecognizedMeaning` | pages/AdminDashboard.tsx:26-38 | Five receptors are listed, or all of them when fewer received applause, most applause first, each id once. The listed pairs are a sub-multiset of the counts object's entries. Each listed count is the number of applause addressed to that id, and at least 1. |
| `AdminDashboard.TopRecognizedEachOnce` | pages/AdminDashboard.tsx:27-33 | The ranked receptors are some of the counted entries, five or all of them, with no id twice. |
| `AdminDashboard.RankedIsPrefix` | pages/AdminDashboard.tsx:31-33 | Sorting the entries and keeping five leaves a sub-multiset of them of length five or all, with distinct ids when the keys were distinct. |
| `AdminDashboard.RankedMember` | pages/AdminDashboard.tsx:31-33 | Every listed entry is an entry of the counts object. |
| `AdminDashboard.RankedNonIncreasing` | pages/AdminDashboard.tsx:32 | Listed counts never increase down the list. |
| `AdminDashboard.ReceptorCount` | pages/AdminDashboard.tsx:27-30 | Every property of the counts object is a receptor id with the number of applause addressed to it. |
| `AdminDashboard.LeftOutReceivedNoMore` | pages/AdminDashboard.tsx:31-33 | Anyone who received applause is either listed with their count or received no more than each listed colleague. |
| `AdminDashboard.ReceptorEntry` | pages/AdminDashboard.tsx:27-31 | Every receptor id has an entry holding its number of applause. |
| `RewardCard.ButtonText` | components/user/RewardCard.tsx:31-48 | The label is "Canjear" iff the button is enabled (level reached, in stock, enough points). Otherwise it names the first obstacle, in the order stock ("Agotado"), level ("Nivel Insuficiente"), points ("Puntos Insuficientes"). |
| `RewardCard.CardGates` | components/user/RewardCard.tsx:31-39 | For a level and a cost written as integers, `HasRequiredLevel`, `HasEnoughPoints`, `IsOutOfStock`, `RewardCost` and `CanRedeem` are plain comparisons: enabled iff the level is reached, at least one unit is left and the points cover the cost. |
| `RewardCard.BlankFields` | components/user/RewardCard.tsx:33-36 | A blank required level is never reached, so that card's button is always disabled. A blank cost falls back to 0, so any user with points left can afford it. |
| `RewardCard.DisabledButtonLabel` | components/user/RewardCard.tsx:81 | `ButtonDisabled`: the button is disabled exactly when its label is not "Canjear". |
| `Marketplace.NetPointsMeaning` | pages/Marketplace.tsx:29-35 | `NetPointsOf`: without redemptions of their own a user has 100 points per applause received. Another user's redemption never changes the balance. With costs that are not negative the balance never exceeds the gross points. |
| `Marketplace.PageLevelFromPoints` | pages/Marketplace.tsx:29-34 | The page looks the level up with gross points rather than the applause count. No applause gives level 0, a single applause already gives the top level 6, and the applause count itself would give count/2 capped at 6. |
| `Marketplace.RewardsWithStock` | pages/Marketplace.tsx:52-58 | One entry per reward, in order, carrying that reward with an available stock that is never negative. |
| `Marketplace.InitialStockMeaning` | pages/Marketplace.tsx:55 | `InitialStock`: a stock written as an integer is that many units, and a blank stock is none. |
| `Marketplace.UnitsTaken` | pages/Marketplace.tsx:40-50 | No units are taken of a blank id. Otherwise none are taken exactly when every redemption naming the reward is rejected, and never more than there are redemptions. |
| `Marketplace.RewardStockAt` | pages/Marketplace.tsx:52-58 | One reward's entry: its stock is its initial stock less the units taken of it, floored at 0. |
| `Marketplace.RewardsWithStockMeaning` | pages/Marketplace.tsx:38-59 | The counts object agrees with counting directly. Each reward's stock is its initial stock (`parseInt(stock) \|\| 0`) less the redemptions that are not rejected and name it, floored at 0; a reward without an id keeps its whole stock. |
| `Marketplace.RedeemedKeysCount` | pages/Marketplace.tsx:44-50 | The `reduce` counts a non-empty id as often as a redemption that is not rejected names it. |
| `Marketplace.UnitsTakenAfterRedemption` | pages/Marketplace.tsx:40-54 | A new redemption raises the units taken of its own reward by one, if it takes stock, and leaves the other rewards alone. |
| `Marketplace.RejectedTakesNoStock` | pages/Marketplace.tsx:40-47 | A rejected redemption, or one without a reward id, takes no stock. |
| `Marketplace.FindWithStock` | pages/Marketplace.tsx:69 | The entry found carries the reward id, and nothing is found iff no entry carries it. |
| `Marketplace.RedeemClickOutcome` | pages/Marketplace.tsx:61-76 | The click asks for confirmation iff the points cover the cost and the reward is listed with stock left. It refuses for points iff they do not cover the cost; points are checked before stock. |
| `Marketplace.EnabledCardAsksConfirmation` | pages/Marketplace.tsx:61-76 | Clicking an enabled card always opens the confirmation dialog. |
| `Marketplace.FindFirst` | pages/Marketplace.tsx:69 | `find` returns the first entry with the id. |
| `Marketplace.ClickIgnoresLevel` | pages/Marketplace.tsx:61-76 | The handler does not check the level: a user below the reward's level who has the points gets the dialog. Only the card's disabled button keeps such a user out. |
| `Marketplace.ConfirmRedemptionOutcome` | pages/Marketplace.tsx:135-165 | A redemption is recorded iff a reward is selected, still in stock and affordable. Nothing happens iff nothing is selected. Stock is re-checked before points. |
| `Marketplace.NewRedemptionIsActive` | context/DataContext.tsx:111-119 | A fresh "Pendiente" redemption is not rejected, so its points count against the balance and, when it names a reward, it takes a unit. |
| `Marketplace.RedemptionEffect` | pages/Marketplace.tsx:135-165 | After a confirmed redemption of a reward with stock, that reward has one unit less, and the user's net points drop by its cost. |
| `Marketplace.FilteredRewards` | pages/Marketplace.tsx:167-170 | "all" shows every reward. Any other filter shows, in order, exactly the rewards whose level text equals it. |
| `Marketplace.AvailableLevels` | pages/Marketplace.tsx:172-176 | Each level text that some reward has appears exactly once, and no other; they are ordered by their base-10 value. |
| `Marketplace.AvailableLevelsTies` | pages/Marketplace.tsx:175 | Level texts of the same numeric value come out in the order of the `Set`: the sort keeps their relative order, and the texts first seen among the first k rewards lead the set. |
| `Seqs.SortByStable` | pages/Marketplace.tsx:175 | The `sort` with a numeric comparator is stable: the elements of each key keep their order in the input. |
| `Seqs.DistinctOfPrefix` | pages/Marketplace.tsx:175 | `Array.from(new Set(...))` lists values in order of first occurrence: the values of any prefix lead the result, in the same order. |
| `Marketplace.RequiredLevelsPresent` | pages/Marketplace.tsx:175 | The mapped levels are exactly the rewards' level texts. |
| `Marketplace.MarketplacePage.constructor` | pages/Marketplace.tsx:23-25 | The page starts with the "all" filter, the dialog closed and nothing selected. |
| `Marketplace.MarketplacePage.SetLevelFilter` | pages/Marketplace.tsx:23 | Choosing a filter changes only the filter. |
| `Marketplace.MarketplacePage.HandleRedeemClick` | pages/Marketplace.tsx:61-76 | On success the reward is selected and the dialog opens, with no toast. A refusal adds the matching error toast and changes nothing else. |
| `Marketplace.MarketplacePage.ConfirmRedemption` | pages/Marketplace.tsx:135-165 | Without a selection nothing changes. A failed re-check adds its error toast. Success appends the pending redemption and a success toast. In every case but the first the dialog closes and the selection clears. The store's loading flag and error never change. |
| `Marketplace.MarketplacePage.CloseWithError` | pages/Marketplace.tsx:141-152 | An error toast is added, the dialog closes and the selection clears. |
| `Marketplace.MarketplacePage.Complete` | pages/Marketplace.tsx:156-164 | The pending redemption for this user and reward is appended, and a success toast is added. The dialog closes and the selection clears, and the store's loading flag and error stay as they were. |
| `MyResults.NetPointsAgreeWithMarketplace` | pages/MyResults.tsx:36-38 | This page and the marketplace show the same available points. |
| `MyResults.LevelCallSitesDisagree` | pages/MyResults.tsx:33 | The two pages disagree on the level: with one applause received this page shows level 0 while the marketplace uses level 6. |
| `MyResults.EarnedBadgeCountMeaning` | pages/MyResults.tsx:102 | The badge count is the number of principles with at least three applause received, so at most five. |
| `MyResults.PadStart2` | pages/MyResults.tsx:50 | `padStart(2, '0')` gives at least two characters and never shortens a text. The text is kept as the suffix, and everything before it is '0'. |
| `MyResults.BucketKeys` | pages/MyResults.tsx:42-59 | The months object has one property per distinct month key, in order of first occurrence. |
| `MyResults.BucketCounts` | pages/MyResults.tsx:46-57 | A month has a bucket iff some applause falls in it, and the bucket counts exactly those applause. |
| `MyResults.BucketCountStep` | pages/MyResults.tsx:53-56 | One step of the `forEach` keeps every bucket's count right for the longer list. |
| `MyResults.AddToMonthGet` | pages/MyResults.tsx:53-56 | Counting an applause in one month changes that month's bucket only: its count rises by one, and a new bucket gets the label. |
| `MyResults.BucketSum` | pages/MyResults.tsx:46-57 | The bucket counts add up to the number of applause received. |
| `MyResults.AddToMonthSum` | pages/MyResults.tsx:53-56 | Counting one applause adds one to the total of the buckets. |
| `MyResults.MonthPointCounts` | pages/MyResults.tsx:42-62 | Each chart point counts the applause whose date falls in its month, at least one. |
| `MyResults.BucketEntryCount` | pages/MyResults.tsx:46-57 | Every bucket holds the number of applause in its month, at least one. |
| `MyResults.MonthPointKeys` | pages/MyResults.tsx:59-61 | There is exactly one chart point per distinct month key. |
| `MyResults.PointKeysAreKeys` | pages/MyResults.tsx:60 | The points carry the months object's keys, in entry order. |
| `MyResults.MonthPointsSum` | pages/MyResults.tsx:42-62 | The monthly counts add up to the number of applause received. |
| `MyResults.MonthKeyRank` | pages/MyResults.tsx:50-61 | `MonthKey` of a valid date in a four-digit year has the form "YYYY-MM", and `KeyRank` ranks it as year*100 + month. |
| `MyResults.InvalidMonthLast` | pages/MyResults.tsx:50-61 | The "NaN-NaN" key of an invalid date ranks after every month of a four-digit year, as `localeCompare` puts letters after digits. |
| `MyResults.MonthLabelOf` | pages/MyResults.tsx:51 | `MonthLabel` of a valid date in a four-digit year is the month's short name, " '" and the year's last two digits. It never equals the label of an invalid date. |
| `MyResults.MonthsInOrder` | pages/MyResults.tsx:50-61 | For four-digit years, an earlier month ranks before a later one, so the chart runs in chronological order. |
| `MyResults.CountInMonth` | pages/MyResults.tsx:53-56 | The body of the `forEach` creates the month's bucket when missing and counts the applause in it. |
| `MyResults.ApplauseByMonth` | pages/MyResults.tsx:42-62 | The `forEach`, the mapping to points and the sort by key produce exactly `MonthPoints`. |
| `MyResults.GetStatusBadge` | pages/MyResults.tsx:79-91 | The status, lower-cased then trimmed, gives green iff "aprobado", yellow iff "pendiente", red iff "rechazado", and grey otherwise, including a missing status. |
| `MyResults.PendingShowsYellow` | pages/MyResults.tsx:79-85 | Any spelling of "pendiente" up to case and surrounding spaces, such as a new redemption's "Pendiente", shows yellow. |
| `MyResults.NewestFirst` | pages/MyResults.tsx:65 | Sorting newest first loses and adds nothing, and the dates never increase down the list. |
| `MyResults.HistoryIsTheUsers` | pages/MyResults.tsx:36 | The redemption history lists exactly the user's own redemptions. |
| `MyResults.UserName` | pages/MyResults.tsx:68 | An unknown giver shows as "Desconocido". Otherwise the first user with the id gives the name, or "Desconocido" when that name is blank. |
| `MyResults.RewardName` | pages/MyResults.tsx:69 | An unknown reward shows as "Recompensa Desconocida". Otherwise the first reward with the id gives the name, or "Recompensa Desconocida" when that name is blank. |
| `ToastContext.RemoveAbsentId` | context/ToastContext.tsx:36 | Dismissing an id that no toast has leaves the list unchanged. |
| `JsObject.Entries` | pages/AdminDashboard.tsx:31 | `Object.entries` lists every property once, with nothing added or lost. |
| `JsObject.EntriesIndicesFirst` | pages/AdminDashboard.tsx:31-32 | Integer-like keys (a receptor id such as "17") come out first, in ascending numeric order, before every other key. This decides the order of ties in the top five. |
| `JsObject.EntriesInCreationOrder` | components/admin/PrinciplesChart.tsx:42 | With no integer-like key, the entries come out in the order the properties were created. |
| `JsObject.TallyCounts` | components/admin/PrinciplesChart.tsx:39-41 | After the counting `forEach`, a key has a count iff it occurs, and the count is its number of occurrences. |

Three facts about the code that the model keeps as they are:

- `calculateGrossPoints` takes one argument (`utils/levelUtils.ts:21`). The carried-over points `puntos_anteriores` that `Marketplace.tsx:33` and `Leaderboard.tsx:43` pass as a second argument are never added.
- The level thresholds in `constants.ts:19-27` count applause (2, 4, … 12), not points. `Marketplace.tsx:34` looks the level up with gross points, while `MyResults.tsx:33` uses the applause count. The two pages therefore disagree: `MyResults.LevelCallSitesDisagree` and `Marketplace.PageLevelFromPoints` state this.
- `RewardCard` disables its button below the reward's required level, but the redemption handlers check only net points and stock (`pages/Marketplace.tsx:61-76` and `134-150`). Only that disabled button keeps a user below the required level out. `Marketplace.ClickIgnoresLevel` states this.

## Left out

- Fetching the sheets (`fetchFromUrl`, `getGoogleSheetsData`, the proxy list from `services/googleSheetsService.ts:199` on) and `refreshData` (`context/DataContext.tsx:82-93`) are network I/O. `DataContext.DataStore.FinishLoad` takes the outcome of the load as a parameter.
- The regular expression that splits a CSV line into cells (`services/googleSheetsService.ts:35,49`) is a parameter `tokenize` of `SheetsService.ParseCsv`, so the model says nothing about how cells with commas inside quotes are split.
- `parseDateString` and every `new Date(...)` are JavaScript date handling with the local time zone. They become parameters: `parseDate` (text to ISO text), `timeOf` (text to milliseconds), `dateOf` (text to year and 0-based month) and the current time `nowMs`/`nowIso`.
- The sort comparators subtract `getTime()` values, which are `NaN` for an invalid date. The model's `timeOf` always returns an integer, so the order among invalid dates is not modelled.
- `progressPercentage` is floating point in the source. The model computes the exact ratio as a `real`, so rounding is not modelled.
- `toLowerCase` is modelled on ASCII letters only, and `trim` on a fixed set of white-space characters. Case mapping outside ASCII is not modelled.
- `SheetsService.NumberOr0`: `Number(x)` in `transformUsers` is modelled on decimal integer text only. Its other literal forms (fractions, exponents, "0x1A", "0b1", "0o7", "Infinity") give a number in the source but 0 in the model.
- `BadgeUtils.GroupByPrinciple`, `BadgeUtils.CalculateEarnedBadges`, `PrinciplesChart.ChartData`, `AdminDashboard.CountReceptors` and `Marketplace.RedemptionCounts`: a JavaScript object literal is modelled as a clean map that holds only its own keys. In the source, a key the object inherits ("constructor", "toString", "__proto__") already has a value there. The grouping then calls `push` on a function and throws, and a count becomes text instead of a number (`utils/badgeUtils.ts:25-29`, `components/admin/PrinciplesChart.tsx:40`, `pages/AdminDashboard.tsx:29`, `pages/Marketplace.tsx:46`). The model counts those keys like any other.
- Row values in the data table and the CSV export are primitive values (text, integer, boolean, `null`, `undefined`). Nested objects, arrays and fractional numbers are not modelled.
- `MyResults.KeyRank`: `localeCompare` on month keys is modelled as a rank. Keys of a four-digit year and a two-digit month get chronological order. Every other key ranks after them. That is where `localeCompare` puts "NaN-NaN", the key of an invalid date, since it orders digits before letters. Keys of a year with more or fewer than four digits are ranked the same way, although `localeCompare` would compare them digit by digit.
- `Marketplace.AvailableLevels`: the source compares `parseInt(level, 10)` values, and a level that is not a number gives `NaN`, which leaves the sort order to the engine. The model ranks such a level as 0.
- The in-place sorts in `MyResults.tsx` (lines 65 and 122) reorder arrays that other memoised values share. `MyResults.NewestFirst` returns a sorted copy, so that aliasing is not modelled.
- `Marketplace.MarketplacePage.HandleRedeemClick` and `Marketplace.MarketplacePage.ConfirmRedemption` take the net points and the stock the render computed as parameters, as the handlers close over them; they are not re-read from the store.
- The login wait loop (`context/AuthContext.tsx:90-94`) polls a timer. `AuthContext.AuthSession.Login` takes its outcome, whether the data is still loading, as the parameter `dataLoading`, and `loading` is only seen after the call.
- `AuthContext.AuthSession.RefreshNotifications` stands for the effect at `context/AuthContext.tsx:47-83`. React's decision of when to run it is not modelled.
- `generatePDF`, the `Blob`/link download at the end of `exportToCSV` and the certificate rendering are browser and library calls. The model stops at the CSV text and at the redemption record.
- `Marketplace.MarketplacePage.ConfirmRedemption` and `Marketplace.MarketplacePage.Complete` read the clock once: the same `nowMs` makes the `red-` redemption id and the success toast's id, where the source calls `Date.now()` separately in `addRedemption` (`context/DataContext.tsx:114`) and `addToast` (`context/ToastContext.tsx:41`). No property of the model depends on the two being equal.
- Toast and modal timers, `useAnimatedCounter`, `useDarkMode`, and every component that only renders are left out.
- Concurrency: the application is a single-threaded client, and two tabs redeeming at once are not modelled.
- `SheetsService.Substring` models JavaScript's `substring` clamping and swapping and carries no contract of its own. `SheetsService.Unquote` states what the parser gets from it.
