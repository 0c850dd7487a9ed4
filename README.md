# Excel Analytics: a verified model of the data and access logic

Excel Analytics is a web application. Users upload Excel or CSV sheets, and
the server parses and stores them. Users then draw charts from a sheet's
columns and save them. Administrators list, inspect and delete users, files
and charts, edit the system settings and manage their own profile; each
administrator's permissions decide which of these they may reach.

This project models the core of that application in Dafny:

- **The sheet summary.** Parsing a sheet gives its headers and counts.
  `generateChartData` groups rows by an x-axis column and sums a y-axis
  column. The chart labels come out in JavaScript object-key order.
- **The mongoose schemas.** Chart, File and SystemSettings, with their
  trim setters, validators and defaults.
- **The file, chart and admin controllers.** They run over an in-memory
  document store (`RecordStore.Store`), one sequence per collection.
- **The admin middleware and route table.**
- **The client-side logic of seven pages:**
  - the upload queue;
  - the file history filter;
  - the admin users and charts pages, with their pager;
  - the admin settings profile form;
  - the add-administrator dialog;
  - the user dashboard.

Modules follow the source files:

| Module | What it holds |
|---|---|
| `Wrappers` | Option and Result. |
| `JsValues` | The JavaScript built-ins the code relies on: `String` of a number, `parseFloat`, `parseInt`, `toLowerCase`, `split`, `trim`, `includes`, `startsWith` and a string's `length` in UTF-16 code units. |
| `NumberText` | What `String` writes for a number (plain digits, leading zeros or exponent notation) and the proof that `parseFloat` reads it back. |
| `Sorting` | A stable sort (`Array.prototype.sort` and mongoose `sort`) and `filter`. |
| `ObjectKeys` | The key order of `Object.keys`. |
| `ParseExcel` | `parseExcel.js`. |
| `Models` | The three schemas. |
| `RecordStore` | The store, and a handler's `Reply`. |
| `FileController`, `ChartController`, `AdminController` | The three controllers. |
| `AdminAuth` | The admin middleware. |
| `AdminRoutes` | The admin route table. |
| `FileHistory`, `UploadFile`, `AdminUsers`, `AdminCharts`, `AdminSettings`, `AdminDashboard`, `Dashboard` | One module per page. |
| `Pager` | The pager shared by two admin pages. |
| `Notices` | The toast a page shows. |

A handler answers with one of three `Reply` values:

- `Done(status, value)`: success.
- `Refused(status, message)`: an early `res.status(...).json(...)`.
- `Passed(error)`: an exception handed to `next(error)`.

A page handler that changes the page's state is a method on a class whose
fields are that state. A handler that only decides what to do next, such as
`AdminCharts.HandleDeleteChart`, is a function that returns its decision and
its toast. Either way, the outcome of each network request is a parameter.

Two behaviours of the code are easy to mistake:

- Chart labels are not in first-seen order. JavaScript lists
  integer-like keys first, in ascending order
  (`ParseExcel.ChartLabelOrder`, `ParseExcel.IndexLabelsFirst`).
- The user-side `deleteFile` does not remove the charts drawn from the
  file. Only the admin `deleteFile` does.

## Model

| member | source | states |
|---|---|---|
| JsValues.ParseIntIntString | p-1/backend/controllers/admin.controller.js:158-159 | `Number.parseInt` reads back every integer written in decimal |
| JsValues.NumberOrZero | p-1/backend/utils/parseExcel.js:44 | `parseFloat(v) \|\| 0` is 0 unless parseFloat gives that non-zero number |
| JsValues.SplitLastPart | p-1/frontend/src/pages/UploadFile.jsx:54 | the last part of `split` is the text after the last separator |
| JsValues.TrimFixpoint | p-1/backend/models/Chart.model.js:7 | trimming changes exactly the strings with white space at an end; white space is JavaScript's: tab, vertical tab, form feed, the byte order mark, every Unicode space separator and the four line terminators |
| JsValues.TrimNonBlank | p-1/backend/models/Chart.model.js:4-8 | a string with a character that is not white space (as above) does not trim to "" |
| JsValues.TrimBlank | p-1/backend/models/Chart.model.js:4-8 | a string of white space only trims to "", so `required` then refuses it |
| JsValues.TrimAround | p-1/backend/models/Chart.model.js:7 | one character between two white-space characters trims to itself |
| JsValues.TrimWideSpace | p-1/backend/models/Chart.model.js:7 | the ideographic space, the no-break space and the byte order mark are trimmed |
| JsValues.Utf16Length | p-1/frontend/src/pages/admin/AdminUsers.jsx:94 | `length` counts UTF-16 code units: at least one and at most two per character |
| JsValues.Utf16LengthBasic | p-1/frontend/src/pages/admin/AdminUsers.jsx:94 | the length equals the character count exactly when no character is above U+FFFF |
| JsValues.Utf16LengthEmoji | p-1/frontend/src/pages/admin/AdminUsers.jsx:94 | three emoji are three characters but six code units |
| NumberText.NumberStringParse | p-1/backend/utils/parseExcel.js:44 | for every number, `parseFloat` of `String(x)` gives back x |
| NumberText.NumberCellParse | p-1/backend/utils/parseExcel.js:44 | `parseFloat` of a number cell, which parses the cell's String form, gives the cell's value |
| NumberText.NumberStringInteger | p-1/backend/utils/parseExcel.js:43-47 | a whole number below 10^21 in magnitude becomes the key of its plain decimal digits, with "-" when negative |
| NumberText.LargePowerString | p-1/backend/utils/parseExcel.js:43-47 | a power of ten from 10^21 up is written "1e+k" |
| NumberText.TinyPowerString | p-1/backend/utils/parseExcel.js:43-47 | a power of ten from 10^-7 down is written "1e-k" |
| NumberText.SmallPowerString | p-1/backend/utils/parseExcel.js:43-47 | 10^-1 to 10^-6 are written "0." then zeros then "1" |
| NumberText.LargeExample | p-1/backend/utils/parseExcel.js:43-47 | 10^21 becomes the key "1e+21" |
| NumberText.TinyExample | p-1/backend/utils/parseExcel.js:43-47 | 10^-7 becomes the key "1e-7" |
| Sorting.SortBySorted | p-1/backend/controllers/file.controller.js:61 | the sort returns a sorted permutation of its input |
| Sorting.FilterMembers | p-1/frontend/src/pages/FileHistory.jsx:39-47 | `filter` keeps exactly the elements that pass |
| ObjectKeys.ObjectKeyOrderSpec | p-1/backend/utils/parseExcel.js:16 | Object.keys lists the same names, integer-like ones first and ascending, the others in insertion order |
| ObjectKeys.ObjectKeyOrderMembers | p-1/backend/utils/parseExcel.js:55 | Object.keys lists exactly the names that were added |
| ObjectKeys.ObjectKeyOrderNoDup | p-1/backend/utils/parseExcel.js:16 | distinct names stay distinct |
| ObjectKeys.IndexNamesFirst | p-1/backend/utils/parseExcel.js:55 | names added as b, 2, 1 are listed as 1, 2, b |
| ParseExcel.ParseExcelFile | p-1/backend/utils/parseExcel.js:8-28 | every read failure becomes "Failed to parse Excel file"; rows and rowCount are the sheet's; columnCount is the header count |
| ParseExcel.ParsedHeaders | p-1/backend/utils/parseExcel.js:16 | the headers are the first row's keys in object key order: the same named keys as the row, integer-like keys first in ascending order, otherwise the row's own order; [] for no rows; no duplicates |
| ParseExcel.GenerateChartData | p-1/backend/utils/parseExcel.js:37-61 | the reduce over rows with an accumulator map gives exactly ChartLabels and ChartValues |
| ParseExcel.ObjectValues | p-1/backend/utils/parseExcel.js:56 | Object.values lists the value of each key in key order |
| ParseExcel.SummarisesStep | p-1/backend/utils/parseExcel.js:43-51 | one callback call keeps the accumulator equal to the per-label sums so far |
| ParseExcel.ChartSeriesShape | p-1/backend/utils/parseExcel.js:55-56 | labels and values are parallel and labels are distinct |
| ParseExcel.ChartLabelsMembership | p-1/backend/utils/parseExcel.js:42-55 | a label appears iff some row has it as its group key |
| ParseExcel.GroupSumsAt | p-1/backend/utils/parseExcel.js:43-50 | values[i] is the sum of the coerced y values of the rows labelled labels[i] |
| ParseExcel.Conservation | p-1/backend/utils/parseExcel.js:42-52 | the values add up to the sum of every row's coerced y value |
| ParseExcel.AllUnknown | p-1/backend/utils/parseExcel.js:43 | rows with a falsy group value all go under "Unknown" |
| ParseExcel.EmptyInput | p-1/backend/utils/parseExcel.js:42-56 | no rows give empty labels and values |
| ParseExcel.ChartLabelOrder | p-1/backend/utils/parseExcel.js:42-55 | labels: integer-like first and ascending, the rest in first-seen order |
| ParseExcel.FirstSeenOrder | p-1/backend/utils/parseExcel.js:46-48 | keys are listed in the order of their first occurrence |
| ParseExcel.MonthlySales | p-1/backend/utils/parseExcel.js:42-56 | Jan 10, Feb 20, Jan 5 give labels Jan, Feb and values 15, 20 |
| ParseExcel.PrototypeKeyAsWritten | p-1/backend/utils/parseExcel.js:46-50 | as written, a group value "toString" leaves a non-number in the series |
| ParseExcel.ProtoKeyAsWritten | p-1/backend/utils/parseExcel.js:46-50 | as written, a group value "\_\_proto\_\_" drops its rows' amount |
| ParseExcel.FoldAsWrittenAgrees | p-1/backend/utils/parseExcel.js:42-52 | away from inherited names, both as group values and as a column read from a row without that cell, the reduce as written gives the modelled sums |
| ParseExcel.BlankInheritedColumnAsWritten | p-1/backend/utils/parseExcel.js:43 | as written, a row with no cell under a column named "constructor" is grouped under "function Object() { [native code] }", where the model's labels give "Unknown" |
| Models.ParseChartType | p-1/backend/models/Chart.model.js:9-13 | a type is accepted iff it is one of the seven enum values |
| Models.ChartTypeRoundTrip | p-1/backend/models/Chart.model.js:12 | each chart type's name parses back to it |
| Models.NewChart | p-1/backend/models/Chart.model.js:3-44 | creation succeeds iff every required path is present after trimming the title; timestamps are `now` |
| Models.NewFile | p-1/backend/models/File.model.js:3-50 | creation succeeds iff the required paths are present; rows and columns default to 0, data to {}, dates to `now` |
| Models.DefaultsValid | p-1/backend/models/SystemSettings.model.js:3-33 | the defaults are 10, [xlsx, xls, csv], 100, 365, true, true and pass the min and max validators |
| RecordStore.FindByNone | p-1/backend/controllers/file.controller.js:78-85 | findById finds nothing iff no document has the id |
| RecordStore.FindAppended | p-1/backend/controllers/chart.controller.js:29 | a document created with a fresh id is the one findById returns |
| RecordStore.WithoutMembers | p-1/backend/controllers/admin.controller.js:245-246 | deleteMany keeps exactly the documents that do not match |
| RecordStore.WithoutDistinct | p-1/backend/controllers/admin.controller.js:245-246 | deleting by any field leaves no two remaining documents with the same id |
| RecordStore.WithoutKeepsOrder | p-1/backend/controllers/admin.controller.js:245-246 | deleting keeps the remaining documents in order |
| RecordStore.ListingSpec | p-1/backend/controllers/chart.controller.js:53-56 | a find-then-sort lists exactly the matches, as a sorted permutation |
| RecordStore.UserIdsWithout | p-1/backend/controllers/admin.controller.js:248 | deleting a user removes exactly its id |
| RecordStore.Store.AppendFile | p-1/backend/controllers/file.controller.js:30-43 | a new file is appended under the next id and the store stays valid |
| RecordStore.Store.AppendChart | p-1/backend/controllers/chart.controller.js:29-37 | a new chart is appended under the next id and the store stays valid |
| FileController.UploadShapeAgrees | p-1/backend/controllers/file.controller.js:26-41 | rows, columns and headers match what parseExcelFile gives: columns = \|headers\| |
| FileController.UploadFile | p-1/backend/controllers/file.controller.js:9-52 | no file gives 400 "Please upload a file"; a read failure is passed on; otherwise the record is appended, owned by the requester, with the sheet's shape |
| FileController.GetFilesSpec | p-1/backend/controllers/file.controller.js:57-71 | exactly the requester's files, newest upload first |
| FileController.GetFile | p-1/backend/controllers/file.controller.js:76-102 | 404 "File not found" iff there is no such file; 401 "Not authorized to access this file" iff the uploader exists and is someone else; the file only for its owner |
| FileController.GetFileData | p-1/backend/controllers/file.controller.js:145-171 | 404 "File not found" iff there is no such file; 401 "Not authorized to access this file" iff another user uploaded it; otherwise the owner gets the file's data |
| FileController.DeleteFile | p-1/backend/controllers/file.controller.js:107-140 | 404 "File not found" iff there is no such file; 401 "Not authorized to delete this file" iff another user uploaded it; both leave the files unchanged; otherwise only that file goes and charts are untouched |
| ChartController.CreateChart | p-1/backend/controllers/chart.controller.js:7-48 | 404 "File not found" for a missing file, 401 "Not authorized to use this file" for someone else's file; otherwise the chart is stored with the given fields, created by the requester |
| ChartController.GetChartsSpec | p-1/backend/controllers/chart.controller.js:51-68 | exactly the requester's charts, newest first |
| ChartController.GetChart | p-1/backend/controllers/chart.controller.js:71-99 | 404 "Chart not found" iff there is no such chart; 401 "Not authorized to access this chart" iff its creator exists, is someone else and the role is not "admin"; the chart only for its creator or role "admin" |
| ChartController.ApplyPatch | p-1/backend/controllers/chart.controller.js:122-125 | an update keeps the id, creator, file and timestamps and keeps the chart well formed |
| ChartController.ApplyPatchIdempotent | p-1/backend/controllers/chart.controller.js:122-125 | an empty body changes nothing; the same update twice equals once |
| ChartController.UpdateChart | p-1/backend/controllers/chart.controller.js:102-136 | 404 "Chart not found" iff there is no such chart, 401 "Not authorized to update this chart" iff someone else created it; these and failed validation leave the charts unchanged; otherwise only that chart is replaced |
| ChartController.DeleteChart | p-1/backend/controllers/chart.controller.js:139-168 | 404 "Chart not found" iff there is no such chart; 401 "Not authorized to delete this chart" iff someone else created it; only the creator may delete, and only that chart goes |
| AdminController.PageParamSpec | p-1/backend/controllers/admin.controller.js:158-159 | absent, 0 and text starting with neither white space, a sign nor a digit give the default; a positive number is read as itself |
| AdminController.PageParam | p-1/backend/controllers/admin.controller.js:158-159 | the value read is never 0 when the default is not 0 (`parseInt(q) \|\| default`) |
| AdminController.PageCountBounds | p-1/backend/controllers/admin.controller.js:186 | ceil(total/limit) pages hold every document with less than one page to spare |
| AdminController.ListPage | p-1/backend/controllers/admin.controller.js:171-187 | a negative skip throws; otherwise at most \|limit\| documents and the pagination record |
| AdminController.ListPageCovers | p-1/backend/controllers/admin.controller.js:173-174 | the i-th document is on page i/limit+1 at position i%limit |
| AdminController.ListPagePastEnd | p-1/backend/controllers/admin.controller.js:173-174 | a page past the last one is empty |
| AdminController.ListDocumentsSpec | p-1/backend/controllers/admin.controller.js:156-190 | the total counts every match; the page holds only matching documents, sorted by the chosen field (the default when sortBy is absent or empty), descending unless sortOrder is "asc" |
| AdminController.GetAllUsers | p-1/backend/controllers/admin.controller.js:156-190 | the total counts every user the search matches; the page holds only users; without sortBy it is sorted by createdAt, descending unless "asc" |
| AdminController.GetAllFiles | p-1/backend/controllers/admin.controller.js:263-300 | the total counts every file the search matches; the page holds only files; without sortBy it is sorted by uploadedAt, descending unless "asc" |
| AdminController.GetAllCharts | p-1/backend/controllers/admin.controller.js:340-378 | the total counts every chart the search matches; the page holds only charts; without sortBy it is sorted by createdAt, descending unless "asc" |
| AdminController.DefaultListing | p-1/backend/controllers/admin.controller.js:158-162 | no parameters give page 1 of 10, sorted descending by the default field |
| AdminController.SumSizesSorted | p-1/backend/controllers/admin.controller.js:221 | the storage total does not depend on the listing order |
| AdminController.GetUserDetails | p-1/backend/controllers/admin.controller.js:197-230 | 404 "User not found"; otherwise the user's files and charts with their counts and total size |
| AdminController.DeleteUser | p-1/backend/controllers/admin.controller.js:233-260 | removes the user, its files and its charts; a missing user changes nothing |
| AdminController.DeleteFile | p-1/backend/controllers/admin.controller.js:305-337 | removes every chart drawn from the file, then the file; 404 changes nothing |
| AdminController.DeleteChart | p-1/backend/controllers/admin.controller.js:383-405 | any chart, whoever made it; only that chart goes |
| AdminController.MergeSettings | p-1/backend/controllers/admin.controller.js:472-486 | maxFileSize, maxFilesPerUser and dataRetentionDays take a supplied non-zero value and otherwise keep the old one; allowedFileTypes and both booleans take any supplied value and otherwise keep the old one; the editor and time are recorded |
| AdminController.MergeSettingsSpec | p-1/backend/controllers/admin.controller.js:472-486 | an empty body changes only the editor and time; merging twice equals once; valid settings stay valid without numbers |
| AdminController.UpdateSystemSettings | p-1/backend/controllers/admin.controller.js:463-500 | merges into the stored settings or the defaults; saved iff the result passes the validators |
| AdminController.GetSystemSettings | p-1/backend/controllers/admin.controller.js:503-525 | the stored settings, or the schema defaults |
| AdminController.ApplyProfile | p-1/backend/controllers/admin.controller.js:422-443 | a new password needs the matching current one; an empty name or email keeps the old value |
| AdminController.PasswordChangeRoundTrip | p-1/backend/controllers/admin.controller.js:422-443 | after a change the new password is the current one and the old one is refused |
| AdminController.UpdateAdminProfile | p-1/backend/controllers/admin.controller.js:408-458 | 404 "Admin not found" iff the requester is no stored admin; 400 with the profile check's message for a missing or wrong current password; otherwise only that admin changes |
| AdminAuth.BearerToken | p-1/backend/middleware/adminAuth.middleware.js:7-10 | a token is taken only after "Bearer", as the second space-separated word |
| AdminAuth.BearerTokenSpec | p-1/backend/middleware/adminAuth.middleware.js:7-18 | "Bearer t" gives t; "Bearer" alone, another scheme or no header give no token |
| AdminAuth.AdminProtect | p-1/backend/middleware/adminAuth.middleware.js:4-57 | proceeds iff the token verifies, the role is "admin", the admin exists and is active; every refusal is 401 |
| AdminAuth.DeactivatedRefused | p-1/backend/middleware/adminAuth.middleware.js:43-48 | a deactivated admin is refused with a valid token |
| AdminAuth.CheckPermission | p-1/backend/middleware/adminAuth.middleware.js:60-69 | 403 iff the permission is missing, otherwise passes the admin through unchanged |
| AdminRoutes.Authorize | p-1/backend/routes/admin.routes.js:24-69 | login is open; every other route needs adminProtect and the route's permission |
| AdminRoutes.PermissionTable | p-1/backend/routes/admin.routes.js:33-69 | users, files, charts and stats routes need their permission; the create, profile and settings routes need none |
| AdminRoutes.LoginErrors | p-1/backend/routes/admin.routes.js:26 | the two login messages appear exactly when their check fails |
| AdminRoutes.AdminSeesEveryChart | p-1/backend/routes/admin.routes.js:49-59 | an admin is never refused a chart that exists |
| FileHistory.ShownSpec | p-1/frontend/src/pages/FileHistory.jsx:38-58 | a file is shown iff it matches the search and the owner filter; shown is a sub-multiset of the files |
| FileHistory.EmptySearchShowsAll | p-1/frontend/src/pages/FileHistory.jsx:38-47 | an empty search under "all" shows every file |
| FileHistory.ShownOrder | p-1/frontend/src/pages/FileHistory.jsx:48-57 | newest, oldest and name orders; any other key keeps the filtered order |
| FileHistory.HistoryPage.HandleDelete | p-1/frontend/src/pages/FileHistory.jsx:61-72 | a confirmed, successful delete removes exactly the entries with that id and toasts "File deleted successfully"; a failed one keeps the list and toasts "Failed to delete file"; an unconfirmed one does nothing |
| FileHistory.HistoryPage.HandleDeleteAll | p-1/frontend/src/pages/FileHistory.jsx:75-88 | the list empties, with "All files deleted successfully", only when every delete succeeds; otherwise it is kept and "Failed to delete all files" is shown |
| FileHistory.DeleteSpec | p-1/frontend/src/pages/FileHistory.jsx:65 | a delete removes exactly that id and keeps the rest in order |
| UploadFile.ExtensionSpec | p-1/frontend/src/pages/UploadFile.jsx:54 | the extension is the lowercased text after the last dot, or the whole name |
| UploadFile.UpperCaseAccepted | p-1/frontend/src/pages/UploadFile.jsx:53-56 | "XLSX" is accepted |
| UploadFile.TextRefused | p-1/frontend/src/pages/UploadFile.jsx:53-56 | ".txt" is refused |
| UploadFile.RemovedAtSpec | p-1/frontend/src/pages/UploadFile.jsx:73-77 | splice removes exactly element i and keeps the order of the rest |
| UploadFile.UploadPage.HandleFiles | p-1/frontend/src/pages/UploadFile.jsx:52-65 | no accepted file sets the error and keeps the queue; otherwise the accepted files are appended in order |
| UploadFile.UploadPage.RemoveFile | p-1/frontend/src/pages/UploadFile.jsx:73-77 | the array copy and in-place splice leave the queue without element i |
| UploadFile.UploadPage.HandleUpload | p-1/frontend/src/pages/UploadFile.jsx:80-116 | an empty queue sets the error and sends nothing, with no toast; otherwise one request per queued file, then "Successfully uploaded N file(s)" with N the queue's length, or the server's message (or the default) as the error and "Upload failed. Please try again." |
| Pager.PreviousPage | p-1/frontend/src/pages/admin/AdminUsers.jsx:328 | Previous goes one page back and never below 1 |
| Pager.NextAsWrittenLeavesRange | p-1/frontend/src/pages/admin/AdminUsers.jsx:335-336 | with 0 pages, Next is enabled on page 1 and moves to page 0 |
| Pager.NextPageSpec | p-1/frontend/src/pages/admin/AdminCharts.jsx:336 | the clamped Next stays in [1, totalPages] and agrees with the code whenever there is a page |
| Pager.PageButtonsInRange | p-1/frontend/src/pages/admin/AdminUsers.jsx:358-359 | the numbered buttons are exactly the pages 1..min(5, totalPages) |
| Pager.PageState.constructor | p-1/frontend/src/pages/admin/AdminUsers.jsx:27-28 | the page starts on page 1 of 1 |
| Pager.PageState.Loaded | p-1/frontend/src/pages/admin/AdminUsers.jsx:55 | the page count becomes the server's `pagination.pages`; the current page is kept |
| Pager.PageState.Previous | p-1/frontend/src/pages/admin/AdminUsers.jsx:352 | the page becomes PreviousPage of the old one and stays at least 1 |
| Pager.PageState.Next | p-1/frontend/src/pages/admin/AdminUsers.jsx:375 | the page becomes the clamped NextPage and stays at least 1 |
| Pager.PageState.GoTo | p-1/frontend/src/pages/admin/AdminCharts.jsx:359-364 | a numbered button sets that page |
| AdminUsers.CreateUserError | p-1/frontend/src/pages/admin/AdminUsers.jsx:89-97 | "Please fill in all fields" iff a field is empty; otherwise the length message iff the password has fewer than 6 UTF-16 code units; no error otherwise |
| AdminUsers.EmojiPasswordLongEnough | p-1/frontend/src/pages/admin/AdminUsers.jsx:94-97 | a password of three emoji passes the length check |
| AdminUsers.AddUserDialog.HandleCreateUser | p-1/frontend/src/pages/admin/AdminUsers.jsx:88-127 | nothing is sent when a check fails; success closes the modal and empties the form; `creating` ends false |
| AdminUsers.UsersQueryRead | p-1/frontend/src/pages/admin/AdminUsers.jsx:46-52 | the server reads back the requested page and a limit of 10 |
| AdminUsers.UsersQuery | p-1/frontend/src/pages/admin/AdminUsers.jsx:46-52 | the listing request carries a limit of 10 and the search and sort fields as given |
| AdminCharts.ChartTypeName | p-1/frontend/src/pages/admin/AdminCharts.jsx:102-121 | "Unknown" iff the type is not one of the seven |
| AdminCharts.ChartTypeNamesDistinct | p-1/frontend/src/pages/admin/AdminCharts.jsx:102-121 | the seven types have seven different names |
| AdminCharts.ChartIcon | p-1/frontend/src/pages/admin/AdminCharts.jsx:83-99 | the grey icon appears iff the type is not one of the seven |
| AdminCharts.ChartIconSharing | p-1/frontend/src/pages/admin/AdminCharts.jsx:83-99 | bar and bar3d share an icon, so do pie and pie3d, and no other two types do |
| AdminCharts.HandleDeleteChart | p-1/frontend/src/pages/admin/AdminCharts.jsx:59-70 | the list is reloaded iff the delete was confirmed and succeeded |
| AdminSettings.Seed | p-1/frontend/src/pages/admin/AdminSettings.jsx:34-43 | name and email with "" fallback, empty password fields |
| AdminSettings.ProfileError | p-1/frontend/src/pages/admin/AdminSettings.jsx:69-78 | an empty new password skips both checks; otherwise "New passwords do not match" iff the confirmation differs, then the length message iff fewer than 6 UTF-16 code units |
| AdminSettings.EmojiPasswordAccepted | p-1/frontend/src/pages/admin/AdminSettings.jsx:74-77 | a confirmed new password of three emoji passes the length check |
| AdminSettings.ProfileSettings.HandleProfileUpdate | p-1/frontend/src/pages/admin/AdminSettings.jsx:63-104 | no request after a failed check; success clears the three password fields only; `loading` ends false on every path |
| AdminSettings.ProfileRequestOnServer | p-1/frontend/src/pages/admin/AdminSettings.jsx:82-87 | with no new password the server keeps the password; with one it changes to the confirmed value iff the current one is right |
| AdminSettings.SeededFormKeepsPassword | p-1/frontend/src/pages/admin/AdminSettings.jsx:34-43 | submitting the seeded form unchanged passes the checks and keeps the password |
| AdminDashboard.Toggle | p-1/frontend/src/pages/admin/AdminDashboard.jsx:375-379 | toggling one box changes only that key |
| AdminDashboard.AddAdminDialog.TogglePermission | p-1/frontend/src/pages/admin/AdminDashboard.jsx:374-379 | the checkbox sets that permission to its checked state and keeps the others |
| AdminDashboard.PermissionListSpec | p-1/frontend/src/pages/admin/AdminDashboard.jsx:63 | the ticked keys in key order; all ticked gives all four; none gives [] |
| AdminDashboard.PermissionListOnRoutes | p-1/frontend/src/pages/admin/AdminDashboard.jsx:63 | the new admin passes a route's permission check iff its box was ticked |
| AdminDashboard.AddAdminDialog.HandleCreateAdmin | p-1/frontend/src/pages/admin/AdminDashboard.jsx:55-85 | no selection gives an error and no request; the request carries the ticked list and the default password; success resets |
| Dashboard.TotalsAppend | p-1/frontend/src/pages/Dashboard.jsx:116-117 | the row and column totals add up over concatenation |
| Dashboard.TotalRowsBound | p-1/frontend/src/pages/Dashboard.jsx:116-117 | with no negative counts each file's rows are within the total and the cards are at least 0 |
| Dashboard.ChartTitleExample | p-1/frontend/src/pages/Dashboard.jsx:276 | a pie chart is titled "Pie Chart - " + file name |
| Dashboard.SaveRequestAccepted | p-1/frontend/src/pages/Dashboard.jsx:275-287 | the schema accepts the save iff the type is one of the seven and both axes are non-empty |
| Dashboard.SaveRequestStored | p-1/frontend/src/pages/Dashboard.jsx:275-287 | a stored save keeps the posted type, file, axes and series, the trimmed title and the creator |
| Dashboard.DashboardPage.SaveChart | p-1/frontend/src/pages/Dashboard.jsx:268-297 | no selected file gives an error and no request; a saved chart is appended |
| Dashboard.DashboardPage.DeleteChart | p-1/frontend/src/pages/Dashboard.jsx:300-311 | a confirmed, successful delete removes exactly the entries with that id |
| Dashboard.DashboardPage.LoadChart | p-1/frontend/src/pages/Dashboard.jsx:1220-1229 | the series is replaced only when both labels and values are present |
| Dashboard.SaveAfterLoad | p-1/frontend/src/pages/Dashboard.jsx:1220-1229 | a loaded chart saved again posts its own type, axes and series |

## Left out

- Spreadsheet decoding by the `xlsx` library: a read is given as its rows or an error.
- IEEE floating point: numbers are exact decimals and sums are reals. `parseFloat` is modelled for plain decimal text and exponent notation. Overflow to Infinity, the literals "Infinity", "+Infinity" and "-Infinity", and rounding to the nearest double are not modelled.
- JsValues.ParseFloatText: reads "Infinity", "+Infinity" and "-Infinity" as NaN (None), because a real cannot hold Infinity. JavaScript reads them as ±Infinity, which is truthy, so `parseFloat(v) || 0` would add it to the group's sum; the model adds 0.
- `String` of a number writes the digits of the exact decimal. The choice of the shortest digits that round back to the same double is not modelled, since the model has no doubles. The notation rules are followed as written in section 6.1.6.1.20 of ECMA-262: plain digits up to 10^21, leading zeros down to 10^-6, exponent notation beyond.
- Locale-dependent case mapping and collation: case mapping covers ASCII only. `localeCompare` is a given order.
- Mongoose `populate` projections: they are not modelled. A populated reference that is gone makes `._id` throw, which the model gives as `Passed`.
- `$regex` search: it is a given total predicate `matches`. A search text that is not a valid regular expression (such as "(") makes `find` throw, and the handler passes that error to `next`; this error path is not modelled.
- The MongoDB order of equal sort keys: the model uses a stable sort.
- Mongoose cast errors: inputs are typed, so there are none.
- `getDashboardStats`: its aggregation pipelines are database-side.
- The `adminLogin`, `createAdmin` and `getAdminProfile` handlers: they rest on the Admin model, bcrypt and JWT signing. Only the login validators are modelled.
- `auth.controller.js`: it is not part of this model.
- bcrypt: passwords are compared as stored strings.
- JWT verification: it is a given function `verify`.
- The Admin model: saving an administrator is taken to succeed.
- The file-system delete: the uploaded file's removal from disk is not modelled.
- Update bodies that set `file`, `createdBy` or `createdAt`: `ChartController.ChartPatch` carries only the title, type, axes and data paths.
- `Promise.all` uploads and deletes: each is one all-or-nothing outcome.
- The three-second reset after an upload: it is not modelled.
- The list reloads after a create or delete on the admin pages: they are reported as a flag, or are not modelled.
- Rendering, animation, canvas drawing and random preview data: none is modelled.
- Pager.PageState.Next: uses the corrected clamp, because the code as written can leave page 1 (see Findings).

## Findings

| source | as written | input that shows it | evidently intended | confidence | as-written member | corrected member |
|---|---|---|---|---|---|---|
| p-1/backend/utils/parseExcel.js:46-50 | `!acc[xValue]` on `{}` also sees Object.prototype members; they are truthy, so the slot is never set to 0 | a row whose group value is "toString" (the series gets a string) or "\_\_proto\_\_" (its amount is lost) | every group value, whatever its text, gets the sum of its rows | not executed | ParseExcel.PrototypeKeyAsWritten | ParseExcel.GenerateChartData |
| p-1/backend/utils/parseExcel.js:43 | `row[xAxis]` on a row object also reads Object.prototype members when the row has no cell under that column | a sheet with a "constructor" column whose cell is blank in some row: that row is grouped under "function Object() { [native code] }" | a row without a cell is grouped under "Unknown" | not executed | ParseExcel.BlankInheritedColumnAsWritten | ParseExcel.GenerateChartData |
| p-1/frontend/src/pages/admin/AdminUsers.jsx:335-336 | Next sets `min(totalPages, page + 1)` and is enabled unless `page === totalPages` | an empty listing (`pages` is 0) on page 1: Next is enabled and moves to page 0 | Next never leaves page 1 or later | not executed | Pager.NextAsWrittenLeavesRange | Pager.NextPageSpec |
