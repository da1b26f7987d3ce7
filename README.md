# Dashboard-BI core in Dafny

This project models the client-side logic of Dashboard-BI (InsightFlow), a single-page
business-intelligence dashboard. The modelled parts are these:

- **Widget builder** of the dashboard grid: the form and palette drops, the live preview
  from the mock sales or scatter data, client-side grouping and aggregation, and the
  saving of a widget's configuration.
- **Dashboard filters**: they narrow a widget's rows.
- **Widget list operations**: reordering, resizing and deleting widgets.
- **CSV export**.
- **Workspace store**: workspaces, dashboards, data sources, saved queries, the audit log,
  refresh scheduling and the heartbeat that finds due sources.
- **SQL editor**: word completion and the HTML escaping of its backdrop.
- **Admin screens**: the audit-log search and the user list.
- **Application layout**: the active workspace, page and view, and the schedule dialog.

Pure logic becomes functions over datatypes, with lemmas about them. Components whose
state the source updates in place become classes whose methods are specified by those
functions. A JavaScript object used as a record is an association list `Row` in insertion
order. `Object.keys` order is the function `Values.OwnKeyOrder`: integer-like keys
ascending, then the other keys in insertion order. Numbers are reals. Timestamps are
natural numbers of milliseconds. A value the source takes from the outside world is a
parameter: the clock, random data, `confirm()`, the caret position, and the id the
database returns for an insert.

Modules, in dependency order:

- `Common`: digits, lower case, substrings, `filter`.
- `Values`: rows, `String()`/`Number()`, key order and ISO dates.
- `Model`: the types of `types.ts`.
- `Aggregation`: `processAggregation`.
- `Fixtures`: the mock data.
- `Preview`: the builder's preview effect.
- `Filters`: `applyFiltersToWidget` and the default filters.
- `WidgetList`: move, reorder, resize and delete.
- `Csv`: the download.
- `Builder`: the widget form and `Builder.WidgetEditor`.
- `Workspaces`: the context store, `Workspaces.Store`.
- `SqlEditor`: completion and escaping.
- `AuditLogs`: the search.
- `UserAdmin`: the user list.
- `Shell`: `App.tsx`'s layout.

## Model

| member | source | states |
|---|---|---|
| Values.IntegerTextRoundTrip | components/dashboard/DashboardGrid.tsx:117-118 | `Number(String(v))` returns an integer value unchanged, so a group key read back as a number is the original integer |
| Values.OwnKeyOrderPermutes | components/dashboard/DashboardGrid.tsx:183 | `Object.keys` lists every own key once: it is a permutation of the insertion order |
| Values.PlainNames | components/dashboard/DashboardGrid.tsx:564 | keys that do not start with a digit enumerate in insertion order |
| Aggregation.ProcessAggregation | components/dashboard/DashboardGrid.tsx:113-157 | the two-pass grouping and emitting computes exactly `Aggregate` of the rows |
| Aggregation.GroupRows | components/dashboard/DashboardGrid.tsx:116-121 | the groups object holds, for each key first seen in row order, the list of that key's coerced measures |
| Aggregation.EmitRows | components/dashboard/DashboardGrid.tsx:123-156 | mapping over the group keys yields one `{x: key, y: rounded reduction}` row per key |
| Aggregation.GroupRowIsLiteral | components/dashboard/DashboardGrid.tsx:153-156 | the output row equals the object literal `{[xField]: key, [yField]: result}` built by storing the key and then the value, so equal field names leave only the value |
| Aggregation.AggregateRows | components/dashboard/DashboardGrid.tsx:113-157 | one output row per distinct x value, keys distinct and exactly the rows' keys; row i holds key i and the rounded reduction of that key's group; no input gives no output |
| Aggregation.GroupsPartitionRows | components/dashboard/DashboardGrid.tsx:116-121 | the groups partition the rows: their sizes add up to the number of rows |
| Aggregation.GroupSize | components/dashboard/DashboardGrid.tsx:116-121 | a group has one measure per row carrying its key |
| Aggregation.ReduceMeaning | components/dashboard/DashboardGrid.tsx:127-150 | MIN and MAX are members and bound every value, AVG lies between them and times the count is SUM, COUNT is the length, NONE is the first value |
| Aggregation.RoundedMinMax | components/dashboard/DashboardGrid.tsx:152 | rounding to hundredths keeps the rounded MIN and MAX bounding every rounded value |
| Aggregation.Round2Idempotent | components/dashboard/DashboardGrid.tsx:152 | rounding an already rounded value changes nothing |
| Aggregation.AggregateOfDistinctKeys | components/dashboard/DashboardGrid.tsx:113-157 | with distinct plain x values the output has one row per input row, in input order, carrying that row's own rounded measure |
| Aggregation.OutputKeysOfAggregate | components/dashboard/DashboardGrid.tsx:153-156 | the output's x values are the distinct group keys in output order |
| Aggregation.AggregateIdempotent | components/dashboard/DashboardGrid.tsx:113-157 | aggregating an aggregation again by the same fields and a non-COUNT reduction returns it unchanged |
| Aggregation.PushCases | components/dashboard/DashboardGrid.tsx:120-121 | `if (!groups[key]) groups[key] = []; groups[key].push(val)` on `{}`: a key naming an inherited member finds it truthy and the push throws; an absent key gets a new bucket `[val]` appended to the creation order; an own bucket is extended by `val` |
| Aggregation.PushAsWrittenStep | components/dashboard/DashboardGrid.tsx:116-121 | one forEach pass on the `{}` dictionary: the lookup of `groups[key]` finds an inherited member exactly for an inherited name, and then the push throws; any other row creates or extends its own bucket as the intended pass does |
| Aggregation.GroupAsWrittenMeaning | components/dashboard/DashboardGrid.tsx:114-122 | the forEach pass as written throws exactly when some row's key names an inherited member; otherwise its buckets and creation order are the groups and first-seen keys |
| Aggregation.BucketRowsAgree | components/dashboard/DashboardGrid.tsx:124-155 | the map over `Object.keys(groups)` reading each bucket gives the intended rows when the buckets hold the groups |
| Aggregation.AggregateAsWrittenMeaning | components/dashboard/DashboardGrid.tsx:113-157 | `processAggregation` as written returns nothing (throws) exactly when some row's key names an inherited `Object.prototype` member, and otherwise returns `Aggregate` |
| Aggregation.InheritedKeyThrows | components/dashboard/DashboardGrid.tsx:120-121 | for one row whose month is `"constructor"`, the lookup on the empty dictionary reads the inherited member, so the code as written throws, while the corrected grouping yields one row |
| Aggregation.AsWrittenAgreesOffInheritedNames | components/dashboard/DashboardGrid.tsx:113-157 | on data without such keys, the code as written returns the corrected result |
| Fixtures.SalesRowAt | constants.ts:56-64 | the sales fixture is the seven fixed month rows, in order |
| Fixtures.SalesFields | constants.ts:57 | the sales rows expose month, revenue, profit, churn, status, category, date in that order |
| Fixtures.ScatterFields | constants.ts:66-71 | a scatter sample exposes x, y, z, route_type |
| Preview.RawRows | components/dashboard/DashboardGrid.tsx:166-179 | the rows are one of the two fixtures, the sales rows or the scatter sample, and never empty; which of the two a source and chart type read is the definition's branch |
| Preview.PreviewFor | components/dashboard/DashboardGrid.tsx:159-239 | no source clears rows and fields; otherwise fields are the first raw row's keys; HTML, an indicator without value field, or a chart missing a field shows no rows |
| Preview.ProjectValue | components/dashboard/DashboardGrid.tsx:198 | a truthy non-object value is copied, anything else becomes the empty string |
| Preview.ProjectRowLookup | components/dashboard/DashboardGrid.tsx:196-202 | a projected row holds exactly the chosen columns, each with the projected value of that column |
| Preview.ProjectRowOrder | components/dashboard/DashboardGrid.tsx:197-199 | with distinct columns the projected row's keys are the columns in their order |
| Preview.TableWithoutColumns | components/dashboard/DashboardGrid.tsx:190-194 | a table without columns previews the first five raw rows |
| Preview.TableWithColumns | components/dashboard/DashboardGrid.tsx:195-203 | a table with columns previews every raw row projected on the columns |
| Preview.IndicatorPreview | components/dashboard/DashboardGrid.tsx:206-223 | an indicator previews one row whose only key is the value field, holding the rounded reduction of all coerced values |
| Preview.ChartPreview | components/dashboard/DashboardGrid.tsx:224-236 | a chart with both fields previews the aggregation of the raw rows |
| Preview.ChurnByMonth | components/dashboard/DashboardGrid.tsx:113-157 | summing churn by month over the sales rows reproduces each month's churn, in month order |
| Preview.SalesTableFirstFive | components/dashboard/DashboardGrid.tsx:190-194 | a table of the sales data without columns previews January to May |
| Filters.Effective | components/dashboard/DashboardGrid.tsx:290-295 | a filter applies exactly when it is mapped to a non-empty field, its value is truthy and it is defined on the dashboard; it then carries that definition, field and value |
| Filters.ApplyFiltersToWidget | components/dashboard/DashboardGrid.tsx:286-323 | the widget is returned with only its data replaced by the rows every applicable filter keeps |
| Filters.SelectMeaning | components/dashboard/DashboardGrid.tsx:297-320 | the kept rows come from the data in their order, and a row is kept exactly when every applicable filter keeps it |
| Filters.SelectTwice | components/dashboard/DashboardGrid.tsx:290-297 | filtering one filter after another equals filtering by both |
| Filters.UnmatchedFiltersKeepAll | components/dashboard/DashboardGrid.tsx:290-295 | when no active filter applies to the widget, its data is unchanged |
| Filters.SelectFilterKeeps | components/dashboard/DashboardGrid.tsx:300-302 | a select filter keeps a row exactly when the row's field equals the choice or the choice is "All" |
| Filters.DateRangeKeeps | components/dashboard/DashboardGrid.tsx:304-316 | a date range keeps rows without a date, and otherwise exactly those on or after a set start and on or before a set end |
| Filters.PassThroughFilters | components/dashboard/DashboardGrid.tsx:318-319 | a text filter, or a date filter without a range value, keeps every row |
| Filters.AllKeepsEveryRow | components/dashboard/DashboardGrid.tsx:301 | the choice "All" keeps the data unchanged |
| Filters.SalesFebruaryToApril | components/dashboard/DashboardGrid.tsx:304-316 | the range 2024-02-01 to 2024-04-01 keeps exactly the February, March and April sales rows |
| Filters.DefaultsFromFilters | components/dashboard/DashboardGrid.tsx:58-64 | every initial active filter comes from a filter definition with a truthy default value |
| Filters.DefaultsApplied | components/dashboard/DashboardGrid.tsx:58-64 | with distinct filter ids each truthy default becomes that filter's initial value |
| Filters.ChangeFilter | components/dashboard/DashboardGrid.tsx:244-246 | changing a filter sets its value and leaves every other active filter as it was |
| Filters.ClearedRangeIsSkipped | components/dashboard/DashboardGrid.tsx:291-292 | a cleared filter value is falsy, so the filter is skipped |
| WidgetList.Swapped | components/dashboard/DashboardGrid.tsx:396-397 | the swap exchanges two positions, keeps every other one and permutes the list |
| WidgetList.Neighbour | components/dashboard/DashboardGrid.tsx:391-395 | moving up from the first or down from the last widget has no neighbour, otherwise the neighbour is one place up or down |
| WidgetList.MoveWidget | components/dashboard/DashboardGrid.tsx:390-399 | the array swap yields the dashboard with only its widgets replaced by the moved list |
| WidgetList.MovedMeaning | components/dashboard/DashboardGrid.tsx:390-399 | a move permutes the widgets, does nothing at either end, and moving back the other way undoes it |
| WidgetList.ReorderWidgets | components/dashboard/DashboardGrid.tsx:377-388 | outside edit mode, or dropping on its own place, nothing changes; otherwise the dragged widget is moved to the drop index |
| WidgetList.MovedToMeaning | components/dashboard/DashboardGrid.tsx:383-386 | the move keeps the count and the widgets, puts the dragged widget at the drop index and keeps the others' relative order |
| WidgetList.MovedToInverse | components/dashboard/DashboardGrid.tsx:383-386 | dragging back from the drop index to the drag index restores the list |
| WidgetList.Clamp | components/dashboard/DashboardGrid.tsx:526 | the clamped width lies in the bounds and equals the value when that is already in them |
| WidgetList.ResizeWidth | components/dashboard/DashboardGrid.tsx:523-532 | only the widgets with the id change, and only in width; nothing else on the dashboard changes |
| WidgetList.ResizedWidthInRange | components/dashboard/DashboardGrid.tsx:526-527 | a resized width is between 1 and 3 columns and is the requested width when that is in range |
| WidgetList.BeginHeightDrag | components/dashboard/DashboardGrid.tsx:401-410 | a drag starts only in edit mode, remembering the widget, the pointer and the height, 300 when unset |
| WidgetList.DraggedHeight | components/dashboard/DashboardGrid.tsx:80-81 | the dragged height is the start height plus the pointer's travel, but at least 150 |
| WidgetList.ResizeHeight | components/dashboard/DashboardGrid.tsx:84-91 | only the dragged widget's height changes |
| WidgetList.ResizedHeightFloor | components/dashboard/DashboardGrid.tsx:81-88 | the dragged widget ends at least 150 high with its width unchanged |
| WidgetList.DeleteWidget | components/dashboard/DashboardGrid.tsx:514-521 | an unconfirmed delete changes nothing; only the widget list can change |
| WidgetList.WithoutIdMeaning | components/dashboard/DashboardGrid.tsx:518 | deleting keeps, in order, exactly the widgets with another id |
| Csv.FieldTexts | components/dashboard/DashboardGrid.tsx:569-571 | each cell is `String()` of the row's value for that header |
| Csv.QuotedAll | components/dashboard/DashboardGrid.tsx:571 | every cell is wrapped in double quotes |
| Csv.CsvLines | components/dashboard/DashboardGrid.tsx:564-572 | the lines are the header joined by commas, then one record per row over the first row's keys |
| Csv.CsvText | components/dashboard/DashboardGrid.tsx:558-562 | an export of no data produces no file |
| Csv.SplitJoin | components/dashboard/DashboardGrid.tsx:567-572 | joining parts without the separator and splitting again returns the parts |
| Csv.ParseQuotedJoin | components/dashboard/DashboardGrid.tsx:571 | quoted cells without quotes inside read back as the cells |
| Csv.RecordFields | components/dashboard/DashboardGrid.tsx:567-572 | a record whose cells contain no quote reads back as its cells |
| Csv.CsvTextLines | components/dashboard/DashboardGrid.tsx:567-572 | without line breaks in headers or cells, splitting the file at line breaks gives the header and the records |
| Csv.CsvExample | components/dashboard/DashboardGrid.tsx:564-572 | the row `{a: 1, b: "x"}` exports as `a,b` then `"1","x"` |
| Csv.UndoubledQuotesCollide | components/dashboard/DashboardGrid.tsx:571 | quotes inside cells are not doubled, so two different rows export to the same text |
| Csv.Underscored | components/dashboard/DashboardGrid.tsx:563 | each character that is not an ASCII letter or digit becomes `_` |
| Csv.ExportFileNameMeaning | components/dashboard/DashboardGrid.tsx:563 | the file name has the title's length ("export" when empty), maps letters to lower case and everything else but digits to `_`, and uses only `a-z0-9_` |
| Csv.ExportFileNameIdempotent | components/dashboard/DashboardGrid.tsx:563 | a file name already produced maps to itself |
| Builder.ResetForm | components/dashboard/DashboardGrid.tsx:500-511 | the form returns to a blank bar chart summed, keeping only the selected source |
| Builder.WorkspaceSources | components/dashboard/DashboardGrid.tsx:241 | the available sources are exactly those of the dashboard's workspace, in order |
| Builder.AddColumn | components/dashboard/DashboardGrid.tsx:342-346 | dropping a column adds it once, keeps the existing ones, and keeps the columns free of repeats |
| Builder.UnderscoreSpaces | components/dashboard/DashboardGrid.tsx:350 | replacing white-space runs leaves no white space |
| Builder.FilterIdNormal | components/dashboard/DashboardGrid.tsx:350 | a filter id has no white space or upper case and is its own filter id |
| Builder.Capitalized | components/dashboard/DashboardGrid.tsx:355 | the label upper-cases the first character and keeps the rest |
| Builder.WithFilterFor | components/dashboard/DashboardGrid.tsx:352-359 | a drop adds a select filter only when none with that id exists |
| Builder.WithFilterForMeaning | components/dashboard/DashboardGrid.tsx:349-362 | after a drop the filter exists, earlier filters are kept in place, at most one is added, and dropping again changes nothing |
| Builder.EditForm | components/dashboard/DashboardGrid.tsx:419-442 | opening a widget for edit loads title, type, source (the saved query, else the first available, else unchanged), x field, columns or value field, aggregation and mapping with their defaults |
| Builder.ConfigOf | components/dashboard/DashboardGrid.tsx:457-465 | the saved configuration: x axis except for tables and indicators, dataKeys, palette, aggregation except for tables, HTML content only for HTML, the mapping, and the query id only for `sq-` sources |
| Builder.NewWidget | components/dashboard/DashboardGrid.tsx:484-492 | a new widget is three columns wide for a table, else one, and 300 high |
| Builder.SaveEditMeaning | components/dashboard/DashboardGrid.tsx:467-481 | saving an edit keeps the count, ids and layouts, changes only the edited widget and gives it the form's title, type, preview and configuration |
| Builder.SaveCreateMeaning | components/dashboard/DashboardGrid.tsx:482-494 | saving a new widget appends one widget with the new id, the form's content and the default layout |
| Builder.SaveThenEditRestoresForm | components/dashboard/DashboardGrid.tsx:419-465 | opening a saved widget for edit restores the form's fields that the configuration keeps |
| Builder.WidgetEditor.constructor | components/dashboard/DashboardGrid.tsx:500-511 | the editor starts with a blank form and no preview |
| Builder.WidgetEditor.Reset | components/dashboard/DashboardGrid.tsx:500-511 | resetting applies `ResetForm` and clears preview, fields and the edited id |
| Builder.WidgetEditor.OpenAdd | components/dashboard/DashboardGrid.tsx:413-417 | adding resets the form and opens the modal for a new widget |
| Builder.WidgetEditor.OpenEdit | components/dashboard/DashboardGrid.tsx:419-442 | editing loads `EditForm` and remembers the widget's id |
| Builder.WidgetEditor.RefreshPreview | components/dashboard/DashboardGrid.tsx:159-239 | the preview and field list become `PreviewFor` of the current form |
| Builder.WidgetEditor.Drop | components/dashboard/DashboardGrid.tsx:337-364 | each drop target sets its field; the filter target adds the filter and maps its id to the field |
| Builder.WidgetEditor.Save | components/dashboard/DashboardGrid.tsx:444-498 | an invalid form changes nothing; a valid one saves the widget and resets the form |
| Workspaces.NextRun | components/context/WorkspaceContext.tsx:190-201 | a next run exists exactly when an interval is given |
| Workspaces.NextRunMeaning | components/context/WorkspaceContext.tsx:190-201 | the next run is within a day after now: 15, 30 or 60 minutes later, or the first midnight after now |
| Workspaces.StoredSchedule | components/context/WorkspaceContext.tsx:204-207 | a stored schedule gets a next run exactly when it is automatic with an interval; all else is kept |
| Workspaces.UpdateSource | components/context/WorkspaceContext.tsx:210 | only sources with the id change |
| Workspaces.FindSource | components/context/WorkspaceContext.tsx:221-222 | the source found has the id; none means no source has it |
| Workspaces.DoneSchedule | components/context/WorkspaceContext.tsx:236-241 | a finished refresh is not syncing, was synced now and, when automatic, is next due at the interval's next run |
| Workspaces.DueIdsMeaning | components/context/WorkspaceContext.tsx:271-284 | the heartbeat calls the refresh with exactly the ids of the automatic, idle sources whose next run has passed |
| Workspaces.RefreshedIsNotDue | components/context/WorkspaceContext.tsx:234-243 | a source just refreshed is not due again at the same instant |
| Workspaces.PrependKeepsNewestFirst | components/context/WorkspaceContext.tsx:90 | prepending an entry no older than the newest keeps the log newest first |
| Workspaces.ReplaceDashboard | components/context/WorkspaceContext.tsx:133 | the dashboard with the updated id is replaced, the others kept |
| Workspaces.ReplaceDashboardMeaning | components/context/WorkspaceContext.tsx:132-146 | updating keeps ids and positions, places the update when its id exists, changes nothing otherwise, and is idempotent |
| Workspaces.DeleteWorkspaceCascade | components/context/WorkspaceContext.tsx:111-117 | deleting a workspace keeps, in order, exactly the dashboards and sources of other workspaces |
| Workspaces.RefreshOutcome | components/context/WorkspaceContext.tsx:220-268 | a refresh marks only the source syncing, then connected and synced now, or in error with its old schedule idle |
| Workspaces.Store.constructor | components/context/WorkspaceContext.tsx:29-33 | the store starts empty |
| Workspaces.Store.AddLog | components/context/WorkspaceContext.tsx:74-94 | with a user, the entry is prepended with that user's name and the time, keeping newest-first order; without one nothing changes |
| Workspaces.Store.AddWorkspace | components/context/WorkspaceContext.tsx:96-109 | with a user and an inserted row the workspace is appended, owned by the user, and logged |
| Workspaces.Store.DeleteWorkspace | components/context/WorkspaceContext.tsx:111-117 | the workspace, its dashboards and its sources are removed, and the deletion is logged |
| Workspaces.Store.AddDashboard | components/context/WorkspaceContext.tsx:119-130 | an inserted dashboard is appended empty and logged |
| Workspaces.Store.UpdateDashboard | components/context/WorkspaceContext.tsx:132-146 | the dashboard is replaced by id and the update logged |
| Workspaces.Store.DeleteDashboard | components/context/WorkspaceContext.tsx:148-152 | the dashboard is removed and the deletion logged |
| Workspaces.Store.AddDataSource | components/context/WorkspaceContext.tsx:154-172 | an inserted source is appended connected with a manual schedule and logged |
| Workspaces.Store.SaveQuery | components/context/WorkspaceContext.tsx:174-185 | an inserted query is appended with description "Saved Query" and logged |
| Workspaces.Store.UpdateDataSourceSchedule | components/context/WorkspaceContext.tsx:203-218 | the source's schedule becomes the stored schedule and the change is logged |
| Workspaces.Store.BeginRefresh | components/context/WorkspaceContext.tsx:220-228 | an unknown id changes nothing; otherwise the source is marked syncing |
| Workspaces.Store.CompleteRefresh | components/context/WorkspaceContext.tsx:230-267 | success marks the source connected with the done schedule, failure marks it in error and idle; each is logged |
| Workspaces.Store.Heartbeat | components/context/WorkspaceContext.tsx:271-284 | the loop collects exactly the due sources' ids, in order |
| SqlEditor.LastWordShape | components/query/SqlEditor.tsx:70-72 | the last word ends the text before the caret, contains no white space, and is the whole text or follows white space |
| SqlEditor.Before | components/query/SqlEditor.tsx:70 | the text before the caret, with the caret clamped to the text |
| SqlEditor.Suggestions | components/query/SqlEditor.tsx:73-99 | at most five suggestions, and none for a word shorter than two characters |
| SqlEditor.SuggestionsMeaning | components/query/SqlEditor.tsx:74-81 | the suggestions are the first matches in keyword-then-schema order, each starting with the word ignoring case and not equal to it |
| SqlEditor.MatchesIgnoreCase | components/query/SqlEditor.tsx:76-79 | the word's case does not change the matches |
| SqlEditor.PopupPosition | components/query/SqlEditor.tsx:178-179 | the popup sits 40 px below and 20 px right of the anchor, at most 200 down and 300 across |
| SqlEditor.PopupRows | components/query/SqlEditor.tsx:84-93 | on the first line the popup is 60 px down, and from the eighth line on it stays at 200 |
| SqlEditor.ApplySuggestionMeaning | components/query/SqlEditor.tsx:102-120 | accepting replaces exactly the word before the caret: text before it and after the caret is kept, the caret lands after the suggestion, which becomes the new last word |
| SqlEditor.TabEdit | components/query/SqlEditor.tsx:129-137 | Tab without suggestions replaces the selection by two spaces and puts the caret after them |
| SqlEditor.EscapeHtmlPerChar | components/query/SqlEditor.tsx:49 | escaping `&` first makes the three replacements one escape per character |
| SqlEditor.EscapeHtmlMeaning | components/query/SqlEditor.tsx:49 | the escaped text has no raw angle bracket and decodes back to the original |
| SqlEditor.Editor.constructor | components/query/SqlEditor.tsx:25-27 | the editor starts with no suggestions shown |
| SqlEditor.Editor.Change | components/query/SqlEditor.tsx:36-100 | a change stores the text and shows the suggestions with their anchor, or hides the popup when none match |
| SqlEditor.Editor.KeyDown | components/query/SqlEditor.tsx:122-143 | Tab or Enter with the popup accepts the first suggestion, Tab without it indents, Escape hides the popup, other keys change nothing |
| SqlEditor.Editor.Click | components/query/SqlEditor.tsx:182-186 | a click on a shown suggestion accepts that suggestion at the caret and hides the popup |
| AuditLogs.FilteredLogsMeaning | components/admin/AuditLogViewer.tsx:9-13 | the shown logs are taken from the logs in order, a log is shown exactly when its action, details or user contains the term ignoring case, and an empty term shows all |
| AuditLogs.FilteredLogsIgnoreCase | components/admin/AuditLogViewer.tsx:10-12 | terms differing only in case show the same logs |
| AuditLogs.FilteredLogsNewestFirst | components/admin/AuditLogViewer.tsx:9 | searching keeps the newest-first order |
| UserAdmin.LoadForm | components/admin/UserManagement.tsx:23-27 | editing loads name and email, role defaulting to Viewer and status to Active |
| UserAdmin.Overwrite | components/admin/UserManagement.tsx:43 | saving onto a user replaces name, email, role and status and keeps id and avatar |
| UserAdmin.EditedUsersMeaning | components/admin/UserManagement.tsx:42-43 | saving an edit keeps the count, positions and ids, overwrites the users with the edited id and leaves the others unchanged |
| UserAdmin.EditSaveUnchanged | components/admin/UserManagement.tsx:23-27 | opening a user and saving without edits leaves the list unchanged |
| UserAdmin.WithoutUserMeaning | components/admin/UserManagement.tsx:37 | deleting removes exactly the users with that id and keeps the others in order |
| UserAdmin.NewUser | components/admin/UserManagement.tsx:45 | a new user carries the time-stamped id and the form's fields |
| UserAdmin.UserManagement.constructor | components/admin/UserManagement.tsx:7-20 | the list starts as the four mock users with a blank form |
| UserAdmin.UserManagement.Edit | components/admin/UserManagement.tsx:23-27 | the user is remembered and loaded into the form |
| UserAdmin.UserManagement.Add | components/admin/UserManagement.tsx:29-33 | the form is reset to empty name and email, Viewer and Active |
| UserAdmin.UserManagement.Delete | components/admin/UserManagement.tsx:35-39 | a confirmed delete removes the id's users, an unconfirmed one nothing |
| UserAdmin.UserManagement.TypeName | components/admin/UserManagement.tsx:114 | the name input replaces the form's name only |
| UserAdmin.UserManagement.TypeEmail | components/admin/UserManagement.tsx:121 | the email input replaces the form's email only |
| UserAdmin.UserManagement.ChooseRole | components/admin/UserManagement.tsx:129 | the role select replaces the form's role only |
| UserAdmin.UserManagement.ChooseStatus | components/admin/UserManagement.tsx:140 | the status select replaces the form's status only |
| UserAdmin.UserManagement.CloseModal | components/admin/UserManagement.tsx:105 | closing the modal saves nothing and keeps the form |
| UserAdmin.UserManagement.Save | components/admin/UserManagement.tsx:41-48 | an edit overwrites the edited users and keeps the count, a new user is appended and the count grows by one; the modal closes |
| Shell.SettledPageMeaning | App.tsx:111-125 | the page settles on a dashboard of the workspace when it has one, and on none otherwise; a valid current page is kept |
| Shell.SettledPageIdempotent | App.tsx:111-125 | settling again keeps the settled page |
| Shell.ToManual | App.tsx:466 | the manual button changes only the type |
| Shell.ToAuto | App.tsx:478 | the automatic button keeps an existing interval or defaults it to one hour, and keeps everything else |
| Shell.WithInterval | App.tsx:493 | the select changes only the interval |
| Shell.Layout.constructor | App.tsx:87-101 | the layout starts on the dashboard view with nothing active and a manual draft |
| Shell.Layout.SyncWorkspace | App.tsx:105-109 | the first workspace becomes active only when none is; every other field stays |
| Shell.Layout.SyncPage | App.tsx:111-125 | with a workspace active the page settles and the view returns to the dashboard; every other field stays |
| Shell.Layout.SelectWorkspace | App.tsx:186 | the picker sets the active workspace and nothing else |
| Shell.Layout.OpenPage | App.tsx:207 | a page link opens that page on the dashboard view; every other field stays |
| Shell.Layout.ShowView | App.tsx:219-244 | the other links switch the view and nothing else |
| Shell.Layout.CreateWorkspace | App.tsx:134-140 | nothing without a name; otherwise the workspace is requested, the name cleared and the dialog closed; every other field stays |
| Shell.Layout.CreatePage | App.tsx:142-148 | nothing without a name or an active workspace; otherwise the page is requested in that workspace, the name cleared and the dialog closed; every other field stays |
| Shell.Layout.OpenSchedule | App.tsx:150-154 | the draft starts as the source's schedule and the dialog opens for that source; every other field stays |
| Shell.Layout.ChooseManual | App.tsx:466 | the manual button sets the draft's type to manual and changes nothing else |
| Shell.Layout.ChooseAuto | App.tsx:478 | the automatic button sets the draft's type to automatic, defaulting the interval to one hour, and changes nothing else |
| Shell.Layout.ChooseInterval | App.tsx:493 | the select sets the draft's interval and changes nothing else |
| Shell.Layout.TypeWorkspaceName | App.tsx:421 | the workspace name input sets the name only |
| Shell.Layout.TypePageName | App.tsx:442 | the page name input sets the name only |
| Shell.Layout.SetWorkspaceDialog | App.tsx:407-409 | the sidebar's "+ ADD" button opens the workspace dialog and its onClose closes it, keeping the typed name |
| Shell.Layout.SetPageDialog | App.tsx:428-430 | the add-page and "Create Page" buttons open the page dialog and its onClose closes it, keeping the typed name |
| Shell.Layout.CloseSchedule | App.tsx:453 | closing the schedule dialog requests nothing and keeps the draft |
| Shell.Layout.SaveSchedule | App.tsx:156-161 | the draft is requested for the edited source when there is one, and the dialog closes; every other field stays |
| Shell.Layout.ActiveSources | App.tsx:132 | the listed sources are exactly those of the active workspace, in order |

## Left out

- Floating point is modelled with exact reals. `Math.round` is round-half-up on the
  exact value.
- `Number()` is modelled for optional white space, an optional sign, and digits with an
  optional fraction. Exponents, hexadecimal and `Infinity` read as 0. `NaN`, which `|| 0`
  turns into 0, has no counterpart.
- `String()` of a fraction is exact to twenty places rather than the shortest
  round-tripping form.
- `toLowerCase`/`toUpperCase` are modelled on ASCII letters only. `\s` is the JavaScript
  white-space set. Strings are sequences of characters, not UTF-16 code units.
- Dates: only ISO `YYYY-MM-DD` strings are compared, as the integers `yyyymmdd`. Any
  other string is an invalid date, with which every comparison is false. Day-of-month
  validity per month is not checked.
- Workspaces.NextRun: midnight is the next day boundary of UTC rather than of the local
  time zone.
- Workspaces.NextRun: ISO timestamp strings are modelled as millisecond numbers.
- Property lookup walks only own properties. The inherited `Object.prototype` members
  appear only in the as-written group dictionary (`Aggregation.ReadSlot`, see Findings).
- Drag-and-drop payloads, mouse and keyboard events, `confirm()`, the caret and selection,
  the clock and `Math.random` are parameters. The 50-point scatter sample is any sample
  meeting `Fixtures.ScatterSample`.
- WidgetList.ReorderWidgets: requires both indices to be in range. The dragged index is
  `Number()` of a payload that the source itself only sets from a valid index.
- Persistence to Supabase is not modelled: the `await`ed inserts and updates, the initial
  fetch, and realtime. The id an insert returns is a parameter. `None` means the insert
  returned no row, and then nothing changes.
- The error message stored in `last_error_message` lives only in the database. The row
  `addDataSource` appends carries it under that column name, so the in-memory
  `lastErrorMessage` of a new source is absent (`Workspaces.Store.AddDataSource` stores
  `None`), and no other operation writes it.
- Timers are not modelled: the 2-second refresh delay and the 30-second heartbeat
  interval. `Workspaces.Store.Heartbeat` returns the ids the heartbeat
  triggers, and one refresh is `BeginRefresh` followed by `CompleteRefresh`. Whether the
  delay fails is the `succeeded` parameter; in the source that failure branch is
  practically unreachable.
- Workspaces.Store.Heartbeat: the stale closure is not modelled. The interval effect has
  no dependencies, so it keeps the first render's `triggerDataSourceRefresh`, whose
  `dataSources` is the initial empty list; in the source every automatic call therefore
  finds no source and refreshes nothing. The model states which ids the heartbeat hands
  to the refresh, and models a refresh against the current list.
- Workspaces.Store.DeleteWorkspace: the source also logs the deletion, and the model
  follows the source.
- Rendering is not modelled: JSX, Recharts, the modal, the SQL highlighting regexes, the
  suggestion popup's markup (`<br />` for an empty editor), the embed code and the
  XLS/print exports.
- The date-preset helper (`handleDatePresetChange`) is not modelled.
- The Gemini service, authentication and the query builder are not part of this model.
- Shell: the layout's calls into the store become returned `Request` values. Their
  effect is that of the corresponding `Workspaces.Store` method.
- Shell.Layout.OpenSchedule: a source's schedule is always present in the model, so the
  `|| { type: 'MANUAL' }` fallback has no case.
- SqlEditor.Editor.KeyDown: requires the selection to lie within the text, which the
  browser ensures. The text area's own default actions are not part of the handler, so
  Enter without the popup leaves the text as it was. The browser's new line arrives
  through `Change`.
- SqlEditor: the editor's text is the `value` property, which the parent updates through
  `onChange`; the model stores it in the editor. `SqlEditor.Editor.KeyDown` returns the
  caret position that the `setTimeout` callback restores.

## Findings

| source | as written | input that shows it | evidently intended | confidence | as-written member | corrected member |
|---|---|---|---|---|---|---|
| components/dashboard/DashboardGrid.tsx:120-121 | `groups[key]` reads inherited `Object.prototype` members, so `!groups[key]` is false for such a key and `.push` is called on a function, throwing a TypeError | a row whose x field is `"constructor"`; the only caller (components/dashboard/DashboardGrid.tsx:234) passes the fixture rows of constants.ts:57-72, whose x values (month names, numbers, Active/Inactive, categories, dates, Express/Standard) never name an `Object.prototype` member, so the app as shipped does not reach the failure | group every key, inherited names included, as for any other key | not executed | Aggregation.AggregateAsWrittenMeaning, Aggregation.InheritedKeyThrows | Aggregation.AggregateRows |
