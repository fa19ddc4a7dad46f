# yti-comments-api core, modelled in Dafny

yti-comments-api is the back end of a commenting tool. Users open *comment rounds* on
resources (code lists, terminologies, data models). A round has *comment threads*, one per
commented resource, and a thread has *comments* that may answer one another. This project
models the parts of the service that compute something:

- **The Excel export of a round** (`ExportServiceImpl`). A workbook has three sheets: the
  round, its threads, and their comments. Comments are laid out depth first: each reply is
  written one level deeper, under a header with one column per reply level.
- **The result tally of a thread** (`ResultServiceImpl`). The end statuses of a thread's
  top-level comments are counted, each with its share, and rendered as text.
- **Status localisation** (`StatusUtils`).
- **Identifier filters of the integration API** (`IntegrationResource`). Comma-separated or
  listed UUIDs are parsed; one malformed id rejects the request with 406.
- **URL and URI builders** (`ApiUtils`, `UrlGenerator`) and the configuration they read
  (`UriProperties`, `CommentsApiProperties`).
- **The code list proxy** (`CodelistProxyResource`). It guards its two handlers, builds the
  query parameter map, and builds the container and resource request URLs.

How each part is modelled:

- Java `null` is `Option`. `Result` carries an exception: a `YtiCommentsException` with its
  `ErrorModel`, or `UnauthorizedException`.
- A workbook sheet is a map from row index to a row, and a row is a map from column to cell
  text. `createRow` replaces the whole row.
- Everything the code calls out to is a parameter or a field: message source, user
  directory, organisation labels, DAOs, date and number formatting, and `UUID.fromString`.
- Where the code iterates a `HashMap` or `HashSet`, the iteration order is returned as an
  out-parameter with "each element exactly once". Nothing else is assumed about it.
- Mutable beans are classes with `modifies` clauses: `UriProperties`,
  `CommentsApiProperties`, and the `exportLanguage` field of `ExportServiceImpl`.

Module layout:

| file | module | source |
|---|---|---|
| wrappers.dfy, seqs.dfy, strings.dfy, sorting.dfy, sheets.dfy | Wrappers, Seqs, Strings, Sorting, Sheets | Java library semantics the core relies on (Integer.toString, String.trim, String.split, a stable sort, POI rows) |
| domain.dfy | Domain | the entities and collaborators |
| comment_tree.dfy | CommentTree, CommentTreeLevels | mapMainLevelComments, getChildCommentMaxLevel, getCommentsMaxLevels |
| comment_rows.dfy | CommentRows | the comments-sheet layout (header and addCommentRows) |
| export_helpers.dfy | ExportHelpers | the cell-value helpers of ExportServiceImpl |
| export_service.dfy | ExportService | the three sheets and exportCommentRoundToExcel |
| status_utils.dfy | StatusUtils | StatusUtils |
| result_service.dfy | ResultService | ResultServiceImpl |
| integration_resource.dfy | IntegrationResource | the id parsing of IntegrationResource |
| configuration.dfy | Configuration | UriProperties, CommentsApiProperties |
| api_utils.dfy | ApiUtils | ApiUtils |
| url_generator.dfy | UrlGenerator | UrlGenerator |
| codelist_proxy.dfy | CodelistProxyResource | CodelistProxyResource |

## Model

| member | source | states |
|---|---|---|
| ExportService.ExportServiceImpl.ExportCommentRoundToExcel | src/main/java/fi/vm/yti/comments/api/export/impl/ExportServiceImpl.java:72-80 | The language is stored in the field. The workbook is the round sheet, the threads sheet and the comments sheet, with the threads in creation order. The result list of each thread is an enumeration of that thread's result set. |
| ExportService.SortedThreads | src/main/java/fi/vm/yti/comments/api/export/impl/ExportServiceImpl.java:76 | The threads reordered (same multiset) into non-decreasing creation time. |
| ExportService.SortedThreadsValid | src/main/java/fi/vm/yti/comments/api/export/impl/ExportServiceImpl.java:76 | Sorting keeps every thread's comments well formed. |
| ExportService.ExportServiceImpl.AddCommentRoundSheet | src/main/java/fi/vm/yti/comments/api/export/impl/ExportServiceImpl.java:82-117 | The sheet is named by message l19. Row 0 holds headers l22..l34 in columns 0..12. Row 1 holds the round's thirteen values, nulls blanked, status and source type localised, dates formatted. |
| ExportService.ExportServiceImpl.RoundHeader | src/main/java/fi/vm/yti/comments/api/export/impl/ExportServiceImpl.java:85-100 | Writing the thirteen header cells one by one gives the header row of the round sheet. |
| ExportService.ExportServiceImpl.AddCommentThreadsSheet | src/main/java/fi/vm/yti/comments/api/export/impl/ExportServiceImpl.java:119-153 | Sheet l20 has the header row. Thread k's row is at row 1 + k, with its result text listing that thread's results in order orders[k]. |
| ExportService.ExportServiceImpl.ThreadsHeader | src/main/java/fi/vm/yti/comments/api/export/impl/ExportServiceImpl.java:122-135 | The eleven header cells of the threads sheet, in the code's key order (l36, l35, l37, ...). |
| ExportService.ExportServiceImpl.ThreadRow | src/main/java/fi/vm/yti/comments/api/export/impl/ExportServiceImpl.java:138-150 | The eleven cells of a thread's row: labels formatted, nulls blanked, statuses localised, main-comment count rendered as a decimal. |
| ExportService.OrdersForAll | src/main/java/fi/vm/yti/comments/api/export/impl/ExportServiceImpl.java:137-151 | There is one result order per thread, and each lists exactly that thread's results, once each. |
| ExportService.ThreadSummaryRowsAt | src/main/java/fi/vm/yti/comments/api/export/impl/ExportServiceImpl.java:137-151 | Row k of the threads sheet is thread k's row. |
| ExportService.ExportServiceImpl.AddCommentsSheet | src/main/java/fi/vm/yti/comments/api/export/impl/ExportServiceImpl.java:155-190 | Sheet l21 has the comments header. Then come the thread blocks in order: the thread's header row, the rows of ThreadRows (its comments depth first), then one blank row. CommentCoverage.ThreadRowsExactlyOnce says which comments those rows hold. |
| ExportService.ExportServiceImpl.AddThreadBlock | src/main/java/fi/vm/yti/comments/api/export/impl/ExportServiceImpl.java:177-188 | A thread's block: label with local name in column 0, resource uri under the last header, then the comment rows. The next thread starts 2 + (number of comment rows) rows lower. |
| ExportService.ExportServiceImpl.CommentsHeader | src/main/java/fi/vm/yti/comments/api/export/impl/ExportServiceImpl.java:158-175 | The header loop writes exactly the comments header row. The last header index is resourceUriHeaderIndex. |
| CommentRows.CommentsHeaderLayout | src/main/java/fi/vm/yti/comments/api/export/impl/ExportServiceImpl.java:161-175 | For maxLevel >= 1 the header has columns 0..6 + maxLevel: l44, l45, l46, then "l47 k" for k = 2..maxLevel at column k + 1, then l48, l33, l34, l49, l38. |
| CommentRows.HeaderPrefixCells | src/main/java/fi/vm/yti/comments/api/export/impl/ExportServiceImpl.java:161-174 | After n header cells, exactly columns 0..n-1 are written, each with its header. |
| ExportService.ExportServiceImpl.AddCommentRows | src/main/java/fi/vm/yti/comments/api/export/impl/ExportServiceImpl.java:256-285 | Returns rowIndex plus the length of Rows: one row for each listed comment and, one level deeper, for each of its replies, depth first. The sheet gets exactly those rows from rowIndex on. The recursion terminates on a tree with distinct ids. For a thread, CommentCoverage.ThreadRowsCount gives that length as the number of comments reachable from a top-level comment. |
| ExportService.ExportServiceImpl.AddCommentEntry | src/main/java/fi/vm/yti/comments/api/export/impl/ExportServiceImpl.java:263-282 | One comment: its row at rowIndex, then the rows of its replies one level deeper. |
| ExportService.ExportServiceImpl.CommentRow | src/main/java/fi/vm/yti/comments/api/export/impl/ExportServiceImpl.java:264-278 | The cells of one comment's row as the writes leave them. |
| CommentRows.CommentRowLayout | src/main/java/fi/vm/yti/comments/api/export/impl/ExportServiceImpl.java:264-278 | For 1 <= level <= maxLevel no write overwrites another. Author at column 1, content at 1 + level, proposed status at 2 + maxLevel only on level 1, then created, modified, uri and resource uri at 3..6 + maxLevel. |
| CommentRows.ColumnsAlign | src/main/java/fi/vm/yti/comments/api/export/impl/ExportServiceImpl.java:161-278 | Every cell of a comment row has a header above it. The content cell of level k sits under the header of level k. |
| CommentRows.RowsStep | src/main/java/fi/vm/yti/comments/api/export/impl/ExportServiceImpl.java:263-283 | The rows of a list of comments are the first comment, its replies one level deeper, then the rows of the rest. |
| CommentRows.WriteEntriesRows | src/main/java/fi/vm/yti/comments/api/export/impl/ExportServiceImpl.java:263-284 | Written rows land at r, r + 1, ... in order. Every row outside that range keeps its cells. |
| CommentRows.RowsLevelBound | src/main/java/fi/vm/yti/comments/api/export/impl/ExportServiceImpl.java:227-285 | No row written below a list of comments is deeper than the maximum level computed for that list. |
| CommentRows.ThreadRowsWithinMaxLevel | src/main/java/fi/vm/yti/comments/api/export/impl/ExportServiceImpl.java:164-185 | Every comment row of every thread has level <= getCommentsMaxLevels, so it fits the header's level columns. |
| CommentRows.ThreadBlockLayout | src/main/java/fi/vm/yti/comments/api/export/impl/ExportServiceImpl.java:176-188 | Thread k's block starts below the blocks before it: header row, the thread's comment rows (ThreadRows), then a blank row left untouched. |
| CommentTree.MapMainLevelComments | src/main/java/fi/vm/yti/comments/api/export/impl/ExportServiceImpl.java:192-210 | Returns the top-level comments and the parent-to-children map of the comments sorted by creation time. |
| CommentTree.PartitionByParent | src/main/java/fi/vm/yti/comments/api/export/impl/ExportServiceImpl.java:196-208 | The forEach that sends each comment to the top-level list or to the end of its parent's child list. |
| CommentTree.SortByCreated | src/main/java/fi/vm/yti/comments/api/export/impl/ExportServiceImpl.java:195 | A permutation of the comments in non-decreasing creation time. |
| CommentTree.MainLevelExactlyOnce | src/main/java/fi/vm/yti/comments/api/export/impl/ExportServiceImpl.java:192-210 | Each comment occurs in the top-level list as often as in the thread if it has no parent, otherwise never. It occurs in the child list of p as often as in the thread if p is its parent, otherwise never. Nothing is dropped or duplicated. |
| CommentTree.MainLevelFromThread | src/main/java/fi/vm/yti/comments/api/export/impl/ExportServiceImpl.java:192-210 | Every listed comment comes from the thread, and each child list is keyed by its members' parent id. |
| CommentTree.MainLevelOrdered | src/main/java/fi/vm/yti/comments/api/export/impl/ExportServiceImpl.java:195-206 | The top-level list and every child list are in non-decreasing creation time. |
| CommentTree.ChildMapWellFormed | src/main/java/fi/vm/yti/comments/api/export/impl/ExportServiceImpl.java:192-210 | With distinct ids, no id has two parents and every top-level id can start a chain, so the tree walks terminate. |
| CommentTree.ChainExtend | src/main/java/fi/vm/yti/comments/api/export/impl/ExportServiceImpl.java:279-281 | A chain from a root extended by a child of its last id is again a chain, and the child was not visited before. |
| CommentTree.GetChildCommentMaxLevel | src/main/java/fi/vm/yti/comments/api/export/impl/ExportServiceImpl.java:227-242 | The result is the subtree level: `level` when there are no children, else the maximum over the children at level + 1. It is at least `level`. |
| CommentTree.MainLevelMaxLevel | src/main/java/fi/vm/yti/comments/api/export/impl/ExportServiceImpl.java:217-222 | The inner loop folds the subtree level of every top-level comment into the running maximum. |
| CommentTree.GetCommentsMaxLevels | src/main/java/fi/vm/yti/comments/api/export/impl/ExportServiceImpl.java:212-225 | The running maximum over every thread's top-level comments, starting at 0. CommentTreeLevels.ThreadsMaxLevelAttained and ThreadsMaxLevelOne say what that maximum is. |
| CommentTreeLevels.SubtreeAttained | src/main/java/fi/vm/yti/comments/api/export/impl/ExportServiceImpl.java:226-241 | Without children the level is `level`. With children it is the maximum of the children's levels at level + 1. |
| CommentTreeLevels.SubtreeCoversChild | src/main/java/fi/vm/yti/comments/api/export/impl/ExportServiceImpl.java:233-238 | A comment's level is at least the level of each reply, taken one deeper. |
| CommentTreeLevels.MaxOverBound | src/main/java/fi/vm/yti/comments/api/export/impl/ExportServiceImpl.java:234-239 | The loop's result is at least the subtree level of every comment it visits. |
| CommentTreeLevels.MaxOverAttained | src/main/java/fi/vm/yti/comments/api/export/impl/ExportServiceImpl.java:234-239 | The loop's result is its start value or the subtree level of one visited comment. |
| CommentTreeLevels.MaxOverMono | src/main/java/fi/vm/yti/comments/api/export/impl/ExportServiceImpl.java:217-222 | A larger start value never gives a smaller maximum. |
| CommentTreeLevels.ThreadsMaxLevelCoversRoot | src/main/java/fi/vm/yti/comments/api/export/impl/ExportServiceImpl.java:212-225 | getCommentsMaxLevels is at least the subtree level of every top-level comment of every thread. |
| CommentTreeLevels.ThreadsMaxLevelZero | src/main/java/fi/vm/yti/comments/api/export/impl/ExportServiceImpl.java:212-225 | The result is 0 exactly when no thread has a top-level comment. |
| ExportHelpers.CheckEmptyValue | src/main/java/fi/vm/yti/comments/api/export/impl/ExportServiceImpl.java:313-318 | null gives "", and any other value is kept. |
| ExportHelpers.CheckEmptyValueBlank | src/main/java/fi/vm/yti/comments/api/export/impl/ExportServiceImpl.java:313-318 | The cell is blank exactly when the value is null or empty. |
| ExportHelpers.DateCell | src/main/java/fi/vm/yti/comments/api/export/impl/ExportServiceImpl.java:335-354 | Both date helpers: null gives "", any other value the text of the formatter passed in (a date's, or a date-time's). |
| ExportHelpers.GetUserName | src/main/java/fi/vm/yti/comments/api/export/impl/ExportServiceImpl.java:244-254 | "first last" when the user exists and both names are non-empty, otherwise message l18. |
| ExportHelpers.UserNameHasSpace | src/main/java/fi/vm/yti/comments/api/export/impl/ExportServiceImpl.java:249-251 | A name that is not the placeholder contains the separating space. |
| ExportHelpers.GetOrganizationsOfCommentRound | src/main/java/fi/vm/yti/comments/api/export/impl/ExportServiceImpl.java:356-375 | The StringBuffer loop with its `first` flag gives "-" for null or no organisations, otherwise the labels joined by ", ". |
| ExportHelpers.OrganizationsTextShape | src/main/java/fi/vm/yti/comments/api/export/impl/ExportServiceImpl.java:359-370 | One organisation gives its label alone. More give the first label, ", ", then the rest joined. |
| ExportHelpers.OrganizationLabels | src/main/java/fi/vm/yti/comments/api/export/impl/ExportServiceImpl.java:361-369 | One label per organisation, in order, each in the export language. |
| ExportHelpers.LocalizeSourceLabel | src/main/java/fi/vm/yti/comments/api/export/impl/ExportServiceImpl.java:377-389 | The label in the export language when non-empty. Else the first non-empty entry as "value(key)". Else the plain lookup (null or ""). |
| ExportHelpers.Lookup | src/main/java/fi/vm/yti/comments/api/export/impl/ExportServiceImpl.java:378 | Map.get: some value exactly when the key is present, and then that key's value. |
| ExportHelpers.FirstNonEmpty | src/main/java/fi/vm/yti/comments/api/export/impl/ExportServiceImpl.java:380-386 | The index of the first entry with a non-empty value, or none when all are empty. |
| ExportHelpers.SourceLabelPrefersLanguage | src/main/java/fi/vm/yti/comments/api/export/impl/ExportServiceImpl.java:378-388 | A non-empty label in the export language wins. |
| ExportHelpers.SourceLabelNull | src/main/java/fi/vm/yti/comments/api/export/impl/ExportServiceImpl.java:377-389 | The result is null exactly when the export language has no entry and no entry is non-empty. |
| ExportHelpers.FormatResourceLabel | src/main/java/fi/vm/yti/comments/api/export/impl/ExportServiceImpl.java:437-449 | The loop gives the entries as "KEY: value" joined by newlines, then "\nlocalName: " + name when a local name is given. |
| ExportHelpers.LabelLines | src/main/java/fi/vm/yti/comments/api/export/impl/ExportServiceImpl.java:443 | One line per entry, each the upper-cased key, ": " and the value. |
| ExportHelpers.ResourceLabelShape | src/main/java/fi/vm/yti/comments/api/export/impl/ExportServiceImpl.java:437-449 | One entry and no local name gives just that entry's line. A local name always ends the text. No entries and no local name give "". |
| ExportHelpers.LocalizeSourceType | src/main/java/fi/vm/yti/comments/api/export/impl/ExportServiceImpl.java:391-415 | The six container types map to messages l1..l6, and any other type is returned unchanged. |
| ExportHelpers.LocalizeRoundStatus | src/main/java/fi/vm/yti/comments/api/export/impl/ExportServiceImpl.java:417-435 | The four round statuses map to messages l7..l10, and any other status is returned unchanged. |
| ExportHelpers.SwitchKeysInjective | src/main/java/fi/vm/yti/comments/api/export/impl/ExportServiceImpl.java:391-435 | Each switch sends distinct cases to distinct keys, and the two switches' keys never overlap. |
| StatusUtils.LocalizeResourceStatusToDefaultLanguage | src/main/java/fi/vm/yti/comments/api/utils/StatusUtils.java:11-42 | null exactly when the status is null. Known statuses give their message, others pass through. |
| StatusUtils.StatusMessageKeyTable | src/main/java/fi/vm/yti/comments/api/utils/StatusUtils.java:13-38 | A status has a key exactly when it is one of the seven listed, and then it has the listed key (l11..l17). |
| StatusUtils.KnownStatusLocalized | src/main/java/fi/vm/yti/comments/api/utils/StatusUtils.java:14-34 | A listed status is read from the message source under its own key. |
| StatusUtils.UnknownStatusUnchanged | src/main/java/fi/vm/yti/comments/api/utils/StatusUtils.java:35-37 | Any unlisted non-null status comes back unchanged. |
| StatusUtils.StatusMessageKeyInjective | src/main/java/fi/vm/yti/comments/api/utils/StatusUtils.java:13-38 | Distinct listed statuses have distinct keys. |
| ResultService.CountEndStatuses | src/main/java/fi/vm/yti/comments/api/service/impl/ResultServiceImpl.java:52-61 | A status is a key exactly when some counted comment carries it, and its value is how many do. The values add up to the number of counted comments. |
| ResultService.StatusCountPositive | src/main/java/fi/vm/yti/comments/api/service/impl/ResultServiceImpl.java:53-59 | A status has a positive count exactly when some comment with a non-empty end status other than NOSTATUS (any case) carries it. |
| ResultService.StatusCountBounded | src/main/java/fi/vm/yti/comments/api/service/impl/ResultServiceImpl.java:52-63 | No status count exceeds the number of counted comments. |
| ResultService.SumCounts | src/main/java/fi/vm/yti/comments/api/service/impl/ResultServiceImpl.java:63 | totalCount is the sum of the map's values, whatever the iteration order. |
| ResultService.MapSumRemove | src/main/java/fi/vm/yti/comments/api/service/impl/ResultServiceImpl.java:63 | The sum does not depend on which entry is taken first. |
| ResultService.BuildResults | src/main/java/fi/vm/yti/comments/api/service/impl/ResultServiceImpl.java:64-72 | One result per map entry, with the entry's status and count and percentage count * 100 / total. The total is non-zero whenever the map is not empty. |
| ResultService.PercentageRange | src/main/java/fi/vm/yti/comments/api/service/impl/ResultServiceImpl.java:69 | For 1 <= count <= total the percentage lies in (0, 100]. |
| ResultService.GetResultsForCommentThread | src/main/java/fi/vm/yti/comments/api/service/impl/ResultServiceImpl.java:46-74 | The results are those of the thread's top-level comments, and empty for an unknown thread. |
| ResultService.ResultsEmpty | src/main/java/fi/vm/yti/comments/api/service/impl/ResultServiceImpl.java:48-63 | No results exactly when the thread is unknown or none of its top-level comments is counted. |
| ResultService.ResultsOnePerStatus | src/main/java/fi/vm/yti/comments/api/service/impl/ResultServiceImpl.java:64-72 | Two results with the same status are the same result. |
| ResultService.ResultsBounds | src/main/java/fi/vm/yti/comments/api/service/impl/ResultServiceImpl.java:65-70 | Each result's count is its status's count, between 1 and the counted total, and its percentage lies in (0, 100]. |
| ResultService.ResultsCoverStatuses | src/main/java/fi/vm/yti/comments/api/service/impl/ResultServiceImpl.java:52-72 | Every counted status has a result. |
| ResultService.GetResultsForCommentThreadAsTextInDefaultLanguage | src/main/java/fi/vm/yti/comments/api/service/impl/ResultServiceImpl.java:76-89 | The text is one "status: count (percentage %)" line per result, in the returned order. The order lists each result exactly once. The text is empty exactly when there are no results. |
| ResultService.ResultLine | src/main/java/fi/vm/yti/comments/api/service/impl/ResultServiceImpl.java:81-86 | Every line is non-empty and ends with a newline. |
| IntegrationResource.ParseUuidFromString | src/main/java/fi/vm/yti/comments/api/resource/IntegrationResource.java:178-184 | Succeeds exactly when the string is a UUID, with that UUID. Otherwise fails with 406 and "String not mappable to UUID: " + the string. |
| IntegrationResource.ParseListOk | src/main/java/fi/vm/yti/comments/api/resource/IntegrationResource.java:186-204 | The parse succeeds exactly when every id is well formed, and then yields the set of all of them. |
| IntegrationResource.ParseListFirstError | src/main/java/fi/vm/yti/comments/api/resource/IntegrationResource.java:189-200 | A failed parse reports the first malformed id. Every id before it is well formed. |
| IntegrationResource.ParseEach | src/main/java/fi/vm/yti/comments/api/resource/IntegrationResource.java:188-201 | The loop's result is the list parse: stop at the first malformed id, else the set of ids. |
| IntegrationResource.ParseUuidsFromList | src/main/java/fi/vm/yti/comments/api/resource/IntegrationResource.java:186-193 | null stays null. A list gives the parse of its elements, untrimmed. |
| IntegrationResource.ParseUuids | src/main/java/fi/vm/yti/comments/api/resource/IntegrationResource.java:195-204 | null stays null. A string gives the parse of its split(",") pieces, each trimmed. |
| IntegrationResource.TrimmedPiecesAt | src/main/java/fi/vm/yti/comments/api/resource/IntegrationResource.java:198-199 | There is one trimmed piece per split piece. Piece k is the trim of split piece k. |
| IntegrationResource.GetContainersFilter | src/main/java/fi/vm/yti/comments/api/resource/IntegrationResource.java:72-77 | Without `uri` the filter is null, otherwise it is parseUuids(uri). |
| IntegrationResource.GetResourcesFilters | src/main/java/fi/vm/yti/comments/api/resource/IntegrationResource.java:123-134 | A malformed container is reported first. Otherwise the container id (null when absent) comes with parseUuids(uri) (null when absent). |
| IntegrationResource.PostContainersFilter | src/main/java/fi/vm/yti/comments/api/resource/IntegrationResource.java:96 | The filter is parseUuidsFromList of the body's list. |
| IntegrationResource.PostResourcesFilters | src/main/java/fi/vm/yti/comments/api/resource/IntegrationResource.java:150-159 | The container is parsed first. Then come the ids of the body's list. |
| Strings.CommaPiecesJoin | src/main/java/fi/vm/yti/comments/api/resource/IntegrationResource.java:198 | Joining the comma pieces with "," gives back the string. |
| Strings.JavaSplitComma | src/main/java/fi/vm/yti/comments/api/resource/IntegrationResource.java:198 | split(","): the whole string when it has no comma. No piece contains a comma. |
| Strings.TrimIsSlice | src/main/java/fi/vm/yti/comments/api/resource/IntegrationResource.java:199 | trim() is a slice s[i..j] with only chars <= U+0020 cut at either end. |
| Strings.TrimIdempotent | src/main/java/fi/vm/yti/comments/api/resource/IntegrationResource.java:199 | Trimming twice is trimming once. |
| Strings.IntToStringInjective | src/main/java/fi/vm/yti/comments/api/api/ApiUtils.java:73-136 | Distinct integers render as distinct decimal strings (Integer.toString). |
| Strings.NatToStringRoundTrip | src/main/java/fi/vm/yti/comments/api/api/ApiUtils.java:73-136 | Reading the decimal digits back gives the number. |
| Strings.IntToString | src/main/java/fi/vm/yti/comments/api/api/ApiUtils.java:73-75 | Integer.toString: never empty; the decimal digits of a non-negative number, otherwise "-" followed by the digits of its magnitude. |
| Strings.ToUpper | src/main/java/fi/vm/yti/comments/api/export/impl/ExportServiceImpl.java:443 | Keeps the length, and maps each char to its upper case (ASCII letters only). |
| Sorting.SortBySorted | src/main/java/fi/vm/yti/comments/api/export/impl/ExportServiceImpl.java:195 | The stream sort by creation time: the result is in non-decreasing key order (and SortBy keeps the multiset). |
| CommentTreeLevels.ThreadsMaxLevelCovers | src/main/java/fi/vm/yti/comments/api/export/impl/ExportServiceImpl.java:212-225 | From any start value, the result is at least the maximum level of each thread's top-level comments. |
| ApiUtils.ApiUtils.ResourceUrlShape | src/main/java/fi/vm/yti/comments/api/api/ApiUtils.java:102-116 | The URL starts with publicUrl + contextPath. A null or empty id gives the stem ending in "/". Any other id ends the URL. Null and "" give the same URL. |
| ApiUtils.ApiUtils.CommentThreadUrlIgnoresThread | src/main/java/fi/vm/yti/comments/api/api/ApiUtils.java:81-84 | As written, the thread URL is the round URL, the threads path, "/" and the round id again. It does not depend on the thread. |
| ApiUtils.ApiUtils.CommentThreadUrlIntendedNests | src/main/java/fi/vm/yti/comments/api/api/ApiUtils.java:81-95 | With the thread id in place, a thread URL is the round URL + threads path + "/" + thread. A comment URL is its thread URL + "/" + comment. Distinct threads get distinct URLs. |
| ApiUtils.ApiUtils.CommentUrlEndsWithComment | src/main/java/fi/vm/yti/comments/api/api/ApiUtils.java:91-95 | A comment URL ends with "/" + the comment id. |
| ApiUtils.ApiUtils.WebUrlsNest | src/main/java/fi/vm/yti/comments/api/api/ApiUtils.java:77-100 | The thread web URL is the round web URL + ";thread=" + t. The comment web URL extends it with ";comment=" + c. The round web URL is a prefix of the comment web URL. |
| ApiUtils.ApiUtils.UrisNest | src/main/java/fi/vm/yti/comments/api/api/ApiUtils.java:122-136 | The thread URI is the round URI + "/thread/" + t. The comment URI is the thread URI + "/comment/" + c. The round URI is a prefix of the comment URI. |
| ApiUtils.ApiUtils.CommentRoundUriInjective | src/main/java/fi/vm/yti/comments/api/api/ApiUtils.java:122-124 | Distinct rounds get distinct URIs. |
| UrlGenerator.UrlGenerator.ResourceUrlShape | src/main/java/fi/vm/yti/comments/api/api/UrlGenerator.java:18-34 | The URL starts with publicUrl + contextPath and with the stem up to apiPath + "/". Without an id it is the stem, ending in "/". With an id, even "", the id is its suffix. |
| UrlGenerator.UrlGenerator.ResourceUrlExtends | src/main/java/fi/vm/yti/comments/api/api/UrlGenerator.java:29-32 | The URL with an id is the URL without one followed by the id. Two ids give the same URL exactly when they are equal. |
| Configuration.UriProperties.SetHost | src/main/java/fi/vm/yti/comments/api/configuration/UriProperties.java:23-29 | The getter returns the value set, and the other two fields are unchanged. |
| Configuration.UriProperties.SetScheme | src/main/java/fi/vm/yti/comments/api/configuration/UriProperties.java:31-37 | The getter returns the value set, and the other two fields are unchanged. |
| Configuration.UriProperties.SetContextPath | src/main/java/fi/vm/yti/comments/api/configuration/UriProperties.java:39-45 | The getter returns the value set, the other two fields are unchanged, and getUriHost is unaffected. |
| Configuration.UriProperties.UriHostAddressExtendsUriHost | src/main/java/fi/vm/yti/comments/api/configuration/UriProperties.java:47-53 | getUriHostAddress == getUriHost + contextPath, so the host is a prefix of the address. Both start with scheme + "://". |
| Configuration.CommentsApiProperties.GetDefaultLanguage | src/main/java/fi/vm/yti/comments/api/configuration/CommentsApiProperties.java:14-16 | "en" when unset, otherwise the stored value. Never null. |
| Configuration.CommentsApiProperties.SetDefaultLanguage | src/main/java/fi/vm/yti/comments/api/configuration/CommentsApiProperties.java:18-20 | The field holds the value set. Setting null brings "en" back. |
| CodelistProxyResource.CodelistProxyResource.GetContainers | src/main/java/fi/vm/yti/comments/api/resource/externalresources/CodelistProxyResource.java:55-62 | An anonymous user is refused with Unauthorized. Anyone else gets the containers URL. |
| CodelistProxyResource.CodelistProxyResource.ContainerApiUrlIsJoin | src/main/java/fi/vm/yti/comments/api/resource/externalresources/CodelistProxyResource.java:109-111 | The containers URL is the code list URL and the five path constants joined with "/". |
| CodelistProxyResource.CodelistProxyResource.RequestUrlsShareIntegrationApi | src/main/java/fi/vm/yti/comments/api/resource/externalresources/CodelistProxyResource.java:109-114 | Both request URLs start with the integration API path + "/". The resources base ends with "/?uri=" + container. |
| CodelistProxyResource.CodelistProxyResource.BuildParamsMap | src/main/java/fi/vm/yti/comments/api/resource/externalresources/CodelistProxyResource.java:84-101 | language and includeMeta ("true"/"false") are always present. pageSize, from and after are present exactly when given. status and searchTerm are present exactly when non-empty. No other key is present. |
| CodelistProxyResource.DescribesQueryUnique | src/main/java/fi/vm/yti/comments/api/resource/externalresources/CodelistProxyResource.java:84-101 | That description determines the map: two maps meeting it for one query are equal. |
| CodelistProxyResource.CodelistProxyResource.CreateCodelistResourcesApiUrl | src/main/java/fi/vm/yti/comments/api/resource/externalresources/CodelistProxyResource.java:113-121 | The URL is the base + "/?uri=" + container, then "&key=value" for each entry. The returned order visits every key exactly once. |
| CodelistProxyResource.ParamsTextAt | src/main/java/fi/vm/yti/comments/api/resource/externalresources/CodelistProxyResource.java:116-118 | Every visited entry contributes "&key=value" at its place, between the pieces of the keys before it and after it. |
| CodelistProxyResource.ParamsTextAppend | src/main/java/fi/vm/yti/comments/api/resource/externalresources/CodelistProxyResource.java:115-119 | The text of a concatenated key order is the concatenation of the texts. |
| CodelistProxyResource.CodelistProxyResource.GetResources | src/main/java/fi/vm/yti/comments/api/resource/externalresources/CodelistProxyResource.java:69-107 | An anonymous user is refused first. A null or empty container then fails with 406 and ERR_MSG_USER_406. Otherwise the URL is built from the described map in the returned order. |
| CommentCoverage.ThreadRowsExactlyOnce | src/main/java/fi/vm/yti/comments/api/export/impl/ExportServiceImpl.java:176-188 | The comment rows of a thread hold no comment twice (their ids are distinct). Each row holds the last comment of a chain of parents that starts at a top-level comment, and the row's level is the length of that chain. Every comment that has such a chain gets a row. |
| CommentCoverage.ThreadRowsCount | src/main/java/fi/vm/yti/comments/api/export/impl/ExportServiceImpl.java:176-188 | A thread has exactly as many comment rows as it has comments reachable from a top-level comment through their parents. When every comment is reachable, that is the number of the thread's comments. |
| CommentCoverage.WrittenReachable | src/main/java/fi/vm/yti/comments/api/export/impl/ExportServiceImpl.java:176-188 | The comments that get rows are exactly the thread's comments reachable from a top-level comment. |
| CommentCoverage.RowsDistinct | src/main/java/fi/vm/yti/comments/api/export/impl/ExportServiceImpl.java:256-285 | Below comments with distinct ids, in a forest whose child lists have distinct ids, the rows hold distinct comments. |
| CommentCoverage.RowsComplete | src/main/java/fi/vm/yti/comments/api/export/impl/ExportServiceImpl.java:256-285 | Every listed comment gets a row, and so does every reply to a comment that gets one. |
| CommentCoverage.RowWalk | src/main/java/fi/vm/yti/comments/api/export/impl/ExportServiceImpl.java:256-285 | Each row holds the end of a walk down the child lists from one of the listed comments, and the row's level is the starting level plus the walk's length less one. |
| CommentTreeLevels.ThreadsMaxLevelAttained | src/main/java/fi/vm/yti/comments/api/export/impl/ExportServiceImpl.java:212-225 | The result is its start value, or the subtree level of some top-level comment of some thread. So it never exceeds every real depth. |
| CommentTreeLevels.ThreadsMaxLevelOne | src/main/java/fi/vm/yti/comments/api/export/impl/ExportServiceImpl.java:212-225 | The result is 1 exactly when some thread has a top-level comment and no top-level comment has a reply. |
| CommentTreeLevels.ThreadsMaxLevelNoReplies | src/main/java/fi/vm/yti/comments/api/export/impl/ExportServiceImpl.java:212-225 | When no comment of any thread has a parent, the result is 1 if some thread has a comment, otherwise 0. |
| CommentTreeLevels.RootWithReplyIsDeep | src/main/java/fi/vm/yti/comments/api/export/impl/ExportServiceImpl.java:226-241 | A top-level comment with a reply has subtree level at least 2. |
| ApiUtils.ApiUtils.CreateResourceUrl | src/main/java/fi/vm/yti/comments/api/api/ApiUtils.java:103-117 | The URL starts with the stem: root, API path and "/". It equals the stem exactly when the id is null or empty. Otherwise the id is what follows the stem. |
| ApiUtils.ApiUtils.CreateCommentRoundUrl | src/main/java/fi/vm/yti/comments/api/api/ApiUtils.java:73-75 | The URL without an id, followed by the round number: the number is never dropped, since it never prints empty. |
| ApiUtils.ApiUtils.CreateCommentRoundWebUrl | src/main/java/fi/vm/yti/comments/api/api/ApiUtils.java:77-79 | The public URL and "/round;round=", followed by the round number and nothing else. |
| ApiUtils.ApiUtils.CreateCommentThreadUrl | src/main/java/fi/vm/yti/comments/api/api/ApiUtils.java:81-84 | The round's REST URL is a prefix of the thread URL. ApiUtils.ApiUtils.CommentThreadUrlIgnoresThread gives the rest. |
| ApiUtils.ApiUtils.CreateCommentThreadWebUrl | src/main/java/fi/vm/yti/comments/api/api/ApiUtils.java:86-89 | The round's web URL is a prefix of the thread's. |
| ApiUtils.ApiUtils.CreateCommentUrl | src/main/java/fi/vm/yti/comments/api/api/ApiUtils.java:91-95 | Starts with the root, the rounds path, "/" and the round number. |
| ApiUtils.ApiUtils.CreateCommentWebUrl | src/main/java/fi/vm/yti/comments/api/api/ApiUtils.java:97-101 | The thread's web URL is a prefix of the comment's. |
| ApiUtils.ApiUtils.CreateCommentRoundUri | src/main/java/fi/vm/yti/comments/api/api/ApiUtils.java:123-125 | The host address, "/round" and "/", followed by the round number and nothing else. |
| ApiUtils.ApiUtils.CreateCommentThreadUri | src/main/java/fi/vm/yti/comments/api/api/ApiUtils.java:127-130 | The round's URI is a prefix of the thread's. |
| ApiUtils.ApiUtils.CreateCommentUri | src/main/java/fi/vm/yti/comments/api/api/ApiUtils.java:132-136 | The thread's URI is a prefix of the comment's. |
| UrlGenerator.UrlGenerator.CreateResourceUrl | src/main/java/fi/vm/yti/comments/api/api/UrlGenerator.java:18-34 | Starts with the stem, which ends in apiPath + "/". Its length is the stem's plus the id's; an empty id adds nothing, and null adds nothing. |
| Configuration.UriProperties.GetUriHost | src/main/java/fi/vm/yti/comments/api/configuration/UriProperties.java:47-49 | The scheme, then "://", then the host, and nothing else. |
| Configuration.UriProperties.GetUriHostAddress | src/main/java/fi/vm/yti/comments/api/configuration/UriProperties.java:51-53 | As long as scheme, "://", host and context path together, and it ends with the context path. |
| CodelistProxyResource.CodelistProxyResource.ContainerApiUrl | src/main/java/fi/vm/yti/comments/api/resource/externalresources/CodelistProxyResource.java:109-111 | Starts with the configured code list URL and "/", and ends with the containers segment. |
| CodelistProxyResource.CodelistProxyResource.ResourcesApiUrl | src/main/java/fi/vm/yti/comments/api/resource/externalresources/CodelistProxyResource.java:113-114 | Starts with the configured code list URL and "/", and ends with the container uri. |
| CommentRows.Rows | src/main/java/fi/vm/yti/comments/api/export/impl/ExportServiceImpl.java:256-285 | Every row is at least as deep as the listed comments, and there is at least one row per listed comment. The CommentCoverage lemmas state which comments get rows. |
| ExportService.CommentRoundSheet | src/main/java/fi/vm/yti/comments/api/export/impl/ExportServiceImpl.java:82-117 | Exactly two rows, header and data. The header has columns 0..12, and every data cell has a header cell above it. |
| ExportService.CommentThreadsSheet | src/main/java/fi/vm/yti/comments/api/export/impl/ExportServiceImpl.java:119-153 | The header at row 0, thread k's row at row 1 + k, and no cell below the last thread. |
| ExportService.CommentsSheet | src/main/java/fi/vm/yti/comments/api/export/impl/ExportServiceImpl.java:155-190 | Row 0 is the comments header sized for the deepest level. No row at or below 1 plus the height of the thread blocks has a cell. |
| ExportService.Workbook | src/main/java/fi/vm/yti/comments/api/export/impl/ExportServiceImpl.java:72-80 | Three sheets, named by messages l19, l20 and l21 in that order. The threads sheet has no cell below row n, where n is the number of threads. |

## Left out

- Apache POI is not modelled: cell styles, fonts, bold header cells, `autoSizeColumns` and its 15000 width cap. A sheet is only its cell texts.
- Date formatting and the UTC to Europe/Ljubljana conversion are functions passed in. null gives "", as the code does.
- `String.format("%.1f")` of the percentage is a function passed in. The percentage itself is the exact rational count * 100 / total, not a 32-bit float.
- The Java `int` and `Integer` values (row indices, counts, sequence ids) are unbounded integers. Overflow at 2^31 is not modelled.
- `String.toUpperCase` in formatResourceLabel and `equalsIgnoreCase("NOSTATUS")` handle ASCII letters only. Other Unicode case mappings are not modelled.
- `UUID.fromString` is a parser passed in (`UuidParser`). Its exact leniency is not fixed here.
- ExportHelpers.LocalizeSourceLabel returns null where the code does, and the round sheet then blanks it. The null-dereference exceptions the code can throw for a null label map, null type or status, or null `Integer` ids are not modelled: those inputs are non-null in the model.
- `exportLanguage` is a field set on entry. Two exports running at once on the shared bean, overwriting each other's language, are not modelled.
- The iteration order of `HashMap`/`HashSet`/`getComments()` sets is not fixed. The model returns the order used and states that it lists each element once. Comments with equal `created` keep their input order; the code's tie order is not specified.
- Jackson parsing of the POST bodies (IntegrationResource.java:168-176) is not modelled: a body is its `IntegrationRequest` record. The "Malformed resources in request body!" error is not modelled either.
- The HTTP fetches of CodelistProxyResource, and the service and DAO calls the integration handlers make with the parsed filters, are not modelled. The model ends at the request URL and at the parsed filters.
- The `Meta` objects, `ResponseWrapper`s and the paging, before, type, pretty and includeIncomplete parameters of the integration handlers are not modelled. They are passed on unexamined.
- The unused `uri` (codeSchemeUri) parameter of CodelistProxyResource.getResources is not modelled.
- JAX-RS defaults (`language` "fi", `from` 0, `includeMeta` false) are applied before the handler runs. The model takes the values after defaulting.
- The plain getters of ApiUtils (`getEnv`, the `get*PublicUrl` getters, `getMessagingEnabled`) are not modelled: they return configuration values unchanged.
- The values of `ApiConstants` and `ErrorConstants` are not part of this model. They are fields of the configuration records.
- The organisation preferred label is a function passed in; Organization is not part of this model. `getCommentThreadMainCommentCount` and `getUserById` are likewise parameters.
- ResultService reads `findByCommentThreadIdAndParentCommentIsNull` from a CommentStore, a map from thread id to the thread's stored comments, as CommentTree.TopLevel of those comments. Nothing in the model ties that store to the threads the export is given, so the result tally and the exported comment rows may come from different comment sets.
- A null `created` on a comment or thread is not modelled: `created` is a plain DateTime there, not an Option. In the code, `Comparator.comparing` then throws a null-pointer exception while sorting (ExportServiceImpl.java lines 76 and 195).
- A null element of a POST uri list is not modelled: the list holds strings. In the code, parsing it throws a null-pointer exception rather than giving the 406 for a malformed uuid (IntegrationResource.java line 189).
- A null value in a label map is not modelled: label values are strings. In the code, the entry prints as "KEY: null" (ExportServiceImpl.java line 443).
- CommentThreadServiceImpl, CommentRoundDao and ExportService are not modelled: they are delegation or interface declarations.
- CodelistProxyResource.CodelistProxyResource.CreateCodelistResourcesApiUrl: states the URL for the returned key order only. The actual order of a `HashMap` is not modelled.

## Findings

| source | as written | input that shows it | evidently intended | confidence | as-written member | corrected member |
|---|---|---|---|---|---|---|
| src/main/java/fi/vm/yti/comments/api/api/ApiUtils.java:81-84 | `createCommentThreadUrl` passes `commentRoundSequenceId` as the resource id, so a thread's REST URL ends with the round's id and ignores the thread | round 1, threads 2 and 3: both URLs are the round-1 threads URL followed by "/1" | the thread's id as the last segment, so that the URL names the thread and is the prefix of its comments' URLs (createCommentUrl, lines 91-95) | not executed | ApiUtils.ApiUtils.CommentThreadUrlIgnoresThread | ApiUtils.ApiUtils.CommentThreadUrlIntendedNests |
