# Task list: client query state and task store, modelled in Dafny

The application is a task list. A browser client (`script.js`, class
`TaskManager`) lists, filters, searches, pages, adds, edits and deletes
tasks. A Flask backend (`backend/app.py`) keeps them in one SQLite table.
Each task has a title, a priority (`baja`, `media` or `alta`) and two
timestamps.

The project models two cores:

- **The client's query state.** These are the `TaskManager` fields that
  drive the list request: `currentFilter`, `currentPage`, `perPage`,
  `searchQuery`, and the pending debounced search. The model also covers:
  - the add form's title field;
  - the URL `loadTasks` builds;
  - the title rule shared by the add form and the edit dialog;
  - the 100-character truncation of the title box;
  - what the list and the pagination bar show for a reply.
- **The backend's task store.** This covers:
  - the ordered validation and the store effect of create, update and delete;
  - the filter, search and order logic of the list endpoint;
  - the statistics.

Files:

| file | contents |
|---|---|
| `wrappers.dfy` | `Option` and `Result` |
| `text.dfy` | trimming as JavaScript's `trim()` and as Python's `str.strip()` define whitespace; ASCII case folding; decimal numerals and Python's `int()`; splitting a string on a separator |
| `frontend.dfy` | the query state as a value, with `Step` (one handler) and `Run` (a sequence of events); the list parameters and URL, and parsing them back; the title rule; the edit dialog; `renderPagination` and `renderTasks` |
| `controller.dfy` | class `TaskManager`, whose fields the handlers update in place. Each handler is a method proved against `Frontend.Step` and `Frontend.ListUrl` |
| `backend.dfy` | the validation functions, the invariant of the table, class `TaskTable` (the table and a clock), the list query and the statistics |
| `wire.dfy` | properties of client and server together. After decoding, the server reads back exactly the page, page size, filter and search text the client's URL asks for. The pager follows the pagination record. The client's and the server's title checks agree, up to one difference in whitespace. A reload after a delete can land past the last page |

How the model represents the source:

- **Rows and timestamps.** The table is a sequence of rows in insertion
  order. `datetime.utcnow()` is the table's clock plus one. Every
  successful create and update advances the clock; a delete sets no
  timestamp and leaves it. So insertion order is also `created_at` order.
- **Failed requests.** A request that fails before its commit leaves the
  table unchanged. That is how the model represents the handlers'
  `db.session` rollback.
- **Library behaviour.** Two things are assumed and stated, not verified
  repository behaviour:
  - the new row's id is SQLite's (`NextId`);
  - the page computation is Flask-SQLAlchemy's `paginate` (`Paginate`).

## Model

| member | source | states |
|---|---|---|
| Controller.TaskManager.constructor | script.js:13-21 | the initial query state: filter 'all', page 1, 6 per page, empty search, no pending search |
| Controller.TaskManager.LoadTasks | script.js:94-102 | the URL built by the successive `url +=` steps equals `ListUrl` of the current query state |
| Controller.TaskManager.OnTitleInput | script.js:38-46 | the title box holds at most 100 characters: an overlong value becomes its first 100 characters; the counter shows the new length |
| Controller.TaskManager.OnFilterClick | script.js:50-56 | the filter becomes the button's priority, or 'all' when it has none; the page is reset to 1; exactly one list request is made, for the new state |
| Controller.TaskManager.OnSearchInput | script.js:60-62 | a keystroke replaces any pending search with the box's value and sends nothing |
| Controller.TaskManager.OnSearchTimer | script.js:62-66 | when a search is pending, the search text becomes its trimmed value, the page becomes 1, nothing stays pending and one request is made; with nothing pending, nothing changes |
| Controller.TaskManager.OnPrev | script.js:70-75 | at page 1 nothing changes and nothing is loaded; above it the page goes down by exactly one and the list reloads |
| Controller.TaskManager.OnNext | script.js:77-80 | the page goes up by one with no upper bound, and the list reloads |
| Controller.TaskManager.AddTask | script.js:136-189 | a title the rule refuses sends nothing, changes nothing and shows the rule's message; otherwise the trimmed title and the selected priority are posted; only a success resets the form and goes back to page 1 with one reload; a failure shows the server's error or the fallback message and keeps the form |
| Controller.TaskManager.ResetAfterAdd | script.js:178-184 | after a successful add: an empty title box, 'baja' selected, page 1, and a reload of the new state |
| Controller.TaskManager.EditTask | script.js:228-289 | a cancelled dialog sends nothing; otherwise the PUT carries the first confirmed fields, with the title trimmed; a reload happens only after a success, at the current page |
| Controller.TaskManager.DeleteTask | script.js:191-225 | nothing happens without confirmation; after a DELETE, only a success reloads; a failure shows the fixed message |
| Frontend.FilterOf | script.js:52 | `dataset.priority \|\| 'all'`: never empty; 'all' exactly when the button has no priority, an empty one or 'all'; any other filter is the button's own value |
| Frontend.Step | script.js:50-80 | the handlers as one transition on the query state: the page size never changes, the page never drops below 1, and an event that loads nothing leaves filter, page and search as they were |
| Frontend.Run | script.js:50-80 | a run of events keeps the page size in its end state and in every request it issues, and issues at most one request per event |
| Frontend.RunKeepsPagePositive | script.js:70-75 | in every run of events the page stays at least 1, in every state reached and in every request issued |
| Frontend.KeystrokesIssueNothing | script.js:60-62 | any burst of keystrokes issues no request and leaves only the last value pending |
| Frontend.DebouncedSearch | script.js:60-67 | a burst of keystrokes followed by the timer issues exactly one request, for page 1 and the trimmed last value |
| Frontend.RunAppend | script.js:50-80 | running two event sequences one after the other issues the first run's requests followed by the second's |
| Frontend.ListParams | script.js:94-102 | the list query always carries `page` and `per_page`; `priority` is present iff the filter is not 'all'; `search` is present iff the search text is not empty, percent-encoded; no other parameter appears |
| Frontend.ListUrlSpelledOut | script.js:94-102 | the three conditional appends of `loadTasks` spell out exactly `ListUrl` |
| Frontend.EncodeComponent | script.js:101 | `encodeURIComponent`'s output holds only unreserved characters and `%XX` escapes, so never '&'; a string of unreserved characters is left as it is; the escapes are those of the UTF-8 bytes (Utf8RoundTrip) and decode back (ComponentRoundTrip) |
| Frontend.Utf8RoundTrip | script.js:101 | the bytes `encodeURIComponent` escapes are the UTF-8 encoding of the character: the first byte announces their number, and a UTF-8 decoder that refuses overlong forms and surrogates reads them back as that character |
| Frontend.ComponentRoundTrip | backend/app.py:53-54 | for every string, the server's decoding of `request.args` (`unquote_plus`) turns the client's encoded search back into that string |
| Frontend.DecodePlain | backend/app.py:53-56 | a name or value without '%' and '+' is not changed by the server's decoding |
| Frontend.QueryRoundTrip | backend/app.py:53-56 | splitting a rendered query string on '&' and each piece at its first '=' gives the parameters back, when no name holds '&' or '=' and no value holds '&' |
| Frontend.ListUrl | script.js:94-102 | the URL `loadTasks` fetches: the base, `/tasks?` and the rendered list parameters; ListUrlSpelledOut ties it to the source's appends and ListQueryReadsBack reads it back |
| Frontend.ListQueryReadsBack | script.js:94-102 | the client's list query string parses back to exactly its parameters, whatever the search text, as long as the filter holds no '&' |
| Frontend.CheckTitle | script.js:145-157 | a title is accepted iff its trimmed length is at least 3; an all-whitespace title is refused as required; a trimmed length of 1 or 2 is refused as too short; the edit dialog applies the same rule (script.js:252-262) |
| Frontend.TitleMessage | script.js:149-156 | the message the client shows for a refused title: 'El título es obligatorio' for a blank one, 'El título debe tener al menos 3 caracteres' for a short one; ClientMessagesMatchServer shows they are the server's texts |
| Frontend.TruncateTitleInput | script.js:42-45 | the result has at most 100 characters and is a prefix of the input; an overlong input is cut to exactly 100 |
| Frontend.TruncateIdempotent | script.js:42-45 | truncating an already truncated value changes nothing |
| Frontend.DialogResult | script.js:248-266 | the dialog closes with fields only when some confirm attempt passes the title rule; they are the first such attempt's fields, its title trimmed and its priority kept, and the title passes the rule unchanged |
| Frontend.FirstWhere | script.js:248-264 | the first attempt preConfirm accepts: no earlier attempt passes, and there is none exactly when no attempt passes |
| Frontend.RenderPagination | script.js:351-361 | the bar is hidden iff `total_pages <= 1`; when shown, it shows the record's page numbers, and prev is disabled exactly when `!has_prev`, next exactly when `!has_next` |
| Frontend.RenderTasks | script.js:296-315 | the empty state is shown iff there are no tasks; otherwise one row per task in the order received, with its id and title, a red marker iff 'alta' and a yellow marker iff 'media' |
| Frontend.ErrorText | script.js:171 | `responseData.error \|\| fallback`: the server's error text whenever it is present and not empty, and the fallback exactly otherwise |
| Frontend.FailureMessage | script.js:170-187 | the message of a failed add or edit: the server's error text when it sent a non-empty one, the fallback when it sent none or an empty one, and the thrown error's message when the fetch or the JSON read failed |
| Frontend.PageWithin | script.js:220 | the corrected page for a reload: the requested page when it exists, otherwise the last page; never below 1 |
| Text.Trim | script.js:145 | the trimmed string is the slice of the input between a whitespace prefix and a whitespace suffix, and has no whitespace at either end; it is empty iff the input is all whitespace |
| Text.TrimOfTrimmed | backend/app.py:110 | a string with no whitespace at either end is not changed by trimming |
| Text.TrimIdempotent | backend/app.py:158 | stripping an already stripped title gives the same title |
| Text.StripAfterTrim | backend/app.py:110 | Python's strip leaves a JavaScript-trimmed title as it is, unless one of its ends is a character only Python counts as whitespace |
| Text.Fold | backend/app.py:125 | ASCII case folding keeps the length and folds each character on its own |
| Text.IntText | script.js:94 | a number's text is all digits iff the number is not negative |
| Text.ParseInt | backend/app.py:55-56 | `int()` succeeds iff the stripped text, after an optional sign, is a non-empty run of ASCII digits |
| Text.DecimalValue | backend/app.py:55-56 | the digits of a decimal numeral read back as the number |
| Text.IntTextRoundTrip | backend/app.py:55-56 | Python's `int()` reads back every integer the client writes into the URL |
| Text.SplitJoin | backend/app.py:53-56 | splitting a join on its separator gives the parts back, when no part holds the separator |
| Backend.TitleProblem | backend/app.py:113-118 | no problem iff the stripped length is 3..100; otherwise exactly one message, and which one is determined by the length |
| Backend.CheckCreate | backend/app.py:107-127 | the checks in the handler's order, with each answer in both directions: 400 required (no body, no title, or an all-whitespace title); 500 for a title that is not a string; 400 too short; 400 too long; 400 invalid priority, with 'baja' when absent; 409 when a stored title is equal up to case; otherwise the stripped title and the priority |
| Backend.CheckNewTitle | backend/app.py:157-178 | an absent title is kept; a given one is stripped and checked like create's, with the task itself left out of the duplicate search |
| Backend.CreatePriority | backend/app.py:111 | `data.get('priority', 'baja')`: the body's priority value, 'baja' when the key is absent |
| Backend.CheckNewPriority | backend/app.py:181-185 | an absent priority is kept; a given one must be one of the three, otherwise 400 |
| Backend.CheckUpdate | backend/app.py:150-185 | with the corrected lookup (see Findings), an unknown id gives 404; then an empty body gives 400; the update is accepted iff both field checks pass; a title error is returned as is; an absent or valid title with an invalid priority gives 400 'Prioridad inválida'; every error is 400, 404, 409 or 500 |
| Backend.CheckUpdateAsWritten | backend/app.py:149-197 | update as written: an unknown id ends in the 500 'Error interno del servidor' of `except Exception`; for a known id every answer is CheckUpdate's |
| Backend.Lookup | backend/app.py:252-254 | an unknown id is answered 404 'Recurso no encontrado'; a known one gives the position of the row with that id |
| Backend.LookupAsWritten | backend/app.py:150 | get_or_404 inside the handler's `try`: an unknown id goes to `except Exception` and becomes 500; a known id behaves as Lookup |
| Backend.UnknownIdAnswered500 | backend/app.py:194-197 | for every unknown id and every body, update as written answers 500 'Error interno del servidor' where the corrected checks answer 404 'Recurso no encontrado' |
| Backend.TitleTaken | backend/app.py:170-173 | the duplicate query: some stored row, other than the task itself on update, has a title equal up to ASCII case |
| Backend.IndexOf | backend/app.py:150 | the position of the row with the id, found exactly when some row has it |
| Backend.IdsDistinct | backend/app.py:26 | ids increase along the table, so two different rows have different ids |
| Backend.Patched | backend/app.py:178-188 | the task after an update: id and created_at kept, the title and priority the body gives, the others kept, updated_at set to the new stamp |
| Backend.OwnTitleIsNotTaken | backend/app.py:170-174 | a task's own title, in any letter case, is never a duplicate of itself |
| Backend.ResaveOwnTitleSucceeds | backend/app.py:170-178 | re-saving a task's own title, also with its letter case changed, together with a valid or absent priority, passes every update check |
| Backend.NextId | backend/app.py:26 | the new id is at least 1 and greater than every id in use |
| Backend.DraftStorable | backend/app.py:107-127 | what create accepts can be stored: a valid priority, a stripped title of 3..100 characters that no row has up to case |
| Backend.PatchStorable | backend/app.py:157-185 | what update accepts can be stored: the row exists, and a new title is stripped, within bounds and not another task's |
| Backend.InsertKeepsConsistent | backend/app.py:130-136 | inserting an accepted task keeps the invariant: valid rows, insertion order, unique titles up to case, no stamp ahead of the clock |
| Backend.PatchKeepsConsistent | backend/app.py:178-189 | applying an accepted patch keeps the invariant |
| Backend.RemoveKeepsConsistent | backend/app.py:203-206 | removing a row keeps the invariant |
| Backend.RemoveOnlyThatId | backend/app.py:203-208 | removing the row found for an id removes exactly the rows with that id and keeps every other row |
| Backend.TaskTable.constructor | backend/app.py:44-45 | a new table is empty and satisfies the invariant |
| Backend.TaskTable.Create | backend/app.py:100-144 | every refused create leaves table and clock unchanged and answers its error; an accepted one appends exactly one task, with the next id, the stripped title, the priority and a fresh stamp, and answers 201 with it |
| Backend.TaskTable.Insert | backend/app.py:130-139 | the insert appends exactly the new task and advances the clock, keeping the invariant |
| Backend.TaskTable.Update | backend/app.py:146-197 | every refused update leaves the table unchanged and answers its error; an accepted one replaces only that row, keeps the fields the body leaves out, its id and created_at, sets updated_at, and answers 200 |
| Backend.TaskTable.ApplyPatch | backend/app.py:178-192 | the field by field assignments: only the patched row changes, and the invariant holds again |
| Backend.TaskTable.UpdateAsWritten | backend/app.py:146-197 | the handler as written: an unknown id is answered 500 'Error interno del servidor' and changes neither table nor clock; a known id is handled exactly as Update |
| Backend.TaskTable.Delete | backend/app.py:199-213 | with the corrected lookup (see Findings), an unknown id gives 404 and changes nothing; otherwise exactly that row goes, the others keep their order, and the rows left are exactly those with another id; the clock is kept |
| Backend.TaskTable.DeleteAsWritten | backend/app.py:199-213 | the handler as written: an unknown id is answered 500 'Error interno del servidor' and changes nothing; a known id removes exactly that row |
| Backend.ListRequestValid | backend/app.py:55-56 | the request is served iff `int()` accepts `page` and `per_page` whenever they are given |
| Backend.SearchArg | backend/app.py:54 | `request.args.get('search', '').strip()`: the Python-stripped search value, empty when absent |
| Backend.PageArg | backend/app.py:55 | `int(request.args.get('page', 1))` |
| Backend.PerPageArg | backend/app.py:56 | `int(request.args.get('per_page', 6))` |
| Backend.TaskTable.GetTasks | backend/app.py:48-98 | 400 iff `page` or `per_page` is given and is not an integer; otherwise the page of the selected rows in newest-first order, with its pagination record |
| Backend.TaskTable.GetStats | backend/app.py:215-226 | the statistics of the table, with alta + media + baja == total, and each count the size of the priority filter's query |
| Backend.Keep | backend/app.py:62-67 | a filtered query keeps exactly the rows that pass, and no more rows than it had |
| Backend.KeepOrdered | backend/app.py:62-67 | filtering keeps the insertion order |
| Backend.WithPriority | backend/app.py:62-64 | the priority filter keeps exactly the rows with that priority, in order |
| Backend.Matching | backend/app.py:66-67 | the search keeps exactly the rows whose title contains the search text up to case, in order |
| Backend.Selected | backend/app.py:62-67 | a row is listed iff it is stored, has the priority when the argument is one of the three, and contains the search text when the stripped search is not empty |
| Backend.NewestFirst | backend/app.py:70 | the same rows, in strictly decreasing created_at when the table is in insertion order |
| Backend.Paginate | backend/app.py:73-92 | ASSUMED paginate: page and size clamped; total count; has_prev iff page > 1; has_next iff page < pages; pages = ceil(total / size); the items are exactly PageItems of the clamped page and size, so at most size of them, all from the rows |
| Backend.PageItems | backend/app.py:73-77 | the rows from the page's offset, at most one page of them, empty past the end |
| Backend.PageCount | backend/app.py:73-77 | ASSUMED page count: the fewest pages that hold all the rows |
| Backend.Count | backend/app.py:221-223 | the number of rows with a priority, at most the number of rows |
| Backend.CountIsFilterSize | backend/app.py:221-223 | each count is the size of `filter(Task.priority == p)` |
| Backend.StatsOf | backend/app.py:219-224 | the statistics record: the row count and the count of each priority |
| Backend.StatsAddUp | backend/app.py:219-224 | when every row has one of the three priorities, alta + media + baja == total |
| Backend.CreateCountsOnce | backend/app.py:219-224 | a create adds one to the total and one to the count of its priority only |
| Backend.RemoveCountsOnce | backend/app.py:219-224 | a delete takes one off the count of the removed task's priority only |
| Wire.ArgsOf | backend/app.py:53-56 | the arguments `request.args` gives: the query's names and values decoded, and the first value under each name |
| Wire.ServerReadsClientQuery | backend/app.py:53-56 | from the client's list URL the server reads the client's page and page size (the request is never refused), the decoded filter exactly when it is not 'all' (the filter itself when it holds no '%' or '+'), the client's search text exactly when it has one, and strips that text with Python's rules |
| Wire.FilterButtonsMatchServer | backend/app.py:62-64 | a filter naming a priority lists only that priority; any other filter lists as no filter does |
| Wire.PagerFollowsPagination | script.js:351-361 | under the assumed paginate, the bar is hidden iff all selected rows fit on one page; when shown, prev is disabled exactly on page 1, and prev and next are never both disabled |
| Wire.ReloadPastLastPageShowsEmpty | script.js:220 | as written: a reload after a delete keeps the page; when the rows left end before that page, the reply has no items, the list shows its empty state although rows remain, and when they fit on one page the pager is hidden |
| Wire.ReloadWithinPagesShowsTasks | script.js:220 | corrected: reloading at PageWithin of the reply's page count keeps every page that exists, and shows tasks whenever rows remain |
| Wire.ClientMessagesMatchServer | script.js:149-156 | the client's two title messages are the server's texts for the same errors |
| Wire.AcceptedTitleNotTooLong | script.js:42-45 | a title the client accepts from the 100-character box is never refused by the server as too long |
| Wire.AcceptedTitlePassesServerChecks | backend/app.py:110-118 | a client-accepted title whose ends are not Python-only whitespace passes the server's title checks unchanged |
| Wire.ClientAndServerTrimDiffer | script.js:145 | "ab" followed by U+001F passes the client rule but is refused by the server as too short, since only Python strips U+001F |

## Left out

**Client: the page and its libraries**
- DOM work: `innerHTML` templating, class toggling, `showLoading`, the character counter's element and `setActiveFilter` are UI side effects. The model represents only the decisions that drive them.
- toastr, SweetAlert2 and jQuery are library code that is not shown. A confirmation is a boolean input, and the edit dialog is the sequence of fields at each press of confirm.
- `fetch` and async/await: a reply is a parameter of the handler that awaits it. The client discards no stale response, so the model promises no "last request wins".
- `setTimeout` timing: the debounce is a single pending value that a keystroke replaces and the timer event consumes.
- `Frontend.PageWithin` is the corrected page for a reload after a delete (see Findings). The controller does not model the list reply, so `Controller.TaskManager.DeleteTask` reloads the current page as the source does.
- `loadStats`, the stats panel, the initial loads in `init` and the results of `loadTasks` change no query state, so they are not modelled.
- `formatDate` and `escapeHtml` depend on locale and DOM serialisation.
- `Controller.TaskManager.constructor`: the select's initial option comes from `index.html`, which is not part of this model. It is a parameter.
- `Text.Trim` and `Frontend.CheckTitle`: lengths count Unicode code points, not the UTF-16 units of JavaScript's `length`, so titles outside the Basic Multilingual Plane are not modelled.
- `Frontend.PriorityLabel` upper-cases ASCII letters only. The priorities it sees are ASCII.

**Server: parsing and SQL**
- `Text.ParseInt` does not model Python `int()`'s underscores between digits or its non-ASCII decimal digits. Both are rejected here.
- `Backend.Matching` and `Backend.TitleTaken`: the `%` and `_` wildcards of SQL LIKE are not modelled. `ilike` is case-insensitive substring containment and equality, with ASCII case folding as in SQLite.
- `Frontend.DecodeComponent` is werkzeug's `unquote_plus`, the decoding `request.args` applies. It is library code that is not shown, modelled from its documented behaviour. It replaces each escaped byte that starts no valid UTF-8 character with one U+FFFD. Python replaces a maximal invalid run with one U+FFFD, so malformed escapes can decode to fewer U+FFFD there. The client never sends such escapes.
- Request bodies that are not a JSON object are not modelled, and neither are bodies that are not JSON. `get_json()` refuses a body that is not JSON, and inside the handlers' `try` that becomes 500. JSON that is not an object runs the handler: `[1]` or `"abc"` gets 400 'El título es obligatorio', because `'title' not in data`; `["title"]` reaches `data['title']`, and the TypeError becomes 500.
- Flask routing, CORS, logging, migrations and `health_check` are not modelled.
- `Backend.NextId` is the assumed SQLite rowid rule, not verified behaviour.
- `Backend.Paginate` and `Backend.PageCount` are assumed Flask-SQLAlchemy 3.x `paginate(error_out=False)` behaviour, not verified repository behaviour.
- Timestamps are clock ticks. Real `utcnow()` values can tie, and the newest-first order then depends on the database.
- Concurrent requests and their races on the duplicate check are not modelled.

## Findings

| source | as written | input that shows it | evidently intended | confidence | as-written member | corrected member |
|---|---|---|---|---|---|---|
| backend/app.py:150 | `get_or_404` raises NotFound inside `try`, and `except Exception` (backend/app.py:194-197) turns it into 500 'Error interno del servidor'; delete does the same (backend/app.py:203, 210-213) | PUT or DELETE `/api/tasks/<id>` with an id no row has | 404 'Recurso no encontrado', as the 404 handler at backend/app.py:252-254 answers | not executed | Backend.CheckUpdateAsWritten, Backend.TaskTable.UpdateAsWritten, Backend.TaskTable.DeleteAsWritten, Backend.UnknownIdAnswered500 | Backend.Lookup, Backend.CheckUpdate, Backend.TaskTable.Update, Backend.TaskTable.Delete |
| script.js:220 | after a successful delete `loadTasks()` reloads the current page, even when the delete emptied it | 7 tasks at 6 per page; on page 2, delete the 7th task | the list moves back to the last page that still exists | not executed | Wire.ReloadPastLastPageShowsEmpty | Frontend.PageWithin, Wire.ReloadWithinPagesShowsTasks |
