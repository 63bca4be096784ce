# A two-board forum: its post store and its browser client

The forum keeps posts on two boards, `free` and `notice`. An Express server
(`server.js`) answers five JSON routes over a MySQL database: list, detail,
create, update and delete of posts. A view log (`post_views`) records every
detail fetch. A single-page client (`public/board.js`) shows one page of a
board's posts. It opens a post in a detail view and edits posts in a form.

This Dafny project models both halves and the contract between them.

- `js_text.dfy` (module `JsText`) holds the JavaScript string semantics the
  two halves share: `trim`, `parseInt(s, 10)`, `String(n)` for integers, and
  substring containment.
- `server.dfy` (module `Server`) holds the server's parameter normalisation
  and its page arithmetic. The list query is written as functions on the
  posts table: filter, `ORDER BY id DESC`, `LIMIT offset, count`. The two
  tables and the `AUTO_INCREMENT` counter are the fields of a `Store` class.
  Its five handler methods each run as one atomic step and return the HTTP
  status: 200, 400, 404, or 500 when the store fails.
- `board.dfy` (module `Board`) holds the client's pure helpers: `escapeHtml`,
  the date string, and `renderPagination` with its button loop. The client
  is a `BoardClient` class. Its fields are the module-level variables of
  `board.js` (lines 3-9: board, page, keyword, selected id, detail post and
  mode), plus `form`. `form` is not a module variable: it stands for the
  values of the form's DOM inputs (`postIdInput`, `postBoardTypeSelect`,
  `postTitleInput`, `postAuthorInput`, `postContentInput`) and for
  `btnDeletePost.disabled`. Each handler is a method, and returns the
  request it would issue instead of calling `fetch`.
- `protocol.dfy` (module `Protocol`) says what the server makes of each
  request the client sends.

Design points:

- For an id with no post, `Store.Detail` still appends the log entry, as
  `server.js:138-141` does unconditionally, and then answers 404. A
  database that rejects such a row through a foreign key is not modelled.
- Update answers 404 exactly when no row has the id. This relies on
  mysql2's `affectedRows` counting matched rows (the driver's found-rows
  flag). Without that, rewriting a post with its own values would report no
  affected row.
- Delete removes the id's log entries even when the post does not exist,
  and answers 404 in that case.
- A store failure is an input flag, `storeFails`. When it is set, the
  handler answers 500 and leaves both tables as they were, which is what
  the rollback gives.
- Query values and JSON members can be missing. They are `Option<string>`,
  and JavaScript truthiness of such a value is `Truthy`.
- An id in the client is either a number taken from a list row or text
  taken from the form's hidden field (`PostId`). JavaScript truthiness
  differs between the two.

## Model

| member | source | states |
|---|---|---|
| JsText.TrimIsWindow | server.js:53 | `trim` removes leading and trailing whitespace and nothing else; the result starts and ends with a non-whitespace character |
| JsText.TrimIdempotent | server.js:53 | trimming an already trimmed keyword changes nothing, which is what the server's `trim` meets on the keyword `public/board.js:72` sends |
| JsText.TrimEmptyIffWhitespace | public/board.js:319 | a field trims to "" exactly when it is all whitespace |
| JsText.Trim | server.js:53 | `trim` of a string, also at `public/board.js:71` and `public/board.js:315-317`; no contract of its own, characterised by TrimIsWindow, TrimIdempotent and TrimEmptyIffWhitespace |
| JsText.NatToStringDigits | public/board.js:69 | `String(n)` of a natural number is digits only, with no leading zero unless n is 0 |
| JsText.DigitsValueOfNatToString | public/board.js:69 | the digits of `String(n)` evaluate back to n |
| JsText.NatToString | public/board.js:166 | `String(p)` of a page number on a button; no contract of its own, see NatToStringDigits and DigitsValueOfNatToString |
| JsText.IntToString | public/board.js:69 | `String(n)` of an integer, also the `${id}` of a list-row id at line 192 and the `postIdInput.value = post.id` of line 297; no contract of its own, see NatToStringDigits, DigitsValueOfNatToString and ParseIntOfIntToString |
| JsText.DigitPrefixIsLongest | server.js:47 | `parseInt` reads the longest run of digits at the start, and it cannot be extended |
| JsText.ParseIntOfDigits | server.js:47 | a string of digits parses to its decimal value |
| JsText.ParseIntOfIntToString | server.js:121 | `parseInt(String(i), 10)` is i for every integer i |
| JsText.ParseInt | server.js:121 | `parseInt(s, 10)`: leading whitespace, an optional sign, then the longest digit prefix, and NaN (None) when there is none; the same call is at lines 47, 50, 212 and 258; no contract of its own, characterised by DigitPrefixIsLongest, ParseIntOfDigits and ParseIntOfIntToString |
| JsText.ContainsIffOccurs | server.js:69-70 | the `%keyword%` match holds exactly when the keyword occurs at some position of the title |
| JsText.Contains | server.js:69-70 | `title LIKE '%keyword%'`, also at lines 86-87; no contract of its own, see ContainsIffOccurs |
| Server.NormalizeBoard | server.js:44 | the board is "notice" exactly for the literal "notice" and "free" for anything else, absent included |
| Server.QueryInt | server.js:47-51 | `parseInt(req.query.page, 10)` of a query value; an absent value is the text "undefined", which has no digits and so reads as NaN; no contract of its own, see PositiveParam and PositiveParamOfIntToString |
| Server.PositiveParam | server.js:47-51 | page and pageSize are at least 1: the parsed integer when it is at least 1, the default otherwise |
| Server.NormalizeKeyword | server.js:53 | the keyword query value, or "" when it is absent, trimmed; no contract of its own, see KeywordUnderstood |
| Server.NormalizeListQuery | server.js:44-53 | normalised list parameters have a board code, page >= 1 and pageSize >= 1 |
| Server.Offset | server.js:54 | the offset of a page is never negative |
| Server.TotalPages | server.js:75 | totalPages >= 1, totalPages * pageSize >= count, and (totalPages - 1) * pageSize < count when count > 0 |
| Server.PastLastPageOffset | server.js:54 | a page after the last one starts at or beyond the last row |
| Server.Matches | server.js:81-88 | the `WHERE` clause: the board matches, and the title contains the keyword when one is given; no contract of its own, see FilteredRowsSorted and FilteredRowsComplete |
| Server.MatchingIds | server.js:61-74 | the set of posts the `WHERE` clause selects, whose size is the `COUNT(*)`; no contract of its own, see FilteredRows and Store.List, whose total count is its size |
| Server.MaxOf | server.js:91 | the element chosen first by `ORDER BY id DESC` is in the set and not below any other |
| Server.SortedDesc | server.js:91 | `ORDER BY p.id DESC` of the matching ids; no contract of its own, see SortedDescMembers and SortedDescDecreasing |
| Server.SortedDescMembers | server.js:91 | the ordered ids are exactly the matching ids, each once |
| Server.SortedDescDecreasing | server.js:91 | the ordered ids strictly decrease |
| Server.FilteredRows | server.js:78-88 | there are as many filtered rows as matching posts |
| Server.FilteredRowsSorted | server.js:78-93 | every filtered row is the stored post, has the board, contains the keyword when one is given, and ids strictly decrease |
| Server.FilteredRowsComplete | server.js:78-93 | every post of the board that matches the keyword is among the filtered rows |
| Server.Window | server.js:91 | `LIMIT offset, count` gives at most count rows, exactly rows[offset ..] up to count of them |
| Server.ListPageOf | server.js:61-103 | the page and pagination object the list route answers with; no contract of its own, see ListPageProperties and PastLastPageIsEmpty |
| Server.ListPageProperties | server.js:61-103 | a page holds at most pageSize rows, all stored, all on the board, all matching the keyword, with ids strictly decreasing |
| Server.PastLastPageIsEmpty | server.js:91-101 | a page past totalPages is echoed back with no rows |
| Server.ViewerIp | server.js:140 | the logged address is the request's address when it is non-empty, and null otherwise |
| Server.Truthy | server.js:177 | `!title` is false exactly for a present, non-empty string; no contract of its own, see Store.Create and SubmittedBodyAccepted |
| Server.HasRequiredFields | server.js:218 | title, author and content are all truthy, as lines 177 and 218 demand; no contract of its own, see Store.Create, Store.Update and SubmittedBodyAccepted |
| Server.LogsOfAppend | server.js:138-141 | appending log entries appends the entries of each post |
| Server.RemoveLogsOf | server.js:269 | `DELETE FROM post_views WHERE post_id = ?` never grows the log; see LogsOfRemoveLogsOf and RemoveLogsOfMembers for what it removes |
| Server.LogsOfRemoveLogsOf | server.js:269 | deleting an id's log entries leaves none for that id and every other post's entries unchanged |
| Server.RemoveLogsOfMembers | server.js:269 | the log after the delete is the old log with exactly that id's entries gone |
| Server.Store.constructor | server.js:187 | the `board_type` foreign key needs "free" and "notice" in `boards`, so a store is built only on such a table; the model starts from an empty database, with no posts, no view log and the id counter at 1, and every handler's contract holds from any `Valid()` state |
| Server.Store.BoardName | server.js:144-147 | the joined board name is present exactly when the board code is in `boards` |
| Server.Store.List | server.js:43-110 | 500 on a store failure; otherwise 200 with the page described above, its total count and the echoed page |
| Server.Store.Detail | server.js:120-166 | a non-numeric id gives 400 and no change; otherwise one log entry is appended; an existing post's view count rises by exactly 1 and the updated row is returned with its board's name, which the `board_type` foreign key guarantees is present; a missing post gives 404 |
| Server.Store.Create | server.js:173-203 | a missing or empty title, author or content gives 400 and no change; otherwise one post is inserted under the next id with the normalised board and view count 0, and that id is returned |
| Server.Store.Update | server.js:211-250 | a non-numeric id or a missing field gives 400 before any change; an existing post gets the new title, author and content and nothing else changes; a missing id gives 404 and no change |
| Server.Store.Delete | server.js:257-293 | a non-numeric id gives 400; otherwise the id's log entries and the post are removed, nothing else changes, and the status is 200 or 404 as the post existed |
| Server.PostLifecycle | server.js:120-293 | a post created on "notice", viewed twice, retitled and deleted is seen with view counts 1 and 2, keeps its board, and is then not found |
| Board.EscapeHtml | public/board.js:258-266 | a falsy input gives ""; the output contains no `<`, `>`, `"` or `'` |
| Board.EntityOf | public/board.js:261-265 | each entity is non-empty and free of markup characters; other characters stand for themselves |
| Board.ReplaceAll | public/board.js:261 | one global `.replace(/c/g, rep)`; no contract of its own, see ReplaceAllAppend |
| Board.EscapePasses | public/board.js:260-265 | the five chained global replacements, `&` first; no contract of its own, see EscapePassesIsEncodeEach |
| Board.EncodeEach | public/board.js:261-265 | the one-pass entity encoding contains no markup characters |
| Board.ReplaceAllAppend | public/board.js:261 | a global replace of one character distributes over concatenation |
| Board.EscapePassesIsEncodeEach | public/board.js:260-265 | the five chained replacements, `&` first, equal replacing each character by its entity in one pass |
| Board.UnescapeEncodeEach | public/board.js:261-265 | decoding the five entities inverts the one-pass encoding |
| Board.EscapeHtmlRoundTrip | public/board.js:258-266 | unescaping the output of `escapeHtml` recovers its input |
| Board.EscapeHtmlPlain | public/board.js:260-265 | `escapeHtml` is the identity on text without `& < > " '` |
| Board.FirstIndexOf | public/board.js:130 | the index found holds the first occurrence of the character, and none is found exactly when it does not occur |
| Board.ReplaceFirst | public/board.js:130 | `replace("T", " ")` with a string pattern keeps the length; see ReplaceFirstChangesFirst for what it changes |
| Board.ReplaceFirstChangesFirst | public/board.js:130 | `replace("T", " ")` changes only the first `T` and leaves text without one unchanged |
| Board.DateDisplay | public/board.js:129-131 | the date string has at most 16 characters and is a prefix of the text with its first `T` made a space |
| Board.DateDisplayChangesOnlyFirstT | public/board.js:220-225 | a displayed character is the original one, or the first `T` turned into a space |
| Board.DateDisplayOfTimestamp | public/board.js:220-222 | an ISO timestamp `YYYY-MM-DDTHH:MM...` shows as `YYYY-MM-DD HH:MM` |
| Board.PageButtons | public/board.js:164-173 | there is one button per page |
| Board.ExactlyOneActive | public/board.js:167 | when the current page is a page, its button is active and no other is |
| Board.RenderPagination | public/board.js:147-185 | no bar for at most one page; otherwise buttons 1..totalPages in order labelled `String(p)`, only the current one active, prev disabled iff cur <= 1, next disabled iff cur >= totalPages |
| Board.ListRequestOf | public/board.js:65-75 | a list request always carries board, page and page size, and carries the trimmed keyword exactly when it is not blank |
| Board.IdText | public/board.js:192 | the id as it is written into `/api/posts/${id}`: `String(n)` for a list-row number, the text itself for a form value; no contract of its own, see NumericIdUnderstood and EditFormIdUnderstood |
| Board.IdTruthy | public/board.js:384-385 | JavaScript truthiness of an id: a number is falsy only when 0, a text only when empty; no contract of its own, see DeleteTarget |
| Board.NewForm | public/board.js:280-290 | the new-post form is empty, on the current board, with delete disabled |
| Board.EditForm | public/board.js:295-305 | the edit form holds the post's id as text, its board, title, author and content, with delete enabled |
| Board.SubmitRequest | public/board.js:313-345 | no request when a trimmed field is empty; otherwise PUT of the trimmed fields when the form has an id, POST with the board when it has none |
| Board.DeleteTarget | public/board.js:384-388 | the target is the form's id, else a truthy selected id, and there is none exactly when neither exists |
| Board.BoardClient.constructor | public/board.js:3-9 | the client starts on page 1 of "free", with no keyword, no selection and no detail, in view mode |
| Board.BoardClient.Start | public/board.js:463-467 | loading resets the form, shows the view mode and requests the current list |
| Board.BoardClient.SetMode | public/board.js:43-60 | the mode is set; edit mode fills the form from the given post or resets it; nothing else changes |
| Board.BoardClient.OnClickPost | public/board.js:190-193 | clicking a post requests that post's detail |
| Board.BoardClient.OnPostLoaded | public/board.js:195-204 | a failed detail response changes nothing; a successful one selects the id, stores the post and shows the view mode |
| Board.BoardClient.OnEditFromDetail | public/board.js:248-252 | editing from the detail view needs a shown post, and fills the form from it |
| Board.BoardClient.OnTab | public/board.js:414-432 | choosing the current board is a no-op; another board resets page, keyword, selection and detail, shows the view mode and requests its page 1 |
| Board.BoardClient.OnSearch | public/board.js:437-441 | search stores the text as keyword, returns to page 1 and requests that list |
| Board.BoardClient.OnNewPost | public/board.js:453-458 | a new post clears the selection and detail and opens an empty form in edit mode |
| Board.BoardClient.OnCancel | public/board.js:375-378 | cancel resets the form and shows the view mode |
| Board.BoardClient.OnSubmit | public/board.js:310-345 | submitting issues exactly the request `SubmitRequest` gives, a PUT exactly when the form has an id |
| Board.BoardClient.OnUpdateSucceeded | public/board.js:337-339 | after a PUT the client reloads the list and then the post |
| Board.BoardClient.OnCreateSucceeded | public/board.js:352-357 | after a POST the client returns to page 1, reloads, empties the form and the detail, and shows the view mode |
| Board.BoardClient.OnDelete | public/board.js:383-393 | delete issues a DELETE of the target only when there is one and the user confirms |
| Board.BoardClient.OnDeleteSucceeded | public/board.js:399-404 | after a DELETE the selection and detail are cleared, the list reloads, the form resets and the view mode shows |
| Board.BoardClient.OnPrev | public/board.js:156-161 | prev moves back exactly one page when past page 1 and otherwise does nothing |
| Board.BoardClient.OnNext | public/board.js:178-183 | next moves forward exactly one page when before the last, otherwise does nothing, and never goes past the last page |
| Board.BoardClient.OnPageButton | public/board.js:168-171 | a page button moves to its page and requests it |
| Protocol.ListQueryOf | public/board.js:67-75 | the query string holds board, page and page size, and the keyword only when set |
| Protocol.BodyOf | public/board.js:330 | a PUT body holds title, author and content; a POST body also holds the board |
| Protocol.PositiveParamOfIntToString | server.js:47-51 | a page number the client prints with `String` is read back as itself |
| Protocol.KeywordUnderstood | server.js:53 | the keyword the client sends, or leaves out, normalises to the trimmed search text |
| Protocol.ListRequestUnderstood | public/board.js:65-75 | the server reads every client list request as the client's board, page, page size 10 and trimmed keyword |
| Protocol.ClientListRequestUnderstood | public/board.js:65-75 | the list request a client builds from its own state, whose page stays at least 1, is read back as that board, page, page size 10 and trimmed keyword |
| Protocol.NumericIdUnderstood | public/board.js:192 | an id taken from a list row reaches the server as that id |
| Protocol.EditFormIdUnderstood | public/board.js:297 | the edit form's hidden id parses back to the post's id |
| Protocol.SubmittedBodyAccepted | public/board.js:315-322 | every body the client submits passes the server's required-field check |
| Protocol.SubmittedBoardKept | public/board.js:314 | a new post keeps the form's board when that is a board code |
| Protocol.PageButtonsWithinPages | public/board.js:164-173 | every page button of a bar drawn from a server response selects a page from 1 to totalPages that has rows when the board has any |
| Protocol.PageHasRows | server.js:75 | every page from 1 to totalPages starts at an existing row |

## Left out

- Express setup, JSON and form middleware, static files, the `/` route and
  `app.listen` are HTTP plumbing. `db.js` is connection-pool configuration
  only.
- Server.Store.Create: on `storeFails` the id counter is kept, while InnoDB
  does not give back an `AUTO_INCREMENT` value consumed by a failed insert.
  So after a failed create the model's later ids can be one lower than
  MySQL's.
- Connections, transactions and rollback are left out. Each handler is one
  atomic step, and any store error is the `storeFails` input, which leaves
  both tables unchanged.
- A foreign key on `post_views` that would reject the log row of a missing
  post is not modelled, because the schema is not part of this model.
- `created_at`, `updated_at`, `viewed_at` and the log entry's own id are set
  by the database and are left out. The date display is modelled as a
  function of the timestamp text.
- MySQL `LIKE` collation, case folding and the `%`/`_` wildcards inside a
  keyword are left out. The title match is plain substring containment.
- Non-string JSON members (numbers, arrays, objects) and repeated query
  parameters are left out. A value is a string or absent.
- JavaScript numbers are double-precision floats. The model uses unbounded
  integers, so `parseInt` results beyond 2^53, the exponent form of
  `String(n)` for huge n, and `Math.ceil` on floats are not modelled.
- A Dafny `string` is a sequence of Unicode scalar values, while
  JavaScript's `.slice(0, 16)` (`public/board.js:131`, `public/board.js:222`),
  `trim` and `parseInt` count UTF-16 code units. The two agree on text
  without characters outside the Basic Multilingual Plane, which includes
  the ASCII timestamps the date display receives.
- All DOM work is left out: rendering of rows and of the detail view, CSS
  classes, the search box's own text, the active tab, and
  `autoResizeTextarea`. So are `fetch`, its async ordering and the `alert`
  dialogs. The `confirm` dialog is the `confirmed` input of `OnDelete`.
- Board.BoardClient.OnDelete: the delete button is only enabled after
  `fillFormForEdit`. That gating is left out, so the handler is modelled for
  every form.
- A failed list response is left out, since it only shows an alert. A
  failed save or delete changes no state, so only the success continuation
  is a method.
- The select element's rule that an unknown value clears it is left out.
  `form.boardType` holds whatever string was put there.
- The board's display name in the detail view is left out, because it is
  rendering only.
