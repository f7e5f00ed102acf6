# Demand tracker: the demand table and the work-session logger

This project models, in Dafny, the state machine of a small demand tracker.
Demands are tasks with a title, a status and a rank (`priority`). They are
created and edited from a form, listed in ranked or chronological views, and
re-ranked by dragging them into a new order. Work sessions book the minutes
spent on each demand, adding to the demand's executed hours and possibly
changing its status.

The three MySQL tables become the fields of one `Store` class:

- `demands` is a map from id to row;
- `work_sessions` and `work_logs` are sequences that grow;
- the two AUTO_INCREMENT counters are fields as well.

Each request handler is a method on the store, and each SQL statement is one
update of a field. A transaction works in place on the fields. A rollback
puts back the copy of the fields taken when the transaction began, so every
error path ends with the store exactly as it was.

Modules:

- `Common` (common.dfy): the rows, the record constants, Python truthiness of
  form and JSON fields, and how an id sent as text selects a row.
- `DemandRules` (demand_rules.dfy):
  - the extension check for uploads;
  - the specification of the listings (which rows, in which order);
  - `COALESCE(MAX(priority), -1)` as a predicate;
  - the table after a reordering, as a function of the list.
- `TrackerRules` (tracker_rules.dfy):
  - the `Z` rewrite of timestamps;
  - the completeness rules for a request and each allocation;
  - what one session does to `demands` (`BookAll`) and to `work_logs` (`LogRows`);
  - the lemmas about executed hours and status.
- `Handlers` (store.dfy): the `Store` class and its handlers. Each handler's
  `ensures` ties the new state to the functions above. It also holds
  client-side flows, modelled on the repository's tests, that run through
  the handlers' contracts.

Conventions of the model:

- Ids arrive as text (a form field, or a JSON string such as `"3"`).
  `WHERE id = %s` selects the row whose key the text spells in decimal; any
  other text selects nothing.
- Timestamps are opaque integers ordered like the DATETIME values. `NOW()`
  is a parameter, and so is the ISO parser `datetime.fromisoformat` (a
  function from text to a point in time or an error text).
- `executed_hours` is an exact `real`.
- The INSERT of a new demand names none of `created_at`, `updated_at` and
  `executed_hours`. Their column defaults are not part of this model (the
  schema is not in the repository). The model assumes the current time for
  both timestamps and 0 for the hours.

Two behaviours of the code that a reader might not expect, and that the
model follows:

- An edit of an id that does not exist silently changes nothing; it is not an
  error.
- Booked minutes are never checked to be positive. A negative `minutes_spent`
  lowers the executed hours, and zero minutes is refused only because 0 is
  falsy. So executed hours never decrease only when no allocation books
  negative minutes.

## Model

| member | source | states |
|---|---|---|
| Common.ParseId | blueprints/demands.py:252-254 | an id sent as text selects a key exactly when it is a decimal numeral, and that key is non-negative |
| Common.Numeral | blueprints/demands.py:140-144 | the rendering of an id in a redirect is a decimal numeral |
| Common.ParseNumeral | blueprints/demands.py:140-144 | the id of a created demand, as rendered for the prioritization page and sent back in `ordered_ids`, selects that same demand |
| Common.NumeralAccepted | blueprints/demands.py:127 | every id that selects a row is text that `int()` accepts, so its edit can build the redirect |
| Common.IntRejects | blueprints/demands.py:127 | `int()`, which the `<int:demand_id>` route applies when the redirect is built, rejects "abc", "3.5" and "3abc" |
| Common.IntAcceptsMore | blueprints/demands.py:127 | `int()` accepts " 3" and "-3", which are not decimal numerals |
| DemandRules.LastIndexOf | blueprints/demands.py:29 | `rsplit(".", 1)` splits at the last dot: the position found holds a dot and no later position does; no result means no dot at all |
| DemandRules.AllowedFile | blueprints/demands.py:26-31 | a file is accepted iff its name contains a dot and the lower-cased text after the last dot is an allowed extension |
| DemandRules.Insert | blueprints/demands.py:41-44 | inserting a row into a listing sorted on the view's key keeps it sorted and adds exactly that row |
| DemandRules.ViewMembers | blueprints/demands.py:42 | a demand appears in a pending listing iff its status is "Em Fila" or "Em Execução" (in the full listing: iff it is in the table) |
| DemandRules.ViewUnique | blueprints/demands.py:41-44 | when no two listed rows tie on the ORDER BY key, the listing is determined by the table alone |
| DemandRules.TopPriorityUnique | blueprints/demands.py:130-132 | `COALESCE(MAX(priority), -1)` has one value per table |
| DemandRules.ArrayExample | blueprints/demands.py:252-254 | the driver binds `[3]` as `(3)`, which selects demand 3; `[3, 4]` and `[]` do not bind |
| DemandRules.LastPosition | blueprints/demands.py:251-254 | the position found is the last element of `ordered_ids` that selects the key; no result means no element selects it |
| DemandRules.ReprioritizedStep | blueprints/demands.py:251-254 | running the UPDATE for position i after those before it gives the rewrite of the longer prefix |
| DemandRules.ReprioritizedRanks | blueprints/demands.py:251-254 | after reordering, the table has the same rows and only priorities change; a listed demand's rank is the last position naming it; an unlisted demand is unchanged |
| DemandRules.ReorderExample | tests/test_demands.py:73-85 | `['3', '1', '2']` ranks demands 3, 1 and 2 at 0, 1 and 2 |
| TrackerRules.NormalizeZulu | blueprints/tracker.py:35-39 | a timestamp ending in `Z` becomes its prefix followed by `+00:00`; any other text is unchanged; the result never ends in `Z` |
| TrackerRules.NormalizeIdempotent | blueprints/tracker.py:35-39 | rewriting twice is rewriting once |
| TrackerRules.BookAll | blueprints/tracker.py:73-85 | the UPDATEs of a session never add or remove demand rows |
| TrackerRules.LogRows | blueprints/tracker.py:67-71 | one log row per allocation, in input order, each pointing at the session and carrying the allocation's demand_id, minutes, description and new status |
| TrackerRules.BookedHours | blueprints/tracker.py:73-78 | a demand's executed hours grow by the sum of the minutes booked against it, divided by 60; repeated ids accumulate |
| TrackerRules.BookedRowsKept | blueprints/tracker.py:73-85 | a session changes no demand field but executed hours and status, and leaves a demand that no allocation names exactly as it was |
| TrackerRules.BookedStatusKept | blueprints/tracker.py:80-85 | a demand that no allocation gives a truthy new status keeps its status |
| TrackerRules.BookedStatusLatest | blueprints/tracker.py:80-85 | a demand's status becomes the new status of the last allocation that names it with a truthy one |
| TrackerRules.ExecutedHoursMonotone | blueprints/tracker.py:74-78 | when no allocation books negative minutes, no demand's executed hours decrease |
| TrackerRules.NegativeMinutesAccepted | blueprints/tracker.py:64-78 | an allocation of -30 minutes passes the completeness check and takes half an hour off the demand |
| TrackerRules.LoggedExample | tests/test_tracker.py:41-98 | the test session adds 40/60 hours to demand 1 and sets it "Concluída", and adds 20/60 hours to demand 2 without touching its status |
| Handlers.EstimateOf | blueprints/demands.py:106 | an empty or missing estimate is stored as NULL, any other is stored as sent |
| Handlers.Edited | blueprints/demands.py:119-125 | an edit sets title, description, status, estimate and update time from the form, and keeps priority, executed hours and creation time |
| Handlers.NewDemand | blueprints/demands.py:133-139 | a created row carries the form's fields, the given priority, zero executed hours and the current time |
| Handlers.EditedTable | blueprints/demands.py:117-125 | an edit changes only the row the id selects, as `Edited` says; an id that selects no row changes nothing |
| Handlers.SessionCommitted | blueprints/tracker.py:51-71 | a committed session takes the next session id and its logs point at it, so every log still names an existing session |
| Handlers.Store.MaxPriority | blueprints/demands.py:130-132 | the scan returns `COALESCE(MAX(priority), -1)` of the table |
| Handlers.Store.Query | blueprints/demands.py:39-47 | a listing holds each row the filter keeps exactly once, in the order of its key |
| Handlers.Store.Dashboard | blueprints/demands.py:34-47 | by default and for "prioritize", the pending demands by priority then creation time ascending; for any other view, every demand newest first |
| Handlers.Store.Prioritize | blueprints/demands.py:191-197 | the pending demands by priority then creation time ascending |
| Handlers.Store.PendingDemands | blueprints/tracker.py:12-18 | the pending demands by priority ascending |
| Handlers.Store.SaveDemand | blueprints/demands.py:99-188 | without a title and a status nothing is written. An id other than "" or "0" edits as `EditedTable` says, but if `int()` rejects the id, the redirect fails and the edit is rolled back. Otherwise exactly one row is added, under the next id, ranked one above the highest priority (0 on an empty table). The work tables are untouched |
| Handlers.Store.EditDemand | blueprints/demands.py:117-127 | the UPDATE, then the redirect: committed as `EditedTable` when `int()` accepts the id, rolled back with a failure otherwise |
| Handlers.Store.CreateDemand | blueprints/demands.py:128-140 | one row added under the next id, every other row kept, ranked one above `COALESCE(MAX(priority), -1)`, with the form's fields |
| Handlers.Store.UpdatePriorities | blueprints/demands.py:239-262 | a missing, empty or non-list `ordered_ids` is refused with nothing written; an element the driver cannot bind (an empty or longer array, an object) rolls every UPDATE back; otherwise the table becomes `Reprioritized` of the list |
| Handlers.Store.RankAll | blueprints/demands.py:251-254 | the UPDATE loop reaches `Reprioritized` of the whole list exactly when no element fails to bind, and keeps the table's rows |
| Handlers.Store.RankOne | blueprints/demands.py:252-254 | one UPDATE: the row the id selects, if any, takes the rank |
| Handlers.Store.LogWork | blueprints/tracker.py:23-94 | an incomplete request is refused with nothing written; an unparsable timestamp or an incomplete allocation answers a server error with the store exactly as before; otherwise one session row under the next id, `LogRows` appended, `demands` becomes `BookAll` |
| Handlers.Store.PostAllocations | blueprints/tracker.py:58-85 | the allocation loop completes exactly when every allocation is complete, and then has booked `BookAll` and appended `LogRows` |
| Handlers.Store.PostAllocation | blueprints/tracker.py:59-85 | one allocation appends its log row and applies its UPDATEs, as `BookOne` says |

Five client flows run through the handlers' contracts. `CreateAfterFive`
follows the creation test in `tests/test_demands.py`; the other four are flows
modelled on the tests. They assert:

- `CreateAfterFive`: a table whose top rank is 5 gives the new demand rank 6;
- `CreateTwice`: the first demand is ranked 0 and the second 1;
- `CreateThenRank`: the new demand's rendered id, sent back alone in
  `ordered_ids`, ranks it 0;
- `ReorderTwo`: `["2", "1"]` ranks 2 before 1;
- `LogThenList`: a session setting "Concluída" takes the demand off the
  pending list.

## Left out

- Flask routing, templates, `flash`, redirects and HTTP status codes. A handler
  answers a `Response` (success, refused request, failed transaction) or a
  `SaveOutcome`.
- The MySQL driver and SQL text. The tables are in-memory fields, so
  database faults other than the ones below are not modelled.
- Handlers.Store.SaveDemand: the exception branch (blueprints/demands.py:170-184)
  is modelled for an edit id that `int()` rejects (`SaveFailed`). Its other
  causes are left out: database faults, and uploads of attachments.
- Handlers.Store.SaveDemand: `int()` is modelled for ASCII digits and
  whitespace only; Unicode digits and spaces are left out.
- The attachment upload loop (blueprints/demands.py:146-167) is left out; it
  calls S3. A failed upload only flashes a warning and never aborts the save.
- `download_attachment` and `detail` are not modelled. Both only read and
  render.
- `datetime.fromisoformat` is a parameter of `LogWork`, because it is a
  library call. Timestamps are opaque after the `Z` rewrite.
- Floating point is not modelled: `float(minutes_spent) / 60.0` is exact
  division of reals.
- A JSON integer in `ordered_ids` is modelled as its decimal text, which
  selects the same row; no truthiness test applies there. JSON floats and booleans as ids are not modelled, and neither is
  MySQL's lax coercion of text such as `"3abc"` to a number. Only a decimal
  numeral selects a row.
- Handlers.Store.UpdatePriorities: the error message leaves out the driver's
  exception text after "Erro ao atualizar prioridades: ", because that text
  comes from the driver.
- Handlers.Store.UpdatePriorities: the only failures modelled are elements of
  `ordered_ids` the driver cannot bind: an empty array, an array of two or
  more, an array holding such an element, and an object. An object is
  modelled as always failing. A JSON body that is not an object
  (`data.get` raises before any write) is not modelled.
- Handlers.Store.LogWork: the error message for an unparsable timestamp is
  `"Erro no servidor: "` followed by the parser's error text, which is a
  parameter.
- Handlers.Store.LogWork: the JSON body is narrowed to typed fields:
  timestamps are text, minutes are integers, and each allocation is an object.
  These shapes are left out:
  - bodies that are not JSON objects;
  - `allocations` that are a non-list truthy value;
  - a timestamp that is a number, where `.endswith` raises before any write;
  - a `null` or string allocation, where `alloc.get` raises mid-loop and the
    transaction is rolled back;
  - a truthy non-numeric `minutes_spent` such as `"abc"` or `[1]`, where
    `float()` raises mid-loop and the transaction is rolled back;
  - a numeric string such as `"0"` or `"40"` as minutes, which passes the
    completeness check as truthy text.
  - a JSON integer `demand_id` in an allocation; its `0` is falsy, so the
    completeness check fails and the session is rolled back, while the text
    `"0"` is truthy and passes it.
- Foreign keys are not modelled. A log for an unknown demand id is inserted,
  and its UPDATEs change nothing.
- The ids of `work_logs` rows are not modelled, since nothing reads them.
- A rollback restores the AUTO_INCREMENT counters too, which InnoDB does not.
  Ids burnt by a rolled-back insert are not modelled.
- Column projections of the listings are not modelled; a listing returns the
  ids of its rows.
- `lower()` in `allowed_file` is modelled for ASCII letters only.
- Common.IsPending: the listings compare status by exact string equality; the
  column's collation (case, accents, trailing spaces) is not modelled, because
  the schema is not in the repository.
- TrackerRules.ExecutedHoursMonotone: requires that no allocation books
  negative minutes, because the source accepts negative `minutes_spent` (see
  `NegativeMinutesAccepted`).
- The auth blueprint, the app factory and the reports blueprint are not modelled.
