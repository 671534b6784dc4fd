# Task tracker: the `Task` model and its three JSON views

This project models the core of a small Django task tracker. It covers the
`Task` record of `task/models.py` and the three request handlers of
`task/views.py`:

- `tasks_list_create` lists the table, filtered and ordered, on `GET`. It
  validates the body and creates a row on `POST`. Every other method gets 405.
- `task_detail` looks the row up first, so an unknown id gets 404 whatever
  the method. Then `GET` reads the row, `PUT` and `PATCH` merge, validate
  and save, `DELETE` removes it, and every other method gets 405.
- `tasks_summary` counts the rows per status and fills in zero for every
  status choice that is missing. A method other than `GET` gets 405.

The project has four modules:

- `Wrappers` holds `Option` and `Result`.
- `Text` is Python's `str.strip()` over the exact `str.isspace()` character
  set, with its lemmas.
- `Models` holds the two choice sets, their defaults, the `Task` record,
  `to_dict` (with a reader that proves the round trip) and `__str__` (with a
  parser that proves the round trip).
- `Views` holds the requests and responses, the validation and merge rules
  as pure functions, and the specification of the listing and of the
  summary. Its class `TaskStore` stands for the database table: a map from
  primary key to row, the next key to hand out, and a logical clock for
  `created_at`. The handlers are methods of that class.

The handlers are methods that update the table in place. Each one is proved
against a two-state predicate or a pure specification. The class invariant
`Valid` holds at every step:

- every row is filed under its own key, below the next key;
- every title is stripped;
- every priority and status is a choice value;
- key order is creation order.

The listing loop scans keys in order. It is proved to return exactly the
stored rows that pass the filters, ordered by creation time. The lemma
`ListingUnique` shows that only one sequence meets that description.

The model keeps three behaviours of the handlers that a reader might not
expect:

- `PATCH` strips the title it receives but never checks it again, so a
  whitespace-only title is stored as `""`. `Views.PatchStoresBlankTitle`
  states this. The views never check titles against the serializer's
  rule (task/serializers.py:17-19, "Title cannot be blank."), and the
  comment at task/views.py:87 only says that PATCH allows partial
  updates. The table invariant is therefore "title stripped", not
  "title non-blank".
- `task_detail` looks the row up before it looks at the method, so an
  unknown id gets 404 even for a method the view does not support.
- The summary keys are the statuses actually stored plus the three choice
  values. `Valid` guarantees that the table holds only valid statuses, so
  these keys are exactly the three choices, and `TasksSummary` states so.

## Model

| member | source | states |
|---|---|---|
| Text.TrimStart | task/views.py:45 | The result is a suffix of the input. What it drops is all whitespace, and it does not start with whitespace. |
| Text.TrimEnd | task/views.py:45 | The result is a prefix of the input. What it drops is all whitespace, and it does not end with whitespace. |
| Text.Trim | task/views.py:59 | `strip()` leaves no whitespace at either end. |
| Text.LeadingSpace | task/views.py:45 | The number of characters `lstrip` drops is within the string, and what remains is the suffix after them. |
| Text.TrimIsInfix | task/views.py:59 | `strip()` keeps the infix of the input that starts after its leading whitespace. Everything dropped on either side is whitespace. |
| Text.TrimmedIsFixed | task/views.py:106 | A string with no whitespace at its ends is its own strip. |
| Text.TrimIdempotent | task/views.py:106 | Stripping twice is the same as stripping once. |
| Text.BlankIffAllSpace | task/views.py:45 | `not s.strip()` holds exactly when every character of `s` is whitespace. |
| Text.AllSpaceStripsToEmpty | task/views.py:45 | A whitespace-only string strips to the empty string. |
| Text.TrimOfNonBlankIsNonBlank | task/views.py:45-46 | A title that passes the blank check strips to a non-empty string that also passes it. |
| Models.PriorityValues | task/models.py:5-8 | The priority values are exactly "LOW", "MEDIUM", "HIGH", in declaration order. This is the order the "Allowed:" message lists them in. |
| Models.StatusValues | task/models.py:10-13 | The status values are exactly "PENDING", "IN_PROGRESS", "COMPLETED", in declaration order. This is the order of the "Allowed:" message and of the zero-fill loop. |
| Models.IsPriority | task/views.py:53-54 | The test `priority in dict(Task.PriorityChoices.choices).keys()`. A definition with no `ensures`: `Models.PriorityChoicesExact` states that it holds exactly for LOW, MEDIUM and HIGH. |
| Models.IsStatus | task/views.py:55-56 | The test `status_val in dict(Task.StatusChoices.choices).keys()`. A definition with no `ensures`: `Models.StatusChoicesExact` states that it holds exactly for PENDING, IN_PROGRESS and COMPLETED. |
| Models.PriorityChoicesExact | task/models.py:5-8 | A string is a priority exactly when some choice stores it, which is exactly LOW, MEDIUM or HIGH. No two choices share a value. |
| Models.StatusChoicesExact | task/models.py:10-13 | A string is a status exactly when some choice stores it, which is exactly PENDING, IN_PROGRESS or COMPLETED. No two choices share a value. |
| Models.DefaultsAreChoices | task/models.py:17-26 | The defaults are MEDIUM and PENDING, and each belongs to its own choice set. |
| Models.ToDict | task/models.py:29-38 | `to_dict`. A definition with no `ensures`: `Models.DictRoundTrip` and `Models.FromDictInverse` state that it has exactly the six keys and is a bijection onto the records that read back as tasks. |
| Models.DictRoundTrip | task/models.py:29-38 | `to_dict` has exactly the six keys, and reading it back gives the same row. |
| Models.FromDictInverse | task/models.py:29-38 | Every record that reads back as a task is that task's `to_dict`, so `to_dict` is a bijection onto well-formed records. |
| Models.LastIndex | task/models.py:40-41 | The index returned holds the character and none after it does. `None` means the character is absent. |
| Models.Display | task/models.py:40-41 | `__str__`. A definition with no `ensures`: `Models.DisplayRoundTrip` states that the title and status are recovered from it whenever the status holds no '('. |
| Models.DisplayRoundTrip | task/models.py:40-41 | `__str__` loses nothing: when the status holds no '(', the title and status can be recovered from it, whatever the title holds. |
| Models.StatusValuesHaveNoParen | task/models.py:10-13 | No status value holds '(', so `__str__` of every valid row round-trips. |
| Views.JsonError | task/views.py:11-12 | `json_error`: a `{"detail": message}` body with the given status. A definition with no `ensures`; the handlers' contracts state every error answer through it. |
| Views.TitleMissing | task/views.py:45 | The title check `not title or not str(title).strip()`, also used by `PUT` (task/views.py:90). A definition with no `ensures`: `Text.BlankIffAllSpace` states that a present title fails it exactly when it is empty or all whitespace. |
| Views.ParseCreate | task/views.py:39-56 | The collection `POST` body: JSON that does not parse gives "Invalid JSON." before any field is read, and otherwise `Views.ValidateCreate`. A definition with no `ensures`; `Views.TaskStore.Create` states its effect. |
| Views.ValidateCreate | task/views.py:44-56 | Create validation gives the blank-title error, then the priority error, then the status error, in that order of checking, with defaults MEDIUM and PENDING. A payload that passes all three checks is accepted. On success the title is the stripped input and non-empty, absent fields take the defaults, and both choices are valid. |
| Views.MergeUpdate | task/views.py:87-109 | `PUT` without a non-blank title fails. Otherwise priority is checked before status. A payload that passes these checks is accepted. On success id and creation time are untouched, and each field takes the payload's value when present and the stored one otherwise. |
| Views.ParseUpdate | task/views.py:82-109 | The `PUT`/`PATCH` body: JSON that does not parse gives "Invalid JSON." before the title check, and otherwise `Views.MergeUpdate`. A definition with no `ensures`; `Views.TaskStore.Update` states its effect. |
| Views.MergedTitle | task/views.py:88-106 | A merged title is stripped. It is the stripped payload title when one is given and the stored title otherwise. After `PUT` it is never blank. |
| Views.PatchStoresBlankTitle | task/views.py:88-106 | A whitespace-only title is stored as "" by `PATCH` and refused by `PUT`. |
| Views.FilterApplies | task/views.py:21-27 | `if status_param:` and `if priority_param:`: a filter applies only when it is given and non-empty. A definition with no `ensures`; `Views.TaskStore.ListTasks` states the listing it selects. |
| Views.Selected | task/views.py:21-27 | The two equality filters `qs.filter(status=...)` and `qs.filter(priority=...)`; a value that no row holds simply matches nothing. A definition with no `ensures`; `Views.TaskStore.ListTasks` and `Views.ListingUnique` state the listing it selects. |
| Views.OrderBy | task/views.py:29-33 | The ordering is ascending exactly when `ordering=created_at` is given. Every other value, or none, gives descending. |
| Views.InOrderUnique | task/views.py:29-35 | Two strictly time-ordered sequences with the same rows are equal. |
| Views.ListingUnique | task/views.py:18-35 | At most one sequence is the filtered, ordered answer to a query. |
| Views.Records | task/views.py:35 | The JSON array has one record per listed row, in order, and each reads back as its row. |
| Views.StatusGroupsDisjoint | task/views.py:126 | Each row is counted under one status only: the groups of two distinct statuses share no key. |
| Views.GroupByStatus | task/views.py:126-127 | The grouped counts have one key per status present, each with its row count, and never zero. |
| Views.CountOfAbsentStatus | task/views.py:129-131 | A status no row holds has count 0, so `setdefault(..., 0)` gives the true count. |
| Views.StatusCountsCoverTable | task/views.py:126-131 | When every status is a choice, the three status counts add up to the number of rows. |
| Views.ExtendInOrder | task/views.py:29-33 | A row created after every listed one keeps the listing ordered, appended when ascending and prepended when descending. |
| Views.ScanStep | task/views.py:18-35 | One step of the key-order scan keeps the answer so far exact and ordered. |
| Views.ScanComplete | task/views.py:18-35 | A scan past every key is the whole answer to the query. |
| Views.CreateKeepsWellFormed | task/views.py:58-63 | A row created under the next key at the current clock uses a fresh key and keeps the table invariant. |
| Views.ReplaceKeepsWellFormed | task/views.py:105-110 | Saving a row over its own key, with its creation time unchanged, keeps the table invariant. |
| Views.DraftFitsRow | task/views.py:44-63 | A body that create validation accepts yields a row that meets the table invariant. |
| Views.MergeKeepsRowOk | task/views.py:87-110 | An accepted `PUT`/`PATCH` yields a row that meets the table invariant under the same key, with the same creation time. |
| Views.StoredStatusesAreChoices | task/views.py:55-56 | In a well-formed table every stored status is one of the three choice values. This holds because the views reject any other status before saving (also task/views.py:102-103); Django does not enforce `choices` on `create` or `save`. |
| Views.RemoveKeepsWellFormed | task/views.py:113-114 | Deleting a row keeps the table invariant. |
| Views.TaskStore.ListTasks | task/views.py:17-35 | The scan returns exactly the stored rows that pass both filters, ordered by creation time in the requested direction. |
| Views.TaskStore.TasksListCreate | task/views.py:16-67 | `GET` changes nothing and answers 200 with the records of the unique listing. `POST` behaves as `CreatedFrom`. Every other method gets 405 with GET and POST allowed, and changes nothing. |
| Views.TaskStore.Create | task/views.py:38-64 | Malformed JSON or a failed check answers 400 with its message and changes nothing. Otherwise exactly one row is added, under a fresh key at the current clock, and the answer is 201 with its record. |
| Views.TaskStore.Insert | task/views.py:58-63 | The row is filed under the next key, stamped with the clock. Key and clock advance, nothing else changes, and the invariant is kept. |
| Views.TaskStore.TaskDetail | task/views.py:71-119 | An unknown id gets 404 whatever the method. `GET` answers 200 with the row. `PUT`/`PATCH` behave as `UpdatedFrom`. `DELETE` removes exactly that row and answers 204 with its message. Every other method gets 405 with the four allowed methods. |
| Views.TaskStore.Update | task/views.py:81-111 | Malformed JSON or a failed check answers 400 and changes nothing. Otherwise only the row with that key is replaced, by the merge, and the answer is 200 with its record. |
| Views.TaskStore.TasksSummary | task/views.py:122-133 | A non-`GET` gets 405. `GET` answers 200 with one key per stored status and per status choice, each mapped to its true row count. Since the table is well formed, the keys are exactly the three status choices. |

## Left out

- HTTP routing, CSRF middleware and response rendering are not modelled. A
  response is a status code and a body value. The `Allow` header of a 405
  is its list of methods.
- `TasksSummary`: its 405 answer is the view's own answer. Unlike the other
  two views, `tasks_summary` is not `@csrf_exempt` (task/views.py:15, :70
  against :122). With Django's CSRF middleware enabled, an unsafe method
  such as `POST` without a valid token gets 403 before the view runs.
- JSON decoding is a parameter. A body is either malformed or an object
  whose four fields are absent or strings, and an empty body is the empty
  object. JSON `null`, non-string field values, non-object bodies and
  non-UTF-8 bytes are not modelled. In the source:
  - a `null`, number or boolean `priority` or `status` is not a choice
    value, so it gets the ordinary 400 choice error (task/views.py:53-56,
    :100-103);
  - a JSON array or object as `priority` or `status` cannot be hashed.
    The membership test `not in dict(...).keys()` raises an uncaught
    `TypeError` there, which gives a 500;
  - a falsy title (`null`, `0`, `false`, `""`, an empty array or object)
    gets the ordinary 400 title error on create and on `PUT`
    (task/views.py:45, :90);
  - on `PUT`, a truthy non-string title passes the check and
    `str(title).strip()` is stored (task/views.py:90, :106). For example,
    `5` is stored as "5";
  - on `PATCH`, any title goes through `str()` in the same way
    (task/views.py:93, :106). So `"title": null` stores the text "None";
  - on create, a truthy non-string title passes the check at
    task/views.py:45. When priority and status also pass, `title.strip()`
    at task/views.py:59 raises an uncaught error;
  - a description that is a number, boolean, array or object is saved
    in its `str()` form by the text column. The 201 or 200 answer echoes
    the raw JSON value, because `to_dict` reads the unsaved attribute, so
    a later `GET` answers differently;
  - a `null` description reaches `Task.objects.create` or `save` for a
    `TextField` that is not `null=True` (task/models.py:16). The database
    rejects it with an uncaught error.
- The `max_length` limits of the columns are not modelled. The views never
  check them, and the database layer is not part of this model.
- `created_at` is a logical clock that increases by one per created row,
  not a wall-clock timestamp. `isoformat()` is left out, and the record
  holds the clock value. So two rows never share a creation time.
- The human-readable choice labels ('Low', 'In Progress', ...) are not
  modelled. No view returns them.
- The ORM is a map from key to row. Transactions, concurrent requests and
  key reuse after delete are not modelled: keys only grow.
- A repeated query parameter is a single optional value (Django's `get`
  returns the last value).
- task/serializers.py and task/urls.py are not part of this model.
