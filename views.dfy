/**
 * The request handlers of task/views.py over an in-memory task table:
 * `tasks_list_create`, `task_detail` and `tasks_summary`.
 */
module Views {
  import opened Wrappers
  import opened Text
  import opened Models

  // ---------------------------------------------------------------------
  // Requests and responses
  // ---------------------------------------------------------------------

  /** `request.method`; `Other` stands only for names other than the five listed before it. */
  datatype Method = Get | Post | Put | Patch | Delete | Other(name: string)

  /** A decoded JSON object body: every field may be absent. An empty body decodes as `{}`. */
  datatype Payload = Payload(
    title: Option<string>,
    description: Option<string>,
    priority: Option<string>,
    status: Option<string>)

  /** The body of a write request: a JSON object, or text that is not valid JSON. */
  datatype RequestBody = Malformed | Json(payload: Payload)

  /** The query string of the collection `GET`. */
  datatype Query = Query(status: Option<string>, priority: Option<string>, ordering: Option<string>)

  /** What a handler answers with. */
  datatype Body =
    | Detail(message: string)
    | Entity(record: Record)
    | Entities(records: seq<Record>)
    | Counts(counts: map<string, nat>)
    | NotAllowed(allowed: seq<string>)

  datatype Response = Response(status: nat, body: Body)

  const InvalidJsonMessage := "Invalid JSON."
  const TitleRequiredMessage := "Title is required and cannot be empty."
  const FullUpdateTitleMessage := "Title is required for full update."
  const NotFoundMessage := "Task not found."
  const DeletedMessage := "Task deleted successfully."

  /** Python's `repr` of a list of strings that hold no quote or backslash: `['A', 'B']`. */
  function ListRepr(vs: seq<string>): string {
    "[" + QuotedItems(vs) + "]"
  }

  /** The items of `ListRepr`, each in single quotes, separated by ", ". */
  function QuotedItems(vs: seq<string>): string
    decreases |vs|
  {
    if vs == [] then ""
    else if |vs| == 1 then "'" + vs[0] + "'"
    else "'" + vs[0] + "', " + QuotedItems(vs[1..])
  }

  /** The choice errors list the allowed values as Python prints a list: `['LOW', 'MEDIUM', 'HIGH']`. */
  const InvalidPriorityMessage := "Invalid priority. Allowed: " + ListRepr(PriorityValues())
  const InvalidStatusMessage := "Invalid status. Allowed: " + ListRepr(StatusValues())

  /** `json_error`: a `{"detail": message}` body with the given status. */
  function JsonError(message: string, status: nat): Response
  {
    Response(status, Detail(message))
  }

  // ---------------------------------------------------------------------
  // Validation (pure)
  // ---------------------------------------------------------------------

  /** `not title or not str(title).strip()`: the title is absent, empty or whitespace only. */
  predicate TitleMissing(title: Option<string>) {
    title.None? || title.value == "" || IsBlank(title.value)
  }

  /** The fields of a row about to be created. */
  datatype Draft = Draft(title: string, description: string, priority: string, status: string)

  /**
   * The checks of the collection `POST`, in the order the handler runs them: title, then
   * priority, then status; omitted fields get `''`, MEDIUM and PENDING.
   */
  function ValidateCreate(p: Payload): (r: Result<Draft, string>)
    ensures TitleMissing(p.title) ==> r == Failure(TitleRequiredMessage)
    ensures !TitleMissing(p.title) && !IsPriority(p.priority.GetOr("MEDIUM"))
      ==> r == Failure(InvalidPriorityMessage)
    ensures !TitleMissing(p.title) && IsPriority(p.priority.GetOr("MEDIUM"))
      && !IsStatus(p.status.GetOr("PENDING"))
      ==> r == Failure(InvalidStatusMessage)
    ensures !TitleMissing(p.title) && IsPriority(p.priority.GetOr("MEDIUM"))
      && IsStatus(p.status.GetOr("PENDING"))
      ==> r.Success?
    ensures r.Success? ==>
      && p.title.Some?
      && r.value.title == Trim(p.title.value)
      && r.value.title != []
      && r.value.description == (if p.description.Some? then p.description.value else "")
      && r.value.priority == (if p.priority.Some? then p.priority.value else "MEDIUM")
      && r.value.status == (if p.status.Some? then p.status.value else "PENDING")
      && IsPriority(r.value.priority) && IsStatus(r.value.status)
  {
    if TitleMissing(p.title) then
      Failure(TitleRequiredMessage)
    else
      var description := p.description.GetOr("");
      var priority := p.priority.GetOr(DefaultPriority.Value());
      var status := p.status.GetOr(DefaultStatus.Value());
      if !IsPriority(priority) then
        Failure(InvalidPriorityMessage)
      else if !IsStatus(status) then
        Failure(InvalidStatusMessage)
      else
        TrimOfNonBlankIsNonBlank(p.title.value);
        Success(Draft(Trim(p.title.value), description, priority, status))
  }

  /** The collection `POST` body: JSON that does not parse is rejected before any field is read. */
  function ParseCreate(body: RequestBody): Result<Draft, string> {
    match body
    case Malformed => Failure(InvalidJsonMessage)
    case Json(p) => ValidateCreate(p)
  }

  /**
   * The merge of `PUT` (`full`) and `PATCH` over the stored row `t`: every
   * field takes the payload's value when present and the stored one
   * otherwise; `PUT` alone demands a non-blank title; priority is checked
   * before status; `id` and `createdAt` are never touched. `PATCH` strips
   * the title but does not re-check it, so a blank one is stored as "".
   */
  function MergeUpdate(t: Task, p: Payload, full: bool): (r: Result<Task, string>)
    ensures full && TitleMissing(p.title) ==> r == Failure(FullUpdateTitleMessage)
    ensures (!full || !TitleMissing(p.title)) && !IsPriority(p.priority.GetOr(t.priority))
      ==> r == Failure(InvalidPriorityMessage)
    ensures (!full || !TitleMissing(p.title)) && IsPriority(p.priority.GetOr(t.priority))
      && !IsStatus(p.status.GetOr(t.status))
      ==> r == Failure(InvalidStatusMessage)
    ensures (!full || !TitleMissing(p.title)) && IsPriority(p.priority.GetOr(t.priority))
      && IsStatus(p.status.GetOr(t.status))
      ==> r.Success?
    ensures r.Success? ==>
      && r.value.id == t.id && r.value.createdAt == t.createdAt
      && r.value.title == Trim(p.title.GetOr(t.title))
      && r.value.description == (if p.description.Some? then p.description.value else t.description)
      && r.value.priority == (if p.priority.Some? then p.priority.value else t.priority)
      && r.value.status == (if p.status.Some? then p.status.value else t.status)
      && IsPriority(r.value.priority) && IsStatus(r.value.status)
  {
    if full && TitleMissing(p.title) then
      Failure(FullUpdateTitleMessage)
    else
      var title := p.title.GetOr(t.title);
      var description := p.description.GetOr(t.description);
      var priority := p.priority.GetOr(t.priority);
      var status := p.status.GetOr(t.status);
      if !IsPriority(priority) then
        Failure(InvalidPriorityMessage)
      else if !IsStatus(status) then
        Failure(InvalidStatusMessage)
      else
        Success(t.(title := Trim(title), description := description,
                   priority := priority, status := status))
  }

  /**
   * The title a successful merge stores: stripped, the payload's when given
   * and the stored one (already stripped) otherwise, and never blank after `PUT`.
   */
  lemma MergedTitle(t: Task, p: Payload, full: bool)
    requires MergeUpdate(t, p, full).Success?
    ensures IsTrimmed(MergeUpdate(t, p, full).value.title)
    ensures p.title.Some? ==> MergeUpdate(t, p, full).value.title == Trim(p.title.value)
    ensures p.title.None? && IsTrimmed(t.title) ==> MergeUpdate(t, p, full).value.title == t.title
    ensures full ==> MergeUpdate(t, p, full).value.title != [] && !IsBlank(MergeUpdate(t, p, full).value.title)
  {
    var title := p.title.GetOr(t.title);
    if full {
      TrimOfNonBlankIsNonBlank(title);
    }
    if IsTrimmed(title) {
      TrimmedIsFixed(title);
    }
  }

  /** The `PUT`/`PATCH` body over the stored row: malformed JSON is rejected first. */
  function ParseUpdate(t: Task, body: RequestBody, full: bool): Result<Task, string> {
    match body
    case Malformed => Failure(InvalidJsonMessage)
    case Json(p) => MergeUpdate(t, p, full)
  }

  /** `PATCH` accepts a whitespace-only title and stores it as "", where `PUT` refuses it. */
  lemma PatchStoresBlankTitle(t: Task, title: string)
    requires IsBlank(title) && IsPriority(t.priority) && IsStatus(t.status)
    ensures MergeUpdate(t, Payload(Some(title), None, None, None), false) == Success(t.(title := ""))
    ensures MergeUpdate(t, Payload(Some(title), None, None, None), true) == Failure(FullUpdateTitleMessage)
  {
  }

  // ---------------------------------------------------------------------
  // Listing (pure specification)
  // ---------------------------------------------------------------------

  /** `if status_param:`: a filter applies only when given and non-empty. */
  predicate FilterApplies(f: Option<string>) {
    f.Some? && f.value != ""
  }

  /** The row passes both equality filters; an unknown value simply matches nothing. */
  predicate Selected(t: Task, q: Query) {
    && (FilterApplies(q.status) ==> t.status == q.status.value)
    && (FilterApplies(q.priority) ==> t.priority == q.priority.value)
  }

  /** The `order_by` argument: the `ordering` parameter when it is one of the two accepted values, else `-created_at`. */
  function OrderBy(ordering: Option<string>): (key: string)
    ensures key == "created_at" || key == "-created_at"
    ensures key == "created_at" <==> ordering == Some("created_at")
  {
    if ordering.Some? && ordering.value in ["created_at", "-created_at"] then ordering.value
    else "-created_at"
  }

  /** `a` comes strictly before `b` by creation time in the chosen direction. */
  predicate Before(a: Task, b: Task, ascending: bool) {
    if ascending then a.createdAt < b.createdAt else a.createdAt > b.createdAt
  }

  predicate InOrder(rows: seq<Task>, ascending: bool) {
    forall i, j :: 0 <= i < j < |rows| ==> Before(rows[i], rows[j], ascending)
  }

  /**
   * `rows` answers the collection `GET` for query `q`: exactly the stored
   * rows that pass the filters, ordered by creation time.
   */
  ghost predicate IsListing(tasks: map<nat, Task>, q: Query, rows: seq<Task>) {
    && Elements(rows) == Matching(tasks, q)
    && InOrder(rows, OrderBy(q.ordering) == "created_at")
  }

  ghost function Elements(rows: seq<Task>): set<Task> {
    set x | x in rows
  }

  /** The stored rows with a key below `bound` that pass the filters. */
  ghost function MatchingBelow(tasks: map<nat, Task>, q: Query, bound: nat): set<Task> {
    set id | id in tasks && id < bound && Selected(tasks[id], q) :: tasks[id]
  }

  /** The stored rows that pass the filters. */
  ghost function Matching(tasks: map<nat, Task>, q: Query): set<Task> {
    set id | id in tasks && Selected(tasks[id], q) :: tasks[id]
  }

  /** Two strictly ordered sequences with the same elements are equal. */
  lemma {:induction false} InOrderUnique(r1: seq<Task>, r2: seq<Task>, ascending: bool)
    requires InOrder(r1, ascending) && InOrder(r2, ascending)
    requires forall x :: x in r1 <==> x in r2
    ensures r1 == r2
    decreases |r1|
  {
    assert r1 != [] ==> r1[0] in r2;
    assert r2 != [] ==> r2[0] in r1;
    if r1 != [] {
      var a, b := r1[0], r2[0];
      assert a in r1 && b in r2;
      var i :| 0 <= i < |r1| && r1[i] == b;
      var j :| 0 <= j < |r2| && r2[j] == a;
      assert i > 0 ==> Before(a, b, ascending);
      assert j > 0 ==> Before(b, a, ascending);
      assert a == b;
      forall x
        ensures x in r1[1..] <==> x in r2[1..]
      {
        if x in r1[1..] {
          var k :| 1 <= k < |r1| && r1[k] == x;
          assert Before(a, x, ascending);
          assert x in r2;
          var n :| 0 <= n < |r2| && r2[n] == x;
          assert n != 0;
          assert r2[1..][n - 1] == x;
        }
        if x in r2[1..] {
          var k :| 1 <= k < |r2| && r2[k] == x;
          assert Before(b, x, ascending);
          assert x in r1;
          var n :| 0 <= n < |r1| && r1[n] == x;
          assert n != 0;
          assert r1[1..][n - 1] == x;
        }
      }
      InOrderUnique(r1[1..], r2[1..], ascending);
      assert r1 == [a] + r1[1..] && r2 == [b] + r2[1..];
    }
  }

  /** The answer to a listing query is determined by the table and the query. */
  lemma ListingUnique(tasks: map<nat, Task>, q: Query, r1: seq<Task>, r2: seq<Task>)
    requires IsListing(tasks, q, r1) && IsListing(tasks, q, r2)
    ensures r1 == r2
  {
    forall x
      ensures x in r1 <==> x in r2
    {
      assert x in r1 <==> x in Elements(r1);
      assert x in r2 <==> x in Elements(r2);
    }
    InOrderUnique(r1, r2, OrderBy(q.ordering) == "created_at");
  }

  /** `[t.to_dict() for t in qs]`: one record per row, each reading back as that row. */
  function Records(rows: seq<Task>): (r: seq<Record>)
    ensures |r| == |rows|
    ensures forall i :: 0 <= i < |r| ==> r[i].Keys == TaskKeys && FromDict(r[i]) == Some(rows[i])
  {
    forall t | t in rows
      ensures ToDict(t).Keys == TaskKeys && FromDict(ToDict(t)) == Some(t)
    {
      DictRoundTrip(t);
    }
    seq(|rows|, i requires 0 <= i < |rows| => ToDict(rows[i]))
  }

  // ---------------------------------------------------------------------
  // Status summary (pure specification)
  // ---------------------------------------------------------------------

  /** The distinct statuses stored in the table. */
  function StatusesOf(tasks: map<nat, Task>): set<string> {
    set id | id in tasks :: tasks[id].status
  }

  /** The keys of the stored rows whose status is `s`. */
  function IdsWithStatus(tasks: map<nat, Task>, s: string): set<nat> {
    set id | id in tasks && tasks[id].status == s
  }

  /** Each row is counted under one status only: the groups of distinct statuses share no key. */
  lemma StatusGroupsDisjoint(tasks: map<nat, Task>, s1: string, s2: string)
    requires s1 != s2
    ensures IdsWithStatus(tasks, s1) !! IdsWithStatus(tasks, s2)
  {
  }

  /** The number of stored rows whose status is `s`. */
  function CountWithStatus(tasks: map<nat, Task>, s: string): nat {
    |IdsWithStatus(tasks, s)|
  }

  /**
   * `values('status').annotate(count=Count('id'))` read into a dict: one
   * entry per status present in the table, never a zero count.
   */
  function GroupByStatus(tasks: map<nat, Task>): (r: map<string, nat>)
    ensures r.Keys == StatusesOf(tasks)
    ensures forall s :: s in r ==> r[s] == CountWithStatus(tasks, s) && r[s] > 0
  {
    forall s | s in StatusesOf(tasks)
      ensures CountWithStatus(tasks, s) > 0
    {
      var id :| id in tasks && tasks[id].status == s;
      assert id in IdsWithStatus(tasks, s);
    }
    map s | s in StatusesOf(tasks) :: CountWithStatus(tasks, s)
  }

  /** A status no row holds has count zero. */
  lemma CountOfAbsentStatus(tasks: map<nat, Task>, s: string)
    requires s !in StatusesOf(tasks)
    ensures CountWithStatus(tasks, s) == 0
  {
    forall id | id in tasks
      ensures tasks[id].status != s
    {
      assert tasks[id].status in StatusesOf(tasks);
    }
    assert IdsWithStatus(tasks, s) == {};
  }

  /** When every stored status is a choice, the three status counts add up to the table size. */
  lemma StatusCountsCoverTable(tasks: map<nat, Task>)
    requires forall id :: id in tasks ==> IsStatus(tasks[id].status)
    ensures CountWithStatus(tasks, "PENDING") + CountWithStatus(tasks, "IN_PROGRESS")
            + CountWithStatus(tasks, "COMPLETED") == |tasks|
  {
    var a := IdsWithStatus(tasks, "PENDING");
    var b := IdsWithStatus(tasks, "IN_PROGRESS");
    var c := IdsWithStatus(tasks, "COMPLETED");
    var ab := a + b;
    StatusGroupsDisjoint(tasks, "PENDING", "IN_PROGRESS");
    StatusGroupsDisjoint(tasks, "PENDING", "COMPLETED");
    StatusGroupsDisjoint(tasks, "IN_PROGRESS", "COMPLETED");
    assert |ab| == |a| + |b|;
    assert |ab + c| == |ab| + |c|;
    forall id | id in tasks
      ensures id in ab + c
    {
      StatusChoicesExact(tasks[id].status);
    }
    assert forall id :: id in ab + c <==> id in tasks.Keys;
    assert ab + c == tasks.Keys;
    assert |tasks.Keys| == |tasks|;
  }

  /**
   * The scan of keys below `id` has produced `rows`: exactly the stored rows
   * with a smaller key that pass the filters, in order.
   */
  ghost predicate ScannedBelow(tasks: map<nat, Task>, q: Query, rows: seq<Task>, id: nat, ascending: bool) {
    Elements(rows) == MatchingBelow(tasks, q, id) && InOrder(rows, ascending)
  }

  /** Adding a row created after every listed one keeps the listing in order, at either end. */
  lemma ExtendInOrder(rows: seq<Task>, t: Task, ascending: bool)
    requires InOrder(rows, ascending)
    requires forall x :: x in rows ==> x.createdAt < t.createdAt
    ensures InOrder(if ascending then rows + [t] else [t] + rows, ascending)
  {
    var next := if ascending then rows + [t] else [t] + rows;
    if ascending {
      assert forall k :: 0 <= k < |rows| ==> next[k] == rows[k];
    } else {
      assert forall k :: 1 <= k < |next| ==> next[k] == rows[k - 1];
    }
  }

  /**
   * One step of the scan in key order: the row with key `id`, when it passes
   * the filters, joins the listing at the end that keeps it in order, since
   * it was created after every row already listed.
   */
  lemma ScanStep(tasks: map<nat, Task>, q: Query, rows: seq<Task>, id: nat, ascending: bool)
    requires ScannedBelow(tasks, q, rows, id, ascending)
    requires forall a, b :: a in tasks && b in tasks && a < b ==> tasks[a].createdAt < tasks[b].createdAt
    ensures ScannedBelow(tasks, q,
      if id in tasks && Selected(tasks[id], q) then
        (if ascending then rows + [tasks[id]] else [tasks[id]] + rows)
      else rows,
      id + 1, ascending)
  {
    if id in tasks && Selected(tasks[id], q) {
      var t := tasks[id];
      forall x | x in rows
        ensures x.createdAt < t.createdAt
      {
        assert x in Elements(rows);
        var k :| k in tasks && k < id && Selected(tasks[k], q) && tasks[k] == x;
      }
      ExtendInOrder(rows, t, ascending);
      var next := if ascending then rows + [t] else [t] + rows;
      assert Elements(next) == Elements(rows) + {t};
      assert MatchingBelow(tasks, q, id + 1) == MatchingBelow(tasks, q, id) + {t};
    } else {
      assert MatchingBelow(tasks, q, id + 1) == MatchingBelow(tasks, q, id);
    }
  }

  /** A scan of every key below `nextId`, above all keys, lists the whole query answer. */
  lemma ScanComplete(tasks: map<nat, Task>, q: Query, rows: seq<Task>, nextId: nat, ascending: bool)
    requires ScannedBelow(tasks, q, rows, nextId, ascending)
    requires forall id :: id in tasks ==> id < nextId
    requires ascending == (OrderBy(q.ordering) == "created_at")
    ensures IsListing(tasks, q, rows)
  {
    assert MatchingBelow(tasks, q, nextId) == Matching(tasks, q);
  }

  // ---------------------------------------------------------------------
  // The `Task` table and the handlers
  // ---------------------------------------------------------------------

  /** What every stored row satisfies. */
  ghost predicate RowOk(t: Task, id: nat, nextId: nat, clock: nat) {
    && t.id == id && id < nextId && t.createdAt < clock
    && IsTrimmed(t.title) && IsPriority(t.priority) && IsStatus(t.status)
  }

  /**
   * Each row is filed under its own id, ids are below the next id to hand
   * out, timestamps below the clock, and creation order is id order.
   */
  ghost predicate WellFormed(tasks: map<nat, Task>, nextId: nat, clock: nat) {
    && (forall id :: id in tasks ==> RowOk(tasks[id], id, nextId, clock))
    && (forall a, b :: a in tasks && b in tasks && a < b ==> tasks[a].createdAt < tasks[b].createdAt)
  }

  /** In a well-formed table every stored status is a choice value, so the summary keys are the three choices. */
  lemma StoredStatusesAreChoices(tasks: map<nat, Task>, nextId: nat, clock: nat)
    requires WellFormed(tasks, nextId, clock)
    ensures forall s :: s in StatusesOf(tasks) ==> s in StatusValues()
  {
    forall s | s in StatusesOf(tasks)
      ensures s in StatusValues()
    {
      var id :| id in tasks && tasks[id].status == s;
      assert RowOk(tasks[id], id, nextId, clock);
    }
  }

  /** Creating a row under the next key at the current clock keeps the table well formed; the key is fresh. */
  lemma CreateKeepsWellFormed(tasks: map<nat, Task>, nextId: nat, clock: nat, t: Task)
    requires WellFormed(tasks, nextId, clock)
    requires RowOk(t, nextId, nextId + 1, clock + 1) && t.createdAt == clock
    ensures nextId !in tasks
    ensures WellFormed(tasks[nextId := t], nextId + 1, clock + 1)
  {
    var tasks' := tasks[nextId := t];
    forall id | id in tasks'
      ensures RowOk(tasks'[id], id, nextId + 1, clock + 1)
    {
      if id != nextId {
        assert RowOk(tasks[id], id, nextId, clock);
      }
    }
    forall a, b | a in tasks' && b in tasks' && a < b
      ensures tasks'[a].createdAt < tasks'[b].createdAt
    {
      if b == nextId {
        assert RowOk(tasks[a], a, nextId, clock);
      } else {
        assert a in tasks && b in tasks;
      }
    }
  }

  /** Saving a row over its own key, keeping its key and creation time, keeps the table well formed. */
  lemma ReplaceKeepsWellFormed(tasks: map<nat, Task>, nextId: nat, clock: nat, pk: nat, t: Task)
    requires WellFormed(tasks, nextId, clock) && pk in tasks
    requires RowOk(t, pk, nextId, clock) && t.createdAt == tasks[pk].createdAt
    ensures WellFormed(tasks[pk := t], nextId, clock)
  {
    var tasks' := tasks[pk := t];
    forall id | id in tasks'
      ensures RowOk(tasks'[id], id, nextId, clock)
    {
      if id != pk {
        assert tasks'[id] == tasks[id];
        assert RowOk(tasks[id], id, nextId, clock);
      }
    }
    forall a, b | a in tasks' && b in tasks' && a < b
      ensures tasks'[a].createdAt < tasks'[b].createdAt
    {
      assert a in tasks && b in tasks;
      assert tasks'[a].createdAt == tasks[a].createdAt by {
        if a != pk { assert tasks'[a] == tasks[a]; }
      }
      assert tasks'[b].createdAt == tasks[b].createdAt by {
        if b != pk { assert tasks'[b] == tasks[b]; }
      }
    }
  }

  /** A body the collection `POST` accepts yields a row fit to be stored under the next key at the current clock. */
  lemma DraftFitsRow(body: RequestBody, nextId: nat, clock: nat)
    requires ParseCreate(body).Success?
    ensures var d := ParseCreate(body).value;
      RowOk(Task(nextId, d.title, d.description, d.priority, d.status, clock), nextId, nextId + 1, clock + 1)
  {
  }

  /** A successful `PUT`/`PATCH` over a stored row yields a row fit to be stored under the same key. */
  lemma MergeKeepsRowOk(t: Task, body: RequestBody, full: bool, pk: nat, nextId: nat, clock: nat)
    requires RowOk(t, pk, nextId, clock) && ParseUpdate(t, body, full).Success?
    ensures RowOk(ParseUpdate(t, body, full).value, pk, nextId, clock)
    ensures ParseUpdate(t, body, full).value.createdAt == t.createdAt
  {
    MergedTitle(t, body.payload, full);
  }

  /** Deleting a row keeps the table well formed. */
  lemma RemoveKeepsWellFormed(tasks: map<nat, Task>, nextId: nat, clock: nat, pk: nat)
    requires WellFormed(tasks, nextId, clock)
    ensures WellFormed(tasks - {pk}, nextId, clock)
  {
  }

  /** The `Task` table: rows by primary key, the next key to assign, and the clock for `created_at`. */
  class TaskStore {
    var tasks: map<nat, Task>
    var nextId: nat
    var clock: nat

    ghost predicate Valid()
      reads this
    {
      WellFormed(tasks, nextId, clock)
    }

    /** An empty table; keys start at 1. */
    constructor ()
      ensures Valid()
      ensures tasks == map[] && nextId == 1 && clock == 0
    {
      tasks := map[];
      nextId := 1;
      clock := 0;
    }

    /** The filtered, ordered query of the collection `GET`, read row by row. */
    method ListTasks(q: Query) returns (rows: seq<Task>)
      requires Valid()
      ensures IsListing(tasks, q, rows)
    {
      var ascending := OrderBy(q.ordering) == "created_at";
      rows := [];
      var id := 0;
      assert MatchingBelow(tasks, q, 0) == {};
      while id < nextId
        invariant id <= nextId
        invariant ScannedBelow(tasks, q, rows, id, ascending)
      {
        ScanStep(tasks, q, rows, id, ascending);
        if id in tasks && Selected(tasks[id], q) {
          rows := if ascending then rows + [tasks[id]] else [tasks[id]] + rows;
        }
        id := id + 1;
      }
      ScanComplete(tasks, q, rows, nextId, ascending);
    }

    /** `tasks_list_create`: `GET` lists, `POST` validates and creates, anything else is 405. */
    method TasksListCreate(m: Method, q: Query, body: RequestBody) returns (resp: Response)
      requires Valid()
      modifies this
      ensures Valid()
      ensures m.Get? ==>
        && unchanged(this)
        && resp.status == 200 && resp.body.Entities?
        && exists rows :: IsListing(tasks, q, rows) && resp.body.records == Records(rows)
      ensures m.Post? ==> CreatedFrom(body, resp)
      ensures !m.Get? && !m.Post? ==>
        resp == Response(405, NotAllowed(["GET", "POST"])) && unchanged(this)
    {
      match m
      case Get =>
        var rows := ListTasks(q);
        resp := Response(200, Entities(Records(rows)));
      case Post =>
        resp := Create(body);
      case _ =>
        resp := Response(405, NotAllowed(["GET", "POST"]));
    }

    /**
     * The effect of the collection `POST`: a body that fails validation is
     * answered with 400 and its message and changes nothing; otherwise a row
     * with a fresh key and the current clock is added, nothing else changes,
     * and the row is answered with 201.
     */
    twostate predicate CreatedFrom(body: RequestBody, resp: Response)
      reads this
    {
      match ParseCreate(body)
      case Failure(msg) =>
        && resp == JsonError(msg, 400)
        && tasks == old(tasks) && nextId == old(nextId) && clock == old(clock)
      case Success(d) =>
        var t := Task(old(nextId), d.title, d.description, d.priority, d.status, old(clock));
        && old(nextId) !in old(tasks)
        && tasks == old(tasks)[old(nextId) := t]
        && nextId == old(nextId) + 1 && clock == old(clock) + 1
        && resp == Response(201, Entity(ToDict(t)))
    }

    /** The `POST` branch of `tasks_list_create`: validate, then `Task.objects.create`. */
    method Create(body: RequestBody) returns (resp: Response)
      requires Valid()
      modifies this
      ensures CreatedFrom(body, resp)
      ensures Valid()
    {
      match ParseCreate(body)
      case Failure(msg) =>
        resp := JsonError(msg, 400);
      case Success(d) =>
        DraftFitsRow(body, nextId, clock);
        var t := Insert(d);
        resp := Response(201, Entity(ToDict(t)));
    }

    /** `Task.objects.create`: file a new row under the next key, stamped with the current clock. */
    method Insert(d: Draft) returns (t: Task)
      requires Valid()
      requires RowOk(Task(nextId, d.title, d.description, d.priority, d.status, clock), nextId, nextId + 1, clock + 1)
      modifies this
      ensures t == Task(old(nextId), d.title, d.description, d.priority, d.status, old(clock))
      ensures old(nextId) !in old(tasks) && tasks == old(tasks)[old(nextId) := t]
      ensures nextId == old(nextId) + 1 && clock == old(clock) + 1
      ensures Valid()
    {
      t := Task(nextId, d.title, d.description, d.priority, d.status, clock);
      CreateKeepsWellFormed(tasks, nextId, clock, t);
      tasks, nextId, clock := tasks[nextId := t], nextId + 1, clock + 1;
    }

    /**
     * `task_detail`: the row is looked up first, so an unknown id is 404
     * whatever the method; then `GET` reads, `PUT`/`PATCH` merge, validate
     * and save, `DELETE` removes, anything else is 405.
     */
    method TaskDetail(m: Method, pk: nat, body: RequestBody) returns (resp: Response)
      requires Valid()
      modifies this
      ensures Valid()
      ensures pk !in old(tasks) ==> resp == JsonError(NotFoundMessage, 404) && unchanged(this)
      ensures pk in old(tasks) && m.Get? ==>
        resp == Response(200, Entity(ToDict(old(tasks)[pk]))) && unchanged(this)
      ensures pk in old(tasks) && (m.Put? || m.Patch?) ==> UpdatedFrom(pk, body, m.Put?, resp)
      ensures pk in old(tasks) && m.Delete? ==>
        && tasks == old(tasks) - {pk}
        && nextId == old(nextId) && clock == old(clock)
        && resp == Response(204, Detail(DeletedMessage))
      ensures pk in old(tasks) && !(m.Get? || m.Put? || m.Patch? || m.Delete?) ==>
        resp == Response(405, NotAllowed(["GET", "PUT", "PATCH", "DELETE"])) && unchanged(this)
    {
      if pk !in tasks {
        return JsonError(NotFoundMessage, 404);
      }
      var task := tasks[pk];
      match m
      case Get =>
        resp := Response(200, Entity(ToDict(task)));
      case Put =>
        resp := Update(pk, body, true);
      case Patch =>
        resp := Update(pk, body, false);
      case Delete =>
        RemoveKeepsWellFormed(tasks, nextId, clock, pk);
        tasks := tasks - {pk};
        resp := Response(204, Detail(DeletedMessage));
      case _ =>
        resp := Response(405, NotAllowed(["GET", "PUT", "PATCH", "DELETE"]));
    }

    /**
     * The effect of `PUT` (`full`) or `PATCH` on the stored row `pk`: a body
     * that fails validation is answered with 400 and its message and
     * changes nothing; otherwise only row `pk` is replaced, by the merge,
     * and the merged row is answered with 200.
     */
    twostate predicate UpdatedFrom(pk: nat, body: RequestBody, full: bool, resp: Response)
      reads this
    {
      && pk in old(tasks)
      && match ParseUpdate(old(tasks)[pk], body, full)
         case Failure(msg) =>
           && resp == JsonError(msg, 400)
           && tasks == old(tasks) && nextId == old(nextId) && clock == old(clock)
         case Success(t) =>
           && tasks == old(tasks)[pk := t]
           && nextId == old(nextId) && clock == old(clock)
           && resp == Response(200, Entity(ToDict(t)))
    }

    /** The `PUT`/`PATCH` branch of `task_detail`: validate, then write the merged row back. */
    method Update(pk: nat, body: RequestBody, full: bool) returns (resp: Response)
      requires Valid() && pk in tasks
      modifies this
      ensures Valid()
      ensures UpdatedFrom(pk, body, full, resp)
    {
      match ParseUpdate(tasks[pk], body, full)
      case Failure(msg) =>
        resp := JsonError(msg, 400);
      case Success(t) =>
        MergeKeepsRowOk(tasks[pk], body, full, pk, nextId, clock);
        ReplaceKeepsWellFormed(tasks, nextId, clock, pk, t);
        tasks := tasks[pk := t];
        resp := Response(200, Entity(ToDict(t)));
    }

    /**
     * `tasks_summary`: the grouped counts, then every status choice that
     * is missing added with count 0.
     */
    method TasksSummary(m: Method) returns (resp: Response)
      requires Valid()
      ensures !m.Get? ==> resp == Response(405, NotAllowed(["GET"]))
      ensures m.Get? ==> resp.status == 200 && resp.body.Counts?
      ensures m.Get? ==> forall s :: s in resp.body.counts <==> s in StatusesOf(tasks) || s in StatusValues()
      ensures m.Get? ==> forall s :: s in resp.body.counts ==> resp.body.counts[s] == CountWithStatus(tasks, s)
      ensures m.Get? ==> resp.body.counts.Keys == set s | s in StatusValues()
    {
      if !m.Get? {
        return Response(405, NotAllowed(["GET"]));
      }
      var data := GroupByStatus(tasks);
      var choices := StatusValues();
      var i := 0;
      while i < |choices|
        invariant i <= |choices|
        invariant forall s :: s in data <==> s in StatusesOf(tasks) || s in choices[..i]
        invariant forall s :: s in data ==> data[s] == CountWithStatus(tasks, s)
      {
        if choices[i] !in data {
          CountOfAbsentStatus(tasks, choices[i]);
          data := data[choices[i] := 0];
        }
        assert choices[..i + 1] == choices[..i] + [choices[i]];
        i := i + 1;
      }
      assert choices[..i] == choices;
      StoredStatusesAreChoices(tasks, nextId, clock);
      resp := Response(200, Counts(data));
    }
  }
}
