/**
 * The `Task` record of task/models.py: its two fixed choice sets, their
 * defaults, the row itself, `to_dict` and `__str__`.
 */
module Models {
  import opened Wrappers

  /** `Task.PriorityChoices`, in declaration order. */
  datatype Priority = Low | Medium | High {
    /** The stored value (the first element of each choice pair). */
    function Value(): string {
      match this
      case Low => "LOW"
      case Medium => "MEDIUM"
      case High => "HIGH"
    }
  }

  /** `Task.StatusChoices`, in declaration order. */
  datatype Status = Pending | InProgress | Completed {
    function Value(): string {
      match this
      case Pending => "PENDING"
      case InProgress => "IN_PROGRESS"
      case Completed => "COMPLETED"
    }
  }

  const PriorityChoices: seq<Priority> := [Low, Medium, High]
  const StatusChoices: seq<Status> := [Pending, InProgress, Completed]

  /** Default of the `priority` column. */
  const DefaultPriority: Priority := Medium
  /** Default of the `status` column. */
  const DefaultStatus: Status := Pending

  /** `dict(Task.PriorityChoices.choices).keys()`, in order: the value of every choice and nothing else. */
  function PriorityValues(): (vs: seq<string>)
    ensures vs == ["LOW", "MEDIUM", "HIGH"]
  {
    var vs := seq(|PriorityChoices|, i requires 0 <= i < |PriorityChoices| => PriorityChoices[i].Value());
    assert vs[0] == "LOW" && vs[1] == "MEDIUM" && vs[2] == "HIGH";
    vs
  }

  /** `Task.StatusChoices.values`, in order: the value of every choice and nothing else. */
  function StatusValues(): (vs: seq<string>)
    ensures vs == ["PENDING", "IN_PROGRESS", "COMPLETED"]
  {
    var vs := seq(|StatusChoices|, i requires 0 <= i < |StatusChoices| => StatusChoices[i].Value());
    assert vs[0] == "PENDING" && vs[1] == "IN_PROGRESS" && vs[2] == "COMPLETED";
    vs
  }

  /** Membership in the priority choice set. */
  predicate IsPriority(v: string) {
    v in PriorityValues()
  }

  /** Membership in the status choice set. */
  predicate IsStatus(v: string) {
    v in StatusValues()
  }

  /** The priority choice set is exactly {LOW, MEDIUM, HIGH}, with distinct values. */
  lemma PriorityChoicesExact(v: string)
    ensures IsPriority(v) <==> exists p: Priority :: p.Value() == v
    ensures IsPriority(v) <==> v == "LOW" || v == "MEDIUM" || v == "HIGH"
    ensures forall p: Priority, q: Priority :: p.Value() == q.Value() ==> p == q
  {
    var vs := PriorityValues();
    if IsPriority(v) {
      var i :| 0 <= i < |vs| && vs[i] == v;
      assert PriorityChoices[i].Value() == v;
    }
  }

  /** The status choice set is exactly {PENDING, IN_PROGRESS, COMPLETED}, with distinct values. */
  lemma StatusChoicesExact(v: string)
    ensures IsStatus(v) <==> exists s: Status :: s.Value() == v
    ensures IsStatus(v) <==> v == "PENDING" || v == "IN_PROGRESS" || v == "COMPLETED"
    ensures forall s: Status, t: Status :: s.Value() == t.Value() ==> s == t
  {
    var vs := StatusValues();
    if IsStatus(v) {
      var i :| 0 <= i < |vs| && vs[i] == v;
      assert StatusChoices[i].Value() == v;
    }
  }

  /** The defaults are MEDIUM and PENDING, each a member of its own choice set. */
  lemma DefaultsAreChoices()
    ensures DefaultPriority.Value() == "MEDIUM" && IsPriority(DefaultPriority.Value())
    ensures DefaultStatus.Value() == "PENDING" && IsStatus(DefaultStatus.Value())
  {
    assert PriorityValues()[1] == "MEDIUM";
    assert StatusValues()[0] == "PENDING";
  }

  /**
   * One stored row. `priority` and `status` are the `CharField` strings;
   * `createdAt` is a logical clock reading taken once, when the row is created.
   */
  datatype Task = Task(
    id: nat,
    title: string,
    description: string,
    priority: string,
    status: string,
    createdAt: nat)

  /** A JSON value of a serialized task; `Stamp` stands for an ISO-8601 timestamp. */
  datatype Field = Int(n: int) | Text(s: string) | Stamp(t: nat)

  type Record = map<string, Field>

  /** The keys of `to_dict`. */
  const TaskKeys: set<string> := {"id", "title", "description", "priority", "status", "created_at"}

  /** `Task.to_dict`. */
  function ToDict(t: Task): Record {
    map[
      "id" := Int(t.id),
      "title" := Text(t.title),
      "description" := Text(t.description),
      "priority" := Text(t.priority),
      "status" := Text(t.status),
      "created_at" := Stamp(t.createdAt)]
  }

  /** Reads a serialized task back; `None` when a key is missing or extra, or a value has the wrong kind. */
  function FromDict(r: Record): Option<Task> {
    if && r.Keys == TaskKeys
       && r["id"].Int? && r["id"].n >= 0
       && r["title"].Text? && r["description"].Text?
       && r["priority"].Text? && r["status"].Text?
       && r["created_at"].Stamp?
    then
      Some(Task(r["id"].n, r["title"].s, r["description"].s,
                r["priority"].s, r["status"].s, r["created_at"].t))
    else
      None
  }

  /** `to_dict` has exactly the six keys, and each value echoes its field: the row reads back unchanged. */
  lemma DictRoundTrip(t: Task)
    ensures ToDict(t).Keys == TaskKeys
    ensures FromDict(ToDict(t)) == Some(t)
  {
  }

  /** Every record that reads back as a task is that task's `to_dict`. */
  lemma FromDictInverse(r: Record, t: Task)
    requires FromDict(r) == Some(t)
    ensures ToDict(t) == r
  {
    var d := ToDict(t);
    assert forall k :: k in r ==> d[k] == r[k];
  }

  /** `Task.__str__`: the title, a space, and the status in parentheses. */
  function Display(t: Task): string {
    t.title + " (" + t.status + ")"
  }

  /** Index of the last occurrence of `c` in `s`. */
  function LastIndex(s: string, c: char): (r: Option<nat>)
    ensures r.Some? ==> r.value < |s| && s[r.value] == c
    ensures r.Some? ==> forall j :: r.value < j < |s| ==> s[j] != c
    ensures r.None? ==> c !in s
    decreases |s|
  {
    if |s| == 0 then None
    else if s[|s| - 1] == c then Some(|s| - 1)
    else LastIndex(s[..|s| - 1], c)
  }

  /** Splits a `Display` string back into title and status at its last " (". */
  function ParseDisplay(s: string): Option<(string, string)> {
    if |s| < 3 || s[|s| - 1] != ')' then None
    else
      var inner := s[..|s| - 1];
      match LastIndex(inner, '(')
      case None => None
      case Some(i) =>
        if i == 0 || inner[i - 1] != ' ' then None
        else Some((inner[..i - 1], inner[i + 1..]))
  }

  /**
   * `__str__` loses nothing: when the status holds no '(' (every choice value
   * qualifies), title and status are recovered from the string, whatever the title holds.
   */
  lemma {:induction false} DisplayRoundTrip(t: Task)
    requires '(' !in t.status
    ensures ParseDisplay(Display(t)) == Some((t.title, t.status))
  {
    var s := Display(t);
    var inner := t.title + " (" + t.status;
    assert s[..|s| - 1] == inner;
    var i := |t.title| + 1;
    assert inner[i] == '(';
    assert inner[i + 1..] == t.status;
    assert forall j :: i < j < |inner| ==> inner[j] == t.status[j - i - 1];
    assert LastIndex(inner, '(') == Some(i);
    assert inner[..i - 1] == t.title;
  }

  /** No choice value holds a parenthesis, so `__str__` of any valid row round-trips. */
  lemma StatusValuesHaveNoParen(v: string)
    requires IsStatus(v)
    ensures '(' !in v
  {
    StatusChoicesExact(v);
  }
}
