/** The task store the chat servers share: the JSON file `data/dashboard-data.json`
    with its `tasks`, `projects` and `workLog` arrays. The handlers read the file,
    change the parsed object in place and write it back; here the file is a
    `DataFile` object whose sequence fields the handlers' methods reassign, and
    `Store` is its value. */
module TaskData {
  import opened Text

  /** A task as the chat servers write it. */
  datatype Task = Task(
    id: string,
    title: string,
    description: string,
    status: string,
    priority: string,
    assignee: string,
    created: string,
    updated: string)

  /** The project fields the handlers read or write. The progress endpoint stores
      whatever JSON value the request carries (a whole or fractional number, a
      string, `null`), and the only reader prints it into a template literal, so
      `progress` is the text that value prints as. */
  datatype Project = Project(
    id: string,
    name: string,
    status: string,
    progress: string,
    current: string,
    updated: string)

  /** A work-log entry; `kind` is the JSON field `type`. */
  datatype LogEntry = LogEntry(id: string, text: string, kind: string, timestamp: string)

  /** The content of the data file; `present` is false when there is no file yet. A
      missing file reads as empty arrays (`data.tasks || []`). */
  datatype Store = Store(present: bool, tasks: seq<Task>, projects: seq<Project>, workLog: seq<LogEntry>)
  {
    ghost predicate Valid() {
      !present ==> tasks == [] && projects == [] && workLog == []
    }
  }

  /** What one handler call answers and the store it leaves. */
  datatype Outcome = Outcome(reply: string, store: Store)

  /** The task a voice command creates: pending, medium priority, assigned to Jarvis. */
  function VoiceTask(id: string, title: string, now: string): Task {
    Task(id, title, "Created via voice", "pending", "medium", "Jarvis", now, now)
  }

  /** The work-log entry that records a voice-created task. */
  function VoiceCreationEntry(id: string, title: string, now: string): LogEntry {
    LogEntry(id, "Voice: Created task \"" + title + "\"", "task", now)
  }

  /** The store after `tasks.unshift(t)` and `workLog.unshift(e)`; writing it
      creates the file. */
  function WithNewTask(s: Store, t: Task, e: LogEntry): (r: Store)
    ensures r.present && |r.tasks| == |s.tasks| + 1 && r.tasks[0] == t
    ensures r.tasks[1..] == s.tasks && r.workLog == [e] + s.workLog && r.projects == s.projects
  {
    Store(true, [t] + s.tasks, s.projects, [e] + s.workLog)
  }

  /** The store after `workLog.unshift(e)`. */
  function WithLogEntry(s: Store, e: LogEntry): (r: Store)
    ensures r.present && r.workLog == [e] + s.workLog && r.tasks == s.tasks && r.projects == s.projects
  {
    Store(true, s.tasks, s.projects, [e] + s.workLog)
  }

  // ---------------------------------------------------------------------------
  // Finding a task by a fragment of its title

  /** A title matches a fragment when, ignoring case, either one contains the other. */
  predicate TitleMatches(title: string, fragment: string) {
    Contains(Lower(title), Lower(fragment)) || Contains(Lower(fragment), Lower(title))
  }

  /** The index of the first task, in store order, whose title matches `fragment`. */
  function FirstTitleMatch(tasks: seq<Task>, fragment: string): (r: Option<nat>)
    ensures r.Some? ==> r.value < |tasks| && TitleMatches(tasks[r.value].title, fragment)
    ensures r.Some? ==> forall j :: 0 <= j < r.value ==> !TitleMatches(tasks[j].title, fragment)
    ensures r.None? ==> forall j :: 0 <= j < |tasks| ==> !TitleMatches(tasks[j].title, fragment)
  {
    if tasks == [] then None
    else if TitleMatches(tasks[0].title, fragment) then Some(0)
    else match FirstTitleMatch(tasks[1..], fragment)
      case None => None
      case Some(k) => Some(k + 1)
  }

  /** Every title contains the empty string, so an empty fragment picks the first task. */
  lemma EmptyFragmentPicksFirst(tasks: seq<Task>)
    requires tasks != []
    ensures FirstTitleMatch(tasks, "") == Some(0)
  {
    assert OccursAt(Lower(tasks[0].title), Lower(""), 0);
  }

  /** A task whose lower-cased title is the lower-cased fragment is found, at its
      own index when no earlier title matches. */
  lemma SameTitleFound(tasks: seq<Task>, k: nat, fragment: string)
    requires k < |tasks| && Lower(tasks[k].title) == Lower(fragment)
    ensures FirstTitleMatch(tasks, fragment).Some?
    ensures FirstTitleMatch(tasks, fragment).value <= k
  {
    assert OccursAt(Lower(tasks[k].title), Lower(fragment), 0);
  }

  /** `task.status = status; task.updated = now` on the task at index `k`. */
  function WithStatusAt(tasks: seq<Task>, k: nat, status: string, now: string): (r: seq<Task>)
    requires k < |tasks|
    ensures |r| == |tasks| && r[k].status == status && r[k].updated == now
    ensures r[k] == tasks[k].(status := status, updated := now)
    ensures forall j :: 0 <= j < |tasks| && j != k ==> r[j] == tasks[j]
  {
    tasks[k := tasks[k].(status := status, updated := now)]
  }

  /** The tasks after the first task matching `fragment` got `status`; without a
      match they are unchanged. */
  function WithMatchStatus(tasks: seq<Task>, fragment: string, status: string, now: string): seq<Task> {
    match FirstTitleMatch(tasks, fragment)
    case None => tasks
    case Some(k) => WithStatusAt(tasks, k, status, now)
  }

  /** Only the selected task changes, only in `status` and `updated`; every other
      task, and the order of all of them, stay as they were. */
  lemma WithMatchStatusChangesOnlyMatch(tasks: seq<Task>, fragment: string, status: string, now: string)
    ensures |WithMatchStatus(tasks, fragment, status, now)| == |tasks|
    ensures FirstTitleMatch(tasks, fragment).None? ==> WithMatchStatus(tasks, fragment, status, now) == tasks
    ensures forall j :: 0 <= j < |tasks| && Some(j) != FirstTitleMatch(tasks, fragment) ==>
      WithMatchStatus(tasks, fragment, status, now)[j] == tasks[j]
    ensures FirstTitleMatch(tasks, fragment).Some? ==>
      var k := FirstTitleMatch(tasks, fragment).value;
      WithMatchStatus(tasks, fragment, status, now)[k] == tasks[k].(status := status, updated := now)
  {
  }

  /** The titles of the first `n` tasks, in store order. */
  function LeadingTitles(tasks: seq<Task>, n: nat): (r: seq<string>)
    ensures |r| <= n && |r| <= |tasks|
    ensures |r| == if |tasks| < n then |tasks| else n
    ensures forall j :: 0 <= j < |r| ==> r[j] == tasks[j].title
  {
    if tasks == [] || n == 0 then [] else [tasks[0].title] + LeadingTitles(tasks[1..], n - 1)
  }

  /** Each title wrapped in double quotes (`"${t.title}"`). */
  function Quoted(titles: seq<string>): (r: seq<string>)
    ensures |r| == |titles| && forall j :: 0 <= j < |r| ==> r[j] == "\"" + titles[j] + "\""
  {
    if titles == [] then [] else ["\"" + titles[0] + "\""] + Quoted(titles[1..])
  }

  /** The tasks with the given status, in store order. */
  function WithStatus(tasks: seq<Task>, status: string): (r: seq<Task>)
    ensures |r| <= |tasks|
    ensures forall i | 0 <= i < |r| :: r[i].status == status
    ensures forall t :: t in r <==> t in tasks && t.status == status
  {
    if tasks == [] then []
    else if tasks[0].status == status then [tasks[0]] + WithStatus(tasks[1..], status)
    else WithStatus(tasks[1..], status)
  }

  /** Some task has the status exactly when the selection is not empty. */
  lemma {:induction false} WithStatusNonEmpty(tasks: seq<Task>, status: string)
    ensures WithStatus(tasks, status) != [] <==> exists k | 0 <= k < |tasks| :: tasks[k].status == status
  {
    if tasks != [] && tasks[0].status != status {
      WithStatusNonEmpty(tasks[1..], status);
      if exists k | 0 <= k < |tasks| :: tasks[k].status == status {
        var k :| 0 <= k < |tasks| && tasks[k].status == status;
        assert tasks[1..][k - 1].status == status;
      }
    }
  }

  /** The first task with a status is the first one, in store order, that has it. */
  lemma {:induction false} WithStatusHead(tasks: seq<Task>, status: string)
    ensures WithStatus(tasks, status) != [] ==>
      exists k | 0 <= k < |tasks| :: WithStatus(tasks, status)[0] == tasks[k] &&
        forall j | 0 <= j < k :: tasks[j].status != status
  {
    if tasks != [] && tasks[0].status != status {
      var rest := tasks[1..];
      assert WithStatus(tasks, status) == WithStatus(rest, status);
      WithStatusHead(rest, status);
      if WithStatus(rest, status) != [] {
        var k :| 0 <= k < |rest| && WithStatus(rest, status)[0] == rest[k] &&
          forall j | 0 <= j < k :: rest[j].status != status;
        forall j | 0 <= j < k + 1 ensures tasks[j].status != status {
          if j > 0 {
            assert tasks[j] == rest[j - 1];
          }
        }
        assert WithStatus(tasks, status)[0] == tasks[k + 1];
      }
    } else if tasks != [] {
      assert WithStatus(tasks, status)[0] == tasks[0];
    }
  }

  /** Tasks of two different statuses never number more than all tasks. */
  lemma {:induction false} WithStatusDisjoint(tasks: seq<Task>, a: string, b: string)
    requires a != b
    ensures |WithStatus(tasks, a)| + |WithStatus(tasks, b)| <= |tasks|
  {
    if tasks != [] {
      WithStatusDisjoint(tasks[1..], a, b);
    }
  }

  // ---------------------------------------------------------------------------
  // Projects

  /** The index of the first project whose id is `id`. */
  function FirstProjectWithId(projects: seq<Project>, id: string): (r: Option<nat>)
    ensures r.Some? ==> r.value < |projects| && projects[r.value].id == id
    ensures r.Some? ==> forall j :: 0 <= j < r.value ==> projects[j].id != id
    ensures r.None? ==> forall j :: 0 <= j < |projects| ==> projects[j].id != id
  {
    if projects == [] then None
    else if projects[0].id == id then Some(0)
    else match FirstProjectWithId(projects[1..], id)
      case None => None
      case Some(k) => Some(k + 1)
  }

  /** The field updates of the progress endpoint: `progress` when it was supplied,
      `current` and `status` when they were supplied and non-empty, `updated` always. */
  function ApplyProgress(p: Project, progress: Option<string>, current: Option<string>,
                         status: Option<string>, now: string): (r: Project)
    ensures r.id == p.id && r.name == p.name && r.updated == now
    ensures r.progress == (if progress.Some? then progress.value else p.progress)
    ensures r.current == (if current.Some? && current.value != "" then current.value else p.current)
    ensures r.status == (if status.Some? && status.value != "" then status.value else p.status)
  {
    var p1 := if progress.Some? then p.(progress := progress.value) else p;
    var p2 := if current.Some? && current.value != "" then p1.(current := current.value) else p1;
    var p3 := if status.Some? && status.value != "" then p2.(status := status.value) else p2;
    p3.(updated := now)
  }

  /** The data file on disk. The handlers reassign its arrays as JavaScript's
      `unshift` and field assignments change the parsed object. */
  class DataFile {
    var present: bool
    var tasks: seq<Task>
    var projects: seq<Project>
    var workLog: seq<LogEntry>

    function Value(): Store
      reads this
    {
      Store(present, tasks, projects, workLog)
    }

    ghost predicate Valid()
      reads this
    {
      Value().Valid()
    }

    /** A data file with the given content. */
    constructor (s: Store)
      requires s.Valid()
      ensures Valid() && Value() == s
    {
      present, tasks, projects, workLog := s.present, s.tasks, s.projects, s.workLog;
    }

    /** `data.tasks.unshift(t); data.workLog.unshift(e);` and the write-back. */
    method PrependTask(t: Task, e: LogEntry)
      requires Valid()
      modifies this
      ensures Valid() && Value() == WithNewTask(old(Value()), t, e)
    {
      tasks := [t] + tasks;
      workLog := [e] + workLog;
      present := true;
    }

    /** `data.workLog.unshift(e)` and the write-back. */
    method PrependLogEntry(e: LogEntry)
      requires Valid()
      modifies this
      ensures Valid() && Value() == WithLogEntry(old(Value()), e)
    {
      workLog := [e] + workLog;
      present := true;
    }

    /** The `tasks.find(...)` lookup and, on a hit, `task.status = status;
        task.updated = now;` with the write-back. Returns the index that changed. */
    method SetMatchStatus(fragment: string, status: string, now: string) returns (k: Option<nat>)
      requires Valid()
      modifies this
      ensures Valid() && k == FirstTitleMatch(old(tasks), fragment)
      ensures Value() == old(Value()).(tasks := WithMatchStatus(old(tasks), fragment, status, now))
    {
      k := FirstTitleMatch(tasks, fragment);
      if k.Some? {
        tasks := WithStatusAt(tasks, k.value, status, now);
      }
    }

    /** The in-place update of one project at index `k`. */
    method SetProjectAt(k: nat, p: Project)
      requires Valid() && present && k < |projects|
      modifies this
      ensures Valid() && Value() == old(Value()).(projects := old(projects)[k := p])
    {
      projects := projects[k := p];
    }
  }
}
