/** The browser dashboard of `js/dashboard.js`: the `JarvisDashboard` object with its
    status, tasks, projects, resources and work log, and the operations that change
    them — loading the saved state, switching the status, logging, saving, updating
    and deleting tasks — together with the counts and texts the page shows.

    `localStorage` is a value handed in (`saved`); the page, the dialogs and the form
    fields are outside the model: what the user typed or confirmed arrives as
    parameters, and the clock as a millisecond count `now` with its ISO form
    `stamp`. */
module Dashboard {
  import opened Text

  // ---------------------------------------------------------------------------
  // Data

  datatype Task = Task(
    id: string, name: string, description: string, priority: string, status: string,
    project: string, eta: string, created: string, completed: Option<string>)

  datatype Link = Link(name: string, url: string)

  datatype Project = Project(
    id: string, name: string, description: string, status: string, icon: string,
    taskCount: nat, deliverables: seq<string>, files: seq<string>, tools: seq<string>,
    links: seq<Link>, created: string)

  datatype Resource = Resource(id: string, title: string, url: string, status: string)

  datatype LogEntry = LogEntry(id: string, text: string, kind: string, timestamp: string)

  /** What `JSON.parse(localStorage.getItem('jarvisDashboard'))` holds; a missing
      field is `None`. */
  datatype Saved = Saved(
    tasks: Option<seq<Task>>, projects: Option<seq<Project>>,
    resources: Option<seq<Resource>>, workLog: Option<seq<LogEntry>>)

  /** `field || []`. */
  function OrEmpty<T>(field: Option<seq<T>>): (r: seq<T>)
    ensures field.Some? ==> r == field.value
    ensures field.None? ==> r == []
  {
    if field.Some? then field.value else []
  }

  /** What the task form holds when the user presses save. */
  datatype TaskForm = TaskForm(
    name: string, description: string, priority: string, status: string, project: string, eta: string)

  // ---------------------------------------------------------------------------
  // Status

  const ValidStatuses: seq<string> := ["active", "idle", "planning", "blocked"]

  function StatusText(status: string): string {
    "Status changed to " + Upper(status)
  }

  // ---------------------------------------------------------------------------
  // The work log

  /** The number of entries the log keeps. */
  const MaxLog := 100

  /** `unshift` of `e`, then `slice(0, 100)` when the log grew past a hundred:
      the new entry comes first, followed by the newest of the old ones. */
  function Logged(log: seq<LogEntry>, e: LogEntry): (r: seq<LogEntry>)
    ensures |r| == if |log| < MaxLog then |log| + 1 else MaxLog
    ensures r[0] == e && r[1..] == log[..|r| - 1]
  {
    var grown := [e] + log;
    if |grown| > MaxLog then grown[..MaxLog] else grown
  }

  /** Two entries logged one after the other sit at the front, newest first, with
      the old log after them; the log never exceeds a hundred entries. */
  lemma LoggedTwice(log: seq<LogEntry>, e1: LogEntry, e2: LogEntry)
    ensures var r := Logged(Logged(log, e1), e2);
      && |r| <= MaxLog && r[0] == e2 && r[1] == e1
      && r[2..] == log[..|r| - 2]
  {
    var once := Logged(log, e1);
    var r := Logged(once, e2);
    assert r[1..] == once[..|r| - 1];
    assert r[2..] == once[1..][..|r| - 2];
  }

  // ---------------------------------------------------------------------------
  // Tasks

  /** The task the form describes, with `Date.now()` as its id; it carries a
      completion stamp exactly when it is saved as completed. */
  function NewTask(form: TaskForm, now: nat, stamp: string): (t: Task)
    ensures t.completed.Some? <==> form.status == "completed"
    ensures t.name == form.name && t.status == form.status && t.id == NatToString(now)
  {
    Task(NatToString(now), form.name, form.description, form.priority, form.status,
      form.project, form.eta, stamp, if form.status == "completed" then Some(stamp) else None)
  }

  /** The index of the first task with the id, as `find` looks it up. */
  function FindTask(tasks: seq<Task>, id: string): (r: Option<nat>)
    ensures r.Some? ==> r.value < |tasks| && tasks[r.value].id == id
    ensures r.Some? ==> forall j | 0 <= j < r.value :: tasks[j].id != id
    ensures r.None? ==> forall j | 0 <= j < |tasks| :: tasks[j].id != id
  {
    if tasks == [] then None
    else if tasks[0].id == id then Some(0)
    else match FindTask(tasks[1..], id)
      case None => None
      case Some(k) => Some(k + 1)
  }

  /** The field updates of `updateTaskStatus`: a completion stamp is set only when
      the new status is "completed", and an earlier one is never cleared. */
  function Restatus(t: Task, status: string, stamp: string): (u: Task)
    ensures u.status == status && u.id == t.id && u.name == t.name
    ensures status == "completed" ==> u.completed == Some(stamp)
    ensures status != "completed" ==> u.completed == t.completed
  {
    t.(status := status, completed := if status == "completed" then Some(stamp) else t.completed)
  }

  /** The tasks whose id differs, in order: the filter of `deleteTask`. */
  function WithoutId(tasks: seq<Task>, id: string): (r: seq<Task>)
    ensures |r| <= |tasks|
    ensures forall k | 0 <= k < |r| :: r[k].id != id
  {
    if tasks == [] then []
    else (if tasks[0].id != id then [tasks[0]] else []) + WithoutId(tasks[1..], id)
  }

  /** Every task with another id survives the filter. */
  lemma {:induction false} WithoutIdKeeps(tasks: seq<Task>, id: string, t: Task)
    ensures t in WithoutId(tasks, id) <==> t in tasks && t.id != id
  {
    if tasks != [] {
      WithoutIdKeeps(tasks[1..], id, t);
      assert tasks == [tasks[0]] + tasks[1..];
    }
  }

  /** The filter works piece by piece, so the survivors keep their order. */
  lemma {:induction false} WithoutIdSplits(a: seq<Task>, b: seq<Task>, id: string)
    ensures WithoutId(a + b, id) == WithoutId(a, id) + WithoutId(b, id)
  {
    if a == [] {
      assert a + b == b;
    } else {
      assert (a + b)[1..] == a[1..] + b;
      WithoutIdSplits(a[1..], b, id);
    }
  }

  /** Deleting an id no task has changes nothing. */
  lemma {:induction false} WithoutAbsentId(tasks: seq<Task>, id: string)
    requires forall k | 0 <= k < |tasks| :: tasks[k].id != id
    ensures WithoutId(tasks, id) == tasks
  {
    if tasks != [] {
      WithoutAbsentId(tasks[1..], id);
      assert tasks == [tasks[0]] + tasks[1..];
    }
  }

  // ---------------------------------------------------------------------------
  // The status partitions of renderTasks and renderStats

  /** The tasks with the status, in order: the filters of `renderTasks`. */
  function Having(tasks: seq<Task>, status: string): (r: seq<Task>)
    ensures |r| <= |tasks|
    ensures forall k | 0 <= k < |r| :: r[k].status == status
  {
    if tasks == [] then []
    else (if tasks[0].status == status then [tasks[0]] else []) + Having(tasks[1..], status)
  }

  /** A task is listed under a status exactly when it is one of the tasks and has it. */
  lemma {:induction false} HavingMembers(tasks: seq<Task>, status: string, t: Task)
    ensures t in Having(tasks, status) <==> t in tasks && t.status == status
  {
    if tasks != [] {
      HavingMembers(tasks[1..], status, t);
      assert tasks == [tasks[0]] + tasks[1..];
    }
  }

  /** The active, pending and completed lists never hold more tasks than there are. */
  lemma {:induction false} PartitionsFit(tasks: seq<Task>)
    ensures |Having(tasks, "active")| + |Having(tasks, "pending")| + |Having(tasks, "completed")| <= |tasks|
  {
    if tasks != [] {
      PartitionsFit(tasks[1..]);
    }
  }

  /** Changing one task's status moves it from one count to the other and leaves
      every other count alone. */
  lemma {:induction false} HavingAfterUpdate(tasks: seq<Task>, k: nat, t: Task, status: string)
    requires k < |tasks|
    ensures |Having(tasks[k := t], status)| ==
      |Having(tasks, status)| - (if tasks[k].status == status then 1 else 0) + (if t.status == status then 1 else 0)
  {
    if k > 0 {
      assert tasks[k := t][1..] == tasks[1..][k - 1 := t];
      HavingAfterUpdate(tasks[1..], k - 1, t, status);
    }
  }

  /** The first listed task under a status is the first such task in store order. */
  lemma {:induction false} HavingHead(tasks: seq<Task>, status: string)
    ensures Having(tasks, status) != [] ==>
      exists k | 0 <= k < |tasks| :: Having(tasks, status)[0] == tasks[k] &&
        forall j | 0 <= j < k :: tasks[j].status != status
  {
    if tasks != [] && tasks[0].status != status {
      HavingHead(tasks[1..], status);
      if Having(tasks, status) != [] {
        var k :| 0 <= k < |tasks[1..]| && Having(tasks[1..], status)[0] == tasks[1..][k] &&
          forall j | 0 <= j < k :: tasks[1..][j].status != status;
        assert Having(tasks, status)[0] == tasks[k + 1];
        forall j | 0 <= j < k + 1 ensures tasks[j].status != status {
          if j > 0 {
            assert tasks[j] == tasks[1..][j - 1];
          }
        }
      }
    } else if tasks != [] {
      assert Having(tasks, status)[0] == tasks[0];
    }
  }

  /** The "current task" card of `renderTasks`: the first active task's name and how
      many tasks are active, or "None" and "--". */
  function ActiveHeadline(tasks: seq<Task>): (r: (string, string))
    ensures Having(tasks, "active") == [] ==> r == ("None", "--")
    ensures Having(tasks, "active") != [] ==> r.0 == Having(tasks, "active")[0].name
  {
    var active := Having(tasks, "active");
    if |active| > 0 then
      (active[0].name, NatToString(|active|) + " active task" + (if |active| > 1 then "s" else ""))
    else ("None", "--")
  }

  /** The card names the first active task in store order. */
  lemma HeadlineNamesFirstActive(tasks: seq<Task>)
    ensures (exists k | 0 <= k < |tasks| :: tasks[k].status == "active") ==>
      exists k | 0 <= k < |tasks| :: tasks[k].status == "active" && ActiveHeadline(tasks).0 == tasks[k].name
        && forall j | 0 <= j < k :: tasks[j].status != "active"
  {
    if exists k | 0 <= k < |tasks| :: tasks[k].status == "active" {
      var k :| 0 <= k < |tasks| && tasks[k].status == "active";
      HavingMembers(tasks, "active", tasks[k]);
      HavingHead(tasks, "active");
    }
  }

  /** The four figures of `renderStats`. */
  datatype Stats = Stats(tasksCompleted: nat, projectsActive: nat, resources: nat, workLog: nat)

  function ProjectsHaving(projects: seq<Project>, status: string): (r: seq<Project>)
    ensures |r| <= |projects|
    ensures forall k | 0 <= k < |r| :: r[k].status == status
  {
    if projects == [] then []
    else (if projects[0].status == status then [projects[0]] else []) + ProjectsHaving(projects[1..], status)
  }

  // ---------------------------------------------------------------------------
  // Projects

  /** The three projects `initializeDefaultProjects` installs, created at `stamp`. */
  function DefaultProjects(stamp: string): (r: seq<Project>)
    ensures |r| == 3
    ensures r[0].id == "thinknlocal" && r[1].id == "aqulos" && r[2].id == "ph-ventures"
    ensures forall k | 0 <= k < |r| :: r[k].status == "active" && r[k].taskCount == 0 && r[k].created == stamp
  {
    [ Project("thinknlocal", "ThinkNLocal", "Scale to 1,000 local partners at $150-200/mo", "active",
        "\U{1F3EA}", 0, [], [], ["GoHighLevel", "Zapier", "Slack"],
        [Link("GitHub", "https://github.com/jarvisaqulos/Jarvis-Workspace")], stamp),
      Project("aqulos", "AQULOS Rebuild", "AI + automation-powered growth agency", "active",
        "\U{1F680}", 0, [], [], ["OpenAI", "Make", "n8n"], [], stamp),
      Project("ph-ventures", "Philippine Ventures", "Dorm, farm, F&B operational success", "active",
        "\U{1F3DD}\U{FE0F}", 0, [], [], ["Google Sheets", "WhatsApp"], [], stamp) ]
  }

  /** The default projects are all counted as active. */
  lemma DefaultProjectsActive(stamp: string)
    ensures |ProjectsHaving(DefaultProjects(stamp), "active")| == 3
  {
    var d := DefaultProjects(stamp);
    assert ProjectsHaving(d[2..], "active") == [d[2]] by {
      assert d[2..][1..] == [];
    }
    assert ProjectsHaving(d[1..], "active") == [d[1], d[2]] by {
      assert d[1..][1..] == d[2..];
    }
  }

  /** The projects `loadData` ends with: the loaded ones, or the three defaults
      when none were loaded; either way the dashboard has projects afterwards. */
  function LoadedProjects(current: seq<Project>, saved: Option<Saved>, stamp: string): (r: seq<Project>)
    ensures r != []
    ensures var loaded := if saved.Some? then OrEmpty(saved.value.projects) else current;
      && (loaded != [] ==> r == loaded)
      && (loaded == [] ==> r == DefaultProjects(stamp))
  {
    var loaded := if saved.Some? then OrEmpty(saved.value.projects) else current;
    if loaded == [] then DefaultProjects(stamp) else loaded
  }

  // ---------------------------------------------------------------------------
  // updateLastActionTime

  /** `Math.floor(ms / 1000)`: for a positive divisor Dafny's division already
      rounds down, negative differences included. */
  function ElapsedSeconds(ms: int): (d: int)
    ensures d * 1000 <= ms < (d + 1) * 1000
  {
    ms / 1000
  }

  /** The relative time shown for `d` elapsed seconds: the number shown is the whole
      minutes, hours or days, always at least one and below the next unit. */
  function RelativeTime(d: int): (r: string)
    ensures d < 60 ==> r == "Just now"
    ensures 60 <= d < 3600 ==> r == NatToString(d / 60) + "m ago" && 1 <= d / 60 < 60
    ensures 3600 <= d < 86400 ==> r == NatToString(d / 3600) + "h ago" && 1 <= d / 3600 < 24
    ensures 86400 <= d ==> r == NatToString(d / 86400) + "d ago" && 1 <= d / 86400
    ensures d >= 60 ==> r != "Just now"
  {
    if d < 60 then "Just now"
    else
      var (n, unit) := if d < 3600 then (d / 60, "m ago") else if d < 86400 then (d / 3600, "h ago") else (d / 86400, "d ago");
      var r := NatToString(n) + unit;
      assert r[|r| - 1] == 'o' != "Just now"[7];
      r
  }

  // ---------------------------------------------------------------------------
  // The dashboard object

  /** What `deleteTask` ends in. */
  datatype Deletion =
    | Declined
    | Deleted(name: string)
    /** Confirmed for an id no task has: the filter changes nothing and reading the
        missing task's name throws, so nothing is logged. */
    | Missing

  class JarvisDashboard {
    var status: string
    var lastAction: string
    var lastActionTime: int
    var tasks: seq<Task>
    var projects: seq<Project>
    var resources: seq<Resource>
    var workLog: seq<LogEntry>
    /** The `jarvisDashboard` entry of `localStorage`. */
    var stored: Option<Saved>
    /** The `jarvisStatus` entry of `localStorage`. */
    var storedStatus: Option<string>

    /** The four lists as `saveData` writes them. */
    function Snapshot(): (r: Saved)
      reads this
      ensures OrEmpty(r.tasks) == tasks && OrEmpty(r.projects) == projects
      ensures OrEmpty(r.resources) == resources && OrEmpty(r.workLog) == workLog
    {
      Saved(Some(tasks), Some(projects), Some(resources), Some(workLog))
    }

    /** The stored entry holds exactly the lists in memory. */
    predicate Persisted()
      reads this
    {
      stored == Some(Snapshot())
    }

    /** `new JarvisDashboard()` and its `init()` against the storage `storage`: the
        saved lists are loaded, then the start-up and the idle status are logged,
        and what is stored matches what is shown. */
    constructor (storage: Option<Saved>, storedStatus: Option<string>, now: nat, stamp: string)
      ensures Persisted() && this.storedStatus == Some("idle")
      ensures status == "idle" && lastAction == StatusText("idle") && lastActionTime == now
      ensures projects == LoadedProjects([], storage, stamp)
      ensures tasks == (if storage.Some? then OrEmpty(storage.value.tasks) else [])
      ensures resources == (if storage.Some? then OrEmpty(storage.value.resources) else [])
      ensures workLog == Logged(Logged(if storage.Some? then OrEmpty(storage.value.workLog) else [],
        LogEntry(NatToString(now), "Dashboard initialized", "system", stamp)),
        LogEntry(NatToString(now), StatusText("idle"), "status", stamp))
    {
      status := "idle";
      lastAction := "System initialized";
      lastActionTime := now;
      tasks := [];
      projects := [];
      resources := [];
      workLog := [];
      stored := storage;
      this.storedStatus := storedStatus;
      new;
      LoadData(stamp);
      ghost var loaded := workLog;
      assert loaded == if storage.Some? then OrEmpty(storage.value.workLog) else [];
      AddLogEntry("Dashboard initialized", "system", now, stamp);
      ghost var logged := workLog;
      assert "idle" in ValidStatuses;
      SetStatus("idle", now, stamp);
      assert workLog == Logged(logged, LogEntry(NatToString(now), StatusText("idle"), "status", stamp));
    }

    /** `saveData()`. */
    method SaveData()
      modifies this
      ensures Persisted()
      ensures status == old(status) && lastAction == old(lastAction) && lastActionTime == old(lastActionTime)
      ensures tasks == old(tasks) && projects == old(projects) && resources == old(resources) && workLog == old(workLog)
      ensures storedStatus == old(storedStatus)
    {
      stored := Some(Snapshot());
    }

    /** `loadData()`: every stored list replaces the one in memory (a missing list
        becomes empty), and the default projects are installed, and saved,
        exactly when no project was loaded. Loading what was just saved changes
        nothing. */
    method LoadData(stamp: string)
      modifies this
      ensures old(stored).Some? ==>
        && tasks == OrEmpty(old(stored).value.tasks) && resources == OrEmpty(old(stored).value.resources)
        && workLog == OrEmpty(old(stored).value.workLog)
      ensures old(stored).None? ==> tasks == old(tasks) && resources == old(resources) && workLog == old(workLog)
      ensures projects == LoadedProjects(old(projects), old(stored), stamp)
      ensures var loaded := if old(stored).Some? then OrEmpty(old(stored).value.projects) else old(projects);
        if loaded == [] then Persisted() else stored == old(stored)
      ensures old(Persisted()) && old(projects) != [] ==> unchanged(this)
      ensures status == old(status) && lastAction == old(lastAction) && lastActionTime == old(lastActionTime)
      ensures storedStatus == old(storedStatus)
    {
      if stored.Some? {
        var data := stored.value;
        tasks := OrEmpty(data.tasks);
        projects := OrEmpty(data.projects);
        resources := OrEmpty(data.resources);
        workLog := OrEmpty(data.workLog);
      }
      if |projects| == 0 {
        projects := DefaultProjects(stamp);
        SaveData();
      }
    }

    /** `addLogEntry(text, type)`: the entry goes in front, the log is cut back to a
        hundred entries, the lists are saved, and the entry becomes the last
        action. */
    method AddLogEntry(text: string, kind: string, now: nat, stamp: string)
      modifies this
      ensures workLog == Logged(old(workLog), LogEntry(NatToString(now), text, kind, stamp))
      ensures lastAction == text && lastActionTime == now && Persisted()
      ensures status == old(status) && tasks == old(tasks) && projects == old(projects) && resources == old(resources)
      ensures storedStatus == old(storedStatus)
    {
      var entry := LogEntry(NatToString(now), text, kind, stamp);
      workLog := [entry] + workLog;
      if |workLog| > MaxLog {
        workLog := workLog[..MaxLog];
      }
      SaveData();
      lastAction := text;
      lastActionTime := now;
    }

    /** `setStatus(status)`: one of the four statuses is taken, logged and stored;
        anything else is ignored. */
    method SetStatus(s: string, now: nat, stamp: string)
      modifies this
      ensures s !in ValidStatuses ==> unchanged(this)
      ensures s in ValidStatuses ==>
        && status == s && storedStatus == Some(s) && lastAction == StatusText(s) && lastActionTime == now
        && workLog == Logged(old(workLog), LogEntry(NatToString(now), StatusText(s), "status", stamp))
        && tasks == old(tasks) && projects == old(projects) && resources == old(resources) && Persisted()
    {
      if s !in ValidStatuses {
        return;
      }
      status := s;
      AddLogEntry(StatusText(s), "status", now, stamp);
      storedStatus := Some(s);
    }

    /** `saveTask()`: a form without a name is refused and changes nothing;
        otherwise the task is appended, saved, and its creation logged. */
    method SaveTask(form: TaskForm, now: nat, stamp: string) returns (saved: bool)
      modifies this
      ensures saved <==> form.name != ""
      ensures !saved ==> unchanged(this)
      ensures saved ==>
        && tasks == old(tasks) + [NewTask(form, now, stamp)]
        && workLog == Logged(old(workLog), LogEntry(NatToString(now), "Task created: " + form.name, "task", stamp))
        && lastAction == "Task created: " + form.name && lastActionTime == now && storedStatus == old(storedStatus)
        && status == old(status) && projects == old(projects) && resources == old(resources) && Persisted()
    {
      if form.name == "" {
        return false;
      }
      tasks := tasks + [NewTask(form, now, stamp)];
      SaveData();
      AddLogEntry("Task created: " + form.name, "task", now, stamp);
      saved := true;
    }

    /** `updateTaskStatus(taskId, newStatus)`: the first task with the id takes the
        status, the lists are saved and the change is logged; an unknown id
        changes nothing. */
    method UpdateTaskStatus(taskId: string, newStatus: string, now: nat, stamp: string)
      modifies this
      ensures FindTask(old(tasks), taskId).None? ==> unchanged(this)
      ensures FindTask(old(tasks), taskId).Some? ==>
        var k := FindTask(old(tasks), taskId).value;
        && tasks == old(tasks)[k := Restatus(old(tasks)[k], newStatus, stamp)]
        && workLog == Logged(old(workLog),
             LogEntry(NatToString(now), "Task " + newStatus + ": " + old(tasks)[k].name, "task", stamp))
        && lastAction == "Task " + newStatus + ": " + old(tasks)[k].name && lastActionTime == now
        && storedStatus == old(storedStatus)
        && status == old(status) && projects == old(projects) && resources == old(resources) && Persisted()
    {
      match FindTask(tasks, taskId)
      case None =>
      case Some(k) =>
        var task := tasks[k];
        tasks := tasks[k := Restatus(task, newStatus, stamp)];
        SaveData();
        AddLogEntry("Task " + newStatus + ": " + task.name, "task", now, stamp);
    }

    /** `deleteTask(taskId)` after the user answered the confirmation: declined,
        nothing changes; confirmed, every task with the id goes, the lists are
        saved and the deletion is logged. */
    method DeleteTask(taskId: string, confirmed: bool, now: nat, stamp: string) returns (r: Deletion)
      modifies this
      ensures !confirmed ==> r == Declined && unchanged(this)
      ensures confirmed ==>
        && tasks == WithoutId(old(tasks), taskId)
        && status == old(status) && projects == old(projects) && resources == old(resources) && Persisted()
        && storedStatus == old(storedStatus)
      ensures confirmed && FindTask(old(tasks), taskId).None? ==>
        && r == Missing && workLog == old(workLog)
        && lastAction == old(lastAction) && lastActionTime == old(lastActionTime)
      ensures confirmed && FindTask(old(tasks), taskId).Some? ==>
        var name := old(tasks)[FindTask(old(tasks), taskId).value].name;
        && r == Deleted(name)
        && workLog == Logged(old(workLog), LogEntry(NatToString(now), "Task deleted: " + name, "task", stamp))
        && lastAction == "Task deleted: " + name && lastActionTime == now
    {
      var found := FindTask(tasks, taskId);
      if !confirmed {
        return Declined;
      }
      var before := tasks;
      tasks := WithoutId(tasks, taskId);
      SaveData();
      match found
      case None =>
        r := Missing;
      case Some(k) =>
        var name := before[k].name;
        AddLogEntry("Task deleted: " + name, "task", now, stamp);
        r := Deleted(name);
    }

    /** The text `updateLastActionTime()` shows at `now`. */
    function LastActionAge(now: int): (r: string)
      reads this
      ensures now - lastActionTime < 60000 ==> r == "Just now"
      ensures now - lastActionTime >= 60000 ==> r != "Just now"
    {
      RelativeTime(ElapsedSeconds(now - lastActionTime))
    }

    /** The figures `renderStats` shows. */
    function StatCounts(): (r: Stats)
      reads this
      ensures r.tasksCompleted <= |tasks| && r.projectsActive <= |projects|
    {
      Stats(|Having(tasks, "completed")|, |ProjectsHaving(projects, "active")|, |resources|, |workLog|)
    }
  }

  /** Completing a pending task moves it from the pending count to the completed
      count. */
  lemma CompletingMovesCount(tasks: seq<Task>, k: nat, stamp: string)
    requires k < |tasks| && tasks[k].status == "pending"
    ensures var after := tasks[k := Restatus(tasks[k], "completed", stamp)];
      && |Having(after, "completed")| == |Having(tasks, "completed")| + 1
      && |Having(after, "pending")| == |Having(tasks, "pending")| - 1
  {
    HavingAfterUpdate(tasks, k, Restatus(tasks[k], "completed", stamp), "completed");
    HavingAfterUpdate(tasks, k, Restatus(tasks[k], "completed", stamp), "pending");
  }
}
