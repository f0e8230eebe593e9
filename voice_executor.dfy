/** The voice task executor of `voice-executor.js`: `executeVoiceTask`, an ordered
    chain of keyword rules over the lower-cased message that either runs one of the
    store operations `createTask`, `updateTaskStatus`, `updateProjectProgress` and
    `addWorkLog`, answers with a canned text, or returns `null` so that the main
    server answers instead; and the `/voice-command` handler around it. */
module VoiceExecutor {
  import opened Text
  import opened TaskData
  import VoiceRequests

  // ---------------------------------------------------------------------------
  // The keywords of the rule chain, in source order

  const CreatePhrases: seq<string> := ["add task", "create task", "new task"]
  const CompletePhrases: seq<string> := ["mark task", "complete task", "finish task"]
  const ProjectPhrases: seq<string> := ["update project", "project progress"]
  const ProjectNames: seq<string> := ["thinknlocal", "aqulos", "ph ventures", "philippine"]
  /** The ids the project names become. */
  const ProjectSlugs: seq<string> := ["thinknlocal", "aqulos", "ph-ventures", "philippine"]
  const EmailPhrases: seq<string> := ["mark email", "archive email"]
  const CalendarPhrases: seq<string> := ["add event", "schedule meeting"]
  const WorkLogPhrases: seq<string> := ["log work", "add to work log"]

  const EmailReply: string :=
    "I can't archive emails yet, but I can read them to you. Which one would you like me to summarize?"
  const CalendarReply: string :=
    "I can check your calendar, but adding events requires calendar write access. Want me to help you set that up?"

  // ---------------------------------------------------------------------------
  // Arguments

  /** The title of a create command: the leftmost create phrase and the colons and
      spaces after it are cut out, and the rest is trimmed. */
  function CreateTitle(message: string): string {
    Trim(RemoveFirst(message, CreatePhrases, true))
  }

  /** The task name of a complete command: everything through the last complete
      phrase, and the colons and spaces after it, is dropped; the rest is trimmed. */
  function CompleteName(message: string): string {
    Trim(StripThroughLast(message, CompletePhrases))
  }

  /** The text of a work-log command, taken like the task name. */
  function WorkEntry(message: string): string {
    Trim(StripThroughLast(message, WorkLogPhrases))
  }

  /** `s.replace(' ', '-')`: only the first space becomes a hyphen. */
  function ReplaceFirstSpace(s: string): (r: string)
    ensures |r| == |s|
    ensures ' ' !in s ==> r == s
  {
    if ' ' in s then
      var i := IndexOfChar(s, ' ');
      s[..i] + "-" + s[i + 1..]
    else s
  }

  /** The id of the leftmost project name in the message, lower-cased, with its
      first space made a hyphen; `None` when no project is named. */
  function ProjectId(message: string): Option<string> {
    var l := Lower(message);
    match FirstAny(l, ProjectNames)
    case None => None
    case Some(k) => Some(ReplaceFirstSpace(l[k..k + AltLen(l, ProjectNames, k)]))
  }

  /** A project is found exactly when the message names one, and its id is one of
      the four known ids. */
  lemma {:induction false} ProjectIdIsKnown(message: string)
    ensures ProjectId(message).Some? <==> ContainsAny(Lower(message), ProjectNames)
    ensures ProjectId(message).Some? ==> ProjectId(message).value in ProjectSlugs
  {
    var l := Lower(message);
    ContainsAnyMatches(l, ProjectNames);
    if FirstAny(l, ProjectNames).Some? {
      var k := FirstAny(l, ProjectNames).value;
      var q := AltAt(l, ProjectNames, k).value;
      assert l[k..k + AltLen(l, ProjectNames, k)] == ProjectNames[q];
      assert ProjectId(message) == Some(ReplaceFirstSpace(ProjectNames[q]));
      SlugOfName(q);
      assert ProjectSlugs[q] in ProjectSlugs;
    }
  }

  lemma SlugOfName(q: nat)
    requires q < |ProjectNames|
    ensures ReplaceFirstSpace(ProjectNames[q]) == ProjectSlugs[q]
  {
    if q == 2 {
      PhVenturesSlug();
    } else {
      assert ' ' !in ProjectNames[q];
    }
  }

  lemma PhVenturesSlug()
    ensures ReplaceFirstSpace("ph ventures") == "ph-ventures"
  {
    var s := "ph ventures";
    assert s[2] == ' ';
    assert IndexOfChar(s, ' ') == 2;
    assert s[..2] + "-" + s[3..] == "ph-ventures";
  }

  // ---------------------------------------------------------------------------
  // The rule chain

  /** What `executeVoiceTask` does for a message. */
  datatype Command =
    | CreateTask(title: string)
    | CompleteTask(name: string)
    | ProjectStatus(projectId: string)
    | EmailAction
    | CalendarAction
    | LogWork(entry: string)
    /** `null`: the main server answers. */
    | NoCommand

  /** The outcomes of the chain's tests and extractions for one message. */
  datatype Signals = Signals(
    create: bool, title: string, complete: bool, name: string,
    project: bool, projectId: Option<string>, email: bool, calendar: bool,
    workLog: bool, entry: string)

  function SignalsOf(message: string): Signals {
    var l := Lower(message);
    Signals(
      ContainsAny(l, CreatePhrases), CreateTitle(message),
      ContainsAny(l, CompletePhrases), CompleteName(message),
      ContainsAny(l, ProjectPhrases), ProjectId(message),
      ContainsAny(l, EmailPhrases), ContainsAny(l, CalendarPhrases),
      ContainsAny(l, WorkLogPhrases), WorkEntry(message))
  }

  /** The if-chain of `executeVoiceTask` over the test outcomes `g`. */
  function Chain(message: string, g: Signals): Command {
    if g.create && g.title != "" then CreateTask(g.title)
    else if g.complete then CompleteTask(g.name)
    else if g.project && g.projectId.Some? then ProjectStatus(g.projectId.value)
    else if g.email then EmailAction
    else if g.calendar then CalendarAction
    else if g.workLog then LogWork(if g.entry != "" then g.entry else message)
    else NoCommand
  }

  function Classify(message: string): Command {
    Chain(message, SignalsOf(message))
  }

  // ---------------------------------------------------------------------------
  // Rule precedence, against an independent list of the rules

  datatype Rule = CreateRule | CompleteRule | ProjectRule | EmailRule | CalendarRule | WorkLogRule

  const RuleOrder: seq<Rule> := [CreateRule, CompleteRule, ProjectRule, EmailRule, CalendarRule, WorkLogRule]

  /** Whether `rule` would act if it were tried. */
  predicate Fires(rule: Rule, g: Signals) {
    match rule
    case CreateRule => g.create && g.title != ""
    case CompleteRule => g.complete
    case ProjectRule => g.project && g.projectId.Some?
    case EmailRule => g.email
    case CalendarRule => g.calendar
    case WorkLogRule => g.workLog
  }

  function CommandOf(rule: Rule, message: string, g: Signals): Command
    requires Fires(rule, g)
  {
    match rule
    case CreateRule => CreateTask(g.title)
    case CompleteRule => CompleteTask(g.name)
    case ProjectRule => ProjectStatus(g.projectId.value)
    case EmailRule => EmailAction
    case CalendarRule => CalendarAction
    case WorkLogRule => LogWork(if g.entry != "" then g.entry else message)
  }

  /** The first rule of `RuleOrder` that fires decides the command. */
  lemma FirstFiringRuleDecides(message: string, g: Signals, i: nat)
    requires i < |RuleOrder| && Fires(RuleOrder[i], g)
    requires forall j | 0 <= j < i :: !Fires(RuleOrder[j], g)
    ensures Chain(message, g) == CommandOf(RuleOrder[i], message, g)
  {
    if i > 0 { assert !Fires(RuleOrder[0], g); }
    if i > 1 { assert !Fires(RuleOrder[1], g); }
    if i > 2 { assert !Fires(RuleOrder[2], g); }
    if i > 3 { assert !Fires(RuleOrder[3], g); }
    if i > 4 { assert !Fires(RuleOrder[4], g); }
  }

  /** `null` comes back exactly when no rule fires. */
  lemma NoCommandWhenNoRuleFires(message: string, g: Signals)
    ensures Chain(message, g) == NoCommand <==> forall j | 0 <= j < |RuleOrder| :: !Fires(RuleOrder[j], g)
  {
    if Chain(message, g) != NoCommand {
      if g.create && g.title != "" { assert Fires(RuleOrder[0], g); }
      else if g.complete { assert Fires(RuleOrder[1], g); }
      else if g.project && g.projectId.Some? { assert Fires(RuleOrder[2], g); }
      else if g.email { assert Fires(RuleOrder[3], g); }
      else if g.calendar { assert Fires(RuleOrder[4], g); }
      else { assert Fires(RuleOrder[5], g); }
    }
  }

  // ---------------------------------------------------------------------------
  // Guards

  /** A task is created exactly when a create phrase occurs and the title left
      after it is not empty; the task gets that title. */
  lemma CreateGuard(message: string)
    ensures Classify(message).CreateTask? <==>
      ContainsAny(Lower(message), CreatePhrases) && CreateTitle(message) != ""
    ensures Classify(message).CreateTask? ==> Classify(message).title == CreateTitle(message)
  {
  }

  /** A complete phrase always reaches `updateTaskStatus` unless a task is created
      first, even when the name left after it is empty. */
  lemma CompleteGuard(message: string)
    ensures Classify(message).CompleteTask? <==>
      !(ContainsAny(Lower(message), CreatePhrases) && CreateTitle(message) != "")
      && ContainsAny(Lower(message), CompletePhrases)
    ensures Classify(message).CompleteTask? ==> Classify(message).name == CompleteName(message)
  {
  }

  /** A logged entry is never empty: when nothing follows the work-log phrase the
      whole message is logged. */
  lemma LogEntryNeverEmpty(message: string)
    ensures Classify(message).LogWork? ==> Classify(message).entry != ""
    ensures Classify(message).LogWork? ==>
      Classify(message).entry == (if WorkEntry(message) != "" then WorkEntry(message) else message)
  {
    WorkLogNeedsText(message);
    ChainLogEntry(message, SignalsOf(message));
  }

  lemma WorkLogNeedsText(message: string)
    ensures SignalsOf(message).workLog ==> message != ""
  {
    PhraseNeedsText(message, WorkLogPhrases);
  }

  lemma ChainLogEntry(message: string, g: Signals)
    requires g.workLog ==> message != ""
    ensures Chain(message, g).LogWork? ==> Chain(message, g).entry != ""
    ensures Chain(message, g).LogWork? ==>
      Chain(message, g).entry == (if g.entry != "" then g.entry else message)
  {
  }

  /** Only a non-empty message contains a non-empty phrase. */
  lemma PhraseNeedsText(message: string, ps: seq<string>)
    requires NonEmptyAlternatives(ps)
    ensures ContainsAny(Lower(message), ps) ==> message != ""
  {
    if message == "" {
      assert Lower(message) == "";
    }
  }

  /** The project rule only ever asks for one of the four known ids. */
  lemma ProjectCommandIsKnown(message: string)
    ensures Classify(message).ProjectStatus? ==> Classify(message).projectId in ProjectSlugs
  {
    ProjectIdIsKnown(message);
  }

  /** "add task", a space and a trimmed title that does not start with a colon or a
      space: the title comes back out. */
  lemma CreateMessageTitle(t: string)
    requires t != [] && IsTrimmed(t) && !IsSeparator(t[0])
    ensures CreateTitle("add task " + t) == t
  {
    var m := "add task " + t;
    var l := Lower(m);
    LowerConcat("add task ", t);
    assert OccursAt(l, CreatePhrases[0], 0);
    FirstAnyAt(l, CreatePhrases, 0);
    assert AltLen(l, CreatePhrases, 0) == 8;
    assert SkipSeparators(m, 8) == 9 by {
      assert m[8] == ' ' && m[9] == t[0];
    }
    assert RemoveFirst(m, CreatePhrases, true) == t by {
      assert m[..0] + m[9..] == t;
    }
    TrimOfTrimmed(t);
  }

  /** Such a message creates a task with that title. */
  lemma CreateMessageCommand(t: string)
    requires t != [] && IsTrimmed(t) && !IsSeparator(t[0])
    ensures Classify("add task " + t) == CreateTask(t)
  {
    CreateMessageTitle(t);
    CreateMessageMentions(t);
    CreatesTitled("add task " + t, t);
  }

  lemma CreateMessageMentions(t: string)
    ensures ContainsAny(Lower("add task " + t), CreatePhrases)
  {
    LowerConcat("add task ", t);
    OccursAtAny(Lower("add task " + t), CreatePhrases, 0, 0);
  }

  lemma CreatesTitled(message: string, t: string)
    requires ContainsAny(Lower(message), CreatePhrases) && CreateTitle(message) == t && t != ""
    ensures Classify(message) == CreateTask(t)
  {
    CreateGuard(message);
  }

  /** "mark task" alone completes the first task: the empty name is contained in
      every title. */
  lemma BareMarkTaskCompletesFirst(s: Store, message: string, now: string)
    requires Lower(message) == "mark task" && s.present && s.tasks != []
    ensures Classify(message) == CompleteTask("")
    ensures StatusOutcome(s, "", "completed", now).store.tasks[0].status == "completed"
    ensures StatusOutcome(s, "", "completed", now).store.tasks[1..] == s.tasks[1..]
  {
    var l := Lower(message);
    AbsentWords(l, CreatePhrases, "dcn");
    assert OccursAt(l, CompletePhrases[0], 0);
    StripThroughLastDrops(message, CompletePhrases, 9);
    assert CompleteName(message) == "";
    EmptyFragmentPicksFirst(s.tasks);
    var after := StatusOutcome(s, "", "completed", now).store.tasks;
    assert after == WithStatusAt(s.tasks, 0, "completed", now);
  }

  // ---------------------------------------------------------------------------
  // The store operations

  /** The reply of `createTask`. */
  function CreatedReply(title: string): string {
    "Created task: \"" + title + "\". It's in your pending tasks now. Want me to mark it as in-progress?"
  }

  /** `createTask(title)`: a missing file reads as empty arrays; one pending task and
      one log entry go in front and the file is written. */
  function CreateOutcome(s: Store, title: string, id: string, now: string): (o: Outcome)
    ensures o.store.present && o.store.projects == s.projects
    ensures |o.store.tasks| == |s.tasks| + 1 && o.store.tasks[1..] == s.tasks
    ensures o.store.tasks[0].title == title && o.store.tasks[0].status == "pending"
    ensures o.store.tasks[0].priority == "medium" && o.store.tasks[0].assignee == "Jarvis"
    ensures |o.store.workLog| == |s.workLog| + 1 && o.store.workLog[1..] == s.workLog
    ensures o.store.workLog[0].kind == "task"
  {
    Outcome(CreatedReply(title), WithNewTask(s, VoiceTask(id, title, now), VoiceCreationEntry(id, title, now)))
  }

  function MarkedReply(title: string, status: string): string {
    "Marked \"" + title + "\" as " + status + "."
  }

  function NotFoundReply(name: string, tasks: seq<Task>): string {
    "I couldn't find a task matching \"" + name + "\". Your current tasks are: " + Join(LeadingTitles(tasks, 3), ", ")
  }

  /** `updateTaskStatus(name, status)`: without a file nothing happens; otherwise the
      first task whose title matches `name` gets `status` and no other task changes;
      without a match nothing is written. */
  function StatusOutcome(s: Store, name: string, status: string, now: string): (o: Outcome)
    ensures o.store.present == s.present && o.store.projects == s.projects && o.store.workLog == s.workLog
    ensures |o.store.tasks| == |s.tasks|
    ensures !s.present ==> o == Outcome("No tasks found.", s)
    ensures s.present ==> match FirstTitleMatch(s.tasks, name)
      case None => o == Outcome(NotFoundReply(name, s.tasks), s)
      case Some(k) =>
        && o.reply == MarkedReply(s.tasks[k].title, status)
        && o.store.tasks[k] == s.tasks[k].(status := status, updated := now)
        && forall j | 0 <= j < |s.tasks| && j != k :: o.store.tasks[j] == s.tasks[j]
  {
    if !s.present then Outcome("No tasks found.", s)
    else match FirstTitleMatch(s.tasks, name)
      case None => Outcome(NotFoundReply(name, s.tasks), s)
      case Some(k) => Outcome(MarkedReply(s.tasks[k].title, status), s.(tasks := WithStatusAt(s.tasks, k, status, now)))
  }

  /** The miss reply quotes the name asked for and lists the titles of the first
      three tasks in store order. */
  lemma NotFoundListsThree(name: string, tasks: seq<Task>)
    ensures Contains(NotFoundReply(name, tasks), name)
    ensures forall j | 0 <= j < |tasks| && j < 3 :: Contains(NotFoundReply(name, tasks), tasks[j].title)
  {
    var pre := "I couldn't find a task matching \"" + name + "\". Your current tasks are: ";
    var titles := LeadingTitles(tasks, 3);
    var post := "\". Your current tasks are: " + Join(titles, ", ");
    assert NotFoundReply(name, tasks) == "I couldn't find a task matching \"" + name + post;
    ContainsMiddle("I couldn't find a task matching \"", name, post);
    forall j | 0 <= j < |tasks| && j < 3
      ensures Contains(NotFoundReply(name, tasks), tasks[j].title)
    {
      var t := tasks[j].title;
      assert OccursAt(titles[j], t, 0);
      PartInJoin(titles, ", ", j, t);
      var i :| 0 <= i <= |Join(titles, ", ")| && OccursAt(Join(titles, ", "), t, i);
      OccursInRight(pre, Join(titles, ", "), t, |pre| + i);
    }
  }

  /** A task created by voice is the one a later status update of its title picks. */
  lemma CreateThenUpdate(s: Store, title: string, status: string, id: string, now: string, later: string)
    ensures
      var created := CreateOutcome(s, title, id, now).store;
      var updated := StatusOutcome(created, title, status, later);
      && updated.reply == MarkedReply(title, status)
      && updated.store.tasks[0] == VoiceTask(id, title, now).(status := status, updated := later)
      && updated.store.tasks[1..] == s.tasks
  {
    var created := CreateOutcome(s, title, id, now).store;
    SameTitleFound(created.tasks, 0, title);
    var after := StatusOutcome(created, title, status, later).store.tasks;
    assert after[1..] == created.tasks[1..];
  }

  /** A project the command picks: its id or its lower-cased name contains the id
      asked for. */
  predicate ProjectMatches(p: Project, projectId: string) {
    Contains(p.id, projectId) || Contains(Lower(p.name), projectId)
  }

  /** The index of the first matching project in store order. */
  function FirstProjectMatch(projects: seq<Project>, projectId: string): (r: Option<nat>)
    ensures r.Some? ==> r.value < |projects| && ProjectMatches(projects[r.value], projectId)
    ensures r.Some? ==> forall j | 0 <= j < r.value :: !ProjectMatches(projects[j], projectId)
    ensures r.None? ==> forall j | 0 <= j < |projects| :: !ProjectMatches(projects[j], projectId)
  {
    if projects == [] then None
    else if ProjectMatches(projects[0], projectId) then Some(0)
    else match FirstProjectMatch(projects[1..], projectId)
      case None => None
      case Some(k) => Some(k + 1)
  }

  function ProjectNameList(projects: seq<Project>): (r: seq<string>)
    ensures |r| == |projects| && forall j | 0 <= j < |r| :: r[j] == projects[j].name
  {
    if projects == [] then [] else [projects[0].name] + ProjectNameList(projects[1..])
  }

  function ProgressReply(p: Project): string {
    "\"" + p.name + "\" is at " + (p.progress + "%")
      + (" progress. Current status: " + p.current + ". Want me to update the progress percentage?")
  }

  /** The reply prints the stored progress as it is, whatever JSON value the
      progress endpoint stored, followed by the percent sign. */
  lemma ProgressReplyQuotes(p: Project)
    ensures Contains(ProgressReply(p), p.progress + "%")
  {
    ContainsMiddle("\"" + p.name + "\" is at ", p.progress + "%",
      " progress. Current status: " + p.current + ". Want me to update the progress percentage?");
  }

  const ProjectNotFound := "Project not found. Available: "

  /** `updateProjectProgress(projectId)`, which only reads the store: the progress of
      the first matching project, or the names of all projects. */
  function ProjectReply(s: Store, projectId: string): string {
    if !s.present then "No projects found."
    else match FirstProjectMatch(s.projects, projectId)
      case Some(k) => ProgressReply(s.projects[k])
      case None => ProjectNotFound + Join(ProjectNameList(s.projects), ", ")
  }

  /** The reply says "not found" exactly when the file exists and no project matches. */
  lemma ProjectReplyCases(s: Store, projectId: string)
    ensures !s.present ==> ProjectReply(s, projectId) == "No projects found."
    ensures s.present ==>
      (StartsWith(ProjectReply(s, projectId), ProjectNotFound) <==>
       forall j | 0 <= j < |s.projects| :: !ProjectMatches(s.projects[j], projectId))
  {
    if s.present && FirstProjectMatch(s.projects, projectId).Some? {
      var r := ProjectReply(s, projectId);
      StartsWithHead(r, ProjectNotFound);
      assert r[0] == '"';
    }
  }

  /** A project whose id is the asked id is found, at its index or earlier. */
  lemma OwnIdFound(projects: seq<Project>, k: nat)
    requires k < |projects|
    ensures FirstProjectMatch(projects, projects[k].id).Some?
    ensures FirstProjectMatch(projects, projects[k].id).value <= k
  {
    assert OccursAt(projects[k].id, projects[k].id, 0);
  }

  function LoggedReply(entry: string): string {
    "Logged: \"" + entry + "\" to your work log."
  }

  /** `addWorkLog(entry)`: one entry of kind "voice" in front of the work log. */
  function WorkLogOutcome(s: Store, entry: string, id: string, now: string): (o: Outcome)
    ensures o.store.present && o.store.tasks == s.tasks && o.store.projects == s.projects
    ensures |o.store.workLog| == |s.workLog| + 1 && o.store.workLog[1..] == s.workLog
    ensures o.store.workLog[0].text == entry && o.store.workLog[0].kind == "voice"
  {
    Outcome(LoggedReply(entry), WithLogEntry(s, LogEntry(id, entry, "voice", now)))
  }

  /** `executeVoiceTask(message)`: the reply, `None` for `null`, and the store after. */
  function VoiceTaskOutcome(s: Store, message: string, id: string, now: string): Option<Outcome> {
    CommandOutcome(s, Classify(message), id, now)
  }

  /** What running `command` answers and leaves: only creating, completing and
      logging write the store. */
  function CommandOutcome(s: Store, command: Command, id: string, now: string): (r: Option<Outcome>)
    ensures r.None? <==> command == NoCommand
    ensures r.Some? && !command.CreateTask? && !command.CompleteTask? && !command.LogWork? ==> r.value.store == s
  {
    match command
    case CreateTask(title) => Some(CreateOutcome(s, title, id, now))
    case CompleteTask(name) => Some(StatusOutcome(s, name, "completed", now))
    case ProjectStatus(projectId) => Some(Outcome(ProjectReply(s, projectId), s))
    case EmailAction => Some(Outcome(EmailReply, s))
    case CalendarAction => Some(Outcome(CalendarReply, s))
    case LogWork(entry) => Some(WorkLogOutcome(s, entry, id, now))
    case NoCommand => None
  }

  // ---------------------------------------------------------------------------
  // The operations on the data file

  method CreateTaskIn(file: DataFile, title: string, id: string, now: string) returns (reply: string)
    requires file.Valid()
    modifies file
    ensures file.Valid()
    ensures Outcome(reply, file.Value()) == CreateOutcome(old(file.Value()), title, id, now)
  {
    file.PrependTask(VoiceTask(id, title, now), VoiceCreationEntry(id, title, now));
    reply := CreatedReply(title);
  }

  method UpdateTaskStatus(file: DataFile, name: string, status: string, now: string) returns (reply: string)
    requires file.Valid()
    modifies file
    ensures file.Valid()
    ensures Outcome(reply, file.Value()) == StatusOutcome(old(file.Value()), name, status, now)
  {
    if !file.present {
      return "No tasks found.";
    }
    var k := file.SetMatchStatus(name, status, now);
    if k.Some? {
      reply := MarkedReply(file.tasks[k.value].title, status);
    } else {
      reply := NotFoundReply(name, file.tasks);
    }
  }

  method AddWorkLog(file: DataFile, entry: string, id: string, now: string) returns (reply: string)
    requires file.Valid()
    modifies file
    ensures file.Valid()
    ensures Outcome(reply, file.Value()) == WorkLogOutcome(old(file.Value()), entry, id, now)
  {
    file.PrependLogEntry(LogEntry(id, entry, "voice", now));
    reply := LoggedReply(entry);
  }

  method ExecuteVoiceTask(file: DataFile, message: string, id: string, now: string) returns (r: Option<string>)
    requires file.Valid()
    modifies file
    ensures file.Valid()
    ensures match VoiceTaskOutcome(old(file.Value()), message, id, now)
      case None => r.None? && file.Value() == old(file.Value())
      case Some(o) => r == Some(o.reply) && file.Value() == o.store
  {
    r := Perform(file, Classify(message), id, now);
  }

  method Perform(file: DataFile, command: Command, id: string, now: string) returns (r: Option<string>)
    requires file.Valid()
    modifies file
    ensures file.Valid()
    ensures match CommandOutcome(old(file.Value()), command, id, now)
      case None => r.None? && file.Value() == old(file.Value())
      case Some(o) => r == Some(o.reply) && file.Value() == o.store
  {
    match command
    case CreateTask(title) =>
      var reply := CreateTaskIn(file, title, id, now);
      r := Some(reply);
    case CompleteTask(name) =>
      var reply := UpdateTaskStatus(file, name, "completed", now);
      r := Some(reply);
    case ProjectStatus(projectId) =>
      r := Some(ProjectReply(file.Value(), projectId));
    case EmailAction =>
      r := Some(EmailReply);
    case CalendarAction =>
      r := Some(CalendarReply);
    case LogWork(entry) =>
      var reply := AddWorkLog(file, entry, id, now);
      r := Some(reply);
    case NoCommand =>
      r := None;
  }

  // ---------------------------------------------------------------------------
  // POST /voice-command

  datatype CommandResponse =
    | BadRequest(error: string)
    /** `{ text: result }`; the text is `null` when no rule acted. */
    | Executed(text: Option<string>)

  /** The handler: an empty message is refused; otherwise the request is registered
      in the pending table (its 30-second timer is the table's timeout event) and
      the command is executed on the data file. */
  method VoiceCommand(file: DataFile, table: VoiceRequests.PendingTable, message: string, id: string, now: string)
    returns (r: CommandResponse, promise: Option<nat>)
    requires file.Valid() && table.Valid()
    modifies file, table
    ensures file.Valid() && table.Valid()
    ensures message == "" ==> r == BadRequest("Message required") && promise.None?
    ensures message == "" ==> file.Value() == old(file.Value()) && table.Value() == old(table.Value())
    ensures message != "" ==> promise == Some(old(table.next))
    ensures message != "" ==> table.Value() == VoiceRequests.AfterRegister(old(table.Value()), id, old(table.next))
    ensures message != "" ==> match VoiceTaskOutcome(old(file.Value()), message, id, now)
      case None => r == Executed(None) && file.Value() == old(file.Value())
      case Some(o) => r == Executed(Some(o.reply)) && file.Value() == o.store
  {
    if message == "" {
      return BadRequest("Message required"), None;
    }
    var p := table.Register(id);
    var text := ExecuteVoiceTask(file, message, id, now);
    r, promise := Executed(text), Some(p);
  }
}
