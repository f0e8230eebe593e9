/** The backup server (`server-backup.js`): the `/api/chat` rule chain, its local
    task actions (`executeVoiceTask`), `POST /api/tasks` and the project progress
    endpoint.

    The chat handler tests the lower-cased message against an ordered chain of
    rules; the first rule that fires answers. The add-task and complete-task rules
    pull an argument out of the message and are skipped when it comes out empty.
    Replies that come from outside the server (the agent, the mail and calendar
    tools, `systemctl`, the weather tool, the clock, the store summaries) are
    `Deferred`: the model fixes which rule answers, not the wording. */
module ServerBackup {
  import opened Text
  import opened TaskData

  // ---------------------------------------------------------------------------
  // The keywords of the rule chain, in source order

  const AddTaskPhrases: seq<string> := ["add task", "create task", "new task"]
  const CompleteVerbs: seq<string> := ["mark", "complete", "finish"]
  const CompleteTargets: seq<string> := ["task", "as done"]
  const CompletePhrases: seq<string> := ["mark task", "complete task", "finish task"]
  /** The 23 words of `needsFullAgent`, kept as two halves of the one list. */
  const AgentVerbs: seq<string> :=
    ["build", "restart", "deploy", "create", "fix", "update", "install", "configure", "search", "research", "write"]
  const AgentTopics: seq<string> :=
    ["code", "script", "server", "system", "file", "directory", "git", "push", "commit", "terminal", "command", "run"]
  const AgentKeywords: seq<string> := AgentVerbs + AgentTopics
  const AddressPrefixes: seq<string> := ["hey", "jarvis", "can you", "please"]
  const EmailWords: seq<string> := ["email", "inbox", "unread"]
  const CalendarWords: seq<string> := ["calendar", "schedule", "meeting", "appointment"]
  const QueryVerbs: seq<string> := ["what", "show", "list", "get"]
  const QueryTargets: seq<string> := ["task", "todo"]
  const ActionWords: seq<string> := ["add", "create", "mark", "complete", "finish"]
  const ProjectWords: seq<string> := ["project", "thinknlocal", "aqulos"]
  const WeatherWords: seq<string> := ["weather", "temperature"]
  const TimeWords: seq<string> := ["time", "what time", "clock"]
  const HealthWords: seq<string> := ["how are you", "status", "health"]

  // ---------------------------------------------------------------------------
  // The tests, on the lower-cased message `l`

  /** One of the add phrases occurs. */
  predicate AddTaskMentioned(l: string) {
    ContainsAny(l, AddTaskPhrases)
  }

  /** A completion verb followed, somewhere later, by "task" or "as done"; or a
      completion verb directly followed by " task". */
  predicate CompleteMentioned(l: string) {
    AnyOccursBefore(l, CompleteVerbs, CompleteTargets) || ContainsAny(l, CompletePhrases)
  }

  /** "server" or "system" followed later by "status", or "check" followed later
      by "server". */
  predicate ServerStatusAsked(l: string) {
    OccursBefore(l, "server", "status") || OccursBefore(l, "system", "status") || OccursBefore(l, "check", "server")
  }

  /** The message needs the full agent: it holds one of the agent keywords or
      begins with one of the ways of addressing Jarvis. */
  predicate NeedsFullAgent(l: string) {
    ContainsAny(l, AgentKeywords) || StartsWithAny(l, AddressPrefixes)
  }

  predicate EmailAsked(l: string) {
    ContainsAny(l, EmailWords)
  }

  predicate CalendarAsked(l: string) {
    ContainsAny(l, CalendarWords)
  }

  /** A question word at the start followed later by "task" or "todo"; or "task"
      with none of the action words. */
  predicate TaskQueryAsked(l: string) {
    StartsThenContains(l, QueryVerbs, QueryTargets) || (Contains(l, "task") && !ContainsAny(l, ActionWords))
  }

  predicate ProjectAsked(l: string) {
    ContainsAny(l, ProjectWords)
  }

  predicate WeatherAsked(l: string) {
    ContainsAny(l, WeatherWords)
  }

  predicate TimeAsked(l: string) {
    ContainsAny(l, TimeWords)
  }

  predicate Greeted(l: string) {
    Contains(l, "hello") || Contains(l, "hi ") || l == "hi"
  }

  predicate HealthAsked(l: string) {
    ContainsAny(l, HealthWords)
  }

  // ---------------------------------------------------------------------------
  // Argument extraction

  /** The add-task argument: everything up to the last add phrase and the colons
      and blanks after it is cut, and the rest trimmed. */
  function TaskTitle(message: string): string {
    Trim(StripThroughLast(message, AddTaskPhrases))
  }

  /** The complete-task argument: everything up to the last completion verb and
      the colons and blanks after it is cut, then the first "task", the first
      "as done" and the first "completed" are each removed once, case-insensitively,
      and the rest trimmed. */
  function TaskName(message: string): string {
    var afterVerb := StripThroughLast(message, CompleteVerbs);
    Trim(RemoveFirst(RemoveFirst(RemoveFirst(afterVerb, ["task"], false), ["as done"], false), ["completed"], false))
  }

  // ---------------------------------------------------------------------------
  // The rule chain

  datatype Route =
    | AddTask(title: string)
    | CompleteTask(name: string)
    | ServerStatus
    | Delegate
    | Email
    | Calendar
    | TaskQuery
    | ProjectQuery
    | Weather
    | Time
    | Greeting
    | Health
    | Capabilities

  /** The outcome of every test of the chain on one message, with the arguments the
      first two rules extract. */
  datatype Signals = Signals(
    addTask: bool, title: string, completeTask: bool, name: string,
    serverStatus: bool, fullAgent: bool, email: bool, calendar: bool, taskQuery: bool,
    project: bool, weather: bool, time: bool, greeting: bool, health: bool)

  function SignalsOf(message: string): Signals {
    var l := Lower(message);
    Signals(
      AddTaskMentioned(l), TaskTitle(message), CompleteMentioned(l), TaskName(message),
      ServerStatusAsked(l), NeedsFullAgent(l), EmailAsked(l), CalendarAsked(l), TaskQueryAsked(l),
      ProjectAsked(l), WeatherAsked(l), TimeAsked(l), Greeted(l), HealthAsked(l))
  }

  /** The if-chain of the handler over the test outcomes `g`. */
  function Chain(message: string, g: Signals): Route {
    if g.addTask && g.title != "" && g.title != message then AddTask(g.title)
    else if g.completeTask && g.name != "" then CompleteTask(g.name)
    else if g.serverStatus then ServerStatus
    else if g.fullAgent then Delegate
    else if g.email then Email
    else if g.calendar then Calendar
    else if g.taskQuery then TaskQuery
    else if g.project then ProjectQuery
    else if g.weather then Weather
    else if g.time then Time
    else if g.greeting then Greeting
    else if g.health then Health
    else Capabilities
  }

  /** The rule that answers a non-empty message. */
  function Classify(message: string): Route {
    Chain(message, SignalsOf(message))
  }

  // ---------------------------------------------------------------------------
  // Rule precedence, against an independent list of the rules

  datatype Rule =
    | AddTaskRule | CompleteTaskRule | ServerStatusRule | DelegateRule | EmailRule | CalendarRule
    | TaskQueryRule | ProjectRule | WeatherRule | TimeRule | GreetingRule | HealthRule

  const RuleOrder: seq<Rule> :=
    [AddTaskRule, CompleteTaskRule, ServerStatusRule, DelegateRule, EmailRule, CalendarRule,
     TaskQueryRule, ProjectRule, WeatherRule, TimeRule, GreetingRule, HealthRule]

  /** Whether `rule` would answer if it were tried. */
  predicate Fires(rule: Rule, message: string, g: Signals) {
    match rule
    case AddTaskRule => g.addTask && g.title != "" && g.title != message
    case CompleteTaskRule => g.completeTask && g.name != ""
    case ServerStatusRule => g.serverStatus
    case DelegateRule => g.fullAgent
    case EmailRule => g.email
    case CalendarRule => g.calendar
    case TaskQueryRule => g.taskQuery
    case ProjectRule => g.project
    case WeatherRule => g.weather
    case TimeRule => g.time
    case GreetingRule => g.greeting
    case HealthRule => g.health
  }

  function RouteOf(rule: Rule, g: Signals): Route {
    match rule
    case AddTaskRule => AddTask(g.title)
    case CompleteTaskRule => CompleteTask(g.name)
    case ServerStatusRule => ServerStatus
    case DelegateRule => Delegate
    case EmailRule => Email
    case CalendarRule => Calendar
    case TaskQueryRule => TaskQuery
    case ProjectRule => ProjectQuery
    case WeatherRule => Weather
    case TimeRule => Time
    case GreetingRule => Greeting
    case HealthRule => Health
  }

  /** The first rule of `RuleOrder` that fires decides the answer. */
  lemma FirstFiringRuleDecides(message: string, g: Signals, i: nat)
    requires i < |RuleOrder| && Fires(RuleOrder[i], message, g)
    requires forall j | 0 <= j < i :: !Fires(RuleOrder[j], message, g)
    ensures Chain(message, g) == RouteOf(RuleOrder[i], g)
  {
    if i > 0 { assert !Fires(RuleOrder[0], message, g); }
    if i > 1 { assert !Fires(RuleOrder[1], message, g); }
    if i > 2 { assert !Fires(RuleOrder[2], message, g); }
    if i > 3 { assert !Fires(RuleOrder[3], message, g); }
    if i > 4 { assert !Fires(RuleOrder[4], message, g); }
    if i > 5 { assert !Fires(RuleOrder[5], message, g); }
    if i > 6 { assert !Fires(RuleOrder[6], message, g); }
    if i > 7 { assert !Fires(RuleOrder[7], message, g); }
    if i > 8 { assert !Fires(RuleOrder[8], message, g); }
    if i > 9 { assert !Fires(RuleOrder[9], message, g); }
    if i > 10 { assert !Fires(RuleOrder[10], message, g); }
  }

  /** The capabilities list answers exactly when no rule fires. */
  lemma FallbackWhenNoRuleFires(message: string, g: Signals)
    ensures Chain(message, g) == Capabilities <==> forall j | 0 <= j < |RuleOrder| :: !Fires(RuleOrder[j], message, g)
  {
    if Chain(message, g) == Capabilities {
      forall j | 0 <= j < |RuleOrder| ensures !Fires(RuleOrder[j], message, g) {
      }
    }
    if forall j | 0 <= j < |RuleOrder| :: !Fires(RuleOrder[j], message, g) {
      assert !Fires(RuleOrder[0], message, g) && !Fires(RuleOrder[1], message, g);
      assert !Fires(RuleOrder[2], message, g) && !Fires(RuleOrder[3], message, g);
      assert !Fires(RuleOrder[4], message, g) && !Fires(RuleOrder[5], message, g);
      assert !Fires(RuleOrder[6], message, g) && !Fires(RuleOrder[7], message, g);
      assert !Fires(RuleOrder[8], message, g) && !Fires(RuleOrder[9], message, g);
      assert !Fires(RuleOrder[10], message, g) && !Fires(RuleOrder[11], message, g);
    }
  }

  /** How the chain hands the extracted arguments on. */
  lemma ChainArguments(message: string, g: Signals)
    ensures Chain(message, g).AddTask? <==> g.addTask && g.title != "" && g.title != message
    ensures Chain(message, g).AddTask? ==> Chain(message, g).title == g.title
    ensures Chain(message, g).CompleteTask? <==> !Chain(message, g).AddTask? && g.completeTask && g.name != ""
    ensures Chain(message, g).CompleteTask? ==> Chain(message, g).name == g.name
  {
  }

  /** Whenever an add phrase occurs, the title is shorter than the message, so it
      can never equal it. */
  lemma AddTitleShorter(message: string)
    requires AddTaskMentioned(Lower(message))
    ensures |TaskTitle(message)| < |message|
  {
    var x := StripThroughLast(message, AddTaskPhrases);
    StripThroughLastDrops(message, AddTaskPhrases, 8);
    TrimSpec(x);
  }

  /** A task is added exactly when an add phrase occurs and the extracted title is
      not empty: the `title !== message` guard never rejects. */
  lemma AddTaskGuard(message: string)
    ensures Classify(message).AddTask? <==> AddTaskMentioned(Lower(message)) && TaskTitle(message) != ""
    ensures Classify(message).AddTask? ==> Classify(message).title == TaskTitle(message)
  {
    ChainArguments(message, SignalsOf(message));
    if AddTaskMentioned(Lower(message)) {
      AddTitleShorter(message);
    }
  }

  /** A task is completed exactly when no task is added, a complete phrase occurs
      and the extracted name is not empty. */
  lemma CompleteTaskGuard(message: string)
    ensures Classify(message).CompleteTask? <==>
      !Classify(message).AddTask? && CompleteMentioned(Lower(message)) && TaskName(message) != ""
    ensures Classify(message).CompleteTask? ==> Classify(message).name == TaskName(message)
  {
    ChainArguments(message, SignalsOf(message));
  }

  /** The title holds no add phrase any more, so extracting it again gives it back. */
  lemma TitleIsClean(message: string)
    ensures !AddTaskMentioned(Lower(TaskTitle(message)))
    ensures TaskTitle(TaskTitle(message)) == TaskTitle(message)
  {
    var x := StripThroughLast(message, AddTaskPhrases);
    StripThroughLastClears(message, AddTaskPhrases);
    TrimKeepsAbsence(x, AddTaskPhrases);
    var t := Trim(x);
    StripThroughLastShortens(t, AddTaskPhrases);
    StripThroughLastSuffix(t, AddTaskPhrases);
    TrimSpec(x);
    TrimOfTrimmed(t);
  }

  /** A message that says "create" without an add phrase never adds a task: unless
      the complete-task or the server-status rule answers first, the agent gets it. */
  lemma CreateWithoutTaskPhrase(message: string)
    requires Contains(Lower(message), "create") && !AddTaskMentioned(Lower(message))
    ensures var r := Classify(message); r.CompleteTask? || r == ServerStatus || r == Delegate
  {
    var l := Lower(message);
    assert AgentKeywords[3] == "create";
    assert NeedsFullAgent(l);
    ChainArguments(message, SignalsOf(message));
  }

  // ---------------------------------------------------------------------------
  // Replies

  function GreetingText(hour: int): string {
    var greeting := if hour < 12 then "Good morning" else if hour < 17 then "Good afternoon" else "Good evening";
    greeting + GreetingOffer
  }

  const GreetingOffer: string :=
    ", Kris! I'm Jarvis Voice. I can check your emails, calendar, tasks, and projects in real-time. What would you like to know?"

  const HealthText: string :=
    "All systems operational. I'm connected to your Gmail, calendar, and dashboard. I can read emails, check your schedule, manage tasks, and update projects\U{2014}all by voice. What would you like me to do?"

  /** The lines of the capabilities reply, joined with line feeds. */
  function FallbackLines(message: string): seq<string> {
    ["I heard you say: \"" + message + "\""] + CapabilityLines
  }

  /** The capabilities reply after the echoed message. */
  const CapabilityLines: seq<string> :=
    [ "",
      "Here's what I can do:",
      "\U{2022} **Add tasks** \U{2014} \"Add task: Call John tomorrow\"",
      "\U{2022} **Complete tasks** \U{2014} \"Mark [task name] as done\"",
      "\U{2022} **Check emails** \U{2014} \"What emails do I have?\"",
      "\U{2022} **View calendar** \U{2014} \"What's my schedule?\"",
      "\U{2022} **See projects** \U{2014} \"Show my projects\"",
      "\U{2022} **Check weather** \U{2014} \"What's the weather?\"",
      "",
      "What would you like me to do?" ]

  function FallbackText(message: string): string {
    Join(FallbackLines(message), "\n")
  }

  /** The capabilities reply quotes the message verbatim. */
  lemma FallbackEchoes(message: string)
    ensures Contains(FallbackText(message), message)
  {
    var lines := FallbackLines(message);
    ContainsMiddle("I heard you say: \"", message, "\"");
    PartInJoin(lines, "\n", 0, message);
  }

  // ---------------------------------------------------------------------------
  // executeVoiceTask

  /** The task `executeVoiceTask('add', title)` creates. */
  function AddReply(title: string): string {
    "\U{2705} Task created: \"" + title + "\". It's in your pending tasks. Want me to mark it as in-progress?"
  }

  function CompletedReply(title: string): string {
    "\U{2705} Marked \"" + title + "\" as completed. Great work!"
  }

  function MissReply(name: string, tasks: seq<Task>): string {
    "I couldn't find a task matching \"" + name + "\". Your recent tasks are: " + Join(Quoted(LeadingTitles(tasks, 3)), ", ")
  }

  /** `executeVoiceTask('add', title)`: one pending task in front, one log entry in
      front, nothing else touched. */
  function AddOutcome(s: Store, title: string, id: string, now: string): (o: Outcome)
    ensures o.store.present && o.store.projects == s.projects
    ensures |o.store.tasks| == |s.tasks| + 1 && o.store.tasks[1..] == s.tasks
    ensures o.store.tasks[0].title == title && o.store.tasks[0].status == "pending"
    ensures o.store.tasks[0].priority == "medium" && o.store.tasks[0].assignee == "Jarvis"
    ensures |o.store.workLog| == |s.workLog| + 1 && o.store.workLog[1..] == s.workLog
    ensures o.store.workLog[0].kind == "task"
  {
    var entry := VoiceCreationEntry(id, title, now);
    Outcome(AddReply(title), WithNewTask(s, VoiceTask(id, title, now), entry))
  }

  /** `executeVoiceTask('complete', name)`: without a data file nothing happens;
      otherwise the first task whose title matches `name` becomes "completed" and no
      other task changes; without a match the store is unchanged. */
  function CompleteOutcome(s: Store, name: string, now: string): (o: Outcome)
    ensures o.store.present == s.present && o.store.projects == s.projects && o.store.workLog == s.workLog
    ensures |o.store.tasks| == |s.tasks|
    ensures !s.present ==> o == Outcome("No tasks found.", s)
    ensures s.present ==> match FirstTitleMatch(s.tasks, name)
      case None => o == Outcome(MissReply(name, s.tasks), s)
      case Some(k) =>
        && o.reply == CompletedReply(s.tasks[k].title)
        && o.store.tasks[k] == s.tasks[k].(status := "completed", updated := now)
        && forall j | 0 <= j < |s.tasks| && j != k :: o.store.tasks[j] == s.tasks[j]
  {
    if !s.present then Outcome("No tasks found.", s)
    else match FirstTitleMatch(s.tasks, name)
      case None => Outcome(MissReply(name, s.tasks), s)
      case Some(k) => Outcome(CompletedReply(s.tasks[k].title), s.(tasks := WithStatusAt(s.tasks, k, "completed", now)))
  }

  /** `executeVoiceTask(action, data)`; `None` is its `null`. */
  function VoiceTaskOutcome(s: Store, action: string, data: string, id: string, now: string): Option<Outcome> {
    if action == "add" then Some(AddOutcome(s, data, id, now))
    else if action == "complete" then Some(CompleteOutcome(s, data, now))
    else None
  }

  method ExecuteVoiceTask(file: DataFile, action: string, data: string, id: string, now: string) returns (r: Option<string>)
    requires file.Valid()
    modifies file
    ensures file.Valid()
    ensures match VoiceTaskOutcome(old(file.Value()), action, data, id, now)
      case None => r.None? && file.Value() == old(file.Value())
      case Some(o) => r == Some(o.reply) && file.Value() == o.store
  {
    if action == "add" {
      file.PrependTask(VoiceTask(id, data, now), VoiceCreationEntry(id, data, now));
      r := Some(AddReply(data));
    } else if action == "complete" {
      if !file.present {
        return Some("No tasks found.");
      }
      var k := file.SetMatchStatus(data, "completed", now);
      if k.Some? {
        r := Some(CompletedReply(file.tasks[k.value].title));
      } else {
        r := Some(MissReply(data, file.tasks));
      }
    } else {
      r := None;
    }
  }

  // ---------------------------------------------------------------------------
  // POST /api/chat

  datatype Response =
    | BadRequest(error: string)
    | Answer(route: Route, text: string)
    /** Answered with text the model does not produce (agent, tools, clock, summaries). */
    | Deferred(route: Route)

  datatype Exchange = Exchange(response: Response, store: Store)

  /** The reply of a rule that leaves the store alone. */
  function FixedAnswer(message: string, route: Route, hour: int): (r: Response)
    ensures (r.Answer? || r.Deferred?) && r.route == route
  {
    match route
    case Greeting => Answer(route, GreetingText(hour))
    case Health => Answer(route, HealthText)
    case Capabilities => Answer(route, FallbackText(message))
    case _ => Deferred(route)
  }

  /** The reply of the rule `route` and the store it leaves: only the two task rules
      touch the store. */
  function Answering(s: Store, message: string, route: Route, id: string, now: string, hour: int): (x: Exchange)
    ensures (x.response.Answer? || x.response.Deferred?) && x.response.route == route
    ensures !route.AddTask? && !route.CompleteTask? ==> x.store == s
  {
    match route
    case AddTask(title) =>
      var o := AddOutcome(s, title, id, now);
      Exchange(Answer(route, o.reply), o.store)
    case CompleteTask(name) =>
      var o := CompleteOutcome(s, name, now);
      Exchange(Answer(route, o.reply), o.store)
    case _ => Exchange(FixedAnswer(message, route, hour), s)
  }

  /** The whole handler: the empty message, and only it, is refused, and changes
      nothing; any other message is answered by the rule the chain picks, and only
      the two task rules write the store. */
  function ChatExchange(s: Store, message: string, id: string, now: string, hour: int): (x: Exchange)
    ensures message == "" <==> x.response.BadRequest?
    ensures message == "" ==> x.store == s
    ensures message != "" ==> x.response.route == Classify(message)
    ensures message != "" && Classify(message).AddTask? ==>
      x.store == AddOutcome(s, Classify(message).title, id, now).store
    ensures message != "" && Classify(message).CompleteTask? ==>
      x.store == CompleteOutcome(s, Classify(message).name, now).store
    ensures message != "" && !Classify(message).AddTask? && !Classify(message).CompleteTask? ==> x.store == s
  {
    if message == "" then Exchange(BadRequest("Message is required"), s)
    else Answering(s, message, Classify(message), id, now, hour)
  }

  method Chat(file: DataFile, message: string, id: string, now: string, hour: int) returns (r: Response)
    requires file.Valid()
    modifies file
    ensures file.Valid()
    ensures Exchange(r, file.Value()) == ChatExchange(old(file.Value()), message, id, now, hour)
  {
    if message == "" {
      return BadRequest("Message is required");
    }
    var route := Classify(message);
    r := Respond(file, message, route, id, now, hour);
  }

  /** Carries out the rule `route` picked. */
  method Respond(file: DataFile, message: string, route: Route, id: string, now: string, hour: int) returns (r: Response)
    requires file.Valid()
    modifies file
    ensures file.Valid()
    ensures Exchange(r, file.Value()) == Answering(old(file.Value()), message, route, id, now, hour)
  {
    match route
    case AddTask(title) =>
      var result := ExecuteVoiceTask(file, "add", title, id, now);
      r := Answer(route, result.value);
    case CompleteTask(name) =>
      var result := ExecuteVoiceTask(file, "complete", name, id, now);
      r := Answer(route, result.value);
    case _ =>
      r := FixedAnswer(message, route, hour);
  }

  /** A bare "add task" adds nothing: its title comes out empty, no later rule
      fires, and the capabilities reply quotes the message back. */
  lemma BareAddTaskFallsBack(s: Store, message: string, id: string, now: string, hour: int)
    requires Lower(message) == "add task"
    ensures Classify(message) == Capabilities
    ensures ChatExchange(s, message, id, now, hour) == Exchange(Answer(Capabilities, FallbackText(message)), s)
    ensures Contains(FallbackText(message), message)
  {
    BareAddTaskRoute(message);
    assert message != "" by {
      assert |Lower(message)| == 8;
    }
    CapabilitiesAnswer(s, message, id, now, hour);
    FallbackEchoes(message);
  }

  lemma CapabilitiesAnswer(s: Store, message: string, id: string, now: string, hour: int)
    ensures Answering(s, message, Capabilities, id, now, hour) == Exchange(Answer(Capabilities, FallbackText(message)), s)
  {
  }

  lemma BareAddTaskRoute(message: string)
    requires Lower(message) == "add task"
    ensures Classify(message) == Capabilities
  {
    var l := Lower(message);
    BareAddTaskTitle(message);
    BareAddTaskNoActionRule(l);
    BareAddTaskNoAgent(l);
    BareAddTaskNoQuery(l);
    BareAddTaskNoSmallTalk(l);
  }

  lemma BareAddTaskTitle(message: string)
    requires Lower(message) == "add task"
    ensures TaskTitle(message) == ""
  {
    assert OccursAt(Lower(message), AddTaskPhrases[0], 0);
    StripThroughLastDrops(message, AddTaskPhrases, 8);
  }

  lemma BareAddTaskNoActionRule(l: string)
    requires l == "add task"
    ensures !CompleteMentioned(l) && !ServerStatusAsked(l)
  {
    AbsentWords(l, CompleteVerbs, "mcf");
    AbsentWords(l, CompletePhrases, "mcf");
    NotContainsByChar(l, "server", 'e');
    NotContainsByChar(l, "system", 'y');
    NotContainsByChar(l, "check", 'c');
    AnyOccursBeforeContains(l, CompleteVerbs, CompleteTargets);
    OccursBeforeContains(l, "server", "status");
    OccursBeforeContains(l, "system", "status");
    OccursBeforeContains(l, "check", "server");
  }

  lemma BareAddTaskNoAgent(l: string)
    requires l == "add task"
    ensures !NeedsFullAgent(l)
  {
    ContainsAnyConcat(l, AgentVerbs, AgentTopics);
    BareAddTaskNoAgentVerb(l);
    BareAddTaskNoAgentTopic(l);
    forall k | 0 <= k < |AddressPrefixes| ensures !StartsWith(l, AddressPrefixes[k]) {
      StartsWithHead(l, AddressPrefixes[k]);
    }
  }

  lemma BareAddTaskNoAgentVerb(l: string)
    requires l == "add task"
    ensures !ContainsAny(l, AgentVerbs)
  {
    AbsentWords(l, AgentVerbs, "brecfuicerw");
  }

  lemma BareAddTaskNoAgentTopic(l: string)
    requires l == "add task"
    ensures !ContainsAny(l, AgentTopics)
  {
    AbsentWords(l, AgentTopics, "cceyfigpcecr");
  }

  lemma BareAddTaskNoQuery(l: string)
    requires l == "add task"
    ensures !EmailAsked(l) && !CalendarAsked(l) && !TaskQueryAsked(l) && !ProjectAsked(l)
  {
    BareAddTaskNoMail(l);
    AbsentWords(l, ProjectWords, "phq");
    forall k | 0 <= k < |QueryVerbs| ensures !StartsWith(l, QueryVerbs[k]) {
      StartsWithHead(l, QueryVerbs[k]);
    }
    assert OccursAt(l, ActionWords[0], 0);
  }

  lemma BareAddTaskNoMail(l: string)
    requires l == "add task"
    ensures !EmailAsked(l) && !CalendarAsked(l)
  {
    AbsentWords(l, EmailWords, "eiu");
    AbsentWords(l, CalendarWords, "ccmp");
  }

  lemma BareAddTaskNoSmallTalk(l: string)
    requires l == "add task"
    ensures !WeatherAsked(l) && !TimeAsked(l) && !Greeted(l) && !HealthAsked(l)
  {
    AbsentWords(l, WeatherWords, "we");
    AbsentWords(l, TimeWords, "iwc");
    AbsentWords(l, HealthWords, "huh");
    NotContainsByChar(l, "hello", 'h');
    NotContainsByChar(l, "hi ", 'h');
  }

  // ---------------------------------------------------------------------------
  // A task added by voice can be completed by voice

  /** A title both extraction rules leave as it is: not empty, trimmed, not
      starting with a separator, and free of "task", of the completion verbs and
      of "as done". */
  predicate PlainTitle(t: string) {
    && t != [] && IsTrimmed(t) && !IsSeparator(t[0])
    && !Contains(Lower(t), "task") && !ContainsAny(Lower(t), CompleteVerbs) && !Contains(Lower(t), "as done")
  }

  /** Each add phrase ends in "task". */
  lemma AddPhraseHasTask(q: nat)
    requires q < |AddTaskPhrases|
    ensures Contains(AddTaskPhrases[q], "task")
  {
    if q == 0 {
      assert OccursAt("add task", "task", 4);
    } else if q == 1 {
      assert OccursAt("create task", "task", 7);
    } else {
      assert OccursAt("new task", "task", 4);
    }
  }

  /** No add phrase starts at or after the end of `a` in `a + L + b` when `L`
      holds no "task" and `b` is empty or " as done". */
  lemma AddPhraseNotInside(a: string, L: string, b: string, q: nat, j: nat)
    requires q < |AddTaskPhrases| && |a| <= j && !Contains(L, "task")
    requires b == [] || b == " as done"
    ensures !OccursAt(a + L + b, AddTaskPhrases[q], j)
  {
    var p := AddTaskPhrases[q];
    var aL := a + L;
    if j >= |aL| {
      OccursInRight(aL, b, p, j);
      if b != [] {
        NotContainsByChar(b, p, 'k');
      }
    } else if j + |p| <= |aL| {
      OccursInLeft(aL, b, p, j);
      OccursInRight(a, L, p, j);
      AddPhraseHasTask(q);
      ContainsInside(L, p, "task");
      assert OccursAt(L, p, j - |a|) ==> Contains(L, p);
    } else if OccursAt(aL + b, p, j) {
      StraddleChars(aL, b, p, j);
      var d := |aL| - j;
      assert b == " as done" && b[0] == p[d];
      assert d + 1 < |p| ==> b[1] == p[d + 1];
      AddPhraseSpaces(q, d);
    }
  }

  /** Inside an add phrase a space is followed by "t". */
  lemma AddPhraseSpaces(q: nat, d: nat)
    requires q < |AddTaskPhrases| && d < |AddTaskPhrases[q]|
    ensures AddTaskPhrases[q][d] == ' ' ==> d + 1 < |AddTaskPhrases[q]| && AddTaskPhrases[q][d + 1] == 't'
  {
  }

  /** In "Add task: T" the only add phrase is the one in front. */
  lemma AddMessageLastPhrase(t: string)
    requires PlainTitle(t)
    ensures Lower("Add task: " + t) == "add task: " + Lower(t)
    ensures LastAny(Lower("Add task: " + t), AddTaskPhrases) == Some(0)
  {
    LowerConcat("Add task: ", t);
    AddMessageLastPhraseOf(Lower(t));
  }

  lemma AddMessageLastPhraseOf(L: string)
    requires !Contains(L, "task")
    ensures LastAny("add task: " + L, AddTaskPhrases) == Some(0)
  {
    var l := "add task: " + L;
    assert OccursAt(l, AddTaskPhrases[0], 0);
    MatchesAtIff(l, AddTaskPhrases, 0);
    forall j | 0 < j <= |l| ensures !MatchesAt(l, AddTaskPhrases, j) {
      MatchesAtIff(l, AddTaskPhrases, j);
      forall q | 0 <= q < |AddTaskPhrases| ensures !OccursAt(l, AddTaskPhrases[q], j) {
        AddMessageNoPhraseAt(L, q, j);
      }
    }
    LastAnyAt(l, AddTaskPhrases, 0);
  }

  lemma AddMessageNoPhraseAt(L: string, q: nat, j: nat)
    requires q < |AddTaskPhrases| && 0 < j && !Contains(L, "task")
    ensures !OccursAt("add task: " + L, AddTaskPhrases[q], j)
  {
    var a := "add task: ";
    if j < |a| {
      OccursHead(a + L, AddTaskPhrases[q], j);
    } else {
      assert a + L == a + L + [];
      AddPhraseNotInside(a, L, [], q, j);
    }
  }

  /** "Add task: T" yields the title T. */
  lemma AddMessageTitle(t: string)
    requires PlainTitle(t)
    ensures AddTaskMentioned(Lower("Add task: " + t))
    ensures TaskTitle("Add task: " + t) == t
  {
    var m := "Add task: " + t;
    AddMessageLastPhrase(t);
    ContainsAnyMatches(Lower(m), AddTaskPhrases);
    assert AltLen(Lower(m), AddTaskPhrases, 0) == 8;
    assert SkipSeparators(m, 10) == 10;
    assert SkipSeparators(m, 8) == 10;
    assert StripThroughLast(m, AddTaskPhrases) == t;
    TrimOfTrimmed(t);
  }

  /** In "mark task T as done" no add phrase occurs. */
  lemma CompleteMessageNoAdd(L: string)
    requires !Contains(L, "task")
    ensures !ContainsAny("mark task " + L + " as done", AddTaskPhrases)
  {
    var a := "mark task ";
    var l := a + L + " as done";
    forall q, j | 0 <= q < |AddTaskPhrases| && 0 <= j <= |l| ensures !OccursAt(l, AddTaskPhrases[q], j) {
      if j < |a| {
        OccursHead(l, AddTaskPhrases[q], j);
      } else {
        AddPhraseNotInside(a, L, " as done", q, j);
      }
    }
  }

  /** No completion verb starts in `L + b` when `L` holds none and `b` is " as done". */
  lemma VerbNotInside(a: string, L: string, q: nat, j: nat)
    requires q < |CompleteVerbs| && |a| <= j && !ContainsAny(L, CompleteVerbs)
    ensures !OccursAt(a + L + " as done", CompleteVerbs[q], j)
  {
    var b := " as done";
    var p := CompleteVerbs[q];
    var aL := a + L;
    if j >= |aL| {
      OccursInRight(aL, b, p, j);
      NotContainsByChar(b, p, p[0]);
    } else if j + |p| <= |aL| {
      OccursInLeft(aL, b, p, j);
      OccursInRight(a, L, p, j);
      OccursAtAny(L, CompleteVerbs, q, j - |a|);
    } else if OccursAt(aL + b, p, j) {
      StraddleChars(aL, b, p, j);
    }
  }

  /** In "mark task T as done" the only completion verb is the one in front. */
  lemma CompleteMessageLastVerb(L: string)
    requires !ContainsAny(L, CompleteVerbs)
    ensures LastAny("mark task " + L + " as done", CompleteVerbs) == Some(0)
  {
    var a := "mark task ";
    var l := a + L + " as done";
    assert OccursAt(l, CompleteVerbs[0], 0);
    MatchesAtIff(l, CompleteVerbs, 0);
    forall j | 0 < j <= |l| ensures !MatchesAt(l, CompleteVerbs, j) {
      MatchesAtIff(l, CompleteVerbs, j);
      forall q | 0 <= q < |CompleteVerbs| ensures !OccursAt(l, CompleteVerbs[q], j) {
        if j < |a| {
          OccursHead(l, CompleteVerbs[q], j);
        } else {
          VerbNotInside(a, L, q, j);
        }
      }
    }
    LastAnyAt(l, CompleteVerbs, 0);
  }

  /** In " T as done" the first "as done" is the one at the end. */
  lemma FirstAsDone(L: string)
    requires !Contains(L, "as done")
    ensures FirstAny(" " + L + " as done", ["as done"]) == Some(|L| + 2)
  {
    var a := " ";
    var b := " as done";
    var p := "as done";
    var aL := a + L;
    var l := aL + b;
    assert OccursAt(l, p, |aL| + 1);
    MatchesAtIff(l, [p], |aL| + 1);
    forall j | 0 <= j <= |aL| ensures !MatchesAt(l, [p], j) {
      MatchesAtIff(l, [p], j);
      if j == 0 || j == |aL| {
        OccursHead(l, p, j);
      } else if j + |p| <= |aL| {
        OccursInLeft(aL, b, p, j);
        OccursInRight(a, L, p, j);
      } else if OccursAt(l, p, j) {
        StraddleChars(aL, b, p, j);
      }
    }
    FirstAnyAt(l, [p], |aL| + 1);
  }

  /** "mark task T as done" yields the name T. */
  lemma CompleteMessageName(t: string)
    requires PlainTitle(t)
    ensures TaskName("mark task " + t + " as done") == t
  {
    var m := "mark task " + t + " as done";
    var L := Lower(t);
    LowerConcat("mark task " + t, " as done");
    LowerConcat("mark task ", t);
    assert Lower(m) == "mark task " + L + " as done";
    CompleteMessageLastVerb(L);
    ContainsAnyMatches(Lower(m), CompleteVerbs);
    assert AltLen(Lower(m), CompleteVerbs, 0) == 4;
    assert SkipSeparators(m, 5) == 5;
    assert SkipSeparators(m, 4) == 5;
    var r1 := "task " + t + " as done";
    assert StripThroughLast(m, CompleteVerbs) == r1;
    RemoveTaskWord(t);
    RemoveAsDone(t);
    NoCompletedAround(t);
    TrimAroundSpaces(t);
  }

  /** The first "task" of "task T as done" is the one in front. */
  lemma RemoveTaskWord(t: string)
    ensures RemoveFirst("task " + t + " as done", ["task"], false) == " " + t + " as done"
  {
    var r := "task " + t + " as done";
    var l := Lower(r);
    assert OccursAt(l, "task", 0) by {
      LowerConcat("task " + t, " as done");
      LowerConcat("task ", t);
      assert l == "task " + Lower(t) + " as done";
    }
    MatchesAtIff(l, ["task"], 0);
    FirstAnyAt(l, ["task"], 0);
    assert AltLen(l, ["task"], 0) == 4;
    assert r[4..] == " " + t + " as done";
  }

  /** Cutting the first "as done" out of " T as done" leaves " T ". */
  lemma RemoveAsDone(t: string)
    requires !Contains(Lower(t), "as done")
    ensures RemoveFirst(" " + t + " as done", ["as done"], false) == " " + t + " "
  {
    var r := " " + t + " as done";
    LowerConcat(" " + t, " as done");
    LowerConcat(" ", t);
    var l := Lower(r);
    assert l == " " + Lower(t) + " as done";
    FirstAsDone(Lower(t));
    assert AltLen(l, ["as done"], |t| + 2) == 7;
    assert r[..|t| + 2] + r[|t| + 9..] == " " + t + " ";
  }

  /** " T " holds no "completed" when T holds no "complete". */
  lemma NoCompletedAround(t: string)
    requires !ContainsAny(Lower(t), CompleteVerbs)
    ensures RemoveFirst(" " + t + " ", ["completed"], false) == " " + t + " "
  {
    LowerConcat(" " + t, " ");
    LowerConcat(" ", t);
    var L := Lower(t);
    assert Lower(" " + t + " ") == " " + L + " ";
    ContainsBeforeSpace(" " + L, "completed");
    ContainsAfterSpace(L, "completed");
    assert OccursAt("completed", "complete", 0);
    ContainsInside(L, "completed", "complete");
    ContainsOneOf(L, CompleteVerbs, 1);
    RemoveFirstAbsent(" " + t + " ", ["completed"], false);
  }

  /** "Add task: T" is routed to adding T. */
  lemma AddMessageRoute(t: string)
    requires PlainTitle(t)
    ensures Classify("Add task: " + t) == AddTask(t)
  {
    AddMessageTitle(t);
    AddTaskGuard("Add task: " + t);
  }

  /** "mark task T as done" is routed to completing T. */
  lemma CompleteMessageRoute(t: string)
    requires PlainTitle(t)
    ensures Classify("mark task " + t + " as done") == CompleteTask(t)
  {
    CompleteMessageFacts(t);
    CompleteMessageName(t);
    CompletesNamed("mark task " + t + " as done", t);
  }

  lemma CompleteMessageFacts(t: string)
    requires PlainTitle(t)
    ensures !AddTaskMentioned(Lower("mark task " + t + " as done"))
    ensures CompleteMentioned(Lower("mark task " + t + " as done"))
  {
    var m := "mark task " + t + " as done";
    LowerConcat("mark task " + t, " as done");
    LowerConcat("mark task ", t);
    var l := Lower(m);
    assert l == "mark task " + Lower(t) + " as done";
    CompleteMessageNoAdd(Lower(t));
    assert OccursAt(l, CompletePhrases[0], 0);
  }

  lemma CompletesNamed(message: string, t: string)
    requires !AddTaskMentioned(Lower(message)) && CompleteMentioned(Lower(message))
    requires TaskName(message) == t && t != ""
    ensures Classify(message) == CompleteTask(t)
  {
    AddTaskGuard(message);
    CompleteTaskGuard(message);
  }

  /** Saying "Add task: T" and then "mark task U as done", where U is T in any
      mix of upper and lower case, puts a pending task T at the head of the list
      and then completes that same task; the tasks that were there before stay
      as they were. */
  lemma AddThenComplete(s: Store, t: string, u: string, id: string, now: string, later: string, hour: int)
    requires PlainTitle(t) && PlainTitle(u) && Lower(u) == Lower(t)
    ensures var added := ChatExchange(s, "Add task: " + t, id, now, hour);
            var done := ChatExchange(added.store, "mark task " + u + " as done", id, later, hour);
            && added.response == Answer(AddTask(t), AddReply(t))
            && added.store.tasks[0] == VoiceTask(id, t, now)
            && done.response == Answer(CompleteTask(u), CompletedReply(t))
            && |done.store.tasks| == |s.tasks| + 1
            && done.store.tasks[0] == VoiceTask(id, t, now).(status := "completed", updated := later)
            && done.store.tasks[1..] == s.tasks
  {
    AddMessageRoute(t);
    CompleteMessageRoute(u);
    AddThenCompleteRouted(s, "Add task: " + t, "mark task " + u + " as done", t, u, id, now, later, hour);
  }

  /** The store half of AddThenComplete: whatever the two messages are, once the
      first is routed to adding T and the second to completing a U equal to T up
      to case, the second completes the task the first added. */
  lemma AddThenCompleteRouted(s: Store, m1: string, m2: string, t: string, u: string,
                              id: string, now: string, later: string, hour: int)
    requires m1 != "" && m2 != "" && Classify(m1) == AddTask(t) && Classify(m2) == CompleteTask(u)
    requires Lower(u) == Lower(t)
    ensures var added := ChatExchange(s, m1, id, now, hour);
            var done := ChatExchange(added.store, m2, id, later, hour);
            && added.response == Answer(AddTask(t), AddReply(t))
            && added.store.tasks[0] == VoiceTask(id, t, now)
            && done.response == Answer(CompleteTask(u), CompletedReply(t))
            && |done.store.tasks| == |s.tasks| + 1
            && done.store.tasks[0] == VoiceTask(id, t, now).(status := "completed", updated := later)
            && done.store.tasks[1..] == s.tasks
  {
    var added := ChatExchange(s, m1, id, now, hour);
    assert added == Answering(s, m1, AddTask(t), id, now, hour);
    AnsweringAdd(s, m1, t, id, now, hour);
    assert added.store.tasks[0].title == t;
    var done := ChatExchange(added.store, m2, id, later, hour);
    assert done == Answering(added.store, m2, CompleteTask(u), id, later, hour);
    AnsweringCompleteHead(added.store, m2, u, id, later, hour);
    assert done.store.tasks[1..] == added.store.tasks[1..];
  }

  /** Adding T answers with the creation reply and puts the voice task first. */
  lemma AnsweringAdd(s: Store, message: string, t: string, id: string, now: string, hour: int)
    ensures Answering(s, message, AddTask(t), id, now, hour).response == Answer(AddTask(t), AddReply(t))
    ensures Answering(s, message, AddTask(t), id, now, hour).store == AddOutcome(s, t, id, now).store
    ensures AddOutcome(s, t, id, now).store.tasks[0] == VoiceTask(id, t, now)
    ensures AddOutcome(s, t, id, now).store.present
  {
  }

  /** Completing a name equal, up to case, to the first task's title marks that
      task, answers with its stored title, and changes nothing else. */
  lemma AnsweringCompleteHead(s: Store, message: string, u: string, id: string, now: string, hour: int)
    requires s.present && |s.tasks| > 0 && Lower(s.tasks[0].title) == Lower(u)
    ensures var x := Answering(s, message, CompleteTask(u), id, now, hour);
            && x.response == Answer(CompleteTask(u), CompletedReply(s.tasks[0].title))
            && |x.store.tasks| == |s.tasks|
            && x.store.tasks[0] == s.tasks[0].(status := "completed", updated := now)
            && x.store.tasks[1..] == s.tasks[1..]
  {
    SameTitleFound(s.tasks, 0, u);
    var o := CompleteOutcome(s, u, now);
    assert o.store.tasks[1..] == s.tasks[1..];
  }

  // ---------------------------------------------------------------------------
  // POST /api/tasks

  datatype PostResult = TitleRequired | Posted(task: Task)

  /** The task `POST /api/tasks` stores: `status` and `priority` default only when
      absent, `description` also when empty. */
  function PostedTask(title: string, description: Option<string>, status: Option<string>,
                      priority: Option<string>, id: string, now: string): (t: Task)
    ensures t.title == title && t.assignee == "Jarvis" && t.created == now && t.updated == now
    ensures t.status == (if status.Some? then status.value else "pending")
    ensures t.priority == (if priority.Some? then priority.value else "medium")
    ensures t.description == (if description.Some? then description.value else "")
  {
    Task(id, title,
      if description.Some? then description.value else "",
      if status.Some? then status.value else "pending",
      if priority.Some? then priority.value else "medium",
      "Jarvis", now, now)
  }

  method PostTask(file: DataFile, title: Option<string>, description: Option<string>, status: Option<string>,
                  priority: Option<string>, id: string, now: string) returns (r: PostResult)
    requires file.Valid()
    modifies file
    ensures file.Valid()
    ensures title.None? || title.value == "" ==> r == TitleRequired && file.Value() == old(file.Value())
    ensures title.Some? && title.value != "" ==>
      && r == Posted(PostedTask(title.value, description, status, priority, id, now))
      && file.Value() == WithNewTask(old(file.Value()), r.task, LogEntry(id, "New task created: " + title.value, "task", now))
  {
    if title.None? || title.value == "" {
      return TitleRequired;
    }
    var task := PostedTask(title.value, description, status, priority, id, now);
    file.PrependTask(task, LogEntry(id, "New task created: " + title.value, "task", now));
    r := Posted(task);
  }

  // ---------------------------------------------------------------------------
  // POST /api/projects/:id/progress

  datatype ProgressResult = NoData | ProjectNotFound | ProgressUpdated(project: Project)

  datatype ProgressOutcome = ProgressOutcome(result: ProgressResult, store: Store)

  /** The progress endpoint: no file, or no project with that id, changes nothing;
      otherwise only that project changes, as `ApplyProgress` says. */
  function ProgressUpdate(s: Store, id: string, progress: Option<string>, current: Option<string>,
                          status: Option<string>, now: string): (o: ProgressOutcome)
    ensures o.store.present == s.present && o.store.tasks == s.tasks && o.store.workLog == s.workLog
    ensures |o.store.projects| == |s.projects|
    ensures !s.present ==> o == ProgressOutcome(NoData, s)
    ensures s.present ==> match FirstProjectWithId(s.projects, id)
      case None => o == ProgressOutcome(ProjectNotFound, s)
      case Some(k) =>
        && o.result == ProgressUpdated(o.store.projects[k])
        && o.store.projects[k] == ApplyProgress(s.projects[k], progress, current, status, now)
        && forall j | 0 <= j < |s.projects| && j != k :: o.store.projects[j] == s.projects[j]
  {
    if !s.present then ProgressOutcome(NoData, s)
    else match FirstProjectWithId(s.projects, id)
      case None => ProgressOutcome(ProjectNotFound, s)
      case Some(k) =>
        var p := ApplyProgress(s.projects[k], progress, current, status, now);
        ProgressOutcome(ProgressUpdated(p), s.(projects := s.projects[k := p]))
  }

  method UpdateProjectProgress(file: DataFile, id: string, progress: Option<string>, current: Option<string>,
                               status: Option<string>, now: string) returns (r: ProgressResult)
    requires file.Valid()
    modifies file
    ensures file.Valid()
    ensures ProgressOutcome(r, file.Value()) == ProgressUpdate(old(file.Value()), id, progress, current, status, now)
  {
    if !file.present {
      return NoData;
    }
    var k := FirstProjectWithId(file.projects, id);
    if k.None? {
      return ProjectNotFound;
    }
    var p := ApplyProgress(file.projects[k.value], progress, current, status, now);
    file.SetProjectAt(k.value, p);
    r := ProgressUpdated(p);
  }
}
