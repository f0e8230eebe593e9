/** The `/api/chat` handler of the simple voice server: an ordered chain of tests
    on the lower-cased message, the first of which answers. Only the add-task
    rule writes the data file; it shares the add-task test and the title
    extraction with the backup server. */
module ServerSimple {
  import opened Text
  import opened TaskData
  import ServerBackup

  const IdentityPhrases: seq<string> := ["your name", "who are you"]
  const CapabilityPhrases: seq<string> := ["what can you do", "help me", "capabilities"]
  const WeatherWords: seq<string> := ["weather", "temperature"]
  const EmailWords: seq<string> := ["email", "inbox"]
  const CalendarWords: seq<string> := ["calendar", "schedule"]
  const TimeWords: seq<string> := ["time", "what time"]
  const AgentWords: seq<string> := ["build", "create", "make", "write", "code", "script", "restart", "fix", "deploy"]

  // ---------------------------------------------------------------------------
  // The tests, on the lower-cased message `l`

  predicate IdentityAsked(l: string) {
    ContainsAny(l, IdentityPhrases)
  }

  predicate CapabilitiesAsked(l: string) {
    ContainsAny(l, CapabilityPhrases)
  }

  predicate WeatherAsked(l: string) {
    ContainsAny(l, WeatherWords)
  }

  predicate EmailAsked(l: string) {
    ContainsAny(l, EmailWords)
  }

  predicate CalendarAsked(l: string) {
    ContainsAny(l, CalendarWords)
  }

  /** The task summary answers a message about tasks that does not mention adding. */
  predicate TaskSummaryAsked(l: string) {
    Contains(l, "task") && !Contains(l, "add")
  }

  predicate TimeAsked(l: string) {
    ContainsAny(l, TimeWords)
  }

  /** A greeting starts with "hello", is exactly "hi", or starts with "hi ". */
  predicate Greeted(l: string) {
    StartsWith(l, "hello") || l == "hi" || StartsWith(l, "hi ")
  }

  predicate AgentAsked(l: string) {
    ContainsAny(l, AgentWords)
  }

  // ---------------------------------------------------------------------------
  // The rule chain

  datatype Route =
    | Created(title: string)
    | Identity
    | Capabilities
    | Weather
    | Email
    | Calendar
    | TaskSummary
    | Time
    | Greeting
    | Agent
    | Fallback

  /** The outcomes of the tests on one message, with the extracted title. */
  datatype Signals = Signals(
    addTask: bool, title: string, identity: bool, capabilities: bool, weather: bool,
    email: bool, calendar: bool, taskSummary: bool, time: bool, greeting: bool, agent: bool)

  function SignalsOf(message: string): Signals {
    var l := Lower(message);
    Signals(
      ServerBackup.AddTaskMentioned(l), ServerBackup.TaskTitle(message), IdentityAsked(l),
      CapabilitiesAsked(l), WeatherAsked(l), EmailAsked(l), CalendarAsked(l),
      TaskSummaryAsked(l), TimeAsked(l), Greeted(l), AgentAsked(l))
  }

  /** The if-chain of the handler over the test outcomes `g`. */
  function Chain(message: string, g: Signals): Route {
    if g.addTask && g.title != "" && g.title != message then Created(g.title)
    else if g.identity then Identity
    else if g.capabilities then Capabilities
    else if g.weather then Weather
    else if g.email then Email
    else if g.calendar then Calendar
    else if g.taskSummary then TaskSummary
    else if g.time then Time
    else if g.greeting then Greeting
    else if g.agent then Agent
    else Fallback
  }

  /** The rule that answers a non-empty message. */
  function Classify(message: string): Route {
    Chain(message, SignalsOf(message))
  }

  // ---------------------------------------------------------------------------
  // Rule precedence, against an independent list of the rules

  datatype Rule =
    | AddTaskRule | IdentityRule | CapabilitiesRule | WeatherRule | EmailRule | CalendarRule
    | TaskSummaryRule | TimeRule | GreetingRule | AgentRule

  const RuleOrder: seq<Rule> :=
    [AddTaskRule, IdentityRule, CapabilitiesRule, WeatherRule, EmailRule, CalendarRule,
     TaskSummaryRule, TimeRule, GreetingRule, AgentRule]

  /** Whether `rule` would answer if it were tried. */
  predicate Fires(rule: Rule, message: string, g: Signals) {
    match rule
    case AddTaskRule => g.addTask && g.title != "" && g.title != message
    case IdentityRule => g.identity
    case CapabilitiesRule => g.capabilities
    case WeatherRule => g.weather
    case EmailRule => g.email
    case CalendarRule => g.calendar
    case TaskSummaryRule => g.taskSummary
    case TimeRule => g.time
    case GreetingRule => g.greeting
    case AgentRule => g.agent
  }

  function RouteOf(rule: Rule, g: Signals): Route {
    match rule
    case AddTaskRule => Created(g.title)
    case IdentityRule => Identity
    case CapabilitiesRule => Capabilities
    case WeatherRule => Weather
    case EmailRule => Email
    case CalendarRule => Calendar
    case TaskSummaryRule => TaskSummary
    case TimeRule => Time
    case GreetingRule => Greeting
    case AgentRule => Agent
  }

  /** The first rule of `RuleOrder` that fires decides the answer. */
  lemma FirstFiringRuleDecides(message: string, g: Signals, i: nat)
    requires i < |RuleOrder| && Fires(RuleOrder[i], message, g)
    requires forall j | 0 <= j < i :: !Fires(RuleOrder[j], message, g)
    ensures Chain(message, g) == RouteOf(RuleOrder[i], g)
  {
    if i > 0 { assert !Fires(RuleOrder[0], message, g); }
    if i > 1 { assert !Fires(RuleOrder[1], message, g); }
    if i > 2 { assert !Fires(RuleOrder[2], message, g); }
    if i > 3 { assert !Fires(RuleOrder[3], message, g); }
    if i > 4 { assert !Fires(RuleOrder[4], message, g); }
    if i > 5 { assert !Fires(RuleOrder[5], message, g); }
    if i > 6 { assert !Fires(RuleOrder[6], message, g); }
    if i > 7 { assert !Fires(RuleOrder[7], message, g); }
    if i > 8 { assert !Fires(RuleOrder[8], message, g); }
  }

  /** The conversational fallback answers exactly when no rule fires. */
  lemma FallbackWhenNoRuleFires(message: string, g: Signals)
    ensures Chain(message, g) == Fallback <==> forall j | 0 <= j < |RuleOrder| :: !Fires(RuleOrder[j], message, g)
  {
    if Chain(message, g) == Fallback {
      forall j | 0 <= j < |RuleOrder| ensures !Fires(RuleOrder[j], message, g) {
      }
    }
    if forall j | 0 <= j < |RuleOrder| :: !Fires(RuleOrder[j], message, g) {
      assert !Fires(RuleOrder[0], message, g) && !Fires(RuleOrder[1], message, g);
      assert !Fires(RuleOrder[2], message, g) && !Fires(RuleOrder[3], message, g);
      assert !Fires(RuleOrder[4], message, g) && !Fires(RuleOrder[5], message, g);
      assert !Fires(RuleOrder[6], message, g) && !Fires(RuleOrder[7], message, g);
      assert !Fires(RuleOrder[8], message, g) && !Fires(RuleOrder[9], message, g);
    }
  }

  /** A task is created exactly when an add phrase occurs and the extracted title
      is not empty: the `title !== message` guard never rejects. */
  lemma CreatedGuard(message: string)
    ensures Classify(message).Created? <==>
      ServerBackup.AddTaskMentioned(Lower(message)) && ServerBackup.TaskTitle(message) != ""
    ensures Classify(message).Created? ==> Classify(message).title == ServerBackup.TaskTitle(message)
  {
    var g := SignalsOf(message);
    assert Classify(message).Created? <==> g.addTask && g.title != "" && g.title != message;
    if ServerBackup.AddTaskMentioned(Lower(message)) {
      ServerBackup.AddTitleShorter(message);
    }
  }

  /** The task summary answers only a message that mentions "task" and not "add". */
  lemma TaskSummaryGuard(message: string)
    ensures Classify(message) == TaskSummary ==> TaskSummaryAsked(Lower(message))
    ensures Contains(Lower(message), "add") ==> Classify(message) != TaskSummary
  {
  }

  /** The greeting answers only a message that starts with "hello", is "hi", or
      starts with "hi ". */
  lemma GreetingGuard(message: string)
    ensures Classify(message) == Greeting ==> Greeted(Lower(message))
  {
  }

  // ---------------------------------------------------------------------------
  // Replies

  /** What the handler cannot compute itself: the clock reading, already
      formatted, the output of the weather command, and whether the agent
      gateway answered. */
  datatype Surroundings = Surroundings(clock: string, weatherOutput: string, agentReached: bool)

  function CreatedText(title: string): string {
    "\U{2705} Created task: \"" + title + "\". It's in your pending tasks."
  }

  const IdentityText: string :=
    "I'm Jarvis Voice \U{2014} your AI assistant with full access to your emails, calendar, tasks, projects, and tools. I can build things, research, restart services, or just chat. What do you need?"

  const CapabilitiesText: string :=
    "I can help you with a lot:\n\n\U{1F4E7} Check your emails and calendar\n\U{2705} Add and complete tasks\n\U{1F4CA} Update projects\n\U{1F6E0}\U{FE0F} Build websites and tools\n\U{1F527} Restart services and run commands\n\U{1F50D} Research topics\n\U{1F4C1} Read and write files\n\nTry: 'Add task: Call John' or 'Build me a landing page' or 'What's my email?'"

  const WeatherDefault: string := "It's 52" + "\U{00B0}" + "F and sunny in West Covina right now."

  lemma WeatherDefaultTrimmed()
    ensures WeatherDefault != "" && IsTrimmed(WeatherDefault)
  {
    var head, tail := "It's 52", "F and sunny in West Covina right now.";
    assert WeatherDefault == head + "\U{00B0}" + tail;
    assert WeatherDefault[0] == head[0] == 'I';
    assert WeatherDefault[|WeatherDefault| - 1] == tail[|tail| - 1] == '.';
  }

  /** The weather command's trimmed output, or the canned forecast when it printed nothing. */
  function WeatherText(output: string): (r: string)
    ensures r != "" && IsTrimmed(r)
    ensures Trim(output) != "" ==> r == Trim(output)
  {
    var out := Trim(output);
    TrimIsTrimmed(output);
    WeatherDefaultTrimmed();
    if out != "" then out else WeatherDefault
  }

  /** The first in-progress task, quoted, when there is one. */
  function ActiveNote(active: seq<Task>): string {
    if |active| > 0 then " including \"" + active[0].title + "\"" else ""
  }

  /** The task count, the in-progress count with the first in-progress title, and
      the pending count. */
  function TaskSummaryText(tasks: seq<Task>): string {
    SummaryText(|tasks|, WithStatus(tasks, "in-progress"), |WithStatus(tasks, "pending")|)
  }

  function SummaryText(total: nat, active: seq<Task>, pending: nat): string {
    "You have " + NatToString(total) + " tasks. " + NatToString(|active|) + " in progress"
      + ActiveNote(active) + ", " + NatToString(pending) + " pending. Want me to add or complete any?"
  }

  /** The summary names the first task, in store order, that is in progress, and
      names none when no task is. */
  lemma TaskSummaryNamesFirstActive(tasks: seq<Task>)
    ensures (exists k | 0 <= k < |tasks| :: tasks[k].status == "in-progress") ==>
      exists k | 0 <= k < |tasks| :: tasks[k].status == "in-progress" &&
        (forall j | 0 <= j < k :: tasks[j].status != "in-progress") &&
        Contains(TaskSummaryText(tasks), "\"" + tasks[k].title + "\"")
    ensures (forall k | 0 <= k < |tasks| :: tasks[k].status != "in-progress") ==>
      ActiveNote(WithStatus(tasks, "in-progress")) == ""
  {
    var active := WithStatus(tasks, "in-progress");
    WithStatusNonEmpty(tasks, "in-progress");
    WithStatusHead(tasks, "in-progress");
    if active != [] {
      var k :| 0 <= k < |tasks| && active[0] == tasks[k] && forall j | 0 <= j < k :: tasks[j].status != "in-progress";
      TaskSummaryQuotesActive(tasks);
    }
  }

  /** The summary quotes the title of the first in-progress task. */
  lemma TaskSummaryQuotesActive(tasks: seq<Task>)
    requires WithStatus(tasks, "in-progress") != []
    ensures Contains(TaskSummaryText(tasks), "\"" + WithStatus(tasks, "in-progress")[0].title + "\"")
  {
    SummaryQuotesActive(|tasks|, WithStatus(tasks, "in-progress"), |WithStatus(tasks, "pending")|);
  }

  lemma SummaryQuotesActive(total: nat, active: seq<Task>, pending: nat)
    requires active != []
    ensures Contains(SummaryText(total, active, pending), "\"" + active[0].title + "\"")
  {
    var pre := "You have " + NatToString(total) + " tasks. " + NatToString(|active|) + " in progress including ";
    var quoted := "\"" + active[0].title + "\"";
    var post := ", " + NatToString(pending) + " pending. Want me to add or complete any?";
    assert SummaryText(total, active, pending) == pre + quoted + post;
    ContainsMiddle(pre, quoted, post);
  }

  /** The counts the summary reports never exceed the number of tasks. */
  lemma TaskSummaryCountsBounded(tasks: seq<Task>)
    ensures |WithStatus(tasks, "in-progress")| + |WithStatus(tasks, "pending")| <= |tasks|
  {
    WithStatusDisjoint(tasks, "in-progress", "pending");
  }

  function TimeText(clock: string): string {
    "It's " + clock + "."
  }

  const GreetingText: string :=
    "Hey Kris! I'm Jarvis Voice. Ready to help with tasks, emails, or whatever you need. What's up?"

  /** The reply once the agent gateway answered, or failed to. */
  function AgentText(message: string, reached: bool): string {
    if reached then
      "I'm working on: \"" + message + "\"\n\nGive me a moment to build/create that for you. I'll update you when it's done."
    else
      "I'll get started on: \"" + message + "\"\n\nI'll use my tools to make this happen."
  }

  const FallbackOffer: string :=
    "\"\n\nI'm Jarvis Voice \U{2014} I can check your emails, manage tasks, look up info, or help you build things. What would you like me to do?"

  function FallbackText(message: string): string {
    "I heard: \"" + message + FallbackOffer
  }

  /** The fallback quotes the message verbatim. */
  lemma FallbackEchoes(message: string)
    ensures Contains(FallbackText(message), message)
  {
    var tail := "\"\n\nI'm Jarvis Voice \U{2014} I can check your emails, manage tasks, look up info, or help you build things. What would you like me to do?";
    ContainsMiddle("I heard: \"", message, tail);
  }

  /** Both agent replies quote the message verbatim. */
  lemma AgentEchoes(message: string, reached: bool)
    ensures Contains(AgentText(message, reached), message)
  {
    if reached {
      ContainsMiddle("I'm working on: \"", message,
        "\"\n\nGive me a moment to build/create that for you. I'll update you when it's done.");
    } else {
      ContainsMiddle("I'll get started on: \"", message, "\"\n\nI'll use my tools to make this happen.");
    }
  }

  /** A bare "add task" creates nothing: its title comes out empty, "add" keeps
      it from the task summary, no other rule fires, and the fallback quotes it. */
  lemma BareAddTaskFallsBack(s: Store, message: string, id: string, now: string, env: Surroundings)
    requires Lower(message) == "add task"
    ensures Classify(message) == Fallback
    ensures ChatExchange(s, message, id, now, env) == Exchange(Answer(Fallback, FallbackText(message)), s)
    ensures Contains(FallbackText(message), message)
  {
    BareAddTaskRoute(message);
    assert message != "" by {
      assert |Lower(message)| == 8;
    }
    FallbackAnswer(s, message, id, now, env);
    FallbackEchoes(message);
  }

  lemma BareAddTaskRoute(message: string)
    requires Lower(message) == "add task"
    ensures Classify(message) == Fallback
  {
    ServerBackup.BareAddTaskTitle(message);
    BareAddTaskQuiet(Lower(message));
    QuietFallsBack(message);
  }

  /** No rule after the add rule is set off by `l`. */
  predicate Quiet(l: string) {
    && !IdentityAsked(l) && !CapabilitiesAsked(l) && !WeatherAsked(l) && !EmailAsked(l)
    && !CalendarAsked(l) && !TaskSummaryAsked(l) && !TimeAsked(l) && !Greeted(l) && !AgentAsked(l)
  }

  lemma BareAddTaskQuiet(l: string)
    requires l == "add task"
    ensures Quiet(l)
  {
    BareAddTaskNoQuestion(l);
    BareAddTaskNoAgent(l);
    assert OccursAt(l, "add", 0);
  }

  lemma QuietFallsBack(message: string)
    requires ServerBackup.TaskTitle(message) == "" && Quiet(Lower(message))
    ensures Classify(message) == Fallback
  {
  }

  lemma FallbackAnswer(s: Store, message: string, id: string, now: string, env: Surroundings)
    ensures Answering(s, message, Fallback, id, now, env) == Exchange(Answer(Fallback, FallbackText(message)), s)
  {
  }

  lemma BareAddTaskNoQuestion(l: string)
    requires l == "add task"
    ensures !IdentityAsked(l) && !CapabilitiesAsked(l) && !WeatherAsked(l) && !EmailAsked(l)
    ensures !CalendarAsked(l) && !TimeAsked(l) && !Greeted(l)
  {
    AbsentWords(l, EmailWords, "ei");
    AbsentWords(l, CalendarWords, "cc");
    AbsentWords(l, TimeWords, "iw");
    BareAddTaskNoAssistantQuestion(l);
    StartsWithHead(l, "hello");
    StartsWithHead(l, "hi ");
  }

  lemma BareAddTaskNoAssistantQuestion(l: string)
    requires l == "add task"
    ensures !IdentityAsked(l) && !CapabilitiesAsked(l) && !WeatherAsked(l)
  {
    AbsentWords(l, IdentityPhrases, "yw");
    AbsentWords(l, CapabilityPhrases, "whc");
    AbsentWords(l, WeatherWords, "we");
  }

  lemma BareAddTaskNoAgent(l: string)
    requires l == "add task"
    ensures !AgentAsked(l)
  {
    AbsentWords(l, AgentWords, "bcmwccrfe");
  }

  // ---------------------------------------------------------------------------
  // The handler

  datatype Response =
    | BadRequest(error: string)
    | Answer(route: Route, text: string)
    /** Email and calendar replies are built from the output of external commands. */
    | Deferred(route: Route)

  datatype Exchange = Exchange(response: Response, store: Store)

  /** The voice-created task and its work-log entry, prepended to the store. */
  function CreatedStore(s: Store, title: string, id: string, now: string): (r: Store)
    ensures r.present && r.projects == s.projects
    ensures |r.tasks| == |s.tasks| + 1 && r.tasks[1..] == s.tasks
    ensures r.tasks[0] == Task(id, title, "Voice created", "pending", "medium", "Jarvis", now, now)
    ensures |r.workLog| == |s.workLog| + 1 && r.workLog[1..] == s.workLog
    ensures r.workLog[0] == LogEntry(id, "Voice: Created \"" + title + "\"", "task", now)
  {
    WithNewTask(s, Task(id, title, "Voice created", "pending", "medium", "Jarvis", now, now),
                LogEntry(id, "Voice: Created \"" + title + "\"", "task", now))
  }

  /** The reply of a rule that does not write the data file. */
  function FixedAnswer(s: Store, message: string, route: Route, env: Surroundings): (r: Response)
    requires !route.Created?
    ensures r.Answer? || r.Deferred?
    ensures r.route == route
    ensures r.Deferred? <==> route == Email || route == Calendar
  {
    match route
    case Identity => Answer(route, IdentityText)
    case Capabilities => Answer(route, CapabilitiesText)
    case Weather => Answer(route, WeatherText(env.weatherOutput))
    case Email => Deferred(route)
    case Calendar => Deferred(route)
    case TaskSummary => Answer(route, TaskSummaryText(s.tasks))
    case Time => Answer(route, TimeText(env.clock))
    case Greeting => Answer(route, GreetingText)
    case Agent => Answer(route, AgentText(message, env.agentReached))
    case Fallback => Answer(route, FallbackText(message))
  }

  /** The reply to a message the chain routed to `route`, and the store after it;
      only the add-task rule changes the store. */
  function Answering(s: Store, message: string, route: Route, id: string, now: string, env: Surroundings): (x: Exchange)
    ensures (x.response.Answer? || x.response.Deferred?) && x.response.route == route
    ensures !route.Created? ==> x.store == s
    ensures route.Created? ==> x.store == CreatedStore(s, route.title, id, now)
  {
    match route
    case Created(title) => Exchange(Answer(route, CreatedText(title)), CreatedStore(s, title, id, now))
    case _ => Exchange(FixedAnswer(s, message, route, env), s)
  }

  /** The whole handler: a missing message, and only it, is a 400 error and touches
      nothing; any other message is answered by the rule the chain picks, and only
      the create rule writes the store. */
  function ChatExchange(s: Store, message: string, id: string, now: string, env: Surroundings): (x: Exchange)
    ensures message == "" <==> x.response.BadRequest?
    ensures message == "" ==> x.store == s
    ensures message != "" ==> x.response.route == Classify(message)
    ensures message != "" ==>
      x.store == if Classify(message).Created? then CreatedStore(s, Classify(message).title, id, now) else s
  {
    if message == "" then Exchange(BadRequest("Message required"), s)
    else Answering(s, message, Classify(message), id, now, env)
  }

  /** The handler on the data file. */
  method Chat(file: DataFile, message: string, id: string, now: string, env: Surroundings) returns (r: Response)
    requires file.Valid()
    modifies file
    ensures file.Valid()
    ensures Exchange(r, file.Value()) == ChatExchange(old(file.Value()), message, id, now, env)
  {
    if message == "" {
      return BadRequest("Message required");
    }
    var route := Classify(message);
    r := Respond(file, message, route, id, now, env);
  }

  method Respond(file: DataFile, message: string, route: Route, id: string, now: string, env: Surroundings)
    returns (r: Response)
    requires file.Valid()
    modifies file
    ensures file.Valid()
    ensures Exchange(r, file.Value()) == Answering(old(file.Value()), message, route, id, now, env)
  {
    match route
    case Created(title) =>
      file.PrependTask(Task(id, title, "Voice created", "pending", "medium", "Jarvis", now, now),
                       LogEntry(id, "Voice: Created \"" + title + "\"", "task", now));
      r := Answer(route, CreatedText(title));
    case _ =>
      r := FixedAnswer(file.Value(), message, route, env);
  }
}
