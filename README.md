# Jarvis voice dashboard — a Dafny model

This project models the core of the Jarvis Aqulos dashboard. It is a personal operations dashboard driven by voice.

- **The chat servers** (`server-backup.js`, `server-simple.js`) answer a spoken message by trying an ordered chain of keyword rules on the lower-cased text. The first rule that fires answers. The add-task and complete-task rules pull a title out of the message and write the shared data file `data/dashboard-data.json`.
- **The backup server** also has `POST /api/tasks` and the project-progress endpoint, which write that file.
- **The voice executor** (`voice-executor.js`) has its own rule chain. It creates tasks, completes tasks, reports projects and logs work in the same file. It also keeps a table of pending requests that the persistent voice agent's output or a 30-second timer settles.
- **The interactive agent server** (`server-v2.js`) keeps one `VoiceAgentSession` per user id. Each session holds the conversation history, shows the agent a ten-message context window and extracts the agent's answer from its output.
- **The browser dashboard** (`js/dashboard.js`) keeps a status, tasks, projects, resources and a work log capped at a hundred entries, and mirrors them in `localStorage`.

Modules, one per source file, plus two shared ones:

| module | file | models |
|---|---|---|
| `Text` | `text.dfy` | the JavaScript string operations used: lower-casing, `includes`, `trim`, `split`/`join`, the greedy and single regular-expression removals, number formatting |
| `TaskData` | `task_data.dfy` | the data file (`class DataFile`, value `Store`), its tasks, projects and work log, and title matching |
| `ServerBackup` | `server_backup.dfy` | `server-backup.js`: the chat rule chain, `executeVoiceTask`, `POST /api/tasks`, project progress |
| `ServerSimple` | `server_simple.dfy` | `server-simple.js`: its chat rule chain |
| `VoiceRequests` | `pending_requests.dfy` | `voice-executor.js`: `pendingRequests`, the agent-output handler and its timer, `extractResponse` |
| `VoiceExecutor` | `voice_executor.dfy` | `voice-executor.js`: `executeVoiceTask` and the four store operations, `/voice-command` |
| `AgentSessions` | `server_v2.dfy` | `server-v2.js`: `VoiceAgentSession` and the sessions map |
| `Dashboard` | `dashboard.dfy` | `js/dashboard.js`: the `JarvisDashboard` object |

How the model is built:

- Each rule chain is a function `Chain(message, g)` over a record `g` of the outcomes of every test. An independent list `RuleOrder` names the rules in order. `FirstFiringRuleDecides` proves that the first firing rule answers.
- Handlers that read, change and write the data file are module methods that take the `DataFile`. They change it through its own methods (`PrependTask`, `PrependLogEntry`, `SetMatchStatus`, `SetProjectAt`). Each handler is proved equal to a pure outcome function on `Store`.
- Session and dashboard objects are classes whose methods update their fields.
- Clocks (`Date.now()`, ISO stamps, the hour), ids, the dialogs' answers, and the output of spawned processes and tools arrive as parameters.

## Model

| member | source | states |
|---|---|---|
| ServerBackup.FirstFiringRuleDecides | server-backup.js:404-775 | the first rule of the chain, in source order, that fires decides the route |
| ServerBackup.FallbackWhenNoRuleFires | server-backup.js:776-792 | the capabilities reply answers exactly when no rule fires |
| ServerBackup.ChainArguments | server-backup.js:404-419 | a task is added exactly when an add phrase occurs and the title is non-empty and differs from the message; the route carries that title; likewise for completion with the task name |
| ServerBackup.AddTitleShorter | server-backup.js:404-406 | once an add phrase occurs, the extracted title is strictly shorter than the message |
| ServerBackup.AddTaskGuard | server-backup.js:404-411 | a task is added iff an add phrase occurs and the title is non-empty: the `title !== message` test never rejects |
| ServerBackup.CompleteTaskGuard | server-backup.js:413-419 | a task is completed iff none is added, a completion phrase occurs and the extracted name is non-empty |
| ServerBackup.TitleIsClean | server-backup.js:405 | the title holds no add phrase, so extracting it again gives it back |
| ServerBackup.CreateWithoutTaskPhrase | server-backup.js:404-466 | a message saying "create" without an add phrase is completed, checked as a server status, or sent to the agent, never added |
| ServerBackup.FallbackEchoes | server-backup.js:776-792 | the capabilities reply quotes the message verbatim |
| ServerBackup.AddOutcome | server-backup.js:333-363 | adding puts one pending, medium, Jarvis-assigned task with the title in front and one task log entry in front; projects unchanged |
| ServerBackup.CompleteOutcome | server-backup.js:365-384 | no file: "No tasks found." and nothing changes; otherwise only the first title-matching task changes, to completed; without a match nothing changes |
| ServerBackup.ExecuteVoiceTask | server-backup.js:330-387 | the file after `executeVoiceTask` is the add or complete outcome; any other action returns null and leaves the file |
| ServerBackup.FixedAnswer | server-backup.js:422-792 | every rule other than the two task rules answers for its own route |
| ServerBackup.Answering | server-backup.js:404-792 | only the add and complete rules change the store |
| ServerBackup.ChatExchange | server-backup.js:390-793 | a message is refused exactly when it is empty, and then nothing changes; otherwise the reply follows the route of the rule chain; only the add and complete rules write the store, each with its own outcome, and every other route leaves it as it was |
| ServerBackup.Chat | server-backup.js:390-793 | the handler on the data file computes exactly `ChatExchange` |
| ServerBackup.Respond | server-backup.js:404-792 | carrying out a route on the file computes exactly `Answering` |
| ServerBackup.BareAddTaskTitle | server-backup.js:405 | "add task" alone yields the empty title |
| ServerBackup.BareAddTaskRoute | server-backup.js:404-775 | "add task" alone fires no rule |
| ServerBackup.CapabilitiesAnswer | server-backup.js:776-792 | the fallback answers with the capabilities text and leaves the store |
| ServerBackup.BareAddTaskFallsBack | server-backup.js:404-792 | "add task" alone adds nothing, leaves the store and gets the capabilities reply quoting it |
| ServerBackup.AddMessageTitle | server-backup.js:405 | "Add task: T" yields the title T for every plain title T |
| ServerBackup.CompleteMessageName | server-backup.js:414 | "mark task T as done" yields the name T for every plain title T |
| ServerBackup.AddMessageRoute | server-backup.js:404-411 | "Add task: T" is routed to adding T |
| ServerBackup.CompleteMessageRoute | server-backup.js:413-419 | "mark task T as done" is routed to completing T |
| ServerBackup.CompletesNamed | server-backup.js:413-419 | without an add phrase, a completion phrase with a non-empty name routes to completing that name |
| ServerBackup.AddThenComplete | server-backup.js:330-419 | saying "Add task: T" then "mark task U as done", for any U equal to T up to case, adds a pending task T in front and then completes that same task, answering with the stored title T and leaving the other tasks as they were |
| ServerBackup.AddThenCompleteRouted | server-backup.js:339-384 | once one message is routed to adding T and the next to completing a name equal to T up to case, the second completes the task the first added and nothing else |
| ServerBackup.AnsweringAdd | server-backup.js:333-363 | the add route replies with the creation text and puts the voice task first |
| ServerBackup.AnsweringCompleteHead | server-backup.js:365-384 | completing a name equal up to case to the first task's title marks that task, replies with its stored title, and changes nothing else |
| ServerBackup.PostedTask | server-backup.js:254-275 | the posted task keeps the title; status and priority default only when absent; the description defaults when absent or empty |
| ServerBackup.PostTask | server-backup.js:254-290 | a missing or empty title is refused and changes nothing; otherwise the task and a "New task created" entry go in front |
| ServerBackup.ProgressUpdate | server-backup.js:304-327 | no file or no project with the id changes nothing; otherwise only that project changes |
| ServerBackup.UpdateProjectProgress | server-backup.js:304-327 | the endpoint on the data file computes exactly `ProgressUpdate` |
| TaskData.WithNewTask | server-backup.js:352-361 | the new task and the new entry go in front; everything else is kept and the file exists afterwards |
| TaskData.WithLogEntry | voice-executor.js:248-256 | the entry goes in front of the work log; tasks and projects are kept |
| TaskData.FirstTitleMatch | server-backup.js:371-374 | the index of the first task whose title and the fragment contain one another, ignoring case; none when no title matches |
| TaskData.EmptyFragmentPicksFirst | server-backup.js:371-374 | an empty fragment picks the first task |
| TaskData.SameTitleFound | server-backup.js:371-374 | a task whose title equals the fragment, ignoring case, is found at its index or earlier |
| TaskData.WithStatusAt | server-backup.js:376-378 | only the task at the index changes, only in status and update stamp |
| TaskData.WithMatchStatusChangesOnlyMatch | voice-executor.js:206-214 | only the first matching task changes, only in status and stamp; without a match nothing changes |
| TaskData.LeadingTitles | server-backup.js:383 | the titles of the first n tasks, in store order |
| TaskData.Quoted | server-backup.js:383 | each title wrapped in double quotes |
| TaskData.WithStatus | server-backup.js:644-646 | exactly the tasks with the status, in store order |
| TaskData.WithStatusNonEmpty | server-simple.js:180-183 | the selection is non-empty iff some task has the status |
| TaskData.WithStatusHead | server-simple.js:180-183 | the head of the selection is the first task in store order with the status |
| TaskData.WithStatusDisjoint | server-backup.js:644-646 | two different statuses select no more tasks than there are |
| TaskData.FirstProjectWithId | server-backup.js:314 | the index of the first project with the id, none when no project has it |
| TaskData.ApplyProgress | server-backup.js:320-323 | progress is set to whatever value the request gives, unchecked; current and status only when given and non-empty; the stamp always |
| TaskData.DataFile.PrependTask | server-backup.js:352-361 | the file afterwards is `WithNewTask` of the file before |
| TaskData.DataFile.PrependLogEntry | voice-executor.js:248-256 | the file afterwards is `WithLogEntry` of the file before |
| TaskData.DataFile.SetMatchStatus | voice-executor.js:206-214 | returns the first match and changes only that task |
| TaskData.DataFile.SetProjectAt | server-backup.js:314-326 | replaces one project in place, nothing else |
| ServerSimple.FirstFiringRuleDecides | server-simple.js:106-216 | the first rule, in source order, that fires decides the route |
| ServerSimple.FallbackWhenNoRuleFires | server-simple.js:219 | the conversational fallback answers exactly when no rule fires |
| ServerSimple.CreatedGuard | server-simple.js:106-108 | a task is created iff an add phrase occurs and the title is non-empty; the route carries that title |
| ServerSimple.TaskSummaryGuard | server-simple.js:177 | the task summary answers only a message with "task" and never one with "add" |
| ServerSimple.GreetingGuard | server-simple.js:193 | the greeting answers only a message starting with "hello", equal to "hi" or starting with "hi " |
| ServerSimple.WeatherText | server-simple.js:131-137 | the weather reply is never empty and carries no surrounding blanks; whenever the tool printed text, that text is the reply |
| ServerSimple.TaskSummaryNamesFirstActive | server-simple.js:177-183 | the summary quotes the first in-progress task in store order, and names none when no task is in progress |
| ServerSimple.TaskSummaryQuotesActive | server-simple.js:182 | the summary contains the quoted title of the first in-progress task |
| ServerSimple.SummaryQuotesActive | server-simple.js:182 | a summary over a non-empty active list quotes the first active title |
| ServerSimple.TaskSummaryCountsBounded | server-simple.js:180-182 | the in-progress and pending counts add up to no more than the task count |
| ServerSimple.FallbackEchoes | server-simple.js:219 | the fallback quotes the message verbatim |
| ServerSimple.AgentEchoes | server-simple.js:198-216 | both agent replies, gateway reached or not, quote the message verbatim |
| ServerSimple.BareAddTaskRoute | server-simple.js:106-216 | "add task" alone fires no rule |
| ServerSimple.BareAddTaskQuiet | server-simple.js:121-216 | "add task" alone passes none of the later tests |
| ServerSimple.QuietFallsBack | server-simple.js:106-219 | a message with an empty title that no later test picks up gets the fallback |
| ServerSimple.FallbackAnswer | server-simple.js:219 | the fallback route answers with the fallback text and leaves the store |
| ServerSimple.BareAddTaskFallsBack | server-simple.js:106-219 | "add task" alone creates nothing, leaves the store and gets the fallback quoting it |
| ServerSimple.CreatedStore | server-simple.js:108-113 | one pending "Voice created" task and one entry in front; nothing else changes |
| ServerSimple.FixedAnswer | server-simple.js:121-219 | each non-writing rule answers for its own route; email and calendar replies come from tools |
| ServerSimple.Answering | server-simple.js:106-219 | only the create rule changes the store |
| ServerSimple.ChatExchange | server-simple.js:98-220 | a message is a 400 error exactly when it is empty, and then nothing changes; otherwise the reply follows the route of the rule chain, and only the create route writes the store, by appending its task |
| ServerSimple.Chat | server-simple.js:98-220 | the handler on the data file computes exactly `ChatExchange` |
| ServerSimple.Respond | server-simple.js:106-219 | carrying out a route on the file computes exactly `Answering` |
| VoiceExecutor.ReplaceFirstSpace | voice-executor.js:120 | the length is kept and a name without a space is unchanged |
| VoiceExecutor.ProjectIdIsKnown | voice-executor.js:117-122 | an id is found iff the message names a project, and it is one of the four known ids |
| VoiceExecutor.SlugOfName | voice-executor.js:118-120 | each project name becomes its known id |
| VoiceExecutor.FirstFiringRuleDecides | voice-executor.js:99-143 | the first rule, in source order, that fires decides the command |
| VoiceExecutor.NoCommandWhenNoRuleFires | voice-executor.js:99-143 | `null` comes back exactly when no rule fires |
| VoiceExecutor.CreateGuard | voice-executor.js:103-108 | a task is created iff a create phrase occurs and the title after it is non-empty |
| VoiceExecutor.CompleteGuard | voice-executor.js:111-114 | a complete phrase reaches `updateTaskStatus` unless a task is created first, even with an empty name |
| VoiceExecutor.LogEntryNeverEmpty | voice-executor.js:136-139 | a logged entry is never empty: the whole message stands in for empty text |
| VoiceExecutor.PhVenturesSlug | voice-executor.js:120 | "ph ventures" becomes "ph-ventures" |
| VoiceExecutor.WorkLogNeedsText | voice-executor.js:136-139 | the work-log rule fires only for a non-empty message |
| VoiceExecutor.ChainLogEntry | voice-executor.js:136-139 | a logged entry is the text after the phrase, or the whole message when that is empty, and never empty |
| VoiceExecutor.ProjectCommandIsKnown | voice-executor.js:117-122 | the project rule only asks about one of the four known ids |
| VoiceExecutor.CreateMessageTitle | voice-executor.js:104 | "add task T" yields the title T |
| VoiceExecutor.CreateMessageCommand | voice-executor.js:103-107 | "add task T" creates a task titled T |
| VoiceExecutor.CreatesTitled | voice-executor.js:103-108 | a create phrase with a non-empty title creates a task with that title |
| VoiceExecutor.BareMarkTaskCompletesFirst | voice-executor.js:111-114 | "mark task" alone completes the first task, since every title contains the empty name |
| VoiceExecutor.CreateOutcome | voice-executor.js:163-196 | one pending task with the title and one task entry go in front; projects kept |
| VoiceExecutor.StatusOutcome | voice-executor.js:198-219 | no file: "No tasks found."; otherwise only the first matching task gets the status; without a match nothing changes |
| VoiceExecutor.NotFoundListsThree | voice-executor.js:218 | the miss reply quotes the name and lists each of the first three titles |
| VoiceExecutor.CreateThenUpdate | voice-executor.js:163-219 | a task created by voice is the one a later status update of its title picks |
| VoiceExecutor.FirstProjectMatch | voice-executor.js:228-231 | the first project whose id or lower-cased name contains the id asked for |
| VoiceExecutor.ProjectNameList | voice-executor.js:237 | the names of the projects, in order |
| VoiceExecutor.ProjectReplyCases | voice-executor.js:221-238 | without a file: "No projects found."; otherwise "not found" iff no project matches |
| VoiceExecutor.ProgressReplyQuotes | voice-executor.js:234 | the project reply prints the stored progress as it is, followed by "%", whatever JSON value was stored |
| VoiceExecutor.OwnIdFound | voice-executor.js:228-231 | a project's own id finds it or an earlier project |
| VoiceExecutor.WorkLogOutcome | voice-executor.js:240-259 | one voice entry with the text goes in front of the log; tasks and projects kept |
| VoiceExecutor.CommandOutcome | voice-executor.js:99-143 | none exactly for no command; only creating, completing and logging change the store |
| VoiceExecutor.CreateTaskIn | voice-executor.js:163-196 | `createTask` on the file computes exactly `CreateOutcome` |
| VoiceExecutor.UpdateTaskStatus | voice-executor.js:198-219 | `updateTaskStatus` on the file computes exactly `StatusOutcome` |
| VoiceExecutor.AddWorkLog | voice-executor.js:240-259 | `addWorkLog` on the file computes exactly `WorkLogOutcome` |
| VoiceExecutor.ExecuteVoiceTask | voice-executor.js:99-143 | the reply and the file afterwards are those of the classified command |
| VoiceExecutor.Perform | voice-executor.js:99-143 | running a command on the file computes exactly `CommandOutcome` |
| VoiceExecutor.VoiceCommand | voice-executor.js:61-97 | an empty message is refused and touches nothing; otherwise the request is registered and the executor's result is returned |
| VoiceRequests.FirstLineWith | voice-executor.js:53 | the index of the first line containing the marker, none when no line does |
| VoiceRequests.TextAfterLine | voice-executor.js:55 | the joined and trimmed rest holds no line break |
| VoiceRequests.FindingsLineIff | voice-executor.js:52-54 | some line mentions the findings iff the output does |
| VoiceRequests.ExtractResponseWithoutFindings | voice-executor.js:50-58 | without findings the answer is the trimmed output |
| VoiceRequests.ExtractResponseOneLine | voice-executor.js:54-56 | with findings the answer is a single line |
| VoiceRequests.FindingsOnLastLineGivesEmpty | voice-executor.js:52-56 | when the first line mentioning the findings is the output's last line, however many lines come before it, the answer is empty |
| VoiceRequests.OneLineFindingsGivesEmpty | voice-executor.js:52-56 | in particular, a one-line output holding the marker gets an empty answer |
| VoiceRequests.Without | voice-executor.js:32 | the deleted id is gone, every other id stays, and no more ids remain than before |
| VoiceRequests.WithoutSplits | voice-executor.js:32 | deleting works piece by piece on a split list, so the order of the ids that stay is kept |
| VoiceRequests.WithoutKeepsDistinct | voice-executor.js:32 | deleting keeps the ids distinct |
| VoiceRequests.WithoutFirst | voice-executor.js:29-32 | deleting the first of distinct ids leaves the rest |
| VoiceRequests.WithoutAbsent | voice-executor.js:32 | deleting an id that is not pending changes nothing |
| VoiceRequests.Settle | voice-executor.js:74-84 | a promise resolves once: a settled promise keeps its value |
| VoiceRequests.RegisterKeepsOrder | voice-executor.js:75 | a new id goes last; a repeated id keeps its place and takes the new resolver |
| VoiceRequests.OnOutputResolvesOldest | voice-executor.js:29-35 | output that mentions the findings or is longer than 50 UTF-16 code units resolves exactly the oldest pending request and removes it; other output changes nothing |
| VoiceRequests.AnswersBmp | voice-executor.js:30 | for output without astral characters the length test is on the number of characters |
| VoiceRequests.AstralOutputAnswers | voice-executor.js:30 | output of more than 25 astral characters, such as emoji, already counts as long |
| Text.Utf16Length | voice-executor.js:30 | the UTF-16 length of a string lies between its number of characters and twice that |
| VoiceRequests.OnTimeoutSettles | voice-executor.js:78-83 | a timer for a pending request settles it with the timeout text and removes it; otherwise it does nothing |
| VoiceRequests.AnsweredRequestIgnoresTimeout | voice-executor.js:78-83 | a request the agent answered is not answered again by its timer |
| VoiceRequests.SettledStaysSettled | voice-executor.js:74-84 | no event changes a settled promise's value |
| VoiceRequests.PendingTable.Register | voice-executor.js:74-75 | the table afterwards is `AfterRegister` of the table before |
| VoiceRequests.PendingTable.OnOutput | voice-executor.js:24-36 | the table afterwards is `AfterOutput` of the table before, whose test counts UTF-16 code units |
| VoiceRequests.PendingTable.OnTimeout | voice-executor.js:78-83 | the table afterwards is `AfterTimeout` of the table before |
| AgentSessions.Window | server-v2.js:83 | the newest ten messages, or all when fewer: a suffix of the history |
| AgentSessions.RenderAllShows | server-v2.js:83 | the line of each message starts with its role and a colon and holds its content |
| AgentSessions.WindowSlides | server-v2.js:83 | appending a message drops the oldest once ten are shown, and the new one comes last |
| AgentSessions.ContextShowsWindow | server-v2.js:81-84 | every message among the newest ten appears in the context |
| AgentSessions.EmptyContext | server-v2.js:81-84 | an empty history gives an empty context |
| AgentSessions.ResponseLinesSound | server-v2.js:92-100 | every kept line is an output line that is not blank, has no marker and does not start with "Stats:" |
| AgentSessions.ResponseLinesComplete | server-v2.js:92-100 | every such line after a findings line is kept |
| AgentSessions.NoMarkerNoLines | server-v2.js:92-100 | without a findings line nothing is kept |
| AgentSessions.KeptText | server-v2.js:92-101 | the kept lines joined by line breaks, trimmed |
| AgentSessions.TrimmedOutput | server-v2.js:102 | the trimmed output |
| AgentSessions.ProcessedReplyTrimmed | server-v2.js:102 | the stock sentence is non-empty and trimmed |
| AgentSessions.OrElse | server-v2.js:102 | `a \|\| b` on strings: one of the two, non-empty iff either is |
| AgentSessions.ExtractedResponse | server-v2.js:86-103 | the answer is never empty and always trimmed |
| AgentSessions.WithoutFindings | server-v2.js:86-103 | without findings the answer is the trimmed output, or the stock sentence when that is blank |
| AgentSessions.Session.constructor | server-v2.js:21-28 | a new session keeps the user id, has a timestamped session id and an empty history, and is not processing |
| AgentSessions.Session.AddMessage | server-v2.js:105-107 | the message is appended with its stamp; nothing is dropped |
| AgentSessions.Session.StartRun | server-v2.js:33 | the session is busy; history unchanged |
| AgentSessions.Session.OnClose | server-v2.js:60-68 | the session is free, and the extracted answer is appended without a stamp and returned |
| AgentSessions.Session.OnTimeout | server-v2.js:71-77 | a running request is abandoned with the stock reply; otherwise nothing happens |
| AgentSessions.Session.Turn | server-v2.js:30-79 | a turn appends the user message and the agent's extracted answer and ends not processing; it returns that answer, or the "still working" reply when the two-minute timer fired first, in which case the answer is still appended when the agent closes |
| AgentSessions.Session.ExtractResponse | server-v2.js:86-103 | the loop computes exactly `ExtractedResponse` |
| AgentSessions.Registry.GetOrCreate | server-v2.js:140-143 | an existing session is returned unchanged; otherwise a fresh empty one is stored under the user id |
| AgentSessions.Registry.Clear | server-v2.js:179-183 | the user's session is forgotten and every other user's is kept |
| AgentSessions.Registry.History | server-v2.js:168-176 | a user without a session has no history |
| AgentSessions.Registry.Chat | server-v2.js:132-165 | a missing user id is "kris"; an empty message gets "I didn't hear that" and touches no session; otherwise that user's history, or an empty one, gains the message and the answer, every other session keeps its history, and the reply is the answer or the timeout reply |
| AgentSessions.Registry.Converse | server-v2.js:139-157 | the user's history, or an empty one, gains the message and the answer; the map changes only under that user, and every other session keeps its history |
| Dashboard.Logged | js/dashboard.js:322-334 | the new entry comes first, then the newest old entries; at most a hundred |
| Dashboard.LoggedTwice | js/dashboard.js:322-334 | two entries logged in a row sit newest first before the old log, and the log stays within a hundred |
| Dashboard.NewTask | js/dashboard.js:220-230 | the task has a completion stamp exactly when saved as completed |
| Dashboard.FindTask | js/dashboard.js:244 | the first task with the id; none when no task has it |
| Dashboard.Restatus | js/dashboard.js:246-249 | the status is set; the stamp is set only for "completed", and an earlier stamp is kept |
| Dashboard.WithoutId | js/dashboard.js:259 | no task with the id remains |
| Dashboard.WithoutIdKeeps | js/dashboard.js:259 | a task survives iff its id differs |
| Dashboard.WithoutIdSplits | js/dashboard.js:259 | the filter works piecewise, so the order of the survivors is kept |
| Dashboard.WithoutAbsentId | js/dashboard.js:256-263 | deleting an id no task has changes nothing |
| Dashboard.Having | js/dashboard.js:361-363 | only tasks with the status, no more than there are |
| Dashboard.HavingMembers | js/dashboard.js:361-363 | a task is listed under a status iff it is a task with that status |
| Dashboard.PartitionsFit | js/dashboard.js:361-363 | the active, pending and completed lists together hold no more tasks than there are |
| Dashboard.HavingAfterUpdate | js/dashboard.js:243-254 | a status change moves one task from one count to the other and leaves other counts alone |
| Dashboard.CompletingMovesCount | js/dashboard.js:243-254 | completing a pending task adds one to the completed count and takes one from the pending count |
| Dashboard.HavingHead | js/dashboard.js:373 | the first listed task under a status is the first such task in store order |
| Dashboard.ActiveHeadline | js/dashboard.js:372-379 | "None" and "--" without active tasks; otherwise the first active task's name |
| Dashboard.HeadlineNamesFirstActive | js/dashboard.js:372-374 | the card names the first active task in store order |
| Dashboard.ProjectsHaving | js/dashboard.js:508 | only projects with the status, no more than there are |
| Dashboard.DefaultProjects | js/dashboard.js:60-105 | three projects, thinknlocal, aqulos and ph-ventures, all active with no tasks |
| Dashboard.DefaultProjectsActive | js/dashboard.js:60-105 | all three default projects count as active |
| Dashboard.LoadedProjects | js/dashboard.js:34-48 | the loaded projects, or the defaults when none were loaded; never empty |
| Dashboard.ElapsedSeconds | js/dashboard.js:191 | floor division by 1000 |
| Dashboard.RelativeTime | js/dashboard.js:191-195 | "Just now" under a minute; otherwise whole minutes, hours or days, at least one and below the next unit |
| Dashboard.JarvisDashboard.Snapshot | js/dashboard.js:50-58 | the saved lists are the four lists in memory |
| Dashboard.JarvisDashboard.constructor | js/dashboard.js:7-31 | the saved tasks, projects and resources are loaded, a missing list as empty, then the start-up and the idle status are logged; status idle; storage matches memory |
| Dashboard.JarvisDashboard.SaveData | js/dashboard.js:50-58 | storage holds the lists; nothing else changes |
| Dashboard.JarvisDashboard.LoadData | js/dashboard.js:34-48 | each stored list replaces the one in memory; defaults are installed and saved iff no project was loaded; loading what was just saved changes nothing |
| Dashboard.JarvisDashboard.AddLogEntry | js/dashboard.js:322-343 | the log is `Logged` of the old log; the entry is the last action; storage matches memory |
| Dashboard.JarvisDashboard.SetStatus | js/dashboard.js:108-118 | an invalid status changes nothing; a valid one is taken, logged in upper case and stored |
| Dashboard.JarvisDashboard.SaveTask | js/dashboard.js:207-241 | a nameless form changes nothing; otherwise the task is appended, saved and logged, the last action names it with the current time, and the stored status is kept |
| Dashboard.JarvisDashboard.UpdateTaskStatus | js/dashboard.js:243-254 | an unknown id changes nothing; otherwise only the first task with the id changes, the change is logged, the last action names the task and its new status with the current time, and the stored status is kept |
| Dashboard.JarvisDashboard.DeleteTask | js/dashboard.js:256-264 | declined changes nothing; confirmed removes every task with the id and keeps the stored status; it then logs the deletion and sets the last action and its time, or, when no task had the id, leaves the log and the last action as they were |
| Dashboard.JarvisDashboard.LastActionAge | js/dashboard.js:188-199 | "Just now" iff less than a minute has passed |
| Dashboard.JarvisDashboard.StatCounts | js/dashboard.js:506-514 | the completed and active-project counts never exceed the lists they count |

## Left out

- The file system, `localStorage` access and `JSON.parse`/`stringify` are modelled as values: `DataFile` with a `present` flag, and the `stored` field of the dashboard. A corrupt file or store that fails to parse is not modelled.
- Spawned processes and tools (the agent CLI, `systemctl`, weather, mail, calendar) and HTTP calls to the agent gateway are not modelled. Their output arrives as a parameter, or their reply is `Deferred`: the model fixes which rule answers, not the wording. The agent's stderr is ignored, as the code ignores it.
- Two `server-backup.js` replies built from the data file alone are also `Deferred`: the task-query summary (server-backup.js:634-662) and the project replies (server-backup.js:664-694, both the mentioned-project sentence and the project list). The model fixes that `TaskQuery` and `ProjectQuery` answer and that they leave the store unchanged, not their wording. The shorter task summary of `server-simple.js` is modelled (`ServerSimple.TaskSummaryText`).
- Text-to-speech, the voices endpoint, static pages, the certificate set-up and the server start-up are not part of this model.
- Clocks are parameters: `Date.now()` ids, ISO stamps, the hour of the greetings, and the formatted times. Two ids taken in the same millisecond collide in the source; here the id is whatever the caller passes.
- Timers and the asynchronous interleaving of events are modelled as separate event methods (`OnOutput`, `OnTimeout`, `OnClose`), which may be called in any order. JavaScript's run-to-completion scheduling is not modelled beyond that.
- The DOM, rendering, modals, `alert`/`confirm` (the answer is a parameter) and `toLocale*` formatting are not modelled. Of the render functions, only the counts and the headline are.
- In the regular expressions, `.` does not match line breaks. The model treats the message as one line.
- Unicode case mapping is not modelled: lower- and upper-casing are ASCII only.
- `server-v2.js`'s promise settles only once, but a timed-out run still appends the agent's answer to the history when it closes. `Session.Turn` and `Registry.Chat` take whether the two-minute timer fired first as a parameter. The promise itself is not modelled.
- The `catch` branch of `server-v2.js`'s `/api/chat` (lines 158-164) is not modelled. The agent run is modelled as always settling, so that branch has no counterpart.
- The dashboard's resources, `addProject` and `addResource` are not modelled. Resources appear only as a list that is loaded, saved and counted.
- Dashboard.JarvisDashboard.DeleteTask: for a confirmed id that no task has, the source filters and saves, then throws a `TypeError` reading the missing task's name. The model returns `Missing` with the log unchanged; the exception itself is not modelled.
- VoiceRequests.ExtractResponse: its result is not proved to be trimmed.
- Project progress is kept as the text its stored JSON value prints as. A number and a string that print alike are not told apart. In this model only the template literal of `updateProjectProgress` (voice-executor.js:234) reads it. The project summary of server-backup.js:684-691, which compares it with 25, is one of the deferred replies.
- Dashboard.JarvisDashboard.LastActionAge: the page updates the text only when the element exists and `lastActionTime` is set. Both are taken as given.
