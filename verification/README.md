# A verified model of GNU MyServer

This project models the parts of GNU MyServer whose correctness is least visible from any single function, and proves
what they promise. `dafny verify dfyconfig.toml` checks all of it. Paths below are relative to the root of the MyServer
repository.

| component | files |
|---|---|
| the table-driven parser of http_checker rules | `RulesTables`, `RulesGrammar`, `RulesAutomaton`, `RulesRuns`, `RulesTheorems`, `RulesValues`, `RulesParser` |
| connection scheduling between the dispatcher and the workers | `ReadyQueues`, `ConnectionsScheduler`, `SchedulerProtocol`, `SchedulerTheorems`, `SchedulerFairness`, `SchedulerHandlers`, `SchedulerRegistration` |
| resolution of plugin dependences | `PluginDependences`, `PluginsManager`, `PluginVersion`, `Decimals` |
| the Sudoku checker by exact cover | `SudokuBuilder`, `SudokuSolver`, `SudokuProgram` |
| the sorted vector and the MIME table of the control program | `TextOrder`, `VectorSort`, `Vector`, `MimeDocument`, `MimeLoading`, `MimeTypes` |
| filter chains and their construction by name | `FilterChain`, `FiltersFactory` |
| the log registry | `LogRegistry`, `LogManager` |
| listening sockets and the fast reboot | `ListenThreads` |
| request reassembly in a worker | `ClientsThread` |
| URLs | `Url` |
| a missing value, and sequences without repetitions | `Wrappers`, `Sequences` |

Code that updates state in place is a class with the same fields, or a method with the same loops over an array, proved
against a function or a relation; what the code promises is then proved about that function. What other threads, the
network, the protocol handlers, hash-map order and the operating system decide is a parameter, an arbitrary choice or a
step of a protocol.

**The parser.** `RulesTables` holds the packed Bison tables and shows them equal to a readable action table. Runs of the
automaton are functions over stacks of syntax trees (`RulesRuns.Run`); `YyParse` is the real loop over a stack of
states, a stack of semantic values and the lookahead variables. The grammar written in the rules is ambiguous; the
tables resolve it, and `RulesGrammar.Stratified` says how: NOT binds tighter than OR, OR tighter than AND, and both
associate to the left. The theorems are soundness, completeness up to the exact stack depth, unambiguity, rejection at
the first error, termination, and that the answer and the calls of `call_function` are those of the tree's value.
`RulesValues` says what this value is without the functions it is computed by: bit by bit, and letter by letter.

**Scheduling.** `SchedulerProtocol` is a state machine of atomic steps: what one thread does between two points at which
others may run. Its ready queues are those of `ReadyQueues`, which the class `ConnectionsScheduler` refines. The
theorems hold in every state of every run: one owner for every connection, the scheduled flag set exactly while queued,
no dangling handle, no lost wakeup, an exact counter of free threads. They suppose that a scheduler handler of a
connection's own does not free it; `SchedulerHandlers` shows that this is needed, and all that is needed. A connection
is lost only by three kinds of step; `StepLosesNone` shows that it is exactly those, and `UnknownAnswerLosesConnection`
gives a run that comes to one. `SchedulerFairness` carries the laws of the queues over to every interleaving, and
`SchedulerRegistration` adds what the dispatcher still writes to a connection after it is scheduled.

**Results about the code that its documentation does not say.** Each is a lemma or a clause below.

* A new connection is marked and numbered after it is scheduled. With the fast check it may be served, or deleted, by
  then; registration is safe in every run exactly without the fast check (`RegistrationIsSafeIff`,
  `FastRegistrationOutlives`).
* The HTTP protocol returns the 0 of a sent error page or redirection as its answer in three places
  (myserver/src/protocol/http/http.cpp:1033, 1043 and 1108). No worker knows that code, so the connection is neither
  deleted nor scheduled again (`UnknownAnswerLosesConnection`).
* The proxy's scheduler handler frees its connection and leaves the entry in the handle map
  (myserver/src/http_handler/proxy/proxy.cpp:417-452), which then points to a freed object (`HandlerIsSoundIff`).
* `AddFilter` sets the parent of a filter before it checks for duplicates, so adding a filter that is already present
  breaks the chain, and nothing else does; a write then goes round for ever (`WriteNeverEnds`).
* A location the log manager knows cannot be added to a type that its owner already has (`AddRefusedIff`,
  `KnownLocationRefused`).
* Version ranges are checked only for plugins that something else depends on (`UncheckedRangesDoNotMatter`,
  `SurvivorsCompatibleIff`), and a plugin that does not fit the server version is only logged.
* The cascade of removals ends exactly when no cycle of dependences lies above the removed name (`TerminatesIff`).
* Saving and loading gives the MIME table back from every content of the command buffer exactly when every extension has
  a name, a type and a command other than `EXECUTESCGI`, whose copy has no terminator, no text is empty, and no manager
  spells "none" (`RoundTripAlwaysIff`). An extension without a type comes back with the first type of all, and an empty
  text cannot be loaded.
* A printed URL is not read back in four cases, and in no other (`RoundTripIff` of `Urls`): a colon in the credentials
  (p://u:w@h/), a colon in the host, as in an IPv6 address (p://[::1]/), a colon in the path or query when no port is
  printed (p://h/a:b), and an at sign in the path or query when no credentials are (p://h/?m=a@b). Without "://" nothing
  is set, and without a slash the path is looked for at the start of the text.
* A version whose first number is from 100 to 109 is not matched by the pattern, and one from 128 on is a negative
  number (`ConvertsBackIff`).
* Over all the calls for a connection no byte is lost, doubled or moved exactly when whatever a protocol leaves before
  an answer not to wait is the end of what it was handed (`BalancedIff`). HTTP pipelining always leaves such an end, but
  what follows a header is dropped when it begins with a NUL (`PipelinedKeepsRest`).
* `Vector::remove` with a negative index, or one equal to the size, drops the last item (`Vectors.Vector.Remove`).

## Model

| member | source | states |
|---|---|---|
| RulesTables.PackedActionIsAct | plugins/src/rules_checker/rules_checker.tab.c:492-542 | For every state and lookahead class, reading yypact, yytable, yycheck and yydefact as the loop does gives the action of the readable automaton: shift, reduce, accept or error. |
| RulesTables.PackedGotoIsGoto | plugins/src/rules_checker/rules_checker.tab.c:1499-1508 | Wherever a nonterminal may begin, the packed goto tables lead to the automaton's state. |
| RulesTables.NoErrorEntry | plugins/src/rules_checker/rules_checker.tab.c:1606-1633 | No state has an entry for the error token, so error recovery can only pop the whole stack. |
| RulesGrammar.CallsInPostOrder | plugins/src/rules_checker/rules_checker.tab.c:1427-1480 | Evaluating an expression makes each call written in it once, in left-to-right post-order. |
| RulesAutomaton.OneStatePerRule | plugins/src/rules_checker/rules_checker.tab.c:492-499 | Every reduction is by a rule from 1 to 16 and in the one state of that rule; AND is never reduced in front of OR. |
| RulesAutomaton.HandleOnTop | plugins/src/rules_checker/rules_checker.tab.c:1388-1406 | In a state that reduces by a rule, the rule's right-hand side is on top of the stack and the goto below it is defined. |
| RulesAutomaton.ShiftIsSound | plugins/src/rules_checker/rules_checker.tab.c:1345-1371 | A shift keeps the stack a path of the automaton with stratified trees on it. |
| RulesAutomaton.ReductionIsSound | plugins/src/rules_checker/rules_checker.tab.c:1388-1508 | So does a reduction, which also always finds its handle. |
| RulesAutomaton.ReductionKeepsYield | plugins/src/rules_checker/rules_checker.tab.c:1388-1508 | A reduction neither loses, adds nor reorders the tokens under the stack. |
| RulesAutomaton.WeightFalls | plugins/src/rules_checker/rules_checker.tab.c:1388-1508 | Every reduction, unit reductions included, lowers a weight of the stack: the loop ends. |
| RulesRuns.RunTurns | plugins/src/rules_checker/rules_checker.tab.c:1230-1508 | The next move of a run: exhaustion, rejection, acceptance with the input on top of an empty stack, a shift within the input, or a reduction that lowers the weight. |
| RulesRuns.RunIsSound | plugins/src/rules_checker/rules_checker.tab.c:1230-1508 | A run from any valid stack that accepts does so with a stratified tree written by all the tokens. |
| RulesRuns.ReadExp | plugins/src/rules_checker/rules_checker.tab.c:1230-1508 | Wherever an expression may begin, the run over its tokens puts its tree on the stack, using exactly `Need(e)` more symbols, and is exhausted if they do not fit. |
| RulesTheorems.ParseIsSound | plugins/src/rules_checker/rules_checker.tab.c:1121-1679 | Every accepted token sequence is written by the stratified expression the parser finds. |
| RulesTheorems.ParseIsComplete | plugins/src/rules_checker/rules_checker.tab.c:1121-1679 | Every sentence is accepted with its own tree if the stack has room for it, and exhausts the stack otherwise: an exact bound. |
| RulesTheorems.Unambiguous | plugins/src/rules_checker/rules_checker.tab.c:476-542 | No token sequence is written by two stratified expressions. |
| RulesTheorems.RejectedIffNoSentence | plugins/src/rules_checker/rules_checker.tab.c:1514-1671 | Within the depth limit, a token sequence is rejected exactly when it is no sentence. |
| RulesTheorems.ParseVerdict | plugins/src/rules_checker/rules_checker.tab.c:1656-1677 | The outcome in terms of sentences and depth alone, for every token sequence and every limit. |
| RulesTheorems.StackIsViable | plugins/src/rules_checker/rules_checker.tab.c:546-552 | Whatever is on a valid stack begins some sentence. |
| RulesTheorems.RejectsAtFirstError | plugins/src/rules_checker/rules_checker.tab.c:1514-1583 | A rejection comes at the first error: the tokens shifted so far begin a sentence, and with the next token they do not. |
| RulesTheorems.NestingLimit | plugins/src/rules_checker/rules_checker.tab.c:1235-1283 | A number in k pairs of parentheses is accepted exactly for k up to 9996: with more, the stack of ten thousand states is exhausted. |
| RulesValues.AndValue | plugins/src/rules_checker/rules_checker.tab.c:1462-1465 | Each bit of the value of an AND is set exactly when it is set in both operands; the right one is evaluated after the left. |
| RulesValues.OrValue | plugins/src/rules_checker/rules_checker.tab.c:1467-1470 | Each bit of the value of an OR is set exactly when it is set in one of the operands. |
| RulesValues.ConnectiveValues | plugins/src/rules_checker/rules_checker.tab.c:1457-1470 | On truth values AND, OR and NOT are the logical connectives. |
| RulesValues.LengthValue | plugins/src/rules_checker/rules_checker.tab.c:1437-1440 | The value of a string alone is its length modulo 2^32: its 32 bits are the low 32 binary digits of the length. |
| RulesValues.EqualValue | plugins/src/rules_checker/rules_checker.tab.c:1442-1445 | `==` is one exactly on texts of the same length with the same characters, or on the same numbers, and zero otherwise. |
| RulesValues.EqualNoCaseValue | plugins/src/rules_checker/rules_checker.tab.c:1447-1450 | `===` is one exactly on texts that are the same up to the first NUL of each, but for the case of the letters A to Z, and zero otherwise. |
| RulesValues.CallValue | plugins/src/rules_checker/rules_checker.tab.c:1427-1435 | The value of a call is the answer to the last call made, given all the calls before it; an argument is evaluated first and passed on. |
| RulesParser.SemanticAction | plugins/src/rules_checker/rules_checker.tab.c:1405-1486 | The value each rule computes is the meaning of the tree it builds, whose laws are those of `RulesValues`, and the calls it makes are those of that tree after the calls for the stack below. |
| RulesParser.ReduceBy | plugins/src/rules_checker/rules_checker.tab.c:1388-1508 | A reduction keeps the state stack, the value stack and the calls made in step with the stack of trees; once the input is reduced, `*ret` is its value. |
| RulesParser.GotoState | plugins/src/rules_checker/rules_checker.tab.c:1499-1508 | The state entered is that of the automaton. |
| RulesParser.Backup | plugins/src/rules_checker/rules_checker.tab.c:1310-1384 | The action taken is the automaton's for the next token, though a token is read only in states that need one, and each token is read once. |
| RulesParser.Recover | plugins/src/rules_checker/rules_checker.tab.c:1606-1633 | Error recovery always fails: no state on any stack can shift the error token. |
| RulesParser.Grow | plugins/src/rules_checker/rules_checker.tab.c:1235-1283 | Stacks grow by doubling; there is room exactly below 10000 states. |
| RulesParser.YyParse | plugins/src/rules_checker/rules_checker.tab.c:1121-1679 | The loop ends and returns 0 exactly on the sentences whose parse fits; `*ret` and the calls made are then the value and the calls of the one stratified tree, which `RulesValues` describes; it returns 1 only on token sequences that are no sentences, and 2 only on exhaustion. |
| ReadyQueues.GetTakesOldest | myserver/src/connections_scheduler/connections_scheduler.cpp:546-574 | A request finds a connection exactly when some queue holds one; it takes the oldest of the class served, leaves all others in place, and a class never serves more than its number plus one in a turn. |
| ReadyQueues.ClassIsFifo | myserver/src/connections_scheduler/connections_scheduler.cpp:414-442 | Over any sequence of pushes and requests, what was taken from a class followed by what still waits is what waited at the start followed by what was pushed. |
| ReadyQueues.WaitIsBounded | myserver/src/connections_scheduler/connections_scheduler.cpp:546-574 | The wait from any state of the turn is at most 6*(k/(p+1)+1) requests. |
| ReadyQueues.RequestLowersWait | myserver/src/connections_scheduler/connections_scheduler.cpp:546-574 | Each request either serves the class or lowers the bound. |
| ReadyQueues.WaitingIsBounded | myserver/src/connections_scheduler/connections_scheduler.cpp:534-575 | Whatever is pushed in between, the connection with k others ahead of it in class p is the answer to one of the next 6*(k/(p+1)+1) requests. |
| Scheduling.ClassOf | myserver/src/connections_scheduler/connections_scheduler.cpp:416-422 | A priority from 0 to 2 is its own class; lower ones fall into class 0, but for -1, and higher ones into class 2. |
| Scheduling.ClassFollowsPriority | myserver/src/connections_scheduler/connections_scheduler.cpp:416-422 | The class never falls as the priority grows; priority -1 takes the class of the host's default, and no other priority looks at it. |
| Scheduling.ConnectionsScheduler.PushReady | myserver/src/connections_scheduler/connections_scheduler.cpp:414-442 | Sets the flag and appends the connection to the queue of its class, given by number for every priority and host default, and changes nothing else. |
| Scheduling.ConnectionsScheduler.PopReady | myserver/src/connections_scheduler/connections_scheduler.cpp:546-574 | The loop over the three classes refines `Get`, and clears the flag of the connection taken alone. |
| Scheduling.ConnectionsScheduler.PutWaiting | myserver/src/connections_scheduler/connections_scheduler.cpp:463-492 | Clears the flag and enters the connection under its handle. |
| Scheduling.ConnectionsScheduler.RemoveConnection | myserver/src/connections_scheduler/connections_scheduler.cpp:667-681 | Takes just the handle of the connection's socket out of the map; a connection without socket leaves it as it is. |
| SchedulerProtocol.HeldIsNotQueued | myserver/src/server/clients_thread.cpp:242-360 | A connection held by a thread is neither queued nor about to be pushed by another. |
| SchedulerProtocol.HandleIsFree | myserver/src/connections_scheduler/connections_scheduler.cpp:75-107 | While a thread holds a connection, no event is armed or fired for its handle, no message carries it and no other thread is about to use it. |
| SchedulerProtocol.PopIsSound | myserver/src/connections_scheduler/connections_scheduler.cpp:546-574 | Taking a connection moves it from its queue to the worker and nothing else, and its flag is cleared with it. |
| SchedulerProtocol.PushIsSound | myserver/src/connections_scheduler/connections_scheduler.cpp:414-442 | Pushing a held and flagged connection makes the queue its only owner. |
| SchedulerProtocol.KeepIsSound | myserver/src/connections_scheduler/connections_scheduler.cpp:463-529 | A kept connection is in the handle map again before its message is sent. |
| SchedulerProtocol.DestroyIsSound | myserver/src/server/server.cpp:1267-1287 | A deleted connection is nowhere: in no queue, no event, no message, no thread and no entry of the map. |
| SchedulerProtocol.ServeIsSound | myserver/src/server/clients_thread.cpp:324-356 | Whatever the protocol answers, the worker's move keeps single ownership, exact flags and live handles. |
| SchedulerProtocol.DispatcherStepIsSound | myserver/src/connections_scheduler/connections_scheduler.cpp:75-209 | So does every step of the event loop: messages, one-shot events, new connections, timeouts, and the call of a connection's own scheduler handler that does not free it. |
| SchedulerProtocol.StepIsSound | myserver/src/connections_scheduler/connections_scheduler.cpp:75-575 | So does every step of every thread, where a connection's own scheduler handler does not free it. |
| SchedulerTheorems.BalancedIsSafe | myserver/src/connections_scheduler/connections_scheduler.cpp:414-575 | Steps that change queue, semaphore and free-thread counter in step with the thread that takes them lose no wakeup. |
| SchedulerTheorems.SpawnsOnlyInNeed | myserver/src/server/server.cpp:973-985 | A thread is created only while every worker is busy and there are fewer workers than the limit. |
| SchedulerTheorems.SpawnIsSafe | myserver/src/server/server.cpp:973-985 | A thread is created only below the limit, and its creation keeps all invariants. |
| SchedulerTheorems.ExitIsSafe | myserver/src/server/clients_thread.cpp:156-179 | A worker that leaves its loop keeps the counter exact. |
| SchedulerTheorems.StepIsSafe | myserver/src/connections_scheduler/connections_scheduler.cpp:166-575 | Every step keeps single ownership, exact flags, no dangling handle, no lost wakeup, the exact counter and the thread limit. |
| SchedulerTheorems.EveryRunIsSafe | myserver/src/connections_scheduler/connections_scheduler.cpp:166-575 | All of this holds in every state of every run from the start of the server in which no scheduler handler frees its connection, however the steps interleave. |
| SchedulerTheorems.QueuedIsExpected | myserver/src/connections_scheduler/connections_scheduler.cpp:426-441 | While a connection is queued, the semaphore is open, or a thread is past it, or one is about to post. |
| SchedulerTheorems.EventFindsItsConnection | myserver/src/connections_scheduler/connections_scheduler.cpp:75-90 | A one-shot event finds its own live connection in the map, not flagged and held by nobody else. |
| SchedulerTheorems.StepFollows | myserver/src/connections_scheduler/connections_scheduler.cpp:75-575 | Where each connection goes in each step. |
| SchedulerTheorems.AbandonedIsNowhere | myserver/src/connections_scheduler/connections_scheduler.cpp:93-103 | After an abandoning step a live connection is owned by nobody: its own handler took the event without freeing it, a protocol buffer that refuses deletion made its timeout leave it (no class of the repository refuses), or its protocol answered with an unknown code. |
| SchedulerTheorems.StepLosesNone | myserver/src/connections_scheduler/connections_scheduler.cpp:75-575 | A step leaves every live connection with an owner exactly when it is not an abandoning one. |
| SchedulerTheorems.RunsLoseNone | myserver/src/connections_scheduler/connections_scheduler.cpp:75-575 | Over runs without abandoning steps every live connection has exactly one owner. |
| SchedulerHandlers.StepKeepsFound | myserver/src/connections_scheduler/connections_scheduler.cpp:75-97 | While the dispatcher is about to call the handler of a connection, no step of a worker takes the connection out of the handle map. |
| SchedulerHandlers.HandlerIsSoundIff | myserver/src/http_handler/proxy/proxy.cpp:417-452 | In every state of every run in which the dispatcher calls a handler, all entries of the handle map are of live connections afterwards exactly when the handler does not free its connection, and so are all the invariants kept. |
| SchedulerFairness.QueuesRunAlone | myserver/src/connections_scheduler/connections_scheduler.cpp:414-575 | In every run of the protocol the ready queues are those its pushes and requests alone lead to, in their order. |
| SchedulerFairness.RunsAreFifo | myserver/src/connections_scheduler/connections_scheduler.cpp:414-442 | So in every interleaving every class is first in, first out, and loses nothing. |
| SchedulerFairness.GotInTime | myserver/src/connections_scheduler/connections_scheduler.cpp:534-575 | However the threads interleave, the connection with k others ahead of it in class p is held by the worker that makes one of the next 6*(k/(p+1)+1) requests. |
| SchedulerRegistration.UnknownAnswerLosesConnection | myserver/src/server/clients_thread.cpp:329-358 | A run from the start of the server to a live connection that nobody owns: it is accepted, armed, read, pushed and served, and its protocol answers with none of the four codes, as the HTTP protocol can. |
| SchedulerRegistration.SlowRegistrationIsSafe | myserver/src/server/server.cpp:1240-1261 | In every run, a connection accepted without the fast check is live and held by its event alone when the dispatcher marks and numbers it. |
| SchedulerRegistration.FastRegistrationRaces | myserver/src/server/server.cpp:1240-1261 | A run in which a worker serves a connection with the fast check while the dispatcher is about to mark and number it. |
| SchedulerRegistration.FastRegistrationOutlives | myserver/src/server/server.cpp:1240-1261 | A run in which the connection is destroyed before it is marked and numbered. |
| SchedulerRegistration.RegistrationIsSafeIff | myserver/src/server/server.cpp:1240-1261 | In a server with a worker, every registration of every run is to a live connection no thread holds exactly when no protocol has the fast check. |
| PluginDependences.RemovalIsUnique | myserver/src/plugin/plugins_manager.cpp:601-662 | There is one least removal set, so no order of iteration over the hash maps can matter. |
| PluginDependences.RemovedIff | myserver/src/plugin/plugins_manager.cpp:601-662 | A name is removed exactly when it is depended upon and absent, without version or with a dependence out of range, or when it depends on a removed name. |
| PluginDependences.SurvivorIsSupported | myserver/src/plugin/plugins_manager.cpp:601-662 | All dependences of a survivor are installed, have a version and survive; they are in range if anything depends on the survivor. |
| PluginDependences.UncheckedRangesDoNotMatter | myserver/src/plugin/plugins_manager.cpp:573-581 | Server versions never change the removal set, nor do the ranges of plugins nothing depends on. |
| PluginDependences.IncompatibleSurvives | myserver/src/plugin/plugins_manager.cpp:601-652 | A concrete plugin that survives next to a dependence it declares itself incompatible with. |
| PluginDependences.RemovedIffRises | myserver/src/plugin/plugins_manager.cpp:601-662 | A name is removed exactly when it lies at the end of a path of dependences up from a name that is removed for its own sake. |
| PluginDependences.SurvivorsCompatibleIff | myserver/src/plugin/plugins_manager.cpp:601-662 | All survivors agree with their declared ranges exactly when every incompatible plugin that nothing depends on lies on such a path, which the descriptors alone decide. |
| PluginDependences.NothingRemovedIff | myserver/src/plugin/plugins_manager.cpp:601-662 | Nothing is removed exactly when every name something depends on is installed with a version, and all its declared dependences are installed within the versions it declares, bounds included. |
| PluginDependences.SurvivesIff | myserver/src/plugin/plugins_manager.cpp:601-662 | A name survives exactly when every name its dependences lead down to, itself included when depended upon, is installed with a version and within its own declared versions. |
| PluginDependences.UpwardIsClosed | myserver/src/plugin/plugins_manager.cpp:527-548 | What the cascade marks is closed under "depends on it". |
| PluginDependences.UpwardIsLeast | myserver/src/plugin/plugins_manager.cpp:527-548 | It marks no more than any closed set with the name must hold. |
| PluginDependences.TerminatesIff | myserver/src/plugin/plugins_manager.cpp:527-548 | The cascade, which has no visited check, ends exactly when no cycle is met on the way up. |
| PluginsManagement.PluginsManager.FallDown | myserver/src/plugin/plugins_manager.cpp:527-548 | The recursion marks just the name and all that depends on it, directly or not. |
| PluginsManagement.PluginsManager.ReadDependences | myserver/src/plugin/plugins_manager.cpp:562-594 | For every order of the maps, the lists give exactly the pairs of a plugin and its dependence, and nothing is marked. |
| PluginsManagement.PluginsManager.LoadOne | myserver/src/plugin/plugins_manager.cpp:601-652 | One turn of the second loop marks only names every removal set holds, marks the name if it is a seed, and keeps the marks closed. |
| PluginsManagement.CascadeKeeps | myserver/src/plugin/plugins_manager.cpp:601-652 | The invariant of the second loop, over one cascade. |
| PluginsManagement.PluginsManager.RemoveMarked | myserver/src/plugin/plugins_manager.cpp:655-662 | Exactly the marked plugins go. |
| PluginsManagement.PluginsManager.Load | myserver/src/plugin/plugins_manager.cpp:555-662 | For every order of iteration, what is left is the plugins without the least removal set: exactly those whose dependences lead down to satisfied names only; and all are left exactly when the descriptors satisfy each other. |
| Decimals.ReadsBack | myserver/src/protocol/url.cpp:136 | atoi of a printed number, followed by anything but a digit, is the number. |
| Decimals.AtoiReadsSign | myserver/src/protocol/url.cpp:136 | atoi reads a sign before the number. |
| Decimals.AtoiSkipsBlanks | myserver/src/protocol/url.cpp:136 | atoi skips the six blanks, and gives zero for a text that goes on with neither a digit nor a sign. |
| PluginVersion.SplitDotted | myserver/src/plugin/plugin_info.cpp:203-246 | The parts of a printed version are its printed numbers. |
| PluginVersion.DecimalMatches | myserver/src/plugin/plugin_info.cpp:194-201 | Which numbers up to 255 the pattern accepts in the first place, and that it accepts all in the others. |
| PluginVersion.ConvertsBackIff | myserver/src/plugin/plugin_info.cpp:190-249 | A printed version is read as n1*2^24+n2*2^16+n3*2^8+n4 exactly when its first number is at most 99 or from 110 to 127. |
| PluginVersion.ConvertedIs | myserver/src/plugin/plugin_info.cpp:248 | The 32-bit result: from 128 on it is that number less 2^32. |
| PluginVersion.DottedConverts | myserver/src/plugin/plugin_info.cpp:190-249 | For any numbers with dots between them, however many and large: at most four of at most 255, or one of at most 299, with no zero between two other digits in the first, give their value in 32 bits with a sign, and all others give -1. |
| PluginVersion.SplitJoins | myserver/src/plugin/plugin_info.cpp:203-246 | The parts of any text are what stands between its dots. |
| PluginVersion.JunkIsRejected | myserver/src/plugin/plugin_info.cpp:194-201 | A part that is empty, has more than three characters or one that is no digit gives -1. |
| PluginVersion.ValueIsLexicographic | myserver/src/plugin/plugins_manager.cpp:643-644 | Comparing the numbers compares versions lexicographically, a missing number counting as zero. |
| SudokuBuilder.BoxNumbers | misc/Sudoku.Core/src/SimpleBuilder.cs:120 | The box expression, evaluated from left to right, numbers the boxes by their place and stays below the height. |
| SudokuBuilder.GroupInSection | misc/Sudoku.Core/src/SimpleBuilder.cs:19-24 | Every index into the flat cover lies in the columns of its own section. |
| SudokuBuilder.SameColumnIff | misc/Sudoku.Core/src/SimpleBuilder.cs:34-139 | Two choices share a cover column exactly when they share a cell, or a line or box and the symbol. |
| SudokuBuilder.SameBoxIff | misc/Sudoku.Core/src/SimpleBuilder.cs:120 | Cells have the same box number exactly when they stand in the same box. |
| SudokuBuilder.BoxIsRectangle | misc/Sudoku.Core/src/SimpleBuilder.cs:120 | That is exactly when one of the rectangles of box size that tile the table holds both. |
| SudokuBuilder.SimpleBuilder.Mark | misc/Sudoku.Core/src/SimpleBuilder.cs:43-52 | The innermost assignment never meets a one, stays in bounds and keeps the other sections. |
| SudokuBuilder.SimpleBuilder.AddCells | misc/Sudoku.Core/src/SimpleBuilder.cs:34-59 | The section holds a one for each given choice and its cell, and zeros elsewhere, with every choice in one cover row. |
| SudokuBuilder.SimpleBuilder.AddRows | misc/Sudoku.Core/src/SimpleBuilder.cs:60-85 | The same for rows of the table and symbols. |
| SudokuBuilder.SimpleBuilder.AddCols | misc/Sudoku.Core/src/SimpleBuilder.cs:86-112 | The same for columns of the table and symbols. |
| SudokuBuilder.SimpleBuilder.AddBoxes | misc/Sudoku.Core/src/SimpleBuilder.cs:113-139 | The same for boxes and symbols, though this section numbers its cover rows in a transposed order. |
| SudokuBuilder.SimpleBuilder.Run | misc/Sudoku.Core/src/SimpleBuilder.cs:17-32 | All four sections are filled, each with an enumeration of all choices of its own; it never fails. |
| SudokuBuilder.SimpleBuilder.GetCover | misc/Sudoku.Core/src/SimpleBuilder.cs:140-149 | The table of columns by rows agrees with the flat cover everywhere. |
| SudokuBuilder.CoverCleanIff | misc/Sudoku.Core/src/SimpleBuilder.cs:17-139 | No cover column holds two ones exactly when no symbol repeats in a row, column or box. |
| SudokuSolver.CheckConflicts | misc/Sudoku.Core/src/SimpleSolver.cs:85-106 | On every table, of any size: true exactly when no column holds two entries that are not zero. |
| SudokuSolver.FindColumn | misc/Sudoku.Core/src/SimpleSolver.cs:22-36 | The last column among those with the fewest ones, and a zero index only if no column has ones in a number that counts. |
| SudokuSolver.FindRow | misc/Sudoku.Core/src/SimpleSolver.cs:39-47 | A row that is not zero in the column, with its label, or 0 when there is none. |
| SudokuSolver.FindDeleted | misc/Sudoku.Core/src/SimpleSolver.cs:50-63 | Exactly the columns with a one in the row and the rows those touch, each once. |
| SudokuSolver.Reduce | misc/Sudoku.Core/src/SimpleSolver.cs:66-81 | What is left, in the same order, without the deleted columns and rows. |
| SudokuSolver.Chosen | misc/Sudoku.Core/src/SimpleSolver.cs:22-63 | Without conflicts a step picks a row with ones and deletes that row alone, or no row with ones is left. |
| SudokuSolver.StepReduces | misc/Sudoku.Core/src/SimpleSolver.cs:66-83 | The reduced table is labelled and free of conflicts again. |
| SudokuSolver.PicksWithRow | misc/Sudoku.Core/src/SimpleSolver.cs:48-83 | The picked row and the picks of the reduced table are the picks of the table. |
| SudokuSolver.Resolve | misc/Sudoku.Core/src/SimpleSolver.cs:14-84 | On every labelled table without conflicts it ends, succeeds, and outputs the labels of exactly the rows with ones, each once, and then at most two labels of rows without ones. |
| SudokuSolver.PicksCoverOnce | misc/Sudoku.Core/src/SimpleSolver.cs:14-84 | The rows it outputs cover every column that holds a one exactly once. |
| SudokuProgram.AddLabels | misc/Sudoku.Core/src/Program.cs:45-56 | The cover with a row and a column of consecutive labels before it; the loops and the two last assignments fill all of it. |
| SudokuProgram.LabelledCover | misc/Sudoku.Core/src/Program.cs:45-56 | What the solver is given is a labelled table of zeros and ones. |
| SudokuProgram.SingleIffClean | misc/Sudoku.Core/src/Program.cs:60-67 | The conflict check on it says whether every section of the cover is clean. |
| SudokuProgram.Run | misc/Sudoku.Core/src/Program.cs:25-78 | True exactly when no symbol from 1 to the width repeats in a row, a column or a box. |
| TextOrder.CompareIsOrder | misc/control/vector.cpp:193 | strcmp is zero only on equal texts, and changes its sign with its arguments. |
| TextOrder.FirstDifferenceDecides | misc/control/vector.cpp:193 | Of two texts the one with the smaller character at the first difference comes first, and a text before whatever continues it. |
| TextOrder.LeIsTransitive | misc/control/vector.cpp:132-139 | The order of strcmp is transitive. |
| VectorSort.Partition | misc/control/vector.cpp:127-148 | The moving hole ends at a place that splits the range around the pivot; the range is rearranged and nothing outside it changes. |
| VectorSort.Glue | misc/control/vector.cpp:148-154 | Sorted halves around a pivot make a sorted range. |
| VectorSort.PartsSorted | misc/control/vector.cpp:148-154 | Rearranging and sorting both parts of a split range keeps the split and sorts the range. |
| VectorSort.QSort | misc/control/vector.cpp:120-155 | The range is sorted and a permutation of what it was; the rest is untouched. |
| Vectors.Vector.Add | misc/control/vector.cpp:36-55 | The new item stands at the end under its own number, all others keep their places, and the sorted flag is cleared. |
| Vectors.Vector.ReCount | misc/control/vector.cpp:219-225 | Afterwards every item's number is its place. |
| Vectors.Vector.Sort | misc/control/vector.cpp:158-169 | The same items, sorted, each with its new place as its number. |
| Vectors.Vector.Get | misc/control/vector.cpp:179-203 | The place of an item with the text, or -1 exactly when there is none; sorting on the way keeps the items. |
| Vectors.Vector.Remove | misc/control/vector.cpp:65-96 | Takes out the item at the index, renumbers the others and keeps a true sorted flag true unless the last item goes; a negative index, or one equal to the size, costs the last item, and a larger one changes nothing. |
| Vectors.Vector.CopyWithout | misc/control/vector.cpp:78-91 | The copying loop, which may read one place past the last item, stays within the allocated arrays and copies all items but one. |
| Vectors.Vector.Clear | misc/control/vector.cpp:98-109 | No item is left, and a vector that held some is no longer marked sorted. |
| Vectors.Vector.At | misc/control/vector.cpp:171-176 | The item whose number is the index, or none outside. |
| Vectors.RemovedKeeps | misc/control/vector.cpp:65-96 | Removal at any index keeps items distinct and in order. |
| Vectors.DistinctKept | misc/control/vector.cpp:158-169 | A permutation of distinct items is one of the same items, distinct again. |
| Vectors.Outside | misc/control/vector.cpp:190-200 | Each comparison of the binary search rules out the half it skips. |
| MimeDocument.NoneIff | misc/control/mimetype.cpp:152-155 | The manager read is the shared "none" exactly for the four letters in either case, and any other text is kept. |
| MimeDocument.NewEntrySaved | misc/control/mimetype.cpp:203-266 | An extension nothing was set for is saved with the first type, SEND and NONE, and every group has the same four children. |
| MimeDocument.ReloadedIff | misc/control/mimetype.cpp:99-160 | An entry can be loaded and comes back the same exactly when it has a name, a type, a known command whose text is terminated, no empty text, and a manager that does not spell "none". |
| MimeDocument.CommandReads | misc/control/mimetype.cpp:119-142 | Every command is read back from the text written for it, except one whose copy is cut short. |
| MimeDocument.EntryReads | misc/control/mimetype.cpp:99-162 | The group written for a new extension can be read exactly when no text in it is empty, and then adds just that extension with its settings. |
| MimeDocument.SavedReads | misc/control/mimetype.cpp:86-169 | What was saved can be loaded exactly when no text is empty; then every extension comes back, and no other. |
| MimeDocument.RoundTripIff | misc/control/mimetype.cpp:203-266 | For each content of the command buffer: the table comes back exactly when every entry survives; extensions without type and unknown commands included. |
| MimeDocument.RoundTripAlwaysIff | misc/control/mimetype.cpp:218-262 | The table comes back whatever the command buffer held exactly when every extension has a name, a type and a command other than EXECUTESCGI, no text is empty and no manager spells "none". |
| MimeLoading.LoadedIs | misc/control/mimetype.cpp:86-169 | After loading any readable document the table has exactly the extensions mentioned in it, each with the last type, the last known command and the last manager that stand under it, wherever they are. |
| MimeLoading.SomeLast | misc/control/mimetype.cpp:86-169 | Whatever is set under an extension at all has such a last place. |
| MimeTypes.MIMEtypeXML.AddExt | misc/control/mimetype.cpp:309-323 | An extension that is there stays as it is; a new one has no type, command 0 and no manager; the place returned is its place. |
| MimeTypes.MIMEtypeXML.AddMime | misc/control/mimetype.cpp:331-341 | The place returned is that of the type, and no setting of any extension changes when the types are sorted. |
| MimeTypes.MIMEtypeXML.SetType | misc/control/mimetype.cpp:358-361 | The type of just that extension changes. |
| MimeTypes.MIMEtypeXML.SetCmd | misc/control/mimetype.cpp:368-371 | The command of just that extension changes. |
| MimeTypes.MIMEtypeXML.SetManager | misc/control/mimetype.cpp:378-387 | The manager of just that extension changes. |
| MimeTypes.MIMEtypeXML.GetType | misc/control/mimetype.cpp:394-400 | Leads to the text set for the extension, however often the types were sorted since. |
| MimeTypes.MIMEtypeXML.GetSettings | misc/control/mimetype.cpp:407-420 | The command and the manager last set. |
| MimeTypes.MIMEtypeXML.RemoveExt | misc/control/mimetype.cpp:347-351 | Just that extension goes, with its settings. |
| MimeTypes.MIMEtypeXML.LoadCore | misc/control/mimetype.cpp:86-169 | The two vectors hold exactly what the document says. |
| MimeTypes.MIMEtypeXML.SaveCore | misc/control/mimetype.cpp:203-266 | The document has one group for each extension, with the text its type pointer leads to, or the first type when it has none; it fails exactly on an empty table. |
| MimeTypes.MIMEtypeXML.Clear | misc/control/mimetype.cpp:46-50 | The table is empty. |
| FilterChains.ThroughParts | myserver/src/filter/filters_chain.cpp:68-76 | A write through a chain is the composition of the writes through its parts. |
| FilterChains.LinkedIff | myserver/src/filter/filters_chain.cpp:117-165 | The chain is linked exactly when its filters are distinct, each one's parent is its successor in the list and the last one's is the stream. |
| FilterChains.PresentBreaks | myserver/src/filter/filters_chain.cpp:124-139 | Setting the parent of a filter that is already in the chain to its head breaks the chain. |
| FilterChains.WriteNeverEnds | myserver/src/filter/filters_chain.cpp:124-147 | In a chain broken that way, a write stands at a filter after any number of filters, and never reaches the stream. |
| FilterChains.FiltersChain.PutBefore | myserver/src/filter/filters_chain.cpp:124-131 | The parent of a filter that is added is the head of the chain; of a filter that is in the chain already, so that writes go round for ever. |
| FilterChains.RemovalDropsFactor | myserver/src/filter/filters_chain.cpp:243-281 | Removal drops exactly the filter's own factor from what is written. |
| FilterChains.FiltersChain.SetStream | myserver/src/filter/filters_chain.cpp:45-55 | The last filter alone is redirected, and the chain stays linked to the new stream. |
| FilterChains.FiltersChain.Write | myserver/src/filter/filters_chain.cpp:68-76 | The stream receives what the composition of the filters makes of the data; without a stream, or on a broken one, the write fails. |
| FilterChains.FiltersChain.AddFilter | myserver/src/filter/filters_chain.cpp:117-165 | The filter stands in front and its header, if one is to be sent, goes through the chain as it was before, with the result of every case; the chain stays linked exactly when the filter was not in it. |
| FilterChains.FiltersChain.RemoveFilter | myserver/src/filter/filters_chain.cpp:243-281 | The chain without the filter, linked again. |
| FilterChains.FiltersChain.ClearAllFilters | myserver/src/filter/filters_chain.cpp:294-303 | The chain is empty and linked, whatever it was. |
| FilterChains.FiltersChain.HasModifiersFilters | myserver/src/filter/filters_chain.cpp:308-317 | True exactly when some filter changes the data. |
| FiltersFactories.AssembleIs | myserver/src/filter/filters_factory.cpp:124-160 | Construction succeeds exactly when no name is refused, and then puts what the names make, reversed, before what was there. |
| FiltersFactories.FiltersFactory.Insert | myserver/src/filter/filters_factory.cpp:60-65 | The name now stands for that kind; all other names stand for what they did. |
| FiltersFactories.FiltersFactory.GetFilter | myserver/src/filter/filters_factory.cpp:73-88 | A new filter of the kind the name stands for, built-in ones first, or none. |
| FiltersFactories.SubstringIff | myserver/src/filter/filters_factory.cpp:138-139 | The search finds a name exactly when it stands somewhere in the text. |
| FiltersFactories.AssembleUses | myserver/src/filter/filters_factory.cpp:134-157 | The names used are exactly those that stand in the accepted text, or all without one: an unfit one among them fails the construction, and each with a header adds its filter. |
| FiltersFactories.FiltersFactory.Chain | myserver/src/filter/filters_factory.cpp:124-160 | All or nothing: it fails, and leaves the chain empty, exactly when a name that stands in the accepted text is unknown or changes data where that is not allowed; otherwise the filters of all such names with a header, and no others, stand before the old ones, the last name first. |
| LogRegistry.AddCoherent | myserver/src/log/log_manager.cpp:117-167 | Adding keeps the three maps one relation with one stream for each location, and adds that tuple alone or nothing. |
| LogRegistry.AddRefusedIff | myserver/src/log/log_manager.cpp:141-152 | A tuple that is not there is refused exactly when its location, its owner and that owner's type all are. |
| LogRegistry.AddsIff | myserver/src/log/log_manager.cpp:117-167 | A tuple that is there, a missing type, an unknown location without a new stream or owner is refused, and enters no stream; and when all else is accepted. |
| LogRegistry.AddedStream | myserver/src/log/log_manager.cpp:117-167 | An added tuple has the stream of its location, or the new one where the location was unknown; no other stream changes. |
| LogRegistry.KnownLocationRefused | myserver/src/log/log_manager.cpp:141-152 | A concrete registry and tuple for which that happens. |
| LogRegistry.RemoveCoherent | myserver/src/log/log_manager.cpp:258-313 | Removing an owner keeps the maps together and takes just its tuples out. |
| LogRegistry.SoleIff | myserver/src/log/log_manager.cpp:288-305 | A stream is solely owned exactly when the owner has its location under some type and nobody else has. |
| LogRegistry.RemovedStreams | myserver/src/log/log_manager.cpp:258-313 | A stream stays, the same, exactly when someone else has its location. |
| LogRegistry.AddThenRemove | myserver/src/log/log_manager.cpp:117-313 | Adding for an owner that is not there, and removing the owner again, restores the registry. |
| LogRegistry.DropIs | myserver/src/log/log_manager.cpp:295 | Dropping an owner from a list of sharers leaves the others, without repeats. |
| LogManagement.LogManager.ContainsType | myserver/src/log/log_manager.cpp:1054-1058 | The answer, and the empty owner entry the query may leave behind. |
| LogManagement.LogManager.ContainsTuple | myserver/src/log/log_manager.cpp:1070-1077 | The answer, and the empty entries the query may leave behind. |
| LogManagement.LogManager.ContainsLocation | myserver/src/log/log_manager.cpp:1023-1028 | The answer; in a coherent registry nothing is left behind. |
| LogManagement.WithTypeCoherent | myserver/src/log/log_manager.cpp:1054-1077 | The empty entries of queries change neither the relation nor its coherence. |
| LogManagement.LogManager.AddStream | myserver/src/log/log_manager.cpp:228-245 | The stream is entered in all three maps, and the owner is listed once. |
| LogManagement.LogManager.Add | myserver/src/log/log_manager.cpp:117-167 | Refines the relation's `AfterAdd` with its exact failure condition, and keeps the registry coherent. |
| LogManagement.LogManager.Remove | myserver/src/log/log_manager.cpp:258-313 | Refines `AfterRemove`; exactly the streams only that owner uses are deleted, each once. |
| ListenThreads.LiveParts | myserver/src/connections_scheduler/listen_threads.cpp:209-261 | The sockets of disjoint sets of ports are disjoint, and together those of the union. |
| ListenThreads.LiveIff | myserver/src/connections_scheduler/listen_threads.cpp:254-261 | The live sockets are those entered for some port, of either family. |
| ListenThreads.ExchangedIff | myserver/src/connections_scheduler/listen_threads.cpp:226-270 | A port is used afterwards exactly when it was requested and was used before or could be made; one used before keeps its sockets. |
| ListenThreads.ExchangedLive | myserver/src/connections_scheduler/listen_threads.cpp:254-261 | After the exchange the live sockets are those kept and those made, each once. |
| ListenThreads.ExchangedSum | myserver/src/connections_scheduler/listen_threads.cpp:254-261 | Registering kept and made ports registers every live socket once. |
| ListenThreads.ExchangedStayOpen | myserver/src/connections_scheduler/listen_threads.cpp:254-270 | No socket in use after the exchange is one of those to be closed. |
| ListenThreads.ListenThreads.RegisterListener | myserver/src/connections_scheduler/listen_threads.cpp:169-182 | Registers each socket the port has, once. |
| ListenThreads.ListenThreads.CreateServerAndListener | myserver/src/connections_scheduler/listen_threads.cpp:64-164 | During a reboot the port is only noted; otherwise it fails exactly when no socket could be made, and enters and registers what was made. |
| ListenThreads.ListenThreads.AddListeningThread | myserver/src/connections_scheduler/listen_threads.cpp:188-194 | A used port is left alone; the registered sockets stay exactly the live ones. |
| ListenThreads.ListenThreads.BeginFastReboot | myserver/src/connections_scheduler/listen_threads.cpp:300-303 | Starts the transaction without touching ports or sockets. |
| ListenThreads.ListenThreads.RollbackFastReboot | myserver/src/connections_scheduler/listen_threads.cpp:284-295 | The used ports are unchanged, every live socket is registered once, and no request is left over. |
| ListenThreads.ListenThreads.Terminate | myserver/src/connections_scheduler/listen_threads.cpp:308-374 | During a reboot nothing happens; during a commit every socket of the dropped ports is closed once; otherwise every socket of every port is, and no port is left. |
| ListenThreads.ListenThreads.CommitFastReboot | myserver/src/connections_scheduler/listen_threads.cpp:209-278 | The used ports become the requested ones less those that could not be made; kept ports keep their sockets; every live socket is registered once and every dropped one closed once. |
| ListenThreads.ListenThreads.Reload | myserver/src/server/server.cpp:520-536 | The whole exchange: once the scheduler has forgotten its listeners, begin, any requests, and commit or rollback leave exactly the sockets in use registered, each once, with the old ports and nothing closed, or the requested ports and each dropped socket closed once. |
| ClientsThread.AfterLast | myserver/src/server/clients_thread.cpp:258-351 | A run of calls followed by one more. |
| ClientsThread.KeepsRest | myserver/src/server/clients_thread.cpp:258-357 | After any number of calls, the first of which may be one that does not receive, the connection keeps nothing of a whole request, all of an incomplete one with what was kept before, and of one not to wait for what the protocol left. |
| ClientsThread.HandsRest | myserver/src/server/clients_thread.cpp:258-292 | The next call hands the protocol those bytes and what it receives itself, together below 8192. |
| ClientsThread.HandsLeft | myserver/src/server/clients_thread.cpp:353-357 | After an answer not to wait the next call hands over exactly what the protocol left, or finds it too long from 8192 bytes on. |
| ClientsThread.BalanceKept | myserver/src/server/clients_thread.cpp:324-357 | One call keeps "used up, followed by kept, is received" exactly when what it leaves, if it answers not to wait, is the end of what it was handed. |
| ClientsThread.BalancedIff | myserver/src/server/clients_thread.cpp:258-357 | Over all runs, what was used up followed by what is kept is what was received, in order and after every call, exactly when every no-wait answer leaves an end of what was handed over. |
| ClientsThread.HandsUnused | myserver/src/server/clients_thread.cpp:258-292 | Then every call hands over exactly the bytes received and not used up, and never takes the over-length branch. |
| ClientsThread.HandsAllSinceKeepIff | myserver/src/server/clients_thread.cpp:258-357 | It hands over all that was received since the last keep exactly when every no-wait answer since then left all it was handed; without such answers, always. |
| ClientsThread.PipelinedKeepsRest | myserver/src/protocol/http/http.cpp:1055-1076 | What HTTP pipelining leaves is an end of the request; of what follows a header without NUL the next call has all exactly when it does not begin with a NUL. |
| ClientsThread.Worker.Receive | myserver/src/server/clients_thread.cpp:258-292 | In the thread's buffer the request is the kept bytes followed by the received ones. Nothing is handed over exactly when a call that receives gets nothing, or when a call that does not receive finds 8192 bytes or more kept. |
| ClientsThread.Worker.ControlConnections | myserver/src/server/clients_thread.cpp:242-360 | One call refines the model of a run. The connection is deleted exactly when nothing was received, too much was kept or the protocol says so; otherwise the answer alone says what is kept, byte for byte, and whether the next call receives. |
| ClientsThread.Worker.CopyIn | myserver/src/server/clients_thread.cpp:290-292 | The kept bytes go to the front without touching those received behind them. |
| Urls.RoundTripIff | myserver/src/protocol/url.cpp:108-156 | For all components that section 3 of RFC 3986 separates, with a port at most 65535: parsing the printed URL gives all of them back exactly when no colon is in the credentials or the host, none in the path or query without a port, and no at sign in the path or query without credentials. |
| Urls.BareParses | myserver/src/protocol/url.cpp:108-156 | Without a path, credentials, host and port are read back, up to the end of the text; the resource is then the whole text, because it is looked for from the start. |
| Urls.EmptyPortParses | myserver/src/protocol/url.cpp:119-137 | With a colon and no digits before the slash, the port is 0 and not the default; host and path are read back. |
| Urls.BarePortWraps | myserver/src/protocol/url.cpp:134-137 | A port is read modulo 65536. |
| Urls.SplitAtMark | myserver/src/protocol/url.cpp:144-155 | Without a slash the first question mark of the whole text ends the resource. |
| Urls.NothingWithoutScheme | myserver/src/protocol/url.cpp:108-114 | A text without "://" sets nothing. |
| Urls.ColonMisleads | myserver/src/protocol/url.cpp:119-137 | A colon in the credentials is taken for that of the port, and the host comes out longer than it was. |
| Urls.AtSignMisleads | myserver/src/protocol/url.cpp:123-130 | Without credentials, an at sign in the path or the query makes up credentials. |
| Urls.ColonOutsideMisleads | myserver/src/protocol/url.cpp:119-137 | A colon in the host, or in the path or query without a port, gives the host another length. |
| Urls.ColonInPathMisread | myserver/src/protocol/url.cpp:119-137 | Of p://h/a:b the host is read as h/a. |
| Urls.ColonInAddressMisread | myserver/src/protocol/url.cpp:119-137 | Of p://[::1]/ the host is read as an opening bracket. |
| Urls.ColonBeforeSecretMisread | myserver/src/protocol/url.cpp:119-137 | Of p://u:w@h/ the host is read as h/. |
| Urls.AtSignInQueryMisread | myserver/src/protocol/url.cpp:123-130 | Of p://h/?m=a@b the credentials are read as h/?m=a. |
| Urls.PortFound | myserver/src/protocol/url.cpp:119 | When no other colon can be taken for it, the colon found is that of the port, if one is printed. |
| Urls.SlashFound | myserver/src/protocol/url.cpp:120-121 | The slash found ends the authority. |
| Urls.LoginFound | myserver/src/protocol/url.cpp:123-130 | The at sign found ends the credentials. |
| Urls.FieldsCounted | myserver/src/protocol/url.cpp:62-71 | The number of fields is the number of texts joined by `&`, and 0 for an empty query. |
| Urls.Url.ParseUrl | myserver/src/protocol/url.cpp:108-156 | The six fields set step by step are those of the function the round trip is proved about. |
| Urls.Url.ParseAuthority | myserver/src/protocol/url.cpp:123-142 | Credentials, host and port, each from the places of the separators. |
| Urls.Url.ParsePath | myserver/src/protocol/url.cpp:144-155 | Resource and query, also when no slash was found. |
| Urls.Url.GetNumFields | myserver/src/protocol/url.cpp:62-71 | The counting loop computes the function `FieldsCounted` is about. |

## Left out

Parser:

- The lexer, the location stack, the text of error messages, debug output and failure of memory allocation; the rules of the lexer are not part of this model.
- RulesParser.Fits: the union of semantic values is read only through the member stored last, and what a token without a value leaves there is not read.

Scheduling:

- `release`, `terminateConnections` and `Server::reboot`, which drop the bookkeeping on purpose, and the catch blocks of the worker loop and of the scheduler.
- SchedulerProtocol.Do: the scheduler handler a protocol installs on a connection is only the step that gives the connection to it and leaves it live; `SchedulerHandlers` has the one that frees it. Listeners appear as accepting and as their timeouts.
- SchedulerProtocol.Can: the step in which a timeout spares its connection is always possible here; in the code it needs a protocol buffer that refuses deletion (myserver/src/connection/connection.cpp:123-131), and no class of the repository overrides `ProtocolBuffer::allowDelete`, so that no run of the repository's own protocols takes it.
- SchedulerProtocol.Step: a thread that is marked for destruction may be restored instead of a new one created; the model lets the check create no thread in that case. Purging of threads is the step in which a worker leaves its loop.
- The numbers themselves and the pool the memory of connections comes from; the mark and the number are one write in `SchedulerRegistration`.

Plugins:

- `preLoad`, `quickLoad` and `loadInfo`, which read descriptors and directories; the last loop of `load`, which starts the plugins that are left; log messages.
- PluginsManagement.PluginsManager.Load: requires that no cycle lies above a seed, because the recursion does not end otherwise (`TerminatesIff`).

Sudoku:

- SudokuProgram.Run: requires boxes that tile the table and hold as many cells as it is wide, which the configuration reader is expected to deliver; the reader is not part of this model.

Control program:

- `populateExt`, `populateMime` and the files: user interface and XML library. A document is a list of groups below its root.
- MimeTypes.MIMEtypeXML.LoadCore: requires that every child it follows has content and that an extension comes before its settings; the original follows null pointers otherwise (`SavedReads` says exactly when a saved document meets this).
- MimeTypes.MIMEtypeXML.SaveCore: requires some type when an extension has none; the original follows a null pointer otherwise.
- MimeTypes.MimeNode: the record an extension points to is a value held by its item, since every item owns its own; freeing it is not modelled.
- Vectors.Vector.Remove: the memory of the item dropped for an index outside the vector is not freed by the original, which the model does not show.
- `Vector::add (Vector &)`, a loop over `Add`.

Filters:

- `read`, `flush`, `getName`, lookup by name and the counts of header bytes, which are unset on some paths.
- FilterChains.FiltersChain.AddFilter: requires that a header that is not empty is not sent through a chain that already holds the filter, where the write never ends (`WriteNeverEnds`), nor to a missing stream.

Logs and sockets:

- The streams themselves (contents, cycle, level, closing), `notify` and `chown` on them, and the warning that a log is shared; `add` and `remove` are taken to return before their catch blocks.
- LogManagement.LogManager.Add: a stream the factory makes for a tuple that is then refused is lost by the original; the model does not count it.
- Creation and binding of sockets are an input: which sockets a port gets, or none. Draining a socket before it is closed is left out.

Requests, URLs and versions:

- ClientsThread.Worker.ControlConnections: what the protocol does with the request is its answer and, before an answer not to wait, what it leaves in the connection's buffer; it is taken to leave the bytes it was handed as they are. Timeouts, continuations and protocol lookup end in that answer too.
- ClientsThread.Pipelined: the length of the header is an input of at most the length of the request; the scan for its end and the requests with a body are not part of this model.
- Urls.Url.ParseUrl: without "://" the original leaves the port unset, which is 0 here; numbers too long for atoi are read as they stand.
- PluginVersion.ConvertVersion: the regular expression is written out as a predicate; caching it is left out.

Not modelled at all: virtual hosts, the HTTP and FTP protocols, security and authentication, the package manager, the
interpreters of other languages and the graphical program, which have easier members or depend on code outside the
repository.
