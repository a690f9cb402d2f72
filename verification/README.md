# Verified model of the conference bot

The bot registers participants of a contest in Telegram. A chat fills in a form one message at a time
(name, company, position, affiliate phrase); a Back button under the form takes the last answer away
again. The form lives in one table row, and every handler of an update is a coroutine that reads and
writes that row at separate `co_await` points, while other handlers, also of the same chat, run in
between. Telegram calls run on a worker pool of the bot's own. The table can be exported as CSV.

The project is a Dafny model of that behaviour. `dafny verify dfyconfig.toml` checks all of it.

| file | subject |
|---|---|
| `Common.dfy` | options, decimal numbers |
| `FormStates.dfy`, `Records.dfy` | the form's states; rows, stale copies of rows with their dirty columns, texts |
| `Conversation.dfy` | every handler as a small program whose program points are its `co_await`s; any number of them interleave, end in a Telegram fault, or are lost |
| `FormSafety.dfy`, `BackRace.dfy` | no state past a missing answer: an invariant over handlers with stale rows, and exactly when a Back click breaks it |
| `Isolation.dfy` | chats do not influence one another; stale copies write nothing back |
| `FormReader.dfy` | what can be read off the form's text |
| `Serial.dfy` | one update served without interruption, proved to be a run of the interleaved system |
| `RegistrationModel.dfy` | the row object: dirty flags, the text of the insert and a reader for it, argument binding |
| `RegistrationWorkflow.dfy` | the repository and the workflow as objects that update table and screen in place, proved to compute `Serial` |
| `FormStack.dfy`, `FormScreen.dfy`, `FormReplies.dfy` | a chat's row is a bounded stack of answers; its screen shows that row; every accepted update is answered by the question the row waits for |
| `InTurn.dfy` | all three also while other chats' handlers run in between |
| `Faults.dfy` | what a Telegram failure or a lost handler leaves behind |
| `WorkerPool.dfy`, `AwaitProtocol.dfy` | queue, condition variable and shutdown; coroutines awaiting calls on the pool |
| `RegistrationJson.dfy` | the JSON forms of a row object and their validators |
| `CsvExport.dfy`, `Multipart.dfy`, `ClientLease.dfy` | the encoders with the readers that undo them; the round-robin lease |

## How the parts fit

`Conversation.Proceed` is the one definition of what a handler does between two `co_await`s. The class
methods of `RegistrationWorkflow` are proved equal to the functions of `Serial`, and
`Serial.ServingIsARun` shows that each of those functions is an uninterrupted run of the interleaved
system. So the results over interleavings and the results over histories speak of the same handlers;
`InTurn.InterleavedHistory` carries the latter over to runs in which the chats interleave freely and only
each chat's own updates are served one after another.

The SQL layer below is used, not assumed: `RegistrationRepository.Save` goes through the text that
`SqlForInserting` builds, reads it back with an independent reader, and assigns the bound arguments
by column name; `Update` assigns by column name too.

## Where the code does less than one would expect

- A form can lose an answer. A Back click that clears an answer while another handler of the chat still
  counts on it lets that handler store a state past the missing answer
  (`BackRace.BackRaceLosesName` gives a run of ten steps). `FormSafety.HonestStep` gives the exact
  condition under which a step keeps the invariant, and `BackRace.BackSafetyIsExact` shows that a Back is
  safe if and only if no other handler in flight, going on alone, can store such a row. In a chat with
  several rows only handlers that write by id without another lookup count
  (`BackRace.UnsafeBackWitness`).
- Pressing "want participate" twice makes a second row, after which no message, Back or resume of that
  chat has any effect (`FormStack.FrozenForever`).
- A post that comes after the last worker has left is never run; `WorkerPool.ShutdownDrains` shows that
  this is the only way a task is lost. A handler that waits for the database while the pool shuts down
  can post its next call too late and then never ends (`AwaitProtocol.LateReturnStrands`);
  `AwaitProtocol.NoneStrandedExactly` says exactly when no handler is left waiting for a call.
- The lease counter is shared by all hosts. When hosts take turns, each host's clients share its leases
  evenly if and only if the number of hosts is odd; with an even number half of them are never used
  (`ClientLease.SharesEvenlyIffOdd`).
- An insert of a row object with no column set is not a statement SQLite reads; `InsertTextParses` says
  so. No handler sends one.
- The multipart body escapes nothing: it is read back exactly when no value contains the delimiter or
  begins with the dash-boundary, no name or file name has a quote, and none of them and no type has a
  carriage return.
- The form shows "[Waiting]" for an answer that is missing, and for an answer that reads so.
- Reading a row object back from aliased JSON loses a column when an alias is used twice.

## Assumptions about the libraries

- `findOne` gives a row exactly when one row matches; `update` sets the bound columns of the row with the
  object's id, if there is one; `insert` refuses a null and a missing chat or state, gives other unset
  columns their defaults, and reads the row back when asked to.
- Telegram gives new messages ids that are positive and not in use in that chat. Editing a message that
  does not exist fails. Editing with a null keyboard removes the keyboard, unless Telegram refuses it.
- A condition variable may wake a waiter spuriously; `notify_one` wakes one waiter if there is one.
- `asInt64` takes null, booleans, 64-bit integers and other numbers of that range, which it truncates;
  `asString` takes everything but arrays and objects. `isInt64` also holds of a number in range without a
  fraction. How a number that is not a 64-bit integer prints is given with the number.

## Model

| member | source | states |
|---|---|---|
| FormStates.StateCodec | src/Services/RegistrationState.cpp:5-19 | decoding a raw state accepts exactly the five encodings and inverts them; Back leads to the state it came from exactly where the form offers Back |
| FormReader.FormShowsAnswers | src/Workflows/RegistrationWorkflow.cpp:16-34 | a reader of the form's lines finds what is shown for each answer under its own label, if and only if no answer has a line break |
| FormReader.FormTellsAnswers | src/Workflows/RegistrationWorkflow.cpp:16-34 | the text tells the answers themselves if and only if none has a line break and none is the placeholder of an awaited one |
| Conversation.Find | src/Services/RegistrationRepository.cpp:10-31 | a hit only when exactly one row of the chat exists, and then that row |
| Conversation.TargetsAgree | src/Workflows/RegistrationWorkflow.cpp:358-384 | the targets written out in the handlers are the state order's own `next`, ten raw values on, and undo `prev` |
| Conversation.RowsPersist | src/Workflows/RegistrationWorkflow.cpp:332-356 | no step removes a row or changes the chat a row belongs to |
| Conversation.SoundStep | src/Workflows/RegistrationWorkflow.cpp:139-471 | every step of every interleaving keeps: rows sit under their id, a handler's copy has set exactly the columns its code sets, and the row it is about to write exists in its own chat |
| Conversation.SoundRun | src/Workflows/RegistrationWorkflow.cpp:139-471 | the same over whole runs |
| FormSafety.WrittenRow | src/Workflows/RegistrationWorkflow.cpp:231-246 | every update a handler makes leaves a row whose answers before its state are given, provided the row still has what the handler counts on |
| FormSafety.OwnStep | src/Workflows/RegistrationWorkflow.cpp:36-52 | a step keeps the table honest and establishes what the handler counts on at its next program point |
| FormSafety.OtherClaim | src/Workflows/RegistrationWorkflow.cpp:231-246 | a step breaks what another handler counts on if and only if it is a Back on that row below the other's claim, and the claim does not rest on a lookup that will miss |
| FormSafety.HonestStep | src/Workflows/RegistrationWorkflow.cpp:184-248 | a step keeps the safety invariant if and only if it is not a Back that clears an answer some other handler in flight counts on |
| FormSafety.HonestRun | src/Workflows/RegistrationWorkflow.cpp:139-471 | over whole runs, every row has a legal state and all answers before it, as long as each Back is safe when it writes |
| FormSafety.NoBackRun | src/Workflows/RegistrationWorkflow.cpp:184-196 | without Back clicks no handler ever reaches the Back's program points, so the condition holds |
| FormSafety.AnswersNeverMissing | src/Workflows/RegistrationWorkflow.cpp:386-457 | in every interleaving of any number of handlers without Back clicks, with faults and handlers lost anywhere, no row's state is past a missing answer and a Completed row has all four |
| FormSafety.SerializedRun | src/Workflows/RegistrationWorkflow.cpp:184-248 | one handler per chat at a time makes every Back safe |
| FormSafety.SerializedPrefixFilled | src/Workflows/RegistrationWorkflow.cpp:184-248 | with the handlers of a chat one at a time, each free to die at any `co_await`, the same holds with Back clicks |
| FormSafety.StatesAlwaysLegal | src/Workflows/RegistrationWorkflow.cpp:436-457 | in every interleaving whatsoever, Back clicks included, states stay legal and a Completed row has its phrase |
| Faults.FaultIsLast | src/Workflows/RegistrationWorkflow.cpp:58-71 | in every interleaving, a failed Telegram call changes neither table nor screen and is its handler's last step, except at the removal of an old keyboard |
| Faults.FaultedGreetingInsertsNothing | src/Workflows/RegistrationWorkflow.cpp:94-136 | a greeting that fails at any of its four calls registers nobody and ends |
| Faults.FaultedCallbackClearsNothing | src/Workflows/RegistrationWorkflow.cpp:219-246 | a Back whose callback cannot be answered changes nothing |
| Faults.FaultedClearStillResumes | src/Workflows/RegistrationWorkflow.cpp:286-325 | a resume whose old form message cannot be edited still stores and shows the new one and asks on; only the old message's Back button is left |
| Faults.LostAfterAnswer | src/Workflows/RegistrationWorkflow.cpp:397-448 | a handler lost right after its first write has stored the text as the answer its state waits for, and the final state together with the phrase, and nothing else |
| Faults.LostAfterBack | src/Workflows/RegistrationWorkflow.cpp:231-246 | a Back lost right after its write has stored the earlier state together with the cleared answer, and nothing else |
| Faults.ThanksComeLast | src/Workflows/RegistrationWorkflow.cpp:446-471 | in every interleaving, a handler that has taken the phrase and ends without a failure thanks the chat as its last step, whether or not it still finds the row |
| BackRace.RaceRuns | src/Workflows/RegistrationWorkflow.cpp:402-416 | the race, step by step: store and waiting handlers after each of its ten steps |
| BackRace.BackRaceLosesName | src/Workflows/RegistrationWorkflow.cpp:228-247 | a legal run of one message and one Back that ends with the position asked for and the name missing |
| BackRace.BrokenClaimReachesRow | src/Workflows/RegistrationWorkflow.cpp:36-52 | a handler that counts on a missing answer, by a lookup that hits or by the row's id, goes on alone to store a state past it |
| BackRace.UnsafeBackBreaksPrefix | src/Workflows/RegistrationWorkflow.cpp:228-247 | every Back outside the safety condition can be followed by steps of one handler already in flight that store a state past a missing answer |
| BackRace.AloneKeepsTable | src/Workflows/RegistrationWorkflow.cpp:139-471 | a handler whose claim holds never stores such a state as long as it runs alone |
| BackRace.BackSafetyIsExact | src/Workflows/RegistrationWorkflow.cpp:228-247 | a Back is safe if and only if no other handler in flight, going on alone with any replies, can store a state past a missing answer |
| BackRace.UnsafeBackWitness | src/Workflows/RegistrationWorkflow.cpp:231-246 | a Back is unsafe if and only if another handler of the row claims a state above its target and either the chat has one row or that handler writes by id without another lookup |
| Isolation.OwnChat | src/Services/RegistrationRepository.cpp:10-31 | a handler's step does the same to its chat's rows and screen whether or not the other chats exist |
| Isolation.OtherChat | src/Services/RegistrationRepository.cpp:50-63 | a step of another chat's handler leaves this chat's rows and screen alone |
| Isolation.ChatsAreIsolated | src/Workflows/RegistrationWorkflow.cpp:332-356 | for every interleaving of all chats, one chat's rows, screen and handlers are those of running its own steps alone |
| Isolation.ColumnStep | models/Registrations.cc:757-793 | one step gives a column the value its handler explicitly set, or leaves it alone |
| Isolation.ColumnsHoldLastGiven | models/Registrations.cc:795-885 | after any interleaving each column of each row holds its inserted value or what the last update that explicitly set it gave it; values merely read into a stale copy are never written back |
| Serial.SaidIsARun | src/Workflows/RegistrationWorkflow.cpp:139-182 | serving a message is an uninterrupted run of its handler |
| Serial.BackIsARun | src/Workflows/RegistrationWorkflow.cpp:184-248 | serving a Back click is an uninterrupted run of its handler |
| Serial.ResumeIsARun | src/Workflows/RegistrationWorkflow.cpp:250-330 | serving a resume is an uninterrupted run of its handler |
| Serial.WantIsARun | src/Workflows/RegistrationWorkflow.cpp:76-137 | serving "want participate" is an uninterrupted run of its handler |
| Serial.ServingIsARun | src/Workflows/RegistrationWorkflow.cpp:139-356 | serving any update is a legal run of the interleaved system that touches no other handler |
| Serial.TurnServes | src/Workflows/RegistrationWorkflow.cpp:139-356 | conversely every run of one handler from start to end, with the event's replies, serves its update and nothing else |
| RegistrationModel.Registrations.FromRow | models/Registrations.cc:45-142 | an object built from a query result shows the row and has nothing set |
| RegistrationModel.Registrations.SetState | models/Registrations.cc:512-516 | sets the value and the flag of this column and of no other |
| RegistrationModel.Registrations.SetChatId | models/Registrations.cc:495-499 | the same for the chat |
| RegistrationModel.Registrations.SetMessageId | models/Registrations.cc:529-533 | the same for the message |
| RegistrationModel.Registrations.SetTelegramNickname | models/Registrations.cc:634-643 | the same for the nickname |
| RegistrationModel.Registrations.SetAnswer | models/Registrations.cc:546-621 | the same for the four answers |
| RegistrationModel.Registrations.UpdateColumns | models/Registrations.cc:757-793 | names exactly the set columns other than the id, in column order |
| RegistrationModel.Registrations.BoundArgs | models/Registrations.cc:795-885 | binds exactly the values of those columns in the same order |
| RegistrationModel.Registrations.SqlForInserting | models/Registrations.h:241-365 | the statement of exactly the set columns; the row must be read back if and only if a defaulted column is not set |
| RegistrationModel.InsertTextParses | models/Registrations.h:241-365 | an independent reader takes the statement apart into the listed columns and equally many placeholders; with no column set it is not a statement |
| RegistrationModel.UpdateBindsOverlay | models/Registrations.cc:757-885 | assigning the bound arguments to the listed columns by name gives the set columns the object's values and leaves every other column of the stored row as it was |
| RegistrationWorkflow.Prepare | models/Registrations.h:241-365 | the built text reads back as the insert of the set columns, with one placeholder a column |
| RegistrationWorkflow.InsertRefused | resources/db/init.sql:1-19 | the table refuses exactly the inserts that lack chat or state or set a column to null |
| RegistrationWorkflow.EverythingSet | models/Registrations.h:241-365 | when no read-back is asked for, the object passed in already shows the inserted row |
| RegistrationWorkflow.RegistrationRepository.FindByChatId | src/Services/RegistrationRepository.cpp:10-31 | null unless exactly one row matches, otherwise a clean object of that row |
| RegistrationWorkflow.RegistrationRepository.Execute | resources/db/init.sql:1-19 | an insert takes the bound arguments by column name and defaults elsewhere, unless it lacks chat or state or binds a null |
| RegistrationWorkflow.RegistrationRepository.InsertRow | src/Services/RegistrationRepository.cpp:33-48 | inserts the row with the set columns and defaults elsewhere, or refuses and changes nothing |
| RegistrationWorkflow.RegistrationRepository.Save | src/Services/RegistrationRepository.cpp:33-48 | the object returned shows the inserted row, and is clean when a defaulted column had been left out |
| RegistrationWorkflow.RegistrationRepository.Update | src/Services/RegistrationRepository.cpp:50-63 | changes the set columns of the row with the object's id, and nothing when the row is gone or a set column is null |
| RegistrationWorkflow.RegistrationWorkflow.ShowFormPrompt | src/Workflows/RegistrationWorkflow.cpp:36-72 | table and screen end as `ShownForm` says, over the object's state writes and edits |
| RegistrationWorkflow.RegistrationWorkflow.ProcessMessage | src/Workflows/RegistrationWorkflow.cpp:139-182 | table and screen end as `AfterSaid` says, for every table and text |
| RegistrationWorkflow.RegistrationWorkflow.SaveAnswer | src/Workflows/RegistrationWorkflow.cpp:386-434 | re-reads the row, stores the answer only in the expected state, then shows the form |
| RegistrationWorkflow.RegistrationWorkflow.SavePhrase | src/Workflows/RegistrationWorkflow.cpp:436-471 | stores phrase and final state together, then thanks the chat unless the form could not be shown |
| RegistrationWorkflow.RegistrationWorkflow.ReplyBackQuery | src/Workflows/RegistrationWorkflow.cpp:184-248 | table and screen end as `AfterBack` says, for every click |
| RegistrationWorkflow.RegistrationWorkflow.ResumeRegistration | src/Workflows/RegistrationWorkflow.cpp:250-330 | table and screen end as `AfterResume` says |
| RegistrationWorkflow.RegistrationWorkflow.RequestFullName | src/Workflows/RegistrationWorkflow.cpp:332-356 | table and screen end as `AfterWant` says, through insert, read-back and update |
| FormStack.AnswerPushes | src/Workflows/RegistrationWorkflow.cpp:386-457 | an accepted message stores the pushed stack in the chat's row and changes no other row |
| FormStack.BackPops | src/Workflows/RegistrationWorkflow.cpp:228-247 | an accepted Back stores the popped stack, the cleared answer empty, and changes no other row |
| FormStack.ResumeReshows | src/Workflows/RegistrationWorkflow.cpp:286-319 | a resume stores the form's new message and nothing else, whether or not the old message could be edited |
| FormStack.WantAdds | src/Workflows/RegistrationWorkflow.cpp:337-353 | "want participate" adds the row of the chat with its user name, the prompt's message and nothing answered |
| FormStack.IgnoredLeavesTable | src/Workflows/RegistrationWorkflow.cpp:200-226 | a stale click, a Back at either end, a message after completion and anything in a chat with no or several rows leave the table alone, and are passed over in silence |
| FormStack.FormFollows | src/Workflows/RegistrationWorkflow.cpp:139-356 | one update moves its own chat's stack as the abstract machine says and no other chat's |
| FormStack.HistoryIsAStack | src/Workflows/RegistrationWorkflow.cpp:139-356 | after every history of all chats, each chat's rows are exactly its stack: given answers as prefix, later fields empty, state ten a level, and the user name given at the first press |
| FormStack.FrozenForever | src/Services/RegistrationRepository.cpp:23-25 | once a chat has two rows, whatever is served later changes none of its rows, and adds one only if the chat presses "want participate" again |
| FormStack.FrozenFromSecondWant | src/Workflows/RegistrationWorkflow.cpp:332-356 | a chat gets into that state exactly at its second press of "want participate" |
| FormStack.BalanceIsDepth | src/Workflows/RegistrationWorkflow.cpp:139-248 | accepted answers minus accepted Backs is the depth of the stack |
| FormStack.StateCountsAnswers | include/ConferenceBot/Services/RegistrationState.hpp:7-20 | the stored state is ten times the accepted answers minus the accepted Backs, and no answer before it is missing |
| FormStack.NicknameStays | src/Workflows/RegistrationWorkflow.cpp:338-340 | a chat's only row has the user name of its only press of "want participate", after any history |
| FormStack.BackUndoesAnswer | src/Workflows/RegistrationWorkflow.cpp:228-247 | before the phrase, answering and then clicking Back on the form restores the whole table |
| FormStack.AnswerUndoesBack | src/Workflows/RegistrationWorkflow.cpp:386-434 | Back and then sending the cleared text again restores the whole table |
| FormScreen.ScreenAgreesWithTable | src/Workflows/RegistrationWorkflow.cpp:36-72 | after every history, a chat with one form shows it on the row's message, with a Back button exactly when the state allows it; the only others are on former form messages whose keyboard could not be removed |
| FormScreen.BackButtonFollowsRow | src/Workflows/RegistrationWorkflow.cpp:250-330 | read off the row: a message has a Back button if and only if it is the row's message and `canGoBack` holds, or it is such a former message; once shown, the row's message is the form text of the stored row |
| FormScreen.NoneStale | src/Workflows/RegistrationWorkflow.cpp:286-302 | as long as every keyboard can be removed there is no such former message |
| FormReplies.PromptAsks | include/ConferenceBot/Services/RegistrationState.hpp:22-40 | a reader of the prompts' words recovers the state from each |
| FormReplies.UpdateReplies | src/Workflows/RegistrationWorkflow.cpp:58-71 | one update: an accepted answer, Back or resume is answered by a message that asks for the next answer, the last one also by the thanks; a resume of a complete form gets the thanks; of all else nothing is said |
| FormReplies.HistoryReplies | src/Workflows/RegistrationWorkflow.cpp:139-356 | the same of the last update of every history of all chats |
| FormReplies.PromptAsksForRow | src/Workflows/RegistrationWorkflow.cpp:69-71 | the message that follows an accepted update asks for just what the stored row's state waits for, and has no Back button |
| InTurn.TurnsServe | src/Workflows/RegistrationWorkflow.cpp:139-356 | a run made of one turn after another does what the history of its updates does |
| InTurn.InterleavedHistory | src/Workflows/RegistrationWorkflow.cpp:139-356 | in every interleaving in which a chat's own updates are served in turn, its rows are the stack of its updates and its screen shows them, whatever the other chats' handlers do in between |
| InTurn.InterleavedReply | src/Workflows/RegistrationWorkflow.cpp:139-356 | and the last of them has been answered as it would have been with nobody else around |
| WorkerPool.ConservedStep | src/Net/BotApiExecutor.cpp:64-93 | every step keeps: tasks posted are those taken, in order, followed by the queue; each task taken is running on a worker or finished, as often as it was posted |
| WorkerPool.NoShortageStep | src/Net/BotApiExecutor.cpp:72-83 | every step, spurious wake-ups included, keeps: while a worker sleeps the queue is at most the notifications to come plus the awake idle workers; after `notify_all` nobody sleeps |
| WorkerPool.PoolInvariant | src/Net/BotApiExecutor.cpp:42-93 | both over whole runs, with the number of workers unchanged |
| WorkerPool.WorkersStay | src/Net/BotApiExecutor.cpp:84-92 | no worker leaves a pool that was not stopped, whatever its tasks throw |
| WorkerPool.QueuedTaskIsSeen | src/Net/BotApiExecutor.cpp:64-83 | with a task queued, no notification to come and no awake idle worker, every worker is running a task or has left a stopped pool |
| WorkerPool.WokenTakesOldest | src/Net/BotApiExecutor.cpp:75-83 | a sleeper woken in any way, spuriously too, looks at the queue and takes its oldest task if there is one |
| WorkerPool.StopIsLasting | src/Net/BotApiExecutor.cpp:51-56 | over whole runs, the pool is stopped exactly from the stop on and woken up exactly from the broadcast on |
| WorkerPool.DrainsExactly | src/Net/BotApiExecutor.cpp:51-83 | when all workers have left, the queue is empty if and only if every post found a worker still there |
| WorkerPool.ShutdownDrains | src/Net/BotApiExecutor.cpp:51-93 | when all workers have left, every task ever posted has run exactly once if and only if every post found a worker still there |
| WorkerPool.InsidePostsFindWorkers | src/Net/BotApiExecutor.cpp:51-70 | with at least one worker, posts from tasks running on the pool after the stop all find one |
| WorkerPool.MeasureStep | src/Net/BotApiExecutor.cpp:72-93 | after `notify_all` every step but a post lowers the measure on queue, notifications and workers by exactly one |
| WorkerPool.ShutdownIsBounded | src/Net/BotApiExecutor.cpp:51-62 | so a run after `notify_all` has at most the measure plus four steps a post |
| WorkerPool.ShutdownProgresses | src/Net/BotApiExecutor.cpp:57-61 | and until all workers have left one of them can take a step |
| WorkerPool.ResolveThreadCount | src/Net/BotApiExecutor.cpp:24-38 | always between 1 and 256 |
| WorkerPool.ThreadCountHonoured | src/Net/BotApiExecutor.cpp:24-38 | any written count from 1 up is used, capped at 256, whatever follows the digits; 0 and a count that overflows mean 32 |
| WorkerPool.ThreadCountDefaults | src/Net/BotApiExecutor.cpp:25-36 | so does a text without a leading digit, and no text at all |
| WorkerPool.WorkerPool.Push | src/Net/BotApiExecutor.cpp:64-70 | the locked half of `post` is the step `Push` |
| WorkerPool.WorkerPool.NotifyOne | src/Net/BotApiExecutor.cpp:64-70 | the other half is a step that wakes a sleeper if there is one |
| WorkerPool.WorkerPool.Check | src/Net/BotApiExecutor.cpp:75-83 | waits, leaves, or takes the oldest task |
| WorkerPool.WorkerPool.FinishTask | src/Net/BotApiExecutor.cpp:84-91 | returns the worker to its loop, also after an exception |
| WorkerPool.WorkerPool.Stop | src/Net/BotApiExecutor.cpp:51-55 | the first half of the destructor is the step `Stop` |
| WorkerPool.WorkerPool.NotifyAll | src/Net/BotApiExecutor.cpp:56-56 | wakes every sleeper |
| AwaitProtocol.ResumesTheAwaiter | include/ConferenceBot/Net/BotApiExecutor.hpp:68-77 | a worker about to run a call, which checks nothing, resumes a coroutine suspended on that very call: from the pool's accounting, no other phase or call is possible |
| AwaitProtocol.ConsistentStep | include/ConferenceBot/Net/BotApiExecutor.hpp:59-111 | every act of workers and coroutines keeps: exactly the calls awaited so far are posted, each once; a call is executed exactly when it has finished or its worker is past it; outcomes arrive in order |
| AwaitProtocol.CallsInProgramOrder | include/ConferenceBot/Net/BotApiExecutor.hpp:68-84 | for any number of workers and any interleaving, a coroutine's calls are executed in program order, each once, also when it awaits the database in between |
| AwaitProtocol.AwaitsDeliver | include/ConferenceBot/Net/BotApiExecutor.hpp:68-84 | in every run, what a coroutine's awaits have given it is exactly how its calls came out on the workers, value or exception, call by call |
| AwaitProtocol.EndIsFinal | include/ConferenceBot/Net/BotApiExecutor.hpp:75-76 | a coroutine that reaches its end, on a worker or after the database, is never resumed again |
| AwaitProtocol.ResumedOnlyWhenWaiting | include/ConferenceBot/Net/BotApiExecutor.hpp:68-77 | in every reachable state the coroutine a worker is about to resume is suspended and awaits exactly that call |
| AwaitProtocol.SuspendedOnce | include/ConferenceBot/Net/BotApiExecutor.hpp:68-77 | a suspended coroutine has exactly one call outstanding, queued or on one worker that has not run it, and none posted beyond it |
| AwaitProtocol.NoneStrandedExactly | src/Net/BotApiExecutor.cpp:51-70 | when all workers have left, no coroutine waits for a call if and only if every post of the run, from the pool or from a database thread, found a worker still there |
| AwaitProtocol.StrandedForever | src/Net/BotApiExecutor.cpp:51-62 | a coroutine that waits for a call when all workers have left never gets any further |
| AwaitProtocol.LateReturnStrands | src/Workflows/RegistrationWorkflow.cpp:44-58 | a run of five steps in which a coroutine launched before the stop comes back from the database after the last worker has left, and is stranded |
| AwaitProtocol.NoCoroutineAbandoned | src/Net/BotApiExecutor.cpp:51-62 | if after the stop only coroutines on a worker post, all coroutines have ended when all workers have left, save those still waiting for the database |
| AwaitProtocol.PoolAwaiter.Complete | include/ConferenceBot/Net/BotApiExecutor.hpp:68-77 | the posted lambda stores the value or the exception, never both |
| AwaitProtocol.PoolAwaiter.AwaitResume | include/ConferenceBot/Net/BotApiExecutor.hpp:79-84 | the coroutine receives the call's value or its exception |
| AwaitProtocol.Await | include/ConferenceBot/Net/BotApiExecutor.hpp:59-111 | one call through the awaiter object gives the coroutine what the run delivers to it |
| RegistrationJson.ToMasqueradedJson | models/Registrations.cc:969-1150 | one member per aliased column, null for a null column; the column names when the vector has the wrong size |
| RegistrationJson.ToJson | models/Registrations.cc:886-962 | the plain form, with its nine names written out, equals the aliased form under the column names |
| RegistrationJson.FromMasqueradedJson | models/Registrations.cc:144-223 | sets exactly the columns whose alias is a member, null members as nulls, unless a conversion throws |
| RegistrationJson.FromJson | models/Registrations.cc:225-299 | the plain constructor, with its nine names written out, equals the aliased one under the column names |
| RegistrationJson.UpdateByMasqueradedJson | models/Registrations.cc:301-380 | sets the columns whose alias is a member and keeps the values of null members; never marks the id as set |
| RegistrationJson.DistinctRestores | models/Registrations.cc:969-1075 | with no alias used twice, reading back restores every aliased column, nulls included, and leaves the rest unset |
| RegistrationJson.SharedAliasLoses | models/Registrations.cc:969-1075 | with an alias used twice there is a row object that reading back does not restore |
| RegistrationJson.RoundTripIffDistinct | models/Registrations.cc:144-223 | all row objects survive the aliased round trip if and only if no alias is used twice |
| RegistrationJson.ValidateJsonForCreation | models/Registrations.cc:1152-1210 | on every JSON object the plain validator, with its names and texts written out, gives the aliased one's verdict under the column names, error text included |
| RegistrationJson.ValidateJsonForUpdate | models/Registrations.cc:1311-1364 | the same of the validator for update |
| RegistrationJson.CreationAccepts | models/Registrations.cc:1211-1310 | exactly which objects creation accepts: no id, chat and state where they have aliases, and every listed member of its column's kind |
| RegistrationJson.UpdateAccepts | models/Registrations.cc:1365-1432 | exactly which objects an update accepts: an id, null or a number, and every other listed member of its column's kind |
| RegistrationJson.ValidatedIsInsertable | models/Registrations.cc:1211-1310 | what the creation validator accepts is built without an exception, and the table accepts it if and only if chat and state have aliases |
| RegistrationJson.UpdateStores | models/Registrations.cc:301-380 | saving an updated copy writes listed values, keeps unlisted columns, and writes the copy's own value back for a null member |
| RegistrationJson.ValidatedUpdateStoresWhatItLists | models/Registrations.cc:1365-1432 | what the update validator accepts has a member for the id, possibly null, and stores exactly the listed values, however stale the copy |
| RegistrationJson.UpdateOfEmptyConstructs | models/Registrations.cc:382-455 | updating an empty object is constructing one, but for the id's flag |
| CsvExport.KeptIsLossless | src/Controllers/ExportController.cpp:6-13 | a field survives escaping if and only if it has no line feed, carriage return, tab or double quote |
| CsvExport.KeptPerCharacter | src/Controllers/ExportController.cpp:7-10 | a field is kept character by character: line feed, carriage return and tab go, a double quote becomes a single one, all else stays |
| CsvExport.EscapeCsv | src/Controllers/ExportController.cpp:6-13 | erasing and replacing in place gives the quoted field as `Kept` describes it |
| CsvExport.GenerateCsv | src/Controllers/ExportController.cpp:64-91 | the text is the header line and one line a row, in order, or the header alone when the query fails; read back, each row's name, company, position, phrase and nickname stand under the headings that name them |
| CsvExport.CsvRoundTrip | src/Controllers/ExportController.cpp:64-91 | a reader after section 2 of RFC 4180, with the line feed as record end, gives back the header and each row's five fields as the export keeps them |
| CsvExport.ColumnsUnderHeadings | src/Controllers/ExportController.cpp:67-83 | every exported column stands under the heading that names it, whatever the fields contain |
| CsvExport.CsvLossless | src/Controllers/ExportController.cpp:6-13 | the reader gives back the stored fields themselves if and only if none of them has one of the four characters |
| CsvExport.LinePerRow | src/Controllers/ExportController.cpp:64-91 | the text has exactly one line feed more than there are rows |
| Multipart.BuildMultipartBody | src/Net/DrogonHttpClient.cpp:56-81 | body and content type: a receiver that is given both reads parts that carry the arguments if and only if all headers are clean and no value splits |
| Multipart.DelimiterText | src/Net/DrogonHttpClient.cpp:63-76 | the delimiter is line break, two dashes and the boundary |
| Multipart.DelimiterEndsValue | src/Net/DrogonHttpClient.cpp:75-78 | the first delimiter in a text followed by a delimiter is at the text's end, unless the text holds one: it cannot straddle the end, as a carriage return occurs in it only at the front |
| Multipart.PartsRoundTrip | src/Net/DrogonHttpClient.cpp:62-78 | the parts after the first dash-boundary are read back if and only if all headers are clean and no value splits: contains the delimiter once the line break before it is counted in |
| Multipart.MultipartRoundTrip | src/Net/DrogonHttpClient.cpp:56-81 | a reader after section 5.1.1 of RFC 2046 and section 4 of RFC 7578, which takes the boundary from the content type, recovers each argument's name and value, a file's type, and its file name unless empty, if and only if no value contains the delimiter or begins with the dash-boundary, names and file names have no quote, and they and the types no carriage return |
| ClientLease.DrogonHttpClient.LeaseClient | src/Net/DrogonHttpClient.cpp:125-153 | hands out the host's client at the counter's place, advances the counter with wrap-around, creates a pool only for a new host and never changes an existing one |
| ClientLease.KeysApart | src/Net/DrogonHttpClient.cpp:129-129 | as long as protocols have no colon, different protocols or hosts are handed different clients |
| ClientLease.KeysMeet | src/Net/DrogonHttpClient.cpp:129-129 | with one, two pairs of protocol and host can share their clients |
| ClientLease.PlaceIgnoresWrap | src/Net/DrogonHttpClient.cpp:150-152 | the wrap at 2^64 does not disturb the turn |
| ClientLease.LeaseCount | src/Net/DrogonHttpClient.cpp:150-152 | exactly how often a place is leased in any number of consecutive leases |
| ClientLease.LeasesAreEven | src/Net/DrogonHttpClient.cpp:150-152 | for one host each client's turn comes the rounded-down or the rounded-up share of times |
| ClientLease.OddRotation | src/Net/DrogonHttpClient.cpp:150-152 | with an odd number of hosts taking turns, a host's place comes round exactly as often as some place of a single host |
| ClientLease.EvenRotation | src/Net/DrogonHttpClient.cpp:150-152 | with an even number, half of a host's clients are never handed out |
| ClientLease.SharesEvenlyIffOdd | src/Net/DrogonHttpClient.cpp:150-152 | from every counter value, every client of a host gets the rounded-down or rounded-up share of any number of its leases if and only if the number of hosts taking turns is odd |
| ClientLease.LeaseInRotation | src/Net/DrogonHttpClient.cpp:125-153 | over consecutive lease calls by any hosts in turn: exactly how often each client of each host was returned, and its even share whenever the number of hosts is odd, one host included |

## Left out

- Telegram's transport, HTTP requests, sockets, webhook registration and start-up: input and output.
- Drogon's ORM and SQLite beyond the assumptions above; a database exception in the interleaved system is a handler that is lost.
- `RegistrationRepository::remove`: no handler calls it, so rows are never deleted here.
- The subscription and start workflows, routers, keyboards, configuration: dispatch, constants and messages; of the controller only the empty-text guard and the resume lookup are kept.
- The greeting of "want participate" (contest text, photos, removal of the keyboard) has no effect on the modelled screen; its four calls remain as places where the handler can fail or be lost.
- `buildFormUrlEncodedBody`: depends on a library encoder that is not part of this model.
- `generateBoundary`: the boundary is a given string without a carriage return, since clock and counter digits are joined without a separator.
- Int64 width: ids and states are plain integers; the modelled code does no arithmetic on them.
- The export's token check, log output and trivial getters.
- `updateByJson` is not written out a second time: it is `UpdateByMasqueradedJson` under the column names.
- JSON documents that are not objects.
- Which thread a coroutine runs on between two calls after it awaited the database; the await model only says that its next call is then posted from outside the pool.
- RegistrationWorkflow.RegistrationWorkflow.SaveAnswer: stands for the three handlers of the first three answers, which differ only in state and column.
- RegistrationModel.Registrations.SetAnswer: stands for the setters of the four answer columns, which differ only in the column.
- RegistrationModel.Registrations.BoundArgs: stands for both `outputArgs` and `updateArgs`, which bind the same columns in the same order.
- RegistrationWorkflow.RegistrationWorkflow.ShowFormPrompt: the class form fails only on a missing message, and a resume also where an old keyboard may not be removed; faults and lost handlers at every `co_await` are in the interleaved system.
- FormScreen.ScreenAgreesWithTable: says nothing of the screen of a chat with several rows.
