# xping, modelled and proved

xping is a ping service. An HTTP request with a list of servers becomes a Task, an array of Pings; a
worker thread sends one ICMP echo request per Ping, and replies, one-shot timers and failed sends race
to end each of them; when the last one ends, the Task goes back to the master thread, which answers the
request with a JSON report. Requests and reports go through a JSON library that is part of the
repository.

This project models three cores of it and proves what they are for.

- **The ping protocol.** `PingTask` says what each worker callback does to one Task, its worker's index
  and its armed timers. `PingSystem` puts the HTTP side, any number of workers and all their Tasks into
  one state machine, one event-loop callback per step, with replies (duplicated, late, lost), timeouts,
  send results and clocks left to the environment, and proves an inductive invariant. `PingRuns`,
  `PingProgress`, `PingQuiescence`, `PingIndex`, `PingAttribution` and `PingReport` draw the consequences
  over every run, and `PingExamples` reaches the failures by short ones.
  `PingService` has the classes `Ping`, `Task`, `TaskWorker` and `HttpServer`, whose methods update their
  fields as the source does; each is proved to do on the objects what `PingTask` and `TaskReport` say.
  `Dequeue` and `Wakeup` are the linked queue and the queue-plus-pipe wake-up used between all threads,
  `IcmpPacket`, `Bytes` and `PingPayload` the packets, `TaskReport`, `RequestMeaning`, `ReportText` and
  `RequestInput` the way in from a request body and out to a report.
- **The JSON reader and writers.** `JsonLexer` and `JsonGrammar` are the specification of the reader:
  characters to tokens, tokens to a value, with comments, error recovery and quirks. `JsonTokens`,
  `JsonEscapes` and `JsonSyntax` say apart from it which texts those are: tokens by their characters,
  strings by their escapes, values by concrete syntax trees against RFC 8259. `JsonReader` is the
  reader itself, a class with a cursor, a node stack and an error list. `JsonWriters` and
  `JsonStyledWriter` are the compact writer and the two pretty-printers with their shared scratch state;
  `JsonRoundTrip` relates texts, tokens and values, and `JsonPipeline` composes the objects.
- **The order on JSON values.** `JsonOrder` over the trees of `JsonValues`.

What the proofs show about the code, beyond what its comments promise:

- Two Tasks taken up by one worker within one clock tick share a timestamp, and the index keeps the
  first. While both are active, a reply to a Ping of the second ends the Ping of the same number of the
  first (`PingIndex.ShadowedReply`), so a report may say that a server replied which did not; and if the
  second has more Pings, its own awaited reply is looked up past the end of the first's array
  (`PingIndex.ShadowedOverrun`). Once one of the two completes, the other is not found at all
  (`PingIndex.SharedStampLosesTask`): its replies are dropped, and its completion takes the branch the
  source calls impossible (`PingIndex.LostTaskCompletes`), unless something else was taken up under that
  timestamp meanwhile, whose entry it then erases (`PingIndex.NewcomerErased`). Both requests can still
  be answered, as long as nothing is read past an array (`PingProgress.CanAnswer`).
- A timestamp used twice is enough; the two Tasks need not be active together. A late reply to a Task
  that is gone can end a Ping of the Task now mapped under its timestamp, or be looked up past its array
  (`PingExamples.StampReusedReached`). Right attribution, that every packet sent is credited to the
  request it was sent for while that waits and to none afterwards, holds in a state if and only if no
  packet's timestamp leads to another request's Task with the Ping of that number pending or with exactly
  that many Pings, and every awaited packet leads to its own Task (`PingAttribution.AttributedIff`). It
  survives a callback if and only if that callback does not take up a Task in one of three ways
  (`PingAttribution.AttributedStep`), and a timestamp that is neither mapped nor carried by a
  packet the worker sent is never one of them (`PingAttribution.UnusedStamp`). So over a run it holds
  throughout if and only if no callback spoils it (`PingAttribution.AttributedRuns`), as when the
  timestamps of each worker are distinct, and then honest replies never lead a callback astray
  (`PingAttribution.HonestRunIsSafe`).
- For the index by itself: every active Task with a server is found in it if and only if every awaited
  Ping would get its reply (`PingIndex.CreditedIffFound`); a complete index stays complete exactly as long
  as no Task is taken up under a timestamp in use (`PingIndex.IndexedStep`). Distinct timestamps among the
  Tasks active at one moment are not enough for a complete index (`PingExamples.LostTaskReached`);
  distinct timestamps over the run are (`PingIndex.DistinctStampsIndex`).
- The reader accepts every value of RFC 8259 whose numbers and strings decode, and more: comments in some
  places and not in others, anything after the value, a closing brace after the comma of a member whose
  name is empty, and, once a comment follows a member, any token in place of the comma
  (`JsonSyntax.AcceptedIffTree`, `JsonSyntax.PlainAccepted`). Long escapes are checked and dropped, so a
  name made of them alone is empty (`JsonEscapes.DecodesIffPieces`).
- A request with no servers is never answered once a worker has accepted it
  (`PingProgress.AnswerIffServers`), and the Task constructor never ends exactly on 65536 servers all of
  which convert to strings (`TaskReport.ConstructorByLoop`).
- The index check on a reply lets through one index too many, and in the atomic model that is the only
  way any callback can touch memory that is not there (`PingRuns.RunKeeps`). Outside it, one more read of
  a Task follows its last send; the Task may be gone by then if and only if it has a server and every
  send failed (`PingProgress.RereadHazard`).
- Without further requests, and whatever the schedule, every request whose Task has a server is answered
  once the callbacks that change anything have used up a measure of the work left, which each of them
  lowers (`PingQuiescence.AllAnswered`).

`PingExamples` has short runs, from the start and with one worker, that reach the index one too many, the
reply credited to the wrong Task, the honest reply looked up past an array, under a shared timestamp and
under one used again, the Task that is not found, and the Task without servers.

Conventions. A Task, a request and a producer are named by numbers in the state machines and by objects
in the classes. Fields the source leaves unset in a constructor are 0. Hosts are little-endian. Times are
integers; the timestamp of a Task is below 2^64 where it is written into a packet. Formatting a real
number and parsing one are the function parameters `show` and `scan`: of `show` it is asked only that its
text starts with a digit or a minus sign and consists of number characters, of `scan` nothing. The
source writes a whole number without a point, so it is read back as an integer, which this allows.
Characters are compared by code, as `strcmp` compares bytes.

## Model

| member | source | states |
|---|---|---|
| `PingSystem.StepKeeps` | src/TaskWorker.cpp:19-47 | one callback from a state satisfying the invariant, whatever the environment does: it touches memory that is not there (a deleted task, a ping past the array, a timer never armed) if and only if a reply carries an index equal to the mapped task's count; otherwise the invariant holds again |
| `PingRuns.RunKeeps` | src/TaskWorker.cpp:318-347 | the same over whole runs: a run goes astray if and only if such an index occurs somewhere on it; every other run ends in a state satisfying the invariant |
| `PingRuns.EveryRequest` | src/HttpServer.cpp:32-61 | on every run from the start: the HTTP side's impossible branches are not taken, the live tasks are exactly the waiting requests' tasks, every request made is waiting or answered, never both, and no request is answered twice |
| `PingRuns.OnePlace` | src/TaskWorker.cpp:211-225 | conservation: counted with repetition over all queues, each task of a waiting request is in exactly one of worker queue, active set and response queue, and no other task is anywhere |
| `PingRuns.HandedOff` | src/TaskWorker.cpp:227-242 | once a task is on its way to the master it is an error or all its pings have ended, and no worker's queue, `doingMap` or armed timer refers to it, even when active tasks share a timestamp |
| `PingRuns.PingEndsOnce` | src/Task.h:42-51 | across any callback a ping that has ended stays exactly as it is, and a ping that ends does so by a reply with its task's timestamp and its index, whose time it records, by its own timer or by its own failed send |
| `PingTask.CountUpdate` | src/Task.h:50-51 | the number of ended pings changes by exactly the one ping that is replaced |
| `PingTask.CountFull` | src/Task.h:42-42 | the count reaches the number of pings exactly when every ping has ended |
| `PingTask.CreditKeeps` | src/TaskWorker.cpp:338-346 | ending one pending ping: count and timers follow, and the task is handed off exactly when it was the last pending one |
| `PingTask.TimeoutKeeps` | src/Ping.cpp:23-38 | a timer that fires ends its ping, touches no other, raises the count by one and hands off exactly at the last |
| `PingTask.DeliverKeeps` | src/TaskWorker.cpp:326-346 | a reply ends the pending ping it names, whose timer is armed, and leaves everything as it was when that ping has ended or the index is too large |
| `PingTask.StartKeeps` | src/Ping.cpp:63-133 | starting the next ping under any send result keeps the count, the armed timers and the hand-off condition exact |
| `PingTask.DoTaskKeeps` | src/TaskWorker.cpp:217-225 | `doTask` under any mix of send results starts every ping and hands the task off at once exactly when every send failed, after the last |
| `PingTask.DoTaskSends` | src/TaskWorker.cpp:217-225 | `doTask` attempts every ping once with its own result and touches no other |
| `PingSystem.TakeUpView` | src/TaskWorker.cpp:28-46 | taking up the head of the queue in the whole system is, for that task, its worker and the responses, exactly what the worker object's method is proved to do |
| `PingSystem.ReceiveKeeps` | src/TaskWorker.cpp:318-347 | a reply for a mapped task writes back exactly the delivery to that task, or nothing |
| `PingSystem.RequestKeeps` | src/HttpHandler.cpp:33-53 | registering a request and dispatching its task keeps the invariant |
| `PingSystem.RespondKeeps` | src/HttpServer.cpp:42-60 | answering the oldest response never meets a deleted task and keeps the invariant |
| `PingRuns.TimersOwed` | src/Ping.cpp:129-146 | an active task has armed timers for exactly its pending pings, as many as its count still lacks |
| `PingProgress.TimersAddUp` | src/Ping.cpp:135-146 | the timers armed on a worker are, in number, the sum of `totalCount - doneCount` over its active tasks |
| `PingProgress.TimerPays` | src/Ping.cpp:31-36 | each timer pays off one ping, and the last one hands the task off to the end of the response queue |
| `PingProgress.CanAnswer` | src/TaskWorker.cpp:19-47 | from any reachable state, any waiting request whose task has a server, queued, active or on its way back, can be brought to its answer: its worker takes up the tasks before it, whatever the clock reads and the sends come to, then its own timers and the master's callbacks follow |
| `PingProgress.StuckForever` | src/TaskWorker.cpp:217-225 | an active task without pings stays active, and its request unanswered, on every run |
| `PingProgress.AnswerIffServers` | src/TaskWorker.cpp:217-225 | an active task's request can still be answered if and only if the task has at least one server |
| `PingQuiescence.StepLowers` | src/TaskWorker.cpp:19-47 | every callback that is no new request changes nothing or lowers the work left: two units and one per ping for a queued task, one per pending ping and one for an active task with a server, one for a response |
| `PingQuiescence.QuietIff` | src/TaskWorker.cpp:19-47 | no callback but a new request, short of one that goes astray, can change anything if and only if no work is left, which is if and only if every live task is active without servers |
| `PingQuiescence.NothingArmed` | src/Ping.cpp:129-146 | when all queues are empty and no timer is armed, every live task is active without servers |
| `PingQuiescence.AllAnswered` | src/HttpServer.cpp:42-60 | on every run without further requests at most as many callbacks change anything as there was work at its start, and once that many have, or nothing can change, every request whose task has a server or was on its way back is answered |
| `PingProgress.RereadHazard` | src/TaskWorker.cpp:219-219 | after a task is taken up, the master's callbacks can delete it before the loop bound is read once more if and only if it has a ping and every send failed |
| `PingExamples.OverrunReached` | src/TaskWorker.cpp:327-332 | a run from the start: one server, sent, and a reply with index 1 reads past the array |
| `PingExamples.SharedStampReached` | src/TaskWorker.cpp:42-44 | a run from the start after which two active tasks, all of whose pings wait, share a timestamp that leads to the first |
| `PingExamples.HonestOverrunReached` | src/TaskWorker.cpp:327-332 | the same run, after which the second task's own awaited reply reads past the first's array |
| `PingExamples.WrongCreditReached` | src/TaskWorker.cpp:318-346 | the same run and a reply of index 0, which both tasks await: the first's ping ends as a success, the second still waits |
| `PingExamples.LostTaskReached` | src/TaskWorker.cpp:229-241 | the same run and the first task's timer: the second is the only active task, the map is empty and `doingCount` is 1 |
| `PingExamples.StampReusedReached` | src/TaskWorker.cpp:318-332 | a run from the start on which no timestamp is taken up while mapped, after which every active task is in the map and every awaited reply would be credited to its ping; yet a late reply to a packet of the first, finished task reads past the array of the second, stamped alike |
| `PingExamples.EmptyReached` | src/TaskWorker.cpp:217-225 | a run from the start after which a task without servers is active; its request is not answered on any continuation |
| `PingIndex.IndexSize` | src/TaskWorker.cpp:34-46 | `doingCount` is the number of active tasks, at most 1024, and bounds the size of `doingMap`; the sizes agree if and only if every active task is found in the map under its own timestamp |
| `PingIndex.TurnedAwayIffFull` | src/TaskWorker.cpp:34-40 | in any reachable state a queued task is turned away, with error 1005 and at once, if and only if 1024 tasks are active on its worker |
| `PingIndex.IndexedStep` | src/TaskWorker.cpp:42-45 | a map that finds every active task does so after a callback if and only if the callback does not take up a task under a timestamp already mapped |
| `PingIndex.DistinctStampsIndex` | src/TaskWorker.cpp:227-242 | over any run with distinct timestamps on a worker its map holds exactly its active tasks, so completion always finds its task there |
| `PingIndex.SameTick` | src/TaskWorker.cpp:42-46 | two queued tasks taken up under one clock reading are both active with one timestamp, from any state with room |
| `PingIndex.SharedStampLosesTask` | src/TaskWorker.cpp:229-241 | when one of two active tasks with one timestamp completes, the other is active, unchanged, and no longer in the map |
| `PingIndex.CompletionUnmaps` | src/TaskWorker.cpp:227-242 | by whichever callback an active task completes, it joins the end of the responses, the entry under its timestamp goes, whoever it leads to, and nothing else of the worker's index or active set changes |
| `PingIndex.LostTaskCompletes` | src/TaskWorker.cpp:229-241 | a task that is active and not in the map completes by the branch the code calls impossible, leaving the map as it is, after any run on which the worker takes nothing up under that timestamp |
| `PingIndex.NewcomerErased` | src/TaskWorker.cpp:229-241 | and if another task was taken up under that timestamp meanwhile, the completion erases the newcomer's entry |
| `PingIndex.ShadowedReply` | src/TaskWorker.cpp:318-346 | while two active tasks share a timestamp and the map leads to the first, a reply to a ping of the second ends the first's ping of the same number as a success and leaves the second as it was |
| `PingIndex.ShadowedOverrun` | src/TaskWorker.cpp:42-46 | from any state with room, taking up a task and then a longer one under one clock reading leads to a state in which a reply to the longer one's next ping, sent and awaited, reads past the shorter one's array |
| `PingIndex.CreditedIffFound` | src/TaskWorker.cpp:318-346 | in any reachable state, every reply to an awaited ping would be credited to that ping alone if and only if every active task with a server is found in the map under its timestamp; late and repeated replies are the matter of `PingAttribution` |
| `PingAttribution.AttributedIff` | src/TaskWorker.cpp:318-347 | in any reachable state with the packets sent on the way to it, every packet would be credited to its ping while that is awaited and change nothing otherwise if and only if no packet's timestamp leads to another request's task with that ping pending or with exactly that many pings, and every awaited packet's leads to its own task |
| `PingAttribution.AttributedStep` | src/TaskWorker.cpp:28-46 | such a state stays so across a callback if and only if the callback does not take a task up in a way that spoils it: under an unmapped timestamp, if the task stays active and a packet sent under it before carries the number of one of its pings sent, or their number; under a mapped one, if a packet goes out, or if every send fails and the mapped task has a server |
| `PingAttribution.UnusedStamp` | src/TaskWorker.cpp:42-46 | taking a task up under a timestamp that is not mapped and that no packet of the worker carries does not spoil it |
| `PingAttribution.AttributedRuns` | src/TaskWorker.cpp:318-347 | over every run from the start, right attribution holds at every point if and only if no callback spoils it, and then honest replies, possibly lost, repeated or late, lead no callback astray |
| `PingAttribution.HonestRunIsSafe` | src/TaskWorker.cpp:318-347 | with distinct timestamps on each worker right attribution holds at every point of every run, and with honest replies no callback touches memory that is not there |
| `PingIndex.RightAttribution` | src/TaskWorker.cpp:318-347 | on any run with distinct timestamps, at any later point, a reply with a task's timestamp and a ping's index credits that ping of that task if its request still waits on it, and otherwise changes nothing |
| `PingIndex.EchoCredits` | src/TaskWorker.cpp:49-115 | the same from the bytes of the echo reply, behind an IP header of any legal length |
| `PingReport.RunReports` | src/Task.cpp:120-136 | over any run, a report that is no error has exactly one entry per server of the request it answers, in its order; each has as address the string that stands in the request's slot, loss rate 0 exactly when a reply with the task's timestamp and that index ended its ping, and then, and only then, a round-trip time that is the time of that reply, delivered to the task of that request, less the time of the send as that task was taken up, over 1000, both read by the same worker |
| `PingReport.TakenUpOnce` | src/TaskWorker.cpp:28-46 | on any run a request's task is taken up at most once, so that send is one |
| `PingReport.RunResponses` | src/Task.cpp:142-152 | over any run, an answer is HTTP error 405 exactly for a request that is not a POST, 415 exactly for a POST that is not JSON, and a report for every other; the error in a report is the one the body deserves, or 1005 for a task turned away, in the words that go with the code |
| `PingReport.RunWritable` | src/Task.cpp:137-139 | every report of a run is a value the writers accept |
| `PingService.Ping.HandleTimeout` | src/Ping.cpp:23-38 | the timer callback on the objects does to the task, its timers, the worker's index and the response queue what the specification function says, and nothing else |
| `PingService.Ping.Start` | src/Ping.cpp:63-133 | starting a ping on the objects, for each of the three send results, does exactly what the specification function says, hand-off included |
| `PingService.TaskWorker.OnReceive` | src/TaskWorker.cpp:318-347 | delivery of a reply on the objects does exactly what the specification function says for the mapped task, and nothing for an unknown timestamp |
| `PingService.TaskWorker.DoTask` | src/TaskWorker.cpp:217-225 | the loop over the pings, reading its bound before each turn, does what the recursive specification of starting them in order says, even when the last start hands the task off |
| `PingService.TaskWorker.OnComplete` | src/TaskWorker.cpp:227-242 | both branches of completion: the count goes down, the entry under the timestamp goes if there is one, and the task joins the end of the response queue |
| `PingService.TaskWorker.NotifyEventHandler` | src/TaskWorker.cpp:28-46 | the oldest task leaves the queue and is turned away with error 1005 at 1024 active tasks, or stamped, indexed unless the stamp is taken, and started; an empty queue changes nothing |
| `PingService.HttpServer.TryRespEventHandler` | src/HttpServer.cpp:42-60 | the oldest response is answered under its own request and forgotten; an unknown task yields no answer |
| `PingService.HttpServer.HandlePingReq` | src/HttpHandler.cpp:9-54 | the task built is new, so never already registered; it is registered under its request and sent to exactly one queue, by whether it is an error; if building throws, nothing changes |
| `PingService.HttpServer.SendToWorker` | src/HttpServer.cpp:230-239 | the task goes to the end of the queue of the worker in turn, and the turn passes on round the number of workers |
| `PingService.Task.FromJson` | src/Task.cpp:24-74 | the constructor and its 16-bit loop build exactly the task the specification reads from the body, or throw exactly when it says so; only bodies on which the loop never ends are excluded |
| `PingService.Task.BuildResponse` | src/Task.cpp:85-140 | the loop of writes into the JSON body builds exactly the report |
| `TaskReport.LoopNeverEnds` | src/Task.cpp:66-73 | the constructor's loop, by its 16-bit counter, never ends if and only if there are 65536 servers and all convert; it throws exactly if one does not, and ends otherwise |
| `TaskReport.ConstructorByLoop` | src/Task.cpp:24-74 | a body that does not reach the loop is refused or throws; one that does is read as endless, thrown or built exactly as the loop goes |
| `TaskReport.ServersRead` | src/Task.cpp:66-73 | reading the servers fails exactly when one is not convertible to a string, and otherwise gives one new ping per slot, in order |
| `TaskReport.ReadIsFresh` | src/Task.cpp:24-74 | a task read from a well-formed body is a refusal with a code from 1001 to 1004 or a fresh task with one ping per server, in order, under the request's timeout |
| `RequestMeaning.BodyRead` | src/Task.cpp:24-74 | what the constructor makes of every well-formed body, by the values it holds: 1001 for one that is no object; 1002, 1003 and 1004 for a timeout not above zero, servers that are no array, and more than 65536; an exception for a timeout that counts as no number or a server that stands for no string; no end on 65536 servers; otherwise one ping per slot, in order, with the string that stands there (itself, empty for null, `true` or `false`) and the timeout asked for, 5 when there is none |
| `TaskReport.FinalReport` | src/Task.cpp:90-136 | the report of a refused task is its error; that of a completed one has exactly one entry per ping, in order, with the address, and loss rate 0 and the round-trip time in milliseconds exactly when the history says a reply ended the ping |
| `PingReport.RequestsAdmissible` | src/HttpHandler.cpp:17-31 | whatever the method and the payload, a task that is built is an error or a fresh task, which is all the protocol asks of it |
| `ReportText.ReportWritable` | src/Task.cpp:137-139 | the report of any task whose addresses hold no NUL is a value the writers accept |
| `ReportText.RefusalReadsBack` | src/Task.cpp:90-118 | an error report, written in any layout, parses back to exactly itself |
| `RequestInput.RecvReqInput` | src/HttpHandler.cpp:88-101 | the payload collected block by block is the payload sent if and only if it holds no NUL, at any length |
| `RequestInput.ReceivedByBlocks` | src/HttpHandler.cpp:88-101 | of a payload with NULs arrives, of each block of 4096 bytes and of the last shorter one, what stands before its first NUL |
| `IcmpPackets.IcmpPacket.constructor` | src/IcmpPacket.h:97-110 | the packet begins with type 8, echo request, whatever type is asked for, and the code; holds identifier, sequence, data and a zero byte in place; and, up to 131068 bytes of data, the whole of it sums to 0xFFFF |
| `IcmpPackets.WordAt` | src/IcmpPacket.h:125-143 | a word is two bytes, the high one first, and a last odd byte a high one |
| `IcmpPackets.IcmpPacket.CalcCheckSum` | src/IcmpPacket.h:125-143 | the loop with 32-bit wrap-around computes the folded complement of the sum over the covered bytes |
| `IcmpPackets.FoldsReduce` | src/IcmpPacket.h:140-142 | two folds take any 32-bit sum to its one's-complement value |
| `IcmpPackets.OnesSumIsReduced` | src/IcmpPacket.h:125-143 | adding words with end-around carry, the independent definition, equals reducing their plain sum |
| `IcmpPackets.TrailingZero` | src/IcmpPacket.h:101-102 | a zero byte at the end changes no sum, for data of either parity |
| `IcmpPackets.NoOverflow` | src/IcmpPacket.h:127-138 | up to 131068 bytes of data the 32-bit accumulator does not overflow |
| `IcmpPackets.BoundIsTight` | src/IcmpPacket.h:127-138 | with one byte more it can |
| `IcmpPackets.PacketChecks` | src/IcmpPacket.h:104-110 | storing that checksum makes the whole packet sum to 0xFFFF |
| `PingPayload.BuildRequest` | src/Ping.cpp:65-82 | the request for a ping is 21 bytes of type 8 and code 0, carries process, thread, timestamp and index in place, and checks |
| `PingPayload.ReplyReadsBack` | src/TaskWorker.cpp:65-99 | a reply decodes to exactly what was sent, behind an IP header of any length, if thread and process match, and is dropped otherwise |
| `PingPayload.AcceptedIsReply` | src/TaskWorker.cpp:65-99 | whatever the decoder accepts is byte for byte an echo reply, of type 0, carrying the decoded fields |
| `PingPayload.OnlyReplies` | src/TaskWorker.cpp:65-99 | a message of any other type behind an IP header, a request of this service, of type 8, among them, is never accepted |
| `Bytes.LastWeighsMost` | src/TaskWorker.cpp:65-99 | fields are read with the first byte as the lowest |
| `Dequeue.ConcurrentDequeue.PushHead` | src/common/CommonList.h:202-223 | a push adds one item at the end of the contents and one fresh linked node; without the lock nothing changes |
| `Dequeue.ConcurrentDequeue.PopTail` | src/common/CommonList.h:270-294 | a pop takes the oldest item and deletes exactly the node it was in; when empty or without the lock nothing changes |
| `Dequeue.ConcurrentDequeue.Destroy` | src/common/CommonList.h:138-158 | the destructor's loop deletes every node exactly once, sentinels included |
| `Dequeue.WalksMirror` | src/common/CommonList.h:126-136 | walking forward from the head and backward from the tail visits the same nodes in opposite order, and both walks end |
| `Dequeue.Fifo` | src/common/CommonList.h:202-294 | over any list of operations, what came out followed by what is left is what was there followed by what went in |
| `Wakeup.EveryRun` | src/TaskWorker.cpp:19-33 | over any interleaving, failures included: the exact balance of items and bytes, items out in the order they went in, and exactly when a queue at rest has a readable pipe |
| `Wakeup.NoLostWakeup` | src/HttpServer.cpp:222-228 | without failures, queue length = bytes in the pipe + producers between push and notify + consumer between read and pop; a pop after a read finds an item, and a queue at rest has a readable pipe |
| `Wakeup.DrainsAll` | src/Log.cpp:8-24 | from rest, the consumer's callbacks alone bring out everything that went in |
| `Wakeup.LostWrite` | src/Log.cpp:118-125 | after a byte that was not written, on balance, whatever is pushed and popped afterwards without further failures, the queue is never empty again: what is popped stays a proper prefix of what is pushed |
| `Wakeup.Stranded` | src/Log.cpp:8-24 | at rest with an empty pipe exactly the pushes are enabled, so until the next push what is queued stays |
| `JsonText.UIntToString` | depend/json/json_writer.cpp:14-24 | the backwards loop leaves the decimal text of the number and its terminator in place, within an 11-character buffer, and touches nothing else |
| `JsonText.ValueToStringInt` | depend/json/json_writer.cpp:26-39 | the decimal text of a signed number, the least one included |
| `JsonText.DecodeInteger` | depend/json/json_reader.cpp:475-510 | the loop on 32-bit unsigned numbers never overflows and agrees with the mathematical value within the limits, deferring to `decodeDouble` beyond |
| `JsonText.IntTextDecodes` | depend/json/json_reader.cpp:475-510 | written integers read back exactly, with the exact bounds -2147483639, 2147483647 and 4294967289 |
| `JsonText.ValueToQuotedString` | depend/json/json_writer.cpp:103-148 | the fast path and the escaping loop both give the quoted text |
| `JsonText.PlainEscape` | depend/json/json_writer.cpp:106-110 | strings that need no escape are their own escaped text |
| `JsonText.DecodeStringToken` | depend/json/json_reader.cpp:551-596 | the decoding loop, with its escapes and errors, computes the unescaped string or the error |
| `JsonText.UnescapeEscape` | depend/json/json_reader.cpp:551-596 | unescaping what was escaped gives the string back, for every string |
| `JsonEscapes.DecodesIffPieces` | depend/json/json_reader.cpp:551-625 | a string decodes if and only if it is a run of plain characters, the eight two-character escapes and long escapes with four hexadecimal digits, up to its end or an unescaped quote, and then to the plain characters and the codes 0x22, 0x5C, 0x2F, 8, 12, 10, 13 and 9, the long escapes giving nothing |
| `JsonEscapes.BadEscapes` | depend/json/json_reader.cpp:562-625 | after any such run, a backslash at the end, before another character, or before a `u` without four digits or hexadecimal ones is an error, and which |
| `JsonEscapes.EscapeSpells` | depend/json/json_writer.cpp:103-148 | the writer spells exactly quote, backslash and five controls by their escape, and every other character as it is |
| `JsonLexer.QuoteInContext` | depend/json/json_reader.cpp:363-376 | before any suffix, the reader stops exactly at the closing quote of a quoted string |
| `JsonLexer.LexAppend` | depend/json/json_reader.cpp:173-245 | the tokens of a text followed by another are the tokens of both, when no token of the first is left open and no number runs on across the seam |
| `JsonTokens.Blanks` | depend/json/json_reader.cpp:248-259 | tab, line feed, carriage return and blank are passed over, and nothing else |
| `JsonTokens.Strings` | depend/json/json_reader.cpp:363-376 | a quoted run of pieces is one token, whatever follows, and decodes to what they say |
| `JsonTokens.Numbers` | depend/json/json_reader.cpp:351-361 | a number token is a digit or minus sign and all digits, points, signs and exponent marks after it |
| `JsonTokens.BlockComments` | depend/json/json_reader.cpp:325-335 | a comment runs from slash-star through the first star-slash after it, as one token |
| `JsonTokens.OpenComments` | depend/json/json_reader.cpp:325-335 | one that is not closed is one error token |
| `JsonTokens.LineComments` | depend/json/json_reader.cpp:338-348 | a comment after two slashes runs through the next line feed or carriage return, or to the end |
| `JsonReader.Reader.ReadToken` | depend/json/json_reader.cpp:173-245 | the next token of the document, with the cursor inside it; never backwards |
| `JsonReader.Reader.ReadNumber` | depend/json/json_reader.cpp:351-361 | the cursor moves over exactly the longest run of number characters |
| `JsonReader.Reader.ReadString` | depend/json/json_reader.cpp:363-376 | the cursor stops after the first unescaped quote, or at the end when there is none |
| `JsonReader.Reader.ReadComment` | depend/json/json_reader.cpp:277-302 | comments of both kinds are passed over exactly; an unclosed or unknown one is an error |
| `JsonReader.Reader.SkipCommentTokens` | depend/json/json_reader.cpp:152-160 | the next token that is not a comment |
| `JsonReader.Reader.RecoverFromError` | depend/json/json_reader.cpp:639-653 | skips to the wanted token or the end, drops the errors met meanwhile, and terminates |
| `JsonReader.Reader.ReadValue` | depend/json/json_reader.cpp:101-149 | reads one value exactly as the grammar says, replaces the top of the node stack and leaves the rest of it alone, and terminates |
| `JsonReader.Reader.ReadObject` | depend/json/json_reader.cpp:379-435 | members, comments, duplicate names and errors, as the grammar says, with the stack at its entry depth on every path; successful if and only if the tokens left begin with members and a closing brace by `JsonSyntax` |
| `JsonReader.Reader.ReadArray` | depend/json/json_reader.cpp:438-472 | items and errors, as the grammar says, with the stack at its entry depth on every path |
| `JsonReader.Reader.Parse` | depend/json/json_reader.cpp:75-98 | on every document: ends with the stack at depth one, true with no error or false with exactly one, and a well-formed value from a well-formed root; true if and only if the tokens begin with a value by `JsonSyntax`, and then with that value's meaning |
| `JsonSyntax.AcceptedIffTree` | depend/json/json_reader.cpp:101-149 | the reader accepts exactly the token sequences that begin with the yield of a concrete syntax tree, takes exactly its tokens and reads it as what it means, whatever follows; the trees are those of RFC 8259, with comments in front of values, names and what follows a member's value, a closing brace allowed after an empty name's comma, and any token standing in for the comma after comments |
| `JsonSyntax.PlainAccepted` | depend/json/json_reader.cpp:101-149 | every value by the grammar of RFC 8259 whose tokens decode is accepted, and of sequences without comments and empty strings nothing else |
| `JsonGrammar.RecoverStops` | depend/json/json_reader.cpp:639-653 | recovery goes past the first token that is the wanted one or ends the stream, or leaves nothing |
| `JsonGrammar.ValueReadIsWellFormed` | depend/json/json_reader.cpp:101-149 | whatever is read is a well-formed tree: machine ranges, key order, no NUL in strings |
| `JsonWriters.FastWriter.Write` | depend/json/json_writer.cpp:173-239 | the compact text of the value |
| `JsonStyledWriter.StyledWriter.IsMultilineArray` | depend/json/json_writer.cpp:381-409 | decides for one line exactly when the items are few, none is a container with something in it and the line is shorter than the margin; afterwards the child strings are none or exactly one rendering per child, in spite of recursive use of the same scratch state, and always the latter for one line |
| `JsonStyledWriter.OneLineIff` | depend/json/json_writer.cpp:381-409 | one line means fewer than 25 items, none a container with something in it, and a line shorter than 74 characters |
| `JsonStyledWriter.StyledWriter.WriteArrayValue` | depend/json/json_writer.cpp:328-378 | either layout writes exactly the array's tokens and restores the indentation |
| `JsonStyledWriter.StyledWriter.WriteValue` | depend/json/json_writer.cpp:266-325 | appends the value's tokens to the document, or its one-line text to the child strings, and restores indentation and mode |
| `JsonStyledWriter.StyledWriter.Write` | depend/json/json_writer.cpp:252-263 | for both pretty-printers, the text has exactly the tokens of the value and the indentation is back to none |
| `JsonRoundTrip.CompactLexes` | depend/json/json_writer.cpp:183-239 | the compact text has exactly the value's tokens |
| `JsonRoundTrip.CompactIsTokens` | depend/json/json_writer.cpp:183-239 | the compact text is the characters of its tokens side by side, without white space |
| `JsonRoundTrip.DocumentReadsBack` | depend/json/json_reader.cpp:75-98 | a text with a value's tokens parses if and only if every number in it does, and then to the value with its numbers reread and its array gaps filled |
| `JsonRoundTrip.LayoutIndependence` | depend/json/json_writer.cpp:266-413 | any text with a value's tokens is read exactly as the compact text |
| `JsonRoundTrip.RoundTrip` | depend/json/json_reader.cpp:75-149 | a real-free value comes back from any such text if and only if it is canonical: integers in the reader's range and signedness, arrays without gaps |
| `JsonRoundTrip.FastRoundTrip` | depend/json/json_writer.cpp:173-239 | the same for the compact writer's text |
| `JsonPipeline.ThroughFast` | depend/json/json_writer.cpp:173-180 | writing with the compact writer object and parsing with the reader object gives the value back if and only if it is canonical |
| `JsonPipeline.ThroughStyled` | depend/json/json_writer.cpp:529-540 | either pretty-printer object in between gives the same outcome as the compact one, for all values, reals included |
| `JsonOrder.StrictTotalOrder` | depend/json/json_value.cpp:549-653 | over all well-formed trees, `<` is irreflexive, transitive and total up to `==`, which is identity, and `>` and `>=` agree with it |
| `JsonOrder.LessMeans` | depend/json/json_value.cpp:549-604 | which order it is: kinds rank null, signed, unsigned, real, string, boolean, array, object; numbers as numbers, false before true, a null string first and strings by the first character that differs, a beginning before the whole; containers by number of entries, then by the first entry whose key or value differs |
| `JsonOrder.KeysRise` | depend/json/json_value.cpp:217-231 | items lie in their map by rising index, members by rising name |
| `JsonOrder.EqualIsIdentity` | depend/json/json_value.cpp:611-653 | two well-formed trees are equal exactly when they are the same tree |
| `JsonOrder.Trichotomy` | depend/json/json_value.cpp:549-591 | exactly one of less, equal and greater holds |
| `JsonOrder.Transitive` | depend/json/json_value.cpp:549-591 | less is transitive across nesting, sizes and keys |
| `JsonValues.StrcmpOrder` | depend/json/json_value.cpp:217-231 | comparing names is antisymmetric and zero exactly for the same name |
| `JsonValues.StoreThenLookup` | depend/json/json_value.cpp:959-1027 | a stored value is found under its key, and every other key reads as before |
| `JsonValues.ArrayExtent` | depend/json/json_value.cpp:857-885 | the size of an array is one more than its highest index |
| `JsonValues.StoreKeepsMembers` | depend/json/json_value.cpp:1006-1027 | storing a member keeps the names in strict order |
| `JsonValues.StoreKeepsItems` | depend/json/json_value.cpp:959-976 | storing an item keeps the indices in strict order |

## Left out

- Comment attachment: the reader model reads, skips and lexes comments everywhere the source does, but
  does not attach them to values, and the writers are modelled on values without comments.
- JsonReader.Reader.PopInto: the node stack holds values that are written back into their parent when
  popped, in place of pointers into the tree.
- JsonText.DecodeStringToken: the code point of a `\u` escape is checked for four hex digits and then
  dropped, as the source drops it; nothing is said about what it stands for.
- Line and column numbers and the wording of formatted error messages.
- Locale, rounding and number formatting: `sprintf`, `sscanf` and real round trips; only the reader's
  choice between integers and reals is modelled.
- `Value::operator<=`, which the source defines as the negation of `<` with the operands the same way
  round and so is not the order's, and `Value::compare`, a stub.
- `Value::resize`, paths, iterators, and the alternative map and array containers, which are not compiled
  in.
- JsonWriters.FastWriter.Write: the recursion depth of the machine stack is not bounded, here or in the
  reader and the pretty-printers.
- JsonStyledWriter.StyledWriter.Write: the contract fixes the tokens of the text, and which arrays go on
  one line is stated apart; where exactly the white space goes is not stated.
- JsonStyledWriter.StyledWriter.IsMultilineArray: `size * 3` is taken without overflow, and array indices
  are taken without 32-bit wrap-around.
- PingSystem.StepKeeps: a callback is one atomic step of its thread, so the read of `totalCount` after the
  last `start` of `doTask`, when the master may already have deleted the Task, is not a step of its own;
  `PingProgress.RereadHazard` says exactly when it can find the Task gone.
- PingService.TaskWorker.DoTask: reads its bound each time, but on objects that no other thread deletes
  meanwhile.
- PingService.TaskWorker.NotifyEventHandler: the queues of these objects are sequences; that a queue of
  linked nodes behaves as one is proved apart, in `Dequeue`, and the pipe beside it in `Wakeup`.
- PingService.Task.FromJson: bodies with 65536 servers all of which convert, on which the source does not
  terminate, are excluded, here and in `HandlePingReq`.
- PingService.HttpServer.HandlePingReq: a request whose Task cannot be built because a value does not
  convert ends in an exception, after which nothing is said about the server.
- PingPayload.BuildRequest: the packet is built for the 12-byte payload the service uses; thread numbers,
  process numbers and indices are 16 bits wide.
- Wakeup.EveryRun: a pipe that is full and would block a writer is an unwritten byte.
- Lock failures other than "not had": the spin lock either is had or is not, and an operation under it is
  atomic.
- libevent, evhttp, sockets, socket options, address conversion, threads, signals, clocks and random
  numbers appear only as events, results and parameters chosen by the environment.
- The text of the log, log files, the HTTP status lines, the command line, the demonstration programs and
  the other request handlers, which are empty.
- Memory that is not freed: the node `tryPopTail` forgets, the pipes, the timers' own allocations.
