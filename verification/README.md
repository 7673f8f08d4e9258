# Models of a repository of Android notes and tools

The repository collects notes, small tools and saved web pages around Android. The parts of it that
hold state and algorithms are modelled here, one module each:

- `AnrAgent`: reports of unresponsive applications are queued under a lock; a background thread, started
  when an atomic flag is won, drains the queue, clears the flag and looks again. The protocol is a
  transition system over any number of threads, one program counter each; the class `Agent` has the two
  shared fields, and each of its methods is one atomic region or the loop around them.
- `Callbacks`, `Deferred`: jQuery's callback list, which is added to, removed from and fired again while a
  cursor walks it, and the settle-once object made of two such lists; `FiringLaws` and `SettlementLaws` say
  what the calls on them mean.
- `HolderList`, `RefCount`: the `sp` handles, counts and debug lists of `RefBase`, over an explicit memory;
  `HandleLaws` says what the statements of a program give to its handles.
- `CallbackQueue`, `MessageList`: MathJax's suspendable queue of callbacks and its linked list of messages;
  `QueueLaws` says what waiting and suspending mean, in terms of the calls made on a queue.
- `CommentForest`, `Highlighter`, `SmartTabs`: the comment tree, the syntax highlighter and the tab
  expansion of a blog page.
- `ConfigMerge`: the two-stage merge of kernel configurations; `ConfigText`: its lines as they are written.
- `ExpiringCache`: a web storage whose items expire; `StorageLaws`: when they do, and what is then collected.
- `MemInfo`: the scan of `/proc/meminfo`; `MeminfoText`: the text of its lines and numbers.
- `Collections`: an option type and lemmas about sums, shared by the others.

## How the models are made

Code that changes objects is a class with the fields of the source, whose methods are proved against
functions on values or against a history kept in a ghost field; the properties of these functions and
histories are lemmas, which say what a function does without the function itself. Values that come from
outside are parameters: clock readings, the dumps that throw, the order in which a storage numbers its keys,
the matches a regular expression finds, the result of the library sort. A function that is called back is
represented by a script, the list of calls it makes before it returns. A script that runs out stands for the
moment at which a longer run is looked at, so that a statement about all scripts is one about every prefix of
every run.

Where the code and its comments differ the code is modelled: `INITIAL_STRONG_VALUE` is 0, so an object and
its counts are freed together when the weak count falls from 1 to 0, although the comment at line 568 of
`SmartPoint/test.cpp` speaks of the last strong reference. In the minified jQuery source the list is `h`, the
cursor `f`, its limit `e`, its start `g`, the firing flag `b`, the fired flag `d`, the memory `c`, the queue
of firings `i`.

## Where the code does less than one would expect

- A dump thread that cannot be started leaves the flag set for ever (`NewReportIsTakenIff`).
- Two matches of the highlighter that start together and survive are both emitted (`TextIsKeptIff`).
- A merged file runs two lines together if the source lacks its last line end and something is appended
  (`MergedIsReadBackIff`). A setting whose line mentions a second key is lost when that key is set later
  and the line is not written again (`SettingIsLostIff`, with `AmbiguousLineLosesKey` as an example).
- A setting of the remove list that is indented by a tab is not overridden, and beats the whitelist if it
  stays behind all lines that are (`WhitelistWinsIff`, `TabIndentedSettingWins`). A line of the remove list
  that mentions a key of the whitelist goes, with whatever it sets (`FirstStageIff`,
  `AmbiguousLineLosesKey`).
- `touch` reads the clock twice and can store null in place of the value (`TouchKeepsValueIff`).
- The recursion over the comments is endless exactly if some chain of replies comes back to a comment
  (`RecursionEndsIff`, `ReturnsAtAllIff`). Repeated identities and an identity of 0 can cause that, but need not
  (`LoopsOrNot`).
- The tab expansion adds one empty line at the end (`ProcessSmartTabs`).
- A queued callback that resumes the queue more often than it has suspended it, and then pushes or calls the
  queue after a push, starts another inside itself, out of push order (`NestIff` and `NestedIff` say exactly
  when, `NestedStart` is an example).

## Model

| member | source | states |
|---|---|---|
| AnrAgent.SingleConsumer | log/Bugreport/zflAmsUtil.java:446-516 | in every reachable state at most one activation is between a won compare-and-set and the clearing of `mRunning`, so at most one thread is inside `handleAnr`; `mRunning` is true exactly while there is one, or for ever after a thread start that failed |
| AnrAgent.FifoExactlyOnce | log/Bugreport/zflAmsUtil.java:425-498 | records taken, followed by records queued, are the records reported, in order; every taken record but the one in hand has exactly one outcome; a record is skipped if and only if it is older than three minutes when looked at; timestamps never decrease along the order of dumping |
| AnrAgent.OutcomesAre | log/Bugreport/zflAmsUtil.java:425-498 | over every schedule: the records added are those the schedule reports, each with the time of its report; a handled record has the outcome that its dump threw exactly if the schedule says so, and otherwise it was dumped if it was at most 180000 ms old when looked at, and skipped if it was older |
| AnrAgent.NoLostWakeup | log/Bugreport/zflAmsUtil.java:446-516 | whenever the list is not empty, some activation holds `mRunning` or is still to look at the list or the flag, unless a thread start failed; dumps that throw are included |
| AnrAgent.QuiescentIsDrained | log/Bugreport/zflAmsUtil.java:446-516 | when nothing is left to run and no thread start failed, the list is empty, the flag is clear and every report has been handled |
| AnrAgent.NewReportIsTakenIff | log/Bugreport/zflAmsUtil.java:455-463 | from a state with nothing left to run, a new report can still be taken if and only if no thread start has failed so far |
| AnrAgent.FailedStartIsForever | log/Bugreport/zflAmsUtil.java:455-463 | the exception of a failed thread start is swallowed with the flag still set: nothing is ever taken again |
| AnrAgent.FailedStartLosesReport | log/Bugreport/zflAmsUtil.java:455-463 | a concrete three-step run that ends with a report queued and nobody to take it |
| AnrAgent.RankDecreases | log/Bugreport/zflAmsUtil.java:455-516 | every step of every activation, an exit by exception that starts a successor included, lowers a ranking over the list and the program counters |
| AnrAgent.DrainingTerminates | log/Bugreport/zflAmsUtil.java:455-516 | once no reports arrive, the number of steps any schedule can take is bounded by the rank it starts with |
| AnrAgent.Progress | log/Bugreport/zflAmsUtil.java:446-516 | no activation ever blocks: one that is not finished has an enabled step |
| AnrAgent.EveryRunDrains | log/Bugreport/zflAmsUtil.java:446-516 | every schedule without further reports and failed starts that has run as far as it can has handled every report and left the flag clear |
| AnrAgent.DrainIsComplete | log/Bugreport/zflAmsUtil.java:476-498 | one uninterrupted drain leaves a suffix of the list, consumes no more than it must, and dumps exactly the records that are not expired before the first one whose dump throws |
| AnrAgent.Agent.Append | log/Bugreport/zflAmsUtil.java:446-451 | the report region: appends one record with the present time; the object's two fields stay the list and flag of a reachable protocol state |
| AnrAgent.Agent.TryClaim | log/Bugreport/zflAmsUtil.java:455-458 | the compare-and-set: wins exactly if the flag was clear, and leaves it set |
| AnrAgent.Agent.TakeNext | log/Bugreport/zflAmsUtil.java:465-469 | takes the oldest record, or none from an empty list |
| AnrAgent.Agent.Handle | log/Bugreport/zflAmsUtil.java:478-496 | what becomes of one record: skipped when expired, else dumped or thrown out of, as `throws` says; the outcome is recorded as such in the protocol state |
| AnrAgent.Agent.HandleAnr | log/Bugreport/zflAmsUtil.java:476-498 | the drain loop dumps, leaves and throws as the recursive drain does, and each of its turns is a protocol step |
| AnrAgent.Agent.Run | log/Bugreport/zflAmsUtil.java:500-516 | the life of a dump thread: it either leaves an empty list and a clear flag, or leaves records and has claimed the flag for a successor |
| Callbacks.EachDueEntryOnce | log/WebDoc/Android应用程序框架层和系统运行库层日志系统源代码分析 - 老罗的Android之旅 - 博客频道 - CSDN.NET_files/jquery.js:2 | whatever the functions being called do to the list, calls come in list order, and each entry due at the start or added meanwhile is exactly one of: called once, removed before its turn and never called, still due where the observation ends |
| Callbacks.EveryFiringCallsEachOnce | log/WebDoc/Android应用程序框架层和系统运行库层日志系统源代码分析 - 老罗的Android之旅 - 博客频道 - CSDN.NET_files/jquery.js:2 | the same for the firing asked for and for every firing asked for while it runs |
| Callbacks.PassKeeps | log/WebDoc/Android应用程序框架层和系统运行库层日志系统源代码分析 - 老罗的Android之旅 - 博客频道 - CSDN.NET_files/jquery.js:2 | over a whole firing the entries called, dropped and still due stay a partition of the entries ever due, called before due, both in order of registration |
| Callbacks.IncreasingUnique | log/WebDoc/Android应用程序框架层和系统运行库层日志系统源代码分析 - 老罗的Android之旅 - 博客频道 - CSDN.NET_files/jquery.js:2 | no registration stands in a list twice, so "once" is meant for each registration |
| Callbacks.WithoutOnly | log/WebDoc/Android应用程序框架层和系统运行库层日志系统源代码分析 - 老罗的Android之旅 - 博客频道 - CSDN.NET_files/jquery.js:2 | removal splits a list into what stays and what goes, with nothing lost or doubled |
| Callbacks.WithoutSplice | log/WebDoc/Android应用程序框架层和系统运行库层日志系统源代码分析 - 老罗的Android之旅 - 博客频道 - CSDN.NET_files/jquery.js:2 | splicing out one registration of a function does not change what is left of the list without that function |
| Callbacks.Callbacks.Push | log/WebDoc/Android应用程序框架层和系统运行库层日志系统源代码分析 - 老罗的Android之旅 - 博客频道 - CSDN.NET_files/jquery.js:2 | `add`: the new functions go to the end, in order; while firing they become due and `firingLength` stays the list length, what is behind the cursor untouched; otherwise a remembered firing is to be replayed from the first new function |
| Callbacks.Callbacks.SpliceOut | log/WebDoc/Android应用程序框架层和系统运行库层日志系统源代码分析 - 老罗的Android之旅 - 博客频道 - CSDN.NET_files/jquery.js:2 | one splice with its correction of `firingLength` and `firingIndex` removes the entry on its own side of the cursor and leaves the other side alone |
| Callbacks.Callbacks.RemoveFunction | log/WebDoc/Android应用程序框架层和系统运行库层日志系统源代码分析 - 老罗的Android之旅 - 博客频道 - CSDN.NET_files/jquery.js:2 | `remove` takes out every registration of the function, from what was called and from what is due, and keeps the order and the cursor's place among the rest |
| Callbacks.Callbacks.Request | log/WebDoc/Android应用程序框架层和系统运行库层日志系统源代码分析 - 老罗的Android之旅 - 博客频道 - CSDN.NET_files/jquery.js:2 | `fireWith`: starts a firing, queues its arguments behind one that runs, or does nothing on a disabled list or a fired `once` list |
| Callbacks.Callbacks.PerformOps | log/WebDoc/Android应用程序框架层和系统运行库层日志系统源代码分析 - 老罗的Android之旅 - 博客频道 - CSDN.NET_files/jquery.js:2 | the calls a running function makes keep the object the image of the worklist that has no cursor; what each of them does to the worklist is `PerformIs` |
| Callbacks.Callbacks.CallEach | log/WebDoc/Android应用程序框架层和系统运行库层日志系统源代码分析 - 老罗的Android之旅 - 博客频道 - CSDN.NET_files/jquery.js:2 | the cursor loop makes the calls of the worklist pass, no others, in its order |
| Callbacks.Callbacks.TearDown | log/WebDoc/Android应用程序框架层和系统运行库层日志系统源代码分析 - 老罗的Android之旅 - 博客频道 - CSDN.NET_files/jquery.js:2 | the close of `fire`: next queued firing, emptied list, or disabled list, as the flags say |
| Callbacks.Callbacks.FireNow | log/WebDoc/Android应用程序框架层和系统运行库层日志系统源代码分析 - 老罗的Android之旅 - 博客频道 - CSDN.NET_files/jquery.js:2 | `fire` and the firings asked for meanwhile make exactly the calls, with the arguments, of the recursive specification, and leave the list, memory and queue that their last one leaves |
| Callbacks.Callbacks.FireWith | log/WebDoc/Android应用程序框架层和系统运行库层日志系统源代码分析 - 老罗的Android之旅 - 博客频道 - CSDN.NET_files/jquery.js:2 | a firing from outside: the firings and the list of `Play`, none on a list that may not fire; each entry due once; the list is ready for the next call afterwards |
| Callbacks.Callbacks.AddNow | log/WebDoc/Android应用程序框架层和系统运行库层日志系统源代码分析 - 老罗的Android之旅 - 博客频道 - CSDN.NET_files/jquery.js:2 | adding to a list that remembers calls the new functions at once, with the remembered arguments, and only them: the firings and the list of `Play`; the list is ready for the next call afterwards |
| Callbacks.Callbacks.RemoveNow | log/WebDoc/Android应用程序框架层和系统运行库层日志系统源代码分析 - 老罗的Android之旅 - 博客频道 - CSDN.NET_files/jquery.js:2 | `remove` from outside takes out every registration of each of the functions and leaves the others in order |
| Callbacks.Callbacks.RunProgram | log/WebDoc/Android应用程序框架层和系统运行库层日志系统源代码分析 - 老罗的Android之旅 - 博客频道 - CSDN.NET_files/jquery.js:2 | over every program of outside `add`, `remove` and `fireWith` calls, with functions that make further ones: the firings made are those of `RunAll`, in which removals count (`RunHonours`), with their arguments and entries, and the list left is its list; in each firing every entry due is called once, in list order, unless removed before its turn, and no other calls are made |
| Callbacks.RunDrops | log/WebDoc/Android应用程序框架层和系统运行库层日志系统源代码分析 - 老罗的Android之旅 - 博客频道 - CSDN.NET_files/jquery.js:2 | over a whole program an entry loses its turn in a firing only if a function called in the run removes its function |
| Callbacks.UnremovedIsCalled | log/WebDoc/Android应用程序框架层和系统运行库层日志系统源代码分析 - 老罗的Android之旅 - 博客频道 - CSDN.NET_files/jquery.js:2 | so an entry due in a firing that came to its end, whose function no called function removes, was called in it exactly once |
| FiringLaws.OthersAre | log/WebDoc/Android应用程序框架层和系统运行库层日志系统源代码分析 - 老罗的Android之旅 - 博客频道 - CSDN.NET_files/jquery.js:2 | what stays when functions are removed (`Others`) are exactly the entries of other functions |
| FiringLaws.PerformIs | log/WebDoc/Android应用程序框架层和系统运行库层日志系统源代码分析 - 老罗的Android之旅 - 博客频道 - CSDN.NET_files/jquery.js:2 | what a running function's call does: `remove` takes every entry of its functions out, those due among them, which are dropped, and leaves all others, called or due, in their order; `add` makes new entries due behind all others, one for each function, in order, with fresh registrations; `fire` asks for one more firing, behind those asked for before, on a list that queues them, and does nothing on a `once` list |
| FiringLaws.CallIs | log/WebDoc/Android应用程序框架层和系统运行库层日志系统源代码分析 - 老罗的Android之旅 - 博客频道 - CSDN.NET_files/jquery.js:2 | what is called next is the first entry due, and calling it leaves the list as it is |
| FiringLaws.RemovalCounts | log/WebDoc/Android应用程序框架层和系统运行库层日志系统源代码分析 - 老罗的Android之旅 - 博客频道 - CSDN.NET_files/jquery.js:2 | over a whole firing: if the k-th running function makes `remove(fns)` as its m-th call, an entry due at that moment with its function in `fns` is not called afterwards in that firing and no longer due; it was dropped |
| FiringLaws.AdditionCounts | log/WebDoc/Android应用程序框架层和系统运行库层日志系统源代码分析 - 老罗的Android之旅 - 博客频道 - CSDN.NET_files/jquery.js:2 | over a whole firing: each entry that a running function adds becomes due, and from then on is exactly one of called once, dropped, still due where the observation ends |
| FiringLaws.RunHonours | log/WebDoc/Android应用程序框架层和系统运行库层日志系统源代码分析 - 老罗的Android之旅 - 博客频道 - CSDN.NET_files/jquery.js:2 | over every program of outside calls, with functions that make further ones: `RemovalCounts` holds in every firing made |
| FiringLaws.FiringsAre | log/WebDoc/Android应用程序框架层和系统运行库层日志系统源代码分析 - 老罗的Android之旅 - 博客频道 - CSDN.NET_files/jquery.js:2 | the firings of a list that queues them have the arguments of the one asked for first, of those queued by then, and of those that the called functions ask for, in the order of asking; a `once` list makes one |
| FiringLaws.FiringsFollow | log/WebDoc/Android应用程序框架层和系统运行库层日志系统源代码分析 - 老罗的Android之旅 - 博客频道 - CSDN.NET_files/jquery.js:2 | a queued firing begins when the one before it is over, and is due to call exactly the entries that this one has left |
| FiringLaws.CallsAre | log/WebDoc/Android应用程序框架层和系统运行库层日志系统源代码分析 - 老罗的Android之旅 - 博客频道 - CSDN.NET_files/jquery.js:2 | the calls of a run are those of its firings one after the other, each with its entry and with the arguments of its firing, and no others |
| FiringLaws.PlayIs | log/WebDoc/Android应用程序框架层和系统运行库层日志系统源代码分析 - 老罗的Android之旅 - 博客频道 - CSDN.NET_files/jquery.js:2 | a call from outside: `remove` leaves the entries of other functions, in order, and fires nothing; `add` puts new entries behind the others, and fires exactly these, with the remembered arguments, on a list that remembers; `fire` fires all entries with its arguments, unless the list is `once` and has fired |
| FiringLaws.DisabledIs | log/WebDoc/Android应用程序框架层和系统运行库层日志系统源代码分析 - 老罗的Android之旅 - 博客频道 - CSDN.NET_files/jquery.js:2 | nothing happens on a disabled list |
| FiringLaws.FiredIs | log/WebDoc/Android应用程序框架层和系统运行库层日志系统源代码分析 - 老罗的Android之旅 - 博客频道 - CSDN.NET_files/jquery.js:2 | what a finished firing leaves: the remaining entries on a list that queues firings, none on a `once` list that remembers, a disabled list if it does not; remembered are the arguments of the last firing |
| FiringLaws.OnceIsOnce | log/WebDoc/Android应用程序框架层和系统运行库层日志系统源代码分析 - 老罗的Android之旅 - 博客频道 - CSDN.NET_files/jquery.js:2 | a `once` list is fired at most once: whatever call follows, only functions added later are called, and only on a list that remembers, with the arguments of that firing |
| Deferred.FirstSettlementCounts | log/WebDoc/Android应用程序框架层和系统运行库层日志系统源代码分析 - 老罗的Android之旅 - 博客频道 - CSDN.NET_files/jquery.js:2 | pending exactly as long as only handlers were registered; the settlement is the first `resolve` or `reject` in the history |
| Deferred.SettledForEver | log/WebDoc/Android应用程序框架层和系统运行库层日志系统源代码分析 - 老罗的Android之旅 - 博客频道 - CSDN.NET_files/jquery.js:2 | no later call changes the settlement, and calls made by then stay the first calls made |
| SettlementLaws.CallsDue | log/WebDoc/Android应用程序框架层和系统运行库层日志系统源代码分析 - 老罗的Android之旅 - 博客频道 - CSDN.NET_files/jquery.js:2 | every handler registered for the settled side, before the settlement or after it, is due once, at the place that is the number of those registered for the side before it, with the arguments of the settlement, and nothing else is due |
| SettlementLaws.NothingDueYet | log/WebDoc/Android应用程序框架层和系统运行库层日志系统源代码分析 - 老罗的Android之旅 - 博客频道 - CSDN.NET_files/jquery.js:2 | nothing is due while only handlers were registered |
| SettlementLaws.AnsweredIs | log/WebDoc/Android应用程序框架层和系统运行库层日志系统源代码分析 - 老罗的Android之旅 - 博客频道 - CSDN.NET_files/jquery.js:2 | a request is followed by the requests of the handlers called for it, in order of the calls; as many are called as were due and not called yet, those due by the calls of others included; it ends early only where a handler has no script |
| SettlementLaws.AnswerParts | log/WebDoc/Android应用程序框架层和系统运行库层日志系统源代码分析 - 老罗的Android之旅 - 博客频道 - CSDN.NET_files/jquery.js:2 | the requests of a program are made one after the other, each with all it leads to, and the rest not at all where a part has not ended |
| SettlementLaws.AnswerOne | log/WebDoc/Android应用程序框架层和系统运行库层日志系统源代码分析 - 老罗的Android之旅 - 博客频道 - CSDN.NET_files/jquery.js:2 | one request of a program with what it leads to |
| SettlementLaws.AnswerAllIs | log/WebDoc/Android应用程序框架层和系统运行库层日志系统源代码分析 - 老罗的Android之旅 - 博客频道 - CSDN.NET_files/jquery.js:2 | a finished run has used as many scripts as handlers have become due, and its history is made of the requests of the program and of these scripts, each once |
| Deferred.Deferred.RegisterHandler | log/WebDoc/Android应用程序框架层和系统运行库层日志系统源代码分析 - 老罗的Android之旅 - 博客频道 - CSDN.NET_files/jquery.js:2 | after `done` or `fail`, made at any time and with handlers that make further calls, the calls made are those due from the history: every handler of the settled side once, in order of registration, with the arguments of the settlement, none of the other side, none while pending |
| Deferred.Deferred.SettleNow | log/WebDoc/Android应用程序框架层和系统运行库层日志系统源代码分析 - 老罗的Android之旅 - 博客频道 - CSDN.NET_files/jquery.js:2 | the same after `resolve` or `reject`; on a settled object it changes neither the state nor the calls |
| Deferred.Deferred.RunProgram | log/WebDoc/Android应用程序框架层和系统运行库层日志系统源代码分析 - 老罗的Android之旅 - 博客频道 - CSDN.NET_files/jquery.js:2 | over every program of `done`, `fail`, `resolve` and `reject` calls, with handlers that make further ones: the history is the program with the calls of each handler where the handler is called, as `AnswerAll` interleaves them, and the calls made are those due from it |
| Deferred.Deferred.PerformEach | log/WebDoc/Android应用程序框架层和系统运行库层日志系统源代码分析 - 老罗的Android之旅 - 博客频道 - CSDN.NET_files/jquery.js:2 | calls made on the object inside a handler keep what is due in step with the history |
| Deferred.Deferred.FireList | log/WebDoc/Android应用程序框架层和系统运行库层日志系统源代码分析 - 老罗的Android之旅 - 博客频道 - CSDN.NET_files/jquery.js:2 | the firing of a list runs its internal functions first, which set the state and disable the other list, then every handler due |
| Deferred.Deferred.constructor | log/WebDoc/Android应用程序框架层和系统运行库层日志系统源代码分析 - 老罗的Android之旅 - 博客频道 - CSDN.NET_files/jquery.js:2 | a new object is pending, with nothing called and its internal functions first in both lists |
| HolderList.RemoveFirstIsExact | SmartPoint/test.cpp:402-432 | removal takes exactly one occurrence of an identity out of the multiset of holders, and nothing if it is not there |
| HolderList.RemoveFirstAt | SmartPoint/test.cpp:402-432 | the occurrence that goes is the first, and the others keep their order |
| HolderList.RenameIsPointwise | SmartPoint/test.cpp:434-446 | renaming keeps length and order and leaves no entry with the old identity |
| HolderList.Holders.AddRef | SmartPoint/test.cpp:383-400 | with tracking on a new entry becomes the head of the list; the chain of entries stays the list of identities |
| HolderList.Holders.RemoveRef | SmartPoint/test.cpp:402-432 | the walk by the address of a link unlinks the first entry with the identity, at the head or inside, and tells whether there was one |
| HolderList.Holders.RenameRefsId | SmartPoint/test.cpp:434-446 | the walk renames in place, with no entry added, lost or moved |
| RefCount.Memory.Conservation | SmartPoint/test.cpp:481-516 | for each live object `mStrong` is the number of handles that point to it, `mWeak` is `mStrong` plus the number of weak references to it that are out, and the debug lists name exactly these handles and these identities |
| RefCount.Memory.FreedExactlyWhenUnheld | SmartPoint/test.cpp:550-589 | an object that was made is in memory if and only if nothing has ever held it, or a handle points to it, or a weak reference to it is out; it was freed in all other cases, once, its counts with it; no handle and no weak reference dangles |
| HandleLaws.StatementIs | SmartPoint/test.cpp:47-107 | one statement: a handle made from a pointer or assigned one holds it, one copied holds what its origin holds, both agreeing afterwards, a cleared one is null, an ended one is gone; no other handle moves; what has ever been held grows by exactly what the statement gives; exactly one weak reference more or less is out; objects are made one by one |
| HandleLaws.LastGives | SmartPoint/test.cpp:47-107 | over every program: a handle holds the pointer that the last construction, copy, assignment or clear of it gave, and is gone if that was its end |
| HandleLaws.NeverGiven | SmartPoint/test.cpp:47-107 | over every program: a handle that no statement is about stays as it was |
| HandleLaws.HeldAre | SmartPoint/test.cpp:47-107 | over every program: what has ever been held is exactly what some statement gave to a handle or a weak reference |
| HandleLaws.MadeAre | SmartPoint/test.cpp:47-107 | over every program: the objects made are as many as its `new` statements |
| HandleLaws.LegalIff | SmartPoint/test.cpp:47-107 | a run goes on with a statement if and only if the handles it uses are there, those it makes are not, its raw pointer is null or points to an object that has been made and either was never held or is held still, and the weak reference it gives back is out |
| RefCount.CountsOf | SmartPoint/test.cpp:481-516 | the counts in memory are the sizes of the multisets of holders |
| RefCount.CountsDown | SmartPoint/test.cpp:500-516 | giving back a strong count lowers both counts by one and removes this holder from both debug lists; the counts it starts from exclude the branch that deletes a strong object at line 512 |
| RefCount.CountsDownWeak | SmartPoint/test.cpp:559-589 | giving back a weak count lowers the weak count by one; it was above the strong count |
| RefCount.Memory.IncStrong | SmartPoint/test.cpp:481-498 | increments both counts and both debug lists of the object, and nothing else |
| RefCount.Memory.DecStrong | SmartPoint/test.cpp:500-516 | for a held object: frees object and counts together exactly when the weak count was 1, else lowers both counts; `delete this` at line 512 is not reached |
| RefCount.Memory.DecWeak | SmartPoint/test.cpp:559-589 | frees object and counts together exactly at the step from 1 to 0; the branch that deletes only the counts at line 578 is not reached |
| RefCount.Memory.DeleteObject | SmartPoint/test.cpp:748-768 | the destructor of an object with strong count 0 deletes its counts too |
| RefCount.LinkedImpl.RunChanges | SmartPoint/test.cpp:383-432 | over every run of increments and decrements the two linked lists of holders, walked by `next`, are the sequences of identities that the counts are modelled with |
| RefCount.Memory.CreateWeak | SmartPoint/test.cpp:731-735 | one more weak reference, under an identity that may hold some already; no other holder changes |
| RefCount.Memory.DropWeak | SmartPoint/test.cpp:559-589 | one weak reference is given back; the object goes if and only if it was the last holder |
| RefCount.Memory.Construct | SmartPoint/test.cpp:47-61 | a new handle points to what it was made from; a pointee has one more strong and one more weak count, under the handle; no other handle and no other object changes |
| RefCount.Memory.Assign | SmartPoint/test.cpp:70-91 | assignment, of the handle itself or of the pointer it holds included: afterwards the handle points to the new pointee; the old one is freed if and only if no handle points to it any more and nobody holds it weakly, and nothing else is freed |
| RefCount.Memory.Clear | SmartPoint/test.cpp:100-107 | the handle is null afterwards; frees as an assignment of null would |
| RefCount.Memory.Destroy | SmartPoint/test.cpp:63-68 | the handle is gone afterwards; frees as `clear` would |
| RefCount.LastHandle | SmartPoint/test.cpp:70-91 | when the old pointee is given back, the count says "last" exactly if no handle points to it after the assignment and nobody holds it weakly |
| RefCount.TiedMoved | SmartPoint/test.cpp:70-91 | taking the new pointee before giving back the old one ties the handle, whether or not they are the same |
| RefCount.Moved | SmartPoint/test.cpp:70-91 | handles and weak references stay exactly the holders through an assignment |
| RefCount.Memory.Run | SmartPoint/test.cpp:47-107 | over every program of constructions, copies, assignments, `clear`, destructions, weak references and their release, the handles, the weak references out, the objects ever held and the number made are what the program alone determines (`AfterAll`), and conservation and the absence of dangling references hold after each statement; with `FreedExactlyWhenUnheld` the program determines what is in memory; what the statements give to the handles is `StatementIs` and `LastGives` |
| CallbackQueue.LawfulIsSound | log/WebDoc/Android应用程序框架层和系统运行库层日志系统源代码分析 - 老罗的Android之旅 - 博客频道 - CSDN.NET_files/MathJax.js:19 | over every lawful history, one in which an item is taken only from the front of a queue neither suspended nor waiting, and each item ends as its kind does, innermost first: everything pushed has been started once, or stands behind what runs, or is queued |
| CallbackQueue.LawfulIsOrdered | log/WebDoc/Android应用程序框架层和系统运行库层日志系统源代码分析 - 老罗的Android之旅 - 博客频道 - CSDN.NET_files/MathJax.js:19 | over every lawful history in which no callback started inside another: what was started, followed by what stands behind and what is queued, is what was pushed, in order |
| CallbackQueue.NothingStartsWhileWaiting | log/WebDoc/Android应用程序框架层和系统运行库层日志系统源代码分析 - 老罗的Android之旅 - 博客频道 - CSDN.NET_files/MathJax.js:19 | once the queue has begun to wait for a callback object, one that was pushed and came to its turn uncalled or one that a callback returned, nothing starts until that one has ended |
| QueueLaws.StartsOnlyAfterBegun | log/WebDoc/Android应用程序框架层和系统运行库层日志系统源代码分析 - 老罗的Android之旅 - 博客频道 - CSDN.NET_files/MathJax.js:19 | a callback object that had not begun when it was pushed is waited for: over every lawful history without a start inside another, nothing pushed behind it starts before it has begun |
| QueueLaws.RunStartsOnlyAfterBegun | log/WebDoc/Android应用程序框架层和系统运行库层日志系统源代码分析 - 老罗的Android之旅 - 博客频道 - CSDN.NET_files/MathJax.js:19 | the same over every run of a program on a new queue, with all behaviour of its callbacks, none of which nests |
| QueueLaws.PushedAs | log/WebDoc/Android应用程序框架层和系统运行库层日志系统源代码分析 - 老罗的Android之旅 - 博客频道 - CSDN.NET_files/MathJax.js:19 | a function pushed is to be run; a callback object pushed is to be waited for if no call of it has begun before the push, and passed over if one has |
| QueueLaws.StartedAre | log/WebDoc/Android应用程序框架层和系统运行库层日志系统源代码分析 - 老罗的Android之旅 - 博客频道 - CSDN.NET_files/MathJax.js:19 | what starts is what was pushed, place by place |
| QueueLaws.BegunHoldsNothing | log/WebDoc/Android应用程序框架层和系统运行库层日志系统源代码分析 - 老罗的Android之旅 - 博客频道 - CSDN.NET_files/MathJax.js:19 | a callback object that had begun when it was pushed holds nothing back: at its turn it is passed over, and nothing else changes |
| QueueLaws.ReturnedIsAwaitedIff | log/WebDoc/Android应用程序框架层和系统运行库层日志系统源代码分析 - 老罗的Android之旅 - 博客频道 - CSDN.NET_files/MathJax.js:19 | a callback object that a callback returns is waited for once more if and only if it has not begun |
| QueueLaws.ReturnedNothing | log/WebDoc/Android应用程序框架层和系统运行库层日志系统源代码分析 - 老罗的Android之旅 - 博客频道 - CSDN.NET_files/MathJax.js:19 | a callback that returns nothing changes no wait |
| QueueLaws.EndIs | log/WebDoc/Android应用程序框架层和系统运行库层日志系统源代码分析 - 老罗的Android之旅 - 博客频道 - CSDN.NET_files/MathJax.js:19 | the end of a callback object that has begun leaves nobody waiting for it: its waiters are released, or wait for the one it returns if that has not begun, each once; no other wait changes; the end of one that has not begun changes nothing |
| QueueLaws.GoesOn | log/WebDoc/Android应用程序框架层和系统运行库层日志系统源代码分析 - 老罗的Android之旅 - 博客频道 - CSDN.NET_files/MathJax.js:19 | after a push or a call on a queue that is neither suspended nor waiting, and after the end of the callback object that alone it waits for, the first item queued is taken at once |
| QueueLaws.NothingElseGoesOn | log/WebDoc/Android应用程序框架层和系统运行库层日志系统源代码分析 - 老罗的Android之旅 - 博客频道 - CSDN.NET_files/MathJax.js:19 | no other call starts anything, `Resume` included |
| QueueLaws.NothingStartsWhileSuspended | log/WebDoc/Android应用程序框架层和系统运行库层日志系统源代码分析 - 老罗的Android之旅 - 博客频道 - CSDN.NET_files/MathJax.js:19 | after a suspension, and while an item taken has not ended, nothing starts unless the queue is resumed |
| QueueLaws.ResumeUndoes | log/WebDoc/Android应用程序框架层和系统运行库层日志系统源代码分析 - 老罗的Android之旅 - 博客频道 - CSDN.NET_files/MathJax.js:19 | `Resume` undoes one suspension, and does nothing on a queue that is not suspended |
| CallbackQueue.RunIsLawful | log/WebDoc/Android应用程序框架层和系统运行库层日志系统源代码分析 - 老罗的Android之旅 - 博客频道 - CSDN.NET_files/MathJax.js:19 | every run of a program, with all behaviour of its callbacks, is lawful; the program's calls are made, in its order, and those of each callback that ran, each once and no others; a run that the script cuts short stands where the next callback would start |
| CallbackQueue.ProcessPart | log/WebDoc/Android应用程序框架层和系统运行库层日志系统源代码分析 - 老罗的Android之旅 - 博客频道 - CSDN.NET_files/MathJax.js:19 | `Process` does nothing on a queue that is suspended, waiting or empty, and on any other starts something, unless the script has run out; it stops only on such a queue or where the script has run out; it is lawful, and the calls made are those of the callbacks that ran |
| CallbackQueue.OpPart | log/WebDoc/Android应用程序框架层和系统运行库层日志系统源代码分析 - 老罗的Android之旅 - 博客频道 - CSDN.NET_files/MathJax.js:19 | any one call is made first, and then only those of the callbacks it lets run; it starts something, unless the script has run out, if it leads to `Process`, a push, a call of the queue or the end of its last wait, and leaves the queue ready, and otherwise nothing follows it |
| CallbackQueue.NestIff | log/WebDoc/Android应用程序框架层和系统运行库层日志系统源代码分析 - 老罗的Android之旅 - 博客频道 - CSDN.NET_files/MathJax.js:19 | another callback starts inside a running one if and only if that one resumes the queue more often than it has suspended it and then pushes, or calls the queue after a push (`Nests`) |
| CallbackQueue.NestedIff | log/WebDoc/Android应用程序框架层和系统运行库层日志系统源代码分析 - 老罗的Android之旅 - 博客频道 - CSDN.NET_files/MathJax.js:19 | in a finished run some callback has started inside another if and only if one that ran nests; in an unfinished one, only if |
| CallbackQueue.FirstInFirstOut | log/WebDoc/Android应用程序框架层和系统运行库层日志系统源代码分析 - 老罗的Android之旅 - 博客频道 - CSDN.NET_files/MathJax.js:19 | a run in which no callback that ran nests keeps push order |
| CallbackQueue.PushedByRun | log/WebDoc/Android应用程序框架层和系统运行库层日志系统源代码分析 - 老罗的Android之旅 - 博客频道 - CSDN.NET_files/MathJax.js:19 | what is pushed in a finished run are the arguments that the program and the callbacks that ran push, as a multiset |
| CallbackQueue.NeverResumed | log/WebDoc/Android应用程序框架层和系统运行库层日志系统源代码分析 - 老罗的Android之旅 - 博客频道 - CSDN.NET_files/MathJax.js:19 | a program that never resumes the queue leaves nothing that could start |
| CallbackQueue.Queue.Append | log/WebDoc/Android应用程序框架层和系统运行库层日志系统源代码分析 - 老罗的Android之旅 - 博客频道 - CSDN.NET_files/MathJax.js:19 | arguments join the queue behind all others, in order, functions to be run, callback objects to be waited for unless they have begun (`PushedAs`) |
| CallbackQueue.Queue.WaitFor | log/WebDoc/Android应用程序框架层和系统运行库层日志系统源代码分析 - 老罗的Android之旅 - 博客频道 - CSDN.NET_files/MathJax.js:19 | `WAITFOR`: one more call to wait for, unless it has been made |
| CallbackQueue.Queue.Signal | log/WebDoc/Android应用程序框架层和系统运行库层日志系统源代码分析 - 老罗的Android之旅 - 博客频道 - CSDN.NET_files/MathJax.js:19 | `WAITEXECUTE`: the end of a callback somebody waits for releases its waiters once each, or makes them wait for the uncalled callback it returns; the queue is called exactly when the last wait ends |
| CallbackQueue.Queue.RunOps | log/WebDoc/Android应用程序框架层和系统运行库层日志系统源代码分析 - 老罗的Android之旅 - 博客频道 - CSDN.NET_files/MathJax.js:19 | the calls of a callback or a program: the events are exactly those of the specification `AfterOps`, and the fields are what these events make of them |
| CallbackQueue.Queue.Push | log/WebDoc/Android应用程序框架层和系统运行库层日志系统源代码分析 - 老罗的Android之旅 - 博客频道 - CSDN.NET_files/MathJax.js:19 | as `AfterOp` of the push: the arguments are pushed first, and then the queue is processed if it is idle |
| CallbackQueue.Queue.Executed | log/WebDoc/Android应用程序框架层和系统运行库层日志系统源代码分析 - 老罗的Android之旅 - 博客频道 - CSDN.NET_files/MathJax.js:19 | as `AfterOp` of the end of a callback object: the queue goes on if it was waiting for this one last |
| CallbackQueue.Queue.DoCall | log/WebDoc/Android应用程序框架层和系统运行库层日志系统源代码分析 - 老罗的Android之旅 - 博客频道 - CSDN.NET_files/MathJax.js:19 | as `AfterOp` of a call of the queue, which is `Process` |
| CallbackQueue.PushedAre | log/WebDoc/Android应用程序框架层和系统运行库层日志系统源代码分析 - 老罗的Android之旅 - 博客频道 - CSDN.NET_files/MathJax.js:19 | what was pushed are the arguments of the push calls, in the order of the calls |
| CallbackQueue.ArgsOfSame | log/WebDoc/Android应用程序框架层和系统运行库层日志系统源代码分析 - 老罗的Android之旅 - 博客频道 - CSDN.NET_files/MathJax.js:19 | the same calls push the same arguments, in whatever order they are made |
| CallbackQueue.Queue.Perform | log/WebDoc/Android应用程序框架层和系统运行库层日志系统源代码分析 - 老罗的Android之旅 - 博客频道 - CSDN.NET_files/MathJax.js:19 | any one call on the queue: the events are exactly those of the specification `AfterOp` |
| CallbackQueue.Queue.Process | log/WebDoc/Android应用程序框架层和系统运行库层日志系统源代码分析 - 老罗的Android之旅 - 博客频道 - CSDN.NET_files/MathJax.js:19 | the loop, entered from outside or below running callbacks: the events are exactly those of the specification `AfterProcess`, each item taken from a queue that is ready, and ended as its kind does, a pushed callback object by being waited for |
| CallbackQueue.Queue.RunProgram | log/WebDoc/Android应用程序框架层和系统运行库层日志系统源代码分析 - 老罗的Android之旅 - 博客频道 - CSDN.NET_files/MathJax.js:19 | over every program and all behaviour of its callbacks, what happens is the run of the specification, which is lawful (`RunIsLawful`), and the fields are what it makes of them; everything pushed is started once or queued, in push order if no callback that ran nests; a finished run has a start inside another if and only if one that ran nests |
| CallbackQueue.BalancedNeverNests | log/WebDoc/Android应用程序框架层和系统运行库层日志系统源代码分析 - 老罗的Android之旅 - 博客频道 - CSDN.NET_files/MathJax.js:19 | a callback that never resumes the queue more often than it has suspended it starts no other inside itself |
| CallbackQueue.NestedStart | log/WebDoc/Android应用程序框架层和系统运行库层日志系统源代码分析 - 老罗的Android之旅 - 博客频道 - CSDN.NET_files/MathJax.js:19 | a concrete run of seven events: a callback resumes the queue and pushes; what it pushed starts inside it, before an item pushed earlier |
| MessageList.MostRecentFirst | log/WebDoc/Android应用程序框架层和系统运行库层日志系统源代码分析 - 老罗的Android之旅 - 博客频道 - CSDN.NET_files/MathJax.js:19 | after every run of `Set` and `Clear`, repeated ones included, exactly the messages set and not cleared since are active, the one activated last first |
| MessageList.Messages.SetMessage | log/WebDoc/Android应用程序框架层和系统运行库层日志系统源代码分析 - 老罗的Android之旅 - 博客频道 - CSDN.NET_files/MathJax.js:19 | `Set` keeps the links: `next` runs down the active messages to null, `prev` is its inverse, inactive entries have no links; an active message is not moved |
| MessageList.Messages.ClearMessage | log/WebDoc/Android应用程序框架层和系统运行库层日志系统源代码分析 - 老罗的Android之旅 - 博客频道 - CSDN.NET_files/MathJax.js:19 | `Clear`, of an inactive message too, keeps the links; the neighbours are joined and `current` moved on |
| MessageList.Messages.Walk | log/WebDoc/Android应用程序框架层和系统运行库层日志系统源代码分析 - 老罗的Android之旅 - 博客频道 - CSDN.NET_files/MathJax.js:19 | following `next` from `current` ends, and visits exactly the active messages, once each, in order |
| MessageList.Messages.RunProgram | log/WebDoc/Android应用程序框架层和系统运行库层日志系统源代码分析 - 老罗的Android之旅 - 博客频道 - CSDN.NET_files/MathJax.js:19 | after every run of `Set` and `Clear` calls following `next` visits the messages that `MostRecentFirst` describes |
| MessageList.RemoveIsExact | log/WebDoc/Android应用程序框架层和系统运行库层日志系统源代码分析 - 老罗的Android之旅 - 博客频道 - CSDN.NET_files/MathJax.js:19 | clearing takes out this message and no other |
| CommentForest.ForestIsComplete | log/WebDoc/Android应用程序框架层和系统运行库层日志系统源代码分析 - 老罗的Android之旅 - 博客频道 - CSDN.NET_files/comment.js:91-113 | for distinct, non-zero identities and arbitrary parents, the flattened forest holds a comment once if its parent chain reaches 0, and otherwise (an orphan, or on a cycle) not at all |
| CommentForest.UniquePath | log/WebDoc/Android应用程序框架层和系统运行库层日志系统源代码分析 - 老罗的Android之旅 - 博客频道 - CSDN.NET_files/comment.js:91-113 | for distinct, non-zero identities a comment has at most one chain of replies to a topic |
| CommentForest.RecursionEndsIff | log/WebDoc/Android应用程序框架层和系统运行库层日志系统源代码分析 - 老罗的Android之旅 - 博客频道 - CSDN.NET_files/comment.js:103-113 | for every list: the chains of replies that the recursion goes down are bounded if and only if none of them comes back to a comment (`NoLoops`) |
| CommentForest.ReturnsIff | log/WebDoc/Android应用程序框架层和系统运行库层日志系统源代码分析 - 老罗的Android之旅 - 博客频道 - CSDN.NET_files/comment.js:91-113 | for every list: the recursion itself, with a bound on nested calls, returns if and only if no chain of replies is longer than the bound |
| CommentForest.ReturnsAtAllIff | log/WebDoc/Android应用程序框架层和系统运行库层日志系统源代码分析 - 老罗的Android之旅 - 博客频道 - CSDN.NET_files/comment.js:91-113 | for every list: some bound is enough if and only if no chain of replies comes back to a comment; otherwise the recursion is endless |
| CommentForest.ReturnsForest | log/WebDoc/Android应用程序框架层和系统运行库层日志系统源代码分析 - 老罗的Android之旅 - 博客频道 - CSDN.NET_files/comment.js:91-113 | what the recursion returns, whenever it does, is the forest |
| CommentForest.PathBound | log/WebDoc/Android应用程序框架层和系统运行库层日志系统源代码分析 - 老罗的Android之旅 - 博客频道 - CSDN.NET_files/comment.js:103-113 | without such a chain the recursion is no deeper than the list is long |
| CommentForest.GoodIdsHaveNoLoops | log/WebDoc/Android应用程序框架层和系统运行库层日志系统源代码分析 - 老罗的Android之旅 - 博客频道 - CSDN.NET_files/comment.js:103-113 | distinct, non-zero identities exclude chains that come back, whatever the parents |
| CommentForest.ForestShowsRooted | log/WebDoc/Android应用程序框架层和系统运行库层日志系统源代码分析 - 老罗的Android之旅 - 博客频道 - CSDN.NET_files/comment.js:91-113 | for every list on which the recursion ends: a comment is shown if and only if its parent chain reaches 0 |
| CommentForest.BlockWithin | log/WebDoc/Android应用程序框架层和系统运行库层日志系统源代码分析 - 老罗的Android之旅 - 博客频道 - CSDN.NET_files/comment.js:91-113 | everything below a comment is one block that starts with the comment and lies inside the block of each of its ancestors, behind the ancestor |
| CommentForest.SiblingsInOrder | log/WebDoc/Android应用程序框架层和系统运行库层日志系统源代码分析 - 老罗的Android之旅 - 博客频道 - CSDN.NET_files/comment.js:91-113 | siblings, topics included, come in list order, each with its whole block |
| CommentForest.ChildrenInListOrder | log/WebDoc/Android应用程序框架层和系统运行库层日志系统源代码分析 - 老罗的Android之旅 - 博客频道 - CSDN.NET_files/comment.js:103-113 | replies keep the order of the list |
| CommentForest.LoopsOrNot | log/WebDoc/Android应用程序框架层和系统运行库层日志系统源代码分析 - 老罗的Android之旅 - 博客频道 - CSDN.NET_files/comment.js:103-113 | concrete lists: two whose comments share an identity and two with an identity of 0, of each pair one with an endless recursion and one without |
| CommentForest.GetReplies | log/WebDoc/Android应用程序框架层和系统运行库层日志系统源代码分析 - 老罗的Android之旅 - 博客频道 - CSDN.NET_files/comment.js:103-113 | for every list on which the recursion ends: returns exactly the replies to the comment in list order, fills `Replies` of exactly the comments below it, and touches no other |
| CommentForest.GetTopics | log/WebDoc/Android应用程序框架层和系统运行库层日志系统源代码分析 - 老罗的Android之旅 - 博客频道 - CSDN.NET_files/comment.js:91-101 | for every list on which the recursion ends: returns the topics in list order and fills `Replies` of exactly the comments whose parent chain reaches 0 |
| CommentForest.GetItemHtml | log/WebDoc/Android应用程序框架层和系统运行库层日志系统源代码分析 - 老罗的Android之旅 - 博客频道 - CSDN.NET_files/comment.js:115-141 | shows the comment and all below it in pre-order, each at the depth of its parent chain |
| CommentForest.ShowList | log/WebDoc/Android应用程序框架层和系统运行库层日志系统源代码分析 - 老罗的Android之旅 - 博客频道 - CSDN.NET_files/comment.js:61-72 | for every list on which the recursion ends: shows the whole forest, with `ForestShowsRooted` every rooted comment and no other, with `ForestIsComplete` once each |
| Highlighter.ComparatorIsConsistent | log/WebDoc/Android应用程序框架层和系统运行库层日志系统源代码分析 - 老罗的Android之旅 - 博客频道 - CSDN.NET_files/newblog.js:515-525 | the comparator is a total preorder, and its ties are equal spans |
| Highlighter.ComparatorOrders | log/WebDoc/Android应用程序框架层和系统运行库层日志系统源代码分析 - 老罗的Android之旅 - 博客频道 - CSDN.NET_files/newblog.js:515-525 | it puts first what starts earlier, and of those that start together the shorter |
| Highlighter.ShownAreDisjoint | log/WebDoc/Android应用程序框架层和系统运行库层日志系统源代码分析 - 老罗的Android之旅 - 博客频道 - CSDN.NET_files/newblog.js:563-573 | matches that are shown are disjoint unless they start together; every dropped match starts strictly inside one that is shown |
| Highlighter.TiesShareTheirFate | log/WebDoc/Android应用程序框架层和系统运行库层日志系统源代码分析 - 老罗的Android之旅 - 博客频道 - CSDN.NET_files/newblog.js:674-678 | whether matches with one start are dropped does not depend on how the sort arranges ties |
| Highlighter.TextIsKeptIff | log/WebDoc/Android应用程序框架层和系统运行库层日志系统源代码分析 - 老罗的Android之旅 - 博客频道 - CSDN.NET_files/newblog.js:679-686 | the text of the emitted bits is the code if and only if no two of the matches shown start together; it is never shorter; the styled bits are exactly the matches shown, in order, each with its style |
| Highlighter.ShownBitsAre | log/WebDoc/Android应用程序框架层和系统运行库层日志系统源代码分析 - 老罗的Android之旅 - 博客频道 - CSDN.NET_files/newblog.js:679-686 | the styled bits are those of the matches shown, each with its text and style, behind those of the matches before it, and there are no others |
| Highlighter.DistinctStartsKeepTheText | log/WebDoc/Android应用程序框架层和系统运行库层日志系统源代码分析 - 老罗的Android之旅 - 博客频道 - CSDN.NET_files/newblog.js:646-686 | matches found at distinct starts never share one, so then the text is kept |
| Highlighter.SharedStartRepeats | log/WebDoc/Android应用程序框架层和系统运行库层日志系统源代码分析 - 老罗的Android之旅 - 博客频道 - CSDN.NET_files/newblog.js:679-686 | two matches of `int` at one place: the word is emitted twice |
| Highlighter.Highlighter.IsInside | log/WebDoc/Android应用程序框架层和系统运行库层日志系统源代码分析 - 老罗的Android之旅 - 博客频道 - CSDN.NET_files/newblog.js:563-573 | true exactly for a nonempty match that starts strictly inside some match left in the list |
| Highlighter.Highlighter.DropInside | log/WebDoc/Android应用程序框架层和系统运行库层日志系统源代码分析 - 老罗的Android之旅 - 博客频道 - CSDN.NET_files/newblog.js:675-678 | the loop that nulls slots of the list it searches leaves exactly the survivors, each in its slot |
| Highlighter.Highlighter.EmitMatches | log/WebDoc/Android应用程序框架层和系统运行库层日志系统源代码分析 - 老罗的Android之旅 - 博客频道 - CSDN.NET_files/newblog.js:679-685 | the loop with the cursor `q` emits the bits of the survivors and stops at the end of the last one shown |
| Highlighter.Highlighter.Highlight | log/WebDoc/Android应用程序框架层和系统运行库层日志系统源代码分析 - 老罗的Android之旅 - 博客频道 - CSDN.NET_files/newblog.js:646-686 | all of it: the emitted text is the code if and only if no two matches shown share a start, nothing is lost, the styled bits are the matches shown |
| SmartTabs.TabsStopAtMultiples | log/WebDoc/Android应用程序框架层和系统运行库层日志系统源代码分析 - 老罗的Android之旅 - 博客频道 - CSDN.NET_files/newblog.js:587-593 | what follows a tab stands at the least multiple of 4 beyond what precedes the tab |
| SmartTabs.ExpandConcat | log/WebDoc/Android应用程序框架层和系统运行库层日志系统源代码分析 - 老罗的Android之旅 - 博客频道 - CSDN.NET_files/newblog.js:587-593 | expansion of the rest of a line depends only on the column its first part ends at |
| SmartTabs.OnlyWhiteSpaceChanges | log/WebDoc/Android应用程序框架层和系统运行库层日志系统源代码分析 - 老罗的Android之旅 - 博客频道 - CSDN.NET_files/newblog.js:587-593 | no tab is left, line ends stay, and nothing but white space changes |
| SmartTabs.ReplaceFirst | log/WebDoc/Android应用程序框架层和系统运行库层日志系统源代码分析 - 老罗的Android之旅 - 博客频道 - CSDN.NET_files/newblog.js:587-593 | replacing the first tab by `4 - l % 4` spaces keeps the one-pass result and leaves one tab less |
| SmartTabs.ExpandLine | log/WebDoc/Android应用程序框架层和系统运行库层日志系统源代码分析 - 老罗的Android之旅 - 博客频道 - CSDN.NET_files/newblog.js:587-593 | the loop over `indexOf` ends and yields what one pass with a column counter does |
| SmartTabs.ProcessSmartTabs | log/WebDoc/Android应用程序框架层和系统运行库层日志系统源代码分析 - 老罗的Android之旅 - 博客频道 - CSDN.NET_files/newblog.js:578-598 | the lines of the result are the expanded lines of the code, in order, and one empty line more |
| SmartTabs.SplitLines | log/WebDoc/Android应用程序框架层和系统运行库层日志系统源代码分析 - 老罗的Android之旅 - 博客频道 - CSDN.NET_files/newblog.js:594-597 | splitting the joined lines gives them back, with an empty line behind the last line end |
| SmartTabs.JoinedSplit | log/WebDoc/Android应用程序框架层和系统运行库层日志系统源代码分析 - 老罗的Android之旅 - 博客频道 - CSDN.NET_files/newblog.js:594-597 | for every code: joining the pieces it is split into with line ends gives it back, what is behind its last line end included |
| ConfigMerge.ReplaceItems | android-build/script_n_release.py:39-45 | the loop that changes the list it iterates over and finds the place by value replaces every line that mentions the key and no other, for all lists, duplicates included |
| ConfigMerge.MergeIs | android-build/script_n_release.py:28-48 | for every file and sound settings: each line becomes the last setting of the first key that finds it, and the keys that find no line are appended in the order they are first set |
| ConfigMerge.LastSettingWins | android-build/script_n_release.py:28-48 | for every file and sound settings: every key set is in the merged file, and all lines that mention it are its last setting |
| ConfigMerge.SoundWins | android-build/script_n_release.py:28-48 | the last of sound settings meets the condition of `LastSettingWinsIff` |
| ConfigMerge.LastSettingWinsIff | android-build/script_n_release.py:28-48 | for every file and any settings: the last setting of a key is all that the merged file says of the key if and only if it or an equal later line is left, and no later setting leaves another line that mentions the key; the file itself does not matter |
| ConfigMerge.MergedLine | android-build/script_n_release.py:28-48 | for every file and any settings: each place of the file stays; a line that mentions no key set stays as it was, and every other line is a setting that was written |
| ConfigMerge.OtherLinesStay | android-build/script_n_release.py:28-48 | for every file and any settings: a line that mentions no key set keeps its place and its text |
| ConfigMerge.MergeIsIdempotent | android-build/script_n_release.py:28-48 | for every file and sound settings: merging the same settings once more changes nothing |
| ConfigMerge.SettingMentionsItsKey | android-build/script_n_release.py:33-41 | a setting whose key has no white space becomes a line that mentions the key, as `=n` rendered "is not set" too |
| ConfigText.SettingOf | android-build/script_n_release.py:30-32 | a line sets what stands in it between white space, unless that is empty or begins with `#` |
| ConfigText.SettingsConcat | android-build/script_n_release.py:28-32 | the settings of a file are those of its lines, in order |
| ConfigText.SettingsOfOne | android-build/script_n_release.py:28-32 | and a line gives one setting or none |
| ConfigText.MentionsIff | android-build/script_n_release.py:39-41 | a line mentions a key if and only if the key stands in it between `=`, blanks and the ends of the line |
| ConfigText.KeyOf | android-build/script_n_release.py:33-33 | what is before the first `=` is the key, and a line without `=` is a key |
| ConfigText.WrittenAs | android-build/script_n_release.py:34-37 | what is written for `key=value`: "# key is not set" if source and target differ and the value is `n`, the setting itself in every other case, with a line end |
| ConfigText.NotSetSetsNothing | android-build/script_n_release.py:30-37 | what is written for `key=n` is read by a later merge as a comment, so it sets nothing |
| ConfigText.MalformedIff | android-build/script_n_release.py:33-35 | a setting raises an exception exactly if source and target differ and it has no `=` |
| ConfigText.JoinConcat | android-build/script_n_release.py:53-53 | the text written is that of the lines one after the other |
| ConfigText.JoinOne | android-build/script_n_release.py:53-53 | and that of one line is the line |
| ConfigMerge.ApplyContains | android-build/script_n_release.py:39-48 | for all lines: after one setting a line is there if and only if it is the setting's own, or was there and does not mention the key |
| ConfigMerge.ApplyFindsIff | android-build/script_n_release.py:39-48 | for all lines: after one setting a key is mentioned if and only if the new line mentions it, or an old line does that does not mention the key set |
| ConfigMerge.MergeContains | android-build/script_n_release.py:28-48 | for all lines and settings: a line is in the merged file if and only if it was there and no setting has a key it mentions, or some setting wrote it and none after that one has such a key |
| ConfigMerge.MergeFindsIff | android-build/script_n_release.py:28-48 | for all lines and settings: exactly which keys the merged file mentions |
| ConfigMerge.SettingIsLostIff | android-build/script_n_release.py:28-48 | for all lines and settings: a setting's line is missing from the merged file if and only if some later setting has a key that the line mentions and neither it nor a setting after it writes the same line |
| ConfigMerge.AmbiguousLineLosesKey | android-build/script_n_release.py:39-45 | the witness: a line that mentions two keys; setting the second leaves no line that mentions the first, in one list and in two |
| ConfigMerge.Files.ReplaceConf | android-build/script_n_release.py:15-57 | fails exactly for a missing file, or a setting without `=` when source and target differ, and then writes nothing; otherwise writes the merge to the target and changes no other file |
| ConfigMerge.WrittenIsRead | android-build/script_n_release.py:28-37 | a setting written unchanged is read back as the same setting |
| ConfigMerge.WrittenLinesIff | android-build/script_n_release.py:53-53 | written lines are read back as they were if and only if all but the last have their line ends |
| ConfigMerge.MergedIsReadBackIff | android-build/script_n_release.py:18-53 | for every file and any settings: a merged file is read back as the merged lines if and only if the source ends with a line end, or nothing is appended, or its last line is replaced |
| ConfigMerge.UnterminatedFileLosesSetting | android-build/script_n_release.py:47-53 | a source without its last line end: the appended setting runs into the last line |
| ConfigMerge.FirstStageIff | android-build/script_n_release.py:141-142 | for every remove list and a sound whitelist: the temporary list holds the whitelist's last setting of a key, or else the remove list's, if and only if no line is stale, or else the remove list's last setting survives in a line that mentions no key of the whitelist (`Layered`) |
| ConfigMerge.PlainIsLayered | android-build/script_n_release.py:141-142 | a condition to check line by line: each line that sets the key mentions it, and no other key |
| ConfigMerge.WhitelistWinsIff | android-build/script_n_release.py:141-142 | for every remove list and a sound whitelist: a key of the whitelist has the whitelist's last setting in the temporary list if and only if the remove list has no stale line, one that sets the key to something else and mentions no key of the whitelist, while the whitelist's setting replaces some line but none behind it, and no unreplaced line behind it holds that setting |
| ConfigMerge.TabIndentedSettingWins | android-build/script_n_release.py:28-48 | the witness: a setting of the remove list that is indented by a tab is not found by the search for its key, stays, and beats the whitelist's |
| ConfigMerge.MergedSettings | android-build/script_n_release.py:141-142 | for any two lists: every setting of the temporary list is one of the two lists' |
| ConfigMerge.LayeredOverrideIff | android-build/script_n_release.py:133-147 | for every source and remove list and a sound whitelist: the temporary list has the wanted setting of a key, and the result says it and nothing else of the key, if and only if the first stage keeps the layers (`Layered`) and the last setting of the temporary list wins in the second (`LastWins`) |
| ConfigMerge.LayeredOverride | android-build/script_n_release.py:133-147 | so it is, for every source, for sound settings of both lists and a key for which the first stage keeps the layers: the result says the whitelist's last setting, or else the remove list's, with `=n` as "is not set" |
| ConfigMerge.LayersLeaveOthers | android-build/script_n_release.py:133-147 | for any three files: lines of the source that mention no key of either list keep their place and text through both stages |
| ConfigMerge.Files.Release | android-build/script_n_release.py:125-151 | the main program on files: it starts exactly if there is a remove list, and then the files are those of `Released`: the target gets the merge over the temporary list, or stays as it was; the temporary list is removed; no other file changes |
| ConfigText.TempListAsWritten | android-build/script_n_release.py:133-142 | the temporary list is the remove list with the whitelist's settings written into it as they are, or the remove list alone if there is no whitelist |
| ConfigText.ReleasedInPlace | android-build/script_n_release.py:125-151 | where source and target are one file the settings are written as they are, `n` included, and none raises an exception |
| ConfigText.ReleasedOthers | android-build/script_n_release.py:125-151 | only the target changes, and that only if there is a source; the temporary list is gone |
| ConfigMerge.ReleaseIsLayered | android-build/script_n_release.py:125-151 | the target file that `Release` leaves, read back as lines, has the layered override under the exact conditions of `LayeredOverrideIff`, whenever both merges are read back (`MergedIsReadBackIff`) |
| ConfigMerge.ReleaseLeavesOthers | android-build/script_n_release.py:125-151 | the target file that `Release` leaves, read back as lines, has every source line that mentions no key of either list in its place as it was, for any lines and settings |
| ConfigMerge.SoundIsWellFormed | android-build/script_n_release.py:33-37 | sound settings have the `=` that `replace_conf` splits at, so none of them raises an exception |
| ExpiringCache.RunAgrees | log/WebDoc/Android应用程序框架层和系统运行库层日志系统源代码分析 - 老罗的Android之旅 - 博客频道 - CSDN.NET_files/web-storage-cache.js:7 | over every run with a clock that does not go back, on any storage, other scripts' data included, a storage whose expired items are removed returns what one that never removes them returns |
| ExpiringCache.CallAgrees | log/WebDoc/Android应用程序框架层和系统运行库层日志系统源代码分析 - 老罗的Android之旅 - 博客频道 - CSDN.NET_files/web-storage-cache.js:7 | one call keeps two storages that look the same looking the same, and returns the same |
| ExpiringCache.CollectionIsInvisible | log/WebDoc/Android应用程序框架层和系统运行库层日志系统源代码分析 - 老罗的Android之旅 - 博客频道 - CSDN.NET_files/web-storage-cache.js:7 | inserting `deleteAllExpires` anywhere in a run changes no other result |
| ExpiringCache.GetReturnsLastStored | log/WebDoc/Android应用程序框架层和系统运行库层日志系统源代码分析 - 老罗的Android之旅 - 博客频道 - CSDN.NET_files/web-storage-cache.js:7 | after the last call that stored under a key, be it `set`, `add`, `replace` or `touch`, with any calls behind it that do not store or delete under the key, failing ones on it included, `get` returns the value stored if and only if now is before the expiry, and null otherwise |
| StorageLaws.SetForSeconds | log/WebDoc/Android应用程序框架层和系统运行库层日志系统源代码分析 - 老罗的Android之旅 - 博客频道 - CSDN.NET_files/web-storage-cache.js:7 | a value stored for a number of seconds other than 0 is returned for that many times 1000 ms, and null from then on |
| StorageLaws.SetUntil | log/WebDoc/Android应用程序框架层和系统运行库层日志系统源代码分析 - 老罗的Android之旅 - 博客频道 - CSDN.NET_files/web-storage-cache.js:7 | a value stored until a date is returned before it, and null from then on |
| StorageLaws.SetForEver | log/WebDoc/Android应用程序框架层和系统运行库层日志系统源代码分析 - 老罗的Android之旅 - 博客频道 - CSDN.NET_files/web-storage-cache.js:7 | without a limit, or with one of 0 seconds, it is returned up to the last second of the year 9999 |
| StorageLaws.SetBadly | log/WebDoc/Android应用程序框架层和系统运行库层日志系统源代码分析 - 老罗的Android之旅 - 博客频道 - CSDN.NET_files/web-storage-cache.js:7 | a limit that is no date throws and changes nothing |
| StorageLaws.SetElsewhere | log/WebDoc/Android应用程序框架层和系统运行库层日志系统源代码分析 - 老罗的Android之旅 - 博客频道 - CSDN.NET_files/web-storage-cache.js:7 | `set` changes what `get` returns for no other key |
| StorageLaws.DeletedIsNull | log/WebDoc/Android应用程序框架层和系统运行库层日志系统源代码分析 - 老罗的Android之旅 - 博客频道 - CSDN.NET_files/web-storage-cache.js:7 | after `delete`, after storing `undefined`, and after `clear`, `get` returns null; `delete` and storing `undefined` change no other key |
| StorageLaws.OthersAreNull | log/WebDoc/Android应用程序框架层和系统运行库层日志系统源代码分析 - 老罗的Android之旅 - 博客频道 - CSDN.NET_files/web-storage-cache.js:7 | `get` returns null for a key that is not there and for what other scripts have stored, and throws for a value that has no members |
| StorageLaws.AddAndReplace | log/WebDoc/Android应用程序框架层和系统运行库层日志系统源代码分析 - 老罗的Android之旅 - 博客频道 - CSDN.NET_files/web-storage-cache.js:7 | `add` leaves a live item alone and otherwise stores as `set` does; `replace` stores as `set` does over a live item, and otherwise stores nothing and changes no other key |
| StorageLaws.LookingCollects | log/WebDoc/Android应用程序框架层和系统运行库层日志系统源代码分析 - 老罗的Android之旅 - 博客频道 - CSDN.NET_files/web-storage-cache.js:7 | `get`, and `replace` and `touch` where they answer false, remove an item whose expiry is at or before the reading of the clock, and `get` changes nothing else |
| StorageLaws.CollectsWhatIsDue | log/WebDoc/Android应用程序框架层和系统运行库层日志系统源代码分析 - 老罗的Android之旅 - 博客频道 - CSDN.NET_files/web-storage-cache.js:7 | with one reading of the clock for each key, `deleteAllExpires` returns exactly the keys, in their order, that stand for an item, or another object with an `e`, whose expiry is at or before the reading; these and no others are gone, and every other key keeps what it had |
| StorageLaws.CollectsOne | log/WebDoc/Android应用程序框架层和系统运行库层日志系统源代码分析 - 老罗的Android之旅 - 博客频道 - CSDN.NET_files/web-storage-cache.js:7 | for instance: at 200 an item that expired at 100 goes and one that expires at 300 stays |
| ExpiringCache.AddXorReplace | log/WebDoc/Android应用程序框架层和系统运行库层日志系统源代码分析 - 老罗的Android之旅 - 博客频道 - CSDN.NET_files/web-storage-cache.js:7 | at one instant exactly one of `add` and `replace` succeeds, `add` exactly if there is no live item |
| ExpiringCache.TouchKeepsValueIff | log/WebDoc/Android应用程序框架层和系统运行库层日志系统源代码分析 - 老罗的Android之旅 - 博客频道 - CSDN.NET_files/web-storage-cache.js:7 | `touch` of a live item stores its value again if and only if the item is still live at the second reading of the clock; otherwise it stores null with the new expiry |
| ExpiringCache.TouchLosesValue | log/WebDoc/Android应用程序框架层和系统运行库层日志系统源代码分析 - 老罗的Android之旅 - 博客频道 - CSDN.NET_files/web-storage-cache.js:7 | a concrete `touch` that replaces a value by null |
| ExpiringCache.Cache.Set | log/WebDoc/Android应用程序框架层和系统运行库层日志系统源代码分析 - 老罗的Android之旅 - 博客频道 - CSDN.NET_files/web-storage-cache.js:7 | stores the item with its expiry, deletes on `undefined`, throws and stores nothing on a bad expiry |
| ExpiringCache.Cache.Get | log/WebDoc/Android应用程序框架层和系统运行库层日志系统源代码分析 - 老罗的Android之旅 - 博客频道 - CSDN.NET_files/web-storage-cache.js:7 | returns the live value or null, and removes an expired item |
| ExpiringCache.Cache.Add | log/WebDoc/Android应用程序框架层和系统运行库层日志系统源代码分析 - 老罗的Android之旅 - 博客频道 - CSDN.NET_files/web-storage-cache.js:7 | stores exactly if there is no live item |
| ExpiringCache.Cache.Replace | log/WebDoc/Android应用程序框架层和系统运行库层日志系统源代码分析 - 老罗的Android之旅 - 博客频道 - CSDN.NET_files/web-storage-cache.js:7 | stores exactly if there is a live item, and removes an expired one |
| ExpiringCache.Cache.Touch | log/WebDoc/Android应用程序框架层和系统运行库层日志系统源代码分析 - 老罗的Android之旅 - 博客频道 - CSDN.NET_files/web-storage-cache.js:7 | as `set` of what `get` returns, if the item is live |
| ExpiringCache.Cache.DeleteAllExpires | log/WebDoc/Android应用程序框架层和系统运行库层日志系统源代码分析 - 老罗的Android之旅 - 博客频道 - CSDN.NET_files/web-storage-cache.js:7 | removes and returns the keys that `CollectsWhatIsDue` is about, each looked at by its own reading of the clock, in order |
| ExpiringCache.Cache.RunProgram | log/WebDoc/Android应用程序框架层和系统运行库层日志系统源代码分析 - 老罗的Android之旅 - 博客频道 - CSDN.NET_files/web-storage-cache.js:7 | every run of calls on the object has the results, and leaves the storage, that `RunAgrees` and the other theorems are about |
| MemInfo.TestsAreExclusive | android-tools/ViewLeak/code/MemoryLogUtilAm.java:354-401 | no line passes two of the sixteen tests, aliases and lower-case tests included, so their order does not matter |
| MemInfo.RecogniseIs | android-tools/ViewLeak/code/MemoryLogUtilAm.java:354-401 | the chain of tests finds a field exactly if the field's own test does |
| MemInfo.NothingIsLeft | android-tools/ViewLeak/code/MemoryLogUtilAm.java:353-353 | once 16 lines were recognised and no field is repeated, no later line is recognised |
| MemInfo.FullScanFinds | android-tools/ViewLeak/code/MemoryLogUtilAm.java:353-403 | in a full scan each field gets the value of its own line, and keeps what it had without one; `ScanFinds` says which number that is |
| MeminfoText.ScanFinds | android-tools/ViewLeak/code/MemoryLogUtilAm.java:353-403 | if each line of a field holds a number that a long can hold, in decimal, as its second word, and no field is repeated, a field is left with the number its line was written with, negative ones included, and with 0 without a line |
| MeminfoText.TooLongEndsScan | android-tools/ViewLeak/code/MemoryLogUtilAm.java:353-412 | a number that no long can hold ends the scan: what was read before it is kept, and nothing behind it is read |
| MeminfoText.ErrorEndsScan | android-tools/ViewLeak/code/MemoryLogUtilAm.java:353-412 | so does every other value that is an error |
| MeminfoText.ValueIs | android-tools/ViewLeak/code/MemoryLogUtilAm.java:583-588 | a word, white space, a number in decimal, and then the end of the line or white space and anything: the value is the number if a long can hold it, and an error otherwise |
| MeminfoText.TextIsRead | android-tools/ViewLeak/code/MemoryLogUtilAm.java:583-588 | the decimal text of every number, with its minus sign or with a plus sign, is read as the number if a long can hold it |
| MeminfoText.OtherTextIsError | android-tools/ViewLeak/code/MemoryLogUtilAm.java:583-588 | no text, a sign alone, or a word with a character behind the first that is no digit is an error |
| MeminfoText.NoSecondWord | android-tools/ViewLeak/code/MemoryLogUtilAm.java:583-588 | a line without a second word is an error |
| MeminfoText.SlabOfTwelve | android-tools/ViewLeak/code/MemoryLogUtilAm.java:393-394 | "Slab: 12 kB" holds 12, and two lines with a negative number and with a tab |
| MeminfoText.LabelIsRecognised | android-tools/ViewLeak/code/MemoryLogUtilAm.java:354-401 | a line that begins with one of the labels of a field (`Labels`) is recognised as the line of that field |
| MemInfo.Statics.ReadExtraMemInfo | android-tools/ViewLeak/code/MemoryLogUtilAm.java:328-412 | if every field occurs once at most, the scan that stops at 16 lines leaves what a scan of the whole file would, malformed numbers included, and that is what `ScanFinds` and `TooLongEndsScan` say |

## Left out

- AnrAgent.Agent.HandleAnr: the drain loop of the class runs at one reading of the clock and without other threads; interleaving and the passing of time are in the transition system, of which each turn of the loop is a step.
- AnrAgent.Agent.Run: likewise one reading of the clock and no other threads; `EveryRunDrains` and `NoLostWakeup` are about all interleavings.
- AnrAgent: system traces, customisation readers, process files and logging; an exception after the dump of a record counts as one of its dump.
- Callbacks: the flags `unique` and `stopOnFalse`, `empty`, `lock` and `has`; objects and nested arrays passed to `add`; functions that throw.
- Deferred.Deferred.constructor: of the progress list only the internal function that locks it is recorded, and `then`, `always`, `promise` and `when` are not modelled.
- RefCount: thread races and the wrap-around of 32-bit counts, flags other than 0, `onFirstRef` and the other hooks, objects that own handles, `force_set`, `set_pointer`, `attemptIncStrong` and `attemptIncWeak`, whose compare-and-set lines are commented out.
- RefCount.Memory.Run: stops at the first statement that C++ would leave undefined, such as a raw pointer to freed memory.
- HolderList: switching tracking on or off during a run, `mRetain`, call stacks, the printing of lists.
- CallbackQueue: restarts of callbacks, time-outs, signals and hooks; callbacks that throw.
- CallbackQueue.Queue.WaitFor: there is one queue. In the source `USING` wraps a callback object once more when its `execute` has been replaced already, so that one which another queue waits for is run as soon as it is pushed here and never signals; the model does not capture this.
- MessageList: the texts of the messages, delays other than 0, fading, localisation and the status window.
- CommentForest: the markup of a comment, its floor numbers and buttons.
- Highlighter: the trimming of common indentation, regular expressions, the escaping of markup and line breaks in a bit, the list view; the sort is the library's, and every result that `SortCallback` allows is covered.
- ConfigMerge: options of the command line, the legacy command, failures of writing, the copy to `out_file`.
- ConfigMerge.LayeredOverride: assumes that each setting becomes a line which mentions its own key and no other key of the two lists; `LayeredOverrideIff` assumes this of the whitelist in the first stage only, and `LastSettingWinsIff` and `SettingIsLostIff` say without it exactly what each merge leaves.
- ExpiringCache: JSON itself, a full storage, fractions of seconds, expiry fields of other scripts that are not numbers.
- MemInfo: lower case of letters outside ASCII, errors of reading, the readers for single platforms that follow the loop.
- Everything else of the repository: native code, other tools, styles, toolbars, advertisements and the rest of jQuery and MathJax.
