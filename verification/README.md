# Verified models of sofsip-cli and the RestComm client pipe

This project models the call and option machinery of sofsip-cli 0.16 and the pipe
between the RestComm iOS client and its SIP engine, and proves what that code keeps
over all inputs and all runs. `dafny verify dfyconfig.toml` verifies it.

| component | modules |
|---|---|
| command line parser with rollback | `OptionModel` (what a parse does, on values), `OptionGroup` (how groups get their entries), `OptionStore` (the undo log), `OptionLaws` (laws of the parser), `OptionRollback` (failing command lines), `OptionIgnore` (leftovers in ignore-unknown mode), `OptionValues` (what each spelling stores, and the errors), `OptionContext` (the parser on the argv array) |
| operation list and calls | `Calls` (commands, stack events and media signals as steps), `CallLaws` (creation), `CallSafety` (runs with any media), `CallMedia` (runs with the base media), `CallReach` (whom a media signal reaches), `CallSteps` (what each command and event leaves), `CallAnswers` (what callers are answered), `CallSignals` (what a media signal does to every operation), `CallOutcomes` (what calls and replies come to), `OperList` (the linked nodes), `CallControl` (the handlers on the linked list) |
| pending authentications | `AuthQueue` |
| ICE media agent | `Candidates` (candidate lines of section 15.1 of RFC 5245), `NiceMedia` (packet loop, test packets, timer), `NiceSteps` (what each event leaves), `MediaStates` |
| pipe framing | `PipeFraming` (replies), `CommandInput` (commands), `Decimal`, `Text` |
| port allocation | `PortScan` |

Code that changes state step by step is a class or a loop here too, and each of its
methods is proved against a function on values; the laws are then proved about the
functions. `CallControl.Ssc`, for example, walks and relinks real nodes; `Handle` is proved
to be one step of the machine of `Calls`, and `CallControl.Session` carries the theorems
about runs over to the nodes, the log and the media state of the object.

Where the code and its comments or documentation differ, the code is modelled:

- A failing parse does not bring flags back: they record no earlier value and become
  FALSE. A number or text given more than once gets the value given last but one.
  `OptionRollback.FlagIsLost` and `OptionRollback.RepeatedNumberIsLost` are the command
  lines, `OptionRollback.FailedParseIsExactWhen` says exactly when the undo is exact, and
  `OptionRollback.OnceNamedComesBack` when a caller can rely on it.
- `op_callstate &= !opc_pending` clears every bit of the word, not one.
- A port whose partner cannot be bound ends the port scan (`PortScan.LostPairEndsScan`,
  `PortScan.MissedPair`).
- Cleaning old operations destroys them without disconnecting their media callback, which
  is then called for a freed operation (`CallReach.DanglingCallback`;
  `CallReach.NextSignalReaches` says for which operations).
- An INVITE that comes on an operation made for a MESSAGE, once answered, makes media
  active without any INVITE operation in the list (`CallMedia.InviteOnMessage`).
  `CallMedia.MediaFollowsCalls` says exactly which runs keep media in step with the calls.
- A call made, or a reply given, while media is active already is neither sent nor answered,
  because the media signal that would do it is emitted only on a change of state
  (`CallOutcomes.CallIsSent`, `CallOutcomes.ReplyIsAnswered`).
- In ignore-unknown mode the value of a short option is looked at a second time, as an
  argument of its own; `OptionValues.Fits` names the values for which that does not matter.
- In ignore-unknown mode leftovers can be options for the next parse
  (`OptionIgnore.DashLeavesOption`, `SeparatorAsValue`, `ClusterAsValue`).
  `OptionIgnore.LeftoversFixedWhen` says exactly when they are a fixed point, and
  `OptionIgnore.TameLeftovers` which command lines are safe.

## Model

| member | source | states |
|---|---|---|
| OptionContext.OptionContext.Parse | Lab/sofsip-cli-0.16/src/replace_goption.c:1239-1578 | on success argv is the unmarked arguments in order (slot 0 never marked), argc drops by the number of marked slots and every vacated slot is NULL; on failure argc, argv and every string are as on entry and each variable has the value the undo law gives it |
| OptionContext.OptionContext.ScanAll | Lab/sofsip-cli-0.16/src/replace_goption.c:1284-1505 | the index loop with its flags and change log computes the same writes and leftovers as the recursive scan of the arguments |
| OptionContext.OptionContext.ScanOptions | Lab/sofsip-cli-0.16/src/replace_goption.c:1290-1500 | the loop up to the first separator does what the recursive scan does up to there |
| OptionContext.OptionContext.ScanRest | Lab/sofsip-cli-0.16/src/replace_goption.c:1489-1503 | the arguments behind the separator are collected or kept, and the separator is marked unless one of them holds it |
| OptionContext.OptionContext.ParseArgument | Lab/sofsip-cli-0.16/src/replace_goption.c:1295-1499 | one turn of the loop consumes, marks and writes what the turn on values says |
| OptionContext.OptionContext.ParseCluster | Lab/sofsip-cli-0.16/src/replace_goption.c:1390-1476 | a short cluster writes what its letters mean, takes at most one following argument and is rewritten or marked |
| OptionContext.OptionContext.ParseLetters | Lab/sofsip-cli-0.16/src/replace_goption.c:1404-1450 | the letter loop, with its nulled-out flags, follows the recursive meaning of the letters |
| OptionContext.OptionContext.Unparsed | Lab/sofsip-cli-0.16/src/replace_goption.c:1452-1467 | the buffer built for an ignored cluster is exactly its letters that were not nulled out, and no longer than the original |
| OptionContext.OptionContext.ParseLongOption | Lab/sofsip-cli-0.16/src/replace_goption.c:1336-1385 | main group, then groups, then group-option aliases, first match wins |
| OptionContext.OptionContext.ParseLong | Lab/sofsip-cli-0.16/src/replace_goption.c:991-1100 | the entry loop of a long option takes the value behind `=` or the next argument and marks exactly what it used |
| OptionContext.OptionContext.ParseShort | Lab/sofsip-cli-0.16/src/replace_goption.c:907-989 | the entry loop of a letter takes at most one value, and none if an earlier letter of the cluster took it |
| OptionContext.OptionContext.ParseRemaining | Lab/sofsip-cli-0.16/src/replace_goption.c:1102-1134 | an argument that is no option goes to the remaining-args entry, if any, and is marked then |
| OptionContext.OptionContext.ParseArg | Lab/sofsip-cli-0.16/src/replace_goption.c:723-905 | one write to a variable together with its entry in the change log |
| OptionContext.OptionContext.GetChange | Lab/sofsip-cli-0.16/src/replace_goption.c:682-707 | finds the one log entry of a variable or puts a fresh one in front |
| OptionContext.OptionContext.FreeChanges | Lab/sofsip-cli-0.16/src/replace_goption.c:1136-1177 | the log, walked once, gives the variables the reverted values |
| OptionContext.OptionContext.FreePendingNulls | Lab/sofsip-cli-0.16/src/replace_goption.c:1178-1206 | newest first, a rewrite never hits a slot already nulled and always fits its buffer; slots end as their fate says |
| OptionContext.OptionContext.StripArguments | Lab/sofsip-cli-0.16/src/replace_goption.c:1530-1551 | nulling and compaction together leave the kept strings in order, then NULLs |
| OptionContext.Compact | Lab/sofsip-cli-0.16/src/replace_goption.c:1534-1550 | the double loop refines a plain filter: the non-NULL slots in order, then NULLs, argc reduced by the number removed |
| OptionContext.GapEnd | Lab/sofsip-cli-0.16/src/replace_goption.c:1536-1538 | the end of a run of NULLs |
| OptionContext.CloseGap | Lab/sofsip-cli-0.16/src/replace_goption.c:1536-1549 | one run of NULLs is squeezed out: what is not NULL is kept in order, NULLs follow, and everything before and after stays |
| OptionContext.ShiftDown | Lab/sofsip-cli-0.16/src/replace_goption.c:1543-1547 | the inner loop moves the tail down by the gap and leaves NULLs behind it |
| OptionContext.UnmarkedLength | Lab/sofsip-cli-0.16/src/replace_goption.c:1530-1551 | the leftovers are as many as the slots less the distinct marked ones |
| OptionContext.KeptUnmarked | Lab/sofsip-cli-0.16/src/replace_goption.c:1184-1205 | what the pending list keeps is the plain filter by marked slots |
| OptionStore.RollbackRestores | Lab/sofsip-cli-0.16/src/replace_goption.c:1136-1177 | after undoing the log of any sequence of writes each variable has a value told by the writes to it alone: array options regain their value from before the first, others what the last write saw |
| OptionStore.RollbackIsExactWhen | Lab/sofsip-cli-0.16/src/replace_goption.c:736-905 | after any writes the undo gives a variable its entry value back if and only if it is a list, or an untouched or FALSE flag, or a number or text written at most once or whose last write but one stored the entry value |
| OptionRollback.FailedParseIsExactWhen | Lab/sofsip-cli-0.16/src/replace_goption.c:1555-1577 | the same condition on what a failing parse wrote |
| OptionRollback.OnceNamedComesBack | Lab/sofsip-cli-0.16/src/replace_goption.c:682-905 | in terms of the command line: a failing parse gives back every list, every number or text of one entry that at most one argument names, and every flag that was FALSE or that no argument names |
| OptionRollback.ScanOn | Lab/sofsip-cli-0.16/src/replace_goption.c:907-1134 | the arguments that name the one entry of a number or text bound how often it is written; a variable that no argument names is not written |
| OptionRollback.RepeatedNumberIsLost | Lab/sofsip-cli-0.16/src/replace_goption.c:757-757 | `--num=1 --num=2 --x` fails and leaves the number at 1, whatever it was |
| OptionRollback.FlagIsLost | Lab/sofsip-cli-0.16/src/replace_goption.c:736-742 | `--loud --x` fails and leaves the flag FALSE, whatever it was |
| OptionStore.ReplayTracks | Lab/sofsip-cli-0.16/src/replace_goption.c:682-905 | after any writes there is one log entry per variable, holding what the undo needs |
| OptionLaws.LeftoversAreFixed | Lab/sofsip-cli-0.16/src/replace_goption.c:1290-1551 | parsing the leftovers of a successful parse succeeds, writes nothing and leaves them unchanged |
| OptionLaws.ClusterSplitting | Lab/sofsip-cli-0.16/src/replace_goption.c:1390-1476 | in any program, a cluster that parses means the same, in writes and leftovers, as its letters written apart with the value behind its letter |
| OptionLaws.LettersKnown | Lab/sofsip-cli-0.16/src/replace_goption.c:1404-1450 | a cluster that parses is made of letters some entry claims, none of them a dash |
| OptionGroup.OptionGroup.AddEntries | Lab/sofsip-cli-0.16/src/replace_goption.c:1663-1692 | entries are appended as they are, except that a short name that is a dash or not printable is dropped; so no group ever has one |
| OptionGroup.UsableNames | Lab/sofsip-cli-0.16/src/replace_goption.c:1677-1688 | a short name is kept if it is a character from 32 to 126 other than 45 |
| OptionLaws.SeparatorFate | Lab/sofsip-cli-0.16/src/replace_goption.c:1290-1503 | the first separator reached is removed if and only if the later arguments are collected or none starts with a dash, and what is left is told exactly |
| OptionLaws.BeforeSeparator | Lab/sofsip-cli-0.16/src/replace_goption.c:1290-1309 | the arguments before the separator are scanned as if nothing followed |
| OptionLaws.ScanAppend | Lab/sofsip-cli-0.16/src/replace_goption.c:1290-1500 | scanning a completed prefix and then the rest is scanning the whole |
| OptionLaws.LetterMeaning | Lab/sofsip-cli-0.16/src/replace_goption.c:907-989 | a letter is recognised exactly when an entry claims it, takes an argument exactly when that entry wants a value, and looks at no further argument |
| OptionLaws.FlagCluster | Lab/sofsip-cli-0.16/src/replace_goption.c:1404-1450 | a cluster of known flags always succeeds and takes no argument |
| OptionLaws.LettersUnknown | Lab/sofsip-cli-0.16/src/replace_goption.c:1404-1465 | in ignore-unknown mode exactly the unclaimed letters stay, in order |
| OptionLaws.IgnoredCluster | Lab/sofsip-cli-0.16/src/replace_goption.c:1401-1470 | an ignored cluster ends as a dash and its unrecognised letters, or is removed, and never grows |
| OptionLaws.CollectAll | Lab/sofsip-cli-0.16/src/replace_goption.c:1102-1134 | with a remaining-args entry every argument is collected, without one none is |
| OptionIgnore.UntouchedWhen | Lab/sofsip-cli-0.16/src/replace_goption.c:1290-1503 | in ignore-unknown mode a scan leaves a list as it is, writing nothing, if and only if nothing in front of its separator is a known option, nothing is collected and the separator is still needed |
| OptionIgnore.LeftoversFixedWhen | Lab/sofsip-cli-0.16/src/replace_goption.c:1401-1503 | so the leftovers of a parse in that mode are a fixed point exactly when they are such a list |
| OptionIgnore.TameLeftovers | Lab/sofsip-cli-0.16/src/replace_goption.c:1387-1475 | they are, on every command line where no cluster has a dash in front of its unknown letters and no value of a short option looks like an option |
| OptionIgnore.LongServes | Lab/sofsip-cli-0.16/src/replace_goption.c:1336-1385 | a long option is passed over exactly when no entry answers to it, under its own or its group's name |
| OptionIgnore.DashLeavesOption | Lab/sofsip-cli-0.16/src/replace_goption.c:1457-1469 | `-k-out` leaves `--out`, an option for the next parse |
| OptionIgnore.SeparatorAsValue | Lab/sofsip-cli-0.16/src/replace_goption.c:1452-1475 | `-f -- -k` leaves `-k`, an option for the next parse |
| OptionIgnore.ClusterAsValue | Lab/sofsip-cli-0.16/src/replace_goption.c:1478-1498 | `-f -y -- a` leaves `-- a`, whose separator the next parse removes |
| OptionValues.SpelledOut | Lab/sofsip-cli-0.16/src/replace_goption.c:723-1134 | a command line in which every option, in the spelling `--name=v`, `--name v`, `--name`, `--group-name=v`, `-c v` or `-c`, and every collected argument has one entry that answers to it and can read its value, parses; it leaves exactly its stray arguments, and every variable holds what its last use means: a flag the negation of its reverse bit, a number what it reads as, a text its conversion, a file name the value itself, a list all its values in command-line order; a variable nobody uses keeps its value |
| OptionValues.OneValue | Lab/sofsip-cli-0.16/src/replace_goption.c:723-905 | the same for one option in any spelling, spelled out by kind of entry |
| OptionValues.BothAnswer | Lab/sofsip-cli-0.16/src/replace_goption.c:991-1100 | the search goes on behind an entry that answers: two entries of one group are both written |
| OptionValues.SeparatorCollects | Lab/sofsip-cli-0.16/src/replace_goption.c:1102-1134 | with a remaining-args list everything behind `--` goes into it in order, whatever it looks like, and `--` is removed |
| OptionValues.SeparatorStays | Lab/sofsip-cli-0.16/src/replace_goption.c:1489-1503 | where nothing is collected, `--` stays in front of an argument with a dash and is removed in front of any other |
| OptionValues.MissingValue | Lab/sofsip-cli-0.16/src/replace_goption.c:964-974 | an option that wants a value and is the last argument ends the parse with a bad-value error |
| OptionValues.UnreadableValue | Lab/sofsip-cli-0.16/src/replace_goption.c:743-905 | so does a number that is none, and a text that cannot be converted ends it with a conversion error |
| OptionValues.UncollectedArgument | Lab/sofsip-cli-0.16/src/replace_goption.c:1102-1134 | an argument for an entry that is no list ends the parse without an error set, and one that cannot be converted with a conversion error |
| OptionValues.UnknownLong | Lab/sofsip-cli-0.16/src/replace_goption.c:1478-1490 | a long option that no entry answers to, under its own or a group's name, ends the parse as unknown |
| OptionValues.UnknownLetter | Lab/sofsip-cli-0.16/src/replace_goption.c:1478-1490 | so does a letter nobody has |
| OptionValues.TwoValues | Lab/sofsip-cli-0.16/src/replace_goption.c:928-940 | two letters of one cluster that both want a value end the parse as failed |
| CallSafety.EveryCreation | Lab/sofsip-cli-0.16/src/ssc_oper.c:65-149 | in every reachable state the list names each operation once and each holds its handle, and the next creation obeys the creation law; for the linked nodes see CallControl.Session |
| CallLaws.CreateLaw | Lab/sofsip-cli-0.16/src/ssc_oper.c:65-149 | a non-persistent creation turns the list into the new operation followed by the persistent or in-call ones in order, closes exactly the other handles in order and changes no other record; a persistent one only prepends; an invalid address changes nothing; media stops if a destroyed operation leaves no INVITE |
| CallLaws.CleanList | Lab/sofsip-cli-0.16/src/ssc_oper.c:124-131 | the cleaning loop leaves the filtered list |
| CallLaws.CleanLog | Lab/sofsip-cli-0.16/src/ssc_oper.c:124-131 | the cleaning loop closes exactly the dropped handles, in list order |
| CallLaws.CleanMedia | Lab/sofsip-cli-0.16/src/ssc_oper.c:186-220 | over the whole cleaning media stops exactly when something was dropped and no INVITE is left |
| CallLaws.FirstIs | Lab/sofsip-cli-0.16/src/ssc_oper.c:241-345 | the search answers the first operation that is wanted, or none |
| CallSafety.InviteOnce | Lab/sofsip-cli-0.16/src/ssc_sip.c:830-876 | over every run and any media signals an operation has its INVITE sent at most once, only inside its callback for a local-ready or active signal, and never after it was disconnected or its handle closed |
| CallReach.NextSignalReaches | Lab/sofsip-cli-0.16/src/ssc_media.c:436-443 | in every reachable state the next signal that changes the media state is delivered to exactly the operations that were connected and not disconnected, destroyed or not |
| CallReach.DanglingOnlyWhen | Lab/sofsip-cli-0.16/src/ssc_sip.c:261-267 | over every run a callback for an operation whose handle is closed means that it was connected before and never disconnected |
| CallReach.DanglingCallback | Lab/sofsip-cli-0.16/src/ssc_oper.c:124-131 | the run call, bye, message, call, over the base media, that enters the callback of an operation already destroyed |
| CallReach.EmitNotifies | Lab/sofsip-cli-0.16/src/ssc_media.c:436-443 | one emission notifies exactly the connections that are there when it starts, since a callback disconnects at most its own operation |
| CallSafety.RunSound | Lab/sofsip-cli-0.16/src/ssc_sip.c:697-979 | every run keeps the list, the connections and the record of actions consistent; a waiting call is an INVITE not yet sent and is listed while it is connected; an operation is connected from its connection until its disconnection |
| CallSafety.StepSound | Lab/sofsip-cli-0.16/src/ssc_sip.c:431-569 | the same for one command, stack event or media signal |
| CallSafety.CallbackSound | Lab/sofsip-cli-0.16/src/ssc_sip.c:830-924 | the same for one media callback, with whatever signal and SDP |
| CallSafety.DestroyDisconnectedSound | Lab/sofsip-cli-0.16/src/ssc_sip.c:261-267 | the same for a destroy with disconnect |
| CallMedia.CallWords | Lab/sofsip-cli-0.16/src/ssc_sip.c:710-1128 | with the base media the call-state word of every operation in every reachable state is 0, 1, 2, 3, 4, 6, 7, 16 or 18; pending never goes with sent or active, and sent with active only with recv |
| CallMedia.CallbackWords | Lab/sofsip-cli-0.16/src/ssc_sip.c:849-912 | the media callback keeps the words legal because a waiting call keeps media up while the signal is emitted |
| CallMedia.MediaFollowsCalls | Lab/sofsip-cli-0.16/src/ssc_oper.c:186-220 | over every run of the base media: media is active only while an INVITE operation is listed, and disabled without one once a handle was closed, at the start and after every event, if and only if no event answers a call while no INVITE operation is listed |
| CallMedia.StepDecides | Lab/sofsip-cli-0.16/src/ssc_sip.c:697-1107 | one event from a state where media follows the calls leaves media up without a call exactly when it answers, by command or automatically, while no INVITE operation is listed |
| CallMedia.EmitAlone | Lab/sofsip-cli-0.16/src/ssc_sip.c:849-912 | with no INVITE operation listed no callback waits for media, so an emission destroys nothing and leaves media active |
| CallMedia.InvitesOnInvitesSuffice | Lab/sofsip-cli-0.16/src/ssc_sip.c:791-796 | if every incoming INVITE comes on a new or an INVITE operation, no event of the run answers alone |
| CallMedia.InviteOnMessage | Lab/sofsip-cli-0.16/src/ssc_sip.c:791-796 | the run that makes media active without an INVITE operation: a MESSAGE, then an INVITE on its operation, answered automatically |
| CallAnswers.EveryAnswer | Lab/sofsip-cli-0.16/src/ssc_sip.c:830-979 | over every run, with any media: a response is logged directly behind the callback of its operation for a local-ready or active signal, with the status of the latest reply that found a call (200 for an automatic answer) if there is a local SDP and 500 if not; any other response is a refusal with the user's status on the first listed operation whose word is exactly 2; an INVITE is logged only behind such a callback with a local SDP |
| CallSignals.SignalServes | Lab/sofsip-cli-0.16/src/ssc_sip.c:844-913 | with a local SDP, local-ready or active takes every connected operation, listed or freed, to its next word and logs its INVITE or its answer, and changes nothing else: 16 set becomes 1, else 2 set gains 1 or, for a status outside 200 to 299, becomes 0 |
| CallSignals.SignalRefuses | Lab/sofsip-cli-0.16/src/ssc_sip.c:870-911 | without one, it disconnects and frees every connected waiting call, answers every received one 500 with word 0, and leaves the others alone |
| CallSignals.ErrorDismisses | Lab/sofsip-cli-0.16/src/ssc_sip.c:914-919 | an error disconnects and frees every connected operation, leaves all others alone and disables media if it met one |
| CallSignals.OtherSignal | Lab/sofsip-cli-0.16/src/ssc_sip.c:830-924 | any other signal is heard once per connection, in order, and changes nothing but the media state |
| CallSignals.SameSignal | Lab/sofsip-cli-0.16/src/ssc_media.c:436-443 | a signal of the current state does nothing |
| CallOutcomes.CallActivates | Lab/sofsip-cli-0.16/src/ssc_sip.c:697-732 | a call creates its operation, gives it word 16, connects it and takes in the signals of the activation one by one; if the activation failed the operation is disconnected and off the list and no other is touched; an invalid address changes nothing |
| CallOutcomes.ReplyActivates | Lab/sofsip-cli-0.16/src/ssc_sip.c:932-979 | a positive reply stores its status, connects the first listed operation of word 2 and activates likewise; a negative one logs the response, disconnects and frees that operation; without one nothing changes |
| CallOutcomes.CallIsSent | Lab/sofsip-cli-0.16/src/ssc_sip.c:849-868 | over the base media with a local SDP a call is sent at once and has word 1, unless media is active already: then it stays at 16, unsent |
| CallOutcomes.CallIsGivenUp | Lab/sofsip-cli-0.16/src/ssc_sip.c:869-875 | without one it is never sent, disconnected and off the list |
| CallOutcomes.ReplyIsAnswered | Lab/sofsip-cli-0.16/src/ssc_sip.c:885-906 | over the base media with a local SDP a positive reply logs its own status for its operation, which gets word 3, unless media is active already: then nothing is answered |
| CallOutcomes.ReplyIsRefused | Lab/sofsip-cli-0.16/src/ssc_sip.c:907-911 | without one it logs 500 and clears the word |
| CallSteps.FinalAnswers | Lab/sofsip-cli-0.16/src/ssc_sip.c:1607-1845 | in every reachable state a REGISTER answer takes its operation off the list, closes its handle and stops media without an INVITE exactly if its status is 300 or more and neither 401 nor 407; its removal, a removed subscription and a publication that fails or has expired likewise from their own limits; any other answer changes nothing |
| CallSteps.FailedRequests | Lab/sofsip-cli-0.16/src/ssc_sip.c:737-749 | a failed INVITE clears bit 1 of the word, and a failed SUBSCRIBE the persistence, of its operation alone |
| CallSteps.ReadyCall | Lab/sofsip-cli-0.16/src/ssc_sip.c:1064-1071 | an established call has word 4 and nothing else changes |
| CallSteps.TerminatedCall | Lab/sofsip-cli-0.16/src/ssc_sip.c:1092-1107 | a terminated call is off the list with word 0, disconnected and closed in this order, and media is off whatever is listed |
| CallSteps.SendCreates | Lab/sofsip-cli-0.16/src/ssc_sip.c:1216-1265 | a message, options or subscribe command creates its operation: it stands in front; a lasting one touches nothing else, any other frees exactly the old ones that are neither persistent nor in a call, closing each handle once |
| CallSteps.RegistrarCreates | Lab/sofsip-cli-0.16/src/ssc_sip.c:1620-1642 | a registration with a registrar always creates |
| CallSteps.ReferComes | Lab/sofsip-cli-0.16/src/ssc_sip.c:1409-1440 | a received REFER to a SIP address creates an INVITE operation, any other none |
| CallSteps.RequestComes | Lab/sofsip-cli-0.16/src/ssc_sip.c:1282-1311 | a MESSAGE or INFO on a new handle puts a transient operation in front and frees none |
| CallSteps.RefersOutsideCalls | Lab/sofsip-cli-0.16/src/ssc_sip.c:1375-1390 | a REFER is created exactly if no listed operation is in a call |
| CallSteps.ReusesRegistration | Lab/sofsip-cli-0.16/src/ssc_sip.c:1620-1700 | a registration is created exactly if no persistent REGISTER operation is listed |
| CallSteps.ReusesPublication | Lab/sofsip-cli-0.16/src/ssc_sip.c:1728-1803 | a publication likewise |
| CallSteps.EndsFirstCall | Lab/sofsip-cli-0.16/src/ssc_sip.c:1121-1133 | BYE goes to the first listed operation with a word other than 0, which is cleared, and nothing else changes |
| CallSteps.ZapsFirstTransient | Lab/sofsip-cli-0.16/src/ssc_sip.c:1197-1211 | the first listed operation that is not persistent is disconnected and freed |
| CallSteps.RejectsFirstUnborn | Lab/sofsip-cli-0.16/src/ssc_sip.c:1537-1550 | the first listed INVITE of word 0 is freed and keeps its connections |
| CallSteps.InviteRings | Lab/sofsip-cli-0.16/src/ssc_sip.c:774-801 | an INVITE on a new handle puts an operation of word 2 in front, and on a known one sets bit 2 of its word, and no more |
| CallSteps.InviteAnswersItself | Lab/sofsip-cli-0.16/src/ssc_sip.c:803-812 | with automatic answer an INVITE is followed by a reply of 200 exactly if its operation's word is then 2 |
| OperList.Locate | Lab/sofsip-cli-0.16/src/ssc_oper.c:194-198 | the walk stops at the node or at the end, knowing the node before it |
| OperList.CutOut | Lab/sofsip-cli-0.16/src/ssc_oper.c:199-200 | one pointer write takes the node out of the chain, which stays acyclic |
| OperList.Unlink | Lab/sofsip-cli-0.16/src/ssc_oper.c:194-200 | the list without the operation, in order; unchanged if it is not listed |
| OperList.Push | Lab/sofsip-cli-0.16/src/ssc_oper.c:103-106 | a new node in front of the chain, which stays acyclic |
| OperList.Find | Lab/sofsip-cli-0.16/src/ssc_oper.c:241-345 | the first node whose operation is wanted |
| OperList.CountInvites | Lab/sofsip-cli-0.16/src/ssc_oper.c:205-209 | the count is zero exactly when no INVITE operation is listed |
| CallControl.Ssc.Create | Lab/sofsip-cli-0.16/src/ssc_oper.c:65-149 | the linked list after a creation is the one of the creation law |
| CallControl.Ssc.Clean | Lab/sofsip-cli-0.16/src/ssc_oper.c:124-131 | destroying while walking from the first transient operation cleans the whole list |
| CallControl.Ssc.Destroy | Lab/sofsip-cli-0.16/src/ssc_oper.c:186-220 | the node is unlinked, its handle closed once, and media stopped if no INVITE operation is left |
| CallControl.Ssc.DestroyDisconnected | Lab/sofsip-cli-0.16/src/ssc_sip.c:261-267 | all connections of the operation go first |
| CallControl.Ssc.FindOper | Lab/sofsip-cli-0.16/src/ssc_oper.c:241-345 | the walk over the nodes finds what the search on values finds |
| CallControl.Ssc.MediaStateChanged | Lab/sofsip-cli-0.16/src/ssc_sip.c:830-924 | the media callback takes the state through the callback of the machine |
| CallControl.Ssc.Emit | Lab/sofsip-cli-0.16/src/ssc_media.c:436-443 | the emission calls each connection there was at its start that is still there |
| CallControl.Ssc.SignalStateChange | Lab/sofsip-cli-0.16/src/ssc_media.c:436-443 | a signal is emitted only on a change of state |
| CallControl.Ssc.Invite | Lab/sofsip-cli-0.16/src/ssc_sip.c:697-732 | the command takes the state through the machine's outgoing call |
| CallControl.Ssc.Answer | Lab/sofsip-cli-0.16/src/ssc_sip.c:932-979 | the command takes the state through the machine's answer |
| CallControl.Ssc.IncomingInvite | Lab/sofsip-cli-0.16/src/ssc_sip.c:774-823 | the event takes the state through the machine's incoming call, with automatic answer |
| CallControl.Ssc.InviteResult | Lab/sofsip-cli-0.16/src/ssc_sip.c:737-749 | a failed INVITE clears the sent bit only |
| CallControl.Ssc.Established | Lab/sofsip-cli-0.16/src/ssc_sip.c:1064-1071 | the word of a ready call is active alone |
| CallControl.Ssc.Terminated | Lab/sofsip-cli-0.16/src/ssc_sip.c:1092-1107 | the call is destroyed with disconnect and media disabled |
| CallControl.Ssc.Bye | Lab/sofsip-cli-0.16/src/ssc_sip.c:1121-1133 | the first operation in a call gets a BYE and a cleared word |
| CallControl.Ssc.Zap | Lab/sofsip-cli-0.16/src/ssc_sip.c:1197-1211 | the first transient operation is destroyed with disconnect |
| CallControl.Ssc.Notify | Lab/sofsip-cli-0.16/src/ssc_sip.c:1537-1550 | the first INVITE operation outside a call is destroyed |
| CallControl.Ssc.Request | Lab/sofsip-cli-0.16/src/ssc_sip.c:1375-1390 | a request creates an operation only if none serves it already |
| CallControl.Ssc.SubscribeResult | Lab/sofsip-cli-0.16/src/ssc_sip.c:1522-1535 | a failed subscription loses its persistence and nothing else |
| CallControl.Ssc.EndIf | Lab/sofsip-cli-0.16/src/ssc_sip.c:1644-1665 | a final answer that ends the operation destroys it without disconnect |
| CallControl.Ssc.Obey | Lab/sofsip-cli-0.16/src/ssc_sip.c:697-1803 | every command takes the linked list through the machine's step for it |
| CallControl.Ssc.Take | Lab/sofsip-cli-0.16/src/ssc_sip.c:431-569 | every event of the SIP stack, on the operation bound to its handle, does so too |
| CallControl.Ssc.Handle | Lab/sofsip-cli-0.16/src/ssc_sip.c:431-569 | one command, stack event or media signal on the linked list is one step of the machine |
| CallControl.Session | Lab/sofsip-cli-0.16/src/ssc_sip.c:431-569 | after any run from the start the nodes form a chain without cycle through the machine's operations, each once; no INVITE is in the log twice and the log is lawful; over the base media every linked word is legal and, if no event answers a call while no INVITE operation is listed, media is active only if an INVITE operation is linked and disabled without one once a handle was closed |
| AuthQueue.AuthQueue.Store | Lab/sofsip-cli-0.16/src/ssc_sip.c:331-389 | challenges are appended in order, server before proxy |
| AuthQueue.AuthQueue.Auth | Lab/sofsip-cli-0.16/src/ssc_sip.c:592-661 | exactly the longest stale prefix and the first live item leave the queue, the rest keeps its order, and at most that item is authenticated |
| AuthQueue.Stale | Lab/sofsip-cli-0.16/src/ssc_sip.c:601-657 | the length of the longest prefix of stale items |
| AuthQueue.SplitJoin | Lab/sofsip-cli-0.16/src/ssc_sip.c:607-624 | splitting at colons recovers colon-free fields |
| AuthQueue.PasswordCredentials | Lab/sofsip-cli-0.16/src/ssc_sip.c:610-617 | for an input without colon the string sent splits into scheme, realm, user and password if and only if the fields are colon-free |
| AuthQueue.UserPasswordCredentials | Lab/sofsip-cli-0.16/src/ssc_sip.c:618-624 | the same for an input with one colon, which names its own user |
| AuthQueue.FullCredentials | Lab/sofsip-cli-0.16/src/ssc_sip.c:625-637 | an input with two colons or more is sent as it was typed |
| Candidates.AddCandidates | Lab/sofsip-cli-0.16/src/ssc_media_nice.c:544-586 | the text built by the loop is the printed attributes of the candidates in order |
| Candidates.SetRemoteCandidates | Lab/sofsip-cli-0.16/src/ssc_media_nice.c:660-787 | the two lists set are the candidates of the attributes by component; with no RTP candidate the RTP list is one host candidate of foundation "1", component 1 and priority 1 at the c-line's address and the m-line's port, and ICE mode is off; attributes that are all idle leave just that and no RTCP candidate |
| Candidates.ReadAttributes | Lab/sofsip-cli-0.16/src/ssc_media_nice.c:686-741 | the attribute loop collects the candidates of each component in order and the last credentials |
| Candidates.CandidateRoundTrip | Lab/sofsip-cli-0.16/src/ssc_media_nice.c:544-787 | printing RTP and RTCP candidates and parsing the attributes gives the same two lists in order, whatever idle attributes stand around them |
| Candidates.AttributesParse | Lab/sofsip-cli-0.16/src/ssc_media_nice.c:686-741 | the printed lines of one component parse back to its list and add nothing to the other |
| Candidates.LineParses | Lab/sofsip-cli-0.16/src/ssc_media_nice.c:698-732 | one printed line parses to its candidate and component |
| Candidates.LineScans | Lab/sofsip-cli-0.16/src/ssc_media_nice.c:698-707 | the format of sscanf reads the printed line into its fields |
| Candidates.IdleAddsNothing | Lab/sofsip-cli-0.16/src/ssc_media_nice.c:711-732 | lines that are not UDP, are too short or name another component add nothing |
| Candidates.WideLineParses | Lab/sofsip-cli-0.16/src/ssc_media_nice.c:698-724 | a line from elsewhere: a long foundation is cut, the priority wraps at 2^32 and the port at 2^16 |
| Candidates.SignedNumber | Lab/sofsip-cli-0.16/src/ssc_media_nice.c:698-707 | a number may have a sign; minus wraps at 2^64 and what is too large sticks at the largest value |
| Candidates.LastValueIs | Lab/sofsip-cli-0.16/src/ssc_media_nice.c:735-741 | of several credentials the last attribute of the name counts |
| Candidates.TypeWords | Lab/sofsip-cli-0.16/src/ssc_media_nice.c:475-481 | the words of the four candidate types |
| Candidates.LineLooks | Lab/sofsip-cli-0.16/src/ssc_media_nice.c:557-563 | one line character by character |
| Candidates.PrintedLines | Lab/sofsip-cli-0.16/src/ssc_media_nice.c:557-563 | cut at CR LF, printed attributes come back one to a line, each as `a=name:value` |
| NiceMedia.EveryRunKeeps | Lab/sofsip-cli-0.16/src/ssc_media_nice.c:147-302 | in every reachable state active media has a live stream and two test packets since activation, the sent-test counter is 0 or 2, the only timer is the one named, and tests plus looped packets are the packets that came |
| NiceMedia.StepKeeps | Lab/sofsip-cli-0.16/src/ssc_media_nice.c:147-302 | the same invariant for one event |
| NiceMedia.RunKeeps | Lab/sofsip-cli-0.16/src/ssc_media_nice.c:147-302 | the same from any state that satisfies it |
| NiceMedia.LoopedDiffersOnlyInSsrc | Lab/sofsip-cli-0.16/src/ssc_media_nice.c:226-236 | a looped packet differs from its input in bytes 8 to 11 only, which then hold the SSRC |
| NiceMedia.PickedDiffers | Lab/sofsip-cli-0.16/src/ssc_media_nice.c:215-224 | the SSRC picked differs modulo 2^32 from the one it was derived from; it is 0 for exactly one input |
| NiceMedia.SsrcStays | Lab/sofsip-cli-0.16/src/ssc_media_nice.c:215-229 | a picked SSRC stays over any run without an activation |
| NiceMedia.LaterPacketsCarrySsrc | Lab/sofsip-cli-0.16/src/ssc_media_nice.c:215-236 | every later looped packet longer than 11 bytes carries it |
| NiceMedia.LoadStore | Lab/sofsip-cli-0.16/src/ssc_media_nice.c:221-228 | four bytes written from a 32-bit number read back as that number |
| NiceMedia.SscMediaNice.Recv | Lab/sofsip-cli-0.16/src/ssc_media_nice.c:187-237 | the buffer, the counters and the state after a packet |
| NiceMedia.SscMediaNice.SenderTick | Lab/sofsip-cli-0.16/src/ssc_media_nice.c:147-185 | the timer either sends two test packets once or ends |
| NiceMedia.SscMediaNice.ComponentStateChanged | Lab/sofsip-cli-0.16/src/ssc_media_nice.c:254-302 | starts, stops or keeps the timer by the two component states |
| NiceMedia.SscMediaNice.CandidateGatheringDone | Lab/sofsip-cli-0.16/src/ssc_media_nice.c:239-252 | gathering is noted and a live stream becomes ready |
| NiceMedia.SscMediaNice.ActivateNice | Lab/sofsip-cli-0.16/src/ssc_media_nice.c:417-472 | counters are reset and a stream opened unless one is live |
| NiceMedia.SscMediaNice.Deactivate | Lab/sofsip-cli-0.16/src/ssc_media_nice.c:799-829 | the stream is gone and media disabled |
| NiceSteps.ComponentChanges | Lab/sofsip-cli-0.16/src/ssc_media_nice.c:254-302 | on the agent's stream exactly one timer is outstanding once both components are ready, the old one if there was one and the fresh one otherwise; none once both are disconnected or one failed, which also puts media in error and counts a failure; in every other case and on another stream timers and media state stay, and nothing else ever changes |
| NiceSteps.TimerTicks | Lab/sofsip-cli-0.16/src/ssc_media_nice.c:147-185 | a tick while media is active or locally ready and no test was sent sends two; any other ends the timer |
| NiceSteps.TestsAreSent | Lab/sofsip-cli-0.16/src/ssc_media_nice.c:254-302 | the run from a new agent that ends with two test packets sent |
| NiceSteps.TestArrives | Lab/sofsip-cli-0.16/src/ssc_media_nice.c:204-213 | twelve bytes with 127 in the second are a test packet; the first leaves the state, the second makes it active |
| NiceSteps.OtherArrives | Lab/sofsip-cli-0.16/src/ssc_media_nice.c:215-229 | any other packet never changes the state, is counted as looped and, if it is the first RTP packet, gives the SSRC: its own number plus one modulo 2^32 |
| NiceSteps.AnyArrives | Lab/sofsip-cli-0.16/src/ssc_media_nice.c:187-203 | a packet of another stream is ignored; RTP is version 2 in at least 12 bytes |
| NiceSteps.LoopedCarries | Lab/sofsip-cli-0.16/src/ssc_media_nice.c:226-236 | bytes 8 to 11 of a looped packet are the SSRC, least significant first |
| NiceSteps.Activates | Lab/sofsip-cli-0.16/src/ssc_media_nice.c:417-472 | an activation is refused on a live stream and otherwise sets every field anew except the timer and the component states |
| NiceSteps.Deactivates | Lab/sofsip-cli-0.16/src/ssc_media_nice.c:799-829 | deactivation drops the stream, disables media and leaves an outstanding timer |
| PipeFraming.StreamRoundTrip | RestCommClient/Classes/CliInterface/ssc_sip.h:201-278 | deserializing the concatenation of any non-empty sequence of `$`-free replies until nothing remains gives the sequence back |
| PipeFraming.MessageRoundTrip | RestCommClient/Classes/CliInterface/ssc_sip.h:201-278 | one message is recovered whatever follows it, and exactly what follows remains |
| PipeFraming.MessageSurvivesWhen | RestCommClient/Classes/CliInterface/ssc_sip.h:201-278 | a reply survives if and only if its text has no `$` |
| PipeFraming.MessagesLook | RestCommClient/Classes/CliInterface/ssc_sip.h:201-210 | two messages character by character |
| PipeFraming.NoTerminator | RestCommClient/Classes/CliInterface/ssc_sip.h:221-232 | without `$` nothing is decoded and nothing remains |
| PipeFraming.OddCodes | RestCommClient/Classes/CliInterface/ssc_sip.h:255-278 | a code above the range of int is received as the largest int, and one that is no number as 0 |
| PipeFraming.SmallCodes | RestCommClient/Classes/CliInterface/ssc_sip.h:255-278 | a code below the range is received as the smallest int |
| PipeFraming.NoCode | RestCommClient/Classes/CliInterface/ssc_sip.h:255-278 | a message without a code keeps the code of the message before it |
| PipeFraming.NoText | RestCommClient/Classes/CliInterface/ssc_sip.h:255-278 | a message without a blank keeps the text of the message before it |
| PipeFraming.Receive | RestCommClient/Classes/SipManager/SipManager.mm:316-327 | the read loop yields the replies of the message, the remainder shrinking each time |
| PipeFraming.SofiaReply.Deserialize | RestCommClient/Classes/CliInterface/ssc_sip.h:221-232 | the first message is decoded and the rest returned; without `$` nothing changes and nothing is returned |
| PipeFraming.SofiaReply.DeserializeSingle | RestCommClient/Classes/CliInterface/ssc_sip.h:255-278 | the getline loop with its changing delimiter assigns the code and the text |
| Decimal.PrintRoundTrip | RestCommClient/Classes/CliInterface/ssc_sip.h:205-205 | a printed number is all digits and reads back as itself |
| Decimal.NoLeadingZero | RestCommClient/Classes/CliInterface/ssc_sip.h:205-205 | only 0 is printed with a leading 0 |
| Decimal.TenDigits | RestCommClient/Classes/CliInterface/ssc_sip.h:205-205 | the ten digits stand for their values |
| Text.BlankCharacters | RestCommClient/Classes/CliInterface/ssc_sip.h:264-268 | which characters are skipped as blanks |
| Decimal.SpanOfDigits | RestCommClient/Classes/CliInterface/ssc_sip.h:264-268 | reading stops exactly behind the digits |
| CommandInput.StrSep | RestCommClient/Classes/CliInterface/ssc_input.cpp:128-128 | one token is cut out of the buffer in place |
| CommandInput.TokenEnd | RestCommClient/Classes/CliInterface/ssc_input.cpp:128-128 | the walk stops at the first `$` or at the end |
| CommandInput.ReadCommands | RestCommClient/Classes/CliInterface/ssc_input.cpp:106-147 | the loop dispatches the commands of the buffer in order up to the first empty one |
| CommandInput.FramedCommands | RestCommClient/Classes/CliInterface/ssc_input.cpp:116-147 | commands framed with `$` are dispatched one by one, whatever follows them |
| CommandInput.FirstCommand | RestCommClient/Classes/CliInterface/ssc_input.cpp:128-146 | the first framed command is dispatched first, and then the commands of the rest |
| CommandInput.LastCommand | RestCommClient/Classes/CliInterface/ssc_input.cpp:128-135 | an unterminated tail is dispatched like a command, and an empty command hides everything behind it |
| PortScan.BindUdpPort | Lab/sofsip-cli-0.16/src/farsight-netsocket-utils.c:62-142 | the first bindable port of the scan decides; success returns it, with the port above it for a pair; nothing but what is returned stays open |
| PortScan.TryPort | Lab/sofsip-cli-0.16/src/farsight-netsocket-utils.c:97-127 | one round binds the port and its partner or closes what it opened |
| PortScan.Round | Lab/sofsip-cli-0.16/src/farsight-netsocket-utils.c:83-133 | one turn of the loop settles the scan or leaves the one socket unbound and the rest of the scan to decide |
| PortScan.OnlyReturnedStayOpen | Lab/sofsip-cli-0.16/src/farsight-netsocket-utils.c:62-142 | on every exit the newly open sockets are exactly the ones returned, and an aux socket holds the port above |
| PortScan.VisitsAreDistinct | Lab/sofsip-cli-0.16/src/farsight-netsocket-utils.c:83-133 | the up to 4096 ports of a scan are pairwise distinct |
| PortScan.VisitIs | Lab/sofsip-cli-0.16/src/farsight-netsocket-utils.c:132-132 | the port of each round: start parity until the scan wraps modulo 65535 |
| PortScan.FirstBindableIsFirst | Lab/sofsip-cli-0.16/src/farsight-netsocket-utils.c:83-133 | the deciding round is the first whose port can be bound |
| PortScan.LostPairEndsScan | Lab/sofsip-cli-0.16/src/farsight-netsocket-utils.c:107-127 | if the partner of the first bindable port is taken, the scan returns nothing and leaves nothing open, whatever ports come later |
| PortScan.MissedPair | Lab/sofsip-cli-0.16/src/farsight-netsocket-utils.c:107-133 | with 5000 free but not 5001, the free pair 5002 and 5003, next in the scan, is missed |
| PortScan.ScanNumbers | Lab/sofsip-cli-0.16/src/farsight-netsocket-utils.c:83-133 | a scan has 4096 rounds, its ports are two apart modulo 65535, and the partner of a port is the next one modulo 65536 |

## Left out

- Help output, translation, parse hooks and callbacks; help is disabled.
- Entries with G_OPTION_FLAG_OPTIONAL_ARG, of whatever type, and with G_OPTION_FLAG_NO_ARG on a callback.
- UTF-8 conversion, file name conversion and number reading of the option parser are arbitrary functions that may fail.
- A context that parses a second time: its change list would still hold the first parse.
- OptionContext.OptionContext.FreeChanges: a text given twice and then undone is a freed pointer in C; the model shows the text it pointed to.
- Option scans take argv as a sequence of strings, since no slot is written before the scan ends; the array itself is changed by the methods that null and compact it.
- Two entries that write one variable under different types.
- Calls that omit a destination and so retarget an existing operation, and `ssc_oper_check`, which follows the wrong pointer.
- The SIP stack, the signal system, the SDP library, libnice and GStreamer: their calls are logged, their events and answers arbitrary. The user callbacks of the client are left out.
- Freed memory: the record of a destroyed operation keeps its last contents, which is what a callback for it reads, and its place is never used again.
- Commands and events that change no state modelled here (cancel, list, INFO within a call, forks, PRACK, NOTIFY received), and the pending authentications next to the calls: `AuthQueue` treats the liveness of an operation as an arbitrary predicate.
- Media that signals its own deactivation, as the NICE agent does: the callback ignores that signal, and the model of the calls does not log it.
- Caching of SDP texts in the media object.
- Splitting the SDP attributes out of a text, which the SDP library does, and the assertion on a candidate's address.
- The unknown candidate type is an arbitrary one of the known types.
- Reading a 32-bit priority through a longer conversion, which in C writes past it; the model reads the number.
- Disposing of the media agent; the byte order is little-endian.
- The GStreamer media implementation and the rest of the STUN socket code.
- Address family and host checks of the port allocator; a bind succeeds for a fixed set of ports during a scan, and port 0 has no meaning of its own.
- Messages split over separate reads, failed reads, the readline branch of the command reader, and a read without any `$`.
- The Objective-C client, its applications and the BoringSSL headers.
