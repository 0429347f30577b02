# webports: proved models of six components

This project models the code of six components of the webports repository and proves what they are
for. Every model takes the branches, constants and error results of the code it cites.

- **DNS names** (`DnsNames`, `DnsPaths`, `DnsUnpack`, `DnsPacked`, `DnsFind`, `DnsPack`, `DnsSession`, `DnsText`,
  `DnsSpelling`, `DnsTextCode`, `DnsCompress`): `ns_name.c` of glibc-compat. A recursive denotation says
  which name the octets at a position of a message stand for; the loops that follow compression
  pointers, count the octets they visit, search the pointer table and copy labels are proved against
  it. Whole messages, written by any run of packs, failed packs, other octets and roll-backs, read
  back name by name, and names survive the way to text and back.
- **Pipes and processes** (`Pipes`, `PipeSteps`, `PipeServers`, `Processes`, `ProcessRuns`, `ProcessSteps`,
  `ProcessReplies`, `ProcessManagers`): the
  JavaScript process manager and its pipe server as a small kernel. Each message handler is one
  step, whose answers and effects are written out; the classes carry the fields the handlers assign, and each
  method equals its step.
- **Coroutine threads** (`Chain`, `ThreadQueues`, `Threads`, `ThreadRuns`, `ThreadSteps`, `Schedulers`): dreadthread. The
  circular doubly linked list is proved in memory on the sequence it holds, the queues on rings of
  such links, and the scheduler on those queues. A step is what the current thread does up to the
  next point at which another thread may run.
- **File tree walk** (`TreeWalk`, `TreeChildren`, `FtsStreams`): fts with FTS_NOCHDIR. The recursive traversal of a
  hierarchy, which may be cyclic, is cut into calls that move one place, and those are proved of
  linked nodes that are allocated and freed.
- **Build sharding** (`BuildOrder`, `Partition`): the build order of packages and the greedy partition of
  projects onto shards.
- **Internet addresses** (`InetText`, `InetForms`, `InetAccepts`, `InetDigits`, `InetCode`): `inet_pton`, with the shift
  for `::` done in place.

`Basics` and `Octets` hold what several of them share. `dafny verify dfyconfig.toml` checks the whole
project.

## Findings

Where the code does less than its documentation, its comments or its standard say, the model keeps
the code, exhibits an input and states exactly when the code does what was meant.

| what | input | exact condition |
|---|---|---|
| The counter of visited octets in `ns_name_unpack` (ports/glibc-compat/src/ns_name.c:399-411) is there to stop loops, but it also refuses names without one, even when every pointer leads before the run that holds it. | `DnsUnpack.BackwardPointersNotEnough` | `DnsUnpack.UnpackIffDenoted`: a denoted name is accepted exactly when it fits and the octets visited up to its last pointer are fewer than the message's. `DnsUnpack.NestedUnpacks`: names whose pointers lead into the message as it was before their run always are. |
| `setpgid` to a group that does not exist records the group's id as its member instead of the process (build_tools/naclprocess.js:784, 950-959). | `ProcessRuns.SetPgidWitness` | `ProcessRuns.SetPgidConsistentIff`: processes and groups stay in agreement exactly when the group named is the process's own pid or has a member other than the process. |
| A process that waits twice for the same child gets its exit status twice (build_tools/naclprocess.js:1009-1015). | `ProcessRuns.TwoWaitsTwice` | `ProcessRuns.StatusOnceIff`: every status is delivered once exactly when every exit of the run finds at most one of its parent's waits to answer. `ProcessRuns.EveryStatusOnce`: so it is if no process waits while it is waiting. |
| The test of a label's length in `ns_name_pton` masks with 0xc0, so 256 to 319 octets pass it (ports/glibc-compat/src/ns_name.c:236, 274). | `DnsText.LongLabelCaughtLate`, at every such label | `DnsText.ParseLimits`: whatever is accepted in the end keeps the limits; no text with such a label is, by the test of the whole name. |
| A `::` in a full IPv6 address is not "silently ignored", as the comment says: the groups after it become zero (ports/glibc-compat/src/inet_pton.c:126, 202-212). | `InetAccepts.GapLosesGroups`: 1:1:1:1::1:1:1:1 | `InetAccepts.FullAddressGap` and `InetAccepts.ShiftIff`: the shift gives prefix, zeros and suffix exactly when fewer than sixteen octets are written or those after the gap are zero. |
| A colon after the last group of an IPv6 address is accepted (ports/glibc-compat/src/inet_pton.c:167-181, 191-196). | `InetAccepts.ColonAfterGroup`: ::1: | `InetAccepts.TrailingColon`: after any text that ends with a group. `InetAccepts.AcceptsIff`: the texts that are accepted, exactly. |
| `fts_close` before the first `fts_read`, which its comment allows, reads the level of the node before the roots, which nothing has set (ports/glibc-compat/src/fts.c:243-245, 292-304). | `FtsStreams.CloseAtOnce`, at every level that memory may hold | `FtsStreams.CloseAtOnce`: all that was allocated is freed exactly when that level is not negative. |

## Model

| member | source | states |
|---|---|---|
| DnsNames.NestedDenotes | ports/glibc-compat/src/ns_name.c:392-413 | A name whose pointers lead into the message before their own run is denoted. |
| DnsNames.LoopDenotesNothing | ports/glibc-compat/src/ns_name.c:406-411 | A position that leads back to itself through pointers denotes no name, however many pointers are followed. |
| DnsNames.CycleDenotesNothing | ports/glibc-compat/src/ns_name.c:406-411 | Nor does a position from which such a loop is reached. |
| DnsPaths.DenotesIff | ports/glibc-compat/src/ns_name.c:357-424 | A position denotes a name exactly when a path of labels of 1 to 63 octets, bit strings and pointers, each told by its octets, leads from it to a root; the name is the labels on the path, and the octets visited are those up to its last pointer. |
| DnsPaths.OwnLengthIs | ports/glibc-compat/src/ns_name.c:395-396 | A name's own octets, which unpack returns as its length, end with its first pointer or its root. |
| DnsUnpack.PassesDenotes | ports/glibc-compat/src/ns_name.c:369-421 | Whatever the counted walk accepts is a denoted name, within as many pointers as the message has octets, and its wire form fits. |
| DnsUnpack.TakeLabel | ports/glibc-compat/src/ns_name.c:372-391 | A label is refused or copied behind what is written, and the walk goes on after it. |
| DnsUnpack.TakePointer | ports/glibc-compat/src/ns_name.c:392-413 | A pointer is refused outside the message or by the counter, or followed; the length is measured at the first. |
| DnsUnpack.UnpackLabels | ports/glibc-compat/src/ns_name.c:365-424 | The loop halts on every message and answers as the counted walk does. |
| DnsUnpack.Unpack | ports/glibc-compat/src/ns_name.c:346-425 | On every message the result is -1 or the length up to the first pointer or root; then the destination holds the wire form of the denoted name, and nothing beyond its room was written; a size of 0 counts as 1. |
| DnsUnpack.PassesExactly | ports/glibc-compat/src/ns_name.c:387-411 | Exactly when the counted walk accepts a denoted name: it fits and the visited octets stay below the length of the message. |
| DnsUnpack.UnpackIffDenoted | ports/glibc-compat/src/ns_name.c:346-425 | Unpack succeeds if and only if the position denotes a name that fits and whose octets visited up to its last pointer are fewer than the message's. |
| DnsUnpack.CycleRefused | ports/glibc-compat/src/ns_name.c:399-411 | A pointer cycle always gives -1. |
| DnsUnpack.NestedUnpacks | ports/glibc-compat/src/ns_name.c:387-411 | The counter never refuses a name whose pointers lead into the message as it was before their run. |
| DnsUnpack.BackwardPointersNotEnough | ports/glibc-compat/src/ns_name.c:399-411 | A ten-octet message with strictly backward pointers and a denoted name that the counter refuses. |
| DnsUnpack.Skip | ports/glibc-compat/src/ns_name.c:607-634 | The pointer is advanced over a name, or left alone with -1 on an illegal label or an overrun. |
| DnsUnpack.SkipAgrees | ports/glibc-compat/src/ns_name.c:607-634 | Over a name that unpack accepts, skip advances by the length unpack returns, or fails if and only if a bit-string label stands in the name's own octets. |
| DnsPacked.PackedDenotes | ports/glibc-compat/src/ns_name.c:485-535 | What pack leaves in a message is nested, denoted, and stands for the name recorded for it. |
| DnsFind.MatchAt | ports/glibc-compat/src/ns_name.c:704-743 | One comparison of dn_find: a match exactly when the packed name there equals the wanted one up to ASCII case. |
| Octets.FoldIff | ports/glibc-compat/src/ns_name.c:678-682 | Two octets fold to the same one exactly when they are equal or the two cases of one ASCII letter. |
| Octets.EqFoldIff | ports/glibc-compat/src/ns_name.c:723-725 | Two names match under the fold of the code exactly when they are as long and each two octets are equal or the two cases of one ASCII letter. |
| DnsFind.DnFind | ports/glibc-compat/src/ns_name.c:693-748 | What the search over the table gives: the position found, or none. |
| DnsFind.FindFirst | ports/glibc-compat/src/ns_name.c:693-748 | What is found is a label below 0x4000 of a name in the table and matches; no label of an earlier name matches, and none that comes before it in its own. |
| DnsFind.FindIff | ports/glibc-compat/src/ns_name.c:693-748 | Something is found exactly when some label it may point to matches. |
| DnsFind.FindComplete | ports/glibc-compat/src/ns_name.c:693-748 | When nothing is found, no label it may point to matches. |
| DnsPack.LegalLength | ports/glibc-compat/src/ns_name.c:472-483 | The length of a legal name of at most 255 octets, or -1. |
| DnsPack.LegalIff | ports/glibc-compat/src/ns_name.c:472-483 | That length is found exactly for names of labels below 64 octets that end within 255. |
| DnsPack.CopyLabel | ports/glibc-compat/src/ns_name.c:513-525 | A label is copied where it fits, and nothing outside the room is touched. |
| DnsPack.PackLabels | ports/glibc-compat/src/ns_name.c:486-528 | The labels are written up to the first suffix found, which becomes a pointer, or up to the root. |
| DnsPack.Pack | ports/glibc-compat/src/ns_name.c:445-535 | The compressed form is written and measured, or -1 leaves the table as it was; the table grows only by names whose first label was new, in range and had room. |
| DnsSession.ShortestForm | ports/glibc-compat/src/ns_name.c:486-528 | The labels of a name are written up to the first whose suffix can be pointed to, and then a pointer to such a place; without one the whole name is. It fits exactly when these octets do, after the root with one to spare. |
| DnsSession.TableGrows | ports/glibc-compat/src/ns_name.c:501-507 | A name joins the table exactly when its first label could not be pointed to, it stands below 0x4000 and there is room. |
| DnsSession.PackedOutput | ports/glibc-compat/src/ns_name.c:486-528 | A packed name reads back from the message as the name given, up to case, in exactly its octets. |
| DnsSession.PackKeeps | ports/glibc-compat/src/ns_name.c:445-535 | A pack, failed or not, keeps every name of the message readable and every table entry on a name. |
| DnsSession.CompressedSame | ports/glibc-compat/src/ns_name.c:693-748 | What pack writes depends only on octets that names occupy, so the writer may patch the others at any time. |
| DnsSession.RollbackKeeps | ports/glibc-compat/src/ns_name.c:588-599 | A roll-back keeps the names before it readable and drops every table entry at or after it. |
| DnsSession.RollbackTable | ports/glibc-compat/src/ns_name.c:588-599 | The loop over the table does just that. |
| DnsSession.CutIs | ports/glibc-compat/src/ns_name.c:588-599 | The table is left with its entries up to the first at or after the position, and no more. |
| DnsSession.PackNext | ports/glibc-compat/src/ns_name.c:445-535 | ns_name_pack on the buffer is the step of the session that the round trip is about. |
| DnsSession.RoundTrip | ports/glibc-compat/src/ns_name.c:445-535 | After any run of packs, failed packs, octets appended or patched where no name is, and roll-backs sharing a table, each pack with its own end of the array, unpacking at every packed name succeeds, consumes exactly the octets pack returned and yields that name up to ASCII case, whatever is appended later. |
| DnsText.ParseLimits | ports/glibc-compat/src/ns_name.c:234-263 | Every name accepted from text has labels of 1 to 63 octets and at most 255 octets in all. |
| DnsSpelling.ParsesIff | ports/glibc-compat/src/ns_name.c:162-295 | The texts accepted, and as what: labels of 1 to 63 octets with dots between them, at most 255 octets in all, each octet plain, after a backslash or as three digits, and no bit string; qualified exactly with a final dot after a label. |
| DnsSpelling.TextIs | ports/glibc-compat/src/ns_name.c:57-148 | The text written is the labels with dots between them and none at the end, six octets behind a backslash, other printable ones plain and the rest as digits; the root is a dot. |
| DnsText.LongLabelCaughtLate | ports/glibc-compat/src/ns_name.c:235-239 | A label of 256 to 319 octets passes the test of its length, yet no text that begins with one is accepted. |
| DnsText.CharParses | ports/glibc-compat/src/ns_name.c:174-226 | One octet written as text, plain, escaped or as three digits, is read as that octet. |
| DnsText.TextRoundTrip | ports/glibc-compat/src/ns_name.c:57-148 | The text of every well-formed wire name is read back as that name, qualified only for the root. |
| DnsText.TextInjective | ports/glibc-compat/src/ns_name.c:57-148 | Different names have different texts. |
| DnsTextCode.Ntop | ports/glibc-compat/src/ns_name.c:57-148 | The text of the name and its NUL are written when there is room; -1 otherwise and on an illegal label. |
| DnsTextCode.Pton | ports/glibc-compat/src/ns_name.c:162-295 | The name is rebuilt in the buffer with 1 for a fully qualified text and 0 otherwise, or -1. |
| DnsCompress.Compress | ports/glibc-compat/src/ns_name.c:573-582 | A text is packed as the name it stands for; on -1 the table holds what it held, and a text that is no name leaves buffer and table alone. |
| DnsCompress.Uncompress | ports/glibc-compat/src/ns_name.c:545-556 | The text of the name at a position, and the octets it takes, or -1. |
| DnsCompress.EndToEnd | ports/glibc-compat/src/ns_name.c:545-582 | From text into any message and back to text, equal up to case. |
| Pipes.WriteServes | build_tools/pipeserver.js:78-104 | Data written while reads wait goes to them in order, and what is left is queued. |
| Pipes.NextKeeps | build_tools/pipeserver.js:35-265 | Every handler keeps it that reads and writes never wait together, no queued item is empty, no reader waits without a writer, no data waits without a reader, and nothing is lost. |
| Pipes.ByteStream | build_tools/pipeserver.js:54-165 | In every reachable state, while a pipe has had a reader throughout, what was delivered followed by what is queued is all that was written, in order. |
| Pipes.DeletedHoldsNothing | build_tools/pipeserver.js:255-265 | A deleted process holds no pipe end, and every other process exactly what it held. |
| Pipes.NextMembers | build_tools/pipeserver.js:35-265 | No handler gives a pipe end to anyone but the creator of a pipe or the process spawned with it. |
| PipeSteps.ReadRefused | build_tools/pipeserver.js:109-163 | A read of nothing, or by a process that is no reader, is answered at once with nothing. |
| PipeSteps.ReadGets | build_tools/pipeserver.js:109-145 | With data queued the reader, and nobody else, gets as much of the first write as it asks for, and the rest stays queued in order. |
| PipeSteps.ReadWaits | build_tools/pipeserver.js:146-160 | With no data and a writer the answer is EAGAIN exactly for a read that must not block; any other gets none and is the last to wait. |
| PipeSteps.ReadEnds | build_tools/pipeserver.js:146-160 | With no data and no writer the answer is the end of the file. |
| PipeSteps.WriteRefused | build_tools/pipeserver.js:54-104 | A write by a process that is no writer is answered EPIPE and changes nothing. |
| PipeSteps.WriteFeeds | build_tools/pipeserver.js:54-104 | A write feeds the waiting reads in their order, each up to what it asked for, and is then answered; what is left is queued last, or the answer is EPIPE if nobody can read it. |
| PipeSteps.CreateOpens | build_tools/pipeserver.js:35-47 | A new pipe has a new id and its creator at both ends, and nothing else changes. |
| PipeSteps.CloseReleases | build_tools/pipeserver.js:170-200 | Closing takes that end of that pipe from the caller; the last reader's close fails the queued writes, the last writer's ends the waiting reads, and a pipe without ends is gone. |
| PipeSteps.DeleteReleases | build_tools/pipeserver.js:255-265 | A deleted process leaves both ends of every pipe and answers, pipe by pipe in the order of ids, exactly what it alone could have served. |
| PipeSteps.SpawnJoins | build_tools/pipeserver.js:220-250 | A spawned process joins exactly the ends its setup names, reading or writing, of pipes there are, and nobody is answered. |
| PipeServers.PipeServer.APipe | build_tools/pipeserver.js:35-47 | A new pipe with its creator at both ends, under a new id. |
| PipeServers.PipeServer.Write | build_tools/pipeserver.js:54-104 | The handler equals its step: EPIPE without a reader, waiting reads served in order, the rest queued. |
| PipeServers.PipeServer.Read | build_tools/pipeserver.js:109-163 | The handler equals its step, which PipeSteps.ReadRefused, ReadGets, ReadWaits and ReadEnds write out. |
| PipeServers.PipeServer.CloseAPipe | build_tools/pipeserver.js:170-200 | The end is given up; the last writer's leaving ends the waiting reads, the last reader's fails the queued writes, and an unheld pipe is gone. |
| PipeServers.PipeServer.AddProcessPipes | build_tools/pipeserver.js:220-250 | The ends named are joined, and the result tells whether standard input is one. |
| PipeServers.PipeServer.Delete | build_tools/pipeserver.js:255-265 | The process leaves every pipe. |
| ProcessRuns.SpawnKeeps | build_tools/naclprocess.js:1160-1314 | Spawn keeps table, groups, waits, foreground and pipes in order. |
| ProcessRuns.ExitKeeps | build_tools/naclprocess.js:995-1056 | So does exit, with any number of waits queued. |
| ProcessRuns.WaitKeeps | build_tools/naclprocess.js:1385-1451 | So does waitpid. |
| ProcessRuns.SetPgidConsistentIff | build_tools/naclprocess.js:742-792 | A successful setpgid keeps processes and groups in agreement if and only if the group is the process's own pid or has another member. |
| ProcessRuns.SetPgidWitness | build_tools/naclprocess.js:742-792 | From the empty table, two spawns and one setpgid after which a live process is in no group. |
| ProcessRuns.SetSidKeeps | build_tools/naclprocess.js:817-833 | setsid keeps everything in order. |
| ProcessRuns.EveryRun | build_tools/naclprocess.js:995-1451 | In every reachable state no exited child is unreaped while its parent waits for it; a pid is in the table until its status was delivered, to its parent; live processes and groups agree both ways, no group is empty and group ids are allocated pids; only live processes hold pipes or the foreground; every pipe has a member and keeps its data in order. |
| ProcessRuns.EveryStatusOnce | build_tools/naclprocess.js:1009-1034 | If no process waits while it is waiting, each status is delivered exactly once, when the table entry goes. |
| ProcessRuns.RunTwice | build_tools/naclprocess.js:1009-1034 | A run from any state of the invariant leaves no status delivered twice if and only if none was before and every exit finds at most one wait to answer. |
| ProcessRuns.StatusOnceIff | build_tools/naclprocess.js:1009-1034 | In every run each status is delivered exactly once if and only if every exit finds at most one wait to answer. |
| ProcessRuns.TwoWaitsTwice | build_tools/naclprocess.js:1009-1015 | Two waits for one child deliver its status twice. |
| ProcessRuns.SessionKept | build_tools/naclprocess.js:742-833 | A live process changes its session only by its own setsid. |
| ProcessReplies.StatusIs | build_tools/naclprocess.js:1385-1451 | waitpid tells a status exactly when a child that fits the pid asked for has exited: of the first such child, with the code recorded for it. |
| ProcessReplies.NoStatusIs | build_tools/naclprocess.js:1385-1451 | Otherwise the answer is ECHILD when there cannot be such a child, 0 with WNOHANG, and none without it. |
| ProcessReplies.WaitLeaves | build_tools/naclprocess.js:1385-1451 | The child told of is gone and its status logged, a blocked caller is the last to wait under its key, and nothing else changes. |
| ProcessReplies.StatusIsCode | build_tools/naclprocess.js:995-1451 | In every run a process exits at most once, and every status delivered to a waiting parent or told to a wait at once is the code it exited with. |
| ProcessSteps.SpawnAdds | build_tools/naclprocess.js:1160-1314 | A new process gets the next pid, its caller's group, or a group and session of its own, and the foreground unless its input is a pipe or another than its parent is there. |
| ProcessSteps.ExitAnswers | build_tools/naclprocess.js:1002-1034 | An exit tells its code to each wait of the parent that names the process, by pid, as any child or by group, and to no other; told to nobody, the process stays with its code. |
| ProcessSteps.ExitQueues | build_tools/naclprocess.js:1008-1023 | Exactly the parent's waits leave the three queues, the other waits stay in their order, and every other queue is as it was. |
| ProcessSteps.ExitLeaves | build_tools/naclprocess.js:995-1056 | The process leaves its group and its pipes, and if it was in front the nearest ancestor that has not exited takes its place. |
| ProcessSteps.SetPgidAnswers | build_tools/naclprocess.js:742-792 | EINVAL for a negative group; ESRCH for a process that does not run or is neither the caller nor its child; EPERM for one of another session, a session's leader or a group of another session; 0 in every other case. |
| ProcessSteps.SetPgidMoves | build_tools/naclprocess.js:742-792 | A refused setpgid changes nothing; any other moves the process to the group, as its only change when the group is its own pid or has another member. |
| ProcessSteps.SetSidMoves | build_tools/naclprocess.js:817-833 | setsid changes nothing for a process whose pid names a group; any other leads a session and a group of its own. |
| ProcessManagers.ProcessManager.SpawnProcess | build_tools/naclprocess.js:1160-1314 | The table part of spawn equals its step. |
| ProcessManagers.ProcessManager.ExitProcess | build_tools/naclprocess.js:995-1056 | exit equals its step. |
| ProcessManagers.ProcessManager.AnswerWaiters | build_tools/naclprocess.js:1008-1023 | Exactly the parent's waits under a key are answered and removed, the others keep their order. |
| ProcessManagers.ProcessManager.Ancestor | build_tools/naclprocess.js:1045-1052 | The foreground goes to the nearest ancestor that has not exited. |
| ProcessManagers.ProcessManager.Wait | build_tools/naclprocess.js:1385-1451 | waitpid equals its step, with its reply, which ProcessReplies.StatusIs, NoStatusIs and WaitLeaves write out. |
| ProcessManagers.ProcessManager.SetPGID | build_tools/naclprocess.js:742-792 | setpgid equals its step, with its error results. |
| ProcessManagers.ProcessManager.SetSID | build_tools/naclprocess.js:817-833 | setsid equals its step. |
| ProcessManagers.ProcessManager.CreateProcessGroup | build_tools/naclprocess.js:950-959 | The new group has its id as its member; the precondition, which every handler meets, is what the original throws without. |
| ProcessManagers.ProcessManager.DeleteProcessFromGroup | build_tools/naclprocess.js:967-980 | The process leaves its group, and an empty group goes; the precondition, which every handler meets, is what the original throws without. |
| Chain.Init | ports/dreadthread/dread_chain.c:97-101 | The anchor alone is an empty ring. |
| Chain.Empty | ports/dreadthread/dread_chain.c:66-71 | True exactly for the empty sequence. |
| Chain.Delete | ports/dreadthread/dread_chain.c:74-82 | The link leaves its ring, whose sequence is otherwise unchanged, and is alone in its own. |
| Chain.Dequeue | ports/dreadthread/dread_chain.c:85-94 | The first element leaves, or null. |
| Chain.InsertAfter | ports/dreadthread/dread_chain.c:104-115 | The new link follows the given one. |
| Chain.InsertBefore | ports/dreadthread/dread_chain.c:118-129 | The new link precedes the given one. |
| ThreadQueues.Queues.Enqueue | ports/dreadthread/dreadthread_chain.h:64-69 | The thread joins the tail of one queue; every other queue keeps its ring and its sequence. |
| ThreadQueues.Queues.Dequeue | ports/dreadthread/dreadthread_chain.h:64-69 | The head leaves one queue, is then in none, and every other queue is unchanged. |
| Threads.WakeKeeps | ports/dreadthread/dread.c:324-329 | Waking a thread keeps placement, continuations and wake-ups. |
| Threads.DropKeeps | ports/dreadthread/dread.c:310-333 | A drop keeps it that a contended semaphore has as many woken threads on their way as units. |
| Threads.TakenKeeps | ports/dreadthread/dread.c:266-297 | So does a successful take, by a woken thread or a barging one. |
| Threads.SignalKeeps | ports/dreadthread/dread.c:391-425 | So does a signal of any number of threads. |
| Threads.LockIsFree | ports/dreadthread/dread.c:596-617 | The launcher's lock is free whenever a thread is about to take it, so starting a thread never blocks. |
| Threads.NextKeeps | ports/dreadthread/dread.c:173-894 | Every step keeps the whole invariant: placement, states, semaphore values, wake-ups, the launcher. |
| ThreadRuns.StartKeeps | ports/dreadthread/dread.c:903-917 | The state in which multithreading begins has it. |
| ThreadRuns.EveryRun | ports/dreadthread/dread.c:173-239 | In every run each started thread is in exactly one place: current, on the run queue, on one semaphore's or event's queue, on the new-thread queue, or exited; its state agrees, and no queue holds it twice. |
| ThreadRuns.WakeupsKept | ports/dreadthread/dread.c:241-389 | In every reachable state a value is never negative, and while threads wait for a semaphore at least that many woken ones sit on the run queue or are about to test it again, whoever else takes units. |
| ThreadRuns.UnitsConserved | ports/dreadthread/dread.c:241-389 | The value is the first one, plus the drops, less the successful takes of the run. |
| ThreadRuns.BoundedWaiting | ports/dreadthread/dread.c:173-239 | The thread at index i of the run queue becomes current at context switch i + 1 and not before, whatever the others do. |
| ThreadRuns.OneSwitch | ports/dreadthread/dread.c:173-239 | No step holds two context switches. |
| ThreadRuns.HaltsOnlyInDeadlock | ports/dreadthread/dread.c:207-239 | The scheduler halts only when nothing is runnable or new, the launcher sleeps, and every other started thread has exited or waits for a signal or for a semaphore without units. |
| ThreadRuns.SignalMoves | ports/dreadthread/dread.c:391-425 | A signal moves the first waiting threads, up to its count, to the run queue in the order they waited. |
| ThreadRuns.BroadcastWakesAll | ports/dreadthread/dread.c:427-455 | A broadcast leaves nobody waiting, if and only if the waiting threads are no more than an unsigned int counts. |
| ThreadSteps.YieldGivesWay | ports/dreadthread/dread.c:173-195 | A yield makes the head of the run queue current and the caller its tail, with one switch; with an empty run queue it changes nothing. |
| ThreadSteps.TryGoesOn | ports/dreadthread/dread.c:241-264 | A try takes a unit if there is one, and the caller goes on. |
| ThreadSteps.TakeGivesWay | ports/dreadthread/dread.c:266-297 | A take gives way before its test. |
| ThreadSteps.TestStops | ports/dreadthread/dread.c:266-297 | A test without a unit puts the caller at the end of the semaphore's queue and switches to the head of the run queue. |
| ThreadSteps.TestGoesOn | ports/dreadthread/dread.c:266-297 | With a unit the caller takes it and goes on. |
| ThreadSteps.DropGivesWay | ports/dreadthread/dread.c:310-343 | A drop adds a unit, puts the semaphore's first waiting thread on the run queue, and gives way behind it. |
| ThreadSteps.WaitStops | ports/dreadthread/dread.c:345-389 | A wait puts the caller at the end of the event's queue, drops the lock as a drop does, and switches. |
| ThreadSteps.SignalReadies | ports/dreadthread/dread.c:391-455 | A signal puts the first waiting threads, up to its count, on the run queue in their order; it gives way if it is to yield, and otherwise goes on. |
| ThreadSteps.ExitStops | ports/dreadthread/dread.c:512-541 | An exit switches to the head of the run queue, and the caller is nowhere. |
| ThreadSteps.RunGivesWay | ports/dreadthread/dread.c:596-617 | A thread run joins the new threads, the launcher is made ready if it slept, and the caller gives way with the lock as it was. |
| ThreadSteps.LauncherStops | ports/dreadthread/dread.c:760-894 | Without a new thread the launcher frees its lock, sleeps and switches. |
| ThreadSteps.LauncherGoesOn | ports/dreadthread/dread.c:760-894 | Otherwise the first new thread joins the run queue and the launcher goes on, taking its lock again when the stack grew. |
| Schedulers.Scheduler.constructor | ports/dreadthread/dread.c:497-510 | The state in which multithreading begins, on rings in memory. |
| Schedulers.Scheduler.YieldTo | ports/dreadthread/dread.c:173-195 | Yield equals its step: nothing happens without another runnable thread. |
| Schedulers.Scheduler.ThreadSleep | ports/dreadthread/dread.c:207-239 | Sleep equals its step. |
| Schedulers.Scheduler.SemaphoreTry | ports/dreadthread/dread.c:241-264 | A unit is taken if there is one. |
| Schedulers.Scheduler.TakeOrWait | ports/dreadthread/dread.c:266-297 | The loop test of a take equals its step. |
| Schedulers.Scheduler.SemaphoreDrop | ports/dreadthread/dread.c:310-343 | A drop wakes the first waiter and yields. |
| Schedulers.Scheduler.EventWait | ports/dreadthread/dread.c:345-389 | The thread joins the event's queue, drops the lock and sleeps. |
| Schedulers.Scheduler.EventQToRunQ | ports/dreadthread/dread.c:391-425 | The loop equals its step. |
| Schedulers.Scheduler.ThreadRunLocked | ports/dreadthread/dread.c:596-617 | The rest of starting a thread equals its step. |
| Schedulers.Scheduler.ThreadExit | ports/dreadthread/dread.c:512-541 | Exit equals its step. |
| Schedulers.Scheduler.ThreadLauncher | ports/dreadthread/dread.c:760-894 | The launcher equals its step: a free stack, a new one, or a wait. |
| Schedulers.Scheduler.Serve | ports/dreadthread/dread.c:173-894 | Whatever the current thread calls, the variables and rings in memory go to the next state of the model, which ThreadSteps writes out, and stay valid. |
| TreeWalk.ReadKeeps | ports/glibc-compat/src/fts.c:341-529 | A call keeps the way down without repeated directories and its siblings classified. |
| TreeWalk.ReadIsNext | ports/glibc-compat/src/fts.c:341-529 | A call returns the next node of what is to come, and none exactly when nothing is. |
| TreeWalk.ReadsAreTraversal | ports/glibc-compat/src/fts.c:341-529 | Call number k returns node number k of the recursive traversal, and none past its end, on every finite hierarchy, cyclic ones included. |
| TreeWalk.TraversalNests | ports/glibc-compat/src/fts.c:341-529 | Pre-order and post-order visits nest, a cycle is reported exactly for a directory that is open, and all are closed at the end. |
| TreeChildren.BelowAreEntries | ports/glibc-compat/src/fts.c:341-529 | Below a directory that is entered come, in order, exactly its entries whose name is neither "." nor "..", each with its name, id and path, a directory on the way down as a cycle; nothing when the walk must not leave the device. |
| TreeChildren.TopAreArguments | ports/glibc-compat/src/fts.c:148-284 | At the top come the arguments in their order, each under its last part. |
| TreeChildren.ListedAreEntries | ports/glibc-compat/src/fts.c:777-880 | The list that fts_build makes of a directory is those entries. |
| FtsStreams.Fts.constructor | ports/glibc-compat/src/fts.c:148-260 | The roots are linked in order, classified, and stand before the first call. |
| FtsStreams.Fts.FtsLoad | ports/glibc-compat/src/fts.c:262-284 | A root's path is its argument and its name what follows the last slash. |
| FtsStreams.Fts.FtsStat | ports/glibc-compat/src/fts.c:910-988 | A directory equal to any above it closes a cycle, and only such a one. |
| FtsStreams.Fts.ReadEntries | ports/glibc-compat/src/fts.c:777-880 | The children are linked in directory order as TreeChildren.ListedAreEntries lists them, and the path is left as it was. |
| FtsStreams.Fts.MoveDown | ports/glibc-compat/src/fts.c:385-434 | Into a directory, or over an empty one or one on another device. |
| FtsStreams.Fts.MoveAlong | ports/glibc-compat/src/fts.c:438-484 | To the next sibling; the node left is freed. |
| FtsStreams.Fts.MoveUp | ports/glibc-compat/src/fts.c:485-528 | To the parent, seen after what is below it. |
| FtsStreams.Fts.FtsRead | ports/glibc-compat/src/fts.c:340-529 | Call number k + 1 returns node number k of the traversal under its path, null past the end; only allocated nodes are freed, which may then hold anything, none comes back, and whatever the call allocates is accounted for. |
| FtsStreams.Fts.FtsClose | ports/glibc-compat/src/fts.c:286-330 | Every node that is left is freed, and none twice, if and only if a call of fts_read came before or the level of the node before the roots is not negative; otherwise only that node is. |
| FtsStreams.WalkAndClose | ports/glibc-compat/src/fts.c:148-529 | Open, any k calls from 1 on, and close: the first k nodes of the traversal, and every node that any of them allocated is freed exactly once. |
| FtsStreams.CloseAtOnce | ports/glibc-compat/src/fts.c:286-304 | Open and close at once: everything allocated is freed if and only if the unset level of the first node is not negative. |
| BuildOrder.OrderSorted | build_tools/partition.py:78-88 | The build order lists what the packages need, each once and after all it depends on. |
| BuildOrder.GetBuildOrder | build_tools/partition.py:78-88 | The nested loops compute that order. |
| BuildOrder.GetDependencies | build_tools/partition.py:91-93 | What the packages need, without the packages. |
| Partition.DependenciesOk | build_tools/partition.py:119-125 | Projects made with get_dependencies depend on all that their dependencies depend on. |
| Partition.ProjectTime | build_tools/partition.py:132-137 | The loop gives the project's time and that of its unused dependencies. |
| Partition.ProjectTimes.AddProject | build_tools/partition.py:182-194 | The project and all it depends on are there, each once and in dependency order, and the total is the one predicted before. |
| Partition.ProjectTimes.TopologicallySortedProjectNames | build_tools/partition.py:199-211 | The names as they are listed, without repetition, each after its dependencies. |
| Partition.Least | build_tools/partition.py:226-227 | The first shard whose predicted total is least. |
| Partition.Deal | build_tools/partition.py:224-228 | A project that a shard already has changes nothing; any other goes, with what it needs, to the first shard whose predicted total is least, and no other shard changes. |
| Partition.GetPartition | build_tools/partition.py:214-229 | Every project is dealt to one shard; a shard holds what the projects dealt to it need and no more, each once and in dependency order, with the total of what it lists; and no two totals differ by more than the largest time of a project with all its dependencies. |
| Partition.FullTimeIs | build_tools/partition.py:132-137 | The time of a project with all its dependencies is the total of the times of itself and them. |
| InetText.QuadIff | ports/glibc-compat/src/inet_pton.c:78-117 | inet_pton4 accepts exactly four decimal fields of at most 255 between dots, as their values. |
| InetDigits.HexIs | ports/glibc-compat/src/inet_pton.c:137-160 | A hexadecimal digit is its place in either of the two lists of sixteen, and no other character is one. |
| InetDigits.AddressReadsBack | ports/glibc-compat/src/inet_pton.c:132-215 | Sixteen octets written as eight groups of four digits, of either case, are read back. |
| InetDigits.QuadReadsBack | ports/glibc-compat/src/inet_pton.c:78-117 | Four octets written in decimal are read back. |
| InetForms.ScanTokens | ports/glibc-compat/src/inet_pton.c:154-181 | Groups and gap are read token by token into their octets. |
| InetAccepts.FormAccepted | ports/glibc-compat/src/inet_pton.c:132-215 | Every text that fits is accepted as its octets around its gap. |
| InetAccepts.AcceptsIff | ports/glibc-compat/src/inet_pton.c:132-215 | The accepted texts are exactly those that fit. |
| InetAccepts.RfcAccepted | ports/glibc-compat/src/inet_pton.c:132-215 | Every text form of section 2.2 of RFC 4291, in pieces of one to four digits, is accepted and decoded to prefix, zeros and suffix. |
| InetAccepts.ShiftIff | ports/glibc-compat/src/inet_pton.c:197-210 | Exactly when the shift yields prefix, zeros and suffix. |
| InetAccepts.FullAddressGap | ports/glibc-compat/src/inet_pton.c:202-212 | In a full address the octets after a gap are lost. |
| InetAccepts.GapLosesGroups | ports/glibc-compat/src/inet_pton.c:202-212 | 1:1:1:1::1:1:1:1 is accepted without its last four groups. |
| InetAccepts.TrailingColon | ports/glibc-compat/src/inet_pton.c:167-181 | A colon after the last group changes nothing. |
| InetAccepts.ColonAfterGroup | ports/glibc-compat/src/inet_pton.c:167-181 | ::1: is accepted as ::1. |
| InetCode.InetPton4 | ports/glibc-compat/src/inet_pton.c:78-117 | The loop equals its scan, and the destination is written only on success. |
| InetCode.Shift | ports/glibc-compat/src/inet_pton.c:197-210 | The overlapping shift in place equals its function. |
| InetCode.InetPton6 | ports/glibc-compat/src/inet_pton.c:132-215 | The loop equals its scan and shift, and the destination is written only on success. |

## Left out

- Bit-string labels: modelled in ns_name_unpack and ns_name_skip only; pack, dn_find and the text functions are modelled on names without them. DnsUnpack.Unpack refuses at once where the original reads a bit count at the end of the message and then refuses.
- ns_name_ntol, and the sizes of C integers in the DNS code other than those its tests use.
- DnsPack.Pack: the pointer array is an object with a sequence of positions, and a name is entered in it after copying; the original enters it before and takes it out again on failure.
- DnsCompress.Uncompress: asks that the name at the position holds no bit-string label and that its labels are ordinary ones.
- Message buffers that are only read are sequences; those that are written are arrays.
- DOM elements beyond their parent and whether their process has exited, terminals, popups, mounts, manifests and what spawn does asynchronously; each handler is one step with a live sender.
- Overlay spawn, which changes the page element under one pid, and handleMessageDeadPid_, a spawn followed by an exit.
- ProcessRuns.EveryRun: leaves out runs with a setpgid that ProcessRuns.SetPgidConsistentIff shows to break the agreement, and pids of messages from processes that are not running.
- Replies: that each write or read is answered exactly once is not claimed; closeAPipe answers queued writes that were answered before, and a read can outlive its reader's closing.
- ECHILD for a wait on any child without children: the original queues the wait, and so does the model.
- Saved contexts, stack growth, magic numbers and stack reuse; a free stack is a choice the model leaves open at each launch.
- dthr_on_deadlock, and the DThr_ layer and dthr_thread_wait, whose semaphore exit never drops.
- Schedulers.Scheduler.constructor: the semaphores and events of a run, and the links of its threads, are given at its start; the original may initialise more at any time. Semaphore values are not bounded by the width of an int.
- fts with directory changes, fts_set, fts_children, FTS_SEEDOT, FTS_NOSTAT, comparison routines, system calls that fail, and the growth of the path buffer. FtsStreams.Fts.FtsStat looks a file up by identity where the original goes by its path, which the model keeps.
- Partition.GetPartition: sorting by time is left to the caller, since what is promised holds in whatever order the projects are dealt out; times are not negative and every dependency has a project.
- BuildOrder.GetBuildOrder: package names that do not exist, for which the original raises an error, and cyclic dependencies, for which it does not end.
- Downloads, canned partitions and everything else of partition.py that reads files or the network.
- InetCode.InetPton6: a text is the characters before its NUL; inet_pton's choice of family is left out.
