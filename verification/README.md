# Verified models of dragons-net

Dafny models of the parts of dragons-net whose correctness does not show from one function: the io_uring echo host, the
file-job engine, the crash model of the file system, the NNTP host's connection table, the framing of NNTP input, the
reading and printing of ABNF with the derivation of strings from it, the load generator's heap and histogram, and the
reducer of failing cases. `dafny verify dfyconfig.toml` checks them all; nothing is executed.

Where the original is a protocol between threads, the kernel and a program, its model is a step system: what a thread
does under a lock or between two looks at its ring is one step, the kernel answers in any order and with anything it
may, and the theorems are about every run. A call of `dn_violation` is an outcome of its own, and the theorems say it
cannot come about. Where the original changes arrays and fields in place, a class does so too, each method proved to do
what the step or the definition says.

| files | what they model |
|---|---|
| `EchoWorker`, `EchoSlots`, `EchoHost`, `EchoSafety`, `EchoRuns`, `EchoThread` | the echo host: workers' slots, the main thread, the kernel; the invariant; every run; the worker in place |
| `EchoActs`, `EchoHands`, `EchoServes` | what each completion means to the echo host's clients, and that what they send is sent back |
| `EchoWeights`, `EchoStops`, `EchoEnds` | that a stop of the echo host can always come to its end |
| `Ring` | the queues of a ring, their wrapping counters and its count of live operations |
| `Jobs`, `JobSafety`, `JobRuns`, `JobAnswers`, `JobTable`, `JobBytes` | file jobs: steps, invariant, every run, what the program is told, the tables in place, the loops that move bytes |
| `CrashModel`, `CrashHistory`, `CrashAnswers`, `CrashPublish`, `CrashSearch`, `CrashImages` | the disk and what a crash may leave; the rule over histories; what operations answer; publishing a file; the search; the images drawn |
| `Framing`, `Framer`, `FramerRuns`, `FramerMeans` | framing over a whole stream; the machine that reads bytes; the framers over chunks and dot-stuffing; what the framing says of the octets |
| `Abnf`, `AbnfParser`, `AbnfRoundTrip`, `AbnfRules`, `AbnfSpelling` | ABNF terms, printing and parsing, the round trip, and what is read that is not as printed |
| `AbnfShortest`, `AbnfLanguage`, `AbnfDerive`, `AbnfEnds`, `AbnfInside`, `AbnfDraws` | shortest derivations, the language, derivations at random, when they end, when they are in the language, and what is forced and drawn |
| `Heap`, `Histogram` | the load generator's heap and latency histogram |
| `Reduce` | the reducer of failing cases |
| `NntpHost`, `NntpSafety`, `NntpReads`, `NntpServes`, `NntpLingers`, `NntpClosing`, `NntpTable` | the NNTP host's connections over io_uring: steps, invariant and every run, its receives, what its clients get, its lingering sockets, its descriptors, the table in place |
| `Gather`, `Counting`, `Summing`, `Pigeonhole` | sums, counts and the pigeonhole principle the others use |

Three things the code or its comments promise turn out not to hold on every input; each has a lemma with the input and
the condition under which it does:

- The comment on `shortest` says a derivation past the depth limit ends. On a grammar nothing of which can fail it does
  exactly when the cheapest choices of no rule lead back to that rule (`AbnfEnds.DerivesIffNoLoop`); `a = a / %x07` never
  derives anything (`AbnfEnds.NeverEnds`).
- `shortest` is not exact on every grammar: it gives a range that holds nothing the length one (`AbnfLanguage.EmptyRange`).
  It is exact of everything written in a grammar exactly when every range holds something and every repetition of more
  than its most is past the cap (`AbnfLanguage.ExactIff`); no derivation is ever shorter than it says
  (`AbnfLanguage.NoShorter`).
- Past the depth limit `derive` repeats an item as often as the least count even where the greatest is less, and so gives
  a string of a rule that derives none (`AbnfInside.Outside`). Everything derived is in the language exactly when no such
  repetition has an item that ends past the limit (`AbnfInside.InsideIff`).

## Model

| member | source | states |
|---|---|---|
| `EchoRuns.NoViolation` | native/echo_uring.c:101-389 | In every run, whatever the interleaving of the main thread, the workers and the kernel, no step fires a check: no handover with every slot taken, no stale completion, no send of more than was given, no place given back with none admitted, no completion with nothing live, no descriptor closed twice or with an operation in flight |
| `EchoRuns.Admission` | native/echo_uring.c:309-389 | In every run `admitted` is the connections held by the workers plus the handovers not yet taken plus the give-backs not yet read, and is between 0 and SLOTS |
| `EchoRuns.SlotCounts` | native/echo_uring.c:101-226 | In every run a slot's `ops` is exactly its unreaped operations, all of its current generation; a slot with no descriptor has none; one that is served has exactly one receive or one send; the ring's `live` is all of them |
| `EchoRuns.Echoed` | native/echo_uring.c:201-225 | In every run with partial sends the bytes sent on a connection are a beginning of the bytes received on it, and while it is served what was received is what was sent followed by what its one operation still has to send |
| `EchoRuns.RingsClose` | native/echo_uring.c:265-277 | A ring is closed only with nothing in it: a worker leaves with every connection closed, nothing in its ring and no message on its way to it; the main thread with nothing prepared or in flight |
| `EchoRuns.StepSafe` | native/echo_uring.c:161-389 | From any state that keeps the invariant every enabled step is no violation and keeps it: one case for each step of a thread or the kernel |
| `EchoRuns.RunInv` | native/echo_uring.c:427-549 | The invariant of the whole host holds at every point of every run from the start |
| `EchoRuns.StartSafe` | native/echo_uring.c:403-500 | The state the threads start from, some of them perhaps failed, keeps the invariant |
| `EchoRuns.NeverStuck` | native/echo_uring.c:265-275 | A serving worker can always take a completion that is there, and the kernel can always end an operation that is in flight |
| `EchoEnds.StopEnds` | native/echo_uring.c:265-277 | Every run that is stopping and has lost no message goes on, in some run, to its end: the main thread has left its loop and every worker whose thread ran has left its own |
| `EchoServes.EchoServed` | native/echo_uring.c:161-275 | Every run that is not stopping, with a connection served in it none of whose operations has failed unread and no answer to its worker lost, goes on to a run in which exactly the octets received on that connection have been sent back on it, at the same descriptor and generation, still served |
| `EchoActs.ReceiveActs` | native/echo_uring.c:201-213 | A receive of some octets on a served slot: the same connection goes on, nothing is closed, what was received and not sent is what the slot has to send from its start, and its one new submission is that send, at most a chunk |
| `EchoActs.SendActs` | native/echo_uring.c:214-225 | A send of some octets on a served slot: the same connection goes on, nothing is closed, and its one new submission is the send of exactly what is left, or a receive exactly when all is sent |
| `EchoActs.EndActs` | native/echo_uring.c:196-200 | The end of input, an error or a send of nothing on a served slot: its descriptor is closed, the slot is free and its place is told of |
| `EchoActs.ClosingActs` | native/echo_uring.c:192-195 | A slot being closed is let go at its last completion and at no other |
| `EchoActs.HandedActs` | native/echo_uring.c:145-159 | A connection handed over to a worker that is not stopping is held by a slot that was free, at its next generation, with nothing moved on it and a receive its one submission |
| `EchoActs.StopActs` | native/echo_uring.c:168-175 | The order to stop leaves every connection held closing, each that was not with the cancel of its own descriptor to submit, and closes nothing itself |
| `EchoHands.AcceptActs` | native/echo_uring.c:309-347 | A connection accepted while not stopping, its socket shaped, stays open, is admitted and handed to the worker whose turn it is, and the turn goes on; otherwise it is closed and nothing else changes |
| `EchoHands.InTurn` | native/echo_uring.c:309-323 | In every run the worker whose turn it is is the number of handovers made so far, counted round the workers |
| `EchoHands.StopActs` | native/echo_uring.c:290-372 | A failed accept or a signal that stops the host sends each worker whose thread ran exactly one order and cancels what the main thread waits for; one that does not changes nothing |
| `EchoHands.ToldActs` | native/echo_uring.c:328-382 | A place given back is one admitted fewer; a handover that failed is closed and its place taken back; other answers change nothing |
| `EchoEnds.AlwaysNearer` | native/echo_uring.c:265-389 | While a stop is not at its end some step of a thread or the kernel is enabled, loses no message and leaves strictly less to do |
| `EchoStops.RunStops` | native/echo_uring.c:289-305 | In every run that is stopping, the order to stop is on its way to each worker that serves and has not taken it, or the main thread has its loss to read and fails; it is sent to no thread that failed, and the main thread leaves only with nothing to send |
| `EchoWeights.ReapWeight` | native/echo_uring.c:161-228 | Acting on a completion leaves a worker less to do: what it arms weighs less than the completion did |
| `EchoSlots.NeverStale` | native/echo_uring.c:187-190 | A completion of a slot finds the slot held, at the generation it carries and with an operation counted |
| `EchoSlots.ReapKeeps` | native/echo_uring.c:161-228 | Taking a completion is no violation, keeps a worker's invariant, and trades at most one held connection for one place given back |
| `EchoSlots.CompleteKeeps` | native/uring.c:193-207 | The kernel ending an operation in any order, with any result and any octets it may have, keeps a worker's invariant |
| `EchoSlots.SubmitKeeps` | native/uring.c:153-191 | The kernel taking the oldest submission keeps a worker's invariant |
| `EchoSlots.EndKeeps` | native/echo_uring.c:127-137 | Ending a connection keeps the invariant: at once with nothing in flight, else its cancel is counted |
| `EchoSlots.TakeKeeps` | native/echo_uring.c:145-159 | A connection taken with a slot free keeps the invariant, a receive of its new generation armed or, when stopping, its close begun |
| `EchoSlots.StopKeeps` | native/echo_uring.c:168-175 | Ending every connection at a stop keeps the invariant |
| `EchoSafety.ReapSafe` | native/echo_uring.c:161-228 | A worker acting on a completion keeps the invariant of the whole host, the books of admitted connections included |
| `EchoSafety.MainReapSafe` | native/echo_uring.c:325-389 | The main thread acting on a completion, an accept, a signal, a message delivered or not or a place given back, is no violation and keeps the invariant |
| `EchoSafety.HandSafe` | native/echo_uring.c:309-323 | A handover keeps the invariant: it is admitted once and is in one message to one worker |
| `EchoSafety.StopSafe` | native/echo_uring.c:290-307 | A stop keeps the invariant: each worker that serves is told once |
| `EchoSafety.MainDelivered` | native/echo_uring.c:290-323 | A message the kernel delivers moves its claim to the worker's queue and no more |
| `EchoSafety.MainUndelivered` | native/echo_uring.c:373-382 | One it cannot deliver leaves its descriptor to be closed by the main thread |
| `EchoSafety.ExitSafe` | native/echo_uring.c:265-277 | A worker that leaves has nothing left: no connection, no operation, no message to come |
| `EchoSafety.LeaveSafe` | native/echo_uring.c:500-513 | The main thread leaving its loop keeps the invariant |
| `EchoSafety.RoomLeft` | native/echo_uring.c:144-148 | A connection handed over finds fewer than SLOTS held, so there is a slot for it |
| `EchoSafety.LowestNumber` | native/echo_uring.c:318-323 | A descriptor handed over fits the 24 bits its token has for it, so it is read back whole when the message fails |
| `EchoThread.ExpireKeeps` | native/echo_uring.c:230-246 | Ending the idle connections keeps the invariant and every claim |
| `EchoThread.ExpireActs` | native/echo_uring.c:230-246 | Ending the idle connections leaves each one idle for its time closing with its cancel to submit, and every other slot as it was; nothing is closed |
| `EchoThread.WorkerThread.constructor` | native/echo_uring.c:403-411 | A thread starts with every slot free, the invariant kept and nothing claimed |
| `EchoThread.WorkerThread.ArmRecv` | native/echo_uring.c:101-105 | In place: one receive more of the slot, as the model has it |
| `EchoThread.WorkerThread.ArmSend` | native/echo_uring.c:107-112 | In place: one send of what is left, at most a chunk, as the model has it |
| `EchoThread.WorkerThread.Finish` | native/echo_uring.c:116-124 | In place: the descriptor closed, the slot cleared, the main thread told |
| `EchoThread.WorkerThread.End` | native/echo_uring.c:127-137 | In place: the connection ended at once or by a cancel, as the model has it |
| `EchoThread.WorkerThread.Take` | native/echo_uring.c:145-159 | In place, by a loop over the slots: the first free slot taken, a violation exactly when there is none |
| `EchoThread.WorkerThread.StopAll` | native/echo_uring.c:168-175 | In place, by a loop over the slots: every connection ended |
| `EchoThread.WorkerThread.Moved` | native/echo_uring.c:201-225 | In place: octets received become what is to send; octets sent move it on, and once all are sent the slot reads again |
| `EchoThread.WorkerThread.Completed` | native/echo_uring.c:161-228 | In place: exactly the step of the model, violation and harness failure included; what that step does for each kind of completion `EchoActs` states |
| `EchoThread.WorkerThread.Expire` | native/echo_uring.c:230-246 | In place, by a loop: every connection idle for its time ended, and the least time left of the others returned, -1 for none |
| `EchoThread.WorkerThread.Drain` | native/echo_uring.c:270-275 | The loop over all completions there are keeps the invariant to the end and never meets a violation |
| `Ring.Ring.constructor` | native/uring.c:80-135 | A ring as it is opened has nothing in it, wherever the kernel has the counters, and `live` balanced |
| `Ring.Ring.Get` | native/uring.c:137-145 | An entry is refused exactly when every entry is prepared and unsubmitted; otherwise the queue grows by that entry at its end and none is overwritten, over counters of 32 bits that wrap |
| `Ring.Ring.Enter` | native/uring.c:153-191 | Over interruptions and short submissions what the kernel has not taken stays, in order; with no shortage all is submitted; an error returned is the kernel's |
| `Ring.Ring.Take` | native/uring.c:193-207 | Completions come off in the order posted; the process stops exactly at one of the ring's own with nothing live, which a kernel that posts one per operation never brings about |
| `Ring.Ring.Close` | native/uring.c:209-216 | Closing stops the process exactly when an operation of the ring is prepared, running or unreaped |
| `Ring.Ring.KernelTakes` | native/uring.c:153-180 | The kernel taking an entry takes the oldest, and `live` stays what is prepared, running and unreaped |
| `Ring.Ring.KernelPosts` | native/uring.c:193-198 | A completion posted is the last of the queue, and `live` stays balanced |
| `Ring.EntriesWrite` | native/uring.c:137-145 | Writing the cell past the last entry adds an entry and changes none, the counters wrapped or not |
| `Ring.EntriesDrop` | native/uring.c:193-198 | Moving the head past an entry takes that entry and no other |
| `Ring.CellWraps` | native/uring.c:120-131 | A mask picks the same cell for a counter of 32 bits and for what it would be without wrapping |
| `Ring.Counters` | native/uring.c:138-142 | The distance of two wrapping counters follows either of them by one |
| `Ring.TokenParts` | native/uring.h:24-29 | Kind and slot come back from a token as they went in, the generation up to 32 bits |
| `JobRuns.PlacesExclusive` | native/jobs.c:123-189 | In every interleaving of the program, the two workers and the loop, a place is named, opened or reserved by at most one unfinished job |
| `JobRuns.RunsOnOpen` | native/jobs.c:300-375 | An operation always runs on a place open at the generation the program named, of the kind it needs, held by its own job, and on an open descriptor |
| `JobRuns.HandlesFresh` | native/jobs.c:307-332 | The place and generation an open reports were reported by no open before |
| `JobRuns.HandleStays` | native/jobs.c:300-375 | A handle stays open through every step but the run of a close that names that very handle |
| `JobRuns.NoLostCompletion` | native/jobs.c:518-530 | Whenever the loop is about to block and a job is done, the eventfd is nonzero or a worker stands between marking the job and writing the eventfd |
| `JobRuns.OneDirectorySync` | native/jobs.c:183-184 | Two workers never sync the directory at the same time |
| `JobRuns.MarkedFirst` | native/jobs.c:431-438 | A job that failed at a sync, or at the close of a file written through its place, has left the mark before the program learns of it |
| `JobRuns.AllReleased` | native/jobs.c:551-558 | With no job unfinished nothing is reserved or busy and no directory sync is counted: every place without a file is free again |
| `JobRuns.QueueFits` | native/jobs.c:186-187 | The queue has room for every job that is taken |
| `JobRuns.NeverAstray` | native/jobs.c:300-375 | A worker's next operation always names a place within the table |
| `JobRuns.AcceptedIff` | native/jobs.c:123-189 | A slot is taken, and is no violation, exactly when the job is free, each operation is one the program may ask for judged on the places as they stand, there are free places enough for its opens, and no other job syncs the directory when it does |
| `JobAnswers.ToldRight` | native/jobs.c:300-451 | In every run what the program is told of a job that is done is right of the answers its operations were given: all worked and none failed, or exactly those before the first that failed worked, with that failure's class; and each result, a read's or a size's number and a listing's two, is the one its operation was given |
| `JobAnswers.MarkedIff` | native/jobs.c:347-438 | In every run the store is marked exactly when a sync failed or the close of a handle written through failed |
| `JobAnswers.OpensAndShuts` | native/jobs.c:307-372 | In every run an open that works opens the place reserved for it on a descriptor that was not open, and a close shuts the place it names, moves its generation on and closes its descriptor, failed or not |
| `JobAnswers.FirstIn` | native/jobs.c:186-189 | Jobs begin in the order they were taken: a step adds the job taken last, or takes the first |
| `JobAnswers.Classes` | native/jobs.c:191-209 | Which errors make which class |
| `JobAnswers.RunsWithin` | native/jobs.c:123-158 | In every run an operation that runs has its data within its job's 16384 octets and its place in the file below two to the 63, names of the five kinds, and neither removes the journal, renames it nor renames over it |
| `JobAnswers.FormIs` | native/jobs.c:117-158 | What is checked of an operation whatever the places hold, bound by bound |
| `JobSafety.Exclusive` | native/jobs.c:123-189 | From the invariant: two jobs touch no place in common |
| `JobSafety.EmitKeeps` | native/jobs.c:123-189 | A job taken keeps the invariant |
| `JobSafety.BeginKeeps` | native/jobs.c:412-421 | A worker taking the oldest job keeps the invariant |
| `JobSafety.OpenKeeps` | native/jobs.c:307-332 | An open that succeeds keeps it: the reserved place becomes open, busy and no longer reserved |
| `JobSafety.CloseKeeps` | native/jobs.c:362-372 | A close, failed or not, keeps it: the place is shut at a later generation and stays the job's |
| `JobSafety.PlainKeeps` | native/jobs.c:333-361 | Every other operation, and an open that fails, keeps it |
| `JobSafety.MarkKeeps` | native/jobs.c:440-446 | Marking a job done keeps it |
| `JobSafety.GiveKeeps` | native/jobs.c:532-563 | Handing out the completions keeps it, and leaves no job done |
| `JobSafety.StepKeeps` | native/jobs.c:123-451 | Every step keeps the invariant |
| `JobSafety.RunInv` | native/jobs.c:123-563 | The invariant holds in every run |
| `JobTable.JobHost.constructor` | native/jobs.c:453-475 | The tables the engine starts with keep the invariant of every run |
| `JobTable.JobHost.Take` | native/jobs.c:123-189 | In place, operation by operation: false exactly where the model has a violation, otherwise the tables are the model's |
| `JobTable.JobHost.FindFree` | native/jobs.c:160-161 | The lowest place nothing has |
| `JobTable.JobHost.Dequeue` | native/jobs.c:412-421 | In place: the oldest job taken off the queue, the others moved up |
| `JobTable.JobHost.Ready` | native/jobs.c:518-530 | The eventfd is emptied before the jobs are looked at; true exactly when one is done |
| `JobTable.JobHost.Release` | native/jobs.c:553-558 | In place: the places reserved and named by a job that is done are given up, and its directory sync |
| `JobTable.JobHost.GiveAll` | native/jobs.c:532-563 | Every completion handed, each with the generation, operations done, class and results of its job, which `JobAnswers.ToldRight` shows right of what happened |
| `JobBytes.OpenFile.WriteAll` | native/jobs.c:212-227 | All bytes written means the file has all of them at the offset; a failure leaves a proper beginning of them; an interruption is never seen |
| `JobBytes.WrittenOn` | native/jobs.c:212-227 | Writing some and then the rest where that ended is writing all, a hole before them read as zeros |
| `JobBytes.List` | native/jobs.c:269-287 | A page is the most names from the given one on that fit the room; it fails exactly when names are left and not one fits |
| `JobBytes.PagingWhole` | native/jobs.c:269-287 | Paging from where each page ended gives every name once and in order exactly when each name fits a page alone, and otherwise fails |
| `JobBytes.PackUnpack` | native/jobs.c:250-258 | The names are read back from the bytes of a page |
| `CrashModel.StepAdds` | scripts/fs_ref.py:124-209 | A step other than a sync that counts only adds to the images a crash may leave |
| `CrashModel.StepRemoves` | scripts/fs_ref.py:153-179 | A sync of a file or of the directory that succeeds while trusted only removes images |
| `CrashModel.SeenLeft` | scripts/fs_ref.py:225-231 | The image the program sees may always be left |
| `CrashModel.StepInv` | scripts/fs_ref.py:124-209 | Every step, successful or failed, keeps what is kept a beginning of what is seen, no more than the most, and every name on files that are there |
| `CrashModel.SettledHeld` | scripts/fs_ref.py:153-156 | After a directory sync that counts each name may only be left as it is |
| `CrashHistory.LeavesTold` | scripts/fs_ref.py:238-259 | What may be left after any run is exactly what the rule allows over its history: each name what it held at or since the last directory sync that counts, each file one content that extends what its last counted sync saw cut to the shortest truncation since and is no longer than its greatest length since |
| `CrashHistory.NamesTold` | scripts/fs_ref.py:44-65 | The names' bookkeeping is what each name held at or since the last directory sync that counts |
| `CrashHistory.FilesTold` | scripts/fs_ref.py:31-41 | A file's kept octets, most length and trust are those the history gives |
| `CrashHistory.ViewStep` | scripts/fs_ref.py:124-209 | What a program sees evolves as a plain file system does, bookkeeping or not |
| `CrashAnswers.ReadsRight` | scripts/fs_ref.py:160-184 | In every history a read answers exactly the octets the file has at that place, as many as it has of those asked for, and a size its length; a file that is not there is missing |
| `CrashAnswers.OpensRight` | scripts/fs_ref.py:128-137 | In every history a create of a name that holds something answers that it exists, of another a file never there before; an open answers the file the name holds, or that it is missing |
| `CrashAnswers.ListsRight` | scripts/fs_ref.py:157-159 | In every history a listing has exactly the names that hold something |
| `CrashAnswers.DoneRight` | scripts/fs_ref.py:138-185 | In every history a rename, a removal and what is done to a file answer that a name or a file is missing exactly when it is |
| `CrashAnswers.NamesAfter` | scripts/fs_ref.py:128-209 | In every history what a name holds after an event: a rename takes it from one name to the other, a removal from its name, a create gives it a new file, and nothing else changes it |
| `CrashAnswers.ContentAfter` | scripts/fs_ref.py:162-209 | In every history what a file has after an event: an append adds its octets, or those it wrote before it failed, at the end; a truncation cuts or fills with zeros; nothing else changes it |
| `CrashAnswers.WritesTold` | scripts/fs_ref.py:31-41 | In every history the appends and the last octets kept of a file are those its history gives since its last sync that counts: each append with where it was, and at each place, up to the greatest length since, the octet last written there |
| `CrashPublish.PublishedWhole` | scripts/fs_ref.py:128-209 | Create a temporary, append, sync, rename over a final name, sync the directory, stopped at any failure and interleaved with any events on other names and files: whatever a crash then leaves, the final name holds something it could hold before or exactly the octets, and after the counted directory sync only the octets |
| `CrashPublish.BeforeOrWhole` | scripts/fs_ref.py:128-259 | In every such run in which nobody else appends to or truncates a file the final name could hold, whatever a crash leaves of the final name some crash could have left before, or it is exactly the octets |
| `CrashPublish.StepNarrows` | scripts/fs_ref.py:124-209 | An event that neither appends to a file nor truncates it leaves it with no content it could not be left with before |
| `CrashPublish.CouldHold` | scripts/fs_ref.py:242-259 | What a name held, with octets its file may have, some crash leaves |
| `CrashPublish.MoveKeeps` | scripts/fs_ref.py:128-209 | Every move of the publisher, success or failure, and of anybody else keeps the final name old or whole |
| `CrashSearch.FileSystem.Perform` | scripts/fs_ref.py:124-185 | In place: exactly what the model has an operation do and answer, which `CrashAnswers` states of every history |
| `CrashSearch.FileSystem.PerformFailing` | scripts/fs_ref.py:188-209 | In place: what the k-th way of failing leaves; refused exactly when there is no such way |
| `CrashSearch.FileSystem.Bind` | scripts/fs_ref.py:64-65 | In place: a name holds something more since the last sync |
| `CrashSearch.MayLeave` | scripts/fs_ref.py:242-259 | The search over every choice answers yes exactly of the images that may be left |
| `CrashSearch.CheckAgree` | scripts/fs_ref.py:255-258 | The check of one content per file is right in both directions |
| `CrashSearch.InProduct` | scripts/fs_ref.py:254-258 | The choices tried are every way of taking one of each |
| `CrashImages.Leaving` | scripts/fs_ref.py:303-315 | An image drawn, whatever the draws, may be left, and there is always something to draw |
| `CrashImages.Leavings` | scripts/fs_ref.py:288-300 | Every image listed may be left, and there is one; with at most 64 choices of the names and 64 of the octets for each, the images listed are every one made of a choice of what each name holds and octets listed for each file |
| `CrashImages.ByKind` | scripts/fs_ref.py:262-280 | Octets of every kind listed are octets the file may be left with |
| `CrashImages.KeptKind` | scripts/fs_ref.py:271-280 | The first kind is exactly what is kept, alone or followed to the most by zeros or by 0xff, of what may be left |
| `CrashImages.CutKinds` | scripts/fs_ref.py:271-280 | The cuts of what the program sees, and of the last octets written, are exactly those beginnings that may be left |
| `CrashImages.FilledKinds` | scripts/fs_ref.py:271-280 | The filled cuts are exactly a beginning of what the program sees followed to the most by zeros, or by 0xff, that may be left |
| `CrashImages.WholeKind` | scripts/fs_ref.py:271-280 | A later append whole is exactly what is kept, zeros up to the append and the append, that may be left |
| `CrashImages.LostKind` | scripts/fs_ref.py:271-280 | One append lost is exactly what the program sees with zeros in the place of that append, that may be left |
| `CrashImages.KindsHave` | scripts/fs_ref.py:271-280 | What is kept and what the program sees are always among them |
| `Framing.Blocks` | scripts/framing_ref.py:59-66 | The loop over what is left of the stream gives the blocks as defined |
| `Framing.SplitMore` | scripts/framing_ref.py:33-35 | One byte more ends the last piece of a split, or goes on it |
| `Framer.LinesExact` | scripts/framing_ref.py:24-38 | The machine that reads a byte at a time gives exactly the lines, kinds and open state the whole stream defines |
| `Framer.BlocksExact` | scripts/framing_ref.py:49-85 | The five-phase machine gives exactly the block ends, verdicts, octets read and open state the whole stream defines |
| `Framer.StepIs` | lean/DN/News/Framer.lean:442-461 | A byte that ends no block takes the state of what was read to the state of one byte more |
| `Framer.EndsWhere` | scripts/framing_ref.py:61-63 | The machine ends a block at an LF exactly where the terminator ends |
| `Framer.EndedIs` | scripts/framing_ref.py:49-56 | Its verdict there is that of the lines before the terminator |
| `FramerRuns.LineFramer.Frame` | lean/DN/News/FramerProg.lean:36-89 | In place: a chunk read from a position up to the first line that ends, as the machine does; a position past the chunk is refused with nothing changed |
| `FramerRuns.BlockFramer.Frame` | lean/DN/News/FramerProg.lean:120-182 | In place: a chunk read up to the end of a block, as the machine does; a position past the chunk is refused with nothing changed |
| `FramerRuns.BlockFramer.Hold` | lean/DN/News/FramerProg.lean:103-157 | In place: what a byte does, decided from the phase, then the bytes held |
| `FramerRuns.DriveLines` | native/framing_driver.c:119-144 | Over any chunking, call by call, exactly the lines and state of the chunks joined |
| `FramerRuns.DriveBlocks` | native/framing_driver.c:146-176 | Over any chunking, call by call, exactly the blocks, octets read and state of the chunks joined |
| `FramerRuns.RoundTrip` | scripts/framing_ref.py:41-66 | Section 3.1.1 of RFC 3977: any lines free of CR, LF and NUL, dot-stuffed and terminated, are read back as they were when they fit and as too large when not, exactly their own octets read, and what follows is framed as if alone |
| `FramerRuns.StuffedLines` | scripts/framing_ref.py:41-56 | Stuffed lines contain no terminator, split back into themselves and unstuff to the lines |
| `FramerMeans.FirstLine` | scripts/framing_ref.py:24-38 | The first line of any stream is its octets up to the first LF: too long exactly with more octets than the limit, its LF counted, its first octets kept; a command exactly when it is octets other than NUL, LF and CR and then a CR; malformed otherwise; and what follows is framed as if alone |
| `FramerMeans.FirstBlock` | scripts/framing_ref.py:41-66 | The first block of any stream that ends is lines, a dot and a CRLF, with no terminator before: refused exactly when a line has a NUL, LF or CR in it, else accepted as those lines each without the dot it starts with when that is no more than fits; and what follows is framed as if alone |
| `AbnfRules.ParsePrinted` | scripts/abnf_text.py:245-290 | Parsing a printed rule gives the rule back, for every rule name and every normal term |
| `AbnfRules.ParseNormal` | scripts/abnf_text.py:146-259 | Whatever the parser returns is normal |
| `AbnfRules.RoundTripIff` | scripts/abnf_text.py:245-290 | The rules that come back from their printed text are exactly those of normal terms |
| `AbnfRules.PrintStable` | scripts/abnf_text.py:245-290 | Printing what was parsed and parsing again changes nothing |
| `AbnfRules.OneOctet` | scripts/abnf_text.py:230-242 | A one-octet sequence, not normal, is read back as a range |
| `AbnfRules.StripKept` | scripts/abnf_text.py:127-143 | Comment stripping takes nothing of a printed rule, whatever its quoted strings and prose hold |
| `AbnfRules.KeptShow` | scripts/abnf_text.py:262-290 | A printed term is one line with no comment in it, read through quoted strings and prose |
| `AbnfSpelling.ParseNumeric` | scripts/abnf_text.py:230-259 | A rule whose name is in any case and whose term is a numeric value is read as what it says, with or without a comment: `%b`, `%d` and `%x` in the bases 2, 10 and 16, one number, two with a hyphen or octets with dots, each number its digits in that base, zeros before them and letters in either case |
| `AbnfSpelling.NumberIff` | scripts/abnf_text.py:236-242 | Digits make a number in a base exactly when they are the digits of that number in that base, zeros before them, letters in either case |
| `AbnfSpelling.NumericRead` | scripts/abnf_text.py:230-242 | Anywhere in a text a numeric value is read whole, for what it says |
| `AbnfSpelling.DigitsWrite` | scripts/abnf_text.py:230-242 | The plain digits of one number, of two and of several octets are such values, in each of the three bases |
| `AbnfSpelling.DottedNumbers` | scripts/abnf_text.py:242-242 | Numbers with dots are octets, and a value above 255 among them is an error |
| `AbnfSpelling.NameAnyCase` | scripts/abnf_text.py:164-169 | A rule name is read in any case, as small letters |
| `AbnfSpelling.StripTail` | scripts/abnf_text.py:127-143 | A comment goes, to the end of its line, and what is before it stays |
| `AbnfSpelling.StripLines` | scripts/abnf_text.py:127-143 | Lines are joined by a blank, each without its comment |
| `AbnfSpelling.ParseLaidOut` | scripts/abnf_text.py:127-259 | A printed rule broken after any of its blanks, with a comment at the end of each line, is read back |
| `AbnfRoundTrip.AltOf` | scripts/abnf_text.py:171-179 | A printed term, before a closing bracket or the end, is read whole as an alternation |
| `AbnfRoundTrip.ConcatOf` | scripts/abnf_text.py:181-188 | One that is no alternation is read whole as a concatenation |
| `AbnfRoundTrip.RepOf` | scripts/abnf_text.py:190-201 | An operand is read whole as a repetition |
| `AbnfRoundTrip.ElementOf` | scripts/abnf_text.py:203-228 | What is repeated, bracketed when it must be, is read whole as an element |
| `AbnfRoundTrip.CountIs` | scripts/abnf_text.py:190-201 | A count is read as printed |
| `AbnfRoundTrip.ExactIs` | scripts/abnf_text.py:230-242 | Octets with dots are read as printed |
| `AbnfRoundTrip.RangeIs` | scripts/abnf_text.py:230-242 | A range is read as printed |
| `AbnfParser.Parser.ReadAlternation` | scripts/abnf_text.py:171-179 | In place, by a loop over the alternatives: what the grammar has there, or a syntax error |
| `AbnfParser.Parser.ReadConcatenation` | scripts/abnf_text.py:181-188 | In place, by a loop over the items |
| `AbnfParser.Parser.ReadRepetition` | scripts/abnf_text.py:190-201 | In place: a count and its element, or the element |
| `AbnfParser.Parser.ReadElement` | scripts/abnf_text.py:203-228 | In place: what the grammar has at that place, brackets, options, quoted strings, numbers, prose and names, each with its errors; `AbnfRoundTrip.ElementOf` and `AbnfSpelling` state what that is |
| `AbnfParser.Parser.SkipBlanks` | scripts/abnf_text.py:151-153 | In place: past spaces and tabs |
| `AbnfParser.Strip` | scripts/abnf_text.py:127-143 | Line by line, what is left of the definition without its comments |
| `AbnfParser.StripLine` | scripts/abnf_text.py:130-142 | Character by character, a line up to its comment |
| `AbnfParser.ReadRule` | scripts/abnf_text.py:245-259 | A definition read in place exactly as the grammar has it; `AbnfRules.RoundTripIff`, `AbnfSpelling.ParseNumeric` and `AbnfSpelling.ParseLaidOut` state what that is |
| `AbnfShortest.Shortest` | scripts/abnf_check.py:174-199 | The iteration ends on every grammar, at a fixpoint some number of rounds from nothing known |
| `AbnfShortest.RoundProgress` | scripts/abnf_check.py:195-199 | A round that changes something lowers the values below the cap, or leaves those and raises others under a bound |
| `AbnfLanguage.ExactIff` | scripts/abnf_check.py:174-199 | On every grammar: the values found are exact of every term written in it (below the cap the least length of anything the term derives) exactly when every range written holds something and every repetition of more than its most is past the cap |
| `AbnfLanguage.ShortestExact` | scripts/abnf_check.py:174-199 | So they are on every grammar, and of every term, with no empty range and no repetition of more than its most |
| `AbnfLanguage.NoShorter` | scripts/abnf_check.py:179-193 | Nothing a term derives is shorter than the fixpoint says, on every grammar |
| `AbnfLanguage.Achieved` | scripts/abnf_check.py:179-199 | Where ranges and repetitions fit their values, a value below the cap after any number of rounds is the length of a string derived |
| `AbnfLanguage.EmptyRange` | scripts/abnf_check.py:174-199 | The rule `a = %x05-03`, a term the parser returns, derives nothing and is given the length one by the iteration |
| `AbnfInside.InsideIff` | scripts/abnf_check.py:202-255 | On every grammar nothing of which can fail: every string derived of every term written in it, at any depth, whatever is drawn and forced, is in the language of its term exactly when no repetition of more than its most has an item that ends past the depth limit |
| `AbnfInside.DeriveInside` | scripts/abnf_check.py:224-255 | Where no repetition of more than its most ends past the depth limit, whatever is drawn and forced, a string derived is in the language of its term, on every grammar |
| `AbnfInside.DeriveIn` | scripts/abnf_check.py:224-255 | So it is on every grammar with no repetition of more than its most, whatever is forced at any depth |
| `AbnfInside.RepeatInIff` | scripts/abnf_check.py:250-253 | A repetition derived, its item overrunning nowhere, is in the language exactly when it asks for no more than its most |
| `AbnfInside.Outside` | scripts/abnf_check.py:224-282 | The rule `a = 1*0%x07 / a`, a term the parser returns, started as `covering` starts it, gives a string though the rule derives none |
| `AbnfDraws.Forced` | scripts/abnf_check.py:224-255 | What is derived with choices forced is in the language of the term with each alternation at a forced place replaced by the item chosen |
| `AbnfDraws.NarrowIn` | scripts/abnf_check.py:224-255 | That language is a part of the language of the term |
| `AbnfDraws.Drawn` | scripts/abnf_check.py:224-255 | Short of the depth limit, every string of a term that repeats nothing more than three times past its least and nests rules no deeper than the limit is what some draws give |
| `AbnfDraws.CheapestIs` | scripts/abnf_check.py:246-247 | Past the depth limit the choice is the first of the items that cost least |
| `AbnfDraws.CostIsLength` | scripts/abnf_check.py:209-222 | The cost is the length the iteration gives, as far as the cap, on every term nothing of which can fail |
| `AbnfDraws.CoreRules` | scripts/abnf_check.py:152-155 | The characters of the rules every grammar has, as appendix B.1 of RFC 5234 has them |
| `AbnfDraws.CoreMarks` | scripts/abnf_check.py:152-155 | So of those of one mark |
| `AbnfEnds.DeepDerive` | scripts/abnf_check.py:224-255 | Past the depth limit a derivation is there exactly when the rules its cheapest choices go into end |
| `AbnfEnds.DeriveEnds` | scripts/abnf_check.py:224-255 | On every grammar a derivation past the depth limit that is there goes only into rules that end |
| `AbnfEnds.EndIffRanked` | scripts/abnf_check.py:174-175 | Past the depth limit every rule ends exactly when the rules can be ranked so that cheapest choices only go down |
| `AbnfEnds.EndIffNoLoop` | scripts/abnf_check.py:174-175 | And exactly when cheapest choices go only into rules that are there and those of no rule lead back to it |
| `AbnfEnds.DerivesIffNoLoop` | scripts/abnf_check.py:224-255 | On a grammar nothing of which can fail: past the depth limit every rule derives something, whatever is drawn, exactly when the cheapest choices of no rule lead back to it, and otherwise some rule never derives anything |
| `AbnfEnds.NeverEnds` | scripts/abnf_check.py:174-255 | The rule `a = a / %x07`, a term the parser returns, given the length one by the iteration, never derives anything past the depth limit, nor started as `covering` starts it with the first choice forced and drawn, however deep rules may nest: against what the comment on `shortest` promises |
| `Heap.ConnHeap.constructor` | native/load.c:323-335 | The heap starts with no connection in it and room for every one |
| `Heap.ConnHeap.Pop` | native/load.c:134-147 | A connection of the least key is returned and taken out; the others, their order and their back-pointers are kept |
| `Heap.ConnHeap.Remove` | native/load.c:149-154 | A connection is taken out wherever it is, lifted to the root first, and the heap is kept; one not there changes nothing |
| `Heap.ConnHeap.Push` | native/load.c:156-161 | A connection is in the heap with its new key, whether it was there or not |
| `Heap.ConnHeap.Swap` | native/load.c:126-132 | Two places exchanged, the back-pointers with them |
| `Heap.RootLeast` | native/load.c:124-125 | In heap order no key is less than the root's |
| `Heap.RoomFor` | native/load.c:156-160 | A connection out of the heap leaves room for itself |
| `Histogram.CellThere` | native/load.c:34-38 | Every value of 64 bits has a cell |
| `Histogram.CellMonotone` | native/load.c:34-38 | A greater value is in no lesser cell |
| `Histogram.TopInverts` | native/load.c:41-46 | A cell's top falls in that cell, the wrap at the last cell included |
| `Histogram.TopNear` | native/load.c:25-46 | A value is at most its cell's top, which exceeds it by less than a 64th |
| `Histogram.Latencies.Record` | native/load.c:48-52 | In place: the values recorded are those before and n more |
| `Histogram.Latencies.Merge` | native/load.c:56-60 | In place: the values are those of both |
| `Histogram.Latencies.AtRank` | native/load.c:63-70 | The value reported at a rank is at least the true value of that rank and exceeds it by less than a 64th, however the values were split and merged; past the total it is the greatest |
| `Histogram.RankThere` | native/load.c:62-70 | Every rank up to the total has its value |
| `Reduce.Reducer.Run` | scripts/fuzz_reduce.py:242-277 | For every batch size, the case and the steps of a search that asks about one candidate at a time and remembers nothing |
| `Reduce.Reducer.Step` | scripts/fuzz_reduce.py:263-274 | One step in batches finds the first candidate that is smaller, well typed and fails |
| `Reduce.Reducer.Judge` | scripts/fuzz_reduce.py:253-261 | Answers from what is cached and what is asked agree with the first of the group that fails |
| `Reduce.Reaches` | scripts/fuzz_reduce.py:242-277 | What is reached still fails, is smaller after a step, and when the search stopped short of its steps no smaller well-typed candidate of it fails |
| `Reduce.StepDown` | scripts/fuzz_reduce.py:248-276 | Every step taken goes strictly down in the lexicographic size, to the first failing candidate |
| `Reduce.SmallerIs` | scripts/fuzz_reduce.py:262-265 | A size is smaller exactly as the two-digit number it is, in any base above its second digits |
| `Reduce.Reducer.Ask` | scripts/fuzz_reduce.py:253-259 | Those of a group not seen are asked about, and counted; after it all of the group is remembered, and rightly |
| `NntpSafety.NoViolation` | native/nntp_host.c:670-691 | In every run over io_uring no check fires: no completion for another generation or with nothing counted, none for a socket not lingering, no more graceful closes queued than connections |
| `NntpSafety.ReusedReaped` | native/nntp_host.c:256-258 | An index is given out again only once every operation of its last connection is reaped |
| `NntpSafety.Accounted` | native/nntp_host.c:219-229 | Connections accepted are always those ended plus those in the table with a descriptor or lost |
| `NntpSafety.QueueFits` | native/nntp_host.c:663-676 | The queue of descriptors to linger on never outgrows its array and is empty whenever the host waits |
| `NntpSafety.ClosingWaits` | native/nntp_host.c:678-691 | A descriptor kept for closing still has an operation to reap |
| `NntpReads.OneReceive` | native/nntp_host.c:468-476 | In every run a connection has at most one receive in flight, and none while what the last took is not given out, so its one buffer is never written over |
| `NntpReads.ReadAgain` | native/nntp_host.c:704-712 | In every run, a plain connection's input once given out, its next receive may be armed |
| `NntpReads.StepReads` | native/nntp_host.c:468-1060 | Every step keeps a connection's flags true of the receives in flight and of its buffer |
| `NntpServes.Served` | native/nntp_host.c:468-982 | From every reached host in its turn, some run answers an open plain connection, hears it and comes to its input ready to be given out, at the same descriptor and generation, nothing closed on the way |
| `NntpServes.ReadAfterSend` | native/nntp_host.c:970-982 | In every run, after a send and any steps not of that connection, the host back in its turn: a plain connection with no input and no receive in flight may be read exactly when the send was whole and did not fail; a send that failed leaves the connection to be told lost |
| `NntpServes.GiveAfterReceive` | native/nntp_host.c:721-738 | In every run, after the receive of an open connection completes and any steps not of that connection, the host back in its turn: its input may be given out exactly when the connection is read |
| `NntpServes.StepBecomes` | native/nntp_host.c:468-1060 | What every step makes of every connection: who it serves and under which generation, whether it is read, lost, receiving and has input |
| `NntpServes.LeavesBy` | native/nntp_host.c:670-691 | A descriptor leaves its connection at once or with its last operation, to linger exactly when the program closed it gracefully; one lost or failed is closed |
| `NntpServes.LastTaken` | native/nntp_host.c:721-738 | A completion lets go of a descriptor exactly when it is the last operation of a connection being closed, and the way its close said |
| `NntpServes.FirstHeard` | native/nntp_host.c:468-1060 | From the start, any first client whose connection is plain is answered and heard in some run |
| `NntpLingers.Lingered` | native/nntp_host.c:266-288 | From every reached host that drains its queue, some run has the last descriptor queued lingering, whatever lingered before, the rest of the queue and every connection as they were |
| `NntpLingers.StepStays` | native/nntp_host.c:266-309 | What every step makes of every place a socket may linger in: taken by the descriptor that waited, received from, closed when its time is over or nothing more comes |
| `NntpLingers.StepFlies` | native/nntp_host.c:678-760 | What every step puts in flight and takes from it: a receive or a send of the connection it is for under its generation, a lingering socket's receive, cancellations and polls |
| `NntpClosing.Descriptors` | native/nntp_host.c:573-760 | In every run the descriptors accepted are exactly those the host has, each in one place, and those it has closed: none is lost, and none closed more often than it was accepted |
| `NntpClosing.ClosedIdle` | native/nntp_host.c:573-738 | In every run what a step closes was held once, or just accepted and refused, and is held no more, and no operation of a connection and no receive of a lingering socket in flight is on it; the cancellation of a lingering receive, which moves no octets, may be |
| `NntpClosing.StepConserves` | native/nntp_host.c:573-1060 | Every step keeps the descriptors held and closed together, but for the one it accepts |
| `NntpSafety.StepKeeps` | native/nntp_host.c:573-1060 | Every step is no violation and keeps the invariant |
| `NntpSafety.RunInv` | native/nntp_host.c:573-1060 | The invariant holds in every run |
| `NntpSafety.RetireKeeps` | native/nntp_host.c:678-691 | A connection retired, at once or once its operations are reaped, keeps all but the books |
| `NntpSafety.FreeKeeps` | native/nntp_host.c:219-229 | An index given up counts one connection ended |
| `NntpSafety.SentKeeps` | native/nntp_host.c:970-982 | What became of a send, whole, partial or failed, keeps the invariant; `NntpServes.ReadAfterSend` states what it means for the client |
| `NntpSafety.AdmitKeeps` | native/nntp_host.c:573-600 | A connection admitted keeps it, and no operation in flight is of its index |
| `NntpSafety.ConnTakeKeeps` | native/nntp_host.c:721-738 | A completion of a connection is no violation and keeps it |
| `NntpSafety.LingerTakeKeeps` | native/nntp_host.c:742-749 | A completion of a lingering socket is no violation and keeps it |
| `NntpTable.HostTable.constructor` | native/nntp_host.c:1330-1331 | The tables the host starts with keep the invariant of every run |
| `NntpTable.HostTable.AdmitConn` | native/nntp_host.c:573-600 | In place, by a loop: the lowest free index given at its next generation |
| `NntpTable.HostTable.FreeIndexes` | native/nntp_host.c:260-264 | By a loop: how many indexes are free |
| `NntpTable.HostTable.LetGoOf` | native/nntp_host.c:670-674 | In place: closed or queued, a violation exactly when the queue is full |
| `NntpTable.HostTable.RetireConn` | native/nntp_host.c:678-691 | In place: the descriptor leaves the connection, as the model has it |
| `NntpTable.HostTable.FreeConn` | native/nntp_host.c:219-229 | In place: the index given up, as the model has it |
| `NntpTable.HostTable.GiveConn` | native/nntp_host.c:468-527 | In place: what a receive took given out, the end of the client's input or an error that ends the connection told apart |
| `NntpTable.HostTable.TakeConn` | native/nntp_host.c:721-738 | In place: what a completion of a connection does, violation included |
| `NntpTable.HostTable.PlaceToLinger` | native/nntp_host.c:273-280 | By a loop: where the next descriptor lingers |
| `NntpTable.PlaceIs` | native/nntp_host.c:266-280 | That place is free, or has lingered longest of all with none free |

## Left out

- The fault points of the test builds (`DN_FAULT` and what it plants, the late peer of the echo host among it): the models are of the builds without them.
- System calls, sockets, TLS, epoll readiness, option parsing, reports and counters that only report: the kernel and the network are nondeterministic steps and answers, TLS is a flag of a connection that then makes no receive of its own.
- Clock values: a deadline is a step that may come at any time; `EchoThread.WorkerThread.Expire` takes the time as a parameter and supposes a clock that does not go back.
- The echo program's own copying (`copies[k].enter`): its contract, that what is sent is what was received, is part of the step that moves octets.
- A submission queue that stays full after the kernel was entered: the hosts end there with a harness error, and the models have room for a submission.
- Job generations and place generations of 2 to the 64 and counts of histogram cells of as many: the models count without a bound. Connection generations stop at their limit of 2 to the 62, as in the code.
- The 32 bits a token has for a generation: `Ring.TokenParts` has them; the hosts' models carry the whole generation, so that the check they prove never fires is a stricter one.
- The bytes a job reads and writes, and the contents of its data area: `JobBytes` has the loops that move them, the step system has none.
- The moment between a job's close of a descriptor, made outside the lock, and its update of the table (native/jobs.c:365-370): the model has both in one step. The place is the job's throughout, so no other job may name it meanwhile.
- The drain at shutdown of the job engine and the stop of the NNTP host: the process exits after them.
- That the NNTP host keeps one readiness poll in flight: the model may put any number there, each a completion that changes no connection.
- The poll mode of the NNTP host and its handshakes: no operation is in flight there, so an index is free as soon as its descriptor is closed; a handshake that fails ends a connection as any failure does.
- The dropping of repeated images from `leavings` by their printed form: the model drops equal images.
- The order in which a Python dictionary gives the names of a disk: `CrashSearch.MayLeave`, `CrashImages.Leaving` and `CrashImages.Leavings` take any order that lists each name once.
- Digits other than ASCII ones, which `\d` of the ABNF parser's patterns matches as well.
- `extract` and the page furniture of an RFC's text: only the reading of a definition is modelled.
- An alternation of no items, on which `shortest` and `cost` stop with an error: a parser makes none.
- AbnfInside.InsideIff: it is of starts at every term written, at any depth. Of starts at rules alone it is one way: a string of a repetition that overruns may be in the rule's language by another choice, as in `a = 1*0%x07 / %x07`.
- AbnfInside.DeriveInside: a derivation whose rules nest deeper than any bound does not end in the original either; the bound is a parameter, and the theorem holds for each.
- Object identity in `derive`: a forced alternation is named by where it stands in its rule's term, which tells apart all that parsed terms have.
- The rank `quantile` computes in floating point: `Histogram.Latencies.AtRank` takes any rank from 1 on.
- `settle` and the rest of the load generator: timing and sockets.
- The concrete candidates, sizes and types of `fuzz_reduce.py`: `Reduce` holds for any finite list of candidates, any size in two parts, any check of types and any verdict that depends on the key alone.
- `native/accounts.c`, `scripts/article_ref.py`, `scripts/check_structure.py` and the check drivers: smaller instances of the same patterns, or resting on libraries that are not part of this model.
