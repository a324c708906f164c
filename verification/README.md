# Rail, modelled and proved in Dafny

Rail moves file data over several RDMA rails or a TCP stream. This project models
the parts of it whose correctness rests on more than one function, and proves what
they promise for every input and every interleaving.

- **One-sided transfers** (`RdmaChannel`, `RdmaTransfer`, `RdmaPolling`, `RdmaSends`,
  `RdmaProgress`, `RdmaFailure`). A receiver writes a record
  naming a slot into the sender's ring; the sender writes the page straight into the
  receiver's memory. Rails keep no order between them.
- **The kernel's side of it** (`KernelSlots`, `KernelCalls`, `KernelAdmission`). Slots
  that a caller may leave while its page is still coming, calls that share a
  connection, and landing buffers under admission control.
- **The TCP backend** (`TcpFrames`, `TcpChannel`, `TcpProgress`). Receives by key over one byte
  stream, read by whichever receive finds nobody reading.
- **Delta transfer** (`Checksum`, `Signatures`, `HashChains`, `Delta`). Rolling sums,
  the choice of block length, the hash chains, the scan, and the instructions.
- **Page pipelines** (`PagePools`, `Landing`, `PageStream`, `StreamProgress`, `Session`,
  `SessionFiles`). A fixed pool, windows of reads, sends, receives and writes, whole
  transfers end to end, and sessions of many files.
- **Kernel writeback** (`Writeback`). Runs of dirty folios gathered into one write.
- **Name tables** (`Inodes`, `Handles`, `ReadDir`) and **registered memory** (`Memory`).

A protocol is a value, a `Step` datatype and a `Next` function. Its invariant is kept
by every step, so it holds in every run, and the theorems read it off. Code that
changes an object in place is a class whose methods are tied to the same functions
the protocol steps use, or to a specification of what they leave behind. Completions,
failures and arrivals that the program does not decide are parameters or
nondeterministic choices, so a theorem covers all of them. Digests are functions
about which nothing is assumed; where equality of digests has to mean equality of
bytes, the statement names the collision it would take.

`dafny verify dfyconfig.toml` checks everything.

## What does not hold

Each of these is a lemma that gives the exact condition under which the property
holds; where a run or an input is needed to see it fail, another lemma gives that.

- A scan whose block is as long as its window never gets past a miss before the end
  (`Delta.Differ.Diff`, `Delta.Differ.StallsWithoutAMatch`). The channels' cap makes the
  block that long exactly from 16 TiB on (`Signatures.BlockBelowWindowExactly`).
- A scan whose block is longer than its window looks past the end of it
  (`Delta.Differ.Diff`); the channels' cap rules that out for signatures built here.
- A cap that is not a power of two, or below the default block length, can be exceeded
  (`Signatures.CapExceededExactly`).
- A receive that fails with its record or page still out hands its slot, and with it
  that page's completion, to the next receive (`RdmaFailure.FailureIsHarmlessExactly`).
- In the kernel, claiming a landed slot and completing it are two moments. An offer
  that slips between them takes the old completion for its own
  (`KernelSlots.OfferKeepsExactly`).
- Two data frames for one key let the owner of a buffer leave while it is being
  filled (`KernelCalls.SecondFrameOutlivesTheOwner`).
- Closing the TCP channel does not release a reader that holds a header for a key
  nobody posts (`TcpChannel.CloseReleasesExactly`).
- A frame whose length is not what was posted for it ends every receive whose own
  frame comes after (`TcpProgress.SucceedsExactly`).
- Abandoning a page waiter that was already woken can leave another parked beside a
  free page (`PagePools.AbandonStrandsExactly`).
- An end of a stream that posts fewer pages than the other leaves the other waiting
  (`StreamProgress.ComeBackExactly`), which is why a page that cannot be read is sent
  as zeros.
- With one page a pipeline may wait for a page that only it could return
  (`PageStream.SenderStarvesExactly`, `PageStream.ReceiverStarvesExactly`,
  `Session.WholeFileStarvesExactly`).
- A rename into the moved subtree leaves a loop in the inode table
  (`Inodes.RenameKeepsExactly`).

What forgetting a path does to the path's own handle depends on the handle: it ends one
that carries the digest of the whole path, and leaves one that carries the parent's
digest and the name, which goes with the parent (`Handles.ForgetEndsOwnHandleExactly`).

## Model

| member | source | states |
|---|---|---|
| Checksum.WeakChecksum | src/app/checksum.cc:9-26 | the loop unrolled by four gives the byte-by-byte definition over signed bytes, both halves modulo 2^16 |
| Checksum.StepOfFour | src/app/checksum.cc:16-20 | one unrolled step adds to both running sums what four single steps add |
| Checksum.RollIsNextWindow | include/rail/app/checksum.h:18-26 | rolling one byte out and one in gives the checksum of the next window, for every window |
| Checksum.HashSeparates | include/rail/app/checksum.h:28-29 | sums that differ in one half only fall into different buckets |
| Signatures.ChooseBlockLength | src/app/signature.cc:9-24 | the bit-by-bit square root, for every file length and cap: the default, the cap, or the root by eights |
| Signatures.RootFromBits | src/app/signature.cc:16-21 | deciding one bit at a time ends at the greatest multiple of 8 whose square is at most the length |
| Signatures.RootByEightsMeans | src/app/signature.cc:16-21 | the root by eights in plain products, both directions |
| Signatures.BlockLengthIsClampedRoot | src/app/signature.cc:9-24 | under a power-of-two cap the choice is that root, clamped between the default and the cap |
| Signatures.CapExceededExactly | src/app/signature.cc:9-24 | for every length and cap: a file within the default's square exceeds exactly the caps below the default; any other exceeds the cap exactly when its root bit is below it and the cap is below the default or the next multiple of 8 above the cap still squares to at most the length |
| Signatures.CapExceededSomewhere | src/app/signature.cc:14-21 | a file of 2,250,000 bytes under a cap of 1100 gets a block of 1496 |
| Signatures.BlockBelowWindowExactly | src/app/signature.cc:9-24 | with the channels' cap the block is shorter than the 4 MiB scan window exactly for files below 16 TiB |
| Signatures.StartIsProduct | src/app/signature.cc:35-40 | block starts, counted up one block at a time, are index times block length |
| Signatures.BlockLengthAtIsLength | src/app/signature.cc:35-40 | the length computed for an index, with its 64-bit wrap, is the length of that block and positive exactly for the blocks there are |
| Signatures.BuildSignature | src/app/signature.cc:42-71 | the signature sums every block of the basis in order, the short last one included |
| HashChains.Thread | src/app/differ.cc:24-30 | the heads and links thread every entry into its bucket, latest first |
| HashChains.LinksFollow | src/app/differ.cc:26-30 | following the links visits exactly the bucket, in order |
| HashChains.Follow | src/app/differ.cc:45-68 | the bounded walk returns nothing only if none of the entries looked at passes, the wanted one whenever it passes, else the first that does |
| Delta.Differ.BuildHashTable | src/app/differ.cc:17-31 | the table has its computed size and threads every block into the bucket of its hash modulo that size |
| Delta.Differ.HashFitsTable | src/app/differ.cc:27-34 | reducing the hash modulo the table size leaves it as it is |
| Delta.Differ.Lookup | src/app/differ.cc:33-69 | a block found lies within the chain bound and no sum compared tells the bytes from it (as `Delta.MatchesExactly` says); nothing is found only if that holds of no block looked at |
| Delta.MatchesExactly | src/app/differ.cc:49-62 | against a signature that describes the basis, bytes pass the test of a block exactly when they have its length, its weak sum and the leading bytes of its strong sum |
| Delta.Differ.FillWindow | src/app/differ.cc:71-78 | after a refill the window shows the source from the offset on, as far as it reaches |
| Delta.Differ.EnsureWindow | src/app/differ.cc:80-87 | refills only when the block at the offset is not covered, and keeps the window true to the source |
| Delta.Differ.EmitLiteral | src/app/differ.cc:89-105 | literals are cut at the window size and extend the tiling and its tally |
| Delta.Differ.EmitCopy | src/app/differ.cc:107-120 | a copy extends the tiling with source bytes that passed the test |
| Delta.Differ.MatchFinalBlock | src/app/differ.cc:122-147 | exactly when it matches: the basis ends in a short block, it fits after the last match, and the source's tail has that block's length, weak sum and leading strong bytes |
| Delta.Differ.Examine | src/app/differ.cc:170-179 | the sum looked up is the sum of the source at the offset, rolled or computed afresh, and every window access is in range |
| Delta.Differ.OnMiss | src/app/differ.cc:180-193 | the rolled sum is the checksum of the next window; a refill keeps the place |
| Delta.Differ.OnHit | src/app/differ.cc:195-205 | the bytes since the last match go out literally, then the copy, and the scan moves one block on |
| Delta.Differ.Round | src/app/differ.cc:170-206 | a round hits exactly where a block within the chain bound passes the test; otherwise it moves on, refills a window that was not full, ends the scan, or repeats the same refill for ever |
| Delta.Differ.Diff | src/app/differ.cc:149-219 | for every signature and source the scan stays within its window exactly when that holds a block wherever one fits, and then ends exactly when it does not stall; the instructions tile the source, each at its own offset, every copy is sound, literals cover only places where no block within the chain bound passes the test, the tallies add up, and no literal byte is sent exactly when blocks follow one another to the end or to the basis's short final block |
| Delta.Differ.UnchangedIsCopied | src/app/differ.cc:149-219 | a source equal to its basis is such a source and does not stall, as long as a block fits it and no chain is cut short |
| Delta.Differ.ShortIsNotCopied | src/app/differ.cc:156-156 | one shorter than a block goes out literally, though it be its own basis |
| Delta.Differ.StallsWithoutAMatch | src/app/differ.cc:180-193 | a source longer than the window, with a block as long as the window and a first block that is nowhere in the basis, stalls the scan |
| Delta.RefillRepeatsExactly | src/app/differ.cc:180-191 | after a miss the refill finds the window as it was exactly where the sum cannot roll |
| Delta.MissesMoveOnExactly | src/app/differ.cc:180-193 | a scan that keeps missing moves on exactly when the block is shorter than the window; at equality the refill repeats for ever |
| Delta.RebuildGivesSource | src/session-receive.cc:300-317 | applying the instructions to the basis yields the source, if a source window and a basis block of equal length, equal weak sum and equal leading strong bytes are equal |
| Delta.TotalsAddUp | src/app/differ.cc:89-120 | literal and matched bytes add up to the source length |
| RdmaChannel.RdmaDataChannel.RecvBegin | src/transport/rdma-data-channel.cc:294-306 | takes the latest free slot and stages its record, or fails exactly when no slot is free |
| RdmaChannel.RdmaDataChannel.FreeSlot | src/transport/rdma-data-channel.cc:444-447 | gives the slot back and forgets what waited in it |
| RdmaChannel.RdmaDataChannel.Offered | src/transport/rdma-data-channel.cc:521-526 | queues the ring record under its key; a slot out of range changes nothing |
| RdmaChannel.RdmaDataChannel.Harvest | src/transport/rdma-data-channel.cc:528-536 | takes the oldest record of the key, or reports that there is none |
| RdmaChannel.RdmaDataChannel.Post | src/transport/rdma-data-channel.cc:323-324 | a fresh id for a page handed to the adapter |
| RdmaChannel.RdmaDataChannel.DriveOne | src/transport/rdma-data-channel.cc:609-637 | a batch of completions is absorbed in order; `RdmaPolling` says what that does |
| RdmaTransfer.StepKeeps | src/transport/rdma-data-channel.cc:294-359 | every step of either end or of a rail keeps the invariant: at most one token per outstanding receive, wherever it is, and whose page it will be |
| RdmaTransfer.RunKeeps | src/transport/rdma-data-channel.cc:294-359 | so does every run without a failed receive, however the rails reorder their work |
| RdmaTransfer.ReceivesHoldTheirPages | src/transport/rdma-data-channel.cc:294-359 | in every such run a receive that is done holds the page given to the send of its key and turn |
| RdmaTransfer.RecordsAreNotOverwritten | src/transport/rdma-data-channel.cc:487-519 | no ring record and no staged copy is overwritten before it has been consumed |
| RdmaPolling.AbsorbIsPoll | src/transport/rdma-data-channel.cc:617-634 | a completion of a landed offer, a landed page or a finished send, told apart by the immediate it was posted with (lines 344 and 511), steps the direction it reports on exactly as the interleavings do and leaves the other direction alone; an error raises the failure and nothing else |
| RdmaPolling.DrainIsPolling | src/transport/rdma-data-channel.cc:609-637 | draining any batch that reports on both directions of an end runs the polls of each, and the failure is raised exactly on an error |
| RdmaPolling.DrainedReceivesHoldTheirPages | src/transport/rdma-data-channel.cc:609-637 | after any batch a receive marked done holds the page of its key and turn, from every state a run without a failed receive reaches, whatever failed in the other direction |
| RdmaSends.SendReturnsExactly | src/transport/rdma-data-channel.cc:323-358 | in every run, failed receives or not, a send may return exactly when its page has been written and its completion heard, never while the adapter may still read the page |
| RdmaSends.SendsCanReturn | src/transport/rdma-data-channel.cc:323-358 | from every state reached without a failed receive each posted send can still be completed and return |
| RdmaProgress.RunServes | src/transport/rdma-data-channel.cc:294-359 | in every such run each receive without its page has its token out, or a send too long for it has used it up |
| RdmaProgress.CompletesExactly | src/transport/rdma-data-channel.cc:294-359 | from every reachable state a receive whose send was given can be completed by some run, exactly when the page fits |
| RdmaFailure.FailureIsHarmlessExactly | src/transport/rdma-data-channel.cc:303-310 | after any run, failing a receive can mislead no later receive exactly when no token for its slot is out, or its record is held beside a waiting send too long for it |
| RdmaFailure.TokenMisleads | src/transport/rdma-data-channel.cc:303-310 | in every other case some run without further failure completes a receive that holds no page of its key, wherever the token was: staged, in the ring, held, posted or landed |
| RdmaFailure.WastedFailureIsHarmless | src/transport/rdma-data-channel.cc:312-322 | a record that a too long send will use up does no harm in any run |
| RdmaFailure.FailureMisleadsSomewhere | src/transport/rdma-data-channel.cc:294-310 | a run to a state whose failure misleads |
| RdmaFailure.RecordIsWastedSomewhere | src/transport/rdma-data-channel.cc:312-322 | a run to a state with a token out whose failure misleads nobody |
| KernelSlots.RailSlots.SlotTake | src/linux/railfs-rdma.c:1203-1224 | the lowest free slot, an error on a broken rail, or nothing exactly when none is free |
| KernelSlots.RailSlots.SlotRelease | src/linux/railfs-rdma.c:1226-1235 | sets the slot's bit and no other |
| KernelSlots.RailSlots.OnLanded | src/linux/railfs-rdma.c:1007-1053 | a landing claims a live slot, and gives back an orphaned one |
| KernelSlots.RailSlots.SlotOrphan | src/linux/railfs-rdma.c:1237-1253 | the caller leaves the slot to the landing, or gives it back when the landing came first or the rail is broken |
| KernelSlots.RailSlots.StrandAll | src/linux/railfs-rdma.c:948-968 | breaks the rail and completes every slot, freeing none |
| KernelSlots.OfferKeepsExactly | src/linux/railfs-rdma.c:1128-1193 | an offer keeps the invariant exactly when no completion of an earlier page is still due on its slot |
| KernelSlots.StepKeeps | src/linux/railfs-rdma.c:1264-1361 | up to the break every other step keeps it, in any interleaving of callers, landings and departures |
| KernelSlots.SlotsAreAccountedFor | src/linux/railfs-rdma.c:1007-1053 | in every such run a slot is exactly one of free, held by one caller, orphaned with its page coming, or being dropped |
| KernelSlots.SlotsAreReleasedOnce | src/linux/railfs-tcp.c:1292-1315 | whoever gives a slot back finds it not free and the peer done with it; no slot is taken or offered while the peer may write into it |
| KernelSlots.WaitersCanBeServed | src/linux/railfs-rdma.c:1007-1053 | in every such run a waiting caller's page can still land, be completed and end the wait, by the peer and the completion handler alone |
| KernelSlots.BreakIsFinal | src/linux/railfs-rdma.c:1060-1098 | a broken rail stays broken and nothing more is offered on it |
| KernelSlots.BreakEndsEveryWait | src/linux/railfs-rdma.c:948-968 | from the break on every caller that waits may end at once, whatever happens after |
| KernelSlots.LateCompletionFreesALiveSlot | src/linux/railfs-rdma.c:1007-1053 | a completion overtaken by the next offer lets a slot be freed while its page is still coming |
| KernelSlots.OvertakingIsReachable | src/linux/railfs-rdma.c:1007-1053 | such an offer is reached by two callers and one page |
| KernelCalls.Connection.CallBegin | src/linux/railfs-tcp.c:328-358 | lists a fresh call, or refuses on a dead connection |
| KernelCalls.Connection.CallFor | src/linux/railfs-tcp.c:436-448 | finds the listed call of an id, if there is one |
| KernelCalls.Connection.Deliver | src/linux/railfs-tcp.c:450-494 | the reader gives up exactly on a reply of the wrong type or a second one to a listed call; one to nobody changes nothing |
| KernelCalls.Connection.Kill | src/linux/railfs-tcp.c:626-664 | fails the listed calls, once, sparing what has an answer |
| KernelCalls.Connection.BeginFrame | src/linux/railfs-tcp.c:557-586 | a frame fills a buffer exactly when a listed call wants data and has room for it; one for nobody is read past, and one too long gives the connection up |
| KernelCalls.Connection.EndFrame | src/linux/railfs-tcp.c:588-599 | the call has its data or the reason there is none, and its owner may go |
| KernelCalls.Connection.Unlink | src/linux/railfs-tcp.c:360-377 | takes the call off the list and leaves the others |
| KernelCalls.AtMostOneReply | src/linux/railfs-tcp.c:450-494 | in every run a call takes at most one reply and ends with that one, kills or not |
| KernelCalls.FirstReplyAnswers | src/linux/railfs-tcp.c:450-494 | the first reply of the wanted type to a listed call is its answer for good |
| KernelCalls.KillFailsTheUnanswered | src/linux/railfs-tcp.c:626-664 | a listed call without a reply is failed with the reason of the first kill, for good unless its reply still comes |
| KernelCalls.NobodyWaitsOnADeadConnection | src/linux/railfs-tcp.c:626-664 | in every run, on a dead connection no listed call is left without an outcome for its reply and its data |
| KernelCalls.ReaderNeverTouchesGoneBuffers | src/linux/railfs-tcp.c:557-603 | with at most one data frame per key the reader never fills a buffer whose owner has left |
| KernelCalls.SecondFrameOutlivesTheOwner | src/linux/railfs-tcp.c:557-603 | after every run that has begun a frame for a call still listed, with the reader idle, one more frame lets the owner leave while the reader fills its buffer |
| KernelCalls.FirstFrameReleases | src/linux/railfs-tcp.c:360-377 | such a run is one delivered frame long |
| KernelAdmission.Admission.Admit | src/linux/railfs-tcp.c:669-687 | admits while fewer than the limit are in, and never on a dead connection |
| KernelAdmission.Admission.Leave | src/linux/railfs-tcp.c:689-695 | one fewer is in |
| KernelAdmission.Admission.LandingTake | src/linux/railfs-tcp.c:697-721 | an admitted reader always finds a landing buffer, the lowest free one |
| KernelAdmission.Admission.LandingGive | src/linux/railfs-tcp.c:723-726 | its buffer is free again |
| KernelAdmission.Admission.SomeBufferIsFree | src/linux/railfs-tcp.c:697-721 | fewer buffers are out than readers are in, so one is free |
| TcpFrames.HeaderRoundTrip | src/transport/tcp-data-channel.cc:99-102 | key and length are read back from the twelve header bytes |
| TcpFrames.FrameAt | src/transport/tcp-data-channel.cc:170-199 | every frame of a stream stands, header and payload, where the frames before it end |
| TcpChannel.TcpDataChannel.WakeReaders | src/transport/tcp-data-channel.cc:210-215 | every parked coroutine is scheduled once, in order |
| TcpChannel.TcpDataChannel.Turn | src/transport/tcp-data-channel.cc:129-143 | keeps one entry per key and one reader at most; the receive has ended, is the reader, or is parked while another reads |
| TcpChannel.TcpDataChannel.Post | src/transport/tcp-data-channel.cc:107-144 | keeps the same; a second receive of a key is refused and leaves the first registered, any other is open under its key unless the channel has failed |
| TcpChannel.TcpDataChannel.Fail | src/transport/tcp-data-channel.cc:204-208 | keeps the same; the reader's failure is everybody's: nobody reads on and nobody stays parked |
| TcpChannel.TcpDataChannel.Seek | src/transport/tcp-data-channel.cc:180-193 | keeps the same; a posted key of the frame's length leaves the reader filling that receive, one of another length fails the channel, and a key nobody posted parks the reader |
| TcpChannel.TcpDataChannel.Land | src/transport/tcp-data-channel.cc:195-198 | keeps the same; the payload is the target's alone and everybody parked is woken; a reader whose own it was returns and frees the socket, any other reads on |
| TcpChannel.TcpDataChannel.Close | src/transport/tcp-data-channel.cc:146-155 | keeps the same; everybody parked is woken, once and in order, to the failure |
| TcpChannel.RunKeeps | src/transport/tcp-data-channel.cc:107-200 | every interleaving of receives, frames, failures and closing keeps the invariant |
| TcpChannel.ReceivesHoldTheirFrames | src/transport/tcp-data-channel.cc:107-200 | a receive that succeeded holds exactly the payload of the one frame sent under its key |
| TcpProgress.SucceedsExactly | src/transport/tcp-data-channel.cc:107-200 | from every reachable state before a failure, a receive can still succeed exactly when it has been served, or no frame up to its own differs in length from what is posted for it |
| TcpProgress.SucceedsUnfedExactly | src/transport/tcp-data-channel.cc:165-200 | with what the peer has already sent alone, exactly when moreover its own frame is among it |
| TcpProgress.WrongLengthEndsOthers | src/transport/tcp-data-channel.cc:186-193 | a frame of the wrong length for one receive is one message away from keeping another from ever succeeding |
| TcpChannel.OneReaderInStep | src/transport/tcp-data-channel.cc:133-139 | at most one coroutine reads the socket, and it stands on a frame boundary or in its own frame |
| TcpChannel.NobodySleepsBesideTheSocket | src/transport/tcp-data-channel.cc:126-143 | a parked receive has neither its frame nor a failure to return with, and somebody is reading; a reader parked for a key has not had it posted |
| TcpChannel.StuckForEver | src/transport/tcp-data-channel.cc:180-184 | a reader holding a header for a key nobody posts stays there through every run |
| TcpChannel.CloseReleasesExactly | src/transport/tcp-data-channel.cc:146-155 | after a close a receive can end exactly when it is not such a reader |
| TcpChannel.StuckIsReachable | src/transport/tcp-data-channel.cc:180-184 | such a reader is one frame away |
| PagePools.PagePool.Acquire | src/page-pool.cc:35-43 | keeps free and lent pages a partition and every wakeup paid for; a page nobody else holds, or a place behind all waiters exactly when none is free |
| PagePools.PagePool.ReleaseIndex | src/page-pool.cc:45-52 | keeps the same; the page is free and the longest waiting caller is on its way to it |
| PagePools.PagePool.Resume | src/page-pool.cc:35-43 | keeps the same; a woken caller gets a page nobody else holds, or parks again exactly when a newcomer left none |
| PagePools.RunKeeps | src/page-pool.cc:20-52 | in every interleaving without abandoned waiters free and lent pages partition the pool and no wakeup is lost |
| PagePools.AbandonStrandsExactly | include/rail/page-pool.h:33-49 | abandoning a waiter already woken leaves another parked beside a free page, through every run without a release, a newcomer or its own abandoning, exactly when no more wakeups were on the way than pages free |
| PagePools.StrandingIsReachable | include/rail/page-pool.h:33-49 | three callers of one page reach it |
| PagePools.FreePageIsTaken | src/page-pool.cc:35-52 | a free page beside a parked waiter is always about to be taken |
| Landing.LandOne | src/stream/page-stream.cc:243-251 | a write landing at any moment brings its own bytes and spoils nobody's, padding included |
| Landing.Receiver.Store | src/stream/page-stream.cc:203-241 | receives are hashed in posting order and become writes, of whole blocks where the sink is opened for direct I/O; every byte of every page taken is on disk or in a write in flight, and no page of the pool is lost on the way |
| Landing.Receiver.AwaitWrites | src/stream/page-stream.cc:243-251 | waits in submission order until few enough are left, whatever order they land in |
| Landing.Receiver.PostPage | src/stream/page-stream.cc:270-312 | room is made first; the page joins what is taken, or the receiver waits for ever, exactly when it must have a page from the pool and then holds them all itself |
| Landing.Receiver.Run | src/stream/page-stream.cc:270-317 | a range received page by page is hashed and left on disk exactly as it arrived; when nothing fails it ends exactly unless the range makes the receiver hold the whole pool at some page |
| Landing.Receiver.ApplyLiteral | src/session-receive.cc:221-246 | at any offset: a literal longer than a page is refused, any other is received next; with a page to spare it never waits for itself |
| Landing.Receiver.ApplyCopy | src/session-receive.cc:300-317 | at any offset: everything before it reaches the disk, then the block of the basis is hashed and put down |
| Landing.Receiver.Complete | src/session-receive.cc:319-334 | commits exactly when everything is down and the digest matches; every byte of the file that a message covered is one a message brought there, and where the messages follow one another the file is what was hashed |
| Landing.AllInPlace | src/stream/page-stream.cc:203-251 | once nothing is in flight, pieces that follow one another are on disk as they were taken, whatever order they landed in |
| Landing.SpareFeedsReceiver | src/stream/page-stream.cc:270-312 | with a page to spare no range makes the receiver wait for itself |
| Landing.CutsArePagesApart | src/stream/page-stream.cc:270-312 | the pages of a range start a page apart and reach its end |
| PageStream.TwoPagesLeaveOne | src/stream/page-stream.cc:16-27 | from two pages on the geometry leaves either end a page to spare; below that every window is one |
| PageStream.GeometryUsesThePool | src/stream/page-stream.cc:16-27 | and the windows are as wide as that allows: up to half the pool in flight and all but one of the rest read ahead, within the channel and the depth |
| PageStream.SenderStarvesExactly | src/stream/page-stream.cc:41-92 | so a stream makes the sender wait for a page only it could return exactly when the pool has one page and two pages from it follow one another, or none and one is needed |
| PageStream.ReceiverStarvesExactly | src/stream/page-stream.cc:270-312 | and the receiver exactly when the pool has one page and two pages of the stream come from it, or none and one is needed |
| PageStream.OnePageWaits | src/stream/page-stream.cc:185-201 | a sender with one page and two to send waits for ever though nothing fails |
| PageStream.PageSender.Fill | src/stream/page-stream.cc:41-92 | reads ahead in order, a read that cannot start keeping its place; while the pool works it fills up, or waits for ever only where the plan says so |
| PageStream.PageSender.ShipReady | src/stream/page-stream.cc:94-151 | posts the oldest page, hashed first, with zeros where it could not be read |
| PageStream.PageSender.Run | src/stream/page-stream.cc:185-201 | every page of the range posted once and in order, or pages reported unsent, or the sender waits for itself; success exactly when none is left and every read was good; while the pool and every send work none is left, and it waits exactly when the range makes it hold the whole pool at some page |
| PageStream.PagesAreSource | src/stream/page-stream.cc:94-140 | with full reads the pages are the source range |
| PageStream.ReceiverDerivesThePages | src/stream/page-stream.cc:274-309 | the receiver cuts the range into the same offsets and lengths on its own |
| PageStream.Transfer | src/stream/page-stream.cc:179-317 | both ends succeeding with equal digests leave the source range in the sink whatever arrived, or two streams share a digest; over a faithful channel the digests agree; where nothing else fails the sender succeeds exactly when every page was lent or read without an error and the range does not starve it, the receiver exactly unless the range starves it |
| StreamProgress.ComeBackExactly | src/stream/page-stream.cc:153-317 | however both ends and the channel take turns and whatever the windows, a run that can go no further leaves each end back exactly when the other posted at least as many pages, so both come back exactly when they posted the same; every page both posted has moved |
| StreamProgress.RunsAreBounded | src/stream/page-stream.cc:185-317 | every run of the two ends is bounded, so it does come to that |
| StreamProgress.GoesOn | src/stream/page-stream.cc:185-317 | from every state that is reached some run goes on to such an end |
| Session.WithGeometry | src/session-push.cc:193-209 | at least two pages; the page size is the first power of two from 1 MiB that makes at most four pages, capped at 64 MiB |
| Session.WindowsLeaveOne | src/session-push.cc:358-371 | from two pages on the sending windows leave one over, with one they are one each; the receiving ones (session-receive.cc lines 107-111) leave one from one page on |
| Session.WindowsUseThePool | src/session-push.cc:358-371 | and they are as wide as that allows, at both ends |
| Session.WholeFileStarvesExactly | src/session-push.cc:358-371 | so a whole file makes the sender wait for itself exactly when the pool has one page and the file more, or none and the file any; the floor of two pages rules both out |
| Session.Push.Fill | src/session-push.cc:599-625 | reads ahead in order, and waits for ever only once reading and sending hold the whole pool |
| Session.Push.ShipReady | src/session-push.cc:628-674 | hashes and announces the oldest page; a short read fails it |
| Session.Push.SendWholeFile | src/session-push.cc:676-687 | what was hashed is the whole source, announced page by page as a streaming receiver cuts it; where nothing fails it ends exactly unless the file has more pages than the pool and the windows leave none over |
| Session.Push.SendPage | src/session-push.cc:530-573 | one page of a literal, as long as the read was, hashed in destination order; it waits for itself only with a window wider than the pool |
| Session.Push.SendLiteral | src/session-push.cc:575-592 | the literal goes out whole, in pages |
| Session.Push.SendDelta | src/session-push.cc:689-712 | what was hashed is the whole source, announced as literals and copies that passed the scan's test, with the scan's tallies |
| Session.Apply | src/session-receive.cc:438-455 | for every sequence of messages, in order or not: what is taken is each literal's page and each copy's block at the place named, the copied bytes are counted, and it succeeds only on messages it can use, and on those whenever nothing fails |
| Session.BroughtAbut | src/session-receive.cc:438-455 | messages told in order bring pieces that follow one another |
| Session.BroughtIsSource | src/session-receive.cc:438-455 | over a faithful channel, and if a source window and a basis block with the same length, weak sum and leading strong bytes are equal, they bring the source |
| Session.StreamArrives | src/session-receive.cc:405-430 | a streaming receiver derives page for page what the sender posted |
| Session.ReceiveDelta | src/session-receive.cc:438-455 | the receiving half of a delta transfer: what is committed, its tallies, and when it must commit |
| Session.TransferDelta | src/session-push.cc:689-745 | a committed delta transfer leaves the source for every basis, arrival and completion order, or the digest collides; the receipt equals the sender's tallies; where nothing fails, the windows fit the pool and the scan neither stalls nor leaves its window, it commits over a faithful channel, if equal sums mean equal blocks |
| Session.TransferWhole | src/session-receive.cc:405-436 | the same for a file sent whole, streamed or announced |
| SessionFiles.Push.ReapReceipts | src/session-push.cc:727-745 | each receipt is held against its own file; it fails exactly on one that disagrees, and names the first file that does |
| SessionFiles.Push.ExchangeHeader | src/session-push.cc:504-517 | everything awaited is read before the signature, so the next reply is this file's signature |
| SessionFiles.Push.Confirm | src/session-push.cc:714-721 | the file's receipt is awaited and at most sixty-four stay unread |
| SessionFiles.Push.Carry | src/session-push.cc:832-846 | over every list of items the sender waits only for replies that come and are of the kind it waits for; the session succeeds exactly when both ends agree on every file, with nothing left unread and the totals right, and otherwise names the first file in dispute |
| SessionFiles.TagsAreApart | include/rail/proto/message.h:373-373 | no two pages of a session share a tag while the tags stay within 64 bits |
| Writeback.Cache.GatheredAppend | src/linux/railfs-write.c:289-292 | a folio that starts where a run ends extends it, and shows that the run's last folio was whole |
| Writeback.Cache.Scatter | src/linux/railfs-write.c:244-257 | copying folios by their sizes up to the flush's length gives their in-order bytes, no more and no less |
| Writeback.Cache.PayloadAt | src/linux/railfs-write.c:260-287 | each folio's bytes stand at the folio's own offset in the payload |
| Writeback.Cache.PayloadBelongs | src/linux/railfs-write.c:260-287 | a payload holds nothing but folio bytes at their own offsets |
| Writeback.Writeback.Stage | src/linux/railfs-write.c:266-282 | at the switch and after it the buffer is the in-order payload |
| Writeback.Writeback.Carries | src/linux/railfs-write.c:47-56 | a flush carries the same in-order payload on both sides of the eight-folio switch |
| Writeback.Writeback.Add | src/linux/railfs-write.c:260-287 | takes the folio into the run, or, for want of a buffer at the switch, leaves it all as it was |
| Writeback.Writeback.Queue | src/linux/railfs-write.c:120-129 | a flush is queued whole, or every folio of it is dirty again |
| Writeback.Writeback.Abandon | src/linux/railfs-write.c:108-116 | every folio of an abandoned flush is dirty again and its writeback ended |
| Writeback.Writeback.FlushOne | src/linux/railfs-write.c:77-98 | every folio of a queued flush was sent whole or the mapping has its error, and its writeback is ended |
| Writeback.Writeback.FlushBig | src/linux/railfs-write.c:133-176 | a large folio is sent whole in pieces, deferred, or the mapping has its error |
| Writeback.Writeback.Gather | src/linux/railfs-write.c:296-323 | a folio that starts where the gathered run ends, and has room in it, joins it, any other begins a run of its own; one not taken is left to its caller, and only after a failure |
| Writeback.Writeback.WritebackFolio | src/linux/railfs-write.c:325-356 | whatever happens, the folio's writeback is ended or in the hands of one flush; one past the end of the file ends with nothing sent |
| Writeback.Writeback.WritePages | src/linux/railfs-write.c:386-416 | every writeback started is ended once; each folio had every byte below the file's size sent at its own offset, lay past the end, set the error or is dirty again; every byte sent is a folio's, at its offset and below the size, in writes of a page at most; none is dirty again unless memory was refused or the process killed or interrupted, none set the error unless a write was refused |
| Inodes.KeyInjective | include/rail/fuse/inodes.h:50-50 | parent and name are read back from a key, whatever the name holds |
| Inodes.CreateKeeps | src/fuse/inodes.cc:18-24 | a new node keeps the tables inverse, the child counts right and every walk up finite |
| Inodes.EraseKeeps | src/fuse/inodes.cc:26-30 | so does erasing one, children or not |
| Inodes.RenameKeepsExactly | src/fuse/inodes.cc:102-122 | a rename keeps them exactly when its target does not lie inside the moved subtree |
| Inodes.IllegalRenameLoops | src/fuse/inodes.cc:102-122 | otherwise the moved node becomes its own ancestor, and no walk up from it or from anything beneath it arrives at the root |
| Inodes.LoopIsReachable | src/fuse/inodes.cc:44-52 | two inserts make a table in which such a rename can be asked for |
| Inodes.RenameReplacesPrefix | src/fuse/inodes.cc:102-122 | in the moved subtree the path's prefix is replaced |
| Inodes.RenameKeepsOtherPaths | src/fuse/inodes.cc:102-122 | every path that passes neither the moved node nor the replaced one stays |
| Inodes.RenameKeepsRefs | src/fuse/inodes.cc:102-122 | a rename loses the node it replaces and no other, and every node left keeps its references |
| Inodes.EraseKeepsPathsExactly | src/fuse/inodes.cc:26-30 | erasing a node cuts off exactly what lies under it |
| Inodes.LeafCutsNobodyOff | src/fuse/inodes.cc:32-42 | a node without children has nobody under it, so trimming loses no other path |
| Inodes.TrimmedExactly | src/fuse/inodes.cc:32-42 | a listed number goes exactly when nobody refers to it and no node lies in it |
| Inodes.TrimKeepsPaths | src/fuse/inodes.cc:32-42 | however many numbers are trimmed, whatever is left keeps its path |
| Inodes.OnePath | src/fuse/inodes.cc:88-100 | a number has one path |
| Inodes.PathGrowsBySlash | src/fuse/inodes.cc:7-10 | one name more is that name behind a slash, except straight under a root that names nothing |
| Inodes.PathsAreDistinct | src/fuse/inodes.cc:7-10 | different names down from one root are different paths |
| Inodes.Inodes.Insert | src/fuse/inodes.cc:44-52 | the name's number with one more reference, a new number if it had none, and nobody else's references changed |
| Inodes.Inodes.Reserve | src/fuse/inodes.cc:54-62 | the name's number, which survives the trimming, and no referenced node lost; never more numbers listed than the limit |
| Inodes.Inodes.Trim | src/fuse/inodes.cc:32-42 | back within the limit: the oldest listed numbers go, but none that is referred to or has children |
| Inodes.Inodes.Release | src/fuse/inodes.cc:64-71 | the node of the name goes exactly when it has no reference, children or not |
| Inodes.Inodes.Forget | src/fuse/inodes.cc:73-81 | the node stays, with fewer references, exactly while it has more than are forgotten; nobody else changes |
| Inodes.Inodes.Reparent | src/fuse/inodes.cc:102-122 | a rename out of the moved subtree keeps the table whole and everybody's references |
| Inodes.Inodes.Drop | src/fuse/inodes.cc:124-129 | the node of the name is gone, and only it |
| Inodes.Inodes.Path | src/fuse/inodes.cc:88-100 | ends for every number, with the names from the root joined, or nothing for one cut off from it |
| Handles.PrefixesEnd | src/nfs/server.cc:211-216 | in path order nothing after the run of a prefix starts with it |
| Handles.CoversExactly | src/nfs/server.cc:211-216 | what a forget covers is the path and what lies under it, name by name |
| Handles.LongPathLeansOn | src/nfs/server.cc:174-207 | a path longer than a handle holds leans on the entry of its directory exactly when its name fits the handle, and on its own otherwise |
| Handles.Handles.Encode | src/nfs/server.cc:174-207 | the handle decodes to its path at once, and only the entry it needs is added |
| Handles.Handles.DecodeExactly | src/nfs/server.cc:218-242 | a handle decodes to its path exactly while the entry it leans on is held, and to nothing otherwise |
| Handles.Handles.Remember | src/nfs/server.cc:247-250 | the two tables stay inverse |
| Handles.Handles.Forget | src/nfs/server.cc:211-216 | exactly the entries at the path and beneath it go, from both tables |
| Handles.Handles.DropBelow | src/nfs/server.cc:214-215 | one walk from the lower bound drops every entry that starts with the prefix and no other |
| Handles.Handles.HandOut | src/nfs/server.cc:160-262 | a handle handed out and decoded after any run of encodes and forgets gives its path, exactly unless a forget covered the entry it leans on after the last encoding of that entry; that of the root or of a path of at most 56 bytes always does |
| Handles.EntryHeldExactly | src/nfs/server.cc:174-250 | what a run leaves of an entry depends on its last encoding and the forgets after it, and on nothing else |
| Handles.ForgetEndsOwnHandleExactly | src/nfs/server.cc:209-216 | forgetting a path ends its own handle exactly when the handle carries the digest of the whole path |
| ReadDir.Page | src/nfs/server.cc:1191-1230 | a reply holds the entries after the cookie, as many as fit and at least one, and says whether they were the last |
| ReadDir.Take | src/nfs/client.cc:130-142 | the client keeps every name but the dots and ends on the last cookie; it fails exactly on a name that is too long |
| ReadDir.ListDirectory | src/nfs/client.cc:110-148 | for every listing and every sequence of size limits the entries are the names at exactly the places that hold no dot, in order, and all names where there is none, within as many calls as there are entries |
| ReadDir.KeptAsOften | src/nfs/client.cc:141-141 | each name but the dots is kept as often as it was given, the dots never |
| Memory.Memory.FirstFit | src/memory.cc:196-201 | the first place where the frames fit, or none anywhere |
| Memory.RunLeavesRoom | src/memory.cc:193-194 | skipping a region by its count never skips a run that fits |
| Memory.Memory.TakeLocked | src/memory.cc:191-209 | one look under the lock: takes the first run that fits in the first region that has one, and finds nothing exactly when none has |
| Memory.Memory.Grow | src/memory.cc:176-189 | adds a free region exactly when the one grower saw fewer than the ceiling and could build one; other threads may take and give back runs meanwhile, but none adds a region |
| Memory.Memory.Alloc | src/memory.cc:211-242 | beside any other threads, what the call did is one of five stories told by its own events in a history that is legal throughout: its run is one its own look found and nobody else's; alone it fails exactly for nothing, for more than a region holds, or when no region has the run and none can be added |
| Memory.HistoryKeeps | src/memory.cc:172-248 | after every history of looks, returns and growth by any threads, runs are apart and in bounds, frames are taken exactly where a run covers them, counts are right, and the ceiling holds though it is checked before the region is built |
| Memory.OneGrower | src/memory.cc:225-229 | from when a thread has the right to grow until it gives it up, nobody else adds a region |
| Memory.FailureFoundNoRoom | src/memory.cc:219-241 | a call that failed looked, there was no room at that moment, and it did not look again |
| Memory.GrowthFoundNoRoom | src/memory.cc:223-241 | a call that added a region had looked as the one grower, there was no room at that moment and no region has been added between, and the ceiling was not reached |
| Memory.Memory.Release | src/memory.cc:244-248 | exactly the run's frames are free again; the other runs stay disjoint and in bounds |

## Left out

- Verbs, io_uring, epoll, sockets and kernel VFS calls: completions, failures and reads are choices of the model.
- xxHash and the strong checksum: an arbitrary function of the bytes.
- Rail selection, memory keys and the stocking of receive queues: a page reaches the address its record names, on some rail.
- RdmaTransfer.RunKeeps: keys and pages outstanding at one time are distinct, which callers see to; a failed post of a record counts as a failed receive.
- KernelSlots.StepKeeps: says nothing after the rail breaks, where slots are no longer reused safely by design; GPU reads that wait out their page are callers that never leave.
- Delta.Differ.Diff: the source does not change during the scan and reads are full; fewer than 2^31 blocks; the hit and false-alarm counters are not modelled.
- Landing.Receiver.ApplyLiteral: of two messages for one byte, the file may hold either's; which of two overlapping writes lands last is not the program's choice.
- The pool of a pipeline is its own: pages held by other users of the same pool are not modelled.
- PageStream.Transfer: runs the two ends one after the other, with arbitrary arrivals; how they wait for one another is in StreamProgress, where an end that starves or fails is one that stops posting, and closing the channel is not modelled. The fault injection that flips a bit is not modelled.
- Session.TransferDelta: one file, whose keys are offsets from its tag base; the scan's instructions are sent after the scan instead of during it.
- SessionFiles.Push.Carry: files differ only by size and tallies; names, modes, directories and links are messages without content, and replies come late or early but in order.
- Writeback.Writeback.WritePages: folio contents do not change during writeback and a write is taken whole or refused; connection windows and the limit on flushes in flight are not modelled.
- Inodes.Inodes.Insert: reference counts and inode numbers do not wrap at 64 bits.
- Handles.Handles.Encode: distinct paths that are ever encoded have distinct digests, a finite assumption named in the contract.
- ReadDir.ListDirectory: the listing does not change between calls; sorting it and the wire format of an entry are a given order and arbitrary sizes.
- Memory.Memory.Alloc: whoever has the right to grow gives it up in time; counters and the registration with adapters are not modelled.
- FUSE read and write windows, NFS attribute and write handling, session negotiation, message codecs, safe paths: easy members or decided by the filesystem.
- Retry and reconnect policy, timeouts, tracing, GPU mappings, benchmarks and tools.
