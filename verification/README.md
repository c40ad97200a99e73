# A verified model of the RPC library and its lock server

The repository is a hand-written RPC library (`rpc/`) with a lock server built on it. Its guarantees come from
several mutable structures, each behind its own mutex, that agree with each other in every interleaving. This
project models those structures in Dafny and proves the guarantees for every run.

There are two kinds of module.

* **Classes** with the fields of the C++ objects. Every method is one critical section (or one loop) of the
  source and is proved against a specification function: the client `Rpcc.Rpcc`, the server's
  `ReplyWindow.ReplyWindow`, `LockServer.LockServer`, `SelectAio.SelectAio`, `Connection.Connection`,
  `Fifo.Fifo`, `RefCount.RefCounted`, `Marshall.Marshall`, `Unmarshall.Unmarshall`, and the loop of
  `CallTiming.WaitForReply`.
* **Machines**: a `State`, an `Action` datatype, `Enabled` and `Do`. `Legal(acts)` says that the action
  sequence `acts` is a run, `After(acts)` is the state it leads to. An action is one critical section or one
  system call, so the runs are all the interleavings of all the threads. A theorem about `After(acts)` for
  every legal `acts` is a theorem about every reachable state. The machines of the RPC protocol, of the lock
  server and of the queue use the very functions that the classes are proved against: `ClientSpec` and
  `ReplySpec`, `LockSpec`, `FifoSpec`.

| file | content |
|---|---|
| `Common.dfy` | optional values and a fact about sets |
| `XidWindow.dfy`, `Rpcc.dfy` | the client: `xid_rep_window_` as a set of completed xids, `calls_` |
| `ReplyWindow.dfy`, `ServerTrace.dfy` | the server's reply window, and the exact at-most-once law of one server |
| `RpcProtocol.dfy`, `RpcSafety.dfy` | clients, restarting server and network together; at-most-once and exactly-once |
| `RpcAnswers.dfy`, `RpcRepeats.dfy` | which deliveries run, what is answered and what `call1` returns; when an answered request runs again |
| `RpcClients.dfy` | the client's record and its headers, over every run |
| `LockServer.dfy`, `LockSystem.dfy` | the lock server and its condition variables; its composition with the RPC protocol |
| `LockClients.dfy` | what lock calls are answered over every run, and what becomes of a process whose lock call failed |
| `Replay.dfy` | runs in which a stale duplicate is executed again, and what that does to a call and to a lock |
| `PollMgr.dfy` | `SelectAIO`, the removal handshake of the poll thread, and which callbacks it runs |
| `Framing.dfy` | bytes, frames, partial writes and reads on a connection |
| `Fifo.dfy`, `ThrPool.dfy` | the bounded queue and the thread pool |
| `ConnLifetime.dfy` | reference counts of connections |
| `Values.dfy`, `Codec.dfy` | types, values and the order of map keys; their encoding, and what decoding accepts |
| `Marshall.dfy`, `Unmarshall.dfy` | the headers, the growable buffer, the reading cursor |
| `CallTiming.dfy` | timespec arithmetic and the wait loop of `call1` |

What the code does where its comments promise something else:

* **At most once.** `checkduplicate_and_update` compares a request only with the acknowledgement in its own
  header (rpc/rpc.cc:568), so a duplicate that arrives after its entry was pruned runs again.
  `ServerTrace.StaleDuplicateRunsAgain` is such a history of the server and `RpcReplay.StaleRequestRunsTwice` a
  run of the whole protocol, `ServerTrace.AtMostOnceExactly` is the exact condition, and
  `RpcTheorems.UnacknowledgedRunsOnce` is what holds with no condition on the network. A stale release makes the
  lock server hand out a lock that is held (`LockReplay.StaleReleaseBreaksExclusion`); `LockSafety.SoundExactly`
  is the exact condition for exclusion.
* **Exactly once.** For the same reason a successful call has run exactly once when its answer arrives
  (`RpcAnswers.SuccessWasExecuted`), but not always at its return: between the two, other calls of the client can
  acknowledge it and a duplicate can run (`RpcReplay.SecondRunBeforeReturn`). `RpcRepeats.SuccessRanOnceExactly` is
  the exact condition. "Accepted late", there and in other theorems, means: accepted after the same server
  instance had accepted a header of that client with a larger `xid_rep`.
* **Marshalling.** A body that passes `okdone` is the encoding of the arguments that come out iff the keys of
  every map in it ascend strictly (`Codec.ExactIffAscending`); so a handler accepts nothing but exact encodings
  iff none of its argument types contains a map (`Codec.ExactIffNoMaps`).
* **Time.** `add_timespec` leaves `tv_nsec == 1000000000` alone (rpc/rpc.cc:892), so two timespecs can name
  one instant and `cmp_timespec` tells them apart (`CallTiming.CmpIsTheOrderOfInstants`). Worse, such a final
  deadline is refused by `pthread_cond_timedwait` with EINVAL at once and with the mutex held, and the loop at
  rpc/rpc.cc:209-212 is left only on ETIMEDOUT or a reply: a call that has no reply by then spins for ever, and
  `got_pdu` blocks behind it. `CallTiming.WaitForReply` gives the exact law: this happens to a call without
  reply iff `start % NS + to % 1000 * MS == NS`, never when `to` is in whole seconds (as its default is), and
  `CallTiming.AwkwardCall` is such a call.
* **Results.** The vector `operator>>` appends and `call_m` reads straight into the caller's variable, so a call
  leaves exactly the handler's result iff that is no vector or the variable was empty
  (`Headers.ClientSeesTheResult`, `Codec.OldElementsStay`).
* **References.** The answer for an old server instance returns without `decref` (rpc/rpc.cc:425-434), so a
  reference count is at least, not exactly, the number of holders.

Assumptions that are part of the models: client nonces are nonzero and distinct, as are the nonces of the
server's instances; xids do not wrap; client ids differ from -1, the mark of a free lock; `block_remove_fd`
sees no spurious wake-up, while all other waits may; a pool is destroyed only when no thread uses it, as its
own comment demands; `char` keys compare as `TByte` of the signedness that `char` has.

## Model

| member | source | states |
|---|---|---|
| XidWindow.FrontIsMonotone | rpc/rpc.cc:320-327 | the front (largest f with 1..f completed) only grows as xids complete |
| XidWindow.FrontIsUnique | rpc/rpc.cc:320-327 | there is one such f, so the front is determined by the completed set |
| XidWindow.UncompletedAboveFront | rpc/rpc.cc:167-170 | an xid still pending lies above the front that headers carry |
| XidWindow.InsertKeepsUncompressed | rpc/rpc.cc:313-319 | inserting an xid before the first larger value keeps the list nondecreasing and adds exactly that xid to the set it stands for |
| XidWindow.PopKeepsUncompressed | rpc/rpc.cc:322-326 | popping the front when the iterator's value is its successor changes nothing in the set, and the iterator's node is not the one popped |
| Rpcc.Rpcc.constructor | rpc/rpc.cc:98-124 | a new client starts with xid 1, no calls and a window holding 0 |
| Rpcc.Rpcc.StartCall | rpc/rpc.cc:156-171 | bind goes first and once; otherwise the call gets the next xid and a header whose acknowledgement is the front of the completed set |
| Rpcc.Rpcc.GotPdu | rpc/rpc.cc:280-302 | a reply completes its xid even when nobody waits; only the first reply reaches the caller |
| Rpcc.Rpcc.FinishCall | rpc/rpc.cc:224-245 | the caller leaves, its xid is completed (again, perhaps), and it gets its reply or the timeout; over runs this is `RpcAnswers.ReturnExactly` |
| Rpcc.Rpcc.FinishBind | rpc/rpc.cc:140-144 | after bind the client is bound to the nonce it was told |
| Rpcc.Rpcc.UpdateXidRep | rpc/rpc.cc:306-327 | with repeats allowed, the list keeps standing for the completed xids: nondecreasing, front the largest f with 1..f completed, the rest exactly the completed xids above f (`Valid`); the set grows by x |
| Rpcc.Rpcc.Insert | rpc/rpc.cc:313-319 | the insertion loop adds the xid and keeps the order |
| Rpcc.Rpcc.Compress | rpc/rpc.cc:321-326 | the compression loop leaves a list whose front is the largest f with 1..f completed |
| ReplyWindow.View | rpc/rpc.h:232-244 | a list with distinct xids, in any order, stands for one map from xid to in-progress or stored reply |
| ReplyWindow.AppendToView | rpc/rpc.cc:610-611 | appending a new reply_t adds one in-progress entry |
| ReplyWindow.EraseFromView | rpc/rpc.cc:582-594 | erasing a node removes exactly its xid |
| ReplyWindow.StoreInView | rpc/rpc.cc:623-627 | filling a node in turns its entry into the stored reply |
| ReplyWindow.ReplyWindow.CheckDuplicateAndUpdate | rpc/rpc.cc:561-613 | the verdict and the new window: FORGOTTEN for xid <= xid_rep with nothing changed; else all entries below xid_rep are gone and the verdict is by the entry left, a new one being added for NEW; other clients are untouched |
| ReplyWindow.ReplyWindow.EraseAcknowledged | rpc/rpc.cc:582-594 | the erasing loop removes exactly the entries below xid_rep from an unsorted list |
| ReplyWindow.ReplyWindow.Find | rpc/rpc.cc:598-599 | the search finds the entry of xid iff there is one |
| ReplyWindow.ReplyWindow.AddReply | rpc/rpc.cc:616-630 | the reply is stored in the entry of xid, and an entry that was erased in the meantime stays erased; over histories this is `ServerTrace.StoredExactly` |
| ServerTrace.WindowTracksLive | rpc/rpc.cc:561-630 | in every history, xid x of client c has an entry iff some accepted request with that xid is followed by no accepted header of c with a larger acknowledgement |
| ServerTrace.NewExactly | rpc/rpc.cc:561-613 | a request is NEW iff every earlier acceptance of its xid was followed by an acceptance with xid_rep above it |
| ServerTrace.VerdictExactly | rpc/rpc.cc:561-630 | over every history of deliveries and replies: FORGOTTEN iff xid <= xid_rep; otherwise NEW iff no live acceptance, INPROGRESS iff one to which no reply was added since, and DONE(r) iff r is the reply added last since |
| ServerTrace.StoredExactly | rpc/rpc.cc:616-630 | a live entry holds reply r iff r is the last reply added after its acceptance, and none iff none was added |
| ServerTrace.AtMostOnceExactly | rpc/rpc.cc:561-613 | an xid gets NEW at most once iff no copy of it is accepted after a header with a larger acknowledgement that came after another copy |
| ServerTrace.StaleDuplicateRunsAgain | rpc/rpc.cc:568-594 | a run of five deliveries in which an xid gets NEW twice |
| ServerTrace.WindowIsBounded | rpc/rpc.cc:580-613 | after an accepted request with acknowledgement r the entries lie in [r, M], M the largest xid accepted, and number at most M - r + 1 |
| RpcSafety.StepKeeps | rpc/rpc.cc:154-630 | every step of clients, server, restart and network keeps the invariant that ties window, executions, headers and replies together |
| RpcSafety.Safe | rpc/rpc.cc:154-630 | the invariant holds in every reachable state |
| RpcTheorems.OneInstance | rpc/rpc.cc:424-434 | a request other than bind executes only in the instance whose nonce its header carries, with the header the client packed |
| RpcTheorems.RepeatIsLate | rpc/rpc.cc:561-613 | of two executions of one xid in one instance the second was accepted late |
| RpcTheorems.UnacknowledgedRunsOnce | rpc/rpc.cc:154-246 | over any network: an xid at or above its client's window front is executed at most once per instance, and if it is not bind at most once over all instances |
| RpcTheorems.WaitingIsUnacknowledged | rpc/rpc.cc:224-232 | an xid whose caller still waits is above the front |
| RpcTheorems.TimelyRunsOnce | rpc/rpc.cc:561-613 | an xid no copy of which was accepted late is executed at most once in the whole run and over all restarts; a bind, which names no instance, at most once in each instance |
| RpcTheorems.AnswerIsTheOneExecution | rpc/rpc.cc:270-303 | a reply that reaches a waiting caller, whatever its code, is what the caller gets; if its ret >= 0 the handler has run exactly once by then and the reply is the result of that run |
| RpcTheorems.ReplyWasComputed | rpc/rpc.cc:487-529 | a reply with ret >= 0 in the network carries the result of an execution of its own request |
| RpcTheorems.HeadersAcknowledgeThePast | rpc/rpc.cc:167-170 | every header sent has xid_rep < xid and acknowledges no more than its client has completed |
| RpcTheorems.SavedOnce | rpc/rpc.cc:616-630 | for an unacknowledged xid the reply is stored into an entry that was still in progress |
| RpcTheorems.EntryMovesForward | rpc/rpc.cc:580-630 | the entry of an unacknowledged xid moves only from absent to in progress to done, and once done keeps its one reply |
| RpcAnswers.SavedReplyIsStored | rpc/rpc.cc:504-507 | in every reachable state, a run of the running instance that has saved its reply and is not acknowledged has that very reply in the window |
| RpcAnswers.DuplicatesGetTheSavedReply | rpc/rpc.cc:580-630 | once a run has saved its reply, every duplicate that the same instance accepts is answered with it and not executed, whatever happens in between, until the client acknowledges the request |
| RpcAnswers.DeliveryExactly | rpc/rpc.cc:487-537 | what a delivery of an unacknowledged request does: without a run in this instance it starts one and sends nothing; while that run has not saved its reply it neither runs nor sends; after that it sends exactly the reply saved |
| RpcAnswers.OldInstanceIsRefused | rpc/rpc.cc:424-434 | a request that names another instance starts no run, changes no window and is answered oldsrv_failure |
| RpcAnswers.OnlyTheseCodes | rpc/rpc.cc:487-537 | no client that packs its headers with its window front is ever told atmostonce_failure: a reply has ret >= 0, unmarshal_args_failure or oldsrv_failure |
| RpcTheorems.AnswersAgree | rpc/rpc.cc:487-529 | all answers with ret >= 0 to an unacknowledged request that is not bind are the same |
| RpcAnswers.ReturnExactly | rpc/rpc.cc:224-245 | in every run, call1 returns timeout_failure if no reply to its xid has come, and otherwise exactly the first reply that came, which the server sent |
| RpcAnswers.SuccessWasExecuted | rpc/rpc.cc:207-245 | a call that returns ret >= 0 was answered at some step of the run; at that step its request had run exactly once, with the result that is returned |
| RpcRepeats.SuccessRanOnceExactly | rpc/rpc.cc:224-245 | and that run is still the only one at the return iff its server instance accepted no copy of the request late: after a header that acknowledges it |
| RpcClients.CompletedExactly | rpc/rpc.cc:280-302 | in every run, the set that the completion window stands for is exactly the xids that were answered or whose caller has left |
| RpcClients.CallsExactly | rpc/rpc.cc:167-168 | xids are given out consecutively from 1, and calls_ holds exactly those whose caller has not left |
| RpcClients.ReturnsOnce | rpc/rpc.cc:224-232 | a call returns once |
| RpcClients.HeaderExactly | rpc/rpc.cc:160-171 | every header packed, in any run: a fresh xid; xid_rep ends the prefix of xids answered or given up, and the xid after it was neither; the server nonce is 0 iff it is bind |
| RpcReplay.StaleRequestRunsTwice | rpc/rpc.cc:568-594 | a run of client, server and network in which one instance executes one xid twice |
| RpcReplay.SecondRunBeforeReturn | rpc/rpc.cc:207-232 | a run in which a call that was answered with success and has not returned yet is executed a second time by the same instance |
| RpcTheorems.AllNoncesLearned | rpc/rpc.cc:140-152 | the nonce a client uses, or packed into a header, was returned to it by a bind executed in that very instance |
| RpcTheorems.ExecutesWhereBound | rpc/rpc.cc:424-434 | across restarts a request other than bind executes only in an instance that executed a bind of the same client |
| LockSpec.PassHolds | lock_server.cc:30-40 | granting a free lock adds it, and only it, to the locked ones |
| LockSpec.PassKeeps | lock_server.cc:30-38 | a pass that finds the lock taken changes nothing |
| LockSpec.ReleaseFrees | lock_server.cc:44-73 | a release by the owner removes the lock, and only it, from the locked ones |
| LockServer.LockServer.Stat | lock_server.cc:12-19 | stat returns the number of locks now held |
| LockServer.LockServer.AcquirePass | lock_server.cc:21-42 | from entry or wake-up to grant or wait: granted iff the lock was free, then it is LOCKED by clt; nacquire stays the number of locked locks |
| LockServer.LockServer.Release | lock_server.cc:44-73 | only the owner's release frees the lock and signals; any other gets RPCERR and changes nothing |
| LockWaiting.Safe | lock_server.cc:21-73 | all handler threads with barging and spurious wake-ups keep records and wake-ups right |
| LockWaiting.FreeLockIsRechecked | lock_server.cc:30-62 | no lost wake-up: while a lock is FREE and a thread sleeps on it, some woken waiter of that lock is pending, and its recheck takes the lock |
| LockWaiting.LockRecords | lock_server.cc:12-73 | a lock is LOCKED iff clt differs from -1, then it has exactly one acquire not matched by a release, by clt; nacquire equals the number of LOCKED locks |
| LockSafety.OkMeansGranted | lock_client.cc:26-31 | a client's successful acquire holds the grant that the server made for that very request |
| LockClients.AcquireExactly | lock_server.cc:21-42 | in every run of the composed system, an acquire is answered OK when it finds the lock free, and its client then owns that lock and no other record changed |
| LockClients.ReleaseExactly | lock_server.cc:44-73 | in every run, a release is answered OK iff its client owns the lock, which is then free; otherwise RPCERR and nothing changes |
| LockClients.NobodyIsRefused | lock_client.cc:26-38 | in runs in which no release runs twice, a lock call that fails fails with an error of the RPC library: the server refuses nobody |
| LockClients.AbortsExactly | lock_client.cc:26-38 | a process goes on after a lock call iff that returned OK |
| LockClients.FailedCallStopsTheProcess | lock_client.cc:26-38 | after a lock call that did not return OK no thread of its process moves, calls, transmits or takes up a reply again, in any continuation of the run |
| LockSafety.StepKeepsLocks | lock_server.cc:21-73 | every composed step but a release that frees a lock some thread holds or was granted keeps the lock invariant |
| LockSafety.Safe | lock_server.cc:21-73 | the composed invariant holds in every run without such a release |
| LockSafety.SoundExactly | lock_server.cc:44-73 | exclusion exactly: in every state of a run no two threads hold one lock, holders' locks are LOCKED by their clients and granted locks stay LOCKED until the acquire returns, iff no release in the run frees a lock that some thread holds or was granted |
| LockSafety.ReleaseRunsOnce | lock_client.cc:33-38 | where no release is executed twice, a release still stands behind its lock when it runs |
| LockSafety.ReleasesOnceIsHarmless | lock_client.cc:33-38 | so no release then frees a lock that a thread holds or was granted |
| LockSafety.MutualExclusion | lock_client.cc:26-38 | client-visible mutual exclusion over the RPC protocol, in every state of every run in which no release is executed twice: no two threads of any clients are between a successful acquire and the matching release call of one lock, and the server has it LOCKED by the holder's client |
| LockSafety.TimelyReleasesRunOnce | rpc/rpc.cc:561-613 | no release is executed twice when none is accepted after a header with a larger acknowledgement |
| LockReplay.StaleReleaseBreaksExclusion | lock_server.cc:44-73 | a run in which every call returns OK and a stale copy of a release still lets two threads hold one lock |
| SelectAio.SelectAio.WatchFd | rpc/pollmgr.cc:149-167 | the descriptor is watched as flagged, highfds_ stays the largest watched one, a byte wakes select |
| SelectAio.SelectAio.UnwatchFd | rpc/pollmgr.cc:182-215 | the descriptor is unwatched as flagged, the scan finds the new largest one, the result says whether nothing of it is watched |
| SelectAio.SelectAio.Collect | rpc/pollmgr.cc:243-256 | the scan lists every ready descriptor but the pipe once and in order, and eats the pipe's byte |
| PollMgr.StepKeeps | rpc/pollmgr.cc:45-126 | every step of adders, deleters, removers and the poll thread keeps the handshake's invariant |
| PollMgr.Safe | rpc/pollmgr.cc:45-126 | the handshake's invariant holds in every interleaving, with concurrent removers |
| PollMgr.RemovedUntilAdded | rpc/pollmgr.cc:57-68 | what a returned block_remove_fd achieved lasts until the descriptor is added again |
| PollMgr.QuiescentUntilAdded | rpc/pollmgr.cc:57-68 | after block_remove_fd(fd) returns no callback of fd runs or is about to run, whatever all threads do, until a new add_callback |
| PollMgr.RoundCallsExactly | rpc/pollmgr.cc:104-124 | in every run, between a select and the next round the callbacks entered are, in order, exactly those of the readable and then the writable descriptors that had a callback when their turn came |
| PollMgr.DueAt | rpc/pollmgr.cc:114-124 | the k-th callback due is the read callback of the k-th readable descriptor, and after those the write callbacks of the writable ones |
| PollMgr.TurnIsEntered | rpc/pollmgr.cc:114-124 | a ready descriptor that is registered at the select and that nobody drops before its turn has its callback entered |
| PollMgr.AddedStays | rpc/pollmgr.cc:45-55 | an added callback is registered and watched until somebody deletes or removes it |
| PollMgr.SnapshotSeesAll | rpc/pollmgr.cc:217-231 | what is watched for reading or for writing at the copy is what select waits for |
| PollMgr.DeletedIsOff | rpc/pollmgr.cc:70-77 | a deletion stops the watching asked for, and drops the callback iff nothing of the descriptor is watched any more |
| PollMgr.SelectCannotBlock | rpc/pollmgr.cc:210-213 | while a remover waits, select can return by the pipe alone |
| PollMgr.CheckWakesAll | rpc/pollmgr.cc:97-103 | the next check of pending_change_ wakes every waiting remover |
| PollMgr.PendingExactly | rpc/pollmgr.cc:61-103 | in every run pending_change_ is set iff some remover waits |
| PollMgr.AddedWakesSelect | rpc/pollmgr.cc:149-167 | in every run, while something is watched that the select under way does not look at, the pipe makes that select return |
| PollMgr.BytesExactly | rpc/pollmgr.cc:210-213 | the pipe holds exactly the bytes written and not yet read: one per add_callback, removal and two-way deletion, less one per select that saw the pipe |
| Bytes.Be32RoundTrip | rpc/rpc.cc:681-688 | a 32-bit integer survives network order |
| Bytes.Be32Canonical | rpc/rpc.cc:681-688 | four bytes are the encoding of the integer read from them |
| Frames.FramedIsWellFramed | rpc/connection.cc:210-213 | writepdu's size word is the PDU's length, framing twice changes nothing, and the bytes after it are the sender's |
| Frames.FrameAt | rpc/connection.cc:203-225 | in the concatenation of all frames each has its own stretch |
| Connection.Connection.WritePdu | rpc/connection.cc:203-225 | for whatever write() answers: which bytes go out, how the slot advances, and -1 after an error |
| Connection.Connection.ReadPdu | rpc/connection.cc:227-277 | for whatever the two reads answer: size word, short reads, too big a PDU, body, end of stream |
| Connection.Connection.Deliver | rpc/connection.cc:194-200 | a complete PDU is handed over once; a refused one is kept unchanged |
| Framing.StepKeeps | rpc/connection.cc:104-277 | every step of several senders, the stream and the receiver keeps the framing invariant |
| Framing.Safe | rpc/connection.cc:104-277 | the framing invariant holds in every run |
| Framing.DeliveredInOrder | rpc/connection.cc:173-277 | for any sizes of writes and reads and any refusals: the PDUs consumed are an in-order, duplicate-free, unchanged prefix of the frames sent |
| Framing.WireIsWholeFramesAndAPrefix | rpc/connection.cc:203-225 | the wire is always whole frames followed by a prefix of one, also after an error |
| Framing.SentMeansOnTheWire | rpc/connection.cc:142-147 | a send that returns true has its whole frame on the wire |
| Framing.WriteExactly | rpc/connection.cc:203-225 | in every run, a write that takes n bytes leaves exactly n more of the frame on the wire; EAGAIN changes nothing; an error kills the sender and puts out nothing |
| Framing.SizeWordDecides | rpc/connection.cc:230-263 | the size word read is the length of the next frame sent; the PDU is taken in iff that is at most MAX_PDU, and otherwise the connection dies |
| Framing.CompleteIsNextFrame | rpc/connection.cc:194-200 | a complete PDU is the next frame sent; the manager gets it when it accepts, and until then it stays |
| Framing.NothingIsLost | rpc/connection.cc:173-225 | when all that was written has been read and neither end is in the middle of a PDU, every frame sent was handed over |
| Fifo.Fifo.constructor | rpc/fifo.h:32-38 | an empty queue with the given limit and nobody waiting |
| Fifo.Fifo.Enq | rpc/fifo.h:56-72 | one pass of enq on the queue and its condition variables is the pass of the machine: stored at the back and non_empty_c_ signalled iff there is room, else wait or refuse, which leaves the queue |
| Fifo.Fifo.Deq | rpc/fifo.h:74-92 | one pass of deq is the pass of the machine: the front element taken and has_space_c_ signalled if the queue is limited, or the caller waits |
| FifoSpec.EnqPassKeeps | rpc/fifo.h:56-72 | a pass of enq keeps the wake-up counts, with barging |
| FifoSpec.DeqPassKeeps | rpc/fifo.h:74-92 | a pass of deq keeps the wake-up counts, with barging |
| FifoWaiting.FifoIsSafe | rpc/fifo.h:56-92 | over all runs: dequeue order is enqueue order, a limited queue stays within its limit, while a consumer sleeps the woken consumers number at least the elements, and while a producer sleeps the woken producers at least the free places |
| FifoWaiting.NobodySleepsInVain | rpc/fifo.h:56-92 | nobody sleeps while the queue could serve him unless somebody woken will recheck |
| FifoWaiting.EnqExactly | rpc/fifo.h:56-72 | in every run: with room the element goes last and a sleeping consumer is woken; without room a blocking producer sleeps, keeping its element, and any other is refused |
| FifoWaiting.DeqExactly | rpc/fifo.h:74-92 | in every run: the oldest element not yet taken is taken and a sleeping producer is woken, or the queue is empty and the consumer sleeps |
| ThrPool.Safe | rpc/thr_pool.cc:6-67 | the pool's invariant holds in every run, for any pool size |
| ThrPool.AddExactly | rpc/thr_pool.cc:52-60 | a job is accepted, last in line, iff fewer than 100 jobs per worker are queued; otherwise a blocking pool makes the caller wait and any other refuses |
| ThrPool.ShutdownIsComplete | rpc/thr_pool.cc:35-50 | when the destructor has joined: the queue is empty, each worker took one pill, and every accepted job was executed exactly once |
| ThrPool.WorkDecreases | rpc/thr_pool.cc:35-50 | during shutdown every step but a spurious wake-up uses up work |
| ThrPool.NeverStuck | rpc/thr_pool.cc:35-50 | until the join such a step is possible, so the pills never block forever even when the queue is full |
| ThrPool.ShutdownTerminates | rpc/thr_pool.cc:35-50 | a shutdown takes at most as many steps as there is work |
| RefCount.RefCounted.DecRef | rpc/connection.cc:78-95 | the last reference to a dead connection deletes it, and nothing else does |
| RefCount.RefCounted.CloseConn | rpc/connection.cc:61-76 | the first close kills the connection and only that one goes on to remove the descriptor |
| ConnLifetime.Safe | rpc/connection.cc:335-364 | counting and the acceptor's garbage collection stay right in every interleaving |
| ConnLifetime.OnlyTheAcceptor | rpc/connection.cc:350-361 | between the acceptor's check and its decref nobody else can come to hold the connection |
| ConnLifetime.CountCoversHolders | rpc/rpc.cc:401-539 | the count is at least the number of live holders and exceeds it only by the references leaked at rpc/rpc.cc:425-434 |
| ConnLifetime.HeldIsNeverDeleted | rpc/rpc.cc:248-262 | no acceptor entry, dispatch job, latest-connection entry, channel or caller ever holds a deleted connection |
| ConnLifetime.DeletedExactly | rpc/connection.cc:78-95 | in every reachable state a connection is deleted iff nobody holds it, and then it is dead: none early, none forgotten |
| ConnLifetime.DeadExactly | rpc/connection.cc:61-76 | in every run a connection is dead iff it failed or was closed at some earlier step; none is revived |
| ConnLifetime.NewHolders | rpc/rpc.cc:248-262 | who holds what after each step that takes a reference, in every run |
| ConnLifetime.LatestIsTheLast | rpc/rpc.cc:468-479 | in every run, the latest connection of a client is the one on which its last request was taken up, a reconnect replacing the old one |
| ConnLifetime.DeletedWhenDeadAndUnheld | rpc/connection.cc:78-95 | the step that deletes a connection gives up its last reference |
| Values.Antisymmetric | rpc/marshall.h:222-236 | the order of keys of any type, maps and vectors included, is antisymmetric |
| Values.Transitive | rpc/marshall.h:222-236 | and transitive |
| Values.SameKey | rpc/marshall.h:222-236 | and total: two keys are equivalent iff they are equal |
| Values.NumberExactly | rpc/marshall.h:222-236 | a signed key of n bits stands for the number in range that is congruent to it, an unsigned one for itself |
| Values.IntegersInOrder | rpc/marshall.h:222-236 | integer keys compare as the numbers they stand for |
| Values.KeysInOrder | rpc/marshall.h:222-236 | strings, vectors and maps are ordered by their first difference: the one that ends there, or has the smaller byte (unsigned), element or entry, is the smaller |
| Values.EntriesInOrder | rpc/marshall.h:222-236 | entries compare by key, and by value for equivalent keys |
| Values.PutKeepsAscending | rpc/marshall.h:222-236 | storing under a key keeps a map's keys strictly ascending |
| Values.PutThenFind | rpc/marshall.h:222-236 | storing under a key changes what is found under that key and under no other |
| Values.MapHoldsLastValues | rpc/marshall.h:222-236 | a map read from the wire holds, under each key, the value that came last with it, and nothing under any other |
| Values.NormalHasType | rpc/marshall.h:222-236 | whatever entries were read, in any order and with repeated keys, the map that comes out is well formed |
| Values.TypedIsNormal | rpc/marshall.h:211-236 | a value that was held by the sender is held unchanged by the receiver |
| Codec.RoundTrip | rpc/marshall.h:188-236 | for any nesting of integers, strings, vectors and maps, read into a fresh variable: the encoding decodes to the value wherever it stands, and the cursor is left just after it |
| Codec.RoundTripInto | rpc/marshall.h:197-236 | read into a variable that is in use: it holds the value sent iff the type is not a vector or the variable was empty; a vector is appended to |
| Codec.OldElementsStay | rpc/marshall.h:197-209 | a one-element vector read into a one-element vector gives two elements |
| Codec.ReadPastTheEnd | rpc/rpc.cc:721-752 | for every type, a read that starts past the end gives zero or an empty value and clears ok for good |
| Codec.EncodingKeepsOrder | rpc/rpc.cc:666-712 | integers of every width go out most significant byte first: the encodings of unsigned integers compare, byte by byte, as the integers do |
| Codec.MapOnTheWire | rpc/marshall.h:188-220 | a map of strings to vectors of shorts, byte by byte: counts before elements, keys before values |
| Codec.WildExactly | rpc/rpc.cc:815-824 | a string read leaves the buffer iff it goes past the end and the 32-bit sum in its check has wrapped to within the size |
| Codec.UnreadStringStays | rpc/rpc.cc:807-824 | a string read that fails leaves the old content of the variable |
| Codec.WrappedStringPassesOkDone | rpc/rpc.cc:737-743 | four bytes after which okdone holds although they encode nothing |
| Codec.Canonical | rpc/marshall.h:197-236 | for every type: what is read without error and without wrap-around is exactly the encoding of a value of that shape |
| Codec.ArgsRoundTrip | rpc/rpc.h:365-375 | the arguments of a call decode to themselves |
| Codec.AcceptedExactly | rpc/rpc.h:340-349 | for all argument types: okdone holds, with no string read wrapped round, iff the body encodes some values of those shapes, and the arguments are then their normal forms, maps having taken each key's last value |
| Codec.ExactIffAscending | rpc/marshall.h:222-236 | an accepted body is the encoding of the arguments that come out iff the keys of every map in it ascend strictly |
| Codec.ExactIffNoMaps | rpc/rpc.h:340-349 | a handler accepts nothing but exact encodings iff none of its argument types contains a map |
| Codec.WrongArityIsRejected | rpc/rpc.h:365-375 | for all argument types: a body with too many or too few arguments never passes okdone |
| Headers.ReqHeaderRoundTrip | rpc/marshall.h:152-163 | a packed request header unpacks to the same fields, signed and unsigned, with the cursor at the body |
| Headers.ReplyHeaderRoundTrip | rpc/marshall.h:165-174 | a packed reply header unpacks to the same fields |
| Headers.HeadersOnTheWire | rpc/marshall.h:77-102 | the order of the words in a request header and in a reply header, byte by byte |
| Headers.ServerSeesTheCall | rpc/rpc.cc:401-408 | end to end: a marshalled request, framed, gives the server the client's header and the handler wrapper the client's arguments |
| Headers.ClientSeesTheResult | rpc/rpc.h:118-128 | end to end: a marshalled reply gives the caller the handler's code; unless that is an error the result variable holds the handler's result, and exactly it iff the type is not a vector or the variable was empty; on an error the variable is untouched |
| Headers.CallResultExactly | rpc/rpc.h:118-128 | for any reply body, with no string read wrapped round: a code ret >= 0 is returned iff the body is exactly the encoding of some value of the result type, and otherwise unmarshal_reply_failure |
| Headers.HeadersTakenUp | rpc/rpc.cc:270-278 | a reply is taken up iff it has 12 bytes, a request iff it has 24 |
| Headers.ShortReplyFails | rpc/rpc.cc:729-735 | a reply of 12 to 23 bytes completes its call and gives its error code or unmarshal_reply_failure |
| Marshall.Marshall.constructor | rpc/marshall.h:51-56 | an empty buffer of 1024 bytes with room for the header |
| Marshall.Marshall.RawByte | rpc/rpc.cc:639-647 | appends one byte, doubling a full buffer, which keeps its content; in place, the rest of the buffer stays |
| Marshall.Marshall.RawBytes | rpc/rpc.cc:649-658 | appends a block of any length, growing as the source does; the write position stays within the capacity |
| Marshall.Marshall.PutInt | rpc/rpc.cc:681-688 | appends the four bytes in network order |
| Marshall.Marshall.Pack | rpc/rpc.cc:714-719 | writes four bytes inside the header without moving the buffer or touching what lies beyond |
| Marshall.Marshall.PackReqHeader | rpc/marshall.h:77-90 | at any time: the header's twenty bytes are set, body, size word and write position stay |
| Marshall.Marshall.PackReplyHeader | rpc/marshall.h:92-102 | the same for the eight bytes of a reply header |
| Marshall.Marshall.Put | rpc/marshall.h:188-220 | operator<< of every type appends the encoding of the value |
| Marshall.Marshall.PutAll | rpc/marshall.h:188-195 | the element loop appends the encodings in order |
| Marshall.Marshall.PutEntries | rpc/marshall.h:211-220 | the loop over a map appends keys and values in order |
| Marshall.MarshallRequest | rpc/rpc.cc:167-171 | arguments first and header last give a well-formed request PDU |
| Marshall.MarshallReply | rpc/rpc.cc:493-497 | result first and header last give a well-formed reply PDU |
| Unmarshall.Unmarshall.constructor | rpc/marshall.h:130 | a PDU that came in is good whatever its size |
| Unmarshall.Unmarshall.TakeIn | rpc/rpc.cc:729-735 | the PDU changes hands, the cursor goes past the header, good iff a whole header is there |
| Unmarshall.Unmarshall.GetByte | rpc/rpc.cc:745-752 | a read past the end gives zero and clears ok |
| Unmarshall.Unmarshall.GetWord | rpc/rpc.cc:721-726 | four reads give the integer of the next four bytes, zeros standing for missing ones |
| Unmarshall.Unmarshall.GetBytes | rpc/rpc.cc:815-824 | the block is returned if the 32-bit bounds check lets it, else the old string stays; the check is modelled with its wrap-around |
| Unmarshall.Unmarshall.UnpackReqHeader | rpc/marshall.h:152-163 | the five fields are read from byte 4 on and the cursor put at the body |
| Unmarshall.Unmarshall.UnpackReplyHeader | rpc/marshall.h:165-174 | the two fields are read from byte 4 on and the cursor put at the body |
| Unmarshall.Unmarshall.GetString | rpc/rpc.cc:807-813 | the string is read when the size could be and it lies in the buffer, else the old one stays |
| Unmarshall.Unmarshall.Get | rpc/marshall.h:197-236 | operator>> of every type, into a variable with any content, refines DecodeInto |
| Unmarshall.Unmarshall.GetMany | rpc/marshall.h:197-209 | the loop pushes the announced number of elements, in order, onto what the vector holds |
| Unmarshall.Unmarshall.GetEntries | rpc/marshall.h:222-236 | the loop stores each pair under its key while it reads; the result is the ordered map of all the pairs, a later one replacing an earlier |
| Unmarshall.Unmarshall.GetArgs | rpc/rpc.h:340-349 | a handler wrapper gets all its arguments, or fails, exactly by okdone |
| Unmarshall.Unmarshall.TakeResult | rpc/rpc.h:118-128 | call_m passes errors through with the variable untouched, reads into the variable otherwise, and turns a reply of the wrong shape into unmarshal_reply_failure |
| CallTiming.AddTimespec | rpc/rpc.cc:887-896 | total nanoseconds are preserved exactly; tv_nsec ends in 0..1000000000 and is 0 only if it was |
| CallTiming.CmpIsTheOrderOfInstants | rpc/rpc.cc:872-885 | a total order that agrees with the order of instants except for the two names of a whole second |
| CallTiming.NextDeadline | rpc/rpc.cc:200-205 | the comparison decides exactly whether the next wait still fits, and the final deadline is never passed |
| CallTiming.NextWait | rpc/rpc.cc:200-205 | the next deadline is chosen and the last wait marked, keeping the loop's bookkeeping |
| CallTiming.WaitOnce | rpc/rpc.cc:207-215 | the inner wait loop, for any answers of timedwait: it is left with a reply, at the deadline, or never, and never iff the deadline is invalid and no reply is there |
| CallTiming.WaitForReply | rpc/rpc.cc:174-222 | for any clock lag and any answers of timedwait: every deadline but an awkward final one is valid, so a call without reply ends iff `start % NS + to % 1000 * MS != NS`; no deadline passes the final one, all waits but the last fit into `to`, a timeout comes only when `to` has elapsed, and with no lag no wait is missing |
| CallTiming.WholeSecondsAreNotAwkward | rpc/rpc.cc:887-896 | with `to` in whole seconds the final deadline is always valid |
| CallTiming.AwkwardCall | rpc/rpc.cc:892 | a start and a `to` whose final deadline is invalid |
| CallTiming.WaitsAreFew | rpc/rpc.cc:174-222 | at most k + 1 waits, k least with 1000 * 2^k > to |
| CallTiming.IntervalFits | rpc/rpc.cc:221 | the doubled interval stays below 2^31 if to < 2097151000 ms, and passes it in every timeout without lag otherwise |

## Left out

- Clients with nonce 0: they bypass the reply window, so no at-most-once claim is made for them.
- Wrap-around of xids at 2^32 and collisions of random nonces: taken not to happen.
- Requests for procedures that are not registered, and PDUs too short for their header: both are dropped, which is a loss in the network's terms.
- Restart of the server in the composition with the locks: the lock table would start empty; `LockSystem` boots the server once.
- Eventual grant of a lock, and fairness: blocked acquires can occupy all ten workers; only the absence of lost wake-ups is claimed.
- LockServer.LockServer.AcquirePass: one pass of the wait loop; the sleeping between passes is the machine `LockWaiting`.
- Fifo.Fifo.Enq: one pass of the wait loop; the sleeping between passes is the machine `FifoWaiting`.
- Fifo.Fifo.Deq: one pass of the wait loop; the sleeping between passes is the machine `FifoWaiting`.
- The machines are values: of update in place and aliasing they capture what the classes beside them do. `ThrPool`, `PollMgr` and `LockWaiting` interleave their threads step by step and so are not classes.
- The waiting inside `connection::send` (`send_wait_`, `send_complete_`): a send starts when the slot is free and ends when it is written or the connection is dead; that its sleeper is woken is not claimed (`closeconn` does not signal).
- Connection.Connection.ReadPdu: a size word below 4 or of 2^31 and more is not modelled: the read after it has no defined result.
- Reuse of a descriptor number in the acceptor's `conns_` map: a new connection gets a new key.
- Calls of `block_remove_fd` from within a callback: they would wait for the calling thread itself.
- Unmarshall.Unmarshall.GetBytes: a read that the wrapped bounds check lets out of the buffer has no defined result; the model marks the cursor `wild` and returns nothing.
- Marshall.Marshall.RawBytes: capacities are unbounded integers; blocks and buffers of 2^31 bytes and more are not modelled, nor is failure of realloc.
- `take_buf` and the lifetime of reply buffers sent outside the reply-window lock: replies are immutable values.
- The seven overloads of `call` and `reg`: one argument list of any length.
- Retransmission on a new connection in `call1`: in the protocol machine any request may be sent any number of times while its caller waits.
- `EPollAIO`, sockets, select, address parsing, `updatestat`, logging, lossy tests, the testers and the demo.
