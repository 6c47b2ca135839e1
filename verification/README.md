# HMC transfer protocols, modelled and proved in Dafny

HMC moves bytes between the registered buffers of peers. Its difficult parts are the protocols written
by hand above the network card: a double-buffered transfer steered by flag cells, completions shared
by concurrent waiters, pipelines with selective signaling, a ring of staging slots, a collective made of
one-sided puts and barriers, and the bookkeeping that decides which endpoint, socket or request is alive.
This project models those protocols and proves what they guarantee for every input, every interleaving
and every run. Where the code does not guarantee what it is for, the exact condition is proved, together
with a run that shows the failure.

`dafny verify dfyconfig.toml` checks everything.

## Layout

| file | models |
|---|---|
| `Common.dfy`, `Bytes.dfy`, `Arith.dfy` | shared definitions, range-checked buffers (`ConnBuffer`), chunk arithmetic |
| `UhmPlan.dfy` | how `uhm_send` and `uhm_recv` each split a payload |
| `UhmProtocol.dfy` | sender, receiver and the two network cards as one transition system |
| `UhmFlow.dfy` | the invariant of every reachable state; flow control; control words |
| `UhmBytes.dfy`, `UhmExact.dfy` | the bytes end to end, and exactly when they are right |
| `UhmProgress.dfy` | bounded runs, lost flags, outcome of every finished run |
| `UhmReturn.dfy`, `UhmSure.dfy` | what the return of either side says about its own writes |
| `Waiters.dfy` | `waitWrId` / `waitWrIdMulti`: concurrent waiters on one completion queue |
| `Pipeline.dfy`, `Window.dfy` | pipelined write and read with selective signaling and a window; how deep the queue gets |
| `SlotRing.dfy` | staging slots with non-blocking puts |
| `Collective.dfy`, `CollectiveSetup.dfy` | direct all-to-all over any sequence of calls; connection rounds, chunk loop and layout |
| `Registry.dfy` | the endpoint registry under its two levels of locks |
| `ServerEvents.dfy`, `MetaRendezvous.dfy` | connection events; metadata sockets meeting their connection |
| `CtrlStream.dfy`, `CtrlFds.dfy` | control-channel framing; ownership of control sockets |
| `Ucx.dfy` | the UCX endpoint's in-flight table and compacting multi-wait |

## How the network card is modelled

A queue pair is a first-in first-out list of posted writes; there is no order between queue pairs. A
write reads its source when it executes, not when it is posted; a signaled write then adds a completion.
The card may execute any enabled write at any time. A theorem about "every run" therefore covers every
interleaving of the threads and the cards.

The UHM model states these assumptions: both peers have equal `buffer_size`; the 16-byte state block
lands in one piece, is read in one piece, and lands after the receiver armed its state
(`src/network/rdma_endpoint.cpp` 719-722); one transfer at a time; staging copies succeed; no completion
errors or timeouts. Spinning is not a step, and requests are named by chunk. Offsets are mathematical
integers: no expression of the form offset + size wraps around. In the pipelines the source and the destination memory are
distinct. In the all-to-all, send and receive regions of one call are disjoint, `chunk_bytes` is at least
1 and the self copy is on. Concurrent waiters have disjoint target sets, and each request completes at
most once. In the registry a callback takes neither mutex. In the control stream both
peers have the same (little-endian) byte order.

## What was found

- UHM bytes: the refill of a half does not wait for the earlier write out of it, so with the default
  settings (16 and 8) a payload of three or more chunks can arrive wrong. The bytes are right in every
  run if and only if there are at most two chunks, or both sender settings are 1, or the receiver can
  never copy a chunk out (`UhmExact.BytesExact`).
- UHM progress: a chunk flag that lands after the state block but before the receiver has re-armed its
  cells (738-739) is lost, in one of two ways. If it lands before the receiver looks at the block, the
  cell the receiver waits on never says CAN_WRITE again and it stays in the loop at 726-752; if it lands
  between that look and the re-arming stores, they overwrite it. The receiver then waits for ever. A finished
  run succeeds on both sides if and only if the payload is accepted, the output buffer has room and this
  never happened (`UhmProgress.Outcome`); for every accepted payload there are runs of both kinds.
- UHM return: SUCCESS of `uhm_send` says that all its writes have executed if and only if there is at most one
  chunk, one queue pair, or a signal interval that divides the chunk count minus one; otherwise the last chunk
  but one may still be on its way. The same holds for `uhm_recv` and its acks (`UhmSure.SendVouchesExactly`,
  `UhmSure.RecvVouchesExactly`).
- Pipelines: waiting for the signaled requests waits for all chunks if and only if there is at most one
  chunk, or one queue pair, or the interval is 1, or there are two queue pairs and the interval divides
  the chunk count minus one (`Pipeline.CompleteExactly`). So three or more queue pairs with an interval
  above 1 fail for every transfer of two or more chunks.
- `waitWrId` drops the rest of the batch it polled. With only successful completions, some thread's
  completion can be dropped if and only if there is a `waitWrId` and another wait (`Waiters.DropsExactly`); the
  other wait need not have been called yet, so one thread that calls `waitWrId` for one request and then waits
  for a second can hang too. With failed completions it can happen if and only if there are two waits of any
  kind (`Waiters.FailuresDropExactly`).
- `_addEndpoint` on a present key replaces the endpoint without the entry's mutex. A run is safe if and
  only if no add replaces an entry in use (`Registry.AliveExactly`), and a set of calls is safe in every
  run if and only if no peer has both a call and two adds (`Registry.CallsAliveExactly`).
- A server disconnect compares connection ids only. Late disconnects are harmless in every trace of given
  connections if and only if connections at one key have different ids (`ServerEvents.HarmlessExactly`).
- With repeated connection ids a metadata exchange gets a socket of its own connection but the address of
  the latest hello. All exchanges get the address of the hello whose socket they got if and only if
  hellos with the same id carry the same address (`MetaRendezvous.AddressExactly`).
- A control message is received as sent if and only if its payload is under 2^32 bytes and it does not
  look like a HELLO (`CtrlStream.FrameExactly`).
- A control `send` or `recv` looks its rank's descriptor up, releases the mutex and then uses the number. It meets
  the connection it looked up if and only if no close of that rank comes in between (`CtrlFds.MeetsExactly`);
  after a close the number can belong to another peer, which then gets the bytes (`CtrlFds.WrongPeer`).
- UCX multi-wait on an unknown or repeated id, and on a timeout, leaves requests that are neither listed
  nor freed. Its SUCCESS can be relied on, whatever the transport does, if and only if every id is 0
  (`Ucx.TrustExactly`): with any request to wait for, every transfer may have failed.
- A pipelined transfer on one queue pair has up to window + interval - gcd(window, interval) requests
  outstanding, and some transfer reaches it (`Window.DepthExactly`). With default settings the queue never
  overflows if and only if `max_wr` is at least 32, while the endpoint admits 16 (`Window.DefaultsFit`).

## Model

| member | source | states |
|---|---|---|
| `Bytes.PutSame` | src/network/conn_buffer.cpp:26-60 | what is written to a range inside the buffer is what is read back from it |
| `Bytes.PutApart` | src/network/conn_buffer.cpp:26-91 | writing a range changes no disjoint range |
| `UhmPlan.ChunkFacts` | src/network/rdma_endpoint.cpp:562-565 | every chunk before the last is full, the last holds the rest, none is empty |
| `UhmPlan.SplitAgreement` | src/network/rdma_endpoint.cpp:734-801 | both sides compute the same chunk size, count and per-chunk sizes without communicating them; sizes are positive, sum to the length and stay inside their half; the zero-size check never fires |
| `UhmFlow.StepInv` | src/network/rdma_endpoint.cpp:539-853 | every step of sender, receiver and both cards keeps the protocol invariant |
| `UhmFlow.RunInv` | src/network/rdma_endpoint.cpp:539-853 | the protocol invariant holds in every state of every run |
| `UhmFlow.ExecutesInWindow` | src/network/rdma_endpoint.cpp:603-667 | a write about to execute belongs to a chunk whose half is free at the receiver |
| `UhmFlow.FlowControl` | src/network/rdma_endpoint.cpp:603-667 | in every run, for every signal setting and queue-pair count, when the data or flag of chunk k executes, chunk k-2 has been copied out and its ack has landed |
| `UhmFlow.ControlWordsStable` | src/network/rdma_endpoint.cpp:646-661 | flag cells, ack cells and the state block keep their value until their own write has executed |
| `UhmFlow.FlagLands` | src/network/rdma_endpoint.cpp:646-661 | a flag in flight names one of the next two chunks and its cell still says readable |
| `UhmFlow.AckLands` | src/network/rdma_endpoint.cpp:809-825 | an ack in flight belongs to one of the last two marked chunks and its cell still says writable |
| `UhmBytes.RunBytes` | src/network/rdma_endpoint.cpp:539-853 | with safe settings the staged, landed and delivered bytes are right in every state of every run |
| `UhmBytes.EndToEnd` | src/network/rdma_endpoint.cpp:539-853 | with both sender settings 1 (or at most two chunks), in every interleaving the bytes copied out are a prefix of the payload, and all of it when `uhm_recv` returns SUCCESS |
| `UhmBytes.CopyExtends` | src/network/rdma_endpoint.cpp:784-807 | the receiver's size for a chunk is the sender's, and copying it out of a half that holds it extends the prefix |
| `UhmExact.WrongBytes` | src/network/rdma_endpoint.cpp:670-687 | for every other setting some run hands out bytes that are not a prefix of the payload |
| `UhmExact.BytesExact` | src/network/rdma_endpoint.cpp:670-687 | the exact condition: right in every run if and only if at most two chunks, both settings 1, or nothing can be handed out |
| `UhmProgress.RunsAreBounded` | src/network/rdma_endpoint.cpp:603-843 | a rank over chunks left to send, chunks left to consume and queued writes falls with every step, so no run is longer than it |
| `UhmProgress.StuckIsDone` | src/network/rdma_endpoint.cpp:603-843 | a state with no step left and no flag lost has SUCCESS on both sides |
| `UhmProgress.FlagCanBeMissed` | src/network/rdma_endpoint.cpp:726-752 | for every accepted payload some run lets a chunk flag land before the receiver looks at the block: its cell says CAN_READ and it never leaves the waiting loop |
| `UhmProgress.FlagCanBeOverwritten` | src/network/rdma_endpoint.cpp:738-739 | for every accepted payload some run lets a chunk flag land between the look and the re-arming stores, which overwrite it |
| `UhmProgress.DoomedNeverDone` | src/network/rdma_endpoint.cpp:726-782 | after a lost flag the receiver never returns SUCCESS in any continuation, whatever room the output buffer has |
| `UhmProgress.Outcome` | src/network/rdma_endpoint.cpp:539-853 | a run that cannot be extended ends in SUCCESS on both sides if and only if the payload is accepted, the output buffer has room and no flag was lost on the way; with safe settings the output is then the payload |
| `UhmProgress.RearmedStaysLive` | src/network/rdma_endpoint.cpp:738-843 | from a state where the receiver re-armed before any flag landed, no flag is ever lost |
| `UhmProgress.RearmedSucceeds` | src/network/rdma_endpoint.cpp:738-853 | every continuation of such a state that cannot be extended has SUCCESS on both sides exactly when the output buffer has room, and with safe settings the payload |
| `UhmReturn.SendReturned` | src/network/rdma_endpoint.cpp:681-697 | in every run, when `uhm_send` returns SUCCESS the data and flag of every chunk have executed, those of the last but one if one queue pair or the interval makes its flag waited for |
| `UhmReturn.RecvReturned` | src/network/rdma_endpoint.cpp:833-850 | the same for `uhm_recv` and its acks |
| `UhmSure.SendVouchesExactly` | src/network/rdma_endpoint.cpp:681-697 | SUCCESS of `uhm_send` means that all its writes have executed, in every run, if and only if at most one chunk, one queue pair, or the interval divides the chunk count minus one |
| `UhmSure.RecvVouchesExactly` | src/network/rdma_endpoint.cpp:833-850 | the same for `uhm_recv` and its acks |
| `UhmReturn.RefusedExactly` | src/network/rdma_endpoint.cpp:541-553 | `uhm_send` returns at once exactly for an empty payload, a buffer without two halves or a length beyond 32 bits, with SUCCESS exactly for the first |
| `UhmReturn.FailedOnly` | src/network/rdma_endpoint.cpp:709-717 | `uhm_recv` fails only for a buffer without two halves, when it always does, or an output buffer without room |
| `Waiters.StepInv` | src/network/rdma_endpoint.cpp:1139-1335 | every step of every waiting thread keeps the invariant of both mutexes, the completed set and the queue |
| `Waiters.RunInv` | src/network/rdma_endpoint.cpp:1139-1335 | that invariant holds in every state of every run |
| `Waiters.Conservation` | src/network/rdma_endpoint.cpp:1205-1335 | a polled success is in exactly one place: completed set, taken by its waiter, in the poller's hand, or dropped |
| `Waiters.SuccessIsSound` | src/network/rdma_endpoint.cpp:1139-1335 | SUCCESS implies that every target's completion was polled with success |
| `Waiters.PollerWaitsForTheQueue` | src/network/rdma_endpoint.cpp:1222-1290 | after its second check the holder of the poll lock has no pending id in the completed set, and none already polled unless dropped |
| `Waiters.NothingStolen` | src/network/rdma_endpoint.cpp:1205-1335 | a polled completion a thread still waits for is within its reach unless dropped |
| `Waiters.DropsExactly` | src/network/rdma_endpoint.cpp:1189-1201 | for given waits, called at any time, and only successful completions, no run drops any thread's completion if and only if there is no `waitWrId` beside another wait |
| `Waiters.FailuresDropExactly` | src/network/rdma_endpoint.cpp:1189-1192 | with failed completions allowed, no run drops a completion that a thread still waits for, or will wait for, if and only if there are no two waits |
| `Waiters.MultiLosesNothing` | src/network/rdma_endpoint.cpp:1205-1335 | with only `waitWrIdMulti` and no failed completions nothing is ever lost |
| `Waiters.LostStaysLost` | src/network/rdma_endpoint.cpp:1139-1335 | a thread that wants a dropped completion never succeeds |
| `Waiters.Drop` | src/network/rdma_endpoint.cpp:1189-1201 | from every start with two waits, a run in which one returns early and drops the other's completion |
| `Waiters.EveryWaitSucceeds` | src/network/rdma_endpoint.cpp:1139-1335 | with all targets completed successfully and no timeout, a run in which no thread can act has SUCCESS everywhere, provided no `waitWrId` ran beside another wait |
| `Waiters.StatusExactly` | src/network/rdma_endpoint.cpp:1189-1201 | in every run TIMEOUT is returned exactly by threads whose time ran out, and ERROR exactly by threads that took a failed completion from their batch |
| `Waiters.NoOtherErrors` | src/network/rdma_endpoint.cpp:1139-1335 | no ERROR without a failed completion, and no TIMEOUT from `waitWrId` |
| `Waiters.RunsAreBounded` | src/network/rdma_endpoint.cpp:1139-1335 | a run has at most four steps a thread and four a completion |
| `Pipeline.CompleteExactly` | src/network/rdma_endpoint.cpp:424-459 | waiting for the signaled requests waits for all chunks, whatever the card does, if and only if at most one chunk, one queue pair, interval 1, or two queue pairs with the interval dividing the chunk count minus one |
| `Pipeline.VouchedExactly` | src/network/rdma_endpoint.cpp:415-432 | every chunk is followed by a signaled one on its own queue pair exactly under those settings, whichever queue pair comes first |
| `Pipeline.PlainCopy` | src/network/rdma_endpoint.cpp:393-533 | chunks executed in any order amount to one plain copy of the range |
| `Pipeline.CopiedIsPartial` | src/network/rdma_endpoint.cpp:393-533 | at every moment each destination byte is old or the source's, and nothing outside the range changed |
| `Pipeline.BoundaryHasSignal` | src/network/rdma_endpoint.cpp:449-456 | every window boundary has a signaled request to wait for |
| `Pipeline.DepthBound` | src/network/rdma_endpoint.cpp:410-459 | on one queue pair posting the next request of a window keeps the outstanding ones within window + interval - gcd(window, interval) |
| `Window.DepthExactly` | src/network/rdma_endpoint.cpp:424-459 | over all transfers and all interleavings of posting, executing and waiting, a limit is never exceeded if and only if it is at least that depth |
| `Window.NeverDeeper` | src/network/rdma_endpoint.cpp:424-459 | no interleaving gets deeper |
| `Window.ReachesDepth` | src/network/rdma_endpoint.cpp:424-459 | for every window and interval some transfer and interleaving gets that deep |
| `Window.DefaultsFit` | src/network/rdma_endpoint.cpp:410-420 | with default settings no transfer has more than `max_wr` requests outstanding if and only if `max_wr` is at least 32, over all values the endpoint admits (16 to 65535) |
| `Pipeline.Channel.PostNB` | src/network/rdma_endpoint.cpp:309-391 | a valid range that the card accepts posts exactly one request on the next queue pair in rotation; otherwise ERROR and nothing posted |
| `Pipeline.Channel.WaitMulti` | src/network/rdma_endpoint.cpp:1205-1335 | SUCCESS only when every id has completed |
| `Pipeline.Channel.Loop` | src/network/rdma_endpoint.cpp:424-459 | the loop posts every chunk and ends with every signaled one complete, within the depth bound |
| `Pipeline.Channel.Transfer` | src/network/rdma_endpoint.cpp:393-533 | ERROR exactly on an invalid range, a refused post or a failed wait; range errors change nothing; at every return only bytes of the range changed, to source bytes; SUCCESS with one queue pair, a configured interval of at most 1, or the settings of `CompleteExactly` leaves one plain copy |
| `SlotRing.RingFor` | apps/uhm_app/client.cpp:367-371 | for all buffer sizes and settings the slots fit into the buffer |
| `SlotRing.SlotRanges` | apps/uhm_app/client.cpp:391-394 | slot ranges lie inside the ring and different slots are disjoint |
| `SlotRing.StageKeeps` | apps/uhm_app/client.cpp:396-412 | refilling a slot whose write has finished keeps every outstanding slot's staged bytes |
| `SlotRing.PostDelivers` | apps/uhm_app/client.cpp:414-423 | posting from such a slot keeps the peer's buffer in step with blocking puts |
| `SlotRing.ExecuteDelivers` | apps/uhm_app/client.cpp:414-423 | a put executing late, in any order allowed by the queues, delivers exactly the bytes staged for it |
| `SlotRing.AllDelivered` | apps/uhm_app/client.cpp:428-435 | with nothing outstanding the peer's buffer is what blocking puts would leave |
| `SlotRing.AllWaited` | apps/uhm_app/client.cpp:428-435 | waiting for what each slot records leaves nothing outstanding |
| `SlotRing.Stage.WaitOne` | apps/uhm_app/client.cpp:374-385 | a successful wait means that put has completed |
| `SlotRing.Stage.SendChunk` | apps/uhm_app/client.cpp:390-426 | one iteration waits for its slot, stages and posts exactly one put |
| `SlotRing.Stage.FillSlots` | apps/uhm_app/client.cpp:388-426 | the loop posts exactly the chunks of the transfer |
| `SlotRing.Stage.DrainSlots` | apps/uhm_app/client.cpp:428-435 | a successful drain leaves every put complete |
| `SlotRing.Stage.SendStaged` | apps/uhm_app/client.cpp:351-442 | on success nothing is outstanding, the peer's buffer equals that of the same chunks sent by blocking puts, each slot holds its last chunk's part of the source window, nothing beyond the ring changed, and a transfer that fits is one plain copy; it fails only on bad input, a chunk beyond source or peer buffer, a refused put or a failed wait |
| `SlotRing.BlockingArrives` | apps/uhm_app/client.cpp:367-426 | chunk size, slot count and source window as computed from the settings determine where every byte comes from |
| `AllToAll.StepInv` | hmc/collective.py:294-361 | every step of every rank keeps the synchronisation and data invariants |
| `AllToAll.Transpose` | hmc/collective.py:294-361 | in every interleaving of any sequence of calls, each call a rank returned from gave it block r of what each rank sent |
| `AllToAll.PutsStayInCall` | hmc/collective.py:337-361 | while a rank puts, every rank is in the same call, has loaded its send region and has not copied its receive region out |
| `AllToAll.NoDeadlock` | hmc/collective.py:320-361 | until all calls have returned some rank can step |
| `AllToAll.RunsAreBounded` | hmc/collective.py:294-361 | no run is longer than the steps left at its start |
| `AllToAll.EveryCallCompletes` | hmc/collective.py:457-520 | a run that cannot be extended has returned every call on every rank, each with the transpose |
| `AllToAllSetup.EachPairOnce` | hmc/collective.py:320-326 | ranks a and b are connected exactly once, by the smaller a, in round b - a |
| `AllToAllSetup.RoundIsMatching` | hmc/collective.py:320-326 | in a round each rank dials at most one rank and is dialled by at most one |
| `AllToAllSetup.MoveChunked` | hmc/collective.py:246-292 | putting or getting a range in chunks is one plain copy of it, for every chunk size, in as few operations as the chunk size allows |
| `AllToAllSetup.DefaultLayoutOk` | hmc/collective.py:472-492 | without an explicit receive offset a call is accepted exactly when sizes match, divide and fit, with that layout, and is then well laid out |
| `AllToAllSetup.ExplicitLayoutExactly` | hmc/collective.py:472-492 | with an explicit receive offset an accepted call is well laid out exactly when the send region fits and the two regions are apart, which the code does not check |
| `Registry.StepInv` | src/network/conn_manager.cpp:139-248 | every step of every concurrent call keeps the locking and map invariants |
| `Registry.StepUnique` | src/network/conn_manager.cpp:139-248 | every step keeps each endpoint in exactly one place (pending add, entry, about to be destroyed, destroyed) |
| `Registry.AliveExactly` | src/network/conn_manager.cpp:154-159 | over every run no call works on a destroyed endpoint if and only if no add replaces an entry in use |
| `Registry.AbsentAddsAreSafe` | src/network/conn_manager.cpp:162-248 | with adds on absent keys no endpoint is ever destroyed while a call runs on it |
| `Registry.ContendedCanFree` | src/network/conn_manager.cpp:154-159 | from every start with a call and two adds for one peer, a run in which an add destroys the endpoint under the running call |
| `Registry.CallsAliveExactly` | src/network/conn_manager.cpp:139-248 | a set of calls never works on a destroyed endpoint in any run if and only if no peer has both a call and two adds |
| `Registry.OneUser` | src/network/net.h:151-180 | in every run, whatever adds replace, an endpoint is used by at most one call at a time |
| `Registry.StatusExactly` | src/network/net.h:151-180 | in every run `withEndpoint` returns SUCCESS exactly when its callback ran, NOT_FOUND exactly when its key was absent when it held the map's mutex, ERROR exactly when the entry it found had been emptied |
| `Registry.RightEndpoint` | src/network/net.h:151-180 | what a callback works on was added for the peer its caller named |
| `Registry.UnknownPeer` | src/network/net.h:163-164 | a peer that nobody adds is not found |
| `Registry.OthersSucceed` | src/network/conn_manager.cpp:205-248 | adds and removals return SUCCESS, whatever they find |
| `Registry.OnlyTheExpected` | src/network/conn_manager.cpp:205-248 | in every run what a conditional removal destroys has the expected connection id |
| `Registry.StaysExactly` | src/network/conn_manager.cpp:139-248 | once its add has returned an endpoint is listed under its key in every run if and only if no plain removal and no other add names that key and no conditional removal there expects its connection id |
| `Registry.AllAccounted` | src/network/conn_manager.cpp:139-248 | when all calls have returned, every added endpoint is in the registry or was destroyed, never both, and at most once |
| `Registry.NoDeadlock` | src/network/conn_manager.cpp:162-248 | some unfinished call can always step: the two levels of locks cannot deadlock |
| `Registry.SixSteps` | src/network/conn_manager.cpp:139-248 | every call returns within six of its own steps, in every run |
| `Registry.RunsAreBounded` | src/network/conn_manager.cpp:139-248 | no run is longer than the steps its calls have left |
| `ServerEvents.StaleDisconnectsHarmless` | src/network/rdma_server.cpp:213-268 | after every trace each key holds exactly its most recently established connection, unless that one's own disconnect was handled |
| `ServerEvents.HarmlessExactly` | src/network/rdma_server.cpp:213-268 | for connections with their own cm_ids, every trace that makes them in order, with disconnects of any kind in between, is handled right if and only if connections at one key have different ids |
| `ServerEvents.DisconnectExactly` | src/network/rdma_server.cpp:259-266 | with distinct cm_ids a disconnect keeps the registry right if and only if no other current connection at that key has the same id |
| `ServerEvents.ReusedIdLosesPeer` | src/network/rdma_server.cpp:259-266 | a trace with a reused connection id in which a late disconnect removes the newer connection |
| `ServerEvents.Server.TakeBind` | src/network/rdma_server.cpp:88-95 | hands out the binding of a cm_id at most once |
| `ServerEvents.AllAccounted` | src/network/rdma_server.cpp:213-268 | over every trace each established connection is registered or was destroyed, exactly once |
| `ServerEvents.Server.Remove` | src/network/conn_manager.cpp:162-203 | destroys what is registered at the key, if anything |
| `ServerEvents.Server.RemoveIfMatch` | src/network/conn_manager.cpp:205-248 | removes the key only when its connection id is the expected one |
| `ServerEvents.Server.OnEvent` | src/network/rdma_server.cpp:220-267 | one event updates both tables as the specification says, rejected and failed connects changing nothing |
| `ServerEvents.Server.Listen` | src/network/rdma_server.cpp:213-268 | the event loop ends in the state the whole trace determines, with stale disconnects harmless |
| `MetaRendezvous.ExchangeCorrect` | src/network/rdma_server.cpp:357-394 | an exchange takes the oldest unclaimed hello of its own connection and fails exactly when there is none among all arrivals |
| `MetaRendezvous.Rendezvous` | src/network/rdma_server.cpp:106-126 | for distinct ids, any arrival order and any sequence of exchanges: each gets its own hello's socket and address, and every accepted hello is queued once or was handed out once |
| `MetaRendezvous.AddressExactly` | src/network/rdma_server.cpp:106-126 | for given arrivals, every exchange of every sequence of exchanges gets the address of the hello whose socket it got if and only if hellos with the same id carry the same address |
| `MetaRendezvous.WrongAddress` | src/network/rdma_server.cpp:106-126 | two hellos of one connection arrive while another is awaited: the first one's socket is then handed out with the second one's address, no accept having failed |
| `MetaRendezvous.Sockets.PushMeta` | src/network/rdma_server.cpp:106-113 | queues the socket and records its address |
| `MetaRendezvous.Sockets.PopMeta` | src/network/rdma_server.cpp:115-126 | takes the front socket of the connection, or nothing |
| `MetaRendezvous.Sockets.Await` | src/network/rdma_server.cpp:357-394 | the accept loop computes the specified exchange for every sequence of arrivals |
| `CtrlStream.FrameExactly` | src/network/socket_ctrl.cpp:385-415 | a message is received as sent, whatever follows it, if and only if its payload is under 2^32 bytes and it is not HELLO-like |
| `CtrlStream.HelloRoundTrip` | src/network/socket_ctrl.cpp:320-355 | a HELLO decodes to the rank that sent it |
| `CtrlStream.WireFormat` | src/network/socket_ctrl.cpp:320-329 | the bytes of a message and of a HELLO, field by field |
| `CtrlStream.SessionExactly` | src/network/socket_ctrl.cpp:320-415 | one HELLO and any list of messages decode to that rank and exactly that list if and only if every message is sendable |
| `CtrlStream.BrokenStream` | src/network/socket_ctrl.cpp:399-415 | a stream that breaks off anywhere yields some first messages as sent, and nothing else |
| `CtrlStream.Socket.SendAll` | src/network/socket_ctrl.cpp:472-481 | success writes all the bytes, failure a proper prefix, whatever each call moves |
| `CtrlStream.Socket.RecvAll` | src/network/socket_ctrl.cpp:483-492 | success reads exactly the next bytes of the stream, whatever each call moves |
| `CtrlStream.Socket.SendHello` | src/network/socket_ctrl.cpp:320-329 | writes the HELLO frame |
| `CtrlStream.Socket.Send` | src/network/socket_ctrl.cpp:385-398 | writes the message's frame |
| `CtrlStream.Socket.RecvHello` | src/network/socket_ctrl.cpp:331-352 | accepts exactly well-formed HELLOs and returns their rank |
| `CtrlStream.Socket.Recv` | src/network/socket_ctrl.cpp:399-415 | returns exactly the message the stream starts with, or fails |
| `CtrlStream.SendSession` | src/network/socket_ctrl.cpp:320-398 | the bytes of a session do not depend on fragmentation |
| `CtrlStream.RecvSession` | src/network/socket_ctrl.cpp:331-415 | what a session receives does not depend on fragmentation |
| `CtrlStream.Converse` | src/network/socket_ctrl.cpp:320-415 | under every fragmentation on both sides the receiver gets the rank and exactly the messages, in order |
| `CtrlFds.Owned` | src/network/socket_ctrl.cpp:208-373 | over every run each descriptor number was closed as often as opened, less one while open, and while open has exactly one owner |
| `CtrlFds.KeptUntilClosed` | src/network/socket_ctrl.cpp:222-235 | a registered descriptor stays with its rank until that rank is closed |
| `CtrlFds.MeetsExactly` | src/network/socket_ctrl.cpp:377-415 | a send or receive that has looked its rank's number up meets the connection it looked up if and only if no close of that rank comes in between |
| `CtrlFds.WrongPeer` | src/network/socket_ctrl.cpp:377-396 | whenever rank p is registered and rank q is not, a run in which the number looked up for p has become q's connection |
| `CtrlFds.Manager.DoRegister` | src/network/socket_ctrl.cpp:353-371 | the first connection of a rank is kept and a later one closed |
| `CtrlFds.Manager.DoClose` | src/network/socket_ctrl.cpp:448-459 | closes the rank's descriptor once and forgets it |
| `CtrlFds.Manager.DoCloseAll` | src/network/socket_ctrl.cpp:461-468 | in any order of the table, closes every registered descriptor exactly once |
| `Ucx.TakeExactly` | src/network/ucx_endpoint.cpp:606-617 | the ids are accepted if and only if each one other than 0 is in flight and named once |
| `Ucx.TakeDistinct` | src/network/ucx_endpoint.cpp:606-617 | the requests taken are distinct, were listed and are listed no more |
| `Ucx.SwapRemoves` | src/network/ucx_endpoint.cpp:644-649 | swap-remove takes out exactly one request and leaves those before it in place |
| `Ucx.Pass` | src/network/ucx_endpoint.cpp:636-651 | one pass frees only finished requests, keeps only requests it found unfinished, and loses none |
| `Ucx.Poll` | src/network/ucx_endpoint.cpp:629-675 | freed plus remaining requests equal the initial ones; SUCCESS exactly when none remains, whether or not they failed; requests that have all finished never time out |
| `Ucx.Endpoint.PostNB` | src/network/ucx_endpoint.cpp:533-546 | a pending request gets a new id that is not 0 and not in use; an immediate one gets 0 |
| `Ucx.Endpoint.TakeAll` | src/network/ucx_endpoint.cpp:606-617 | the id loop computes the specified exchange of ids for requests |
| `Ucx.Endpoint.WaitMulti` | src/network/ucx_endpoint.cpp:597-675 | fails exactly on unknown or repeated ids; otherwise each request is freed at most once and only when finished, all of them on SUCCESS, and freed plus remaining equal the taken ones |
| `Ucx.TrustExactly` | src/network/ucx_endpoint.cpp:597-675 | for given ids, SUCCESS means that all transfers succeeded, whatever the transport does, if and only if every id is 0 |
| `Ucx.AllFailed` | src/network/ucx_endpoint.cpp:636-651 | for all waitable ids there is an outcome in which every request failed and the wait returns SUCCESS |

## Left out

- libibverbs, rdma_cm, UCX, CUDA, ROCm, CNRT and MUSA calls and queue-pair state transitions: represented only by the abstract card and byte copies.
- Memory backends, GPU managers, P2P transports, Python bindings, the `Session` wrapper and the choice of connection type: thin wrappers or finite tables.
- Socket set-up, signal handling, logging, environment parsing and benchmarks: plumbing.
- Ring all-to-all (hmc/collective.py 416-455): its block indices do not compute the transpose.
- All-to-all with an explicit receive offset that overlaps the send region, or without the self copy: the code does not check the former and the latter leaves the own block to the caller.
- Dialling inside the all-to-all rounds: which pair connects when is proved; establishing the connection is not modelled.
- Uniqueness of request ids across UHM and non-blocking calls, and which endpoint `Communicator::wait` reaches: ids are keyed by number alone in the source.
- Completion errors, timeouts and post failures inside UHM: the transfer is modelled on a card that completes what it is given.
- 32-bit wrap-around of the queue-pair rotation counter and of request ids.
- Null payloads with a non-zero length on the control channel, and sends by several threads at once to one peer.
- Agreement between peers that dial each other's control socket at the same time.
- The single-request wait of the UCX endpoint: a plain spin on one request.
- Destruction of the connection manager and the P2P endpoint map, which repeats the registry without conditional removal.
- Pipeline.Channel.Transfer: one channel object stands for one call with an empty queue at the start; requests left over from earlier calls are not modelled.
- SlotRing.Stage.SendStaged: a source copy that leaves the source memory is treated as refused.
- Pipeline.Channel.WaitMulti: merges timeout and error into one refusal and does not repeat the shared completed set, which `Waiters` models.
- SlotRing.Stage.WaitOne: the same wait, seen from the caller: it may time out, and on success the put is complete.
- Registry.AliveExactly: the replacement of an entry's endpoint is one step; a torn read of the pointer by a concurrent null check is not modelled.
