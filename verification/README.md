# AugmentedNormalcy: a verified model of the video relay

AugmentedNormalcy relays video. Cameras send JPEG frames over TCP to a server, the server copies each frame
to the headsets and displays watching that camera, and a headset's button turns its wearer from camera to
camera. This project models the state machines behind that, in Dafny, and proves what they keep over whole
runs. `dafny verify dfyconfig.toml` checks everything.

## How it is built

* **Framing** (`Packet`, `Wire`, `WriteChain`, `ReadChain`, `Connection`, `Reconnect`, `Sessions`, `Links`). A
  frame is cut into packets of at most 65536 bytes behind 24-byte headers. `Wire` says what a list of frames
  looks like as bytes, without mentioning either end. The write and read chains are one step per completion
  handler, each moving any positive part of what was asked; `Connection` joins them by a byte stream under an
  arbitrary schedule, and `Reconnect` strings connections together. `Sessions` holds the objects that run these
  chains, and `Links` drives a client and a server session through whole schedules with reconnects.
* **Connection manager** (`AddressOrder`, `Assignment`, `ConnectionIndex`, `ConnectionManager`, `Rotation`, `Calls`,
  `SplitPhase`). `Assignment` is the meaning: one function from writers to cameras. `ConnectionManager.Manager`
  is the code, four maps edited in place, each call proved to be one update of that function while the
  per-camera lists stay its exact inverse. `Rotation` is the cyclic order behind the button, and `Calls`
  says of each call, in terms of positions in address order, where everybody ends up. `SplitPhase` lets two
  registrations run through each other.
* **Fan-out** (`Pools`, `Relay`, `EndToEnd`, `Completeness`, `Settling`). Buffers are shared, counted and
  overwritten on reuse, the leaky one included; copies are made later than posts. `EndToEnd` runs all links, the
  manager and every camera's fan-out side by side; `Completeness` says what has arrived at a headset once its
  link is quiet; `Settling` shows that the whole system comes to rest when left alone.
* **Smaller machines**: the prototype's linked-list pool (`BufferPool`), the websocket client's session
  numbers (`Websocket`), the 16-bit freshness filter (`RollingFilter`), the button (`Button`), the headset's
  state (`Headset`), the codecs' row pointers (`RowWalk`).

Every object is a class whose methods are proved to make one step of a functional machine (or, for the
manager, one update of the assignment function); the theorems over whole runs are about those machines.

## What was found

* Re-registering a camera address while its camera is live empties the camera's list but leaves the writers
  recorded there (connection_manager.cpp:36-39). Those writers are served no more and cannot rotate.
  `Assignment.ConsistentExactlyWhen` says exactly which runs keep the two maps in agreement, and
  `Assignment.ReregistrationLosesAWriter` is the shortest run that does not.
* A websocket client is not always left with exactly one current handler while started.
  `Websocket.GenerationSafety` says which events leave it with none: a manager callback that throws in a current
  handshake or read handler or on the way through a disconnect (`Websocket.ThrowingManagerStalls`), and a new
  stream that cannot be opened, which its constructor answers with an exception when a fixed port is configured
  and still taken (`Websocket.BusyPortStalls`). Only a stop, or a current write that fails, brings it back.
* `Stop` shuts the websocket's socket down with the overload that throws. If it does, the manager is not told of
  the end, and after a new start it can be told of two connections in a row (`Websocket.UncleanStopRepeats`);
  `Websocket.CreatesAreSeparated` says exactly when.
* `AddReaderSession` and `AddWriterSession` release their locks half way. A first camera and a writer that run
  through each other can leave the writer listed twice, and a new camera that sorts first can leave a new writer
  watching nobody; `SplitPhase.InTurnUnlessClash` says in exactly which interleavings, and that all others end
  like whole calls. The pointer that a returning writer's call keeps across the gap dangles exactly if everything
  is cleared meanwhile or the last camera leaves (`SplitPhase.RecordIsErasedIff`).
* The prototype's pool counts right exactly as long as no put-back that takes effect names a buffer that is not
  out (`BufferPool.ConservedIff`). The use count in `Free` rules that out for the pool's own shared pointers
  (`BufferPool.SharedPointersConserve`); `FreeRaw` has no such guard.
* The decoder's row walk stays inside the image exactly when the height is a multiple of 16
  (`RowWalk.DecoderStaysInPlanesIff`), so not at 1080 rows (`RowWalk.HighDefinitionLeavesThePlane`); the
  encoder clamps and needs only two rows.
* The comment above `rolling_less_than` (common.hpp:66-68) gives "less than 2^15" for both branches; the code
  uses "greater than" in the second, which is what RFC 1982 asks, and the model follows the code.

## Model

| member | source | states |
|---|---|---|
| `Packet.DecodeEncode` | internal/infrastructure/tcp/tcp_utils.hpp:174-188 | the eight header fields survive being read as 24 raw bytes and back |
| `Packet.EncodeDecode` | internal/infrastructure/tcp/tcp_utils.hpp:174-188 | every 24-byte string is the image of exactly one field view, the decoded one |
| `Packet.FieldsAt` | internal/infrastructure/tcp/tcp_utils.hpp:174-188 | which bytes of the header spell which field, lowest byte first |
| `Packet.OverlayBytes` | internal/infrastructure/tcp/tcp_server.cpp:179-181 | a partial header receive replaces exactly the bytes received and leaves the byte count |
| `Packet.PacketHeader.OffsetPacket` | internal/infrastructure/tcp/tcp_utils.hpp:141-144 | the whole new header state after a partial transfer, with 32- and 64-bit wrap-around |
| `Packet.PacketHeader.IsFinished` | internal/infrastructure/tcp/tcp_utils.hpp:145-148 | counts the packet and answers whether the total is reached |
| `Packet.PacketHeader.SetupHeader` | internal/infrastructure/tcp/tcp_utils.hpp:150-157 | the header of a frame's first packet, next packet number, truncated total |
| `Packet.PacketHeader.SetupNextHeader` | internal/infrastructure/tcp/tcp_utils.hpp:158-161 | next sequence number and next length |
| `Packet.PacketHeader.ResetHeader` | internal/infrastructure/tcp/tcp_utils.hpp:169-171 | only the byte count is reset |
| `Wire.PacketCountIsExact` | internal/infrastructure/tcp/tcp_utils.hpp:150-161 | a frame of T < 2^32 bytes costs T plus 24 for each of max(1, ceil(T/65536)) packets, at most 65536 of them, so the 16-bit sequence number never wraps inside a frame, and that bound is reached |
| `Wire.AlignedOffset` | internal/infrastructure/tcp/tcp_utils.hpp:141-144 | for a header that belongs to its frame a partial transfer underflows nothing, wraps nothing and keeps the window inside the frame |
| `Wire.AlignedFinish` | internal/infrastructure/tcp/tcp_utils.hpp:145-161 | finished exactly at the frame's end; otherwise the next header is the one the wire format asks for |
| `Wire.SetupIsAligned` | internal/infrastructure/tcp/tcp_utils.hpp:150-157 | a set-up header is the wire format's first header of the frame |
| `WriteChain.PostKeeps` | internal/infrastructure/tcp/tcp_server.cpp:326-336 | a post appends exactly the frame's encoding to what is left to send and never starts a second chain |
| `WriteChain.SendKeeps` | internal/infrastructure/tcp/tcp_server.cpp:351-422 | every completion puts exactly the next bytes of the encoding on the wire, keeps one chain whose header belongs to the front frame, and strictly shrinks what is left |
| `WriteChain.PendingIsSafe` | internal/infrastructure/tcp/tcp_server.cpp:384-389 | the outstanding send is the only one and reads inside the front frame |
| `ReadChain.RecvHeaderKeeps` | internal/infrastructure/tcp/tcp_server.cpp:176-212 | header bytes accumulate in place over any old content until they are the packet's header |
| `ReadChain.RecvFrameFinishes` | internal/infrastructure/tcp/tcp_server.cpp:241-249 | the last chunk of a frame hands over exactly the frame, or drops it whole if the buffer is the leaky one, and realigns on the next header |
| `ReadChain.RecvKeeps` | internal/infrastructure/tcp/tcp_server.cpp:176-252 | every completion consumes exactly the bytes the reader's state foretells and leaves it aligned |
| `ReadChain.PendingIsSafe` | internal/infrastructure/tcp/tcp_server.cpp:214-222 | the outstanding receive writes inside its buffer |
| `ReadChain.RecvProgress` | internal/infrastructure/tcp/tcp_server.cpp:223-250 | a completion consumes a byte or finishes an empty frame |
| `ReadChain.HeaderDecides` | internal/infrastructure/tcp/tcp_server.cpp:190-209 | whatever 24 bytes arrive, the reader goes on to a body of the length bytes 12 to 15 spell exactly if the first and last four are zero, and closes otherwise |
| `Connection.FramingRoundTrip` | internal/infrastructure/tcp/tcp_client.cpp:123-201 | over every schedule of posts and partial transfers: frames consumed are the frames posted, in order, byte for byte, except those dropped whole; the reader never closes; one chain runs exactly while frames are queued; the wire carries a prefix of the reference encoding; a drained connection has consumed all |
| `Connection.DeliversEverything` | internal/infrastructure/tcp/tcp_server.cpp:214-252 | given a buffer for each frame, deliveries are a prefix of the posts, and all of them once drained |
| `Connection.TransfersShrinkWork` | internal/infrastructure/tcp/tcp_server.cpp:384-422 | every transfer leaves strictly less to do |
| `Connection.NeverStuck` | internal/infrastructure/tcp/tcp_server.cpp:384-422 | an undrained connection always has an enabled transfer |
| `Connection.DrainsInTime` | internal/infrastructure/tcp/tcp_server.cpp:384-422 | no schedule of transfers is longer than the work there was |
| `Reconnect.ReconnectsStayFaithful` | internal/infrastructure/tcp/tcp_client.cpp:262-326 | across any number of reconnects every connection has accepted exactly the frames the schedule posted between its reconnects, and consumed whole frames of those only: nothing torn, nothing mixed between connections |
| `Reconnect.LinkAccepts` | internal/infrastructure/tcp/tcp_client.cpp:301-326 | from any state, a schedule cut at its reconnects is what the connections accept, one segment each |
| `Sessions.TcpHeadsetSession.Write` | internal/infrastructure/tcp/tcp_server.cpp:310-339 | one post step exactly if the session is live and fewer frames are queued than it has copy buffers; otherwise the frame is dropped whole; every copy buffer stays free or queued, once |
| `Sessions.TcpHeadsetSession.OnHeaderSent` | internal/infrastructure/tcp/tcp_server.cpp:351-382 | the handler is one step of the write chain |
| `Sessions.TcpHeadsetSession.OnBodySent` | internal/infrastructure/tcp/tcp_server.cpp:384-422 | the handler is one step of the write chain |
| `Sessions.TcpHeadsetSession.TryClose` | internal/infrastructure/tcp/tcp_server.cpp:425-454 | closing empties the queue, gives every copy buffer back, leaves outstanding sends, and is idempotent |
| `Sessions.TcpCameraSession.OnHeaderReceived` | internal/infrastructure/tcp/tcp_server.cpp:176-212 | one step of the read chain while live; a bad header closes; a dead session does nothing |
| `Sessions.TcpCameraSession.OnBodyReceived` | internal/infrastructure/tcp/tcp_server.cpp:214-252 | one step of the read chain while live |
| `Sessions.TcpClient.Post` | internal/infrastructure/tcp/tcp_client.cpp:123-135 | one post step while connected, nothing otherwise |
| `Sessions.TcpClient.OnHeaderSent` | internal/infrastructure/tcp/tcp_client.cpp:137-165 | one step of the write chain while connected |
| `Sessions.TcpClient.OnBodySent` | internal/infrastructure/tcp/tcp_client.cpp:167-201 | one step of the write chain while connected |
| `Sessions.TcpClient.OnHeaderReceived` | internal/infrastructure/tcp/tcp_client.cpp:226-260 | one step of the read chain while connected; a bad header disconnects and forgets the buffer |
| `Sessions.TcpClient.OnBodyReceived` | internal/infrastructure/tcp/tcp_client.cpp:262-299 | one step of the read chain while connected |
| `Sessions.TcpClient.Disconnect` | internal/infrastructure/tcp/tcp_client.cpp:307-326 | not connected, the queue or the half-filled buffer forgotten, outstanding operations left to complete |
| `Sessions.TcpClient.OnSendError` | internal/infrastructure/tcp/tcp_client.cpp:154-179 | a failed send ends its chain, and gives the connection up if there still is one |
| `Sessions.TcpClient.OnReceiveError` | internal/infrastructure/tcp/tcp_client.cpp:273-281 | a failed receive gives the connection up if there still is one; an aborted one only ends |
| `Sessions.TcpClient.StartConnection` | internal/infrastructure/tcp/tcp_client.cpp:65-121 | connected exactly if not stopped and some attempt succeeds, however many fail before it; then the chain starts afresh over the old header, beside whatever old operations are still to complete |
| `Links.RunCameraLink` | internal/infrastructure/tcp/tcp_client.cpp:123-201 | the camera's client and the server's sessions, driven through any schedule of posts, partial transfers and reconnects, end exactly where the link does, and every session has logged what was posted while it lasted, frame by frame, whole or dropped whole |
| `Links.RunHeadsetLink` | internal/infrastructure/tcp/tcp_server.cpp:310-422 | the same for the server's sessions and a headset's client, where posts that find every copy buffer queued are left out whole |
| `Assignment.ApplyWf` | internal/service/server/connection_manager.cpp:11-464 | every call keeps: every writer has a camera whenever there is one, a listed writer's camera is live, sessions sit at their own address with numbers already given out |
| `Assignment.UnlistedBy` | internal/service/server/connection_manager.cpp:36-39 | only a re-registration hides a listed writer, it hides exactly those recorded at that camera, and a hidden writer stays hidden while it is recorded |
| `Assignment.ListedStaysListed` | internal/service/server/connection_manager.cpp:11-223 | from any state, a run without re-registration hides nobody new |
| `Assignment.StrongInvariant` | internal/service/server/connection_manager.cpp:11-223 | in every run that re-registers no watched camera nothing is hidden, every writer has a live camera once one exists, and no writer has any other |
| `Assignment.ConsistentExactlyWhen` | internal/service/server/connection_manager.cpp:36-39 | the two maps agree throughout a run if and only if no call re-registers a camera somebody is watching |
| `Assignment.ReregistrationLosesAWriter` | internal/service/server/connection_manager.cpp:36-39 | a three-call run after which a writer is recorded but in no list and cannot be moved |
| `Assignment.LateCloseIsHarmless` | internal/service/server/connection_manager.cpp:57-65 | once superseded or cleared, a session's remove call changes nothing at any later point of any run |
| `Assignment.NewcomerSupersedes` | internal/service/server/connection_manager.cpp:15-23 | registering again at an address, or clearing, supersedes the session there |
| `Rotation.TurnMoves` | internal/service/server/connection_manager.cpp:252-364 | a rotation moves one writer to the next camera in address order, a reset to the first, and nothing else changes |
| `Rotation.CameraAfterTurns` | internal/service/server/connection_manager.cpp:252-364 | after any mix of rotations and resets the camera is at index (rotations since the last reset) mod n |
| `Rotation.FullTour` | internal/service/server/connection_manager.cpp:252-304 | n rotations visit each of n cameras exactly once and return to the start |
| `Calls.AddReaderDoes` | internal/service/server/connection_manager.cpp:11-50 | who is live, watching what and hidden after a camera registers |
| `Calls.RemoveReaderDoes` | internal/service/server/connection_manager.cpp:52-111 | after a current camera leaves it is gone, and those it listed watch the one a place on in address order, or nobody watches anything if it was the last; a stale remove changes nothing |
| `Calls.AddWriterDoes` | internal/service/server/connection_manager.cpp:113-173 | a new writer watches the first camera in order, a returning one keeps its own, nobody else moves |
| `Calls.RemoveWriterDoes` | internal/service/server/connection_manager.cpp:175-223 | a current writer is gone from every map, with or without cameras, and nobody else is touched |
| `Calls.TurnsDo` | internal/service/server/connection_manager.cpp:252-364 | a visible writer turns to the camera one place on, or to the first; any other stays |
| `Calls.RotateAllDoes` | internal/service/server/connection_manager.cpp:366-406 | exactly when it answers true everybody goes to the camera one place on from the first writer's, and nobody moves otherwise |
| `Calls.EverybodyTours` | internal/service/server/connection_manager.cpp:366-406 | n rotations of everybody show each of n cameras to all exactly once and end where the first writer was |
| `Calls.PointAtDoes` | internal/service/server/connection_manager.cpp:408-435 | everybody goes to a live camera, or nobody moves |
| `Calls.ClearDoes` | internal/service/server/connection_manager.cpp:437-456 | nothing is left but the last number |
| `ConnectionIndex.ListedOnce` | internal/service/server/connection_manager.cpp:11-223 | in all runs a listed writer is listed once, in one list, as its current session, where it is recorded |
| `ConnectionIndex.HiddenIffInNoList` | internal/service/server/connection_manager.cpp:36-39 | the hidden writers are exactly the recorded ones no list holds |
| `ConnectionManager.Manager.AddReaderSession` | internal/service/server/connection_manager.cpp:11-50 | one update of the assignment, index kept, next session number returned, replaced session reported |
| `ConnectionManager.Manager.RemoveReaderSession` | internal/service/server/connection_manager.cpp:52-111 | a current camera's listed writers pass to the next camera; a stale remove does nothing; index kept |
| `ConnectionManager.Manager.AddWriterSession` | internal/service/server/connection_manager.cpp:113-173 | a new writer watches the first camera, a returning one keeps its camera; index kept |
| `ConnectionManager.Manager.RemoveWriterSession` | internal/service/server/connection_manager.cpp:175-223 | a current writer disappears from the assignment and its list; a stale remove does nothing |
| `ConnectionManager.Manager.PostMessage` | internal/service/server/connection_manager.cpp:228-240 | reaches exactly the writers a scan of the assignment finds, once each |
| `ConnectionManager.Manager.RotateWriterConnection` | internal/service/server/connection_manager.cpp:252-304 | the rotation of the assignment, and exactly when it answers true |
| `ConnectionManager.Manager.ResetWriterConnection` | internal/service/server/connection_manager.cpp:306-364 | the reset of the assignment, and exactly when it answers true |
| `ConnectionManager.Manager.RotateAllConnections` | internal/service/server/connection_manager.cpp:366-406 | one rotation of everybody with the exact answer; `Calls.RotateAllDoes` says where they end up |
| `ConnectionManager.Manager.PointReaderAtWriters` | internal/service/server/connection_manager.cpp:408-435 | everybody moves to a live camera; answers whether it is live |
| `ConnectionManager.Manager.ClearAll` | internal/service/server/connection_manager.cpp:437-464 | forgets all but the last number and returns exactly the current sessions to close, each once |
| `ConnectionManager.AttachAll` | internal/service/server/connection_manager.cpp:30-35 | records every writer at the camera and lists them in address order |
| `ConnectionManager.Drain` | internal/service/server/connection_manager.cpp:102-107 | the loop moves the whole list and records each writer at the replacement |
| `ConnectionManager.Substitute` | internal/service/server/connection_manager.cpp:148-162 | a returning writer's session takes its predecessor's place if it is listed |
| `ConnectionManager.Gather` | internal/service/server/connection_manager.cpp:395-404 | emptying every list into one leaves the index of the assignment that points everybody there |
| `ConnectionManager.RunAll` | internal/service/server/connection_manager.cpp:11-464 | any sequence of calls on the four maps is that sequence of updates of the assignment, index exact at the end |
| `ConnectionManager.PostAfter` | internal/service/server/connection_manager.cpp:228-240 | after any run a post reaches exactly the writers recorded at the camera and not hidden, once each; none is hidden unless the run re-registered a watched camera |
| `SplitPhase.InTurnUnlessClash` | internal/service/server/connection_manager.cpp:11-50 | a camera and a writer registering at once, each new or returning, from any consistent maps and in any interleaving of their locked phases, leave the maps as the two whole calls would in the order in which they finish, unless the phases clash, and inconsistent if they do |
| `SplitPhase.FirstClash` | internal/service/server/connection_manager.cpp:25-35 | a writer between whose phases the first camera lists everybody is listed twice |
| `SplitPhase.LaterClash` | internal/service/server/connection_manager.cpp:132-147 | a new writer that finds a camera first in order but without a list is recorded nowhere |
| `SplitPhase.CameraCallIsWhole` | internal/service/server/connection_manager.cpp:11-50 | the two phases of a camera's call without interruption are the one update of the assignment, index kept |
| `SplitPhase.WriterCallIsWhole` | internal/service/server/connection_manager.cpp:113-173 | the same for a writer's call |
| `SplitPhase.RecordIsErasedIff` | internal/service/server/connection_manager.cpp:115-132 | the record a returning writer's call points at is erased by another call exactly if that clears everything or removes the last camera |
| `SplitPhase.ReturnsAround` | internal/service/server/connection_manager.cpp:148-162 | otherwise a returning writer's call around any other call ends consistent, as if the other had come first |
| `Pools.PoolConservation` | internal/infrastructure/tcp/tcp_utils.hpp:229-311 | in every interleaving of checkouts, copies and releases free and held buffers partition those made for the deque, none free twice; reference counts are exactly the references held; the leaky buffer, lent and released like any other, never enters the deque and is never deleted; a checkout hands out a buffer nobody holds, or the leaky one and only when the deque is empty |
| `Pools.FirstInFirstOut` | internal/infrastructure/tcp/tcp_utils.hpp:241-261 | checked out followed by free is what was there followed by what came back |
| `Pools.BufferDeque.Checkout` | internal/infrastructure/tcp/tcp_utils.hpp:241-261 | the front buffer with a first reference, or one more reference to the leaky buffer, or nothing |
| `Pools.BufferDeque.Drop` | internal/infrastructure/tcp/tcp_utils.hpp:254-259 | the last reference, and only it, puts the buffer at the back, unless it is the leaky one |
| `Pools.RunAll` | internal/infrastructure/tcp/tcp_utils.hpp:229-311 | the deque and its counts follow the pool through every run, the leaky buffer never among the free ones |
| `Relay.BeginKeeps` | internal/infrastructure/tcp/tcp_server.cpp:215-217 | the buffer taken for a new frame is one no pending copy points at, and the leaky one exactly when the pool is empty |
| `Relay.DiscardKeeps` | internal/infrastructure/tcp/tcp_server.cpp:242-246 | letting go of the leaky buffer puts nothing into the deque and leaves every count exact |
| `Relay.FillKeeps` | internal/infrastructure/tcp/tcp_server.cpp:221-222 | bytes landing in the receive buffer disturb no pending copy |
| `Relay.PublishKeeps` | internal/service/server/connection_manager.cpp:228-240 | a post gives each writer one copy to make and a reference, and lets go of the buffer, with exact reference counts |
| `Relay.FinishKeeps` | internal/infrastructure/tcp/tcp_server.cpp:310-339 | a copy made later still finds exactly the frame that was posted, and its release keeps all of this |
| `EndToEnd.RelayIsFaithful` | internal/infrastructure/tcp/tcp_server.cpp:310-339 | over every run of the whole system, each frame a headset reassembles is byte for byte a frame of the camera it was assigned to at post time, in that camera's order |
| `EndToEnd.FanOutIsExact` | internal/service/server/connection_manager.cpp:228-240 | over every run, every delivered frame is posted in order, with exactly one job, to run, done or skipped, for each writer listed then and none for others; the jobs done are exactly the copies queued for the headset; every writer listed has a session |
| `EndToEnd.CopyIsQueuedIff` | internal/infrastructure/tcp/tcp_server.cpp:310-339 | when a job runs, its headset's link accepts exactly the posted frame if the session is live and fewer frames are queued than it has copy buffers, and nothing otherwise; nobody else is touched |
| `EndToEnd.SlotsAreGiven` | internal/infrastructure/tcp/tcp_server.cpp:290-303 | a headset's session has the copy buffers it was made with, throughout |
| `EndToEnd.NothingIsExcluded` | internal/infrastructure/tcp/tcp_server.cpp:310-339 | in every reachable state any event of a camera's link is a step if offered the one buffer the pool has to offer, and every headset's next job is a step, its session among the headsets |
| `Completeness.DeliveryIsComplete` | internal/service/server/connection_manager.cpp:228-240 | over every run, once a headset's link is quiet, no job of a camera waits for it, and each one found the session live and a copy buffer free, whatever became of all others, the headset has from that camera exactly the frames posted on while it was listed there, in order; those are the frames delivered to the camera's session, and all frames posted at the camera if its link is quiet too |
| `Completeness.CopiesAreCompleteIff` | internal/infrastructure/tcp/tcp_server.cpp:310-339 | over every run the copies queued are all the postings listed for the headset if and only if no job waits and each one found the session live and a copy buffer free |
| `Completeness.SkippedIff` | internal/infrastructure/tcp/tcp_server.cpp:316-325 | over every run a camera has skipped nothing for a headset if and only if each of its jobs found the session live and fewer frames queued than copy buffers |
| `Completeness.TagsAreListed` | internal/infrastructure/tcp/tcp_server.cpp:310-339 | the copies queued for a headset are exactly the postings a camera made while it was listed, each once and in order, if and only if no job for it is left or was skipped |
| `Completeness.RunAccepts` | internal/infrastructure/tcp/tcp_client.cpp:123-135 | over every run a camera session's link has accepted exactly the frames the schedule posted at it |
| `Settling.SettlesInTime` | internal/infrastructure/tcp/tcp_server.cpp:384-422 | from every reachable state a run without manager calls and new frames is no longer than a potential read off the state, and while anything is left to send, take in or copy some such step is enabled |
| `Settling.StepPays` | internal/infrastructure/tcp/tcp_server.cpp:310-339 | every transfer and every copy lowers the potential |
| `BufferPool.Pool.constructor` | prototype/internal/utility/buffer_pool.hpp:30-52 | a well-linked chain holding the store in order |
| `BufferPool.Pool.New` | prototype/internal/utility/buffer_pool.hpp:54-64 | the front of the queue with its pointer, or the underflow error; chain stays well linked, use counts exact |
| `BufferPool.Pool.Free` | prototype/internal/utility/buffer_pool.hpp:66-80 | the caller's pointer is gone, and the buffer is at the back unless the runtime counts more than two pointers to it |
| `BufferPool.Pool.FreeRaw` | prototype/internal/utility/buffer_pool.hpp:81-100 | a new pointer at the back if the buffer is tracked, error otherwise |
| `BufferPool.Pool.AvailableBuffers` | prototype/internal/utility/buffer_pool.hpp:102-105 | the length of the queue |
| `BufferPool.Pool.OutboundBuffers` | prototype/internal/utility/buffer_pool.hpp:107-110 | the store's size less the queue's length, in unsigned arithmetic |
| `BufferPool.LinkBefore` | prototype/internal/utility/buffer_pool.hpp:73-78 | relinking four pointers keeps the chain acyclic and its back links mirrored |
| `BufferPool.RunAll` | prototype/internal/utility/buffer_pool.hpp:30-100 | the linked list and the runtime's use counts follow a FIFO queue and its callers' pointers through every run |
| `BufferPool.ConservedIff` | prototype/internal/utility/buffer_pool.hpp:54-110 | after any run queued and outstanding buffers exceed the store by exactly the number of put-backs that took effect on a buffer not out, so they are together the store if and only if there was none |
| `BufferPool.RunTotal` | prototype/internal/utility/buffer_pool.hpp:54-100 | no run loses a buffer |
| `BufferPool.FirstInFirstOut` | prototype/internal/utility/buffer_pool.hpp:54-100 | over every run, what was taken followed by what is queued is what was queued at first followed by what came back |
| `BufferPool.HeldIs` | prototype/internal/utility/buffer_pool.hpp:54-80 | over every run callers hold what they took and copied, less what they discarded and gave back |
| `BufferPool.OnlyHolderReturns` | prototype/internal/utility/buffer_pool.hpp:66-80 | the only holder of a buffer puts it at the back; with another holder or a node about nothing is put back |
| `BufferPool.CountsAfter` | prototype/internal/utility/buffer_pool.hpp:102-110 | after every run without such a put-back the outbound count is the number of buffers out, and adds up to the store with the available count |
| `BufferPool.SharedPointersConserve` | prototype/internal/utility/buffer_pool.hpp:66-80 | callers that only copy, drop and give back the shared pointers they were handed, however often, never break conservation |
| `BufferPool.CountedReturnIsSafe` | prototype/internal/utility/buffer_pool.hpp:67-71 | the use count refuses a shared pointer to a buffer that is not out |
| `BufferPool.DoubleFreeOverflows` | prototype/internal/utility/buffer_pool.hpp:81-100 | a bare address returned twice makes the count exceed the store |
| `Websocket.GenerationSafety` | internal/infrastructure/websocket/websocket_client.cpp:35-264 | over every run at most one connect, handshake, read or close handler carries the current number, none while stopped; exactly one while started, throughout, if and only if no event stalls the client; one at the end if and only if every stall was followed by a revival |
| `Websocket.CreatesAreSeparated` | internal/infrastructure/websocket/websocket_client.cpp:43-64 | a Destroy between any two Creates, throughout a run, if and only if no handshake succeeds while a stop that could not shut its stream down still owes one; so always if stops are clean |
| `Websocket.StepKeeps` | internal/infrastructure/websocket/websocket_client.cpp:66-264 | one event keeps a live client alive if and only if it is not a start that cannot open its stream or a current handler that breaks off, and brings a stalled one back if and only if it is a stop or a current write that fails and reconnects |
| `Websocket.StaleHandlerVanishes` | internal/infrastructure/websocket/websocket_client.cpp:218-264 | a handler with an old number changes nothing but its own presence, except that a stale write that succeeds pops the send queue |
| `Websocket.MessagesFlow` | internal/infrastructure/websocket/websocket_client.cpp:197-230 | in every run, while the current connection is being read and messages wait, a write under its number is outstanding |
| `Websocket.WriteIssuedIff` | internal/infrastructure/websocket/websocket_client.cpp:140-142 | one more write is outstanding under the current number exactly after a handshake with messages waiting, a first message, or a write that leaves more |
| `Websocket.MessagesInOrder` | internal/infrastructure/websocket/websocket_client.cpp:197-230 | the messages taken by successful writes followed by those waiting are those sent, in order |
| `Websocket.StreamIff` | internal/infrastructure/websocket/websocket_client.cpp:43-95 | there is a stream from the connect that made it until a stop that shuts it down |
| `Websocket.ThrowingManagerStalls` | internal/infrastructure/websocket/websocket_client.cpp:170-185 | a run in which a throwing manager leaves the client started with no handler |
| `Websocket.BusyPortStalls` | internal/infrastructure/websocket/websocket_client.cpp:66-103 | a run in which one refused connect does, with no manager callback made |
| `Websocket.UncleanStopRepeats` | internal/infrastructure/websocket/websocket_client.cpp:43-64 | a run that tells the manager of two connections in a row |
| `Websocket.WebsocketClient.Start` | internal/infrastructure/websocket/websocket_client.cpp:35-41 | the start step, with or without a stream |
| `Websocket.WebsocketClient.Stop` | internal/infrastructure/websocket/websocket_client.cpp:43-64 | the stop step: new number, and stream gone and Destroy unless the shutdown throws |
| `Websocket.WebsocketClient.OpenConnection` | internal/infrastructure/websocket/websocket_client.cpp:66-95 | a connect handler under the current number, or nothing if stale or if the stream cannot be opened |
| `Websocket.WebsocketClient.CloseConnection` | internal/infrastructure/websocket/websocket_client.cpp:243-255 | new number, Destroy, then a close or a fresh connect, unless the manager or the opening throws |
| `Websocket.WebsocketClient.QueueMessage` | internal/infrastructure/websocket/websocket_client.cpp:197-216 | a message is queued, and written if it is the only one |
| `Websocket.WebsocketClient.Complete` | internal/infrastructure/websocket/websocket_client.cpp:97-264 | each completion handler is one step of the machine, send queue included |
| `RollingFilter.RollingLessIsAhead` | prototype/internal/infrastructure/common.hpp:65-73 | less exactly when the other is 1 to 2^15 - 1 ahead on the ring; equal, less, greater and half a ring apart exclude each other and cover everything |
| `RollingFilter.AcceptsExactly` | prototype/internal/infrastructure/codec/cuda/cuda_decoder.cpp:73-81 | within a session a number passes exactly when it is 1 to 2^15 ahead on the ring |
| `RollingFilter.AcceptsAcrossSessions` | prototype/internal/infrastructure/codec/cuda/cuda_decoder.cpp:73-81 | whatever its session, a packet passes exactly when it parses, its session is not behind the current one, and its number is 1 to 2^15 ahead |
| `RollingFilter.RemembersLast` | prototype/internal/infrastructure/codec/cuda/cuda_decoder.cpp:82-88 | over every run the filter remembers the last packet that passed and nothing else |
| `RollingFilter.WindowIsTight` | prototype/internal/infrastructure/codec/cuda/cuda_decoder.cpp:73-81 | inside the window the test is "strictly newer", one past either edge it is wrong |
| `RollingFilter.FilterRefines` | prototype/internal/infrastructure/codec/cuda/cuda_decoder.cpp:73-88 | over every run of a session in the window the 16-bit filter passes exactly what the unbounded one does |
| `RollingFilter.RecordsIncrease` | prototype/internal/infrastructure/codec/cuda/cuda_decoder.cpp:73-88 | what passes strictly increases |
| `RollingFilter.CudaDecoder.TryDecode` | prototype/internal/infrastructure/codec/cuda/cuda_decoder.cpp:67-88 | the filter's answer and the numbers remembered |
| `Button.ButtonTiming` | internal/domain/button.cpp:15-51 | over every monotone poll trace each hold belongs to exactly one push, the button neither open nor held nor reporting anything in between, by more than debounce + hold, and found pressed at every poll since its debouncing ended, more than hold before; pushes are more than debounce apart; holds never outnumber pushes in any prefix |
| `Button.HoldIsKeptDown` | internal/domain/button.cpp:32-42 | every poll between the end of the debouncing and a hold found the button pressed: a tap is never a hold |
| `Button.OpenUntilPressed` | internal/domain/button.cpp:19-24 | an open button is silent until the first pressed poll, which is a push |
| `Button.DebouncedUntil` | internal/domain/button.cpp:25-31 | after a push nothing happens until the first poll past the debounce time, which finds it pressed or opens it |
| `Button.PressedUntil` | internal/domain/button.cpp:32-42 | then nothing until the first poll past the hold time, a hold, or the first released one, which opens it |
| `Button.HeldUntilReleased` | internal/domain/button.cpp:43-48 | a held button is silent until the first released poll, which opens it |
| `Button.HoldHasOnePush` | internal/domain/button.cpp:15-51 | for any clock, a hold at poll j has a push at some poll i < j with every state from after i to before j debounced or pressed |
| `Button.HoldsArePushedApart` | internal/domain/button.cpp:25-45 | between any two holds the button was open and pushed again |
| `Button.LongPressHolds` | internal/domain/button.cpp:25-37 | a button kept pressed past debounce and then past hold has reported a hold |
| `Button.ButtonDevice.UpdateButtonState` | internal/domain/button.cpp:15-51 | one poll: new state and action |
| `Button.ButtonDevice.Reset` | internal/domain/button.cpp:57-59 | open, as of now |
| `Headset.HeadsetAgreement` | internal/domain/headset_domain.hpp:37-78 | over every run, told from the events alone: each flag is what its link last did; connecting exactly when not both links are up, running exactly when the wearer has started it since; reports are exactly the changes of mode in order, messages exactly what the wearer asked for |
| `Headset.RunningIsEarned` | internal/service/headset/headset_streamer.cpp:45-63 | in every reachable state running is entered exactly by a button action from ready, ends with any link, and returns to ready exactly by a hold; no report repeats the one before |
| `Headset.HeadsetState.PostTcpConnection` | internal/domain/headset_domain.hpp:37-56 | new state, and a change reported exactly when the mode differs |
| `Headset.HeadsetState.PostWebsocketConnection` | internal/domain/headset_domain.hpp:58-78 | new state, and a change reported exactly when the mode differs |
| `Headset.HeadsetStreamer.OnTcp` | internal/service/headset/headset_streamer.cpp:67-83 | the callback is one step, reporting exactly on change |
| `Headset.HeadsetStreamer.OnWebsocket` | internal/service/headset/headset_streamer.cpp:85-101 | the callback is one step, reporting exactly on change |
| `Headset.HeadsetStreamer.OnButton` | internal/service/headset/headset_streamer.cpp:45-63 | the callback is one step: start, reset on hold, rotate otherwise |
| `RowWalk.EncodeWalk` | internal/infrastructure/encoder/sw_encoder.cpp:119-140 | ceil(h/16) calls whose pointers are row min(k, last) of each plane |
| `RowWalk.EncodeLuma` | internal/infrastructure/encoder/sw_encoder.cpp:133-134 | sixteen clamped luma rows |
| `RowWalk.EncodeChroma` | internal/infrastructure/encoder/sw_encoder.cpp:135-136 | eight clamped rows of each chroma plane |
| `RowWalk.PlanesTile` | internal/infrastructure/encoder/sw_encoder.cpp:119-122 | the three planes follow each other without a gap, a luma sample for each pixel and two chroma samples for each whole two-by-two square; three halves of the luma plane for even sizes |
| `RowWalk.RowsTile` | internal/infrastructure/decoder/sw_decoder.cpp:171-174 | rows follow each other without a gap and fill their planes, chroma rows half as wide |
| `RowWalk.VgaOffsets` | internal/infrastructure/encoder/sw_encoder.cpp:119-122 | the offsets in a 640 by 480 image |
| `RowWalk.EncoderCoversRows` | internal/infrastructure/encoder/sw_encoder.cpp:131-140 | the encoder points at each row of each plane in its turn and at the last one ever after |
| `RowWalk.EncoderStaysInPlanes` | internal/infrastructure/encoder/sw_encoder.cpp:119-140 | the encoder stays inside the planes if and only if the image has at least two rows |
| `RowWalk.DecodeWalk` | internal/infrastructure/decoder/sw_decoder.cpp:171-190 | ceil(h/16) calls whose pointers are row k of each plane, unclamped |
| `RowWalk.DecoderStaysInPlanesIff` | internal/infrastructure/decoder/sw_decoder.cpp:181-190 | the decoder stays inside the planes if and only if 16 divides the height, and then passes the encoder's pointers |
| `RowWalk.HighDefinitionLeavesThePlane` | internal/infrastructure/decoder/sw_decoder.cpp:181-190 | at 1080 rows exactly the last eight luma pointers of the last call lie outside the plane |
| `RowWalk.DecoderCoversRows` | internal/infrastructure/decoder/sw_decoder.cpp:181-190 | at heights divisible by 16 each row of each plane is one pointer of the walk and no other |

## Left out

- Sockets, timers, threads and locks: a handler or a public call is one atomic step, a socket is a byte stream.
- Interleavings inside manager calls beyond `SplitPhase`, which covers a camera's and a writer's registration at once and a returning writer's around any one other call: three or more calls at once, and other calls inside a camera's registration, are only modelled as whole calls.
- Completions that succeed after their connection was given up: `doClose` and `disconnect` empty the queue without waiting for them, so framing runs cover the live part of each connection, and a client connects again after its old operations have completed.
- Frames of 2^32 bytes or more, and frames larger than the receive buffers: the program does not guard against them and the framing theorems do not cover them.
- Sessions.TcpClient.StartConnection: the outcomes of the attempts are given in advance, and nobody stops the client between them.
- Websocket.GenerationSafety: session numbers are unbounded, a manager that calls back into the client is not modelled, and apart from the manager, the opening of a stream and its shutdown nothing is taken to throw.
- Websocket.WebsocketClient.Complete: a success that finds the send queue empty, which is undefined in the source, leaves it empty; no delivery of the client's own messages is claimed, since writes may be issued before the handshake.
- RollingFilter.FilterRefines: one session at a time; across sessions the sequence number restarts while the decoder keeps the old one.
- Headset.HeadsetAgreement: runs lie between one start and one stop, and each callback is one step.
- The encoder's and decoder's downstream buffer queues and `TryFreeMemory`: the same deque discipline as `Pools`, so they would only add easy members.
- JPEG, V4L2, libcamera, CUDA, GPIO and serial calls, graphics, configuration, JSON messages, and the unused `TcpReaderMessage` and `TcpWriterMessage`.
- `GetConnectionCounts`: two sizes.
