# Verified models of the game server's concurrency, logging, interest and framing code

This project models the parts of the server whose correctness rests on invariants over every
interleaving, every byte stream or every position, and proves those invariants in Dafny:
`dafny verify dfyconfig.toml` checks all of it.

Each part has two layers. An object of the server that updates its fields in place is a class with those
fields; its methods are proved against functions on values. The promises about many steps or many threads
are lemmas about those functions, over all runs.

* **Job scheduling.** `MpscQueue` is the multi-producer queue as a value: what was exchanged in, how much
  was taken, which links are missing. `LockFreeQueue` is the linked list of nodes with a dummy, where a
  push is two steps, and every method touches only nodes that have not been deleted. `JobQueueProtocol`
  runs any number of threads through `Push` and `Execute`, one atomic access per step; `JobQueueOnHeap`
  carries its runs over to the linked list, whose consumer changes from thread to thread. `JobQueue` is
  the same code as nested loops, with jobs that push further jobs to their own queue.
* **Logging.** `LogBackend` holds the critical sections of the double-buffered queue, as functions and as
  a class, with what each of them keeps; `LogWriter` is the loop of the writer thread, with records
  arriving whenever it does not hold the queue lock; `LoggerProtocol` every interleaving of logging
  threads, the writer, explicit flushes and the switch Async, Draining, Sync, with the history of
  submissions; `LoggerFlush` says what a flush and an ERROR wait for, and when a record goes which way;
  `LoggerProgress` shows that the logger comes to rest, and where.
* **Area of interest.** `SectorMath` is the cell arithmetic over real coordinates, `GameRoom` the room
  with its table of players, its buckets and the query over a window of cells, and `GameRoomRuns` the
  room over whole runs, against scenes of positions without a grid.
* **Framing.** `Framing` defines printing and parsing on byte sequences; `RecvBuffer` is the compacting
  buffer, `PacketSession` the receive path from a completed receive to the next one.
* **Database pool.** `DBPool` runs N workers, N connections and the coroutines waiting for them;
  `DBConnectionPool` is the pool as an object, whose methods keep the invariant of `DBPool` under every
  schedule of the workers.

What the proofs assume: atomic accesses happen one after the other; positions stay far enough from the
32-bit range that cell coordinates and the window around them fit; and connections are taken from the
pool by its workers only.

Some properties a reader might expect do not always hold. For each the project has an input for which it
fails and the exact condition under which it holds:

* A push-only push to an idle job queue strands the queue for good: the job and all later ones never
  start (`JobQueueProtocol.PushOnlyStrands`, `StrandedForever`). This happens exactly when some push-only
  push finds the counter at zero (`StrandedIffPushOnlyOnIdle`).
* Log records of one thread can reach the sinks out of order, when a wait for the end of draining times
  out (`LoggerProtocol.OrderCanFail`). Order is kept exactly in the runs in which no thread writes
  directly while it has a record in the queue (`OrderKeptIff`, `SinkOrderIff`).
* A move that arrives after the player left and changes the cell leaves an entry behind, and a query can
  then list the next player under this id twice (`GameRoom.LateMoveListsTwice`). A move by an object whose
  id another object has taken over can take that one out of its cell, and a query misses it
  (`ReplacedIsMissed`). The contract of `HandleMove` says exactly when either happens.
* Packets that follow one whose handler closes the session and returns are still delivered if they came
  in the same receive (`Framing.CutMatters`). What is delivered is independent of the cut exactly if none
  follow (`ChunkingIrrelevantIff`).
* The printer cuts sizes to 16 bits. A length that is more than 65531 modulo 65536 would make it write
  outside its buffer (`Framing.InBufferIff`); any other payload of more than 65535 bytes goes out as zeros.
  The message arrives exactly if its payload has at most MAX_PACKET_SIZE - 4 bytes (`AcceptedIff`).

The grid's span is computed by truncation. That is enough for the configured constants, and in general
exactly when the cell size divides the radius (`SectorMath.TruncatedSpanSufficesIff`); the repository's
README states this as a known limitation.

## Model

| member | source | states |
|---|---|---|
| MpscQueue.ReplayConserves | Server/ServerCore/LockFreeQueue.h:49-85 | For every interleaving of exchanges, links, loads and takes: the values taken, followed by those still queued, are the pushed values in head-exchange order. |
| MpscQueue.ProducerOrderKept | Server/ServerCore/LockFreeQueue.h:49-58 | Each producer's values come out in the order it pushed them, none lost, none doubled. |
| MpscQueue.LoadFailsOnlyWhenEmptyOrUnlinked | Server/ServerCore/LockFreeQueue.h:70-77 | A pop finds nothing if and only if the queue is empty or the oldest remaining push has exchanged and not linked. |
| LockFreeQueue.LockFreeQueue.ExchangeHead | Server/ServerCore/LockFreeQueue.h:53-54 | The first step of a push adds the value to the queue and gives back the old head, which is not deleted. |
| LockFreeQueue.LockFreeQueue.LinkPrev | Server/ServerCore/LockFreeQueue.h:56-57 | The second step closes one gap, whatever other threads did in between, and writes to a live node. |
| LockFreeQueue.LockFreeQueue.PopTake | Server/ServerCore/LockFreeQueue.h:79-84 | Hands out the oldest value, advances the tail and deletes exactly the old dummy node. |
| LockFreeQueue.LockFreeQueue.Pop | Server/ServerCore/LockFreeQueue.h:68-85 | Succeeds if and only if the oldest value is linked, and then takes it; otherwise changes nothing. |
| LockFreeQueue.LockFreeQueue.Destroy | Server/ServerCore/LockFreeQueue.h:38-46 | On a queue without a half-done push, every node ever allocated has been deleted exactly once afterwards. |
| LockFreeQueue.RunSchedule | Server/ServerCore/LockFreeQueue.h:49-85 | After any schedule of steps the linked list is as the value queue says and conserves the values; no pointer a producer or the consumer holds leads to a deleted node; each node is deleted once, or lies on the chain from tail to head, over written links and links still held by producers. |
| LockFreeQueue.RunAndDestroy | Server/ServerCore/LockFreeQueue.h:38-46 | After any schedule that leaves no thread inside the queue, destruction has deleted each of the nodes, one per push and the dummy, exactly once. |
| JobQueueProtocol.OneExecutor | Server/ServerCore/JobQueue.cpp:10-67 | In every reachable state at most one thread is in Execute, in one activation: one consumer, and no job nested in another job of the queue. |
| JobQueueProtocol.StartedInExchangeOrder | Server/ServerCore/JobQueue.cpp:25-55 | The jobs started are a prefix of the jobs pushed, in head-exchange order, whichever of them threw. |
| JobQueueProtocol.TakeNeverSpoiled | Server/ServerCore/JobQueue.cpp:31-37 | Between the executor's load of a link and its take, no other thread can take the value away. |
| JobQueueProtocol.LeavesOnlyWhenDone | Server/ServerCore/JobQueue.cpp:57-65 | The executor leaves only when no push is counted and unserved, nothing is queued and every pushed job has started. |
| JobQueueProtocol.OutstandingHasOwner | Server/ServerCore/JobQueue.cpp:12-22 | Without push-only pushes, the counter is positive if and only if some thread is, or is about to become, the executor. |
| JobQueueProtocol.StepKeepsInv | Server/ServerCore/JobQueue.cpp:10-67 | Every step keeps the counter equal to pushes counted and not exchanged, plus queued jobs, plus the current batch, with one owner. |
| JobQueueProtocol.StrandedIffPushOnlyOnIdle | Server/ServerCore/JobQueue.cpp:10-23 | The queue is stranded, with jobs outstanding and no thread to run them, exactly when some push-only push found the counter at zero. |
| JobQueueProtocol.StrandedForever | Server/ServerCore/JobQueue.cpp:10-67 | A stranded queue stays stranded and starts no job any more, whatever is pushed. |
| JobQueueProtocol.PushOnlyStrands | Server/ServerCore/JobQueue.cpp:10-23 | A run: a push-only push onto an idle queue, then an ordinary one; both complete and the queue is stranded with both jobs in it. |
| JobQueueProtocol.DrainTerminates | Server/ServerCore/JobQueue.cpp:25-67 | Once started pushes have linked and no new one begins, at most 6 x count + 3 x threads + 3 steps are left, however scheduled. |
| JobQueueProtocol.StopsOnlyWhenDrained | Server/ServerCore/JobQueue.cpp:25-67 | Without push-only pushes, where no step but a new push is possible, every job pushed has started in order and the counter is zero. |
| JobQueueProtocol.NobodyWaits | Server/ServerCore/JobQueue.cpp:10-67 | In every reachable state every thread has a step to take at its place, whatever the others do: nothing in the queue blocks. |
| JobQueueProtocol.BatchTakesAll | Server/ServerCore/JobQueue.cpp:31-37 | A batch is run only after a load that found nothing more to pop. |
| JobQueueOnHeap.RunIsSchedule | Server/ServerCore/JobQueue.cpp:10-67 | The queue steps of every protocol run are a schedule of the queue, with a load pending exactly while the executor of the moment is inside a pop. |
| JobQueueOnHeap.RunOnHeap | Server/ServerCore/JobQueue.cpp:31-37 | The linked list under any protocol run holds what the protocol says, although the consumer changes, and no pointer held by a producer or the executor leads to a deleted node. |
| JobQueue.JobQueue.Push | Server/ServerCore/JobQueue.cpp:10-23 | If nothing was counted and the caller does not decline, the push runs the job and all it spawns before it returns; otherwise it only counts and queues. |
| JobQueue.JobQueue.RunBatch | Server/ServerCore/JobQueue.cpp:39-55 | Runs the batch in order, each job once, throwing or not; what they push stays queued. |
| JobQueue.JobQueue.Execute | Server/ServerCore/JobQueue.cpp:25-67 | Ends with nothing queued and the counter at zero, having run the queued jobs and all they spawn level by level. |
| JobQueue.LevelOrderIsFifo | Server/ServerCore/JobQueue.cpp:25-67 | Running in batches is the same as running one queue job by job, first in, first out. |
| JobQueue.EveryJobRunsOnce | Server/ServerCore/JobQueue.cpp:40-55 | The jobs run are exactly those pushed directly or by other jobs, each once. |
| LogBackend.LogBackend.TryEnqueue | Server/ServerCore/Logger.cpp:658-697 | Exactly when the record is queued, dropped or sent to wait; a queued one is last and numbered next, a dropped one is counted; the writer is woken for the first record and for ERROR; and the numbers stay consecutive and bounded, drops unreported only while full, an ERROR marked. |
| LogBackend.LogBackend.Swap | Server/ServerCore/Logger.cpp:582-589 | The batch is all that was queued, consecutive up to the last number, durable if it holds an ERROR, with every unreported drop; afterwards nothing is queued or unreported. |
| LogBackend.AppendSound | Server/ServerCore/Logger.cpp:679-690 | Queueing into a buffer that is not full keeps the numbers consecutive, the bound, the drop rule and the ERROR mark. |
| LogBackend.HoldsCapacity | Server/ServerCore/Logger.cpp:620-697 | A started backend whose buffer can grow queues the first records, as many as configured, or one if that is zero; from then on it only counts each TRACE as dropped and sends the others to wait. |
| LogWriter.Writer.WriteBatch | Server/ServerCore/Logger.cpp:591-604 | Hands the batch to the sinks in order, then the note if there were drops, and flushes, durably if asked for. |
| LogWriter.Writer.BackendThreadMain | Server/ServerCore/Logger.cpp:562-611 | Whatever arrives between and during the batches until the stop: each arrival has been queued, dropped, if it is a TRACE, or sent to wait, if not; when the writer leaves, what was queued is in the sinks in the order of arrival, once, flushed and published, ERRORs durably, the notes sum to the drops, and the backend is closed and empty. |
| LogWriter.Writer.StopAndDrain | Server/ServerCore/Logger.cpp:632-656 | The same after the join and the reset, which discards nothing. |
| LoggerProtocol.BuffersAreConsecutive | Server/ServerCore/Logger.cpp:582-610 | Batch and front buffer hold exactly the numbers flushedSeq + 1 to enqueuedSeq, or, between clearing the batch and publishing it, the front holds exactly those after the batch; the front never exceeds its capacity. |
| LoggerProtocol.QueuedOnceInOrder | Server/ServerCore/Logger.cpp:591-604 | Queued records reach the sinks once each, in the order of their numbers, and all of them by the time the writer has gone. |
| LoggerProtocol.NothingLostOrDoubled | Server/ServerCore/Logger.cpp:1109-1144 | Across the mode switch, once the writer has gone, a finished submission is in the sinks exactly once, by queue or direct write, or is a dropped TRACE. |
| LoggerProtocol.ReleaseDiscardsNothing | Server/ServerCore/Logger.cpp:632-656 | When the buffers are reset after the join they are empty and every number is already published. |
| LoggerProtocol.ThreadOrderKept | Server/ServerCore/Logger.cpp:712-741 | If no wait times out and no buffer fails to grow, each thread's records reach the sinks in submission order, however the switch falls. |
| LoggerProtocol.OrderKeptIff | Server/ServerCore/Logger.cpp:712-741 | For every run, timeouts and failed allocations included: each thread's records are in submission order, in the sinks and the queue behind them, if and only if no thread ever wrote directly while it had a record in the queue. |
| LoggerProtocol.SinkOrderIff | Server/ServerCore/Logger.cpp:712-741 | When the writer has gone, the same condition decides the order in the sinks. |
| LoggerProtocol.OrderCanFail | Server/ServerCore/Logger.cpp:727-741 | A run of one thread whose wait times out and whose second record reaches the sinks before the first. |
| LoggerProtocol.DropsReported | Server/ServerCore/Logger.cpp:582-601 | Unreported drops imply a full front buffer, so when the writer has gone the notes sum to the number of dropped records. |
| LoggerProtocol.FlushedMeansWritten | Server/ServerCore/Logger.cpp:699-705 | A wait for a number that ends without timing out ends after every record up to it was handed over and flushed, ERRORs durably. Which number a thread waits for is in the rows of LoggerFlush. |
| LoggerFlush.FlushCovers | Server/ServerCore/Logger.cpp:985-1004 | Over every run: when a thread that started a flush in mode Async pushes the file out, without its wait having run out, every record queued before the flush began has been handed to the sinks and flushed. |
| LoggerFlush.FlushPushesFile | Server/ServerCore/Logger.cpp:985-1004 | However a flush goes, the thread is not back before it has pushed the file out. |
| LoggerFlush.FlushWaitsForSwitch | Server/ServerCore/Logger.cpp:985-1004 | A flush that begins during or after the switch, or gets through its wait for a number then, pushes the file out only in mode Sync, with every queued record written and flushed, unless its wait for the switch runs out. |
| LoggerFlush.ErrorIsDurable | Server/ServerCore/Logger.cpp:1127-1133 | Over every run: once an ERROR has been queued its thread waits, and unless that wait runs out, its record is durably flushed whenever the thread no longer waits. |
| LoggerFlush.LateIsDirect | Server/ServerCore/Logger.cpp:1109-1144 | A record submitted when the mode is no longer Async is never queued, in any continuation. |
| LoggerFlush.DirectOnlyInSync | Server/ServerCore/Logger.cpp:712-741 | If no wait runs out and no buffer fails to grow, a direct write happens only in mode Sync, with both buffers empty. |
| LoggerFlush.DurableForErrorsOnly | Server/ServerCore/Logger.cpp:591-604 | In such a run the durable mark moves, to the end of the sinks, exactly in the steps that end a batch holding an ERROR or write an ERROR directly. |
| LoggerProtocol.RunInv | Server/ServerCore/Logger.cpp:562-741 | The invariant behind these holds in every state of every run. |
| LoggerProgress.QuietRunEnds | Server/ServerCore/Logger.cpp:562-741 | Once nothing new is submitted, flushed or switched, threads, writer and a switch under way make only a bounded number of further steps, however scheduled. |
| LoggerProgress.RestsOnlyWhenDone | Server/ServerCore/Logger.cpp:562-741 | Where nothing but new work or a timeout is possible: no thread waits, the mode is Async or Sync, nothing is queued, and every record ever submitted is in the sinks once or is a dropped TRACE, with the drops in the notes. |
| LoggerProgress.ThreadWaitsOnlyFor | Server/ServerCore/Logger.cpp:658-741 | What a thread can wait for: room in the buffer, the number it flushes for, the end of draining, or the sinks held by the writer; and nothing else. |
| LoggerProgress.WriterWaitsOnlyFor | Server/ServerCore/Logger.cpp:562-656 | The writer stops only when it has left or has nothing queued and no stop to obey; the switch waits only for the writer it has told to stop. |
| SectorMath.CellInterval | Server/GameServer/Game/Room/SectorMath.h:11-14 | A coordinate is in cell c exactly if c*s <= v < (c+1)*s, left of zero as well. |
| SectorMath.KeyInjective | Server/GameServer/Game/Room/SectorMath.h:18-22 | Two cells have the same key only if they are the same cell, over all pairs of 32-bit coordinates. |
| SectorMath.KeyRoundTrip | Server/GameServer/Game/Room/SectorMath.h:18-22 | Both signed coordinates can be read back from the key: x is the key divided by 2^32, rounded down, and y agrees with the rest modulo 2^32. |
| SectorMath.KeyBitsInjective | Server/GameServer/Game/Room/SectorMath.h:20-21 | The same for the 64 bits as they are shifted and joined: they are equal exactly if both 32-bit coordinates are. |
| SectorMath.KeyBitsApart | Server/GameServer/Game/Room/SectorMath.h:18-22 | The x cell is in the upper half of the bits, the y cell in the lower. |
| SectorMath.CeilingSpanSuffices | Tools/aoi_sim.py:5-8 | Points within the radius are at most ceil(radius / cell size) cells apart, for all radii and cell sizes. |
| SectorMath.TruncatedSpanMisses | Server/GameServer/Game/Room/GameRoom.h:67-71 | For every radius the cell size does not divide, a pair within the radius that the truncated span misses. |
| SectorMath.TruncatedSpanSufficesIff | Server/GameServer/Game/Room/GameRoom.h:67-71 | The truncated span is enough if and only if the cell size divides the radius. |
| GameRoom.GameRoom.Enter | Server/GameServer/Game/Room/GameRoom.cpp:51-62 | Files the player under its cell; every player stays filed under its cell; the grid stays exact if and only if the id was not in the table under another cell. |
| GameRoom.GameRoom.Leave | Server/GameServer/Game/Room/GameRoom.cpp:104-134 | Removes the id from table and bucket; every player stays filed under its cell; the grid stays exact if and only if the table did not have the id under another cell. |
| GameRoom.GameRoom.HandleMove | Server/GameServer/Game/Room/GameRoom.cpp:196-224 | For any player object: every player stays filed under its cell unless the object takes the id out of the cell of another one that has replaced it; the grid stays exact if and only if the cell is unchanged, or the id is in the table, for this object or for one in the cell moved to. |
| GameRoom.GameRoom.RemoveFromSector | Server/GameServer/Game/Room/GameRoom.cpp:390-399 | Takes the id out of that bucket and leaves no empty bucket behind. |
| GameRoom.GameRoom.MoveSector | Server/GameServer/Game/Room/GameRoom.cpp:401-410 | Moves the id between the buckets of the two cells and nothing else. |
| GameRoom.OwnMoveKeeps | Server/GameServer/Game/Room/GameRoom.cpp:401-410 | Moving the id of the table's own object keeps an exact grid exact and every player covered. |
| GameRoom.ForeignMoveKeeps | Server/GameServer/Game/Room/GameRoom.cpp:401-410 | Moving an id on behalf of an object that is not in the table keeps the players covered, and the grid exact, exactly under the stated conditions on the two cells. |
| GameRoom.GameRoom.GetAdjacentSectorPlayers | Server/GameServer/Game/Room/GameRoom.cpp:412-449 | If every player is filed under its cell, a player of the room is returned if and only if the squares of the differences of the coordinates add up to at most 2000 squared, which is what the full scan returns; in an exact grid each once, with no more comparisons than the scan; and (2*span+1)^2 cells are visited. |
| GameRoom.GameRoom.NaiveQuery | Tools/aoi_sim.py:27-33 | The plain scan returns exactly the players of the room at a distance of at most 2000, by their coordinates, with one comparison per player. |
| GameRoom.NearIsWithin2000 | Server/GameServer/Game/Room/GameRoom.cpp:412-449 | Near is a distance of at most 2000 in both coordinates together. |
| GameRoom.NearAlongAxis | Server/GameServer/Game/Room/GameRoom.cpp:412-449 | The bound itself is near: along an axis up to 2000 on both sides and no farther, and at 1200 and 1600. |
| GameRoom.NearIsVisited | Server/GameServer/Game/Room/GameRoom.cpp:412-449 | A player within the radius lies in one of the visited cells. |
| GameRoom.VisitOneMore | Server/GameServer/Game/Room/GameRoom.cpp:423-446 | The keys visited by the two loops are pairwise distinct. |
| GameRoom.FiledOnce | Server/GameServer/Game/Room/GameRoom.cpp:423-446 | In an exact grid an id is met in at most one of the visited buckets. |
| GameRoom.LateMoveListsTwice | Server/GameServer/Game/Room/GameRoom.cpp:196-224 | Enter, leave, a late move to another cell and a new entry make a query list the player twice. |
| GameRoom.ReplacedIsMissed | Server/GameServer/Game/Room/GameRoom.cpp:196-224 | Two objects enter under one id and the first moves away: a query where the second one stands finds nobody. |
| GameRoomRuns.RunSchedule | Server/GameServer/Game/Room/GameRoom.cpp:51-449 | After any sequence of entering, leaving, moving, in the room or out of it, and querying, with one object per id: the table holds the players present, every query found exactly those present at a distance of at most 2000, by their coordinates, and unless a player changed cells while out of the room the grid is exact and the counters are within the full scan's. |
| Framing.FrameFields | Server/GameServer/Packet/ServerPacketHandler.h:115-137 | Size, id and payload can be read back from a printed frame. |
| Framing.FrameBytes | Server/GameServer/Packet/ServerPacketHandler.h:115-137 | In bytes: the first two are the length of the frame, low byte first, the next two the id, and the payload follows. |
| Framing.ParseSplit | Server/ServerCore/Session.cpp:294-353 | Parsing a stream in two parts with the unread rest kept is parsing it at once, unless the session is closed in the first part; then parsing at once delivers no less. |
| Framing.ChunkingIrrelevantIff | Server/ServerCore/Session.cpp:222-250 | All ways to cut a stream deliver the same packets if and only if parsing it at once delivers nothing after a packet on which the handler closes and returns. |
| Framing.ReceivedBetween | Server/ServerCore/Session.cpp:222-250 | However the stream is cut: the session is closed exactly if parsing at once closes it, open it is where parsing at once gets, and it has delivered at least what precedes the first close and at most what parsing at once delivers. |
| Framing.CutMatters | Server/ServerCore/Session.cpp:326-349 | Two frames to a handler that closes and returns: together both are delivered, one by one only the first. |
| Framing.ParseSound | Server/ServerCore/Session.cpp:294-353 | Delivered packets are well-formed and are the beginning of the stream; only the last can have made a handler throw; the rest is kept. |
| Framing.ParseComplete | Server/ServerCore/Session.cpp:294-353 | Every list of well-formed packets that begins the stream is delivered, up to the first on which the handler throws. |
| Framing.ParseEnds | Server/ServerCore/Session.cpp:301-348 | The session is closed if and only if it was, the handler closed it on a packet, the last packet made the handler throw, or the next header is bad; open, it waits for more of a packet. |
| Framing.ParseBytes | Server/ServerCore/Session.cpp:294-353 | In bytes: under four bytes the session waits; with n the first two, low byte first, it closes at once and keeps nothing if n < 4 or n > 16384, waits while fewer than n bytes are there, and otherwise hands over those n and goes on behind them, or closes if the handler throws. |
| Framing.MessagesArrive | Server/GameServer/Packet/ServerPacketHandler.h:92-137 | However the frames of a list of messages are cut, if the handler returns on each then exactly they are delivered in order, with ids and payloads readable, nothing left over and the session open. |
| Framing.InBufferIff | Server/GameServer/Packet/ServerPacketHandler.h:118-133 | Header and payload size fit the buffer of the wrapped packet size if and only if the length modulo 65536 is at most 65531. |
| Framing.AcceptedIff | Server/ServerCore/Session.cpp:308-324 | For payloads of any length for which that holds: the packet is accepted if and only if its 16-bit size is within MAX_PACKET_SIZE, and the message arrives if and only if its payload has at most MAX_PACKET_SIZE - 4 bytes; a packet over the limit closes the session. |
| RecvBuffers.RecvBuffer.Clean | Server/ServerCore/RecvBuffer.cpp:18-34 | The overlapping forward copy keeps the unread bytes; positions afterwards in each of the three cases. |
| RecvBuffers.RecvBuffer.OnRead | Server/ServerCore/RecvBuffer.cpp:36-43 | Drops that many unread bytes, or refuses and changes nothing. |
| RecvBuffers.RecvBuffer.OnWrite | Server/ServerCore/RecvBuffer.cpp:45-52 | Makes the bytes behind the write position unread, or refuses and changes nothing. |
| PacketSessions.PacketSession.OnRecv | Server/ServerCore/Session.cpp:294-353 | The packet loop delivers, consumes and closes as parsing the span says, for handlers that return, throw, or close the session and return. |
| PacketSessions.PacketSession.ProcessRecv | Server/ServerCore/Session.cpp:222-250 | A completed receive closes on no bytes or too many, and otherwise parses; a live session then has a receive of at least 64 KiB posted and less than one packet unread. |
| PacketSessions.PacketSession.Receive | Server/ServerCore/Session.cpp:222-250 | A receive that fits what was posted never hits an overflow branch and feeds the chunk to the receiver. |
| PacketSessions.ReceiveStream | Server/ServerCore/Session.cpp:131-154 | For every way the transport cuts a stream: connected exactly when parsing it whole does not close; the packets delivered are those of parsing it whole unless some follow a close, and then at least those before it. |
| PacketSessions.MakeSendBuffer | Server/GameServer/Packet/ServerPacketHandler.h:115-137 | For every payload: the buffer is the frame, or for more than 65535 bytes a frame of zeros with the wrapped size; exactly for lengths modulo 65536 above 65531 the write would leave the buffer. |
| DBPool.ConnectionsConserved | Server/ServerCore/DBConnectionPool.cpp:291-307 | Pooled and leased connections are always the N of Connect; none is leased twice, or leased and pooled. |
| DBPool.PopNeverBlocks | Server/ServerCore/DBConnectionPool.cpp:291-300 | A worker that has taken a job always finds a connection in the pool. |
| DBPool.EachJobRunsOnce | Server/ServerCore/DBConnectionPool.cpp:361-399 | Jobs are taken in push order and each taken job runs once, whatever EnsureHealthy answered and whichever jobs threw. |
| DBPool.EachAwaitAnsweredOnce | Server/ServerCore/DBAwaitable.h:31-65 | Each awaited job that has run is answered by exactly one resumption, and the await gives false if and only if it threw. |
| DBPool.AwaitTellsOutcome | Server/ServerCore/DBAwaitable.h:31-65 | From the steps of the run alone: an await gives false if and only if an earlier step ran its job and the job threw, and true if and only if one ran it and it returned. |
| DBPool.CalledOnce | Server/ServerCore/DBConnectionPool.cpp:361-399 | No two steps of a run call the same job. |
| DBPool.DrainBounded | Server/ServerCore/DBConnectionPool.cpp:361-399 | Without new jobs, the workers and queues make only a bounded number of further steps. |
| DBPool.WorkerWaitsOnlyFor | Server/ServerCore/DBConnectionPool.cpp:361-399 | In every reachable state: a worker waits only for a job or the stop, takes a job exactly when one is left, leaves exactly when stopped with none left, and has a step to take everywhere in between. |
| DBPool.StopsOnlyWhenDone | Server/ServerCore/DBConnectionPool.cpp:361-399 | Where no step but a push or stop is possible, all connections are back, all taken jobs ran, all awaits were resumed once; before a stop nothing is left queued. |
| DBPool.JoinedPoolIsWhole | Server/ServerCore/DBConnectionPool.cpp:270-289 | When the workers have been joined, there was a stop, every job pushed before it has run and all N connections are in the pool to be closed. |
| DBPool.OwedIsPushed | Server/ServerCore/DBConnectionPool.cpp:270-289 | What the pool owes after a stop are exactly the jobs pushed before it, whatever is pushed later. |
| DBPool.LateJobsNeverRun | Server/ServerCore/DBConnectionPool.cpp:368-373 | After the workers have left, no further job is taken or run. |
| DBPool.DrainResult | Server/ServerCore/DBConnectionPool.cpp:361-399 | A worker on its own runs the queued jobs in push order and posts the resumptions in that order. |
| DBConnectionPools.DBConnectionPool.Connect | Server/ServerCore/DBConnectionPool.cpp:215-268 | Succeeds if and only if all N attempts do, with N open connections and N workers; a failure leaves no connection open, none pooled and no worker. |
| DBConnectionPools.EnsureHealthy | Server/ServerCore/DBConnectionPool.cpp:324-359 | Skips the check if and only if the idle limit is not 0 and fewer ticks than it have gone by, modulo 2^64; otherwise answers true if and only if the ping or one of the allowed reconnects succeeds; a successful ping makes no reconnect, a failed one as many as it takes to the first success, or all; without a reconnect the connection is untouched. |
| DBConnectionPools.CheckedIff | Server/ServerCore/DBConnectionPool.cpp:324-331 | For ticks less than 2^64 apart, the check is skipped if and only if the limit is not 0 and now - lastUsed is below it. |
| DBConnectionPools.RunSchedule | Server/ServerCore/DBConnectionPool.cpp:361-399 | For every schedule of steps, clock readings and server answers on the object: each event is the step it names, if that is possible, with EnsureHealthy free in its answer, and otherwise changes nothing; what was done is a run of DBPool ending in the object's state; the connection objects stay the same and in the right hands. |
| DBConnectionPools.DBConnectionPool.WorkerThread | Server/ServerCore/DBConnectionPool.cpp:361-399 | The worker loop, undisturbed after a stop, drains the queue with the same connection objects and leaves. |
| DBConnectionPools.Threads.Clear | Server/ServerCore/DBConnectionPool.cpp:270-289 | Whatever the workers are doing when it is called: they finish, every job pushed has run before they leave, then every connection opened is closed and the pool is empty. |
| DBConnectionPools.DBConnectionPool.Resume | Server/ServerCore/DBAwaitable.h:50-60 | The coroutine of the job had not been answered and is answered exactly once now, posted to its queue or resumed here, where it gets true if and only if the job did not throw (which is, over runs, as DBPool.AwaitTellsOutcome says); nothing else changes but the worker's place. |

## Left out

- Weak memory orders: every atomic access is one step of a sequentially consistent run.
- The 32-bit job counter and the tick counter do not overflow in the model; the difference of two ticks is taken modulo 2^64.
- Rounding of `float` coordinates and casts out of range: coordinates are reals within bounds that keep cells in 32 bits, which are those of GameRoom.InWorldIff.
- DBConnectionPools.Threads.Clear: the model lets the workers go on one after the other, because the source sets its stop flag outside the job lock and a worker can miss the wake-up; that Clear returns in every interleaving is not claimed.
- DBConnectionPools.DBConnectionPool.WorkerThread: one worker undisturbed; interleavings of workers are in DBConnectionPools.RunSchedule.
- LogWriter.Writer.BackendThreadMain: threads that are told to wait for space do not come back within this loop, and no thread writes directly; both are in LoggerProtocol.
- LogWriter.Writer.StopAndDrain: as for BackendThreadMain.
- GameRoomRuns.RunSchedule: one object per id; what an object does whose id another one has taken over is in the contract of HandleMove.
- JobQueue.JobQueue.Execute: one thread, where jobs push to their own queue; other threads' pushes are the steps of JobQueueProtocol.
- PacketSessions.MakeSendBuffer: what a write outside the buffer does, and the encoding of payloads itself.
- Callers of `Pop` and `Push` of the connection pool other than its workers, which would take connections away from them.
- Sessions beyond receiving: the send queue and its flag, where a buffer pushed between the last pop and the release of the flag waits for the next send, and connecting, disconnecting and sweeping.
- `JobTimer`: delayed jobs reach the queue as ordinary pushes.
- The crash path of the logger (`PanicFlush`) and its handlers, which give up the accounting on purpose; log formatting, level filters, file rolling, and records logged before initialisation.
- Which of several concurrent saves of one player reaches the database last.
- Sockets, MySQL, Redis and protobuf: their answers are inputs of the model.
