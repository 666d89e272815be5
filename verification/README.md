# Verified model of the servers' coordination

A thread pool, a process pool, select, poll and epoll loops, and a load generator: these programs differ in how their
threads, processes and tables work together while anything may happen in between. This project has models of that and
proves what they keep, what they deliver and when they stop; where a promise holds only under a condition, it proves the
condition exact.

- `QueueMonitor.dfy`, `ThreadSafeQueue.dfy`: the mutex-and-condition-variable queue. Every access to the queue is a step of
  its own, and every interleaving of any number of threads, with spurious wakeups, is a run of a state machine, which
  refines an atomic FIFO object because of the mutex; the class holds the critical sections.
- `ThreadPoolModel.dfy`, `ThreadPoolTheorems.dfy`, `ThreadPoolShutdown.dfy`, `ThreadPoolServer.dfy`: how the libevent server
  hands connections to its workers over a queue and a non-blocking pipe that drops bytes when it is full, and how it
  stops. The class has the callbacks as written, with steps of all other threads between any two statements.
- `ProcTable.dfy`, `ProcPoolModel.dfy`, `ProcPoolTheorems.dfy`, `ProcPoolShutdown.dfy`: the process pool. `ProcTable` has the parent's table and
  the loops over it; the model adds the kernel (zombies, merged signals, pids and descriptors that are handed out again,
  also between waitpid, close and the marking of an entry), the signal handler and the children.
- `SlotTables.dfy`, `SlotServers.dfy`: the select and poll loops over their slot arrays, both refining one machine over a
  bounded set of clients.
- `EdgeTriggered.dfy`: one descriptor number in the edge-triggered epoll server, with any number of workers draining it.
- `MultiClient.dfy`: the load generator's split of clients over threads and its completion counter.
- `Common.dfy`: what several of these use.

Concurrent parts are state machines: an `Event` is one atomic action of one thread or of the kernel, `Legal` says which
sequences of events are runs, and theorems speak of all runs. Where a class has methods for such a part, its other threads
take an arbitrary finite number of steps (`budget`) at every point where they could; a method that is shown to return is
shown to return whenever the others take finitely many steps. The kernel's choices (readiness, what recv, accept and
waitpid return, when signals arrive) are parameters or arbitrary.

Some promises hold only under a condition, and the model says which:

- A NEW byte can be dropped, because the pipe is full then. While it holds another NEW byte this does no harm; when all its
  bytes are TERMINATEs, the worker stops without draining, and the connection is never registered. That every run with n
  SIGINTs keeps a NEW byte holds iff n is less than the capacity of the pipe (`NewByteKeptIff`).
- A TERMINATE byte can be dropped too. That in every run with n connections a SIGINT reaches all W workers holds iff n is at
  most `(cap - 1) * W` (`EveryWorkerToldIff`), and so does that the server stops (`ServerStopsIff`). `CleanTermination`
  covers what was dispatched before the TERMINATE, and not what is accepted later in the same pass of the main loop.
- A dropped SIGCHLD byte loses the deaths it stands for unless another one is on its way. That no run with n other signals
  loses one holds iff n is less than the capacity of the signal pipe (`DeathsKeptIff`). A child that exits before the
  parent's handlers are in place is lost too; `ForgottenStaysForgotten` says what that means.
- A dropped SIGTERM byte leaves children serving. That in every run with n signals, a SIGTERM or SIGINT among them, the pool
  of K serving children stops holds iff n < cap and K + n <= cap + 1 (`PoolStopsIff`).
- In the edge-triggered server a worker closes a descriptor before it takes it out of epoll. If the kernel hands the number
  out in between, the new client can be stranded (`NoStaleReadiness`, `DirtyAcceptStrands`, `ClientsAreStranded`). And if it
  does so while another worker has yet to close the number, that worker closes the new client (`PatientRunsAreHonest`,
  `ImpatientRunsCloseTheWrongOne`, `WrongClientIsClosed`).
- Poll neither stores nor closes a socket that it accepts while its table is full, although its message says that the
  client is disconnected; over any number of rounds that is the only leak (`LeakIff`).

A comment in `TestConn::process` speaks of edge-triggered events, but the pool's children register clients level-triggered
(`server/include/epoll_half_sync_reactive_proc_pool_server.hpp:292`); the model follows the code.

## Model

| member | source | states |
|---|---|---|
| ThreadPoolModel.StepQueue | server/include/libev_half_sync_reactive_thread_pool_server.hpp:158-249 | a worker's queue changes only by the two operations that the queue layer shows to be atomic: the push of an accept and the worker's own try_pop |
| ThreadPoolModel.StepHandOff | server/include/libev_half_sync_reactive_thread_pool_server.hpp:148-169 | every step of any thread keeps: a waiting connection has a drain, a pending send, a NEW byte or a full pipe on the way |
| ThreadPoolModel.StepTerminateOrdered | server/include/libev_half_sync_reactive_thread_pool_server.hpp:268-275 | every step keeps: what was pushed before a TERMINATE byte is out of the queue, or a drain or a NEW byte precedes that byte |
| ThreadPoolModel.RunInv | server/include/libev_half_sync_reactive_thread_pool_server.hpp:143-281 | the protocol invariant holds after every run, for any number of workers and any pipe capacity of at least one byte |
| ThreadPoolTheorems.NoLostHandOff | server/include/libev_half_sync_reactive_thread_pool_server.hpp:148-169 | no reachable state leaves a waiting connection of a running worker without a drain, a pending send or a byte that will wake it, although send drops bytes on a full pipe; the byte is a NEW unless the pipe is full of TERMINATEs, one SIGINT each |
| ThreadPoolTheorems.RunTerminates | server/include/libev_half_sync_reactive_thread_pool_server.hpp:268-275 | along every run a pipe holds at most one TERMINATE byte for each SIGINT handled |
| ThreadPoolTheorems.NewByteKeptIff | server/include/libev_half_sync_reactive_thread_pool_server.hpp:148-274 | the exact condition, for every number of workers and every capacity: every run with n SIGINTs keeps a NEW byte for each waiting connection iff n is less than the capacity |
| ThreadPoolTheorems.StopsClean | server/include/libev_half_sync_reactive_thread_pool_server.hpp:170-177 | at the step in which a worker stops on TERMINATE, all that was pushed before that byte is registered |
| ThreadPoolTheorems.CleanTermination | server/include/libev_half_sync_reactive_thread_pool_server.hpp:155-177 | over every run: a worker that first stops by reading a TERMINATE has registered all connections dispatched before any TERMINATE was sent, in accept order |
| ThreadPoolTheorems.RefinesDispatch | server/include/libev_half_sync_reactive_thread_pool_server.hpp:157-255 | the push/send/recv/try_pop machine refines: the n-th accepted connection is served by worker n mod W, each worker in order |
| ThreadPoolTheorems.NothingLostNothingReordered | server/include/libev_half_sync_reactive_thread_pool_server.hpp:157-167 | in every reachable state nothing dispatched is lost, duplicated or reordered, and each worker served a prefix of its share |
| ThreadPoolTheorems.RunsAreBounded | server/include/libev_half_sync_reactive_thread_pool_server.hpp:148-192 | without new connections, signals and pipe failures every run is bounded by a measure that each step decreases |
| ThreadPoolTheorems.ComesToRest | server/include/libev_half_sync_reactive_thread_pool_server.hpp:148-192 | such a run reaches a state without enabled steps |
| ThreadPoolTheorems.QuiescentStateIsComplete | server/include/libev_half_sync_reactive_thread_pool_server.hpp:148-192 | in a state at rest every worker that was not stopped has an empty queue, an empty pipe and all its connections registered |
| ThreadPoolShutdown.ShareSize | server/include/libev_half_sync_reactive_thread_pool_server.hpp:247-255 | of n accepted connections worker w gets n / W, and one more iff w is below n mod W |
| ThreadPoolShutdown.EveryWorkerToldIff | server/include/libev_half_sync_reactive_thread_pool_server.hpp:268-276 | the exact condition, for every number of workers and every capacity: a SIGINT reaches every worker in every run with n connections iff n connections cannot fill a pipe, n <= (cap - 1) * W |
| ThreadPoolShutdown.SigintStopsTheServer | server/include/libev_half_sync_reactive_thread_pool_server.hpp:170-281 | a SIGINT anywhere in a run with that few connections: at rest every worker has left its loop and so has the main thread |
| ThreadPoolShutdown.ServerStopsIff | server/include/libev_half_sync_reactive_thread_pool_server.hpp:170-281 | the exact condition: every run with n connections and a SIGINT has all threads out of their loops at rest iff n <= (cap - 1) * W |
| ThreadPoolServer.Server.WakeAndMoveOn | server/include/libev_half_sync_reactive_thread_pool_server.hpp:250-255 | NEW is appended to the pipe or dropped when it is full, without a check, and the turn moves on, back to 0 after the last worker |
| ThreadPoolServer.Server.ConnListenerCb | server/include/libev_half_sync_reactive_thread_pool_server.hpp:236-256 | the main thread's actions are exactly the push and the send, with any steps of workers in between |
| ThreadPoolServer.Server.SignalEventCb | server/include/libev_half_sync_reactive_thread_pool_server.hpp:264-281 | exactly one TERMINATE is sent to each worker, then loop exit is requested, with any steps of workers in between |
| ThreadPoolServer.Server.RecvByte | server/include/libev_half_sync_reactive_thread_pool_server.hpp:148-191 | recv reports a failure iff the pipe has failed and EAGAIN iff a healthy pipe is empty, and else gives the oldest byte; the worker is stopped by a failure or a TERMINATE and by nothing else; TERMINATE implies what was sent before it is registered |
| ThreadPoolServer.Server.TryPopConnection | server/include/libev_half_sync_reactive_thread_pool_server.hpp:157-158 | takes the oldest connection, or fails iff the queue is empty |
| ThreadPoolServer.Server.DrainQueue | server/include/libev_half_sync_reactive_thread_pool_server.hpp:155-169 | ends with the queue empty; undisturbed it registers exactly the queued connections in order |
| ThreadPoolServer.Server.MainMsgCb | server/include/libev_half_sync_reactive_thread_pool_server.hpp:143-193 | returns whenever the other threads take finitely many steps: as failed iff its last recv failed, else on an empty pipe with the worker's stop flag untouched and any waiting connection covered by a pending send, or on TERMINATE with all earlier ones registered; undisturbed it ends at the first TERMINATE, or on the empty pipe if there is none, and has registered the whole queue iff a NEW came before that |
| QueueMonitor.StepExclusive | server/include/thread_safe_queue.hpp:52-78 | at most one thread is in a critical section, and it owns the mutex |
| QueueMonitor.StepStillFront | server/include/thread_safe_queue.hpp:73-105 | because of the mutex, a queue found non-empty stays so and a copied front stays the front until its thread removes it |
| QueueMonitor.NoLostWakeup | server/include/thread_safe_queue.hpp:52-78 | no run, for any number of threads and with spurious wakeups, leaves a value and a sleeper with nobody on the way |
| QueueMonitor.StuckMeansWaitingOnEmpty | server/include/thread_safe_queue.hpp:73-78 | when no thread can move, all threads sleep in pop and the queue is empty |
| QueueMonitor.FifoConservation | server/include/thread_safe_queue.hpp:43-105 | over every run of interleaved empty / front / pop / push accesses, contents ++ pushed values == the values callers copied and took ++ contents, in lock order |
| QueueMonitor.Linearizable | server/include/thread_safe_queue.hpp:43-105 | the monitor refines an atomic FIFO object: each operation takes effect at one of its accesses between call and return, and try_pop fails only on an empty queue |
| ThreadSafeQueue.Queue.Copy | server/include/thread_safe_queue.hpp:27-31 | the copy has the contents of the original |
| ThreadSafeQueue.Queue.IsEmpty | server/include/thread_safe_queue.hpp:43-46 | true iff the queue is empty |
| ThreadSafeQueue.Queue.Push | server/include/thread_safe_queue.hpp:52-56 | appends the value |
| ThreadSafeQueue.Queue.TryPop | server/include/thread_safe_queue.hpp:97-105 | takes the oldest value, or reports an empty queue |
| ThreadSafeQueue.Queue.Pop | server/include/thread_safe_queue.hpp:73-78 | under any finite activity of others, takes the oldest value at the first moment there is one, or is still blocked iff there was none |
| ProcTable.Pick | server/include/epoll_half_sync_reactive_proc_pool_server.hpp:367-378 | the child picked is alive unless all are dead, and every entry passed on the cyclic way to it is dead |
| ProcTable.BuriedAllIs | server/include/epoll_half_sync_reactive_proc_pool_server.hpp:393-403 | after a waitpid loop an entry is dead iff it was or its pid was reaped, in any order and with repetitions |
| ProcTable.SignalsKeepTable | server/include/epoll_half_sync_reactive_proc_pool_server.hpp:388-431 | a buffer of signal bytes keeps `_stop` exact, dead entries dead and each pipe end closed at most once |
| ProcTable.BatchKeepsTable | server/include/epoll_half_sync_reactive_proc_pool_server.hpp:363-437 | one round of the event loop keeps `_stop` exact, dispatch balanced and each pipe end closed at most once |
| ProcTable.Pool.Search | server/include/epoll_half_sync_reactive_proc_pool_server.hpp:367-373 | the do-while ends within one pass over the table at the child `Pick` describes |
| ProcTable.Pool.Dispatch | server/include/epoll_half_sync_reactive_proc_pool_server.hpp:366-379 | announces to the first live child in cyclic order and moves the counter behind it, or sets `_stop` iff all are dead |
| ProcTable.Pool.Bury | server/include/epoll_half_sync_reactive_proc_pool_server.hpp:394-402 | closes and marks exactly the entries that name the pid |
| ProcTable.Pool.ScanStop | server/include/epoll_half_sync_reactive_proc_pool_server.hpp:405-410 | set-true-then-reset leaves `_stop` true iff all entries are dead |
| ProcTable.Pool.HandleSigchld | server/include/epoll_half_sync_reactive_proc_pool_server.hpp:390-412 | exactly the entries of the reaped pids are marked, and `_stop` holds iff no live entry is left |
| ProcTable.Pool.HandleTerm | server/include/epoll_half_sync_reactive_proc_pool_server.hpp:420-425 | every pid is sent one SIGTERM for each live entry that names it, and nobody else is sent one |
| ProcTable.Pool.HandleSignals | server/include/epoll_half_sync_reactive_proc_pool_server.hpp:388-432 | the bytes of one recv: entries of the reaped pids are marked, every other entry keeps its pid, and each pid is sent a SIGTERM for each SIGTERM or SIGINT byte that comes before its reaping |
| ProcTable.Pool.RunBatch | server/include/epoll_half_sync_reactive_proc_pool_server.hpp:363-437 | the events of one epoll_wait: marks, SIGTERMs and announcements are what the events demand, although a connection that finds no live child ends the round |
| ProcTable.Pool.RunParent | server/include/epoll_half_sync_reactive_proc_pool_server.hpp:346-438 | over any number of rounds: the entries of exactly the reaped pids are marked and their pipe ends closed once, each connection that finds a live child is announced once, to the child whose turn it is, each pid is sent a SIGTERM for each byte that asks for it before its reaping, `_stop` is exact, and the loop goes on exactly while a child is alive |
| ProcPoolModel.StepOwned | server/include/epoll_half_sync_reactive_proc_pool_server.hpp:210-402 | every step keeps, also between waitpid, close and m_pid = -1: an entry is -1 or about to be iff its child is reaped, else its pid names that child and its pipe end is open, although pids and descriptors are handed out again at any moment |
| ProcPoolTheorems.EveryActionHitsItsOwn | server/include/epoll_half_sync_reactive_proc_pool_server.hpp:369-424 | at any point of any run: a kill hits the unreaped child of its entry, a send goes to an open pipe of its own, a close hits the still open pipe end of a reaped child, and a mark follows that close |
| ProcPoolTheorems.EachEndClosedOnce | server/include/epoll_half_sync_reactive_proc_pool_server.hpp:393-402 | in every run each pipe end is closed at most once, and at a loop head once iff its child is reaped |
| ProcPoolModel.SigchldHandled | server/include/epoll_half_sync_reactive_proc_pool_server.hpp:390-412 | however kernel, handler and children interleave with its statements, the waitpid loop of one SIGCHLD byte does to the table what HandleSigchld does |
| ProcPoolModel.TermHandled | server/include/epoll_half_sync_reactive_proc_pool_server.hpp:420-425 | however they interleave, the kill loop does what HandleTerm does |
| ProcPoolTheorems.StepInv | server/include/epoll_half_sync_reactive_proc_pool_server.hpp:346-438 | every step of parent, kernel, handler and children keeps ownership, single closing, exact `_stop`, balance and the kill loop's sweep |
| ProcPoolTheorems.StopIsFinal | server/include/epoll_half_sync_reactive_proc_pool_server.hpp:355-411 | in every run, at a loop head `_stop` holds iff every child is reaped, and never goes back |
| ProcPoolTheorems.DispatchIsBalanced | server/include/epoll_half_sync_reactive_proc_pool_server.hpp:366-401 | in every reachable state the numbers of announcements to two live children differ by at most one |
| ProcPoolTheorems.EachChildOncePerRound | server/include/epoll_half_sync_reactive_proc_pool_server.hpp:366-379 | between two consecutive announcements of one run to the same child, every child alive at the second is announced to exactly once |
| ProcPoolTheorems.NoDeathForgotten | server/include/epoll_half_sync_reactive_proc_pool_server.hpp:388-403 | over every run with room for SIGCHLD bytes every zombie has a SIGCHLD pending, in the handler, in the pipe, in the buffer or a waitpid loop running, however many deaths one signal stands for and also when epoll_wait fails |
| ProcPoolTheorems.FewSignalsLeaveRoom | server/include/epoll_half_sync_reactive_proc_pool_server.hpp:75-80 | a run with fewer signals other than SIGCHLD than the pipe holds bytes has that room |
| ProcPoolTheorems.DeathsKeptIff | server/include/epoll_half_sync_reactive_proc_pool_server.hpp:75-80 | the exact condition, for every pool whose children outlive the set-up and every capacity: every run with n signals other than SIGCHLD keeps a SIGCHLD on the way to every zombie iff n is less than the capacity |
| ProcPoolTheorems.ForgottenStaysForgotten | server/include/epoll_half_sync_reactive_proc_pool_server.hpp:195-233 | what a lost SIGCHLD costs, dropped or raised before the handlers were in place: until another is raised the child stays a zombie and the parent does not stop |
| ProcPoolShutdown.ShutdownIsBounded | server/include/epoll_half_sync_reactive_proc_pool_server.hpp:355-437 | a run of shutdown steps and of deaths is bounded by a measure that each step of parent, kernel, handler and child decreases |
| ProcPoolShutdown.ShutdownCompletes | server/include/epoll_half_sync_reactive_proc_pool_server.hpp:391-427 | from the moment a SIGTERM or SIGINT is raised and with room for the bytes, a run of shutdown steps, with deaths at any time, is finite, and one that leaves no shutdown step ends with every child reaped and the parent out of its loop |
| ProcPoolShutdown.TerminationStopsThePool | server/include/epoll_half_sync_reactive_proc_pool_server.hpp:346-438 | a SIGTERM or SIGINT anywhere in a run from the start, with room for the bytes and no failing epoll_wait: when no shutdown step is left every child is reaped and the parent out of its loop, although no child has to die by itself |
| ProcPoolShutdown.PoolStopsIff | server/include/epoll_half_sync_reactive_proc_pool_server.hpp:75-80 | the exact condition, for every pool whose children outlive the set-up and every capacity: every run with n signals, a SIGTERM or SIGINT among them, stops the pool iff n is less than the capacity and, if some child is serving, n plus the number of children is at most the capacity plus one |
| ProcPoolShutdown.EndIsReached | server/include/epoll_half_sync_reactive_proc_pool_server.hpp:355-437 | with that much room, some run of shutdown steps without a crash reaches the end from wherever the termination signal finds the pool |
| ProcPoolShutdown.ServesUntilTold | server/include/epoll_half_sync_reactive_proc_pool_server.hpp:388-427 | a child that nobody has told to stop goes on serving through every shutdown step, and the parent stays in its loop |
| SlotTables.RoomIsAFreeSlot | server/include/multi_connection_server.hpp:179-191 | there is a free slot iff fewer clients than slots are served |
| SlotTables.StoredRefines | server/include/multi_connection_server.hpp:178-192 | storing in the first free slot adds exactly the newcomer, or nobody when the table is full, and keeps slots distinct |
| SlotTables.SweepServes | server/include/multi_connection_server.hpp:195-203 | the read loop keeps: the table holds exactly the clients its system calls left open, and only open clients are read or closed |
| SlotTables.SweptClients | server/include/multi_connection_server.hpp:195-203 | the read loop removes exactly the clients whose read closes them |
| SlotTables.HotAreReady | server/include/multi_connection_server.hpp:195-203 | the clients read are exactly the ready ones, each once |
| SlotTables.SweptFates | server/include/multi_connection_server.hpp:195-203 | the read loop, client by client: one that is not hot is left alone, one whose read gives data or EAGAIN is read once and stays, one whose read ends or fails is read, closed once and gone |
| SlotServers.LeakIff | server/include/multi_connection_server.hpp:236-252 | over any number of rounds poll forgets no accepted socket iff no newcomer met a full table |
| SlotServers.RoundMeans | server/include/multi_connection_server.hpp:174-203 | a round of the set machine, client by client: who stays, who goes, who is admitted and who is leaked |
| SlotServers.EventsDone | server/include/multi_connection_server.hpp:174-203 | a whole round refines the set machine, reads exactly the clients ready before the accept, and keeps the calls legal |
| SlotServers.SelectReports | server/include/multi_connection_server.hpp:174-203 | select: the newcomer is not read in its own round because its descriptor differs from every watched one |
| SlotServers.PollReports | server/include/multi_connection_server.hpp:234-263 | poll: the newcomer is not read in its own round because its slot's revents were zeroed |
| SlotServers.SelectServer.Watch | server/include/multi_connection_server.hpp:146-152 | watches exactly the listener and the clients, and `maxfd` dominates every slot |
| SlotServers.SelectServer.Admit | server/include/multi_connection_server.hpp:178-191 | first free slot, or closed at once when there is none |
| SlotServers.SelectServer.Sweep | server/include/multi_connection_server.hpp:195-203 | reads each reported slot and frees those that end, which `SweptFates` spells out |
| SlotServers.SelectServer.RunRound | server/include/multi_connection_server.hpp:144-204 | one round implements the bounded-set machine with 127 clients; each client, by what its read gives: data or EAGAIN leaves it served with no close, end or failure takes it out with exactly one close, and one that is not ready is neither read nor closed; a newcomer gets a slot or is closed at once |
| SlotServers.SelectServer.Serve | server/include/multi_connection_server.hpp:144-205 | any number of rounds: slots hold exactly the accepted and not closed clients, each closed at most once |
| SlotServers.PollServer.Poll | server/include/multi_connection_server.hpp:221 | poll rewrites every revents, zero for a negative fd |
| SlotServers.PollServer.Admit | server/include/multi_connection_server.hpp:238-251 | first free slot with its revents untouched; forgotten when there is none |
| SlotServers.PollServer.Sweep | server/include/multi_connection_server.hpp:255-263 | reads each slot with POLLIN and frees those that end, which `SweptFates` spells out |
| SlotServers.PollServer.RunRound | server/include/multi_connection_server.hpp:217-264 | one round implements the same machine with 1023 clients; each client, by what its read gives: data or EAGAIN leaves it served with no close, end or failure takes it out with exactly one close, and one that is not ready is neither read nor closed; a newcomer gets a slot or is forgotten |
| SlotServers.PollServer.Serve | server/include/multi_connection_server.hpp:217-265 | any number of rounds: open sockets are exactly the served clients and the leaked ones, and none is leaked iff no newcomer met a full table |
| EdgeTriggered.NoStaleReadiness | server/include/multi_connection_server.hpp:326-349 | over every run in which the number is handed out only without an outstanding DEL, unread bytes or EOF have an edge, a batch entry, a task, a draining worker or one that has read the end of this very connection, with any number of workers on one descriptor |
| EdgeTriggered.DirtyAcceptStrands | server/include/multi_connection_server.hpp:334-373 | and only then: whenever the number can be handed out with a DEL outstanding, some run strands the new client |
| EdgeTriggered.ClientsAreStranded | server/include/multi_connection_server.hpp:334-373 | such a state is reachable, so some run from the start strands a client |
| EdgeTriggered.PatientRunsAreHonest | server/include/multi_connection_server.hpp:332-373 | over every run that never hands the number out while a worker has yet to close it, no worker closes a client whose end nobody has read |
| EdgeTriggered.ImpatientRunsCloseTheWrongOne | server/include/multi_connection_server.hpp:332-373 | and only in those: any other run has a point after which the next close hits such a client |
| EdgeTriggered.WrongClientIsClosed | server/include/multi_connection_server.hpp:332-373 | a run from the start that does so, even with every DEL done before the number is handed out |
| EdgeTriggered.Worker.Recv | server/include/multi_connection_server.hpp:329-346 | recv gives bytes iff there are some, EAGAIN iff a healthy open connection has nothing to read and no end, and else the end or the error, each with its exact effect |
| EdgeTriggered.Worker.CloseAndForget | server/include/multi_connection_server.hpp:370-374 | close first, DEL and erase later, with others in between |
| EdgeTriggered.Worker.EpMsgWorker | server/include/multi_connection_server.hpp:322-377 | the drain loop ends whenever the others take finitely many steps, on EAGAIN only with nothing left to read, and with a close only when its last recv failed or some recv saw the end; undisturbed and without failure it keeps the connection iff it is open and the peer has not closed; nobody is left unattended |
| MultiClient.Split | client/include/libevent_no_block_client.hpp:116-125 | each thread gets the quotient, the first remainder threads one more; the counts sum to the clients and differ by at most one |
| MultiClient.SplitIsExactIff | client/include/libevent_no_block_client.hpp:117-125 | for any int the counts sum to client_count iff it is not negative or divides evenly |
| MultiClient.StepInv | client/include/libevent_no_block_client.hpp:42-50 | each increment and each load keeps: completion is seen only at the total, and once per thread |
| MultiClient.CompletionIsSeen | client/include/libevent_no_block_client.hpp:42-50 | however callbacks interleave, completion is announced by at least one and at most every thread, never before the last increment |
| MultiClient.UpperBoundIsReached | client/include/libevent_no_block_client.hpp:42-50 | however the replies are spread, the number of threads with a reply to come is the exact maximum of the number that announce completion |

## Left out

- Sockets, epoll, libevent, boost.asio and fork themselves: their effects are the kernel steps of the models.
- Logging, sleeping, address parsing, socket options, resource limits and command lines: no coordination depends on them.
- `simple_tcp_server.hpp`, `simple_file_down_server.hpp`, `simple_tcp_client.hpp`, `libev_multi_con_server.hpp`, `tools.hpp` and
  the `main.cpp` files: straight-line system calls, or the same loops with easier claims.
- The `shared_ptr` overloads of `pop` and `try_pop`, which nothing here calls, and the queue's move constructor, whose effect on
  the queue moved from depends on the library.
- The thread pool's set-up loop and the process pool's fork loop: the models start from the state they leave behind.
- A worker's exit closes its end of the pipe; the SIGPIPE that a later send would raise in the main thread is not modelled.
- The accept, recv and reply loops of the pool's children: a child is modelled by its life, its reaction to SIGTERM and its death;
  its own signal pipe holds only bytes that stop it, so it is not modelled byte by byte.
- `ep_fds` of the epoll server: its size only decides whether a newcomer is refused, which the model leaves open.
- Several descriptor numbers at once in the epoll server: numbers do not affect each other except through the main thread's order.
- Level-triggered epoll: no readiness can be lost there, so its claims would be easier ones.
- ShutdownCompletes: assumes room for SIGCHLD and SIGTERM bytes and no failing epoll_wait, because a lost signal or a broken loop does leave children behind.
- Which signals have a handler: the pool installs it for SIGCHLD, SIGTERM and SIGINT; the model also lets bytes of other signals arrive.
- RunParent: waitpid's results are given per SIGCHLD byte; when the kernel may return them is the subject of ProcPoolModel.
- Pop: the other threads' operations are whole critical sections; how they interleave under the mutex is the subject of QueueMonitor.
- EpMsgWorker: what recv, close and epoll_ctl do is a step of the kernel's record of the descriptor, not of fields of the program.
- Pool: the array of Process objects is kept as two arrays, one of pids and one of pipe ends.
