/**
 The parent of the process pool together with the kernel and its children: child deaths at any time, SIGCHLDs that the
 kernel merges, a signal handler that may run between any two steps of the parent and writes one byte to a
 non-blocking pipe, waitpid loops, pids and file descriptors that the kernel hands out again, and the shutdown.
 */
module ProcPoolModel {
  import opened Common
  import opened ProcTable

  /** How far a child is on its way out after a SIGTERM. */
  datatype Stage = Serving | TermPending | TermInPipe | Leaving

  datatype Kid = Alive(stage: Stage) | Zombie | Reaped

  datatype Proc = Child(k: nat) | Stranger

  datatype FdUse = PipeEnd(k: nat) | OtherFile

  datatype Ev = ListenReady | SignalsReady

  /** Where the parent stands in its event loop. */
  datatype Pc =
    | Head                                          // at `while (!_stop)`
    | Waiting                                       // in epoll_wait
    | Batch(evs: seq<Ev>)                           // events still to be looked at
    | Bytes(buf: seq<Sig>, evs: seq<Ev>)            // bytes read from the signal pipe, still to be handled
    | Reaping(buf: seq<Sig>, evs: seq<Ev>)          // in the waitpid loop, before a call of waitpid
    | Burying(pid: int, k: nat, closed: bool, buf: seq<Sig>, evs: seq<Ev>)
                                                    // looking for pid's entry, at k; `closed`: its pipe end is closed
    | Killing(k: nat, buf: seq<Sig>, evs: seq<Ev>)  // in the kill loop
    | Out                                           // left the loop because `_stop` was set
    | Broken                                        // left the loop because epoll_wait failed

  datatype State = State(
    kids: seq<Kid>,
    procs: map<int, Proc>,        // the kernel's processes; zombies keep their pid
    files: map<int, FdUse>,       // the parent's open file descriptors
    fds: seq<int>,                // m_pipefd[0] of each entry
    table: Table,
    pc: Pc,
    pending: set<Sig>,            // signals pending for the parent; a second one of a kind merges into the first
    handler: Option<Sig>,         // the handler is running and has not sent its byte yet
    sigpipe: seq<Sig>,
    cap: nat)

  const BUFFER := 1024

  datatype Event =
    | Dies(k: nat)                // a child exits for whatever reason
    | KidShutsDown(k: nat)        // a child takes the next step of its reaction to SIGTERM
    | Signalled(sig: Sig)         // somebody sends the parent a signal
    | Deliver(sig: Sig)           // the handler starts; it blocks all signals
    | HandlerSends                // the handler writes its byte, or the byte is dropped because the pipe is full
    | Spawns(pid: int)            // an unrelated process gets a free pid
    | Exits(pid: int)             // an unrelated process goes away
    | Opens(fd: int)              // something else in the parent gets a free descriptor number
    | EpollReturns(evs: seq<Ev>)
    | EpollFails
    | WaitPid(pid: int)           // waitpid returns this zombie
    | Parent                      // any other next step of the parent's loop

  predicate Shaped(s: State) {
    var n := |s.kids|;
    && 0 < n <= MAX_PROCESS_NUMBER && s.cap > 0
    && |s.fds| == n && |s.table.pids| == n && s.table.counter < n
    && (s.pc.Killing? || s.pc.Burying? ==> s.pc.k <= n)
  }

  predicate NoZombie(s: State) {
    Zombie !in s.kids
  }

  predicate Once(evs: seq<Ev>) {
    |evs| <= 2 && forall i, j :: 0 <= i < j < |evs| ==> evs[i] != evs[j]
  }

  /** epoll_wait reports each ready descriptor once, and the signal pipe whenever there is something in it. */
  predicate EpollMayReturn(s: State, evs: seq<Ev>) {
    evs != [] && Once(evs) && (SignalsReady in evs <==> s.sigpipe != [])
  }

  predicate Enabled(s: State, e: Event)
    requires Shaped(s)
  {
    match e
    case Dies(k) => k < |s.kids| && s.kids[k].Alive?
    case KidShutsDown(k) => k < |s.kids| && s.kids[k].Alive? && s.kids[k].stage != Serving
    case Signalled(_) => true
    case Deliver(sig) => sig in s.pending && s.handler == None && !s.pc.Out? && !s.pc.Broken?
    case HandlerSends => s.handler.Some?
    case Spawns(pid) => pid !in s.procs && pid > 0
    case Exits(pid) => pid in s.procs && s.procs[pid] == Stranger
    case Opens(fd) => fd !in s.files
    case EpollReturns(evs) => s.handler == None && s.pc == Waiting && EpollMayReturn(s, evs)
    case EpollFails => s.handler == None && s.pc == Waiting
    case WaitPid(pid) =>
      && s.handler == None && s.pc.Reaping?
      && pid in s.procs && s.procs[pid].Child? && s.procs[pid].k < |s.kids| && s.kids[s.procs[pid].k] == Zombie
    case Parent =>
      s.handler == None && match s.pc
                           case Waiting => false
                           case Reaping(_, _) => NoZombie(s)
                           case Out => false
                           case Broken => false
                           case _ => true
  }

  /** The kernel's reaction to the death of child k: a zombie, and a SIGCHLD for the parent. */
  function Died(s: State, k: nat): State
    requires k < |s.kids|
  {
    s.(kids := s.kids[k := Zombie], pending := s.pending + {SigChld})
  }

  /** kill(pid, SIGTERM): a child that is still serving has it pending now. */
  function Killed(s: State, pid: int): State
    requires Shaped(s)
  {
    if pid in s.procs && s.procs[pid].Child? && s.procs[pid].k < |s.kids| && s.kids[s.procs[pid].k] == Alive(Serving)
    then s.(kids := s.kids[s.procs[pid].k := Alive(TermPending)])
    else s
  }

  /** A byte for sig, unless the pipe is full; an interrupted epoll_wait returns EINTR. */
  function HandlerSent(s: State): State
    requires s.handler.Some?
  {
    s.(handler := None,
       sigpipe := if |s.sigpipe| < s.cap then s.sigpipe + [s.handler.value] else s.sigpipe,
       pc := if s.pc == Waiting then Head else s.pc)
  }

  /** waitpid returns: the kernel forgets the child, and the parent starts to look for its entry. */
  function Waited(s: State, pid: int): State
    requires Shaped(s) && s.pc.Reaping? && pid in s.procs && s.procs[pid].Child? && s.procs[pid].k < |s.kids|
  {
    s.(kids := s.kids[s.procs[pid].k := Reaped], procs := s.procs - {pid},
       pc := Burying(pid, 0, false, s.pc.buf, s.pc.evs))
  }

  /** The next statement of the loop that looks for the entry of a reaped pid: compare, close or mark. */
  function BuryStep(s: State): State
    requires Shaped(s) && s.pc.Burying?
  {
    var Burying(pid, k, closed, buf, evs) := s.pc;
    if k == |s.kids| then s.(pc := Reaping(buf, evs))
    else if closed then
      s.(table := s.table.(pids := s.table.pids[k := DEAD]), pc := Burying(pid, k + 1, false, buf, evs))
    else if s.table.pids[k] == pid then
      s.(files := s.files - {s.fds[k]}, table := s.table.(closed := s.table.closed + [s.fds[k]]),
         pc := Burying(pid, k, true, buf, evs))
    else s.(pc := Burying(pid, k + 1, false, buf, evs))
  }

  function ParentStep(s: State): State
    requires Shaped(s) && Enabled(s, Parent)
  {
    match s.pc
    case Head => s.(pc := if s.table.stop then Out else Waiting)
    case Batch(evs) =>
      if evs == [] then s.(pc := Head)
      else if evs[0] == ListenReady then
        if AllDead(s.table.pids) then s.(table := s.table.(stop := true), pc := Head)
        else s.(table := Announced(s.table), pc := Batch(evs[1..]))
      else if s.sigpipe == [] then s.(pc := Batch(evs[1..]))
      else
        var m := if |s.sigpipe| < BUFFER then |s.sigpipe| else BUFFER;
        s.(sigpipe := s.sigpipe[m..], pc := Bytes(s.sigpipe[..m], evs[1..]))
    case Bytes(buf, evs) =>
      if buf == [] then s.(pc := Batch(evs))
      else
        (match buf[0]
         case SigChld => s.(pc := Reaping(buf[1..], evs))
         case SigOther => s.(pc := Bytes(buf[1..], evs))
         case _ => s.(pc := Killing(0, buf[1..], evs)))
    case Reaping(buf, evs) =>
      s.(table := s.table.(stop := AllDead(s.table.pids)), pc := Bytes(buf, evs))
    case Burying(_, _, _, _, _) => BuryStep(s)
    case Killing(k, buf, evs) =>
      if k == |s.kids| then s.(pc := Bytes(buf, evs))
      else
        var pid := s.table.pids[k];
        if pid == DEAD then s.(pc := Killing(k + 1, buf, evs))
        else Killed(s, pid).(table := s.table.(killed := s.table.killed + [pid]), pc := Killing(k + 1, buf, evs))
    case _ => s
  }

  function Apply(s: State, e: Event): (t: State)
    requires Shaped(s) && Enabled(s, e)
    ensures Shaped(t) && |t.kids| == |s.kids| && t.cap == s.cap && t.fds == s.fds
  {
    match e
    case Dies(k) => Died(s, k)
    case KidShutsDown(k) =>
      (match s.kids[k].stage
       case TermPending => s.(kids := s.kids[k := Alive(TermInPipe)])
       case TermInPipe => s.(kids := s.kids[k := Alive(Leaving)])
       case _ => Died(s, k))
    case Signalled(sig) => s.(pending := s.pending + {sig})
    case Deliver(sig) => s.(pending := s.pending - {sig}, handler := Some(sig))
    case HandlerSends => HandlerSent(s)
    case Spawns(pid) => s.(procs := s.procs[pid := Stranger])
    case Exits(pid) => s.(procs := s.procs - {pid})
    case Opens(fd) => s.(files := s.files[fd := OtherFile])
    case EpollReturns(evs) => s.(pc := Batch(evs))
    case EpollFails => s.(pc := Broken)
    case WaitPid(pid) => Waited(s, pid)
    case Parent => ParentStep(s)
  }

  predicate Legal(s: State, tr: seq<Event>)
    requires Shaped(s)
    decreases |tr|
  {
    tr == [] || (Enabled(s, tr[0]) && Legal(Apply(s, tr[0]), tr[1..]))
  }

  function Exec(s: State, tr: seq<Event>): (t: State)
    requires Shaped(s) && Legal(s, tr)
    ensures Shaped(t) && |t.kids| == |s.kids|
    decreases |tr|
  {
    if tr == [] then s else Exec(Apply(s, tr[0]), tr[1..])
  }

  /** The parent enters its loop after the forks: a table of distinct pids and pipe ends, and the handlers in place. */
  predicate Starts(s: State) {
    && Shaped(s)
    && s.table == Table(s.table.pids, 0, false, [], [], [])
    && Distinct(s.table.pids) && Distinct(s.fds)
    && (forall k :: 0 <= k < |s.kids| ==>
          && s.table.pids[k] > 0 && s.kids[k] != Reaped
          && s.table.pids[k] in s.procs && s.procs[s.table.pids[k]] == Child(k)
          && s.fds[k] in s.files && s.files[s.fds[k]] == PipeEnd(k))
    && (forall pid :: pid in s.procs && s.procs[pid].Child? ==>
          s.procs[pid].k < |s.kids| && s.table.pids[s.procs[pid].k] == pid)
    && (forall fd :: fd in s.files && s.files[fd].PipeEnd? ==>
          s.files[fd].k < |s.kids| && s.fds[s.files[fd].k] == fd)
    && DEAD !in s.procs
    && s.pc == Head && s.pending == {} && s.handler == None && s.sigpipe == []
  }

  // ---------------------------------------------------------------------------------------------------------
  // Ownership of pids and pipe ends.

  /** Entry k names a pid that waitpid has returned already; the kernel may hand that pid out again. */
  predicate Stale(s: State, k: nat)
    requires Shaped(s) && k < |s.kids|
  {
    s.pc.Burying? && s.pc.k <= k && s.table.pids[k] == s.pc.pid
  }

  /** Entry k names a descriptor that is closed already; the kernel may hand that descriptor out again. */
  predicate Closing(s: State, k: nat) {
    s.pc.Burying? && s.pc.closed && s.pc.k == k
  }

  /** A reaped pid has no entry behind the loop that looks for it, and at most one before it. */
  predicate Burial(s: State)
    requires Shaped(s)
  {
    s.pc.Burying? ==>
      && s.pc.pid != DEAD
      && (forall i :: 0 <= i < s.pc.k ==> s.table.pids[i] != s.pc.pid)
      && (forall i, j :: 0 <= i < j < |s.kids| ==> s.table.pids[i] != s.pc.pid || s.table.pids[j] != s.pc.pid)
      && (s.pc.closed ==> s.pc.k < |s.kids| && s.table.pids[s.pc.k] == s.pc.pid)
  }

  /** The entry of an unreaped child names that child, and no other process is taken for a child. */
  predicate OwnPids(s: State)
    requires Shaped(s)
  {
    && (forall k :: 0 <= k < |s.kids| ==> (s.kids[k] == Reaped <==> s.table.pids[k] == DEAD || Stale(s, k)))
    && (forall k :: 0 <= k < |s.kids| && s.kids[k] != Reaped ==>
          s.table.pids[k] in s.procs && s.procs[s.table.pids[k]] == Child(k))
    && (forall pid :: pid in s.procs && s.procs[pid].Child? ==>
          var k := s.procs[pid].k; k < |s.kids| && s.kids[k] != Reaped && s.table.pids[k] == pid)
    && DEAD !in s.procs
  }

  /** The pipe end of an entry that is not marked is open, but for the moment between its close and its mark. */
  predicate OwnEnds(s: State)
    requires Shaped(s)
  {
    && (forall k :: 0 <= k < |s.kids| && s.table.pids[k] != DEAD && !Closing(s, k) ==>
          s.fds[k] in s.files && s.files[s.fds[k]] == PipeEnd(k))
    && (forall fd :: fd in s.files && s.files[fd].PipeEnd? ==>
          var k := s.files[fd].k; k < |s.kids| && s.table.pids[k] != DEAD && !Closing(s, k) && s.fds[k] == fd)
  }

  predicate Owned(s: State)
    requires Shaped(s)
  {
    Burial(s) && OwnPids(s) && OwnEnds(s)
  }

  /** Each pipe end is closed once when its entry is marked or about to be, and not at all before. */
  predicate ClosedOnceSoFar(s: State)
    requires Shaped(s)
  {
    forall k :: 0 <= k < |s.fds| ==>
      Times(s.table.closed, s.fds[k]) == if s.table.pids[k] == DEAD || Closing(s, k) then 1 else 0
  }

  lemma WaitedOwned(s: State, pid: int)
    requires Shaped(s) && Owned(s) && Enabled(s, WaitPid(pid))
    ensures Owned(Waited(s, pid))
  {
    var t := Waited(s, pid);
    var j := s.procs[pid].k;
    forall i | 0 <= i < |s.kids| && s.table.pids[i] == pid
      ensures i == j
    {
    }
    assert t.kids == s.kids[j := Reaped];
    assert forall k :: 0 <= k < |s.kids| ==> (Stale(t, k) <==> k == j);
    assert OwnPids(t);
  }

  lemma BuryOwned(s: State)
    requires Shaped(s) && Owned(s) && s.pc.Burying?
    ensures Owned(BuryStep(s))
  {
    BuryPids(s);
    BuryEnds(s);
  }

  lemma BuryPids(s: State)
    requires Shaped(s) && Burial(s) && OwnPids(s) && s.pc.Burying?
    ensures Burial(BuryStep(s)) && OwnPids(BuryStep(s))
  {
    var t := BuryStep(s);
    assert t.kids == s.kids && t.procs == s.procs;
    forall k | 0 <= k < |s.kids|
      ensures t.table.pids[k] == DEAD || Stale(t, k) <==> s.table.pids[k] == DEAD || Stale(s, k)
    {
    }
  }

  lemma BuryEnds(s: State)
    requires Shaped(s) && Burial(s) && OwnEnds(s) && s.pc.Burying?
    ensures OwnEnds(BuryStep(s))
  {
  }

  /** Everything that ownership is about is the same in both states. */
  predicate SameOwnership(s: State, t: State)
    requires Shaped(s) && Shaped(t)
  {
    && |t.kids| == |s.kids| && t.fds == s.fds && t.files == s.files && t.procs == s.procs
    && t.table.pids == s.table.pids && t.table.closed == s.table.closed
    && (t.pc == s.pc || (!s.pc.Burying? && !t.pc.Burying?))
    && forall k :: 0 <= k < |s.kids| ==> (t.kids[k] == Reaped <==> s.kids[k] == Reaped)
  }

  lemma ParentStepLeavesOwnership(s: State)
    requires Shaped(s) && Enabled(s, Parent) && !s.pc.Burying?
    ensures SameOwnership(s, Apply(s, Parent))
  {
    if s.pc.Killing? {
      KillLeavesOwnership(s);
    }
  }

  lemma KillLeavesOwnership(s: State)
    requires Shaped(s) && Enabled(s, Parent) && s.pc.Killing?
    ensures SameOwnership(s, Apply(s, Parent))
  {
  }

  lemma OtherStepLeavesOwnership(s: State, e: Event)
    requires Shaped(s) && Enabled(s, e) && e != Parent && !e.WaitPid? && !e.Spawns? && !e.Exits? && !e.Opens?
    ensures SameOwnership(s, Apply(s, e))
  {
  }

  lemma SameStaysOwned(s: State, t: State)
    requires Shaped(s) && Shaped(t) && Owned(s) && SameOwnership(s, t)
    ensures Owned(t)
  {
    assert forall k :: 0 <= k < |s.kids| ==> (Stale(t, k) <==> Stale(s, k));
    assert OwnPids(t);
  }

  /** A pid or descriptor that the kernel hands out is no child's and no pipe end's, also during a burial. */
  lemma KernelOwned(s: State, e: Event)
    requires Shaped(s) && Owned(s) && Enabled(s, e) && (e.Spawns? || e.Exits? || e.Opens?)
    ensures Owned(Apply(s, e))
  {
    var t := Apply(s, e);
    assert t.kids == s.kids && t.table == s.table && t.pc == s.pc && t.fds == s.fds;
    assert forall k :: 0 <= k < |s.kids| ==> (Stale(t, k) <==> Stale(s, k));
    assert OwnPids(t);
  }

  lemma StepOwned(s: State, e: Event)
    requires Shaped(s) && Owned(s) && Enabled(s, e)
    ensures Owned(Apply(s, e))
  {
    hide Owned;
    if e.WaitPid? {
      WaitedOwned(s, e.pid);
    } else if e == Parent && s.pc.Burying? {
      BuryOwned(s);
    } else if e.Spawns? || e.Exits? || e.Opens? {
      KernelOwned(s, e);
    } else {
      if e == Parent {
        ParentStepLeavesOwnership(s);
      } else {
        OtherStepLeavesOwnership(s, e);
      }
      SameStaysOwned(s, Apply(s, e));
    }
  }

  lemma StepClosedOnce(s: State, e: Event)
    requires Shaped(s) && Burial(s) && ClosedOnceSoFar(s) && Distinct(s.fds) && Enabled(s, e)
    ensures ClosedOnceSoFar(Apply(s, e))
  {
    var t := Apply(s, e);
    if e == Parent && s.pc.Burying? {
      forall k | 0 <= k < |s.fds|
        ensures Times(t.table.closed, s.fds[k]) == if t.table.pids[k] == DEAD || Closing(t, k) then 1 else 0
      {
        if t.table.closed != s.table.closed {
          TimesOne(s.table.closed, s.fds[s.pc.k], s.fds[k]);
          assert s.fds[k] == s.fds[s.pc.k] <==> k == s.pc.k;
        }
      }
    } else if e == Parent {
      ParentStepLeavesOwnership(s);
    } else {
      OthersLeaveEntries(s, e);
    }
  }

  lemma OthersLeaveEntries(s: State, e: Event)
    requires Shaped(s) && Enabled(s, e) && e != Parent
    ensures var t := Apply(s, e); t.table == s.table && forall k :: Closing(t, k) <==> Closing(s, k)
  {
  }

  /**
   What the step does to pids and descriptors hits what it is meant for: a kill hits the child of that entry, a
   connection is announced on an open pipe of its own, a close closes the pipe of an entry whose child is reaped, and an
   entry is marked when its child is reaped and its pipe closed.
   */
  predicate HitsItsOwn(s: State, e: Event)
    requires Shaped(s) && Enabled(s, e)
  {
    var t := Apply(s, e);
    && (t.table.killed != s.table.killed ==>
          exists k :: 0 <= k < |s.kids| && t.table.killed == s.table.killed + [s.table.pids[k]]
            && s.kids[k] != Reaped && s.table.pids[k] in s.procs && s.procs[s.table.pids[k]] == Child(k))
    && (t.table.sent != s.table.sent ==>
          exists k :: 0 <= k < |s.kids| && t.table.sent == s.table.sent + [k]
            && s.kids[k] != Reaped && s.fds[k] in s.files && s.files[s.fds[k]] == PipeEnd(k))
    && (t.table.closed != s.table.closed ==>
          exists k :: 0 <= k < |s.kids| && t.table.closed == s.table.closed + [s.fds[k]]
            && s.kids[k] == Reaped && s.table.pids[k] != DEAD && s.fds[k] in s.files && s.files[s.fds[k]] == PipeEnd(k))
    && (t.table.pids != s.table.pids ==>
          exists k :: 0 <= k < |s.kids| && t.table.pids == s.table.pids[k := DEAD]
            && s.kids[k] == Reaped && Closing(s, k))
  }

  lemma BurialHitsItsOwn(s: State)
    requires Shaped(s) && Owned(s) && Enabled(s, Parent) && s.pc.Burying?
    ensures HitsItsOwn(s, Parent)
  {
    var t := Apply(s, Parent);
    if t.table != s.table {
      assert Stale(s, s.pc.k);
      assert s.pc.closed <==> Closing(s, s.pc.k);
    }
  }

  lemma KillHitsItsOwn(s: State)
    requires Shaped(s) && Owned(s) && Enabled(s, Parent) && s.pc.Killing?
    ensures HitsItsOwn(s, Parent)
  {
    KillLeavesOwnership(s);
    if s.pc.k < |s.kids| && s.table.pids[s.pc.k] != DEAD {
      var k := s.pc.k;
      assert s.kids[k] != Reaped && s.table.pids[k] in s.procs && s.procs[s.table.pids[k]] == Child(k);
    }
  }

  lemma SendHitsItsOwn(s: State)
    requires Shaped(s) && Owned(s) && Enabled(s, Parent) && !s.pc.Killing? && !s.pc.Burying?
    ensures HitsItsOwn(s, Parent)
  {
    ParentStepLeavesOwnership(s);
    if !AllDead(s.table.pids) {
      var k := Pick(s.table.pids, s.table.counter);
      assert s.kids[k] != Reaped && s.fds[k] in s.files && s.files[s.fds[k]] == PipeEnd(k);
    }
  }

  lemma ActsOnItsOwn(s: State, e: Event)
    requires Shaped(s) && Owned(s) && Enabled(s, e)
    ensures HitsItsOwn(s, e)
  {
    if e != Parent {
      OthersLeaveEntries(s, e);
    } else if s.pc.Burying? {
      BurialHitsItsOwn(s);
    } else if s.pc.Killing? {
      KillHitsItsOwn(s);
    } else {
      SendHitsItsOwn(s);
    }
  }

  // ---------------------------------------------------------------------------------------------------------
  // The loops of ProcTable.Pool, with the kernel, the handler and the children stepping in between.

  /** What waitpid returned along a run. */
  function WaitedPids(tr: seq<Event>): seq<int> {
    if tr == [] then []
    else (if tr[0].WaitPid? then [tr[0].pid] else []) + WaitedPids(tr[1..])
  }

  predicate InWaitLoop(pc: Pc) {
    pc.Reaping? || pc.Burying?
  }

  predicate InSignalLoop(pc: Pc) {
    InWaitLoop(pc) || pc.Killing?
  }

  /** Steps that are not the parent's leave its table and its place in a loop over it alone. */
  lemma OthersLeaveTable(s: State, e: Event)
    requires Shaped(s) && Enabled(s, e) && e != Parent && !e.WaitPid? && InSignalLoop(s.pc)
    ensures Apply(s, e).table == s.table && Apply(s, e).pc == s.pc
  {
  }

  /** The run is what happens from inside the waitpid loop to the step that leaves it. */
  predicate LeavesWaitLoop(s: State, tr: seq<Event>)
    requires Shaped(s) && Legal(s, tr)
    decreases |tr|
  {
    && InWaitLoop(s.pc) && tr != []
    && (if |tr| == 1 then !InWaitLoop(Apply(s, tr[0]).pc) else LeavesWaitLoop(Apply(s, tr[0]), tr[1..]))
  }

  /** The table as it will be when the burial in progress is done. */
  function Completed(s: State): Table
    requires Shaped(s) && Burial(s)
  {
    if s.pc.Burying? then
      Buried(if s.pc.closed then s.table.(pids := s.table.pids[s.pc.k := DEAD]) else s.table, s.fds, s.pc.pid)
    else s.table
  }

  /** Closing the pipe of the first entry of pid and marking it is the first part of burying pid. */
  lemma {:induction false} ClosedForHead(pids: seq<int>, fds: seq<int>, pid: int, k: nat, n: nat)
    requires n <= |pids| == |fds| && k < |pids| && pids[k] == pid != DEAD
    requires forall i :: 0 <= i < k ==> pids[i] != pid
    ensures ClosedFor(pids, fds, pid, n) == (if k < n then [fds[k]] else []) + ClosedFor(pids[k := DEAD], fds, pid, n)
  {
    if n > 0 {
      ClosedForHead(pids, fds, pid, k, n - 1);
      var before, after := ClosedFor(pids, fds, pid, n - 1), ClosedFor(pids[k := DEAD], fds, pid, n - 1);
      if n - 1 < k {
        assert ClosedFor(pids, fds, pid, n) == before + [] == [] + (after + []);
      } else if n - 1 == k {
        ClosedForNone(pids[k := DEAD], fds, pid, n);
        ClosedForNone(pids, fds, pid, n - 1);
        assert ClosedFor(pids, fds, pid, n) == [] + [fds[k]] == [fds[k]] + [];
      } else {
        var last := if pids[n - 1] == pid then [fds[n - 1]] else [];
        assert ([fds[k]] + after) + last == [fds[k]] + (after + last);
      }
    }
  }

  lemma {:induction false} ClosedForNone(pids: seq<int>, fds: seq<int>, pid: int, n: nat)
    requires n <= |pids| == |fds| && forall i :: 0 <= i < n ==> pids[i] != pid
    ensures ClosedFor(pids, fds, pid, n) == []
  {
    if n > 0 {
      ClosedForNone(pids, fds, pid, n - 1);
    }
  }

  lemma BuryCompletes(s: State)
    requires Shaped(s) && Burial(s) && s.pc.Burying?
    requires Burial(BuryStep(s))
    ensures Completed(BuryStep(s)) == Completed(s)
  {
    var k, pid := s.pc.k, s.pc.pid;
    var t := s.table;
    if k == |s.kids| {
      ClosedForNone(t.pids, s.fds, pid, |s.fds|);
      assert MarkDead(t.pids, pid) == t.pids;
    } else if !s.pc.closed && t.pids[k] == pid {
      ClosedForHead(t.pids, s.fds, pid, k, |s.fds|);
      assert MarkDead(t.pids[k := DEAD], pid) == MarkDead(t.pids, pid);
      assert t.closed + ([s.fds[k]] + ClosedFor(t.pids[k := DEAD], s.fds, pid, |s.fds|))
          == t.closed + [s.fds[k]] + ClosedFor(t.pids[k := DEAD], s.fds, pid, |s.fds|);
    }
  }

  /** One step of the waitpid loop that does not leave it. */
  lemma WaitLoopStep(s: State, e: Event)
    requires Shaped(s) && Owned(s) && InWaitLoop(s.pc) && Enabled(s, e) && InWaitLoop(Apply(s, e).pc)
    ensures var t := Apply(s, e);
            && Owned(t) && t.pc.buf == s.pc.buf && t.pc.evs == s.pc.evs
            && Completed(t) == if e.WaitPid? then Buried(Completed(s), s.fds, e.pid) else Completed(s)
  {
    StepOwned(s, e);
    if e == Parent {
      BuryCompletes(s);
    } else if !e.WaitPid? {
      OthersLeaveTable(s, e);
    }
  }

  /** The rest of the waitpid loop, however it is interleaved. */
  lemma {:induction false} WaitLoopHandled(s: State, tr: seq<Event>)
    requires Shaped(s) && Owned(s) && Legal(s, tr) && LeavesWaitLoop(s, tr)
    ensures var t := Exec(s, tr);
            && t.table == AfterSignal(Completed(s), s.fds, SigByte(SigChld, WaitedPids(tr)))
            && t.pc == Bytes(s.pc.buf, s.pc.evs)
    decreases |tr|
  {
    hide Owned;
    var e, rest := tr[0], tr[1..];
    if |tr| == 1 {
      assert rest == [] && WaitedPids(rest) == [];
      if e != Parent && !e.WaitPid? {
        OthersLeaveTable(s, e);
      }
      assert e == Parent && s.pc.Reaping?;
    } else {
      WaitLoopStep(s, e);
      WaitLoopHandled(Apply(s, e), rest);
      if e.WaitPid? {
        assert ([e.pid] + WaitedPids(rest))[1..] == WaitedPids(rest);
      } else {
        assert WaitedPids(tr) == WaitedPids(rest);
      }
    }
  }

  /** From the SIGCHLD byte to the end of its handling, however it is interleaved: what HandleSigchld does. */
  lemma SigchldHandled(s: State, tr: seq<Event>)
    requires Shaped(s) && Owned(s) && s.pc.Reaping? && Legal(s, tr) && LeavesWaitLoop(s, tr)
    ensures var t := Exec(s, tr);
            && t.table == AfterSignal(s.table, s.fds, SigByte(SigChld, WaitedPids(tr)))
            && t.pc == Bytes(s.pc.buf, s.pc.evs)
  {
    WaitLoopHandled(s, tr);
  }

  /** One step during the kill loop: the parent's signals the next live child, the others' leave the loop alone. */
  lemma KillStep(s: State, e: Event)
    requires Shaped(s) && s.pc.Killing? && Enabled(s, e) && (e == Parent ==> s.pc.k < |s.kids|)
    ensures var t := Apply(s, e);
            if e != Parent then t.table == s.table && t.pc == s.pc
            else
              && t.table.pids == s.table.pids && t.table == s.table.(killed := t.table.killed)
              && t.pc == Killing(s.pc.k + 1, s.pc.buf, s.pc.evs)
              && t.table.killed ==
                 s.table.killed + (if s.table.pids[s.pc.k] != DEAD then [s.table.pids[s.pc.k]] else [])
  {
    if e != Parent {
      OthersLeaveTable(s, e);
    }
  }

  function ParentSteps(tr: seq<Event>): nat {
    if tr == [] then 0 else (if tr[0] == Parent then 1 else 0) + ParentSteps(tr[1..])
  }

  /** The kill loop from entry k on, however it is interleaved: what HandleTerm does. */
  lemma {:induction false} TermHandled(s: State, tr: seq<Event>, before: seq<int>)
    requires Shaped(s) && s.pc.Killing? && Legal(s, tr)
    requires s.table.killed == before + LivePids(s.table.pids, s.pc.k)
    requires ParentSteps(tr) == |s.kids| - s.pc.k
    ensures Exec(s, tr).table == s.table.(killed := before + LivePids(s.table.pids, |s.kids|))
    ensures Exec(s, tr).pc == Killing(|s.kids|, s.pc.buf, s.pc.evs)
    decreases |tr|
  {
    hide Apply, Enabled;
    if tr != [] {
      KillStep(s, tr[0]);
      TermHandled(Apply(s, tr[0]), tr[1..], before);
    }
  }
}
