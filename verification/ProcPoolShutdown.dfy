/**
 The shutdown of the process pool: a SIGTERM or SIGINT is turned into one SIGTERM for every child, the children leave
 one after the other, and the parent leaves when it has reaped them all.  This comes to an end when there is room for
 the bytes of the signals, and how much room it takes is a number.
 */
module ProcPoolShutdown {
  import opened ProcTable
  import opened ProcPoolModel
  import opened ProcPoolTheorems
  import opened Common

  /**
   Steps that the shutdown takes by itself.  New connections, new signals, failures of epoll_wait and children that die
   without having been told to are not among them.
   */
  predicate Progress(e: Event) {
    match e
    case Dies(_) => false
    case Signalled(_) => false
    case Spawns(_) => false
    case Exits(_) => false
    case Opens(_) => false
    case EpollReturns(evs) => SignalsReady in evs
    case EpollFails => false
    case _ => true
  }

  /** Steps that a run of the shutdown may have: its own, and deaths at any time. */
  predicate Ongoing(e: Event) {
    Progress(e) || e.Dies?
  }

  /** Every child has been told to stop, or is gone. */
  predicate Doomed(s: State) {
    Alive(Serving) !in s.kids
  }

  lemma KillLoopDooms(s: State)
    requires Inv(s) && s.handler == None && s.pc.Killing? && s.pc.k == |s.kids|
    ensures Doomed(s) && Doomed(Apply(s, Parent))
  {
  }

  lemma StepDoomed(s: State, e: Event)
    requires Shaped(s) && Enabled(s, e) && Doomed(s)
    ensures Doomed(Apply(s, e))
  {
  }

  const W_BYTE_READ := 19
  const W_BYTE := 28
  const W_HANDLER := 39
  const W_PENDING := 40

  function KidWeight(k: Kid): nat {
    match k
    case Alive(Serving) => 85
    case Alive(TermPending) => 84
    case Alive(TermInPipe) => 83
    case Alive(Leaving) => 82
    case Zombie => 40
    case Reaped => 0
  }

  function KidsWeight(kids: seq<Kid>): nat {
    if kids == [] then 0 else KidsWeight(kids[..|kids| - 1]) + KidWeight(kids[|kids| - 1])
  }

  /** The way back to epoll_wait and through it once more, if the signal pipe will be readable. */
  function Again(s: State): nat {
    if s.sigpipe != [] then 9 else 0
  }

  function EvsWeight(s: State, evs: seq<Ev>): nat {
    3 + 2 * |evs| + (if SignalsReady in evs then 0 else Again(s))
  }

  function PcWeight(s: State): nat
    requires Shaped(s)
  {
    match s.pc
    case Head => if s.table.stop then 1 else 2 + Again(s)
    case Waiting => 1 + Again(s)
    case Batch(evs) => EvsWeight(s, evs)
    case Bytes(buf, evs) => EvsWeight(s, evs) + W_BYTE_READ * |buf| + 1
    case Reaping(buf, evs) => EvsWeight(s, evs) + W_BYTE_READ * |buf| + 2
    case Burying(_, k, closed, buf, evs) =>
      EvsWeight(s, evs) + W_BYTE_READ * |buf| + 2 + 2 * (|s.kids| - k) + (if closed then 0 else 1)
    case Killing(k, buf, evs) => EvsWeight(s, evs) + W_BYTE_READ * |buf| + 2 + (|s.kids| - k)
    case Out => 0
    case Broken => 0
  }

  function Measure(s: State): nat
    requires Shaped(s)
  {
    KidsWeight(s.kids) + W_PENDING * |s.pending| + (if s.handler.Some? then W_HANDLER else 0)
    + W_BYTE * |s.sigpipe| + PcWeight(s)
  }

  lemma {:induction false} KidChanges(kids: seq<Kid>, k: nat, kid: Kid)
    requires k < |kids|
    ensures KidsWeight(kids[k := kid]) == KidsWeight(kids) - KidWeight(kids[k]) + KidWeight(kid)
  {
    var last := |kids| - 1;
    if k == last {
      assert kids[k := kid][..last] == kids[..last];
    } else {
      KidChanges(kids[..last], k, kid);
      assert kids[k := kid][..last] == kids[..last][k := kid];
    }
  }

  lemma KilledProgresses(s: State, pid: int)
    requires Shaped(s)
    ensures KidsWeight(Killed(s, pid).kids) <= KidsWeight(s.kids)
    ensures Killed(s, pid) == s.(kids := Killed(s, pid).kids) && |Killed(s, pid).kids| == |s.kids|
  {
    if pid in s.procs && s.procs[pid].Child? && s.procs[pid].k < |s.kids| {
      KidChanges(s.kids, s.procs[pid].k, Alive(TermPending));
    }
  }

  lemma BatchProgresses(s: State)
    requires Shaped(s) && EvsOnce(s) && Enabled(s, Parent) && s.pc.Batch?
    ensures Measure(Apply(s, Parent)) < Measure(s)
  {
    if s.pc.evs != [] {
      assert s.pc.evs == [s.pc.evs[0]] + s.pc.evs[1..];
    }
  }

  lemma BytesProgress(s: State)
    requires Shaped(s) && EvsOnce(s) && Enabled(s, Parent) && s.pc.Bytes?
    ensures Measure(Apply(s, Parent)) < Measure(s)
  {
  }

  lemma KillingProgresses(s: State)
    requires Shaped(s) && Enabled(s, Parent) && s.pc.Killing?
    ensures Measure(Apply(s, Parent)) < Measure(s)
  {
    hide KidsWeight, Killed;
    if s.pc.k < |s.kids| {
      KilledProgresses(s, s.table.pids[s.pc.k]);
      assert Apply(s, Parent).pc == Killing(s.pc.k + 1, s.pc.buf, s.pc.evs);
    }
  }

  lemma BuryingProgresses(s: State)
    requires Shaped(s) && Burial(s) && Enabled(s, Parent) && s.pc.Burying?
    ensures Measure(Apply(s, Parent)) < Measure(s)
  {
  }

  lemma ParentProgresses(s: State)
    requires Shaped(s) && EvsOnce(s) && Burial(s) && Enabled(s, Parent)
    ensures Measure(Apply(s, Parent)) < Measure(s)
  {
    if s.pc.Burying? {
      BuryingProgresses(s);
    } else if s.pc.Batch? {
      BatchProgresses(s);
    } else if s.pc.Bytes? {
      BytesProgress(s);
    } else if s.pc.Killing? {
      KillingProgresses(s);
    }
  }

  lemma SamePcWeight(s: State, t: State)
    requires Shaped(s) && Shaped(t) && |t.kids| == |s.kids|
    requires t.pc == s.pc && t.sigpipe == s.sigpipe && t.table == s.table
    ensures PcWeight(t) == PcWeight(s)
  {
  }

  lemma DeathProgresses(s: State, k: nat)
    requires Shaped(s) && k < |s.kids| && KidWeight(s.kids[k]) > W_PENDING + KidWeight(Zombie)
    ensures Measure(Died(s, k)) < Measure(s)
  {
    hide KidsWeight;
    KidChanges(s.kids, k, Zombie);
    OneMore(s.pending, SigChld);
  }

  lemma KidProgresses(s: State, e: Event)
    requires Shaped(s) && Enabled(s, e) && (e.Dies? || e.KidShutsDown?)
    ensures Measure(Apply(s, e)) < Measure(s)
  {
    if e.Dies? || s.kids[e.k].stage == Leaving {
      hide Measure, Died;
      DeathProgresses(s, e.k);
    } else {
      LeavingProgresses(s, e.k);
    }
  }

  /** A child reads its own signal pipe, and then leaves its loop. */
  lemma LeavingProgresses(s: State, k: nat)
    requires Shaped(s) && Enabled(s, KidShutsDown(k)) && s.kids[k].stage != Leaving
    ensures Measure(Apply(s, KidShutsDown(k))) < Measure(s)
  {
    hide KidsWeight, PcWeight;
    var t := Apply(s, KidShutsDown(k));
    KidChanges(s.kids, k, t.kids[k]);
    SamePcWeight(s, t);
  }

  lemma HandlerProgresses(s: State)
    requires Shaped(s) && s.handler.Some?
    ensures Measure(HandlerSent(s)) < Measure(s)
  {
  }

  lemma WaitProgresses(s: State, pid: int)
    requires Shaped(s) && Enabled(s, WaitPid(pid))
    ensures Measure(Waited(s, pid)) < Measure(s)
  {
    KidChanges(s.kids, s.procs[pid].k, Reaped);
  }

  lemma KernelProgresses(s: State, e: Event)
    requires Shaped(s) && Enabled(s, e) && Ongoing(e) && e != Parent
    ensures Measure(Apply(s, e)) < Measure(s)
  {
    match e
    case Dies(_) => KidProgresses(s, e);
    case KidShutsDown(_) => KidProgresses(s, e);
    case Deliver(sig) => OneMore(s.pending, sig);
    case HandlerSends => HandlerProgresses(s);
    case WaitPid(pid) => WaitProgresses(s, pid);
    case _ =>
  }

  lemma {:induction false} ShutdownIsBounded(s: State, tr: seq<Event>)
    requires Inv(s) && Legal(s, tr) && forall e :: e in tr ==> Ongoing(e)
    ensures |tr| + Measure(Exec(s, tr)) <= Measure(s)
    decreases |tr|
  {
    if tr != [] {
      assert tr[0] in tr;
      StepInv(s, tr[0]);
      OngoingStep(s, tr[0]);
      ShutdownIsBounded(Apply(s, tr[0]), tr[1..]);
    }
  }

  /** Nothing of the shutdown is left to do; children that are still serving may go on doing so. */
  ghost predicate AtRest(s: State)
    requires Shaped(s)
  {
    forall e :: Progress(e) ==> !Enabled(s, e)
  }

  predicate HasTermination(bytes: seq<Sig>) {
    SigTerm in bytes || SigInt in bytes
  }

  /** A SIGTERM or SIGINT is somewhere between the kernel and the end of the kill loop. */
  predicate TerminationOnTheWay(s: State) {
    || SigTerm in s.pending || SigInt in s.pending
    || (s.handler.Some? && Termination(s.handler.value))
    || HasTermination(s.sigpipe)
    || HasTermination(Buffered(s.pc))
    || s.pc.Killing?
  }

  predicate Stopping(s: State) {
    TerminationOnTheWay(s) || Doomed(s)
  }

  /** The handler's SIGTERM or SIGINT byte fits, or one is in the pipe already, or there is nobody left to tell. */
  predicate HasTermRoom(s: State, e: Event)
    requires Shaped(s) && Enabled(s, e)
  {
    e == HandlerSends && Termination(s.handler.value) ==>
      |s.sigpipe| < s.cap || HasTermination(s.sigpipe) || Doomed(s)
  }

  predicate TermRoomAlong(s: State, tr: seq<Event>)
    requires Shaped(s) && Legal(s, tr)
    decreases |tr|
  {
    tr == [] || (HasTermRoom(s, tr[0]) && TermRoomAlong(Apply(s, tr[0]), tr[1..]))
  }

  lemma BatchStopping(s: State)
    requires Shaped(s) && Enabled(s, Parent) && TerminationOnTheWay(s) && s.pc.Batch?
    ensures TerminationOnTheWay(Apply(s, Parent))
  {
    var m := if |s.sigpipe| < BUFFER then |s.sigpipe| else BUFFER;
    assert s.sigpipe == s.sigpipe[..m] + s.sigpipe[m..];
  }

  lemma BytesStopping(s: State)
    requires Shaped(s) && Enabled(s, Parent) && TerminationOnTheWay(s) && s.pc.Bytes?
    ensures TerminationOnTheWay(Apply(s, Parent))
  {
    if s.pc.buf != [] {
      assert s.pc.buf == [s.pc.buf[0]] + s.pc.buf[1..];
    }
  }

  lemma ElsewhereStopping(s: State)
    requires Shaped(s) && Enabled(s, Parent) && TerminationOnTheWay(s) && !s.pc.Batch? && !s.pc.Bytes?
    requires s.pc.Killing? ==> s.pc.k < |s.kids|
    ensures TerminationOnTheWay(Apply(s, Parent))
  {
  }

  lemma ParentStopping(s: State)
    requires Inv(s) && Enabled(s, Parent) && TerminationOnTheWay(s)
    ensures Stopping(Apply(s, Parent))
  {
    hide TerminationOnTheWay, Doomed, Apply;
    match s.pc
    case Batch(_) => BatchStopping(s);
    case Bytes(_, _) => BytesStopping(s);
    case Killing(k, _, _) =>
      if k == |s.kids| {
        KillLoopDooms(s);
      } else {
        ElsewhereStopping(s);
      }
    case _ => ElsewhereStopping(s);
  }

  lemma OtherStopping(s: State, e: Event)
    requires Shaped(s) && Enabled(s, e) && e != Parent && TerminationOnTheWay(s) && !Doomed(s) && HasTermRoom(s, e)
    ensures TerminationOnTheWay(Apply(s, e))
  {
    if e == HandlerSends && |s.sigpipe| < s.cap {
      assert Apply(s, e).sigpipe[|s.sigpipe|] == s.handler.value;
      assert s.sigpipe <= Apply(s, e).sigpipe;
    }
  }

  /** A termination signal is not lost before every child has been told to stop. */
  lemma StepStopping(s: State, e: Event)
    requires Inv(s) && Enabled(s, e) && Stopping(s) && HasTermRoom(s, e)
    ensures Stopping(Apply(s, e))
  {
    if Doomed(s) {
      StepDoomed(s, e);
    } else if e == Parent {
      ParentStopping(s);
    } else {
      OtherStopping(s, e);
    }
  }

  /** Somebody sends the parent a SIGTERM or a SIGINT. */
  predicate AsksToStop(tr: seq<Event>) {
    Signalled(SigTerm) in tr || Signalled(SigInt) in tr
  }

  lemma {:induction false} RunStopping(s: State, tr: seq<Event>)
    requires Inv(s) && Legal(s, tr) && TermRoomAlong(s, tr)
    requires Stopping(s) || AsksToStop(tr)
    ensures Stopping(Exec(s, tr))
    decreases |tr|
  {
    hide Inv, Apply, Enabled, Stopping;
    if tr != [] {
      InvShaped(s);
      StepInv(s, tr[0]);
      if Stopping(s) {
        StepStopping(s, tr[0]);
      } else if tr[0] == Signalled(SigTerm) || tr[0] == Signalled(SigInt) {
        SignalStopping(s, tr[0].sig);
      } else {
        assert tr == [tr[0]] + tr[1..];
      }
      RunStopping(Apply(s, tr[0]), tr[1..]);
    }
  }

  lemma InvShaped(s: State)
    requires Inv(s)
    ensures Shaped(s)
  {
  }

  lemma SignalStopping(s: State, sig: Sig)
    requires Shaped(s) && Termination(sig)
    ensures Stopping(Apply(s, Signalled(sig)))
  {
  }

  lemma ParentCanStep(s: State)
    requires Inv(s) && s.handler == None && s.pc != Waiting && s.pc != Broken && s.pc != Out
    ensures exists e :: Progress(e) && Enabled(s, e)
  {
    if s.pc.Reaping? && !NoZombie(s) {
      var k :| 0 <= k < |s.kids| && s.kids[k] == Zombie;
      var pid := s.table.pids[k];
      assert Progress(WaitPid(pid)) && Enabled(s, WaitPid(pid));
    } else {
      assert Progress(Parent) && Enabled(s, Parent);
    }
  }

  /** In epoll_wait, something of the shutdown is still to come from the kernel, the handler or a child. */
  lemma WaitingEnds(s: State)
    requires Inv(s) && Covered(s) && Stopping(s) && s.handler == None && s.pc == Waiting
    ensures exists e :: Progress(e) && Enabled(s, e)
  {
    if s.sigpipe != [] {
      var evs := [SignalsReady];
      assert SignalsReady in evs;
      assert Progress(EpollReturns(evs)) && Enabled(s, EpollReturns(evs));
    } else if s.pending != {} {
      var sig :| sig in s.pending;
      assert Progress(Deliver(sig)) && Enabled(s, Deliver(sig));
    } else {
      assert Doomed(s);
      var k :| 0 <= k < |s.kids| && s.table.pids[k] != DEAD;
      assert s.kids[k] in s.kids;
      assert Progress(KidShutsDown(k)) && Enabled(s, KidShutsDown(k));
    }
  }

  /** As long as the parent is in its loop, some step of the shutdown is possible. */
  lemma Unfinished(s: State)
    requires Inv(s) && Covered(s) && Stopping(s) && s.pc != Broken && s.pc != Out
    ensures exists e :: Progress(e) && Enabled(s, e)
  {
    if s.handler.Some? {
      assert Progress(HandlerSends) && Enabled(s, HandlerSends);
    } else if s.pc == Waiting {
      WaitingEnds(s);
    } else {
      ParentCanStep(s);
    }
  }

  /** The parent has left its loop and every child is reaped. */
  predicate Ended(s: State) {
    s.pc == Out && forall k :: 0 <= k < |s.kids| ==> s.kids[k] == Reaped
  }

  lemma OutIsTheEnd(s: State)
    requires Inv(s) && s.pc == Out
    ensures Ended(s)
  {
    assert AllDead(s.table.pids);
  }

  /**
   A SIGTERM or SIGINT at any point of a run from the start, with any deaths, connections and other signals before and
   after it, and with room for the bytes: when nothing of the shutdown is left to do and epoll_wait has not failed,
   every child is reaped and the parent is out of its loop.
   */
  lemma TerminationStopsThePool(s: State, tr: seq<Event>)
    requires Starts(s) && NoZombie(s) && Legal(s, tr) && RoomAlong(s, tr) && TermRoomAlong(s, tr)
    requires AsksToStop(tr)
    ensures var t := Exec(s, tr); AtRest(t) && t.pc != Broken ==> Ended(t)
  {
    StartsInv(s);
    RunInv(s, tr);
    NoDeathForgotten(s, tr);
    RunStopping(s, tr);
    Rests(Exec(s, tr));
  }

  lemma Rests(s: State)
    requires Inv(s) && Covered(s) && Stopping(s)
    ensures AtRest(s) && s.pc != Broken ==> Ended(s)
  {
    if s.pc == Out {
      OutIsTheEnd(s);
    } else if s.pc != Broken {
      Unfinished(s);
    }
  }

  /**
   From the moment a termination signal is on its way, a run of shutdown steps and deaths with room for the bytes is
   bounded, and one that leaves no shutdown step ends with every child reaped and the parent out of its loop.
   */
  lemma ShutdownCompletes(s: State, tr: seq<Event>)
    requires Inv(s) && Covered(s) && Stopping(s) && s.pc != Broken
    requires Legal(s, tr) && RoomAlong(s, tr) && TermRoomAlong(s, tr) && forall e :: e in tr ==> Ongoing(e)
    ensures |tr| <= Measure(s)
    ensures AtRest(Exec(s, tr)) ==> Ended(Exec(s, tr))
  {
    ShutdownIsBounded(s, tr);
    RunInv(s, tr);
    NoDeathForgotten(s, tr);
    RunStopping(s, tr);
    RunNotBroken(s, tr);
    Rests(Exec(s, tr));
  }

  lemma {:induction false} RunNotBroken(s: State, tr: seq<Event>)
    requires Shaped(s) && Legal(s, tr) && s.pc != Broken && forall e :: e in tr ==> Ongoing(e)
    ensures Exec(s, tr).pc != Broken
    decreases |tr|
  {
    if tr != [] {
      assert tr[0] in tr;
      StepNotBroken(s, tr[0]);
      RunNotBroken(Apply(s, tr[0]), tr[1..]);
    }
  }

  lemma StepNotBroken(s: State, e: Event)
    requires Shaped(s) && Enabled(s, e) && s.pc != Broken && e != EpollFails
    ensures Apply(s, e).pc != Broken
  {
  }

  // ---------------------------------------------------------------------------------------------------------
  // How many signals the shutdown survives.

  function Living(kids: seq<Kid>): nat {
    if kids == [] then 0 else Living(kids[..|kids| - 1]) + (if kids[|kids| - 1].Alive? then 1 else 0)
  }

  /** The bytes that are in the signal pipe or will get there if nobody sends another signal. */
  function Load(s: State): nat {
    |s.pending| + (if s.handler.Some? then 1 else 0) + |s.sigpipe| + Living(s.kids)
  }

  lemma {:induction false} LivingChanges(kids: seq<Kid>, k: nat, kid: Kid)
    requires k < |kids|
    ensures Living(kids[k := kid]) == Living(kids) - (if kids[k].Alive? then 1 else 0) + (if kid.Alive? then 1 else 0)
  {
    var last := |kids| - 1;
    if k == last {
      assert kids[k := kid][..last] == kids[..last];
    } else {
      LivingChanges(kids[..last], k, kid);
      assert kids[k := kid][..last] == kids[..last][k := kid];
    }
  }

  lemma {:induction false} LivingUpTo(kids: seq<Kid>)
    ensures Living(kids) <= |kids|
  {
    if kids != [] {
      LivingUpTo(kids[..|kids| - 1]);
    }
  }

  lemma KidLoad(s: State, e: Event)
    requires Shaped(s) && Enabled(s, e) && (e.Dies? || e.KidShutsDown?)
    ensures Load(Apply(s, e)) <= Load(s)
  {
    LivingChanges(s.kids, e.k, Apply(s, e).kids[e.k]);
    OneMore(s.pending, SigChld);
  }

  lemma ParentLoad(s: State)
    requires Shaped(s) && Enabled(s, Parent)
    ensures Load(Apply(s, Parent)) <= Load(s)
  {
    if s.pc.Killing? && s.pc.k < |s.kids| {
      var pid := s.table.pids[s.pc.k];
      if pid in s.procs && s.procs[pid].Child? && s.procs[pid].k < |s.kids| {
        LivingChanges(s.kids, s.procs[pid].k, Alive(TermPending));
      }
    }
  }

  lemma StepLoad(s: State, e: Event)
    requires Shaped(s) && Enabled(s, e)
    ensures Load(Apply(s, e)) <= Load(s) + (if e.Signalled? then 1 else 0)
  {
    match e
    case Dies(k) => KidLoad(s, e);
    case KidShutsDown(k) => KidLoad(s, e);
    case Signalled(sig) => OneMore(s.pending, sig);
    case Deliver(sig) => OneMore(s.pending, sig);
    case WaitPid(pid) => LivingChanges(s.kids, s.procs[pid].k, Reaped);
    case Parent => ParentLoad(s);
    case _ =>
  }

  lemma OngoingStep(s: State, e: Event)
    requires Inv(s) && Enabled(s, e) && Ongoing(e)
    ensures Measure(Apply(s, e)) < Measure(s)
  {
    if e == Parent {
      ParentProgresses(s);
    } else {
      KernelProgresses(s, e);
    }
  }

  /** There is room for everything that will be sent to the pipe when n more signals are. */
  predicate Roomy(s: State, n: nat) {
    Noise(s) + n < s.cap && (Doomed(s) || Load(s) + n <= s.cap + 1)
  }

  lemma {:induction false} NobodyLives(kids: seq<Kid>)
    requires Living(kids) == 0
    ensures Alive(Serving) !in kids
  {
    if kids != [] {
      NobodyLives(kids[..|kids| - 1]);
    }
  }

  /** A full pipe with one byte on the way to it is all the load there is, so no child is left that could serve. */
  lemma RoomyHasRoom(s: State, e: Event, n: nat)
    requires Shaped(s) && Enabled(s, e) && Roomy(s, n)
    ensures HasRoom(s, e) && HasTermRoom(s, e)
  {
    if e == HandlerSends && |s.sigpipe| >= s.cap {
      if SigChld !in s.sigpipe {
        OnlyOtherBytes(s.sigpipe);
      }
      if !Doomed(s) {
        NobodyLives(s.kids);
      }
    }
  }

  lemma StepRoomy(s: State, e: Event, n: nat)
    requires Shaped(s) && Enabled(s, e) && Roomy(s, n) && (e.Signalled? ==> n > 0)
    ensures Roomy(Apply(s, e), if e.Signalled? then n - 1 else n)
  {
    hide Noise, Load, Doomed, Apply;
    StepNoise(s, e);
    StepLoad(s, e);
    if Doomed(s) {
      StepDoomed(s, e);
    }
  }

  lemma {:induction false} EnoughRoom(s: State, tr: seq<Event>)
    requires Shaped(s) && Legal(s, tr) && Roomy(s, Signals(tr))
    ensures RoomAlong(s, tr) && TermRoomAlong(s, tr)
    decreases |tr|
  {
    hide Apply, Enabled, Roomy, HasRoom, HasTermRoom;
    if tr != [] {
      RoomyHasRoom(s, tr[0], Signals(tr));
      StepRoomy(s, tr[0], Signals(tr));
      EnoughRoom(Apply(s, tr[0]), tr[1..]);
    }
  }

  /** What a run from the start needs: n signals do not fill the pipe, and neither do they with the deaths but one. */
  predicate Fits(s: State, n: nat) {
    n < s.cap && (Doomed(s) || |s.kids| + n <= s.cap + 1)
  }

  lemma FittingPoolStops(s: State, tr: seq<Event>)
    requires Starts(s) && NoZombie(s) && Legal(s, tr) && AsksToStop(tr) && Fits(s, Signals(tr))
    ensures var t := Exec(s, tr); AtRest(t) && t.pc != Broken ==> Ended(t)
  {
    LivingUpTo(s.kids);
    assert s.pending - {SigChld} == {};
    EnoughRoom(s, tr);
    TerminationStopsThePool(s, tr);
  }

  /** The end can be reached by shutdown steps alone, from wherever the signal finds the pool. */
  lemma {:induction false} EndIsReached(s: State) returns (tr: seq<Event>)
    requires Inv(s) && Covered(s) && Stopping(s) && s.pc != Broken && Roomy(s, 0)
    ensures Legal(s, tr) && (forall e :: e in tr ==> Progress(e)) && Ended(Exec(s, tr))
  {
    tr := ComesToRest(s);
    NothingSent(tr);
    EnoughRoom(s, tr);
    ShutdownCompletes(s, tr);
  }

  lemma {:induction false} NothingSent(tr: seq<Event>)
    requires forall e :: e in tr ==> Progress(e)
    ensures Signals(tr) == 0 && !AsksToStop(tr)
  {
    if tr != [] {
      assert tr[0] in tr;
      NothingSent(tr[1..]);
    }
  }

  lemma {:induction false} ComesToRest(s: State) returns (tr: seq<Event>)
    requires Inv(s)
    ensures Legal(s, tr) && (forall e :: e in tr ==> Progress(e)) && AtRest(Exec(s, tr))
    decreases Measure(s)
  {
    hide Apply, Inv;
    InvShaped(s);
    tr := [];
    if !AtRest(s) {
      var e :| Progress(e) && Enabled(s, e);
      StepInv(s, e);
      OngoingStep(s, e);
      var rest := ComesToRest(Apply(s, e));
      Prepend(s, e, rest, Exec(Apply(s, e), rest));
      tr := [e] + rest;
    }
  }

  // The condition is needed.  A pool that has lost its termination signal rests with a child that goes on serving; a
  // pool that has lost its last SIGCHLDs rests with zombies.

  predicate Untold(s: State, k: nat) {
    k < |s.kids| && s.kids[k] == Alive(Serving) && !TerminationOnTheWay(s)
  }

  lemma ParentUntold(s: State, k: nat)
    requires Shaped(s) && Enabled(s, Parent) && Untold(s, k)
    ensures Untold(Apply(s, Parent), k)
  {
  }

  lemma StepUntold(s: State, e: Event, k: nat)
    requires Shaped(s) && Enabled(s, e) && Progress(e) && Untold(s, k)
    ensures Untold(Apply(s, e), k)
  {
    if e == Parent {
      ParentUntold(s, k);
    }
  }

  /** Nothing but a termination signal or its own death stops a child: the steps of the shutdown leave it serving. */
  lemma {:induction false} ServesUntilTold(s: State, tr: seq<Event>, k: nat)
    requires Inv(s) && Legal(s, tr) && (forall e :: e in tr ==> Progress(e)) && Untold(s, k) && s.pc != Broken
    ensures var t := Exec(s, tr); t.kids[k] == Alive(Serving) && t.pc != Out && t.pc != Broken
    decreases |tr|
  {
    hide Apply, Enabled;
    if tr == [] {
      if s.pc == Out {
        OutIsTheEnd(s);
      }
    } else {
      assert tr[0] in tr;
      StepInv(s, tr[0]);
      StepUntold(s, tr[0], k);
      StepNotBroken(s, tr[0]);
      ServesUntilTold(Apply(s, tr[0]), tr[1..], k);
    }
  }

  /** Nobody is alive, and nobody will ask for the zombie k. */
  predicate Abandoned(s: State, k: nat) {
    (forall i :: 0 <= i < |s.kids| ==> !s.kids[i].Alive?) && k < |s.kids| && s.kids[k] == Zombie && !OnTheWay(s)
  }

  lemma StepAbandoned(s: State, e: Event, k: nat)
    requires Shaped(s) && Enabled(s, e) && Progress(e) && Abandoned(s, k)
    ensures Abandoned(Apply(s, e), k)
  {
    AbandonedKids(s, e);
    StepForgotten(s, e, k);
  }

  lemma AbandonedKids(s: State, e: Event)
    requires Shaped(s) && Enabled(s, e) && Progress(e) && SigChld !in s.pending
    requires forall i :: 0 <= i < |s.kids| ==> !s.kids[i].Alive?
    ensures SigChld !in Apply(s, e).pending
    ensures forall i :: 0 <= i < |s.kids| ==> !Apply(s, e).kids[i].Alive?
  {
  }

  lemma {:induction false} StaysAbandoned(s: State, tr: seq<Event>, k: nat)
    requires Shaped(s) && Legal(s, tr) && (forall e :: e in tr ==> Progress(e)) && Abandoned(s, k) && s.pc != Broken
    ensures Exec(s, tr).kids[k] == Zombie && Exec(s, tr).pc != Broken
    decreases |tr|
  {
    hide Apply, Enabled;
    if tr != [] {
      assert tr[0] in tr;
      StepAbandoned(s, tr[0], k);
      StepNotBroken(s, tr[0]);
      StaysAbandoned(Apply(s, tr[0]), tr[1..], k);
    }
  }

  /** Children from index i on die, but for `spared`; their SIGCHLDs join those in the pipe, or the pipe is full. */
  lemma {:induction false} Perish(s: State, i: nat, spared: nat, m: nat, sig: Sig) returns (tr: seq<Event>)
    requires Shaped(s) && Stuffed(s, m, sig) && (sig == SigChld || m >= s.cap) && i <= |s.kids|
    requires forall j :: i <= j < |s.kids| && j != spared ==> s.kids[j].Alive?
    ensures Legal(s, tr) && Signals(tr) == 0
    ensures var t := Exec(s, tr);
            && Stuffed(t, m + |s.kids| - i - (if i <= spared < |s.kids| then 1 else 0), sig)
            && (forall j :: 0 <= j < |s.kids| ==> t.kids[j] == if i <= j && j != spared then Zombie else s.kids[j])
    decreases |s.kids| - i
  {
    tr := [];
    if i == |s.kids| {
      return;
    }
    if i == spared {
      tr := Perish(s, i + 1, spared, m, sig);
    } else {
      var one, t := Handled(s, Dies(i), SigChld);
      assert t.kids == s.kids[i := Zombie];
      var rest := Perish(t, i + 1, spared, m + 1, sig);
      Concat(s, one, rest);
      SignalsAppend(one, rest);
      tr := one + rest;
    }
  }

  /** A run of n signals, one of them a SIGTERM, that comes to rest in an unbroken pool that has not ended. */
  ghost predicate Fails(s: State, tr: seq<Event>, n: nat)
    requires Shaped(s)
  {
    && Legal(s, tr) && Signals(tr) == n && AsksToStop(tr)
    && AtRest(Exec(s, tr)) && Exec(s, tr).pc != Broken && !Ended(Exec(s, tr))
  }

  /** A run from the start, continued by shutdown steps until nothing of the shutdown is left to do. */
  lemma RestAfter(s: State, a: seq<Event>) returns (tr: seq<Event>, rest: seq<Event>)
    requires Starts(s) && Legal(s, a)
    ensures Inv(Exec(s, a)) && Legal(Exec(s, a), rest) && (forall e :: e in rest ==> Progress(e))
    ensures Legal(s, tr) && Exec(s, tr) == Exec(Exec(s, a), rest) && AtRest(Exec(s, tr))
    ensures Signals(tr) == Signals(a) && (AsksToStop(a) ==> AsksToStop(tr))
  {
    hide Starts, Inv, Apply, Enabled, AtRest;
    StartsInv(s);
    RunInv(s, a);
    rest := ComesToRest(Exec(s, a));
    Concat(s, a, rest);
    NothingSent(rest);
    SignalsAppend(a, rest);
    tr := a + rest;
  }

  /** n SIGTERMs fill the pipe, and then all children die. */
  lemma LoseDeaths(s: State, n: nat) returns (tr: seq<Event>)
    requires Starts(s) && NoZombie(s) && n >= s.cap
    ensures Legal(s, tr) && Signals(tr) == n && AsksToStop(tr)
    ensures Exec(s, tr).pc == Head && Abandoned(Exec(s, tr), 0)
  {
    AllAlive(s);
    hide Starts, Apply, Enabled;
    tr := Stuff(s, 0, n, SigTerm);
    var t := Exec(s, tr);
    RunKeepsFds(s, tr);
    var deaths := Perish(t, 0, |s.kids|, n, SigTerm);
    Concat(s, tr, deaths);
    SignalsAppend(tr, deaths);
    tr := tr + deaths;
  }

  lemma ZombiesStay(s: State, n: nat) returns (tr: seq<Event>)
    requires Starts(s) && NoZombie(s) && n >= s.cap
    ensures Fails(s, tr, n)
  {
    hide Inv, Apply, Enabled, AtRest;
    var a := LoseDeaths(s, n);
    var rest;
    tr, rest := RestAfter(s, a);
    StaysAbandoned(Exec(s, a), rest, 0);
  }

  lemma AllAlive(s: State)
    requires Starts(s) && NoZombie(s)
    ensures forall j :: 0 <= j < |s.kids| ==> s.kids[j].Alive?
  {
    forall j | 0 <= j < |s.kids|
      ensures s.kids[j].Alive?
    {
      assert s.kids[j] in s.kids;
    }
  }

  /** SIGCHLDs and the deaths of all children but one fill the pipe, and the SIGTERM is dropped. */
  lemma LoseTermination(s: State, n: nat, k: nat) returns (tr: seq<Event>)
    requires Starts(s) && NoZombie(s) && k < |s.kids| && s.kids[k] == Alive(Serving)
    requires n > 0 && |s.kids| + n > s.cap + 1
    ensures Legal(s, tr) && Signals(tr) == n && AsksToStop(tr)
    ensures Exec(s, tr).pc == Head && Untold(Exec(s, tr), k)
  {
    AllAlive(s);
    hide Starts;
    tr := Stuff(s, 0, n - 1, SigChld);
    var t := Exec(s, tr);
    RunKeepsFds(s, tr);
    var deaths := Perish(t, 0, k, n - 1, SigChld);
    RunKeepsFds(t, deaths);
    Concat(s, tr, deaths);
    SignalsAppend(tr, deaths);
    tr := tr + deaths;
    var last := Drop(Exec(s, tr), k);
    Concat(s, tr, last);
    SignalsAppend(tr, last);
    tr := tr + last;
  }

  /** A SIGTERM that finds the pipe full of SIGCHLDs. */
  lemma Drop(s: State, k: nat) returns (tr: seq<Event>)
    requires Shaped(s) && Stuffed(s, s.cap, SigChld) && k < |s.kids| && s.kids[k] == Alive(Serving)
    ensures Legal(s, tr) && Signals(tr) == 1 && AsksToStop(tr)
    ensures Exec(s, tr).pc == Head && Untold(Exec(s, tr), k)
  {
    var t;
    tr, t := Handled(s, Signalled(SigTerm), SigTerm);
  }

  lemma ChildServesOn(s: State, n: nat, k: nat) returns (tr: seq<Event>)
    requires Starts(s) && NoZombie(s) && k < |s.kids| && s.kids[k] == Alive(Serving)
    requires n > 0 && |s.kids| + n > s.cap + 1
    ensures Fails(s, tr, n)
  {
    hide Inv, Apply, Enabled, AtRest;
    var a := LoseTermination(s, n, k);
    var rest;
    tr, rest := RestAfter(s, a);
    ServesUntilTold(Exec(s, a), rest, k);
  }

  /**
   The exact condition, for every pool whose children outlive the set-up and every capacity of the signal pipe: that
   every run with n signals, a SIGTERM or SIGINT among them, ends with every child reaped and the parent out of its loop
   holds iff the n signals fit, and fit together with the deaths of all children but one if somebody is serving.
   */
  lemma PoolStopsIff(s: State, n: nat)
    requires Starts(s) && NoZombie(s) && n > 0
    ensures Fits(s, n) <==>
            forall tr | Legal(s, tr) && Signals(tr) == n && AsksToStop(tr) ::
              var t := Exec(s, tr); AtRest(t) && t.pc != Broken ==> Ended(t)
  {
    if Fits(s, n) {
      forall tr | Legal(s, tr) && Signals(tr) == n && AsksToStop(tr)
        ensures var t := Exec(s, tr); AtRest(t) && t.pc != Broken ==> Ended(t)
      {
        FittingPoolStops(s, tr);
      }
    } else if n >= s.cap {
      var tr := ZombiesStay(s, n);
      assert !Ended(Exec(s, tr));
    } else {
      var k :| 0 <= k < |s.kids| && s.kids[k] == Alive(Serving);
      var tr := ChildServesOn(s, n, k);
      assert !Ended(Exec(s, tr));
    }
  }
}
