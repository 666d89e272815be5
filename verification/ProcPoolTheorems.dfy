/**
 What the process pool keeps over every run: `_stop` is exact, dispatch is balanced, each pipe end is closed once, and
 no death is forgotten as long as its SIGCHLD byte is not lost on a pipe full of other bytes.
 */
module ProcPoolTheorems {
  import opened Common
  import opened ProcTable
  import opened ProcPoolModel

  // ---------------------------------------------------------------------------------------------------------
  // The invariant that holds without any assumption.

  /** `_stop` says that all entries are dead, except while a waitpid loop is marking them. */
  predicate StopIsExact(s: State) {
    && (s.table.stop ==> AllDead(s.table.pids))
    && (!InWaitLoop(s.pc) ==> StopExact(s.table))
    && (s.pc == Waiting ==> !s.table.stop)
    && (s.pc == Out ==> s.table.stop)
  }

  /** The signal pipe is read at most once in a batch. */
  predicate EvsOnce(s: State) {
    match s.pc
    case Batch(evs) => Once(evs)
    case Bytes(_, evs) => Once(evs) && SignalsReady !in evs
    case Reaping(_, evs) => Once(evs) && SignalsReady !in evs
    case Burying(_, _, _, _, evs) => Once(evs) && SignalsReady !in evs
    case Killing(_, _, evs) => Once(evs) && SignalsReady !in evs
    case _ => true
  }

  /** The kill loop leaves no serving child behind it. */
  predicate KillSwept(s: State)
    requires Shaped(s)
  {
    s.pc.Killing? ==> forall i :: 0 <= i < s.pc.k ==> s.kids[i] != Alive(Serving)
  }

  ghost predicate Inv(s: State) {
    && Shaped(s) && Owned(s) && Distinct(s.fds) && ClosedOnceSoFar(s)
    && StopIsExact(s) && EvsOnce(s) && KillSwept(s) && Balanced(s.table)
  }

  lemma StartsInv(s: State)
    requires Starts(s)
    ensures Inv(s)
  {
    assert s.table.pids[0] != DEAD;
    assert InRound(s.table.pids, 0, Counts([], |s.table.pids|), 0);
  }

  lemma StepStop(s: State, e: Event)
    requires Shaped(s) && StopIsExact(s) && Enabled(s, e)
    ensures StopIsExact(Apply(s, e))
    ensures AllDead(s.table.pids) ==> AllDead(Apply(s, e).table.pids)
  {
    if e == Parent {
      if s.pc.Burying? {
        BuryStop(s);
      }
    } else {
      OthersLeaveEntries(s, e);
    }
  }

  lemma BuryStop(s: State)
    requires Shaped(s) && StopIsExact(s) && s.pc.Burying?
    ensures StopIsExact(BuryStep(s))
    ensures AllDead(s.table.pids) ==> AllDead(BuryStep(s).table.pids)
  {
  }

  lemma StepEvs(s: State, e: Event)
    requires Shaped(s) && EvsOnce(s) && Enabled(s, e)
    ensures EvsOnce(Apply(s, e))
  {
    if e == Parent && s.pc.Batch? && s.pc.evs != [] {
      assert s.pc.evs == [s.pc.evs[0]] + s.pc.evs[1..];
    }
  }

  lemma StepSwept(s: State, e: Event)
    requires Shaped(s) && Owned(s) && KillSwept(s) && Enabled(s, e)
    ensures KillSwept(Apply(s, e))
  {
    if e == Parent && s.pc.Killing? && s.pc.k < |s.kids| && s.table.pids[s.pc.k] != DEAD {
      assert s.procs[s.table.pids[s.pc.k]] == Child(s.pc.k);
    }
  }

  /** Balance is about the live entries, so it survives when there are fewer of them. */
  lemma FewerKeepBalance(t: Table, u: Table)
    requires Balanced(t) && u.counter == t.counter && u.sent == t.sent && StillDead(t, u)
    ensures Balanced(u)
  {
    var r: nat :| InRound(t.pids, t.counter, Counts(t.sent, |t.pids|), r);
    assert InRound(u.pids, u.counter, Counts(u.sent, |u.pids|), r);
  }

  /** A step announces a connection to the picked child, or at most marks entries. */
  lemma StepTable(s: State, e: Event)
    requires Shaped(s) && Enabled(s, e)
    ensures var t := Apply(s, e).table;
            && StillDead(s.table, t)
            && if Dispatches(s) && e == Parent then t == Announced(s.table)
               else t.counter == s.table.counter && t.sent == s.table.sent
  {
    if e != Parent {
      OthersLeaveEntries(s, e);
    }
  }

  /** The parent's next step announces a connection. */
  predicate Dispatches(s: State) {
    s.handler == None && s.pc.Batch? && s.pc.evs != [] && s.pc.evs[0] == ListenReady && !AllDead(s.table.pids)
  }

  lemma StepBalanced(s: State, e: Event)
    requires Shaped(s) && Balanced(s.table) && Enabled(s, e)
    ensures Balanced(Apply(s, e).table)
  {
    hide Balanced;
    StepTable(s, e);
    if Dispatches(s) && e == Parent {
      AnnouncedKeepsBalance(s.table);
    } else {
      FewerKeepBalance(s.table, Apply(s, e).table);
    }
  }

  lemma StepInv(s: State, e: Event)
    requires Inv(s) && Enabled(s, e)
    ensures Inv(Apply(s, e))
  {
    hide Owned, ClosedOnceSoFar, StopIsExact, EvsOnce, KillSwept, Balanced, Apply;
    StepOwned(s, e);
    BurialIsOwned(s);
    StepClosedOnce(s, e);
    StepStop(s, e);
    StepEvs(s, e);
    StepSwept(s, e);
    StepBalanced(s, e);
  }

  lemma BurialIsOwned(s: State)
    requires Shaped(s) && Owned(s)
    ensures Burial(s)
  {
  }

  lemma {:induction false} RunInv(s: State, tr: seq<Event>)
    requires Inv(s) && Legal(s, tr)
    ensures Inv(Exec(s, tr))
    decreases |tr|
  {
    if tr != [] {
      StepInv(s, tr[0]);
      RunInv(Apply(s, tr[0]), tr[1..]);
    }
  }

  /** At every loop head of every run `_stop` holds iff all children are reaped, and then it holds ever after. */
  lemma {:induction false} StopIsFinal(s: State, tr: seq<Event>)
    requires Inv(s) && Legal(s, tr)
    ensures var t := Exec(s, tr);
            t.pc == Head ==> (t.table.stop <==> forall k :: 0 <= k < |t.kids| ==> t.kids[k] == Reaped)
    ensures var t := Exec(s, tr); s.table.stop && t.pc == Head ==> t.table.stop
    decreases |tr|
  {
    RunInv(s, tr);
    AllDeadForever(s, tr);
    var t := Exec(s, tr);
    if t.pc == Head && t.table.stop {
      assert forall k :: 0 <= k < |t.kids| ==> t.table.pids[k] == DEAD;
    }
  }

  lemma {:induction false} AllDeadForever(s: State, tr: seq<Event>)
    requires Shaped(s) && Legal(s, tr) && StopIsExact(s)
    ensures AllDead(s.table.pids) ==> AllDead(Exec(s, tr).table.pids)
    decreases |tr|
  {
    if tr != [] {
      StepStop(s, tr[0]);
      AllDeadForever(Apply(s, tr[0]), tr[1..]);
    }
  }

  /** In every reachable state two live children have been announced to equally often, or differ by one. */
  lemma DispatchIsBalanced(s: State, tr: seq<Event>, i: nat, j: nat)
    requires Starts(s) && Legal(s, tr) && i < |s.kids| && j < |s.kids|
    ensures var t := Exec(s, tr).table;
            t.pids[i] != DEAD && t.pids[j] != DEAD ==> -1 <= Times(t.sent, i) - Times(t.sent, j) <= 1
  {
    StartsInv(s);
    RunInv(s, tr);
    InvBalanced(Exec(s, tr));
    hide Starts, Inv, Exec;
    var t := Exec(s, tr).table;
    var r: nat :| InRound(t.pids, t.counter, Counts(t.sent, |t.pids|), r);
    assert Counts(t.sent, |t.pids|)[i] == Times(t.sent, i) && Counts(t.sent, |t.pids|)[j] == Times(t.sent, j);
  }

  /** In every run, although pids and descriptors are handed out again at any moment, every action hits its own. */
  lemma EveryActionHitsItsOwn(s: State, tr: seq<Event>, e: Event)
    requires Starts(s) && Legal(s, tr) && Enabled(Exec(s, tr), e)
    ensures HitsItsOwn(Exec(s, tr), e)
  {
    StartsInv(s);
    RunInv(s, tr);
    ActsOnItsOwn(Exec(s, tr), e);
  }

  /** In every run each pipe end is closed once at most, and at a loop head once iff the child is reaped. */
  lemma EachEndClosedOnce(s: State, tr: seq<Event>, k: nat)
    requires Starts(s) && Legal(s, tr) && k < |s.kids|
    ensures var t := Exec(s, tr);
            && t.fds == s.fds && Times(t.table.closed, s.fds[k]) <= 1
            && (t.pc == Head ==> (Times(t.table.closed, s.fds[k]) == 1 <==> t.kids[k] == Reaped))
  {
    StartsInv(s);
    RunInv(s, tr);
    RunKeepsFds(s, tr);
  }

  lemma {:induction false} RunKeepsFds(s: State, tr: seq<Event>)
    requires Shaped(s) && Legal(s, tr)
    ensures Exec(s, tr).fds == s.fds && Exec(s, tr).cap == s.cap
    decreases |tr|
  {
    if tr != [] {
      RunKeepsFds(Apply(s, tr[0]), tr[1..]);
    }
  }

  // ---------------------------------------------------------------------------------------------------------
  // Round robin over a run: every live child once between two picks of the same child.

  lemma {:induction false} RunTable(s: State, tr: seq<Event>)
    requires Shaped(s) && Legal(s, tr)
    ensures StillDead(s.table, Exec(s, tr).table) && s.table.sent <= Exec(s, tr).table.sent
    decreases |tr|
  {
    hide Apply, Enabled;
    if tr != [] {
      StepTable(s, tr[0]);
      RunTable(Apply(s, tr[0]), tr[1..]);
    }
  }

  /**
   Two announcements of one run to the same child with none to it in between, whatever else happens in between: every
   child that is alive at the second is announced to exactly once after the first and up to the second.
   */
  lemma EachChildOncePerRound(s: State, first: seq<Event>, between: seq<Event>, b: nat)
    requires Starts(s) && Legal(s, first) && Dispatches(Exec(s, first))
    requires var t := Exec(s, first);
             Legal(t, [Parent] + between) && Dispatches(Exec(t, [Parent] + between))
    requires var t := Exec(s, first);
             var u := Exec(t, [Parent] + between);
             var a := Pick(t.table.pids, t.table.counter);
             && a == Pick(u.table.pids, u.table.counter)
             && (forall i :: |t.table.sent| < i < |u.table.sent| ==> u.table.sent[i] != a)
             && b < |s.kids| && u.table.pids[b] != DEAD
    ensures var t := Exec(s, first);
            var u := Exec(t, [Parent] + between);
            |t.table.sent| < |Announced(u.table).sent| && Times(Announced(u.table).sent[|t.table.sent| + 1..], b) == 1
  {
    hide Inv, Balanced, StillDead, Announced, Apply;
    var t := Exec(s, first);
    var v := Apply(t, Parent);
    assert ([Parent] + between)[1..] == between;
    StartsInv(s);
    RunInv(s, first);
    RunInv(t, [Parent] + between);
    InvBalanced(t);
    InvBalanced(Exec(v, between));
    StepTable(t, Parent);
    RunTable(v, between);
    OnceBetween(t.table, Exec(v, between).table, b);
  }

  lemma InvBalanced(s: State)
    requires Inv(s)
    ensures Shaped(s) && Balanced(s.table)
  {
  }

  lemma OnceBetween(t: Table, u: Table, b: nat)
    requires t.counter < |t.pids| && u.counter < |u.pids| && b < |u.pids| && u.pids[b] != DEAD
    requires Balanced(t) && Balanced(u) && StillDead(Announced(t), u) && Announced(t).sent <= u.sent
    requires var a := Pick(t.pids, t.counter);
             && a == Pick(u.pids, u.counter)
             && (forall i :: |t.sent| < i < |u.sent| ==> u.sent[i] != a)
    ensures |t.sent| < |Announced(u).sent| && Times(Announced(u).sent[|t.sent| + 1..], b) == 1
  {
    hide Balanced;
    var a := Pick(t.pids, t.counter);
    var before := Announced(t).sent;
    var since, last := u.sent[|before|..], Announced(u).sent;
    assert u.sent == before + since;
    TimesNone(since, a);
    TimesAppend(before, since, a);
    OncePerRound(t, u, b);
    assert last == before + last[|before|..];
    TimesAppend(before, last[|before|..], b);
  }

  // ---------------------------------------------------------------------------------------------------------
  // No death is forgotten.

  function Buffered(pc: Pc): seq<Sig> {
    match pc
    case Bytes(buf, _) => buf
    case Reaping(buf, _) => buf
    case Burying(_, _, _, buf, _) => buf
    case Killing(_, buf, _) => buf
    case _ => []
  }

  /** A SIGCHLD is somewhere between the kernel and the waitpid loop. */
  predicate OnTheWay(s: State) {
    || SigChld in s.pending
    || s.handler == Some(SigChld)
    || SigChld in s.sigpipe
    || SigChld in Buffered(s.pc)
    || InWaitLoop(s.pc)
  }

  predicate Covered(s: State) {
    Zombie in s.kids ==> OnTheWay(s)
  }

  /** The handler's SIGCHLD byte fits, or another one is in the pipe already. */
  predicate HasRoom(s: State, e: Event)
    requires Shaped(s) && Enabled(s, e)
  {
    e == HandlerSends && s.handler == Some(SigChld) ==> |s.sigpipe| < s.cap || SigChld in s.sigpipe
  }

  predicate RoomAlong(s: State, tr: seq<Event>)
    requires Shaped(s) && Legal(s, tr)
    decreases |tr|
  {
    tr == [] || (HasRoom(s, tr[0]) && RoomAlong(Apply(s, tr[0]), tr[1..]))
  }

  lemma ReadOnTheWay(s: State)
    requires Shaped(s) && Enabled(s, Parent) && OnTheWay(s) && s.pc.Batch?
    ensures OnTheWay(Apply(s, Parent))
  {
    var m := if |s.sigpipe| < BUFFER then |s.sigpipe| else BUFFER;
    assert s.sigpipe == s.sigpipe[..m] + s.sigpipe[m..];
  }

  lemma ParentOnTheWay(s: State)
    requires Shaped(s) && Enabled(s, Parent) && OnTheWay(s)
    ensures OnTheWay(Apply(s, Parent)) || NoZombie(Apply(s, Parent))
  {
    if s.pc.Batch? {
      ReadOnTheWay(s);
    } else if s.pc.Bytes? && s.pc.buf != [] {
      assert s.pc.buf == [s.pc.buf[0]] + s.pc.buf[1..];
    }
  }

  lemma StepOnTheWay(s: State, e: Event)
    requires Shaped(s) && Enabled(s, e) && OnTheWay(s) && HasRoom(s, e)
    ensures OnTheWay(Apply(s, e)) || NoZombie(Apply(s, e))
  {
    if e == Parent {
      ParentOnTheWay(s);
    } else if e == HandlerSends && s.handler == Some(SigChld) && |s.sigpipe| < s.cap {
      assert Apply(s, e).sigpipe[|s.sigpipe|] == SigChld;
    }
  }

  lemma StepZombies(s: State, e: Event)
    requires Shaped(s) && Enabled(s, e) && NoZombie(s)
    ensures Covered(Apply(s, e))
  {
  }

  lemma StepCovered(s: State, e: Event)
    requires Shaped(s) && Enabled(s, e) && Covered(s) && HasRoom(s, e)
    ensures Covered(Apply(s, e))
  {
    if NoZombie(s) {
      StepZombies(s, e);
    } else {
      StepOnTheWay(s, e);
    }
  }

  /** However many deaths one SIGCHLD stands for, every zombie of every run with room has a SIGCHLD on the way. */
  lemma {:induction false} NoDeathForgotten(s: State, tr: seq<Event>)
    requires Shaped(s) && Covered(s) && Legal(s, tr) && RoomAlong(s, tr)
    ensures Covered(Exec(s, tr))
    decreases |tr|
  {
    if tr != [] {
      StepCovered(s, tr[0]);
      NoDeathForgotten(Apply(s, tr[0]), tr[1..]);
    }
  }

  // How many signals the promise survives: fewer than the signal pipe holds bytes, not counting SIGCHLDs.

  function OtherSignals(tr: seq<Event>): nat {
    if tr == [] then 0
    else (if tr[0].Signalled? && tr[0].sig != SigChld then 1 else 0) + OtherSignals(tr[1..])
  }

  /** The signals that somebody sends in a run. */
  function Signals(tr: seq<Event>): nat {
    if tr == [] then 0 else (if tr[0].Signalled? then 1 else 0) + Signals(tr[1..])
  }

  lemma {:induction false} OthersAreSignals(tr: seq<Event>)
    ensures OtherSignals(tr) <= Signals(tr)
  {
    if tr != [] {
      OthersAreSignals(tr[1..]);
    }
  }

  /** The bytes in the pipe that are no SIGCHLDs. */
  function OtherBytes(bytes: seq<Sig>): nat {
    if bytes == [] then 0 else (if bytes[0] != SigChld then 1 else 0) + OtherBytes(bytes[1..])
  }

  /** The bytes that signals other than SIGCHLD take up, or will take up, in the pipe. */
  function Noise(s: State): nat {
    |s.pending - {SigChld}| + (if s.handler.Some? && s.handler.value != SigChld then 1 else 0) + OtherBytes(s.sigpipe)
  }

  lemma {:induction false} OtherBytesAppend(a: seq<Sig>, b: seq<Sig>)
    ensures OtherBytes(a + b) == OtherBytes(a) + OtherBytes(b)
  {
    if a == [] {
      assert a + b == b;
    } else {
      OtherBytesAppend(a[1..], b);
      assert (a + b)[1..] == a[1..] + b;
    }
  }

  lemma {:induction false} OnlyOtherBytes(bytes: seq<Sig>)
    requires SigChld !in bytes
    ensures OtherBytes(bytes) == |bytes|
  {
    if bytes != [] {
      OnlyOtherBytes(bytes[1..]);
    }
  }

  lemma OneMore(a: set<Sig>, sig: Sig)
    ensures |a + {sig}| <= |a| + 1
    ensures sig in a ==> |a - {sig}| == |a| - 1
  {
    if sig in a {
      assert a + {sig} == a;
    }
  }

  lemma RaisedNoise(pending: set<Sig>, sig: Sig)
    ensures |(pending + {sig}) - {SigChld}| <= |pending - {SigChld}| + (if sig != SigChld then 1 else 0)
  {
    var p := pending - {SigChld};
    assert (pending + {sig}) - {SigChld} == if sig == SigChld then p else p + {sig};
    OneMore(p, sig);
  }

  lemma DeliveredNoise(pending: set<Sig>, sig: Sig)
    requires sig in pending
    ensures |(pending - {sig}) - {SigChld}| == |pending - {SigChld}| - (if sig != SigChld then 1 else 0)
  {
    var p := pending - {SigChld};
    assert (pending - {sig}) - {SigChld} == if sig == SigChld then p else p - {sig};
    OneMore(p, sig);
  }

  lemma HandlerNoise(s: State)
    requires Shaped(s) && Enabled(s, HandlerSends)
    ensures Noise(Apply(s, HandlerSends)) <= Noise(s)
  {
    OtherBytesAppend(s.sigpipe, [s.handler.value]);
    assert OtherBytes([s.handler.value][1..]) == 0;
  }

  lemma ParentNoise(s: State)
    requires Shaped(s) && Enabled(s, Parent)
    ensures Noise(Apply(s, Parent)) <= Noise(s)
  {
    hide Apply;
    ParentPipe(s);
    var m := if |s.sigpipe| < BUFFER then |s.sigpipe| else BUFFER;
    assert s.sigpipe == s.sigpipe[..m] + s.sigpipe[m..];
    OtherBytesAppend(s.sigpipe[..m], s.sigpipe[m..]);
  }

  lemma ParentPipe(s: State)
    requires Shaped(s) && Enabled(s, Parent)
    ensures var t := Apply(s, Parent);
            var m := if |s.sigpipe| < BUFFER then |s.sigpipe| else BUFFER;
            && t.pending == s.pending && t.handler == s.handler
            && (t.sigpipe == s.sigpipe || t.sigpipe == s.sigpipe[m..])
  {
  }

  /** Signals become pending or start their handler; the pipe is left alone. */
  lemma SignalStepNoise(s: State, e: Event)
    requires Shaped(s) && Enabled(s, e) && (e.Signalled? || e.Deliver?)
    ensures Noise(Apply(s, e)) <= Noise(s) + (if e.Signalled? && e.sig != SigChld then 1 else 0)
  {
    if e.Signalled? {
      RaisedNoise(s.pending, e.sig);
    } else {
      DeliveredNoise(s.pending, e.sig);
    }
  }

  lemma OthersKeepPipe(s: State, e: Event)
    requires Shaped(s) && Enabled(s, e) && !e.Signalled? && !e.Deliver? && !e.HandlerSends? && !e.Parent?
    ensures var t := Apply(s, e);
            && t.handler == s.handler && t.sigpipe == s.sigpipe
            && (t.pending == s.pending || t.pending == s.pending + {SigChld})
  {
  }

  lemma OtherNoise(s: State, e: Event)
    requires Shaped(s) && Enabled(s, e) && !e.Signalled? && !e.Deliver? && !e.HandlerSends? && !e.Parent?
    ensures Noise(Apply(s, e)) == Noise(s)
  {
    hide Apply, OtherBytes;
    OthersKeepPipe(s, e);
    assert Apply(s, e).pending - {SigChld} == s.pending - {SigChld};
  }

  lemma StepNoise(s: State, e: Event)
    requires Shaped(s) && Enabled(s, e)
    ensures Noise(Apply(s, e)) <= Noise(s) + (if e.Signalled? && e.sig != SigChld then 1 else 0)
  {
    hide Noise, Apply;
    match e
    case Signalled(_) => SignalStepNoise(s, e);
    case Deliver(_) => SignalStepNoise(s, e);
    case HandlerSends => HandlerNoise(s);
    case Parent => ParentNoise(s);
    case _ => OtherNoise(s, e);
  }

  lemma {:induction false} FewSignalsLeaveRoom(s: State, tr: seq<Event>)
    requires Shaped(s) && Legal(s, tr) && Noise(s) + OtherSignals(tr) < s.cap
    ensures RoomAlong(s, tr)
    decreases |tr|
  {
    hide Apply, Enabled;
    if tr != [] {
      StepNoise(s, tr[0]);
      if SigChld !in s.sigpipe {
        OnlyOtherBytes(s.sigpipe);
      }
      FewSignalsLeaveRoom(Apply(s, tr[0]), tr[1..]);
    }
  }

  /** The parent is at its loop head with i bytes sent to the signal pipe, all of them for `sig`. */
  predicate Stuffed(s: State, i: nat, sig: Sig) {
    && s.pc == Head && s.pending == {} && s.handler == None
    && (forall b :: b in s.sigpipe ==> b == sig) && |s.sigpipe| == if i < s.cap then i else s.cap
  }

  /** Event e makes a signal pending, and its handler runs at once: its byte fits, or is dropped. */
  lemma Handled(s: State, e: Event, sig: Sig) returns (tr: seq<Event>, t: State)
    requires Shaped(s) && s.pc == Head && s.pending == {} && s.handler == None
    requires Enabled(s, e) && (e == Signalled(sig) || (e.Dies? && sig == SigChld))
    ensures Legal(s, tr) && Exec(s, tr) == t
    ensures t == HandlerSent(Apply(s, e).(pending := {}, handler := Some(sig)))
    ensures Signals(tr) == (if e.Signalled? then 1 else 0)
    ensures OtherSignals(tr) == (if e.Signalled? && sig != SigChld then 1 else 0)
    ensures Signalled(SigTerm) in tr <==> e == Signalled(SigTerm)
  {
    var u := Apply(s, e);
    assert u.pending == {sig};
    var v := Apply(u, Deliver(sig));
    assert v.pending == {};
    t := Apply(v, HandlerSends);
    Prepend(v, HandlerSends, [], t);
    Prepend(u, Deliver(sig), [HandlerSends] + [], t);
    Prepend(s, e, [Deliver(sig)] + ([HandlerSends] + []), t);
    tr := [e] + ([Deliver(sig)] + ([HandlerSends] + []));
  }

  /** n signals of one kind that the parent has not looked at yet. */
  lemma {:induction false} Stuff(s: State, i: nat, n: nat, sig: Sig) returns (tr: seq<Event>)
    requires Shaped(s) && Stuffed(s, i, sig)
    ensures Legal(s, tr) && Signals(tr) == n && OtherSignals(tr) == if sig == SigChld then 0 else n
    ensures Stuffed(Exec(s, tr), i + n, sig) && Exec(s, tr).kids == s.kids
    ensures n > 0 && sig == SigTerm ==> Signalled(SigTerm) in tr
    decreases n
  {
    tr := [];
    if n > 0 {
      var one, t := Handled(s, Signalled(sig), sig);
      var rest := Stuff(t, i + 1, n - 1, sig);
      Concat(s, one, rest);
      SignalsAppend(one, rest);
      tr := one + rest;
    }
  }

  lemma Forget(s: State, k: nat, n: nat) returns (tr: seq<Event>)
    requires Starts(s) && k < |s.kids| && s.kids[k].Alive? && n >= s.cap
    ensures Legal(s, tr) && OtherSignals(tr) == n && !Covered(Exec(s, tr))
  {
    tr := Stuff(s, 0, n, SigTerm);
    var u := Exec(s, tr);
    RunKeepsFds(s, tr);
    var last, t := Handled(u, Dies(k), SigChld);
    assert t.kids[k] == Zombie;
    Concat(s, tr, last);
    SignalsAppend(tr, last);
    tr := tr + last;
  }

  /**
   The exact condition, for every pool whose handlers were in place in time and every capacity of the signal pipe: that
   every run with n signals other than SIGCHLD keeps a SIGCHLD on the way to every zombie holds iff n bytes do not fill
   the pipe.
   */
  lemma DeathsKeptIff(s: State, n: nat)
    requires Starts(s) && NoZombie(s)
    ensures n < s.cap <==> forall tr | Legal(s, tr) && OtherSignals(tr) == n :: Covered(Exec(s, tr))
  {
    if n < s.cap {
      forall tr | Legal(s, tr) && OtherSignals(tr) == n
        ensures Covered(Exec(s, tr))
      {
        FewSignalsLeaveRoom(s, tr);
        NoDeathForgotten(s, tr);
      }
    } else {
      assert s.kids[0] in s.kids;
      var tr := Forget(s, 0, n);
      assert !Covered(Exec(s, tr));
    }
  }

  /** No step of the run makes a SIGCHLD pending. */
  predicate Quiet(s: State, tr: seq<Event>)
    requires Shaped(s) && Legal(s, tr)
    decreases |tr|
  {
    tr == [] || (SigChld !in Apply(s, tr[0]).pending && Quiet(Apply(s, tr[0]), tr[1..]))
  }

  lemma StepForgotten(s: State, e: Event, k: nat)
    requires Shaped(s) && Enabled(s, e) && k < |s.kids| && s.kids[k] == Zombie && !OnTheWay(s)
    requires SigChld !in Apply(s, e).pending
    ensures Apply(s, e).kids[k] == Zombie && !OnTheWay(Apply(s, e))
  {
    if e == Parent {
      ParentForgotten(s, k);
    }
  }

  lemma ParentForgotten(s: State, k: nat)
    requires Shaped(s) && Enabled(s, Parent) && k < |s.kids| && s.kids[k] == Zombie && !OnTheWay(s)
    ensures Apply(s, Parent).kids[k] == Zombie && !OnTheWay(Apply(s, Parent))
  {
  }

  /**
   What a forgotten death costs: until another SIGCHLD is raised the child stays a zombie and the parent cannot stop,
   whether the byte was dropped or the child died before the handlers were in place.
   */
  lemma {:induction false} ForgottenStaysForgotten(s: State, tr: seq<Event>, k: nat)
    requires Inv(s) && k < |s.kids| && s.kids[k] == Zombie && !OnTheWay(s) && Legal(s, tr) && Quiet(s, tr)
    ensures var t := Exec(s, tr); t.kids[k] == Zombie && !OnTheWay(t) && t.pc != Out && !t.table.stop
    decreases |tr|
  {
    if tr == [] {
      assert s.table.pids[k] != DEAD;
    } else {
      StepForgotten(s, tr[0], k);
      StepInv(s, tr[0]);
      ForgottenStaysForgotten(Apply(s, tr[0]), tr[1..], k);
    }
  }

  lemma {:induction false} Concat(s: State, a: seq<Event>, b: seq<Event>)
    requires Shaped(s) && Legal(s, a) && Legal(Exec(s, a), b)
    ensures Legal(s, a + b) && Exec(s, a + b) == Exec(Exec(s, a), b)
    decreases |a|
  {
    hide Apply, Enabled;
    if a == [] {
      assert a + b == b;
    } else {
      Concat(Apply(s, a[0]), a[1..], b);
      assert (a + b)[1..] == a[1..] + b;
    }
  }

  lemma {:induction false} SignalsAppend(a: seq<Event>, b: seq<Event>)
    ensures OtherSignals(a + b) == OtherSignals(a) + OtherSignals(b) && Signals(a + b) == Signals(a) + Signals(b)
  {
    if a == [] {
      assert a + b == b;
    } else {
      SignalsAppend(a[1..], b);
      assert (a + b)[1..] == a[1..] + b;
    }
  }

  lemma Prepend(s: State, e: Event, tr: seq<Event>, t: State)
    requires Shaped(s) && Enabled(s, e) && Legal(Apply(s, e), tr) && Exec(Apply(s, e), tr) == t
    ensures Legal(s, [e] + tr) && Exec(s, [e] + tr) == t
    ensures OtherSignals([e] + tr) == (if e.Signalled? && e.sig != SigChld then 1 else 0) + OtherSignals(tr)
    ensures Signals([e] + tr) == (if e.Signalled? then 1 else 0) + Signals(tr)
  {
    assert ([e] + tr)[1..] == tr;
  }
}
