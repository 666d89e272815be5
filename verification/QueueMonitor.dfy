/**
 The mutex and condition variable of ThreadSafeQueue, for any number of threads.  A thread is anywhere between the
 call of an operation and its return; `notify_one` runs under the lock, sleepers may wake for no reason, and a woken
 thread has to win the mutex again before it looks at the queue.
 */
module QueueMonitor {
  import opened Common

  type Value(==, 0, !new)
  type Tid = nat

  datatype Op = Push(v: Value) | Pop | TryPop | Empty

  datatype Result = Unit | Taken(v: Value) | NoValue | IsEmpty(empty: bool)

  datatype Pc =
    | WantLock(op: Op)               // called, not yet under the lock
    | Locked(op: Op)                 // under the lock, before the first access to the queue
    | Tested(op: Op)                 // pop, try_pop: the queue was not empty, its front is copied next
    | Copied(op: Op, v: Value)       // pop, try_pop: the front is copied and removed next
    | Notifying                      // push: the value is in the queue, notify_one is next
    | Asleep                         // pop: in wait
    | Awake                          // pop: left the wait set, has to lock again
    | Unlocking(res: Result)         // done, still under the lock
    | Finished(res: Result)          // lock released, about to return

  /** Threads that are absent from `pcs` are not inside an operation. */
  datatype State = State(
    data: seq<Value>,
    owner: Option<Tid>,
    pcs: map<Tid, Pc>,
    waiters: set<Tid>,
    notified: set<Tid>)              // woken by notify_one, and since then neither asleep again nor served

  const START := State([], None, map[], {}, {})

  /** Every access to the queue is an event of its own; only the mutex keeps other threads out in between. */
  datatype Event =
    | Call(t: Tid, op: Op)
    | Lock(t: Tid)
    | Append(t: Tid)                 // push
    | Notify(t: Tid, woken: Tid)     // push: notify_one; `woken` is ignored when nobody waits
    | Test(t: Tid)                   // the call of empty() in pop, try_pop and empty
    | Copy(t: Tid, v: Value)         // front(); of an empty queue it reads anything
    | Remove(t: Tid)                 // pop() of the underlying queue
    | Spurious(t: Tid)
    | Unlock(t: Tid)
    | Return(t: Tid)

  predicate At(s: State, t: Tid, pc: Pc) {
    t in s.pcs && s.pcs[t] == pc
  }

  predicate Enabled(s: State, e: Event) {
    match e
    case Call(t, _) => t !in s.pcs
    case Lock(t) => t in s.pcs && (s.pcs[t].WantLock? || s.pcs[t].Awake?) && s.owner == None
    case Append(t) => t in s.pcs && s.pcs[t].Locked? && s.pcs[t].op.Push?
    case Notify(t, u) => At(s, t, Notifying) && (s.waiters != {} ==> u in s.waiters)
    case Test(t) => t in s.pcs && s.pcs[t].Locked? && !s.pcs[t].op.Push?
    case Copy(t, v) => t in s.pcs && s.pcs[t].Tested? && (s.data != [] ==> v == s.data[0])
    case Remove(t) => t in s.pcs && s.pcs[t].Copied?
    case Spurious(t) => t in s.waiters
    case Unlock(t) => t in s.pcs && s.pcs[t].Unlocking?
    case Return(t) => t in s.pcs && s.pcs[t].Finished?
  }

  /** pop finds the queue empty: it releases the mutex and sleeps, in one step. */
  function Sleep(s: State, t: Tid): State {
    s.(owner := None, pcs := s.pcs[t := Asleep], waiters := s.waiters + {t}, notified := s.notified - {t})
  }

  function Apply(s: State, e: Event): State
    requires Enabled(s, e)
  {
    match e
    case Call(t, op) => s.(pcs := s.pcs[t := WantLock(op)])
    case Lock(t) =>
      s.(owner := Some(t), pcs := s.pcs[t := Locked(if s.pcs[t].WantLock? then s.pcs[t].op else Pop)])
    case Append(t) => s.(data := s.data + [s.pcs[t].op.v], pcs := s.pcs[t := Notifying])
    case Notify(t, u) =>
      if s.waiters == {} then s.(pcs := s.pcs[t := Unlocking(Unit)])
      else s.(pcs := s.pcs[u := Awake][t := Unlocking(Unit)],
              waiters := s.waiters - {u}, notified := s.notified + {u})
    case Test(t) =>
      (match s.pcs[t].op
       case Empty => s.(pcs := s.pcs[t := Unlocking(IsEmpty(s.data == []))])
       case TryPop => s.(pcs := s.pcs[t := if s.data == [] then Unlocking(NoValue) else Tested(TryPop)])
       case _ => if s.data == [] then Sleep(s, t) else s.(pcs := s.pcs[t := Tested(Pop)]))
    case Copy(t, v) => s.(pcs := s.pcs[t := Copied(s.pcs[t].op, v)])
    case Remove(t) =>
      s.(data := if s.data == [] then [] else s.data[1..],
         pcs := s.pcs[t := Unlocking(Taken(s.pcs[t].v))], notified := s.notified - {t})
    case Spurious(t) => s.(pcs := s.pcs[t := Awake], waiters := s.waiters - {t})
    case Unlock(t) => s.(owner := None, pcs := s.pcs[t := Finished(s.pcs[t].res)])
    case Return(t) => s.(pcs := s.pcs - {t})
  }

  predicate Legal(s: State, tr: seq<Event>)
    decreases |tr|
  {
    tr == [] || (Enabled(s, tr[0]) && Legal(Apply(s, tr[0]), tr[1..]))
  }

  function Exec(s: State, tr: seq<Event>): State
    requires Legal(s, tr)
    decreases |tr|
  {
    if tr == [] then s else Exec(Apply(s, tr[0]), tr[1..])
  }

  // ---------------------------------------------------------------------------------------------------------
  // The inductive invariant.

  predicate HoldsLock(pc: Pc) {
    pc.Locked? || pc.Tested? || pc.Copied? || pc.Notifying? || pc.Unlocking?
  }

  ghost predicate Exclusive(s: State) {
    && (forall t :: t in s.pcs && HoldsLock(s.pcs[t]) ==> s.owner == Some(t))
    && (s.owner.Some? ==> s.owner.value in s.pcs && HoldsLock(s.pcs[s.owner.value]))
  }

  /** What a thread has found out about the queue is still so: it is not empty, and the copied front is the front. */
  ghost predicate StillFront(s: State) {
    && (forall t :: t in s.pcs && s.pcs[t].Tested? ==> s.data != [])
    && (forall t :: t in s.pcs && s.pcs[t].Copied? ==> s.data != [] && s.data[0] == s.pcs[t].v)
  }

  /** The thread is in pop, after its wait. */
  predicate BackInPop(pc: Pc) {
    pc == Awake || pc == Locked(Pop) || pc == Tested(Pop) || (pc.Copied? && pc.op == Pop)
  }

  ghost predicate WaitSet(s: State) {
    && (forall t :: t in s.waiters <==> At(s, t, Asleep))
    && (forall t :: t in s.notified ==> t in s.pcs && BackInPop(s.pcs[t]))
    && (forall t :: t in s.pcs && (s.pcs[t].Tested? || s.pcs[t].Copied?) ==>
          s.pcs[t].op == Pop || s.pcs[t].op == TryPop)
  }

  /** A value whose push has not yet reached its notify_one. */
  function InNotify(s: State): nat {
    if s.owner.Some? && At(s, s.owner.value, Notifying) then 1 else 0
  }

  /** While somebody sleeps, every value in the queue has a notified thread, or a notify_one, on the way to it. */
  predicate Covered(s: State) {
    s.waiters != {} ==> |s.data| <= |s.notified| + InNotify(s)
  }

  ghost predicate Inv(s: State) {
    Exclusive(s) && StillFront(s) && WaitSet(s) && Covered(s)
  }

  lemma StepExclusive(s: State, e: Event)
    requires Exclusive(s) && WaitSet(s) && Enabled(s, e)
    ensures Exclusive(Apply(s, e))
  {
  }

  /** Only the owner of the mutex changes the queue, so nobody else's findings about it become stale. */
  lemma StepStillFront(s: State, e: Event)
    requires Exclusive(s) && StillFront(s) && WaitSet(s) && Enabled(s, e)
    ensures StillFront(Apply(s, e))
  {
    if e.Append? || e.Remove? {
      assert HoldsLock(s.pcs[e.t]);
      assert forall t :: t in s.pcs && t != e.t ==> !HoldsLock(s.pcs[t]);
    }
  }

  lemma StepWaitSet(s: State, e: Event)
    requires WaitSet(s) && Enabled(s, e)
    ensures WaitSet(Apply(s, e))
  {
  }

  lemma RemoveOne(a: set<Tid>, t: Tid)
    ensures t in a ==> |a - {t}| == |a| - 1
    ensures t !in a ==> a - {t} == a
  {
  }

  lemma AppendCovered(s: State, t: Tid)
    requires Inv(s) && Enabled(s, Append(t))
    ensures Covered(Apply(s, Append(t)))
  {
    assert HoldsLock(s.pcs[t]) && s.owner == Some(t);
  }

  lemma RemoveCovered(s: State, t: Tid)
    requires Inv(s) && Enabled(s, Remove(t))
    ensures Covered(Apply(s, Remove(t)))
  {
    assert HoldsLock(s.pcs[t]) && s.owner == Some(t);
    RemoveOne(s.notified, t);
  }

  lemma NotifyCovered(s: State, t: Tid, u: Tid)
    requires Inv(s) && Enabled(s, Notify(t, u))
    ensures Covered(Apply(s, Notify(t, u)))
  {
    assert HoldsLock(s.pcs[t]) && s.owner == Some(t);
    assert u in s.waiters ==> u !in s.notified;
  }

  lemma OtherCovered(s: State, e: Event)
    requires Inv(s) && Enabled(s, e) && !e.Append? && !e.Remove? && !e.Notify?
    ensures Covered(Apply(s, e))
  {
    var u := Apply(s, e);
    if u.waiters != {} && s.data != [] {
      assert u.data == s.data && u.notified == s.notified && u.waiters <= s.waiters;
      assert InNotify(u) == InNotify(s);
    }
  }

  lemma StepCovered(s: State, e: Event)
    requires Inv(s) && Enabled(s, e)
    ensures Covered(Apply(s, e))
  {
    match e
    case Append(t) => AppendCovered(s, t);
    case Remove(t) => RemoveCovered(s, t);
    case Notify(t, u) => NotifyCovered(s, t, u);
    case _ => OtherCovered(s, e);
  }

  lemma StepInv(s: State, e: Event)
    requires Inv(s) && Enabled(s, e)
    ensures Inv(Apply(s, e))
  {
    StepExclusive(s, e);
    StepStillFront(s, e);
    StepWaitSet(s, e);
    StepCovered(s, e);
  }

  lemma {:induction false} RunInv(s: State, tr: seq<Event>)
    requires Inv(s) && Legal(s, tr)
    ensures Inv(Exec(s, tr))
    decreases |tr|
  {
    if tr != [] {
      StepInv(s, tr[0]);
      RunInv(Apply(s, tr[0]), tr[1..]);
    }
  }

  // ---------------------------------------------------------------------------------------------------------
  // No lost wakeup.

  /** No run leaves a value and a sleeper with nobody on the way: a notified thread, or a push about to notify. */
  lemma NoLostWakeup(tr: seq<Event>)
    requires Legal(START, tr)
    ensures var s := Exec(START, tr);
            s.waiters != {} && s.data != [] ==>
              || (exists t :: At(s, t, Notifying))
              || (exists t :: t in s.notified && t in s.pcs && BackInPop(s.pcs[t]))
    ensures var s := Exec(START, tr); s.waiters != {} ==> |s.data| <= |s.notified| + InNotify(s)
  {
    RunInv(START, tr);
    var s := Exec(START, tr);
    if s.waiters != {} && s.data != [] && InNotify(s) == 0 {
      assert s.notified != {};
      var t :| t in s.notified;
      assert t in s.pcs && BackInPop(s.pcs[t]);
    }
  }

  /** Steps that a thread inside an operation takes by itself. */
  predicate Internal(e: Event) {
    !e.Call? && !e.Spurious?
  }

  ghost predicate Stuck(s: State) {
    forall e :: Internal(e) ==> !Enabled(s, e)
  }

  /** The owner of the mutex always has a next step. */
  lemma OwnerMoves(s: State)
    requires Inv(s) && s.owner.Some?
    ensures exists e :: Internal(e) && Enabled(s, e)
  {
    var t := s.owner.value;
    match s.pcs[t]
    case Locked(op) =>
      if op.Push? {
        assert Internal(Append(t)) && Enabled(s, Append(t));
      } else {
        assert Internal(Test(t)) && Enabled(s, Test(t));
      }
    case Tested(_) => assert Internal(Copy(t, s.data[0])) && Enabled(s, Copy(t, s.data[0]));
    case Copied(_, _) => assert Internal(Remove(t)) && Enabled(s, Remove(t));
    case Notifying =>
      var u: Tid := if s.waiters == {} then t else var u :| u in s.waiters; u;
      assert Internal(Notify(t, u)) && Enabled(s, Notify(t, u));
    case Unlocking(_) => assert Internal(Unlock(t)) && Enabled(s, Unlock(t));
    case _ =>
  }

  /** When no thread can move, every thread sleeps in pop and the queue they wait for is empty. */
  lemma StuckMeansWaitingOnEmpty(tr: seq<Event>)
    requires Legal(START, tr) && Stuck(Exec(START, tr))
    ensures var s := Exec(START, tr);
            (forall t :: t in s.pcs ==> s.pcs[t] == Asleep) && (s.pcs != map[] ==> s.data == [])
  {
    RunInv(START, tr);
    var s := Exec(START, tr);
    if s.owner.Some? {
      OwnerMoves(s);
    }
    forall t | t in s.pcs
      ensures s.pcs[t] == Asleep
    {
      assert Internal(Lock(t)) && Internal(Return(t));
      assert !Enabled(s, Lock(t)) && !Enabled(s, Return(t));
    }
    if s.pcs != map[] {
      assert s.pcs.Keys != {};
      var t :| t in s.pcs;
      assert t in s.waiters;
      assert s.notified == {};
    }
  }

  // ---------------------------------------------------------------------------------------------------------
  // FIFO order over whole runs.

  /** The value a step appends to the queue. */
  function Appended(s: State, e: Event): seq<Value>
    requires Enabled(s, e)
  {
    if e.Append? then [s.pcs[e.t].op.v] else []
  }

  /** The value with which a caller leaves when it removes the front: the one it copied before. */
  function Handed(s: State, e: Event): seq<Value>
    requires Enabled(s, e)
  {
    if e.Remove? then [s.pcs[e.t].v] else []
  }

  /** The values a run appends, in the order in which the lock was held. */
  function Pushed(s: State, tr: seq<Event>): seq<Value>
    requires Legal(s, tr)
    decreases |tr|
  {
    if tr == [] then [] else Appended(s, tr[0]) + Pushed(Apply(s, tr[0]), tr[1..])
  }

  /** The values a run hands to callers, in the order in which the lock was held. */
  function Popped(s: State, tr: seq<Event>): seq<Value>
    requires Legal(s, tr)
    decreases |tr|
  {
    if tr == [] then [] else Handed(s, tr[0]) + Popped(Apply(s, tr[0]), tr[1..])
  }

  lemma FifoStep(s: State, e: Event)
    requires StillFront(s) && Enabled(s, e)
    ensures s.data + Appended(s, e) == Handed(s, e) + Apply(s, e).data
  {
  }

  /** Four parts, regrouped. */
  lemma Regroup(
      a: seq<Value>, b: seq<Value>, c: seq<Value>, d: seq<Value>, b': seq<Value>, c': seq<Value>, d': seq<Value>)
    requires a + b == c + d && d + b' == c' + d'
    ensures a + (b + b') == (c + c') + d'
  {
    assert a + (b + b') == (a + b) + b';
    assert (c + d) + b' == c + (d + b');
    assert c + (c' + d') == (c + c') + d';
  }

  /** What was there and what was pushed is what was popped, in the same order, and what is left. */
  lemma {:induction false} FifoConservation(s: State, tr: seq<Event>)
    requires Inv(s) && Legal(s, tr)
    ensures s.data + Pushed(s, tr) == Popped(s, tr) + Exec(s, tr).data
    decreases |tr|
  {
    hide StillFront, Exclusive, WaitSet, Covered, Enabled, Apply, Appended, Handed;
    if tr != [] {
      var e, rest := tr[0], tr[1..];
      var u := Apply(s, e);
      StepInv(s, e);
      FifoStep(s, e);
      FifoConservation(u, rest);
      Regroup(s.data, Appended(s, e), Handed(s, e), u.data, Pushed(u, rest), Popped(u, rest), Exec(u, rest).data);
    }
  }

  // ---------------------------------------------------------------------------------------------------------
  // Linearizability: the monitor refines an atomic queue object.

  datatype Status = Called(op: Op) | Done(res: Result)

  /** Between its call and its return an operation takes effect at one instant. */
  datatype Object = Object(contents: seq<Value>, ops: map<Tid, Status>)

  /** What a FIFO queue does; pop takes effect only when there is a value, try_pop fails only when there is none. */
  predicate QueueOp(before: seq<Value>, op: Op, res: Result, after: seq<Value>) {
    match op
    case Push(v) => res == Unit && after == before + [v]
    case Pop => res.Taken? && before == [res.v] + after
    case TryPop =>
      if res.NoValue? then before == after == [] else res.Taken? && before == [res.v] + after
    case Empty => res == IsEmpty(|before| == 0) && after == before
  }

  ghost predicate TakesEffect(a: Object, b: Object, t: Tid) {
    && t in a.ops && a.ops[t].Called? && t in b.ops && b.ops[t].Done?
    && b.ops == a.ops[t := b.ops[t]]
    && QueueOp(a.contents, a.ops[t].op, b.ops[t].res, b.contents)
  }

  /** A push has taken effect once its value is appended, a pop or try_pop once the front is removed. */
  function StatusOf(pc: Pc): Status {
    match pc
    case WantLock(op) => Called(op)
    case Locked(op) => Called(op)
    case Tested(op) => Called(op)
    case Copied(op, _) => Called(op)
    case Notifying => Done(Unit)
    case Asleep => Called(Pop)
    case Awake => Called(Pop)
    case Unlocking(r) => Done(r)
    case Finished(r) => Done(r)
  }

  function Abs(s: State): Object {
    Object(s.data, map t | t in s.pcs :: StatusOf(s.pcs[t]))
  }

  /** The step at which an operation takes effect, if e is that step. */
  predicate Effective(s: State, e: Event)
    requires Enabled(s, e)
  {
    e.Append? || e.Remove? || (e.Test? && !Apply(s, e).pcs[e.t].Tested? && !Apply(s, e).pcs[e.t].Asleep?)
  }

  lemma AppendEffect(s: State, t: Tid)
    requires Enabled(s, Append(t))
    ensures TakesEffect(Abs(s), Abs(Apply(s, Append(t))), t)
  {
    var a, b := Abs(s), Abs(Apply(s, Append(t)));
    assert b.ops == a.ops[t := b.ops[t]];
  }

  /** This is where the mutex is needed: what is removed is what was copied, and the queue is not empty. */
  lemma RemoveEffect(s: State, t: Tid)
    requires StillFront(s) && WaitSet(s) && Enabled(s, Remove(t))
    ensures TakesEffect(Abs(s), Abs(Apply(s, Remove(t))), t)
  {
    var a, b := Abs(s), Abs(Apply(s, Remove(t)));
    assert b.ops == a.ops[t := b.ops[t]];
    assert s.data == [s.pcs[t].v] + s.data[1..];
  }

  lemma TestEffect(s: State, t: Tid)
    requires Enabled(s, Test(t))
    ensures var e := Test(t);
            if Effective(s, e) then TakesEffect(Abs(s), Abs(Apply(s, e)), t) else Abs(Apply(s, e)) == Abs(s)
  {
    var a, b := Abs(s), Abs(Apply(s, Test(t)));
    assert b.ops == a.ops[t := b.ops[t]];
  }

  lemma Invisible(s: State, e: Event)
    requires WaitSet(s) && Enabled(s, e) && (e.Lock? || e.Notify? || e.Copy? || e.Spurious? || e.Unlock?)
    ensures Abs(Apply(s, e)) == Abs(s)
  {
    assert Abs(Apply(s, e)).ops == Abs(s).ops;
  }

  /**
   A call is a call, a return hands out the result fixed when the operation took effect, and every operation takes
   effect at one of its accesses to the queue; all other steps, of any thread, change nothing that can be seen.
   */
  lemma Linearizable(s: State, e: Event)
    requires Inv(s) && Enabled(s, e)
    ensures var a, b := Abs(s), Abs(Apply(s, e));
            match e
            case Call(t, op) => t !in a.ops && b == a.(ops := a.ops[t := Called(op)])
            case Return(t) => t in a.ops && a.ops[t] == Done(s.pcs[t].res) && b == a.(ops := a.ops - {t})
            case _ => if Effective(s, e) then TakesEffect(a, b, e.t) else b == a
  {
    match e
    case Call(_, _) =>
    case Return(_) =>
    case Append(t) => AppendEffect(s, t);
    case Remove(t) => RemoveEffect(s, t);
    case Test(t) => TestEffect(s, t);
    case _ => Invisible(s, e);
  }
}
