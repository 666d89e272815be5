/**
 What the dispatch protocol promises over whole runs: no connection is left behind, a TERMINATE overtakes nothing
 that was dispatched before it, the protocol refines round-robin dispatch, and it comes to rest.
 */
module ThreadPoolTheorems {
  import opened ThreadPoolModel

  // ---------------------------------------------------------------------------------------------------------
  // No lost hand-off.

  function Terminates(pipe: seq<Byte>): nat {
    if pipe == [] then 0 else Terminates(pipe[1..]) + (if pipe[0].msg == Terminate then 1 else 0)
  }

  /** How many SIGINTs the main thread handles in a run. */
  function Interrupts(tr: seq<Event>): nat {
    if tr == [] then 0 else (if tr[0] == Interrupt then 1 else 0) + Interrupts(tr[1..])
  }

  /** A pipe has at most `n` TERMINATE bytes, the one that the SIGINT loop has still to send included. */
  predicate TerminatesUpTo(s: State, w: nat, n: nat)
    requires Shaped(s) && w < |s.queues|
  {
    Terminates(s.pipes[w]) + (if s.main.Signalling? && s.main.next <= w then 1 else 0) <= n
  }

  lemma {:induction false} TerminatesAppend(pipe: seq<Byte>, b: Byte)
    ensures Terminates(pipe + [b]) == Terminates(pipe) + (if b.msg == Terminate then 1 else 0)
  {
    if pipe == [] {
      assert [b][1..] == [];
    } else {
      TerminatesAppend(pipe[1..], b);
      assert (pipe + [b])[1..] == pipe[1..] + [b];
    }
  }

  lemma {:induction false} NoNewAllTerminate(pipe: seq<Byte>)
    requires !HasNew(pipe)
    ensures Terminates(pipe) == |pipe|
  {
    if pipe != [] {
      assert pipe[0].msg == Terminate;
      forall i | 0 <= i < |pipe[1..]|
        ensures pipe[1..][i].msg != New
      {
        assert pipe[1..][i] == pipe[i + 1];
      }
      NoNewAllTerminate(pipe[1..]);
    }
  }

  lemma StepTerminates(s: State, e: Event, w: nat, n: nat)
    requires Shaped(s) && Enabled(s, e) && w < |s.queues| && TerminatesUpTo(s, w, n)
    ensures TerminatesUpTo(Apply(s, e), w, if e == Interrupt then n + 1 else n)
  {
    StepPipe(s, e, w);
    TerminatesAppend(s.pipes[w], Byte(Terminate, |Contents(s, w)|));
    TerminatesAppend(s.pipes[w], Byte(New, |Contents(s, w)|));
  }

  lemma {:induction false} RunTerminates(s: State, tr: seq<Event>, w: nat, n: nat)
    requires Shaped(s) && Legal(s, tr) && w < |s.queues| && TerminatesUpTo(s, w, n)
    ensures TerminatesUpTo(Exec(s, tr), w, n + Interrupts(tr))
    decreases |tr|
  {
    hide Apply, Enabled, TerminatesUpTo;
    if tr != [] {
      StepTerminates(s, tr[0], w, n);
      RunTerminates(Apply(s, tr[0]), tr[1..], w, if tr[0] == Interrupt then n + 1 else n);
    }
  }

  /** Worker w is between connections, with one waiting for it and no send pending. */
  predicate Left(s: State, w: nat)
    requires Shaped(s) && w < |s.queues|
  {
    !s.stopped[w] && s.queues[w] != [] && !InDrain(s.pcs[w]) && !(s.main == Pushed && s.cur == w)
  }

  /**
   In every reachable state, a worker that has not stopped and has a waiting connection is draining, or the main
   thread is between push and send for it, or a byte in its pipe will wake it: a NEW byte, or else the pipe is full
   and every byte in it is a TERMINATE, which takes as many SIGINTs as the pipe holds bytes.
   */
  lemma NoLostHandOff(concur: nat, cap: nat, tr: seq<Event>, w: nat)
    requires concur > 0 && cap > 0 && Legal(Init(concur, cap), tr) && w < concur
    ensures var s := Exec(Init(concur, cap), tr);
            Left(s, w) ==>
              && s.pipes[w] != []
              && (HasNew(s.pipes[w]) || (Terminates(s.pipes[w]) == |s.pipes[w]| >= cap && Interrupts(tr) >= cap))
  {
    var s := Init(concur, cap);
    InitInv(concur, cap);
    RunInv(s, tr);
    RunTerminates(s, tr, w, 0);
    var t := Exec(s, tr);
    assert HandOff(t, w);
    if !HasNew(t.pipes[w]) {
      NoNewAllTerminate(t.pipes[w]);
    }
  }

  // The bound is sharp: `cap` SIGINTs, and then an accept, leave worker 0 without a NEW byte.

  /** Worker 0 has not moved yet, and i of its TERMINATE bytes were sent. */
  predicate Filled(s: State, i: nat)
    requires Shaped(s)
  {
    && s.cur == 0 && s.queues[0] == [] && s.pcs[0] == InLoop && !s.stopped[0]
    && !HasNew(s.pipes[0]) && |s.pipes[0]| == if i < s.cap then i else s.cap
  }

  lemma {:induction false} Concat(s: State, a: seq<Event>, b: seq<Event>)
    requires Shaped(s) && Legal(s, a) && Legal(Exec(s, a), b)
    ensures Legal(s, a + b) && Exec(s, a + b) == Exec(Exec(s, a), b)
    ensures Interrupts(a + b) == Interrupts(a) + Interrupts(b)
    decreases |a|
  {
    hide Apply, Enabled;
    if a == [] {
      assert a + b == b;
    } else {
      Concat(Apply(s, a[0]), a[1..], b);
      assert (a + b)[1..] == a[1..] + b;
    }
  }

  lemma Single(s: State, e: Event)
    requires Shaped(s) && Enabled(s, e)
    ensures Legal(s, [e]) && Exec(s, [e]) == Apply(s, e) && Interrupts([e]) == if e == Interrupt then 1 else 0
  {
    assert [e][1..] == [];
    assert Interrupts([e][1..]) == 0 && Legal(Apply(s, e), []);
  }

  /** The rest of the SIGINT loop. */
  lemma {:induction false} SignalRest(s: State, i: nat) returns (tr: seq<Event>)
    requires Shaped(s) && s.main.Signalling? && Filled(s, if s.main.next == 0 then i else i + 1)
    ensures Legal(s, tr) && Interrupts(tr) == 0 && Exec(s, tr).main == MainLoop && Filled(Exec(s, tr), i + 1)
    decreases |s.queues| - s.main.next
  {
    var t := Apply(s, SendTerminate);
    Single(s, SendTerminate);
    tr := [SendTerminate];
    if t.main.Signalling? {
      var rest := SignalRest(t, i);
      Concat(s, tr, rest);
      tr := tr + rest;
    }
  }

  /** n SIGINTs in a row. */
  lemma {:induction false} InterruptTimes(s: State, i: nat, n: nat) returns (tr: seq<Event>)
    requires Shaped(s) && s.main == MainLoop && Filled(s, i)
    ensures Legal(s, tr) && Interrupts(tr) == n && Exec(s, tr).main == MainLoop && Filled(Exec(s, tr), i + n)
    decreases n
  {
    hide Filled, Apply, Enabled;
    tr := [];
    if n > 0 {
      InterruptEnabled(s, i);
      var u := Apply(s, Interrupt);
      Single(s, Interrupt);
      var sent := SignalRest(u, i);
      Concat(s, [Interrupt], sent);
      var rest := InterruptTimes(Exec(u, sent), i + 1, n - 1);
      Concat(s, [Interrupt] + sent, rest);
      tr := [Interrupt] + sent + rest;
    }
  }

  lemma InterruptEnabled(s: State, i: nat)
    requires Shaped(s) && s.main == MainLoop && Filled(s, i)
    ensures Enabled(s, Interrupt)
    ensures var u := Apply(s, Interrupt); u.main == Signalling(0) && Filled(u, i)
  {
  }

  lemma NewByteDropped(concur: nat, cap: nat, n: nat) returns (tr: seq<Event>)
    requires 0 < concur && 0 < cap <= n
    ensures Legal(Init(concur, cap), tr) && Interrupts(tr) == n
    ensures var s := Exec(Init(concur, cap), tr); Left(s, 0) && !HasNew(s.pipes[0])
  {
    var s := Init(concur, cap);
    tr := InterruptTimes(s, 0, n);
    var t := Exec(s, tr);
    var c: Conn := *;
    Single(t, Accept(c));
    var u := Apply(t, Accept(c));
    Single(u, SendNew);
    Concat(s, tr, [Accept(c)]);
    Concat(s, tr + [Accept(c)], [SendNew]);
    tr := tr + [Accept(c)] + [SendNew];
  }

  /**
   The exact condition, for any number of workers and any capacity: that every run with n SIGINTs keeps a NEW byte for
   every worker it leaves with a waiting connection holds iff the pipe takes more than n bytes.
   */
  lemma NewByteKeptIff(concur: nat, cap: nat, n: nat)
    requires concur > 0 && cap > 0
    ensures n < cap <==>
            forall tr, w: nat | Legal(Init(concur, cap), tr) && Interrupts(tr) == n && w < concur ::
              var s := Exec(Init(concur, cap), tr); Left(s, w) ==> HasNew(s.pipes[w])
  {
    if n < cap {
      forall tr, w: nat | Legal(Init(concur, cap), tr) && Interrupts(tr) == n && w < concur
        ensures var s := Exec(Init(concur, cap), tr); Left(s, w) ==> HasNew(s.pipes[w])
      {
        NoLostHandOff(concur, cap, tr, w);
      }
    } else {
      var tr := NewByteDropped(concur, cap, n);
      var s := Exec(Init(concur, cap), tr);
      assert Left(s, 0) && !HasNew(s.pipes[0]);
    }
  }

  // ---------------------------------------------------------------------------------------------------------
  // Clean termination.

  /** No TERMINATE that is still in the pipe was sent before `m` connections had been pushed for w. */
  predicate TerminatesAfter(s: State, w: nat, m: nat)
    requires Shaped(s) && w < |s.queues|
  {
    && |Contents(s, w)| >= m
    && forall p :: 0 <= p < |s.pipes[w]| && s.pipes[w][p].msg == Terminate ==> s.pipes[w][p].at >= m
  }

  lemma RegisteredIsPrefix(s: State, w: nat)
    requires Inv(s) && w < |s.queues|
    ensures s.registered[w] <= Share(s.accepted, w, |s.queues|)
  {
    assert InOrder(s, w);
    assert s.registered[w] <= Contents(s, w);
  }

  lemma {:induction false} RegisteredGrows(s: State, tr: seq<Event>, w: nat)
    requires Shaped(s) && Legal(s, tr) && w < |s.queues|
    ensures s.registered[w] <= Exec(s, tr).registered[w]
    decreases |tr|
  {
    if tr != [] {
      var t := Apply(s, tr[0]);
      assert s.registered[w] <= t.registered[w];
      RegisteredGrows(t, tr[1..], w);
    }
  }

  lemma StepTerminatesAfter(s: State, e: Event, w: nat, m: nat)
    requires Shaped(s) && Enabled(s, e) && w < |s.queues| && TerminatesAfter(s, w, m)
    ensures TerminatesAfter(Apply(s, e), w, m)
  {
    var t := Apply(s, e);
    StepContents(s, e, w);
    StepPipe(s, e, w);
    forall p | 0 <= p < |t.pipes[w]| && t.pipes[w][p].msg == Terminate
      ensures t.pipes[w][p].at >= m
    {
      if e == Recv(w) && s.pipes[w] != [] {
        assert t.pipes[w][p] == s.pipes[w][p + 1];
      }
    }
  }

  /** The step at which a worker stops: everything pushed before that TERMINATE was sent is registered. */
  lemma StopsClean(s: State, e: Event, w: nat, m: nat)
    requires Shaped(s) && Enabled(s, e) && w < |s.queues| && TerminateOrdered(s, w)
    requires !s.stopped[w] && TerminatesAfter(s, w, m)
    requires e != RecvFail(w) && Apply(s, e).stopped[w]
    ensures |Apply(s, e).registered[w]| >= m
  {
    assert e == Recv(w) && s.pipes[w][0].msg == Terminate;
    assert Follows(s, w, 0) && s.pipes[w][..0] == [];
  }

  /**
   From the moment at which `m` connections have been pushed for w and no TERMINATE byte is on its way, every run in
   which w first stops by reading a TERMINATE (and not because its pipe failed) has registered those m connections
   by then: they are the first m of w's share, in accept order.
   */
  lemma {:induction false} CleanTermination(s: State, tr: seq<Event>, w: nat, m: nat)
    requires Inv(s) && Legal(s, tr) && w < |s.queues|
    requires !s.stopped[w] && TerminatesAfter(s, w, m)
    requires RecvFail(w) !in tr && Exec(s, tr).stopped[w]
    ensures var t := Exec(s, tr);
            |t.registered[w]| >= m && t.registered[w] <= Share(t.accepted, w, |t.queues|)
    decreases |tr|
  {
    var t := Apply(s, tr[0]);
    assert tr[0] in tr;
    StepInv(s, tr[0]);
    if t.stopped[w] {
      assert TerminateOrdered(s, w);
      StopsClean(s, tr[0], w, m);
      RegisteredGrows(t, tr[1..], w);
      RunInv(t, tr[1..]);
      RegisteredIsPrefix(Exec(s, tr), w);
    } else {
      StepTerminatesAfter(s, tr[0], w, m);
      CleanTermination(t, tr[1..], w, m);
    }
  }

  // ---------------------------------------------------------------------------------------------------------
  // Refinement of round-robin dispatch.

  /** Accepting is the specification's accept, registering is its serve, and everything else is invisible. */
  lemma RefinesDispatch(s: State, e: Event)
    requires Inv(s) && Enabled(s, e)
    ensures match e
            case Accept(c) => Abs(Apply(s, e)) == Abs(s).(accepted := s.accepted + [c])
            case Register(w) => SpecServe(Abs(s), Abs(Apply(s, e)), w)
            case _ => Abs(Apply(s, e)) == Abs(s)
    ensures SpecStep(Abs(s), Abs(Apply(s, e)))
  {
    if e.Register? {
      var w := e.w;
      assert InOrder(s, w);
      assert Contents(s, w)[|s.registered[w]|] == s.pcs[w].conn;
      assert SpecServe(Abs(s), Abs(Apply(s, e)), w);
    }
  }

  /** In no reachable state is anything lost, duplicated or reordered; each worker served a prefix of its share. */
  lemma NothingLostNothingReordered(concur: nat, cap: nat, tr: seq<Event>, w: nat)
    requires concur > 0 && cap > 0 && Legal(Init(concur, cap), tr) && w < concur
    ensures var s := Exec(Init(concur, cap), tr);
            && s.registered[w] + InHand(s.pcs[w]) + s.queues[w] == Share(s.accepted, w, concur)
            && s.registered[w] <= Share(s.accepted, w, concur)
  {
    InitInv(concur, cap);
    RunInv(Init(concur, cap), tr);
    assert InOrder(Exec(Init(concur, cap), tr), w);
    RegisteredIsPrefix(Exec(Init(concur, cap), tr), w);
  }

  // ---------------------------------------------------------------------------------------------------------
  // Quiescence: without new connections, signals and pipe failures the protocol comes to rest.

  predicate Internal(e: Event) {
    !e.Accept? && !e.Interrupt? && !e.RecvFail?
  }

  function PcWeight(pc: WorkerPc, waiting: bool): nat {
    match pc
    case InLoop => if waiting then 4 else 1
    case Reading => 3
    case Draining => 4
    case Registering(_) => 5
    case Exited => 0
  }

  function Weight(s: State, w: nat): nat
    requires Shaped(s) && w < |s.queues|
  {
    2 * |s.queues[w]| + 2 * |s.pipes[w]| + PcWeight(s.pcs[w], s.pipes[w] != [])
  }

  function SumWeights(s: State, n: nat): nat
    requires Shaped(s) && n <= |s.queues|
  {
    if n == 0 then 0 else SumWeights(s, n - 1) + Weight(s, n - 1)
  }

  function MainWeight(s: State): nat
    requires Shaped(s)
  {
    match s.main
    case MainLoop => 1
    case Pushed => 7
    case Signalling(k) => 1 + 6 * (|s.queues| - k)
    case MainDone => 0
  }

  function Measure(s: State): nat
    requires Shaped(s)
  {
    MainWeight(s) + SumWeights(s, |s.queues|)
  }

  lemma {:induction false} SumChangesAt(s: State, t: State, w: nat, n: nat)
    requires Shaped(s) && Shaped(t) && |s.queues| == |t.queues| && w < |s.queues| && n <= |s.queues|
    requires forall v :: 0 <= v < |s.queues| && v != w ==> Weight(t, v) == Weight(s, v)
    ensures SumWeights(t, n) - SumWeights(s, n) == if w < n then Weight(t, w) - Weight(s, w) else 0
  {
    if n > 0 {
      SumChangesAt(s, t, w, n - 1);
    }
  }

  /** The worker an internal step concerns. */
  function Target(s: State, e: Event): (w: nat)
    requires Shaped(s) && Enabled(s, e)
    ensures w < |s.queues|
  {
    match e
    case Accept(_) => s.cur
    case SendNew => s.cur
    case Interrupt => 0
    case SendTerminate => s.main.next
    case MainExit => 0
    case _ => e.w
  }

  lemma InternalStepProgresses(s: State, e: Event)
    requires Shaped(s) && Enabled(s, e) && Internal(e)
    ensures Measure(Apply(s, e)) < Measure(s)
  {
    var t := Apply(s, e);
    var w := Target(s, e);
    forall v | 0 <= v < |s.queues| && v != w
      ensures Weight(t, v) == Weight(s, v)
    {
      assert t.queues[v] == s.queues[v] && t.pipes[v] == s.pipes[v] && t.pcs[v] == s.pcs[v];
    }
    SumChangesAt(s, t, w, |s.queues|);
    TargetWeight(s, e);
  }

  lemma TargetWeight(s: State, e: Event)
    requires Shaped(s) && Enabled(s, e) && Internal(e)
    ensures var t, w := Apply(s, e), Target(s, e);
            MainWeight(t) + Weight(t, w) < MainWeight(s) + Weight(s, w)
  {
  }

  /** A run of internal steps is no longer than the measure of the state it starts in. */
  lemma {:induction false} RunsAreBounded(s: State, tr: seq<Event>)
    requires Shaped(s) && Legal(s, tr) && forall e :: e in tr ==> Internal(e)
    ensures |tr| + Measure(Exec(s, tr)) <= Measure(s)
    decreases |tr|
  {
    if tr != [] {
      assert tr[0] in tr;
      InternalStepProgresses(s, tr[0]);
      RunsAreBounded(Apply(s, tr[0]), tr[1..]);
    }
  }

  ghost predicate Quiescent(s: State)
    requires Shaped(s)
  {
    forall e :: Internal(e) ==> !Enabled(s, e)
  }

  /** Some run of internal steps reaches rest, so the next lemma is about states that do occur. */
  lemma {:induction false} ComesToRest(s: State)
    requires Shaped(s)
    ensures exists tr :: Legal(s, tr) && (forall e :: e in tr ==> Internal(e)) && Quiescent(Exec(s, tr))
    decreases Measure(s)
  {
    if Quiescent(s) {
      assert Legal(s, []) && Exec(s, []) == s;
    } else {
      var e :| Internal(e) && Enabled(s, e);
      var t := Apply(s, e);
      InternalStepProgresses(s, e);
      ComesToRest(t);
      var rest :| Legal(t, rest) && (forall e :: e in rest ==> Internal(e)) && Quiescent(Exec(t, rest));
      var tr := [e] + rest;
      assert tr[1..] == rest;
      assert Legal(s, tr) && Exec(s, tr) == Exec(t, rest);
    }
  }

  /**
   A state without an enabled internal step has registered every accepted connection of every worker that was not
   told to stop, and such a worker has an empty queue and an empty pipe.
   */
  lemma QuiescentStateIsComplete(s: State, w: nat)
    requires Inv(s) && w < |s.queues| && !s.stopped[w]
    requires Quiescent(s)
    ensures s.queues[w] == [] && s.pipes[w] == [] && s.registered[w] == Share(s.accepted, w, |s.queues|)
  {
    assert Internal(Wake(w)) && !Enabled(s, Wake(w));
    assert Internal(Recv(w)) && !Enabled(s, Recv(w));
    assert Internal(TryPop(w)) && !Enabled(s, TryPop(w));
    assert Internal(Register(w)) && !Enabled(s, Register(w));
    assert Internal(SendNew) && !Enabled(s, SendNew);
    assert HandOff(s, w) && InOrder(s, w);
  }
}
