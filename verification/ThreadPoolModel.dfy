/**
 The dispatch protocol of the libevent thread-pool server: the main thread pushes a connection on a worker's
 queue and then writes one byte to that worker's non-blocking pipe; the worker reads bytes until EAGAIN, drains
 its whole queue on every NEW byte and stops on a TERMINATE byte.

 One atomic action of one thread is one Event.  A run is any sequence of enabled events, so every interleaving of
 the main thread and of any number of workers is a run.
 */
module ThreadPoolModel {

  import Q = QueueMonitor

  /** What the queues carry; push and try_pop below are the atomic operations that QueueMonitor shows them to be. */
  type Conn = Q.Value

  datatype Msg = New | Terminate

  /** A byte in a pipe.  `at` is history: how many connections had been pushed for this worker when it was sent. */
  datatype Byte = Byte(msg: Msg, at: nat)

  /** Where a worker stands: in its event loop, in the recv loop, in the try_pop loop, holding a popped connection. */
  datatype WorkerPc = InLoop | Reading | Draining | Registering(conn: Conn) | Exited

  /** Where the main thread stands; Pushed is the window between `push` and `send`. */
  datatype MainPc = MainLoop | Pushed | Signalling(next: nat) | MainDone

  datatype State = State(
    queues: seq<seq<Conn>>,
    pipes: seq<seq<Byte>>,
    pcs: seq<WorkerPc>,
    stopped: seq<bool>,
    registered: seq<seq<Conn>>,
    main: MainPc,
    cur: nat,
    loopExit: bool,
    accepted: seq<Conn>,
    cap: nat)

  datatype Event =
    | Accept(conn: Conn)     // main: a connection arrives and is pushed on queue `cur`
    | SendNew                // main: the NEW byte is sent, or dropped when the pipe is full; `cur` moves on
    | Interrupt              // main: the SIGINT callback starts
    | SendTerminate          // main: the next TERMINATE byte is sent, or dropped when the pipe is full
    | MainExit               // main: leaves its event loop
    | Wake(w: nat)           // worker: its pipe is readable, the callback starts
    | Recv(w: nat)           // worker: recv returns a byte, or EAGAIN when the pipe is empty
    | RecvFail(w: nat)       // worker: recv reports a closed or failed pipe
    | TryPop(w: nat)         // worker: try_pop takes the oldest connection, or reports an empty queue
    | Register(w: nat)       // worker: the connection in hand gets its bufferevent
    | Quit(w: nat)           // worker: leaves its event loop

  predicate Shaped(s: State) {
    var n := |s.queues|;
    && n > 0 && s.cap > 0 && s.cur < n
    && |s.pipes| == n && |s.pcs| == n && |s.stopped| == n && |s.registered| == n
    && (s.main.Signalling? ==> s.main.next < n)
  }

  function Init(concur: nat, cap: nat): (s: State) {
    State(seq(concur, i => []), seq(concur, i => []), seq(concur, i => InLoop), seq(concur, i => false),
          seq(concur, i => []), MainLoop, 0, false, [], cap)
  }

  function InHand(pc: WorkerPc): seq<Conn> {
    if pc.Registering? then [pc.conn] else []
  }

  /** Everything ever pushed for worker w, oldest first. */
  function Contents(s: State, w: nat): seq<Conn>
    requires Shaped(s) && w < |s.queues|
  {
    s.registered[w] + InHand(s.pcs[w]) + s.queues[w]
  }

  /** send on a non-blocking pipe: the byte is silently dropped when there is no room. */
  function Sent(pipe: seq<Byte>, cap: nat, b: Byte): seq<Byte> {
    if |pipe| < cap then pipe + [b] else pipe
  }

  predicate Enabled(s: State, e: Event)
    requires Shaped(s)
  {
    match e
    case Accept(_) => s.main == MainLoop
    case SendNew => s.main == Pushed
    case Interrupt => s.main == MainLoop
    case SendTerminate => s.main.Signalling?
    case MainExit => s.main == MainLoop && s.loopExit
    case Wake(w) => w < |s.queues| && s.pcs[w] == InLoop && s.pipes[w] != []
    case Recv(w) => w < |s.queues| && s.pcs[w] == Reading
    case RecvFail(w) => w < |s.queues| && s.pcs[w] == Reading
    case TryPop(w) => w < |s.queues| && s.pcs[w] == Draining
    case Register(w) => w < |s.queues| && s.pcs[w].Registering?
    case Quit(w) => w < |s.queues| && s.pcs[w] == InLoop && s.stopped[w]
  }

  function Apply(s: State, e: Event): (t: State)
    requires Shaped(s) && Enabled(s, e)
    ensures Shaped(t) && |t.queues| == |s.queues| && t.cap == s.cap
  {
    match e
    case Accept(c) =>
      s.(queues := s.queues[s.cur := s.queues[s.cur] + [c]], accepted := s.accepted + [c], main := Pushed)
    case SendNew =>
      s.(pipes := s.pipes[s.cur := Sent(s.pipes[s.cur], s.cap, Byte(New, |Contents(s, s.cur)|))],
         cur := if s.cur + 1 >= |s.queues| then 0 else s.cur + 1, main := MainLoop)
    case Interrupt => s.(main := Signalling(0))
    case SendTerminate =>
      var w := s.main.next;
      var u := s.(pipes := s.pipes[w := Sent(s.pipes[w], s.cap, Byte(Terminate, |Contents(s, w)|))]);
      if w + 1 < |s.queues| then u.(main := Signalling(w + 1)) else u.(main := MainLoop, loopExit := true)
    case MainExit => s.(main := MainDone)
    case Wake(w) => s.(pcs := s.pcs[w := Reading])
    case Recv(w) =>
      if s.pipes[w] == [] then s.(pcs := s.pcs[w := InLoop])
      else if s.pipes[w][0].msg == New then
        s.(pipes := s.pipes[w := s.pipes[w][1..]], pcs := s.pcs[w := Draining])
      else
        s.(pipes := s.pipes[w := s.pipes[w][1..]], pcs := s.pcs[w := InLoop], stopped := s.stopped[w := true])
    case RecvFail(w) => s.(pcs := s.pcs[w := InLoop], stopped := s.stopped[w := true])
    case TryPop(w) =>
      if s.queues[w] == [] then s.(pcs := s.pcs[w := Reading])
      else s.(queues := s.queues[w := s.queues[w][1..]], pcs := s.pcs[w := Registering(s.queues[w][0])])
    case Register(w) =>
      s.(registered := s.registered[w := s.registered[w] + [s.pcs[w].conn]], pcs := s.pcs[w := Draining])
    case Quit(w) => s.(pcs := s.pcs[w := Exited])
  }

  /** The events of `tr` can happen one after the other, starting in s. */
  predicate Legal(s: State, tr: seq<Event>)
    requires Shaped(s)
    decreases |tr|
  {
    tr == [] || (Enabled(s, tr[0]) && Legal(Apply(s, tr[0]), tr[1..]))
  }

  function Exec(s: State, tr: seq<Event>): (t: State)
    requires Shaped(s) && Legal(s, tr)
    ensures Shaped(t) && |t.queues| == |s.queues| && t.cap == s.cap
    decreases |tr|
  {
    if tr == [] then s else Exec(Apply(s, tr[0]), tr[1..])
  }

  lemma {:induction false} ExecAppend(s: State, tr: seq<Event>, e: Event)
    requires Shaped(s) && Legal(s, tr) && Enabled(Exec(s, tr), e)
    ensures Legal(s, tr + [e]) && Exec(s, tr + [e]) == Apply(Exec(s, tr), e)
    decreases |tr|
  {
    if tr == [] {
      assert [e][1..] == [];
    } else {
      ExecAppend(Apply(s, tr[0]), tr[1..], e);
      assert (tr + [e])[1..] == tr[1..] + [e];
    }
  }

  /** Pushing and popping connections is what the queue object does atomically; no other step touches a queue. */
  lemma StepQueue(s: State, e: Event, w: nat)
    requires Shaped(s) && Enabled(s, e) && w < |s.queues|
    ensures var before, after := s.queues[w], Apply(s, e).queues[w];
            if e.Accept? && s.cur == w then Q.QueueOp(before, Q.Push(e.conn), Q.Unit, after)
            else if e == TryPop(w) then
              Q.QueueOp(before, Q.TryPop, if before == [] then Q.NoValue else Q.Taken(before[0]), after)
            else after == before
  {
    if e == TryPop(w) && s.queues[w] != [] {
      assert s.queues[w] == [s.queues[w][0]] + s.queues[w][1..];
    }
  }

  // ---------------------------------------------------------------------------------------------------------
  // The specification: the n-th accepted connection belongs to worker n mod W, in accept order.

  /** The subsequence of `all` that belongs to worker w out of n. */
  function Share(all: seq<Conn>, w: nat, n: nat): seq<Conn>
    requires n > 0
    decreases |all|
  {
    if all == [] then []
    else
      var last := |all| - 1;
      Share(all[..last], w, n) + (if last % n == w then [all[last]] else [])
  }

  lemma ShareAppend(all: seq<Conn>, c: Conn, w: nat, n: nat)
    requires n > 0
    ensures Share(all + [c], w, n) == Share(all, w, n) + (if |all| % n == w then [c] else [])
  {
    assert (all + [c])[..|all|] == all;
  }

  /** The simple machine: connections are accepted, and each worker serves its own share in order. */
  datatype Spec = Spec(accepted: seq<Conn>, served: seq<seq<Conn>>)

  ghost predicate SpecStep(a: Spec, b: Spec) {
    || a == b
    || (exists c: Conn :: b == a.(accepted := a.accepted + [c]))
    || (exists w: nat :: SpecServe(a, b, w))
  }

  /** Worker w serves the next connection of its share. */
  ghost predicate SpecServe(a: Spec, b: Spec, w: nat) {
    && w < |a.served| && b.accepted == a.accepted
    && var mine := Share(a.accepted, w, |a.served|);
    && |a.served[w]| < |mine|
    && b.served == a.served[w := a.served[w] + [mine[|a.served[w]|]]]
  }

  function Abs(s: State): Spec {
    Spec(s.accepted, s.registered)
  }

  // ---------------------------------------------------------------------------------------------------------
  // The inductive invariant.

  predicate HasNew(pipe: seq<Byte>) {
    exists i :: 0 <= i < |pipe| && pipe[i].msg == New
  }

  predicate InDrain(pc: WorkerPc) {
    pc.Draining? || pc.Registering?
  }

  /** A waiting connection always has somebody on the way to it, unless a full pipe of TERMINATE bytes is. */
  predicate HandOff(s: State, w: nat)
    requires Shaped(s) && w < |s.queues|
  {
    !s.stopped[w] && s.queues[w] != [] ==>
      || InDrain(s.pcs[w])
      || (s.main == Pushed && s.cur == w)
      || HasNew(s.pipes[w])
      || |s.pipes[w]| >= s.cap
  }

  /** What was pushed before this byte, if it is a TERMINATE, is out of the queue, or a drain comes before the byte. */
  predicate Follows(s: State, w: nat, p: nat)
    requires Shaped(s) && w < |s.queues| && p < |s.pipes[w]|
  {
    && s.pipes[w][p].at <= |Contents(s, w)|
    && (!s.stopped[w] && s.pipes[w][p].msg == Terminate ==>
          || s.pipes[w][p].at <= |Contents(s, w)| - |s.queues[w]|
          || InDrain(s.pcs[w])
          || HasNew(s.pipes[w][..p]))
  }

  predicate TerminateOrdered(s: State, w: nat)
    requires Shaped(s) && w < |s.queues|
  {
    forall p: nat :: p < |s.pipes[w]| ==> Follows(s, w, p)
  }

  predicate RoundRobin(s: State)
    requires Shaped(s)
  {
    if s.main == Pushed then |s.accepted| > 0 && s.cur == (|s.accepted| - 1) % |s.queues|
    else s.cur == |s.accepted| % |s.queues|
  }

  predicate InOrder(s: State, w: nat)
    requires Shaped(s) && w < |s.queues|
  {
    Contents(s, w) == Share(s.accepted, w, |s.queues|)
  }

  ghost predicate Inv(s: State) {
    && Shaped(s)
    && RoundRobin(s)
    && forall w :: 0 <= w < |s.queues| ==>
         HandOff(s, w) && TerminateOrdered(s, w) && InOrder(s, w) && (s.pcs[w] == Exited ==> s.stopped[w])
  }

  lemma InitInv(concur: nat, cap: nat)
    requires concur > 0 && cap > 0
    ensures Inv(Init(concur, cap))
  {
  }

  // What one step does to worker w, part by part.

  lemma PoppedContents(s: State, v: nat, w: nat)
    requires Shaped(s) && Enabled(s, TryPop(v)) && w < |s.queues|
    ensures Contents(Apply(s, TryPop(v)), w) == Contents(s, w)
  {
    StepQueue(s, TryPop(v), w);
  }

  /** Only an accept changes what was pushed for a worker: it appends to the share of worker `cur`. */
  lemma StepContents(s: State, e: Event, w: nat)
    requires Shaped(s) && Enabled(s, e) && w < |s.queues|
    ensures Contents(Apply(s, e), w) == Contents(s, w) + (if e.Accept? && s.cur == w then [e.conn] else [])
  {
    var t := Apply(s, e);
    match e
    case Accept(c) =>
      assert t.registered[w] + InHand(t.pcs[w]) == s.registered[w] + InHand(s.pcs[w]);
    case TryPop(v) =>
      PoppedContents(s, v, w);
    case Register(v) =>
    case _ =>
      assert t.registered[w] == s.registered[w] && t.queues[w] == s.queues[w];
      assert InHand(t.pcs[w]) == InHand(s.pcs[w]);
  }

  lemma StepRoundRobin(s: State, e: Event)
    requires Shaped(s) && RoundRobin(s) && Enabled(s, e)
    ensures RoundRobin(Apply(s, e))
  {
    if e.SendNew? {
      NextTurn(|s.accepted| - 1, |s.queues|);
    }
  }

  lemma NextTurn(a: nat, n: nat)
    requires n > 0
    ensures (a + 1) % n == if a % n + 1 >= n then 0 else a % n + 1
    ensures (a + 1) / n == if a % n + 1 >= n then a / n + 1 else a / n
  {
    var q, r, q', r' := a / n, a % n, (a + 1) / n, (a + 1) % n;
    if r + 1 == n {
      SameRemainder(q + 1, 0, q', r', n);
    } else {
      SameRemainder(q, r + 1, q', r', n);
    }
  }

  lemma SameRemainder(q: int, r: int, q': int, r': int, n: int)
    requires q * n + r == q' * n + r' && 0 <= r < n && 0 <= r' < n
    ensures r == r' && q == q'
  {
    var d := q' - q;
    assert d * n == r - r';
    assert d >= 1 ==> d * n >= n;
    assert d <= -1 ==> d * n <= -1 * n;
  }

  lemma StepInOrder(s: State, e: Event, w: nat)
    requires Shaped(s) && RoundRobin(s) && Enabled(s, e) && w < |s.queues| && InOrder(s, w)
    ensures InOrder(Apply(s, e), w)
  {
    StepContents(s, e, w);
    if e.Accept? {
      ShareAppend(s.accepted, e.conn, w, |s.queues|);
    }
  }

  lemma StepHandOff(s: State, e: Event, w: nat)
    requires Shaped(s) && Enabled(s, e) && w < |s.queues| && HandOff(s, w)
    ensures HandOff(Apply(s, e), w)
  {
    var t := Apply(s, e);
    StepPipe(s, e, w);
    if HasNew(s.pipes[w]) && s.pipes[w] <= t.pipes[w] {
      var i :| 0 <= i < |s.pipes[w]| && s.pipes[w][i].msg == New;
      assert t.pipes[w][i] == s.pipes[w][i];
    }
  }

  /** How a step changes worker w's pipe: it grows by one byte, or a Recv takes its first byte. */
  lemma StepPipe(s: State, e: Event, w: nat)
    requires Shaped(s) && Enabled(s, e) && w < |s.queues|
    ensures var before, after := s.pipes[w], Apply(s, e).pipes[w];
            if e == Recv(w) && before != [] then after == before[1..]
            else
              || after == before
              || (|before| < s.cap && after == before + [Byte(Terminate, |Contents(s, w)|)] && s.main == Signalling(w))
              || (|before| < s.cap && after == before + [Byte(New, |Contents(s, w)|)] && HasNew(after))
    ensures e == SendNew && s.cur == w && |s.pipes[w]| < s.cap ==> HasNew(Apply(s, e).pipes[w])
  {
    var t := Apply(s, e);
    if e == SendNew && s.cur == w && |s.pipes[w]| < s.cap {
      assert t.pipes[w][|s.pipes[w]|].msg == New;
    }
  }

  /** A byte that keeps its place. */
  lemma KeptFollows(s: State, e: Event, w: nat, p: nat)
    requires Shaped(s) && Enabled(s, e) && w < |s.queues| && p < |s.pipes[w]| && Follows(s, w, p) && e != Recv(w)
    ensures var t := Apply(s, e); p < |t.pipes[w]| && Follows(t, w, p)
  {
    var t := Apply(s, e);
    StepContents(s, e, w);
    StepPipe(s, e, w);
    assert t.pipes[w][..p] == s.pipes[w][..p];
    hide Contents;
  }

  /** A byte that moves up because the first one is taken. */
  lemma MovedFollows(s: State, w: nat, p: nat)
    requires Shaped(s) && Enabled(s, Recv(w)) && 0 < p < |s.pipes[w]| && Follows(s, w, p)
    ensures var t := Apply(s, Recv(w)); p - 1 < |t.pipes[w]| && Follows(t, w, p - 1)
  {
    var t := Apply(s, Recv(w));
    StepContents(s, Recv(w), w);
    assert t.pipes[w][p - 1] == s.pipes[w][p];
    hide Contents;
  }

  /** A byte that is sent: either nothing waits, or something is on the way to what waits. */
  lemma SentFollows(s: State, e: Event, w: nat)
    requires Shaped(s) && Enabled(s, e) && w < |s.queues| && HandOff(s, w) && |Apply(s, e).pipes[w]| > |s.pipes[w]|
    ensures Follows(Apply(s, e), w, |s.pipes[w]|)
  {
    var t := Apply(s, e);
    StepContents(s, e, w);
    StepPipe(s, e, w);
    assert t.pipes[w][..|s.pipes[w]|] == s.pipes[w];
    hide Contents;
  }

  lemma StepTerminateOrdered(s: State, e: Event, w: nat)
    requires Shaped(s) && Enabled(s, e) && w < |s.queues| && HandOff(s, w) && TerminateOrdered(s, w)
    ensures TerminateOrdered(Apply(s, e), w)
  {
    var t := Apply(s, e);
    StepPipe(s, e, w);
    hide Apply, HandOff, Follows;
    forall p: nat | p < |t.pipes[w]|
      ensures Follows(t, w, p)
    {
      if e == Recv(w) && s.pipes[w] != [] {
        assert Follows(s, w, p + 1);
        MovedFollows(s, w, p + 1);
      } else if p < |s.pipes[w]| {
        assert Follows(s, w, p);
        KeptFollows(s, e, w, p);
      } else {
        SentFollows(s, e, w);
      }
    }
  }

  lemma StepExited(s: State, e: Event, w: nat)
    requires Shaped(s) && Enabled(s, e) && w < |s.queues| && (s.pcs[w] == Exited ==> s.stopped[w])
    ensures Apply(s, e).pcs[w] == Exited ==> Apply(s, e).stopped[w]
  {
  }

  lemma StepInv(s: State, e: Event)
    requires Inv(s) && Enabled(s, e)
    ensures Inv(Apply(s, e))
  {
    StepRoundRobin(s, e);
    forall w | 0 <= w < |s.queues|
      ensures HandOff(Apply(s, e), w) && TerminateOrdered(Apply(s, e), w) && InOrder(Apply(s, e), w)
      ensures Apply(s, e).pcs[w] == Exited ==> Apply(s, e).stopped[w]
    {
      StepExited(s, e, w);
      StepInOrder(s, e, w);
      StepHandOff(s, e, w);
      StepTerminateOrdered(s, e, w);
    }
  }

  lemma {:induction false} RunInv(s: State, tr: seq<Event>)
    requires Inv(s) && Legal(s, tr)
    ensures Inv(Exec(s, tr))
    decreases |tr|
  {
    if tr != [] {
      StepInv(s, tr[0]);
      RunInv(Apply(s, tr[0]), tr[1..]);
    }
  }
}
