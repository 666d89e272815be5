/**
 The callbacks of the thread-pool server as they are written: loops that update shared state statement by statement.
 Between any two statements of a callback the other threads may take any number of steps, so the fields can change
 under the callback's feet.  `trace` records every atomic action in order; Valid says that the fields are what the
 protocol machine computes from it, hence the theorems about runs hold for the callbacks.

 The other threads' steps are finite in number (`budget`): a callback is shown to return whenever they are.
 */
module ThreadPoolServer {
  import opened ThreadPoolModel
  import opened Common

  datatype Thread = MainThread | Worker(id: nat)

  function Owner(e: Event): Thread {
    match e
    case Accept(_) => MainThread
    case SendNew => MainThread
    case Interrupt => MainThread
    case SendTerminate => MainThread
    case MainExit => MainThread
    case _ => Worker(e.w)
  }

  datatype RecvResult = Got(byte: Byte) | Again | Failed

  datatype Outcome = PipeEmpty | Terminated(byte: Byte) | PipeFailed

  class Server {
    var queues: seq<seq<Conn>>
    var pipes: seq<seq<Byte>>
    var pcs: seq<WorkerPc>
    var stopped: seq<bool>
    var registered: seq<seq<Conn>>
    var main: MainPc
    var cur: nat
    var loopExit: bool
    var accepted: seq<Conn>
    const concur: nat
    const cap: nat
    ghost var trace: seq<Event>

    ghost function View(): State
      reads this
    {
      State(queues, pipes, pcs, stopped, registered, main, cur, loopExit, accepted, cap)
    }

    ghost predicate Valid()
      reads this
    {
      && concur > 0 && cap > 0
      && Legal(Init(concur, cap), trace)
      && View() == Exec(Init(concur, cap), trace)
    }

    constructor (concur: nat, cap: nat)
      requires concur > 0 && cap > 0
      ensures Valid() && trace == [] && this.concur == concur && this.cap == cap
    {
      this.concur, this.cap := concur, cap;
      queues, pipes := seq(concur, i => []), seq(concur, i => []);
      pcs, stopped := seq(concur, i => InLoop), seq(concur, i => false);
      registered := seq(concur, i => []);
      main, cur, loopExit, accepted := MainLoop, 0, false, [];
      trace := [];
    }

    lemma ValidInv()
      requires Valid()
      ensures Inv(View()) && |queues| == concur
    {
      InitInv(concur, cap);
      RunInv(Init(concur, cap), trace);
    }

    /** Records that the statement just executed was the atomic action e, which took `before` to the present state. */
    ghost method Record(before: State, e: Event)
      requires concur > 0 && cap > 0
      requires Legal(Init(concur, cap), trace) && before == Exec(Init(concur, cap), trace)
      requires Enabled(before, e) && View() == Apply(before, e)
      modifies this`trace
      ensures Valid() && trace == old(trace) + [e]
    {
      ExecAppend(Init(concur, cap), trace, e);
      trace := trace + [e];
    }

    /** The shared state as another thread's step leaves it. */
    method Become(t: State)
      requires t.cap == cap
      modifies this`queues, this`pipes, this`pcs, this`stopped, this`registered
      modifies this`main, this`cur, this`loopExit, this`accepted
      ensures View() == t
    {
      queues, pipes, pcs, stopped, registered := t.queues, t.pipes, t.pcs, t.stopped, t.registered;
      main, cur, loopExit, accepted := t.main, t.cur, t.loopExit, t.accepted;
    }

    /** One thread other than `self` takes a step, if the chosen one is possible. */
    method OtherStep(self: Thread) returns (ghost theirs: seq<Event>)
      requires Valid()
      modifies this
      ensures Valid()
      ensures trace == old(trace) + theirs && forall e :: e in theirs ==> Owner(e) != self
      ensures KeptFor(self, old(View()), View())
    {
      theirs := [];
      ValidInv();
      var e: Event := *;
      var s := State(queues, pipes, pcs, stopped, registered, main, cur, loopExit, accepted, cap);
      if Enabled(s, e) && Owner(e) != self {
        var t := Apply(s, e);
        OthersKeep(self, s, e);
        Become(t);
        Record(s, e);
        theirs := [e];
      }
    }

    /** The threads other than `self` take any number of steps, up to `budget`. */
    method Others(self: Thread, budget: nat) returns (left: nat, ghost theirs: seq<Event>)
      requires Valid()
      modifies this
      ensures Valid() && left <= budget
      ensures trace == old(trace) + theirs && forall e :: e in theirs ==> Owner(e) != self
      ensures left == budget ==> theirs == [] && View() == old(View())
      ensures KeptFor(self, old(View()), View())
    {
      left := budget;
      theirs := [];
      while left > 0
        invariant Valid() && left <= budget
        invariant trace == old(trace) + theirs && forall e :: e in theirs ==> Owner(e) != self
        invariant left == budget ==> theirs == [] && View() == old(View())
        invariant KeptFor(self, old(View()), View())
        decreases left
      {
        var enough: bool := *;
        if enough { break; }
        left := left - 1;
        ghost var theirs' := OtherStep(self);
        theirs := theirs + theirs';
      }
    }

    // -------------------------------------------------------------------------------------------------------
    // Main thread.

    /** `push` on the queue of the worker whose turn it is. */
    method PushConnection(conn: Conn)
      requires Valid() && main == MainLoop
      modifies this
      ensures Valid() && trace == old(trace) + [Accept(conn)]
      ensures main == Pushed && cur == old(cur) && accepted == old(accepted) + [conn]
    {
      ValidInv();
      ghost var s := View();
      queues, accepted, main := queues[cur := queues[cur] + [conn]], accepted + [conn], Pushed;
      Record(s, Accept(conn));
    }

    /** send of one byte; nobody looks at its result. */
    method SendByte(w: nat, msg: Msg)
      requires Shaped(View()) && w < |queues|
      modifies this`pipes
      ensures pipes == old(pipes)[w := Sent(old(pipes)[w], cap, Byte(msg, |old(Contents(View(), w))|))]
    {
      var at := |registered[w]| + |InHand(pcs[w])| + |queues[w]|;
      if |pipes[w]| < cap {
        pipes := pipes[w := pipes[w] + [Byte(msg, at)]];
      }
    }

    /** The rest of the listener callback after the push. */
    method WakeAndMoveOn()
      requires Valid() && main == Pushed
      modifies this
      ensures Valid() && trace == old(trace) + [SendNew]
      ensures main == MainLoop && accepted == old(accepted)
      ensures cur == if old(cur) + 1 >= concur then 0 else old(cur) + 1
    {
      ValidInv();
      ghost var s := View();
      SendByte(cur, New);
      main := MainLoop;
      cur := cur + 1;
      if cur >= concur {
        cur := 0;
      }
      Record(s, SendNew);
    }

    /** Round robin: push the connection, then wake the worker, with other threads running in between. */
    method ConnListenerCb(conn: Conn, budget: nat) returns (left: nat, ghost between: seq<Event>)
      requires Valid() && main == MainLoop
      modifies this
      ensures Valid() && main == MainLoop && left <= budget
      ensures trace == old(trace) + [Accept(conn)] + between + [SendNew]
      ensures forall e :: e in between ==> Owner(e) != MainThread
      ensures accepted == old(accepted) + [conn]
      ensures cur == if old(cur) + 1 >= concur then 0 else old(cur) + 1
    {
      PushConnection(conn);
      left, between := Others(MainThread, budget);
      WakeAndMoveOn();
    }

    method StartSignalling()
      requires Valid() && main == MainLoop
      modifies this
      ensures Valid() && trace == old(trace) + [Interrupt]
      ensures main == Signalling(0) && accepted == old(accepted) && cur == old(cur)
    {
      ValidInv();
      ghost var s := View();
      main := Signalling(0);
      Record(s, Interrupt);
    }

    /** One iteration of the SIGINT loop. */
    method TerminateNext()
      requires Valid() && main.Signalling?
      modifies this
      ensures Valid() && trace == old(trace) + [SendTerminate]
      ensures accepted == old(accepted) && cur == old(cur) && old(main).next < concur
      ensures var k := old(main).next + 1;
              if k < concur then main == Signalling(k) else main == MainLoop && loopExit
    {
      ValidInv();
      ghost var s := View();
      var k := main.next;
      SendByte(k, Terminate);
      if k + 1 < concur {
        main := Signalling(k + 1);
      } else {
        main, loopExit := MainLoop, true;
      }
      Record(s, SendTerminate);
    }

    /** SIGINT: one TERMINATE byte to every worker in turn, then the loop exit is requested. */
    method SignalEventCb(budget: nat) returns (left: nat)
      requires Valid() && main == MainLoop
      modifies this
      ensures Valid() && main == MainLoop && loopExit && left <= budget
      ensures accepted == old(accepted) && cur == old(cur)
      ensures old(trace) <= trace && Count(SendTerminate, trace[|old(trace)|..]) == concur
    {
      hide Legal, Exec, Init, Count;
      StartSignalling();
      CountNone(SendTerminate, [Interrupt]);
      left := budget;
      ghost var mine := [Interrupt];
      var k := 0;
      while k < concur
        invariant 0 <= k <= concur && Valid() && left <= budget
        invariant if k < concur then main == Signalling(k) else main == MainLoop && loopExit
        invariant accepted == old(accepted) && cur == old(cur)
        invariant trace == old(trace) + mine && Count(SendTerminate, mine) == k
      {
        ghost var theirs;
        left, theirs := Others(MainThread, left);
        TerminateNext();
        CountOneMore(SendTerminate, mine, theirs);
        mine := mine + theirs + [SendTerminate];
        k := k + 1;
      }
    }

    // -------------------------------------------------------------------------------------------------------
    // Workers.

    /** The other threads' steps as worker w sees them: its pipe and its queue may have grown at the end. */
    method OthersBeside(w: nat, budget: nat) returns (left: nat)
      requires Valid() && w < concur
      modifies this
      ensures Valid() && left <= budget
      ensures Pc(w) == old(Pc(w)) && Stopped(w) == old(Stopped(w)) && Registered(w) == old(Registered(w))
      ensures left == budget ==> Pipe(w) == old(Pipe(w)) && Queue(w) == old(Queue(w))
    {
      ghost var theirs;
      left, theirs := Others(Worker(w), budget);
    }

    /** recv of one byte on worker w's pipe; `fails` says that the pipe turns out to be closed or broken. */
    method RecvByte(w: nat, fails: bool) returns (r: RecvResult)
      requires Valid() && w < concur && Pc(w) == Reading
      modifies this
      ensures Valid() && registered == old(registered) && queues == old(queues)
      ensures r.Failed? <==> fails
      ensures r.Again? <==> !fails && old(Pipe(w)) == []
      ensures stopped ==
              if r.Failed? || (r.Got? && r.byte.msg == Terminate) then old(stopped)[w := true] else old(stopped)
      ensures match r
              case Again => trace == old(trace) + [Recv(w)] && pipes[w] == old(Pipe(w)) == [] && Pc(w) == InLoop
              case Failed => trace == old(trace) + [RecvFail(w)] && Pc(w) == InLoop && Stopped(w)
              case Got(b) =>
                && trace == old(trace) + [Recv(w)] && old(Pipe(w)) == [b] + pipes[w]
                && Pc(w) == (if b.msg == New then Draining else InLoop)
                && Stopped(w) == (old(Stopped(w)) || b.msg == Terminate)
                && (b.msg == Terminate && !old(Stopped(w)) ==> b.at <= |registered[w]|)
    {
      ValidInv();
      ghost var s := View();
      NextByte(s, w);
      hide Inv, Legal, Exec, Init, Contents;
      if fails {
        r := Failed;
        pcs, stopped := pcs[w := InLoop], stopped[w := true];
        Record(s, RecvFail(w));
      } else if pipes[w] == [] {
        r := Again;
        pcs := pcs[w := InLoop];
        Record(s, Recv(w));
      } else {
        r := Got(pipes[w][0]);
        pipes := pipes[w := pipes[w][1..]];
        if r.byte.msg == New {
          pcs := pcs[w := Draining];
        } else {
          pcs, stopped := pcs[w := InLoop], stopped[w := true];
        }
        Record(s, Recv(w));
      }
    }

    /** try_pop on worker w's queue. */
    method TryPopConnection(w: nat) returns (r: Option<Conn>)
      requires Valid() && w < concur && Pc(w) == Draining
      modifies this
      ensures Valid() && trace == old(trace) + [TryPop(w)]
      ensures pipes == old(pipes) && stopped == old(stopped) && registered == old(registered)
      ensures match r
              case Some(conn) => old(Queue(w)) == [conn] + queues[w] && Pc(w) == Registering(conn)
              case None => queues[w] == old(Queue(w)) == [] && Pc(w) == Reading
    {
      ValidInv();
      ghost var s := View();
      if queues[w] != [] {
        r := Some(queues[w][0]);
        queues, pcs := queues[w := queues[w][1..]], pcs[w := Registering(r.value)];
      } else {
        r := None;
        pcs := pcs[w := Reading];
      }
      Record(s, TryPop(w));
    }

    /** The popped connection gets its bufferevent in worker w's event loop. */
    method RegisterConnection(w: nat, conn: Conn)
      requires Valid() && w < concur && Pc(w) == Registering(conn)
      modifies this
      ensures Valid() && trace == old(trace) + [Register(w)]
      ensures Pc(w) == Draining && stopped == old(stopped) && pipes == old(pipes) && queues == old(queues)
      ensures registered[w] == old(Registered(w)) + [conn]
    {
      ValidInv();
      ghost var s := View();
      registered, pcs := registered[w := registered[w] + [conn]], pcs[w := Draining];
      Record(s, Register(w));
    }

    /**
     The worker's callback: it returns whenever the other threads take finitely many steps, and then either its pipe
     is empty and a waiting connection has a send pending, or it read a TERMINATE that nothing dispatched earlier
     is waiting behind, or its pipe failed.  `failing` says which of its recvs finds the pipe closed or broken, if any.
     Undisturbed it stops at the first TERMINATE byte, and has drained the queue iff a NEW byte comes before that.
     */
    method MainMsgCb(w: nat, failing: Option<nat>, budget: nat) returns (outcome: Outcome, left: nat, recvs: nat)
      requires Valid() && w < concur && Pc(w) == Reading
      modifies this
      ensures Valid() && Pc(w) == InLoop && left <= budget
      ensures old(Registered(w)) <= Registered(w)
      ensures recvs > 0 && (failing.Some? ==> recvs <= failing.value + 1)
      ensures outcome.PipeFailed? <==> failing == Some(recvs - 1)
      ensures match outcome
              case PipeEmpty =>
                && Pipe(w) == [] && Stopped(w) == old(Stopped(w))
                && (Queue(w) != [] && !Stopped(w) ==> main == Pushed && cur == w)
              case Terminated(b) =>
                b.msg == Terminate && Stopped(w) && (!old(Stopped(w)) ==> b.at <= |Registered(w)|)
              case PipeFailed => Stopped(w)
      ensures left == budget && !outcome.PipeFailed? ==>
                Undisturbed(old(Pipe(w)), old(Registered(w)), old(Queue(w)), outcome, Pipe(w), Registered(w), Queue(w))
    {
      ghost var pipe, registered, queue := Pipe(w), Registered(w), Queue(w);
      ghost var read := 0;
      BeforeReading(pipe, registered, queue);
      hide Legal, Exec, Init, Alone, Undisturbed;
      left, recvs := budget, 0;
      while true
        invariant Valid() && Pc(w) == Reading && left <= budget
        invariant registered <= Registered(w) && Stopped(w) == old(Stopped(w))
        invariant failing.Some? ==> recvs <= failing.value
        invariant left == budget ==> Alone(pipe, registered, queue, read, Pipe(w), Registered(w), Queue(w))
        decreases left, |Pipe(w)|
      {
        if left == budget {
          AloneStep(pipe, registered, queue, read, Pipe(w), Registered(w), Queue(w));
        }
        var r;
        r, left := NextMessage(w, failing == Some(recvs), left);
        recvs := recvs + 1;
        if r.Again? {
          return PipeEmpty, left, recvs;
        } else if r.Failed? {
          return PipeFailed, left, recvs;
        } else if r.byte.msg == Terminate {
          return Terminated(r.byte), left, recvs;
        }
        read := read + 1;
      }
    }

    /** One pass of that loop: recv, and the queue is drained if the byte is a NEW. */
    method NextMessage(w: nat, fails: bool, budget: nat) returns (r: RecvResult, left: nat)
      requires Valid() && w < concur && Pc(w) == Reading
      modifies this
      ensures Valid() && left <= budget && old(Registered(w)) <= Registered(w)
      ensures r.Failed? <==> fails
      ensures Pc(w) == if r.Got? && r.byte.msg == New then Reading else InLoop
      ensures Stopped(w) == (old(Stopped(w)) || r.Failed? || (r.Got? && r.byte.msg == Terminate))
      ensures r.Again? ==> Pipe(w) == [] && (Queue(w) != [] && !Stopped(w) ==> main == Pushed && cur == w)
      ensures r.Got? && r.byte.msg == Terminate && !old(Stopped(w)) ==> r.byte.at <= |Registered(w)|
      ensures left == budget ==>
                var drains := r.Got? && r.byte.msg == New;
                && (r.Again? ==> old(Pipe(w)) == []) && (r.Got? ==> old(Pipe(w)) == [r.byte] + Pipe(w))
                && Registered(w) == old(Registered(w)) + (if drains then old(Queue(w)) else [])
                && Queue(w) == (if drains then [] else old(Queue(w)))
    {
      hide Legal, Exec, Init;
      left := OthersBeside(w, budget);
      r := RecvByte(w, fails);
      if r.Again? {
        Drained(w);
      } else if r.Got? && r.byte.msg == New {
        left := DrainQueue(w, left);
      }
    }

    lemma Drained(w: nat)
      requires Valid() && w < concur && Pc(w) == InLoop && Pipe(w) == []
      ensures Queue(w) != [] && !Stopped(w) ==> main == Pushed && cur == w
    {
      ValidInv();
      assert HandOff(View(), w);
    }

    /** The inner loop: pop and register until try_pop finds the queue empty. */
    method DrainQueue(w: nat, budget: nat) returns (left: nat)
      requires Valid() && w < concur && Pc(w) == Draining
      modifies this
      ensures Valid() && Pc(w) == Reading && left <= budget
      ensures old(Registered(w)) <= Registered(w) && Stopped(w) == old(Stopped(w))
      ensures left == budget ==> Pipe(w) == old(Pipe(w)) && Registered(w) == old(Registered(w)) + old(Queue(w))
      ensures Queue(w) == []
    {
      hide Legal, Exec, Init;
      left := budget;
      while true
        invariant Valid() && Pc(w) == Draining && left <= budget
        invariant old(Registered(w)) <= Registered(w) && Stopped(w) == old(Stopped(w))
        invariant left == budget ==>
                    Pipe(w) == old(Pipe(w)) && Registered(w) + Queue(w) == old(Registered(w)) + old(Queue(w))
        decreases left, |Queue(w)|
      {
        left := OthersBeside(w, left);
        var r := TryPopConnection(w);
        if r == None {
          return;
        }
        left := OthersBeside(w, left);
        RegisterConnection(w, r.value);
      }
    }

    // What a worker sees of the shared state; the getters keep the contracts above short.

    ghost function Pc(w: nat): WorkerPc
      requires w < concur && Valid()
      reads this
    {
      pcs[w]
    }

    ghost function Pipe(w: nat): seq<Byte>
      requires w < concur && Valid()
      reads this
    {
      pipes[w]
    }

    ghost function Queue(w: nat): seq<Conn>
      requires w < concur && Valid()
      reads this
    {
      queues[w]
    }

    ghost function Stopped(w: nat): bool
      requires w < concur && Valid()
      reads this
    {
      stopped[w]
    }

    ghost function Registered(w: nat): seq<Conn>
      requires w < concur && Valid()
      reads this
    {
      registered[w]
    }
  }

  /** Where the first TERMINATE byte at or after i stands; |pipe| if there is none. */
  function FirstTerminate(pipe: seq<Byte>, i: nat): (k: nat)
    requires i <= |pipe|
    ensures i <= k <= |pipe| && (k < |pipe| ==> pipe[k].msg == Terminate)
    ensures forall j :: i <= j < k ==> pipe[j].msg == New
    decreases |pipe| - i
  {
    if i == |pipe| then i
    else
      match pipe[i].msg
      case Terminate => i
      case New => FirstTerminate(pipe, i + 1)
  }

  /** What a callback makes of pipe, registered and queue when nobody else moves and its pipe does not fail. */
  predicate Undisturbed(
      pipe: seq<Byte>, registered: seq<Conn>, queue: seq<Conn>,
      outcome: Outcome, pipe': seq<Byte>, registered': seq<Conn>, queue': seq<Conn>)
  {
    var k := FirstTerminate(pipe, 0);
    && outcome == (if k < |pipe| then Terminated(pipe[k]) else PipeEmpty)
    && pipe' == (if k < |pipe| then pipe[k + 1..] else [])
    && registered' == registered + (if k > 0 then queue else [])
    && queue' == (if k > 0 then [] else queue)
  }

  /** And on the way, when it has read so many bytes, all of them NEW. */
  predicate Alone(
      pipe: seq<Byte>, registered: seq<Conn>, queue: seq<Conn>,
      read: nat, pipe': seq<Byte>, registered': seq<Conn>, queue': seq<Conn>)
  {
    && read <= FirstTerminate(pipe, 0) && pipe' == pipe[read..]
    && registered' == registered + (if read > 0 then queue else [])
    && queue' == (if read > 0 then [] else queue)
  }

  lemma BeforeReading(pipe: seq<Byte>, registered: seq<Conn>, queue: seq<Conn>)
    ensures Alone(pipe, registered, queue, 0, pipe, registered, queue)
  {
    assert pipe[0..] == pipe && registered + [] == registered;
  }

  lemma AloneStep(
      pipe: seq<Byte>, registered: seq<Conn>, queue: seq<Conn>,
      read: nat, pipe': seq<Byte>, registered': seq<Conn>, queue': seq<Conn>)
    requires Alone(pipe, registered, queue, read, pipe', registered', queue')
    ensures pipe' == [] ==> Undisturbed(pipe, registered, queue, PipeEmpty, pipe', registered', queue')
    ensures pipe' != [] && pipe'[0].msg == Terminate ==>
              Undisturbed(pipe, registered, queue, Terminated(pipe'[0]), pipe'[1..], registered', queue')
    ensures pipe' != [] && pipe'[0].msg == New ==>
              Alone(pipe, registered, queue, read + 1, pipe'[1..], registered' + queue', [])
  {
    if read == 0 && pipe' != [] {
      assert registered + [] == registered;
    }
  }

  function Count(e: Event, tr: seq<Event>): nat {
    if tr == [] then 0 else Count(e, tr[..|tr| - 1]) + (if tr[|tr| - 1] == e then 1 else 0)
  }

  lemma {:induction false} CountAppend(e: Event, a: seq<Event>, b: seq<Event>)
    ensures Count(e, a + b) == Count(e, a) + Count(e, b)
  {
    if b == [] {
      assert a + b == a;
    } else {
      CountAppend(e, a, b[..|b| - 1]);
      assert (a + b)[..|a + b| - 1] == a + b[..|b| - 1];
    }
  }

  lemma {:induction false} CountNone(e: Event, tr: seq<Event>)
    requires e !in tr
    ensures Count(e, tr) == 0
  {
    if tr != [] {
      CountNone(e, tr[..|tr| - 1]);
    }
  }

  lemma CountOneMore(e: Event, mine: seq<Event>, theirs: seq<Event>)
    requires e !in theirs
    ensures Count(e, mine + theirs + [e]) == Count(e, mine) + 1
  {
    CountAppend(e, mine, theirs);
    CountNone(e, theirs);
    CountAppend(e, mine + theirs, [e]);
  }

  /** When the next byte is a TERMINATE, everything pushed before it is registered. */
  lemma NextByte(s: State, w: nat)
    requires Inv(s) && w < |s.queues| && s.pcs[w] == Reading
    ensures s.pipes[w] != [] && s.pipes[w][0].msg == Terminate && !s.stopped[w] ==>
              s.pipes[w][0].at <= |s.registered[w]|
  {
    assert TerminateOrdered(s, w);
    if s.pipes[w] != [] {
      assert Follows(s, w, 0) && s.pipes[w][..0] == [];
    }
  }

  /** What steps of other threads cannot change for `self`. */
  ghost predicate KeptFor(self: Thread, s: State, t: State) {
    match self
    case MainThread => t.main == s.main && t.cur == s.cur && t.accepted == s.accepted && t.loopExit == s.loopExit
    case Worker(w) =>
      && |s.pcs| == |t.pcs| == |s.stopped| == |t.stopped| == |s.registered| == |t.registered|
      && |s.queues| == |t.queues| == |s.pipes| == |t.pipes|
      && (w < |s.pcs| ==>
            && t.pcs[w] == s.pcs[w] && t.stopped[w] == s.stopped[w] && t.registered[w] == s.registered[w])
      && (w < |s.queues| ==> s.queues[w] <= t.queues[w] && s.pipes[w] <= t.pipes[w])
  }

  lemma OthersKeep(self: Thread, s: State, e: Event)
    requires Shaped(s) && Enabled(s, e) && Owner(e) != self
    ensures KeptFor(self, s, Apply(s, e))
  {
  }
}
