/**
 What a SIGINT needs in order to stop the thread-pool server: room for its TERMINATE bytes.  Up to how many connections
 there is room is a number, and at that number the server always stops.
 */
module ThreadPoolShutdown {
  import opened ThreadPoolModel
  import opened ThreadPoolTheorems

  predicate HasTerminate(pipe: seq<Byte>) {
    exists i :: 0 <= i < |pipe| && pipe[i].msg == Terminate
  }

  /** Worker w has read a TERMINATE (or lost its pipe), or is going to read one. */
  predicate Told(s: State, w: nat)
    requires Shaped(s) && w < |s.queues|
  {
    s.stopped[w] || HasTerminate(s.pipes[w])
  }

  /** Some SIGINT loop has been at worker w. */
  predicate Passed(s: State, w: nat) {
    s.loopExit || (s.main.Signalling? && s.main.next > w)
  }

  function News(pipe: seq<Byte>): nat {
    if pipe == [] then 0 else News(pipe[1..]) + (if pipe[0].msg == New then 1 else 0)
  }

  lemma {:induction false} NewsAppend(pipe: seq<Byte>, b: Byte)
    ensures News(pipe + [b]) == News(pipe) + (if b.msg == New then 1 else 0)
  {
    if pipe == [] {
      assert [b][1..] == [];
    } else {
      NewsAppend(pipe[1..], b);
      assert (pipe + [b])[1..] == pipe[1..] + [b];
    }
  }

  lemma {:induction false} NoTerminateAllNew(pipe: seq<Byte>)
    requires !HasTerminate(pipe)
    ensures News(pipe) == |pipe|
  {
    if pipe != [] {
      assert pipe[0].msg == New;
      forall i | 0 <= i < |pipe[1..]|
        ensures pipe[1..][i].msg != Terminate
      {
        assert pipe[1..][i] == pipe[i + 1];
      }
      NoTerminateAllNew(pipe[1..]);
    }
  }

  // ---------------------------------------------------------------------------------------------------------
  // With fewer connections for a worker than its pipe holds bytes, the worker is told.

  /** Every NEW byte stands for a connection, and so does the one that is still to be sent. */
  predicate NewsUpToPushed(s: State, w: nat)
    requires Shaped(s) && w < |s.queues|
  {
    News(s.pipes[w]) + (if s.main == Pushed && s.cur == w then 1 else 0) <= |Contents(s, w)|
  }

  lemma StepNews(s: State, e: Event, w: nat)
    requires Shaped(s) && Enabled(s, e) && w < |s.queues| && NewsUpToPushed(s, w)
    ensures NewsUpToPushed(Apply(s, e), w)
  {
    StepContents(s, e, w);
    StepPipe(s, e, w);
    NewsAppend(s.pipes[w], Byte(Terminate, |Contents(s, w)|));
    NewsAppend(s.pipes[w], Byte(New, |Contents(s, w)|));
    hide Contents;
  }

  lemma StepTold(s: State, e: Event, w: nat)
    requires Shaped(s) && Enabled(s, e) && w < |s.queues| && Told(s, w)
    ensures Told(Apply(s, e), w)
  {
    StepPipe(s, e, w);
    if !s.stopped[w] {
      var i :| 0 <= i < |s.pipes[w]| && s.pipes[w][i].msg == Terminate;
      var after := Apply(s, e).pipes[w];
      assert if e == Recv(w) then i == 0 || after[i - 1] == s.pipes[w][i] else after[i] == s.pipes[w][i];
    }
  }

  /** The SIGINT loop is at worker w, and w's pipe takes the byte or holds a TERMINATE already. */
  lemma SendTells(s: State, w: nat)
    requires Shaped(s) && s.main == Signalling(w) && NewsUpToPushed(s, w) && |Contents(s, w)| < s.cap
    ensures Told(Apply(s, SendTerminate), w)
  {
    if |s.pipes[w]| < s.cap {
      assert Apply(s, SendTerminate).pipes[w][|s.pipes[w]|].msg == Terminate;
    } else if !HasTerminate(s.pipes[w]) {
      NoTerminateAllNew(s.pipes[w]);
    }
  }

  lemma StepPassed(s: State, e: Event, w: nat)
    requires Shaped(s) && Enabled(s, e) && w < |s.queues| && Passed(Apply(s, e), w)
    ensures Passed(s, w) || (e == SendTerminate && s.main == Signalling(w))
  {
  }

  lemma {:induction false} RunTells(s: State, tr: seq<Event>, w: nat)
    requires Shaped(s) && Legal(s, tr) && w < |s.queues| && NewsUpToPushed(s, w) && (Passed(s, w) ==> Told(s, w))
    requires |Contents(Exec(s, tr), w)| < s.cap
    ensures Passed(Exec(s, tr), w) ==> Told(Exec(s, tr), w)
    decreases |tr|
  {
    hide Apply, Enabled, Contents, Told, Passed, NewsUpToPushed;
    if tr != [] {
      var t := Apply(s, tr[0]);
      StepNews(s, tr[0], w);
      ContentsGrow(s, tr, w);
      if Passed(t, w) {
        StepPassed(s, tr[0], w);
        if Passed(s, w) {
          StepTold(s, tr[0], w);
        } else {
          SendTells(s, w);
        }
      }
      RunTells(t, tr[1..], w);
    }
  }

  lemma {:induction false} ContentsGrow(s: State, tr: seq<Event>, w: nat)
    requires Shaped(s) && Legal(s, tr) && w < |s.queues|
    ensures |Contents(s, w)| <= |Contents(Exec(s, tr), w)|
    decreases |tr|
  {
    hide Apply, Enabled, Contents;
    if tr != [] {
      StepContents(s, tr[0], w);
      ContentsGrow(Apply(s, tr[0]), tr[1..], w);
    }
  }

  /** How many of the accepted connections are worker w's. */
  lemma {:induction false} ShareSize(all: seq<Conn>, w: nat, n: nat)
    requires w < n
    ensures |Share(all, w, n)| == |all| / n + (if w < |all| % n then 1 else 0)
    decreases |all|
  {
    if all != [] {
      var last := |all| - 1;
      ShareSize(all[..last], w, n);
      NextTurn(last, n);
    }
  }

  /** When everybody's share is less than cap, and when worker 0's is not. */
  lemma ShareFits(all: nat, n: nat, cap: int)
    requires n > 0
    ensures all <= (cap - 1) * n ==> all / n + (if all % n > 0 then 1 else 0) < cap
    ensures all > (cap - 1) * n ==> all / n + (if all % n > 0 then 1 else 0) >= cap
  {
    var q, r := all / n, all % n;
    Split(q, r, n, cap - 1);
  }

  lemma Split(q: int, r: int, n: int, c: int)
    requires 0 <= r < n
    ensures q * n + r <= c * n <==> q < c || (q == c && r == 0)
  {
    assert q >= c + 1 ==> q * n >= (c + 1) * n;
    assert q <= c - 1 ==> q * n <= (c - 1) * n;
  }

  /** While the accepted connections do not fill a pipe, a SIGINT reaches every worker. */
  lemma FewConnectionsLeaveRoom(concur: nat, cap: nat, tr: seq<Event>, w: nat)
    requires concur > 0 && cap > 0 && Legal(Init(concur, cap), tr) && w < concur
    requires |Exec(Init(concur, cap), tr).accepted| <= (cap - 1) * concur
    ensures var t := Exec(Init(concur, cap), tr); t.loopExit ==> Told(t, w)
  {
    var s := Init(concur, cap);
    InitInv(concur, cap);
    RunInv(s, tr);
    var t := Exec(s, tr);
    assert InOrder(t, w);
    ShareSize(t.accepted, w, concur);
    ShareFits(|t.accepted|, concur, cap);
    RunTells(s, tr, w);
  }

  // ---------------------------------------------------------------------------------------------------------
  // The bound is sharp: one connection more fills the pipe of worker 0.

  /** Nobody has read worker 0's pipe, and nobody was interrupted. */
  predicate Piled(s: State, cap: nat)
    requires Shaped(s)
  {
    && s.cap == cap && RoundRobin(s) && !s.stopped[0] && !HasTerminate(s.pipes[0])
    && var k := |Share(s.accepted, 0, |s.queues|)| - (if s.main == Pushed && s.cur == 0 then 1 else 0);
       |s.pipes[0]| == if k < s.cap then k else s.cap
  }

  lemma AcceptPiles(s: State, c: Conn)
    requires Shaped(s) && s.main == MainLoop && Piled(s, s.cap)
    ensures var t := Apply(s, Accept(c)); Piled(t, s.cap) && t.main == Pushed && |t.accepted| == |s.accepted| + 1
  {
    StepRoundRobin(s, Accept(c));
    ShareAppend(s.accepted, c, 0, |s.queues|);
  }

  lemma SendPiles(s: State)
    requires Shaped(s) && s.main == Pushed && Piled(s, s.cap)
    ensures var t := Apply(s, SendNew); Piled(t, s.cap) && t.main == MainLoop && t.accepted == s.accepted
  {
    StepRoundRobin(s, SendNew);
    ShareSize(s.accepted, 0, |s.queues|);
  }

  /** n connections in a row, all before anybody reads a pipe. */
  lemma {:induction false} AcceptTimes(s: State, n: nat) returns (tr: seq<Event>)
    requires Shaped(s) && s.main == MainLoop && Piled(s, s.cap)
    ensures Legal(s, tr)
    ensures var t := Exec(s, tr); t.main == MainLoop && Piled(t, s.cap) && |t.accepted| == |s.accepted| + n
    decreases n
  {
    hide Piled, Apply;
    tr := [];
    if n > 0 {
      var c: Conn := *;
      AcceptPiles(s, c);
      Single(s, Accept(c));
      var t := Apply(s, Accept(c));
      SendPiles(t);
      Single(t, SendNew);
      var rest := AcceptTimes(Apply(t, SendNew), n - 1);
      Concat(t, [SendNew], rest);
      Concat(s, [Accept(c)], [SendNew] + rest);
      tr := [Accept(c)] + ([SendNew] + rest);
    }
  }

  /** The SIGINT loop, with worker 0's pipe full of NEW bytes: that worker is not told. */
  lemma {:induction false} SignalInVain(s: State) returns (tr: seq<Event>)
    requires Shaped(s) && s.main.Signalling? && |s.pipes[0]| >= s.cap && !Told(s, 0)
    ensures Legal(s, tr)
    ensures var t := Exec(s, tr); t.main == MainLoop && t.loopExit && !Told(t, 0) && t.accepted == s.accepted
    decreases |s.queues| - s.main.next
  {
    var t := Apply(s, SendTerminate);
    Single(s, SendTerminate);
    tr := [SendTerminate];
    if t.main.Signalling? {
      var rest := SignalInVain(t);
      Concat(s, tr, rest);
      tr := tr + rest;
    }
  }

  lemma TerminateDropped(concur: nat, cap: nat, n: nat) returns (tr: seq<Event>)
    requires concur > 0 && cap > 0 && n > (cap - 1) * concur
    ensures Legal(Init(concur, cap), tr)
    ensures Interrupt in tr
    ensures var t := Exec(Init(concur, cap), tr);
            |t.accepted| == n && t.main == MainLoop && t.loopExit && !Told(t, 0)
  {
    var s := Init(concur, cap);
    tr := AcceptTimes(s, n);
    var t := Exec(s, tr);
    ShareSize(t.accepted, 0, concur);
    ShareFits(n, concur, cap);
    Single(t, Interrupt);
    var u := Apply(t, Interrupt);
    var last := SignalInVain(u);
    Concat(t, [Interrupt], last);
    Concat(s, tr, [Interrupt] + last);
    tr := tr + ([Interrupt] + last);
  }

  /**
   The exact condition, for any number of workers and any capacity: that every run with n connections and a completed
   SIGINT has told every worker holds iff n connections cannot fill the pipe of a worker.
   */
  lemma EveryWorkerToldIff(concur: nat, cap: nat, n: nat)
    requires concur > 0 && cap > 0
    ensures n <= (cap - 1) * concur <==>
            forall tr, w: nat | Legal(Init(concur, cap), tr) && w < concur ::
              var t := Exec(Init(concur, cap), tr); |t.accepted| == n && t.loopExit ==> Told(t, w)
  {
    if n <= (cap - 1) * concur {
      forall tr, w: nat | Legal(Init(concur, cap), tr) && w < concur
        ensures var t := Exec(Init(concur, cap), tr); |t.accepted| == n && t.loopExit ==> Told(t, w)
      {
        if |Exec(Init(concur, cap), tr).accepted| == n {
          FewConnectionsLeaveRoom(concur, cap, tr, w);
        }
      }
    } else {
      var tr := TerminateDropped(concur, cap, n);
      assert !Told(Exec(Init(concur, cap), tr), 0);
    }
  }

  // ---------------------------------------------------------------------------------------------------------
  // A told worker stops, and so does the server.

  lemma ToldWorkerExits(s: State, w: nat)
    requires Shaped(s) && w < |s.queues| && Told(s, w) && Quiescent(s)
    ensures s.pcs[w] == Exited
  {
    assert Internal(Wake(w)) && !Enabled(s, Wake(w));
    assert Internal(Recv(w)) && !Enabled(s, Recv(w));
    assert Internal(TryPop(w)) && !Enabled(s, TryPop(w));
    assert Internal(Register(w)) && !Enabled(s, Register(w));
    assert Internal(Quit(w)) && !Enabled(s, Quit(w));
  }

  /** All threads have left their event loops. */
  predicate Stopped(s: State)
    requires Shaped(s)
  {
    s.main == MainDone && forall w :: 0 <= w < |s.pcs| ==> s.pcs[w] == Exited
  }

  /** A SIGINT anywhere in a run with that few connections: at rest every worker and the main thread have stopped. */
  lemma SigintStopsTheServer(concur: nat, cap: nat, tr: seq<Event>)
    requires concur > 0 && cap > 0 && Legal(Init(concur, cap), tr) && Interrupt in tr
    requires |Exec(Init(concur, cap), tr).accepted| <= (cap - 1) * concur
    requires Quiescent(Exec(Init(concur, cap), tr))
    ensures Stopped(Exec(Init(concur, cap), tr))
  {
    var t := Exec(Init(concur, cap), tr);
    assert Internal(SendNew) && !Enabled(t, SendNew);
    assert Internal(SendTerminate) && !Enabled(t, SendTerminate);
    assert Internal(MainExit) && !Enabled(t, MainExit);
    InterruptCounts(Init(concur, cap), tr);
    forall w: nat | w < concur
      ensures t.pcs[w] == Exited
    {
      FewConnectionsLeaveRoom(concur, cap, tr, w);
      ToldWorkerExits(t, w);
    }
  }

  /** The main thread is on its way through the SIGINT loop, or has asked for its loop to end. */
  predicate Interrupted(s: State) {
    s.main.Signalling? || s.loopExit
  }

  lemma StepInterrupted(s: State, e: Event)
    requires Shaped(s) && Enabled(s, e)
    ensures Interrupted(s) || e == Interrupt ==> Interrupted(Apply(s, e))
    ensures (s.main == MainDone ==> s.loopExit) ==> (Apply(s, e).main == MainDone ==> Apply(s, e).loopExit)
  {
  }

  lemma {:induction false} InterruptCounts(s: State, tr: seq<Event>)
    requires Shaped(s) && Legal(s, tr) && (Interrupted(s) || Interrupt in tr)
    ensures Interrupted(Exec(s, tr))
    decreases |tr|
  {
    hide Apply, Enabled, Interrupted;
    if tr != [] {
      StepInterrupted(s, tr[0]);
      assert tr == [tr[0]] + tr[1..];
      InterruptCounts(Apply(s, tr[0]), tr[1..]);
    }
  }

  // And one that is not told does not stop: without another SIGINT nobody will ever tell it.

  predicate LeftOut(s: State)
    requires Shaped(s)
  {
    (s.main == MainLoop || s.main == MainDone) && !Told(s, 0)
  }

  lemma StepLeftOut(s: State, e: Event)
    requires Shaped(s) && Enabled(s, e) && Internal(e) && LeftOut(s)
    ensures LeftOut(Apply(s, e)) && Apply(s, e).accepted == s.accepted
  {
    StepPipe(s, e, 0);
    forall i | 0 <= i < |Apply(s, e).pipes[0]|
      ensures Apply(s, e).pipes[0][i].msg != Terminate
    {
      if e == Recv(0) && s.pipes[0] != [] {
        assert Apply(s, e).pipes[0][i] == s.pipes[0][i + 1];
      }
    }
  }

  lemma {:induction false} StaysLeftOut(s: State, tr: seq<Event>)
    requires Shaped(s) && Legal(s, tr) && (forall e :: e in tr ==> Internal(e)) && LeftOut(s)
    ensures LeftOut(Exec(s, tr)) && Exec(s, tr).accepted == s.accepted
    decreases |tr|
  {
    hide Apply, Enabled, LeftOut;
    if tr != [] {
      assert tr[0] in tr;
      StepLeftOut(s, tr[0]);
      StaysLeftOut(Apply(s, tr[0]), tr[1..]);
    }
  }

  /** A run with a SIGINT that comes to rest with worker 0 still in its event loop. */
  lemma WorkerStaysBehind(concur: nat, cap: nat, n: nat) returns (tr: seq<Event>)
    requires concur > 0 && cap > 0 && n > (cap - 1) * concur
    ensures Legal(Init(concur, cap), tr) && Interrupt in tr
    ensures var t := Exec(Init(concur, cap), tr); |t.accepted| == n && Quiescent(t) && t.pcs[0] != Exited
  {
    var s := Init(concur, cap);
    var a := TerminateDropped(concur, cap, n);
    var t := Exec(s, a);
    ComesToRest(t);
    var rest :| Legal(t, rest) && (forall e :: e in rest ==> Internal(e)) && Quiescent(Exec(t, rest));
    StaysLeftOut(t, rest);
    Concat(s, a, rest);
    InitInv(concur, cap);
    RunInv(s, a + rest);
    tr := a + rest;
  }

  /**
   The exact condition for the server to stop, for any number of workers and any capacity: that every run with n
   connections and a SIGINT has all threads out of their loops when it comes to rest holds iff n connections cannot fill
   the pipe of a worker.
   */
  lemma ServerStopsIff(concur: nat, cap: nat, n: nat)
    requires concur > 0 && cap > 0
    ensures n <= (cap - 1) * concur <==>
            forall tr | Legal(Init(concur, cap), tr) && Interrupt in tr ::
              var t := Exec(Init(concur, cap), tr); |t.accepted| == n && Quiescent(t) ==> Stopped(t)
  {
    if n <= (cap - 1) * concur {
      forall tr | Legal(Init(concur, cap), tr) && Interrupt in tr
        ensures var t := Exec(Init(concur, cap), tr); |t.accepted| == n && Quiescent(t) ==> Stopped(t)
      {
        var t := Exec(Init(concur, cap), tr);
        if |t.accepted| == n && Quiescent(t) {
          SigintStopsTheServer(concur, cap, tr);
        }
      }
    } else {
      var tr := WorkerStaysBehind(concur, cap, n);
      assert !Stopped(Exec(Init(concur, cap), tr));
    }
  }
}
