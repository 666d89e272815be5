/**
 The slot tables of the select and poll servers.  Slot 0 holds the listener, a slot of -1 is free, and one round of
 either loop first stores a newly accepted client in the first free slot and then reads every slot that the kernel
 reported.  Both loops are shown to be the same machine over a bounded set of clients.
 */
module SlotTables {
  import opened Common

  const FREE := -1
  const SELECT_FDS_LEN := 128
  const POLL_FDS_LEN := 1024

  /** What a read of a client gives; the kernel decides. */
  datatype Outcome = Data | Eof | Again | Fault

  predicate Closes(o: Outcome) {
    o.Eof? || o.Fault?
  }

  /** System calls on client sockets, in the order in which a server makes them. */
  datatype Act = Accepted(fd: int) | Read(fd: int) | Closed(fd: int)

  function OpenStep(open: set<int>, a: Act): set<int> {
    match a
    case Accepted(fd) => open + {fd}
    case Read(_) => open
    case Closed(fd) => open - {fd}
  }

  /** Accept gives a number that is not in use; only open clients are read or closed. */
  predicate Allowed(open: set<int>, a: Act) {
    if a.Accepted? then a.fd !in open else a.fd in open
  }

  /** Clients that are open after these calls. */
  function OpenAfter(log: seq<Act>): set<int> {
    if log == [] then {} else OpenStep(OpenAfter(log[..|log| - 1]), log[|log| - 1])
  }

  /** Every call is allowed when it is made, so each accepted client is closed at most once. */
  predicate LegalLog(log: seq<Act>) {
    log == [] || (LegalLog(log[..|log| - 1]) && Allowed(OpenAfter(log[..|log| - 1]), log[|log| - 1]))
  }

  lemma LogAppend(log: seq<Act>, a: Act)
    ensures OpenAfter(log + [a]) == OpenStep(OpenAfter(log), a)
    ensures LegalLog(log + [a]) <==> LegalLog(log) && Allowed(OpenAfter(log), a)
  {
    assert (log + [a])[..|log|] == log;
  }

  // ---------------------------------------------------------------------------------------------------------
  // The simple machine.

  /** The clients being served, and the accepted sockets that nobody will ever close. */
  datatype Clients = Clients(served: set<int>, leaked: set<int>)

  /** What the kernel reports in one round: the ready clients and, if the listener is ready, what accept returned. */
  datatype Input = Quiet | Events(ready: set<int>, accepted: Option<int>, outcome: int -> Outcome)

  /** The kernel reports only clients that are served, and accept returns a number that is not in use. */
  predicate KernelMay(c: Clients, listen: int, input: Input) {
    input.Events? ==>
      && input.ready <= c.served
      && (input.accepted.Some? ==>
            && input.accepted.value >= 0 && input.accepted.value != listen
            && input.accepted.value !in c.served && input.accepted.value !in c.leaked)
  }

  function ToClose(c: Clients, input: Input): set<int>
    requires input.Events?
  {
    set fd | fd in c.served && fd in input.ready && Closes(input.outcome(fd))
  }

  /** One round: a newcomer is admitted while there is room, then the ready ones are read and some of them closed. */
  function Round(c: Clients, cap: nat, leaks: bool, input: Input): Clients {
    match input
    case Quiet => c
    case Events(ready, accepted, outcome) =>
      var room := |c.served| < cap;
      var newcomer := if accepted.Some? then {accepted.value} else {};
      Clients((if room then c.served + newcomer else c.served) - ToClose(c, input),
              if room || !leaks then c.leaked else c.leaked + newcomer)
  }

  // ---------------------------------------------------------------------------------------------------------
  // What the loops do to a table.

  predicate Table(f: seq<int>, listen: int) {
    && |f| > 0 && f[0] == listen && listen != FREE
    && (forall i :: 1 <= i < |f| ==> f[i] == FREE || f[i] >= 0)
    && forall i, j :: 0 <= i < j < |f| && f[i] != FREE ==> f[i] != f[j]
  }

  /** The clients in the slots below n. */
  function Upto(f: seq<int>, n: nat): set<int>
    requires n <= |f|
  {
    set i | 1 <= i < n && f[i] != FREE :: f[i]
  }

  function ClientsOf(f: seq<int>): set<int> {
    Upto(f, |f|)
  }

  function FirstFree(f: seq<int>, i: nat): (j: nat)
    requires i <= |f|
    ensures i <= j <= |f|
    ensures j < |f| ==> f[j] == FREE
    ensures forall k :: i <= k < j ==> f[k] != FREE
    decreases |f| - i
  {
    if i == |f| || f[i] == FREE then i else FirstFree(f, i + 1)
  }

  /** The newcomer in the first free slot, or nowhere. */
  function Stored(f: seq<int>, fd: int): (r: seq<int>)
    ensures |r| == |f|
  {
    var i := FirstFree(f, 0);
    if i < |f| then f[i := fd] else f
  }

  /** The table after the slots below n have been looked at; `hot` says which slots the kernel reported. */
  function Swept(f: seq<int>, hot: seq<bool>, outcome: int -> Outcome, n: nat): (r: seq<int>)
    requires |hot| == |f|
    ensures |r| == |f|
  {
    seq(|f|, i requires 0 <= i < |f| =>
      if 1 <= i < n && f[i] != FREE && hot[i] && Closes(outcome(f[i])) then FREE else f[i])
  }

  /** The calls made for a slot. */
  function SlotLog(fd: int, hot: bool, outcome: int -> Outcome): seq<Act> {
    if fd == FREE || !hot then [] else if Closes(outcome(fd)) then [Read(fd), Closed(fd)] else [Read(fd)]
  }

  /** The calls made for the slots below n. */
  function SweepLog(f: seq<int>, hot: seq<bool>, outcome: int -> Outcome, n: nat): seq<Act>
    requires n <= |f| == |hot|
  {
    if n <= 1 then [] else SweepLog(f, hot, outcome, n - 1) + SlotLog(f[n - 1], hot[n - 1], outcome)
  }

  // ---------------------------------------------------------------------------------------------------------
  // Tables refine sets.

  /** In a table without duplicates every client takes one slot. */
  lemma {:induction false} OneSlotEach(f: seq<int>, listen: int, n: nat)
    requires Table(f, listen) && 1 <= n <= |f|
    ensures |Upto(f, n)| <= n - 1
    ensures |Upto(f, n)| == n - 1 <==> forall i :: 1 <= i < n ==> f[i] != FREE
  {
    if n == 1 {
      assert Upto(f, 1) == {};
    } else {
      OneSlotEach(f, listen, n - 1);
      if f[n - 1] == FREE {
        assert Upto(f, n) == Upto(f, n - 1);
      } else {
        assert Upto(f, n) == Upto(f, n - 1) + {f[n - 1]};
        assert f[n - 1] !in Upto(f, n - 1);
      }
    }
  }

  /** There is a free slot iff there is room for one more client. */
  lemma RoomIsAFreeSlot(f: seq<int>, listen: int)
    requires Table(f, listen)
    ensures FirstFree(f, 0) < |f| <==> |ClientsOf(f)| < |f| - 1
  {
    OneSlotEach(f, listen, |f|);
  }

  lemma StoredRefines(f: seq<int>, listen: int, fd: int)
    requires Table(f, listen) && fd >= 0 && fd != listen && fd !in ClientsOf(f)
    ensures Table(Stored(f, fd), listen)
    ensures ClientsOf(Stored(f, fd)) == if |ClientsOf(f)| < |f| - 1 then ClientsOf(f) + {fd} else ClientsOf(f)
  {
    RoomIsAFreeSlot(f, listen);
    var i := FirstFree(f, 0);
    var g := Stored(f, fd);
    forall k | 1 <= k < |f|
      ensures f[k] != fd
    {
      assert f[k] != FREE ==> f[k] in ClientsOf(f);
    }
    if i < |f| {
      assert g[i] == fd;
      forall x | x in ClientsOf(f) + {fd}
        ensures x in ClientsOf(g)
      {
        if x == fd {
          assert g[i] in ClientsOf(g);
        } else {
          var k :| 1 <= k < |f| && f[k] != FREE && f[k] == x;
          assert g[k] == x;
        }
      }
    }
  }

  /** The kernel's report, slot by slot: a slot is hot iff it held a ready client before the round's accept. */
  predicate Reports(hot: seq<bool>, f: seq<int>, ready: set<int>) {
    |hot| == |f| && forall i :: 1 <= i < |f| ==> (hot[i] <==> f[i] != FREE && f[i] in ready)
  }

  /** What the newcomer's slot was before does not matter: storing it leaves the hot slots what they were. */
  lemma HotAfterStored(f: seq<int>, hot: seq<bool>, ready: set<int>, fd: int)
    requires Reports(hot, f, ready) && ready <= ClientsOf(f) && fd !in ClientsOf(f)
    ensures Reports(hot, Stored(f, fd), ready)
  {
  }

  /** The table holds exactly the clients that its system calls have left open, apart from `others`. */
  predicate Serves(f: seq<int>, listen: int, log: seq<Act>, others: set<int>) {
    Table(f, listen) && LegalLog(log) && OpenAfter(log) == ClientsOf(f) + others && ClientsOf(f) !! others
  }

  /** One slot is looked at: its client is read if it is hot, and closed if its read says so. */
  lemma SlotServes(
      h: seq<int>, listen: int, i: nat, log: seq<Act>, others: set<int>, hot: bool, outcome: int -> Outcome)
    requires Serves(h, listen, log, others) && 1 <= i < |h|
    ensures Serves(if h[i] != FREE && hot && Closes(outcome(h[i])) then h[i := FREE] else h, listen,
                   log + SlotLog(h[i], hot, outcome), others)
  {
    var fd := h[i];
    if fd == FREE || !hot {
      assert log + SlotLog(fd, hot, outcome) == log;
    } else {
      assert fd in ClientsOf(h);
      LogAppend(log, Read(fd));
      if Closes(outcome(fd)) {
        LogAppend(log + [Read(fd)], Closed(fd));
        assert log + [Read(fd), Closed(fd)] == log + [Read(fd)] + [Closed(fd)];
        FreedSlot(h, listen, i);
      }
    }
  }

  /** The clients in hot slots below n whose read closes them. */
  function Gone(f: seq<int>, hot: seq<bool>, outcome: int -> Outcome, n: nat): set<int>
    requires n <= |f| == |hot|
  {
    if n <= 1 then {}
    else Gone(f, hot, outcome, n - 1) +
         (if f[n - 1] != FREE && hot[n - 1] && Closes(outcome(f[n - 1])) then {f[n - 1]} else {})
  }

  lemma SweptStart(f: seq<int>, hot: seq<bool>, outcome: int -> Outcome)
    requires |hot| == |f|
    ensures Swept(f, hot, outcome, 1) == f
  {
  }

  lemma SweptStep(f: seq<int>, hot: seq<bool>, outcome: int -> Outcome, n: nat)
    requires |hot| == |f| && 1 <= n < |f|
    ensures Swept(f, hot, outcome, n)[n] == f[n]
    ensures var h := Swept(f, hot, outcome, n);
            Swept(f, hot, outcome, n + 1) == if f[n] != FREE && hot[n] && Closes(outcome(f[n])) then h[n := FREE] else h
  {
  }

  lemma SweepLogStep(f: seq<int>, hot: seq<bool>, outcome: int -> Outcome, n: nat, log: seq<Act>)
    requires 1 <= n < |f| == |hot|
    ensures log + SweepLog(f, hot, outcome, n + 1) ==
            log + SweepLog(f, hot, outcome, n) + SlotLog(f[n], hot[n], outcome)
  {
  }

  lemma {:induction false} SweepServes(
      f: seq<int>, listen: int, hot: seq<bool>, outcome: int -> Outcome, n: nat, log: seq<Act>, others: set<int>)
    requires |hot| == |f| && 1 <= n <= |f| && Serves(f, listen, log, others)
    ensures Serves(Swept(f, hot, outcome, n), listen, log + SweepLog(f, hot, outcome, n), others)
  {
    hide Serves, Swept, SlotLog;
    if n == 1 {
      SweptStart(f, hot, outcome);
      assert log + SweepLog(f, hot, outcome, n) == log;
    } else {
      SweepServes(f, listen, hot, outcome, n - 1, log, others);
      SweptStep(f, hot, outcome, n - 1);
      SweepLogStep(f, hot, outcome, n - 1, log);
      var k := log + SweepLog(f, hot, outcome, n - 1);
      SlotServes(Swept(f, hot, outcome, n - 1), listen, n - 1, k, others, hot[n - 1], outcome);
    }
  }

  lemma {:induction false} SweptClients(
      f: seq<int>, listen: int, hot: seq<bool>, outcome: int -> Outcome, n: nat)
    requires |hot| == |f| && 1 <= n <= |f| && Table(f, listen)
    ensures Table(Swept(f, hot, outcome, n), listen)
    ensures ClientsOf(Swept(f, hot, outcome, n)) == ClientsOf(f) - Gone(f, hot, outcome, n)
    decreases n
  {
    if n == 1 {
      assert Swept(f, hot, outcome, n) == f;
    } else {
      hide Swept, Table, ClientsOf;
      SweptClients(f, listen, hot, outcome, n - 1);
      SweptStep(f, hot, outcome, n - 1);
      if f[n - 1] != FREE && hot[n - 1] && Closes(outcome(f[n - 1])) {
        FreedSlot(Swept(f, hot, outcome, n - 1), listen, n - 1);
      }
    }
  }

  lemma {:induction false} GoneAre(f: seq<int>, hot: seq<bool>, ready: set<int>, outcome: int -> Outcome, n: nat)
    requires Reports(hot, f, ready) && 1 <= n <= |f|
    ensures Gone(f, hot, outcome, n) == set fd | fd in Upto(f, n) && fd in ready && Closes(outcome(fd))
  {
    if n > 1 {
      GoneAre(f, hot, ready, outcome, n - 1);
      assert Upto(f, n) == Upto(f, n - 1) + (if f[n - 1] == FREE then {} else {f[n - 1]});
    }
  }

  lemma FreedSlot(h: seq<int>, listen: int, i: nat)
    requires Table(h, listen) && 1 <= i < |h| && h[i] != FREE
    ensures Table(h[i := FREE], listen) && ClientsOf(h[i := FREE]) == ClientsOf(h) - {h[i]}
  {
    var g := h[i := FREE];
    forall x | x in ClientsOf(h) - {h[i]}
      ensures x in ClientsOf(g)
    {
      var k :| 1 <= k < |h| && h[k] != FREE && h[k] == x;
      assert g[k] == x;
    }
  }

  /** Exactly the reported clients are read, each of them once. */
  function ReadsOf(log: seq<Act>): seq<int> {
    if log == [] then []
    else ReadsOf(log[..|log| - 1]) + (if log[|log| - 1].Read? then [log[|log| - 1].fd] else [])
  }

  lemma {:induction false} ReadsAppend(a: seq<Act>, b: seq<Act>)
    ensures ReadsOf(a + b) == ReadsOf(a) + ReadsOf(b)
  {
    if b == [] {
      assert a + b == a;
    } else {
      ReadsAppend(a, b[..|b| - 1]);
      assert (a + b)[..|a + b| - 1] == a + b[..|b| - 1];
    }
  }

  lemma SlotReads(fd: int, hot: bool, outcome: int -> Outcome)
    ensures ReadsOf(SlotLog(fd, hot, outcome)) == if fd != FREE && hot then [fd] else []
  {
    assert [Read(fd)][..0] == [] && [Read(fd), Closed(fd)][..1] == [Read(fd)];
    assert ReadsOf([Read(fd)]) == [fd] && ReadsOf([Read(fd), Closed(fd)]) == [fd];
  }

  /** The clients in hot slots below n, in slot order. */
  function HotClients(f: seq<int>, hot: seq<bool>, n: nat): seq<int>
    requires n <= |f| == |hot|
  {
    if n <= 1 then []
    else HotClients(f, hot, n - 1) + (if f[n - 1] != FREE && hot[n - 1] then [f[n - 1]] else [])
  }

  lemma {:induction false} ReadsAreHot(f: seq<int>, hot: seq<bool>, outcome: int -> Outcome, n: nat)
    requires 1 <= n <= |f| == |hot|
    ensures ReadsOf(SweepLog(f, hot, outcome, n)) == HotClients(f, hot, n)
  {
    if n > 1 {
      hide ReadsOf, SlotLog;
      ReadsAreHot(f, hot, outcome, n - 1);
      ReadsAppend(SweepLog(f, hot, outcome, n - 1), SlotLog(f[n - 1], hot[n - 1], outcome));
      SlotReads(f[n - 1], hot[n - 1], outcome);
    }
  }

  /** The hot clients are the ready ones, each of them once. */
  lemma {:induction false} HotAreReady(f: seq<int>, listen: int, hot: seq<bool>, ready: set<int>, n: nat)
    requires Table(f, listen) && Reports(hot, f, ready) && 1 <= n <= |f|
    ensures Distinct(HotClients(f, hot, n))
    ensures forall fd :: fd in HotClients(f, hot, n) <==> fd in Upto(f, n) && fd in ready
  {
    if n > 1 {
      HotAreReady(f, listen, hot, ready, n - 1);
      assert f[n - 1] != FREE ==> f[n - 1] !in Upto(f, n - 1);
      assert Upto(f, n) == Upto(f, n - 1) + (if f[n - 1] == FREE then {} else {f[n - 1]});
    }
  }

  // ---------------------------------------------------------------------------------------------------------
  // What becomes of each single descriptor.

  /** The calls on this descriptor. */
  function CallsOn(log: seq<Act>, fd: int): seq<Act> {
    if log == [] then []
    else CallsOn(log[..|log| - 1], fd) + (if log[|log| - 1].fd == fd then [log[|log| - 1]] else [])
  }

  /** A client that is not ready is left alone; one that is ready is read, and goes if and only if it has ended. */
  predicate ClientFate(fd: int, ready: bool, outcome: Outcome, stays: bool, calls: seq<Act>) {
    if !ready then stays && calls == []
    else
      match outcome
      case Data => stays && calls == [Read(fd)]
      case Again => stays && calls == [Read(fd)]
      case Eof => !stays && calls == [Read(fd), Closed(fd)]
      case Fault => !stays && calls == [Read(fd), Closed(fd)]
  }

  /** A newcomer stays while there is room; with none it is closed, or forgotten if the server `leaks`. */
  predicate NewcomerFate(fd: int, room: bool, leaks: bool, stays: bool, calls: seq<Act>) {
    if room then stays && calls == [Accepted(fd)]
    else if leaks then !stays && calls == [Accepted(fd)]
    else !stays && calls == [Accepted(fd), Closed(fd)]
  }

  /** A round, descriptor by descriptor, from table f to table g with these calls. */
  ghost predicate Fates(f: seq<int>, g: seq<int>, calls: seq<Act>, leaks: bool, input: Input)
    requires |f| > 0
  {
    forall fd ::
      var stays, mine := fd in ClientsOf(g), CallsOn(calls, fd);
      if fd in ClientsOf(f) then
        if input.Quiet? then stays && mine == []
        else ClientFate(fd, fd in input.ready, input.outcome(fd), stays, mine)
      else if input.Events? && input.accepted == Some(fd) then
        NewcomerFate(fd, |ClientsOf(f)| < |f| - 1, leaks, stays, mine)
      else !stays && mine == []
  }

  lemma {:induction false} CallsAppend(a: seq<Act>, b: seq<Act>, fd: int)
    ensures CallsOn(a + b, fd) == CallsOn(a, fd) + CallsOn(b, fd)
  {
    if b == [] {
      assert a + b == a;
    } else {
      CallsAppend(a, b[..|b| - 1], fd);
      assert (a + b)[..|a + b| - 1] == a + b[..|b| - 1];
    }
  }

  lemma CallsOnPair(a: Act, b: Act, fd: int)
    ensures CallsOn([a], fd) == if a.fd == fd then [a] else []
    ensures CallsOn([a, b], fd) == (if a.fd == fd then [a] else []) + (if b.fd == fd then [b] else [])
  {
    assert [a][..0] == [] && [a, b][..1] == [a];
    assert CallsOn([], fd) == [];
  }

  lemma SlotCalls(slot: int, hot: bool, outcome: int -> Outcome, fd: int)
    ensures CallsOn(SlotLog(slot, hot, outcome), fd) == if slot == fd then SlotLog(slot, hot, outcome) else []
  {
    CallsOnPair(Read(slot), Closed(slot), fd);
  }

  lemma SweepCallsStep(f: seq<int>, hot: seq<bool>, outcome: int -> Outcome, n: nat, fd: int)
    requires 1 < n <= |f| == |hot|
    ensures CallsOn(SweepLog(f, hot, outcome, n), fd) ==
            CallsOn(SweepLog(f, hot, outcome, n - 1), fd) +
            (if f[n - 1] == fd then SlotLog(f[n - 1], hot[n - 1], outcome) else [])
  {
    CallsAppend(SweepLog(f, hot, outcome, n - 1), SlotLog(f[n - 1], hot[n - 1], outcome), fd);
    SlotCalls(f[n - 1], hot[n - 1], outcome, fd);
  }

  lemma {:induction false} NoSweepCalls(f: seq<int>, hot: seq<bool>, outcome: int -> Outcome, n: nat, fd: int)
    requires n <= |f| == |hot| && forall i :: 1 <= i < n && f[i] != FREE ==> f[i] != fd
    ensures CallsOn(SweepLog(f, hot, outcome, n), fd) == []
    decreases n
  {
    if n > 1 {
      NoSweepCalls(f, hot, outcome, n - 1, fd);
      SweepCallsStep(f, hot, outcome, n, fd);
    }
  }

  /** For a client in one slot only the read loop makes the calls of that slot. */
  lemma {:induction false} SweepCalls(f: seq<int>, hot: seq<bool>, outcome: int -> Outcome, n: nat, i: nat)
    requires 1 <= i < n <= |f| == |hot| && forall j :: 1 <= j < |f| && j != i ==> f[j] != f[i]
    ensures CallsOn(SweepLog(f, hot, outcome, n), f[i]) == SlotLog(f[i], hot[i], outcome)
    decreases n
  {
    hide CallsOn, SweepLog, SlotLog;
    SweepCallsStep(f, hot, outcome, n, f[i]);
    if i == n - 1 {
      NoSweepCalls(f, hot, outcome, n - 1, f[i]);
    } else {
      SweepCalls(f, hot, outcome, n - 1, i);
    }
  }

  /** The read loop, for one client. */
  lemma SweptFate(f: seq<int>, listen: int, hot: seq<bool>, outcome: int -> Outcome, i: nat)
    requires Table(f, listen) && |hot| == |f| && 1 <= i < |f| && f[i] != FREE
    ensures ClientFate(f[i], hot[i], outcome(f[i]), f[i] in ClientsOf(Swept(f, hot, outcome, |f|)),
                       CallsOn(SweepLog(f, hot, outcome, |f|), f[i]))
  {
    var g := Swept(f, hot, outcome, |f|);
    SweepCalls(f, hot, outcome, |f|, i);
    if g[i] == FREE {
      forall k | 1 <= k < |g| && g[k] != FREE
        ensures g[k] != f[i]
      {
      }
    } else {
      assert g[i] in ClientsOf(g);
    }
  }

  /** The read loop, client by client, from table f to table g with these calls. */
  predicate SweepFates(f: seq<int>, hot: seq<bool>, outcome: int -> Outcome, g: seq<int>, calls: seq<Act>)
    requires |hot| == |f|
  {
    forall i :: 1 <= i < |f| && f[i] != FREE ==>
      ClientFate(f[i], hot[i], outcome(f[i]), f[i] in ClientsOf(g), CallsOn(calls, f[i]))
  }

  lemma SweptFates(f: seq<int>, listen: int, hot: seq<bool>, outcome: int -> Outcome)
    requires Table(f, listen) && |hot| == |f|
    ensures SweepFates(f, hot, outcome, Swept(f, hot, outcome, |f|), SweepLog(f, hot, outcome, |f|))
  {
    hide Swept, SweepLog, ClientFate;
    forall i | 1 <= i < |f| && f[i] != FREE
      ensures ClientFate(f[i], hot[i], outcome(f[i]), f[i] in ClientsOf(Swept(f, hot, outcome, |f|)),
                         CallsOn(SweepLog(f, hot, outcome, |f|), f[i]))
    {
      SweptFate(f, listen, hot, outcome, i);
    }
  }
}
