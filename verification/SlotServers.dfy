/** The select loop and the poll loop, updating their tables in place, as two implementations of SlotTables.Round. */
module SlotServers {
  import opened Common
  import opened SlotTables

  predicate Possible(c: Clients, cap: nat, leaks: bool, listen: int, inputs: seq<Input>)
    decreases |inputs|
  {
    inputs == [] ||
    (KernelMay(c, listen, inputs[0]) && Possible(Round(c, cap, leaks, inputs[0]), cap, leaks, listen, inputs[1..]))
  }

  function Rounds(c: Clients, cap: nat, leaks: bool, inputs: seq<Input>): Clients
    decreases |inputs|
  {
    if inputs == [] then c else Rounds(Round(c, cap, leaks, inputs[0]), cap, leaks, inputs[1..])
  }

  /** A round of the set machine, client by client. */
  lemma RoundMeans(c: Clients, cap: nat, leaks: bool, listen: int, input: Input, fd: int)
    requires KernelMay(c, listen, input) && input.Events?
    ensures var d := Round(c, cap, leaks, input);
            if fd in c.served then
              (match input.outcome(fd)
               case Data => fd in d.served
               case Again => fd in d.served
               case Eof => fd in d.served <==> fd !in input.ready
               case Fault => fd in d.served <==> fd !in input.ready)
            else
              && (fd in d.served <==> input.accepted == Some(fd) && |c.served| < cap)
              && (fd in d.leaked <==>
                    fd in c.leaked || (input.accepted == Some(fd) && |c.served| >= cap && leaks))
  {
  }

  /** A newcomer arrives when every slot is taken. */
  predicate Overflow(c: Clients, cap: nat, input: Input) {
    input.Events? && input.accepted.Some? && |c.served| >= cap
  }

  predicate NoOverflow(c: Clients, cap: nat, inputs: seq<Input>)
    decreases |inputs|
  {
    inputs == [] || (!Overflow(c, cap, inputs[0]) && NoOverflow(Round(c, cap, true, inputs[0]), cap, inputs[1..]))
  }

  /** Over any number of rounds poll forgets no socket iff no newcomer met a full table; a forgotten one stays so. */
  lemma {:induction false} LeakIff(c: Clients, cap: nat, listen: int, inputs: seq<Input>)
    requires Possible(c, cap, true, listen, inputs)
    ensures c.leaked <= Rounds(c, cap, true, inputs).leaked
    ensures Rounds(c, cap, true, inputs).leaked == c.leaked <==> NoOverflow(c, cap, inputs)
    decreases |inputs|
  {
    if inputs != [] {
      var d := Round(c, cap, true, inputs[0]);
      LeakIff(d, cap, listen, inputs[1..]);
      if Overflow(c, cap, inputs[0]) {
        assert inputs[0].accepted.value in d.leaked;
      } else {
        assert d.leaked == c.leaked;
      }
    }
  }

  /**
   What a round leaves behind: the table is served by Round, no client is read that was not ready before the accept,
   every ready one is read once, and the system calls stay legal.
   */
  ghost predicate RoundDone(
      f: seq<int>, g: seq<int>, listen: int, before: seq<Act>, after: seq<Act>,
      leaked: set<int>, leaked': set<int>, leaks: bool, input: Input)
  {
    && Serves(g, listen, after, leaked')
    && |f| > 0
    && before <= after && Fates(f, g, after[|before|..], leaks, input)
    && Clients(ClientsOf(g), leaked') == Round(Clients(ClientsOf(f), leaked), |f| - 1, leaks, input)
    && var got := ReadsOf(after[|before|..]);
       && Distinct(got)
       && forall fd :: fd in got <==> input.Events? && fd in ClientsOf(f) && fd in input.ready
  }

  /** A round that only waited. */
  lemma QuietDone(f: seq<int>, listen: int, log: seq<Act>, leaked: set<int>, leaks: bool)
    requires Serves(f, listen, log, leaked)
    ensures RoundDone(f, f, listen, log, log, leaked, leaked, leaks, Quiet)
  {
    assert log[|log|..] == [];
    forall fd
      ensures CallsOn([], fd) == []
    {
    }
  }

  // The accept part of a round: a newcomer, if there is one, is stored, refused or forgotten.

  function Admitted(f: seq<int>, accepted: Option<int>): (r: seq<int>)
    ensures |r| == |f|
  {
    if accepted.Some? then Stored(f, accepted.value) else f
  }

  function AdmitLog(f: seq<int>, leaks: bool, accepted: Option<int>): seq<Act> {
    if accepted == None then []
    else if FirstFree(f, 0) < |f| || leaks then [Accepted(accepted.value)]
    else [Accepted(accepted.value), Closed(accepted.value)]
  }

  function LeakedBy(f: seq<int>, leaks: bool, leaked: set<int>, accepted: Option<int>): set<int> {
    if accepted.Some? && FirstFree(f, 0) == |f| && leaks then leaked + {accepted.value} else leaked
  }

  lemma AdmitCalls(f: seq<int>, log: seq<Act>, leaks: bool, fd: int)
    requires LegalLog(log) && fd !in OpenAfter(log)
    ensures var l := log + AdmitLog(f, leaks, Some(fd));
            LegalLog(l) && OpenAfter(l) == OpenAfter(log) + (if FirstFree(f, 0) < |f| || leaks then {fd} else {})
  {
    LogAppend(log, Accepted(fd));
    LogAppend(log + [Accepted(fd)], Closed(fd));
    assert log + [Accepted(fd)] + [Closed(fd)] == log + [Accepted(fd), Closed(fd)];
  }

  lemma AdmitReads(f: seq<int>, leaks: bool, accepted: Option<int>)
    ensures ReadsOf(AdmitLog(f, leaks, accepted)) == []
  {
    if accepted.Some? {
      NoReads(accepted.value);
    }
  }

  lemma NoReads(fd: int)
    ensures ReadsOf([Accepted(fd)]) == [] && ReadsOf([Accepted(fd), Closed(fd)]) == []
  {
    assert [Accepted(fd)][..0] == [] && [Accepted(fd), Closed(fd)][..1] == [Accepted(fd)];
  }

  lemma AddOne(c: set<int>, d: set<int>, fd: int)
    ensures (c + {fd}) + d == (c + d) + {fd} == c + (d + {fd})
    ensures c !! d && fd !in d ==> c + {fd} !! d
    ensures c !! d && fd !in c ==> c !! d + {fd}
  {
  }

  lemma AdmitServes(f: seq<int>, listen: int, log: seq<Act>, leaked: set<int>, leaks: bool, input: Input)
    requires Serves(f, listen, log, leaked) && input.Events? && KernelMay(Clients(ClientsOf(f), leaked), listen, input)
    ensures var a := input.accepted;
            Serves(Admitted(f, a), listen, log + AdmitLog(f, leaks, a), LeakedBy(f, leaks, leaked, a))
  {
    hide Table, Stored, ClientsOf, LegalLog, OpenAfter;
    match input.accepted
    case None =>
      assert log + AdmitLog(f, leaks, None) == log;
    case Some(fd) =>
      hide AdmitLog;
      StoredRefines(f, listen, fd);
      RoomIsAFreeSlot(f, listen);
      AdmitCalls(f, log, leaks, fd);
      AddOne(ClientsOf(f), leaked, fd);
  }

  /** The table as a set after the accept part; the ready clients are the same as before it. */
  lemma AdmittedSet(f: seq<int>, listen: int, leaked: set<int>, input: Input)
    requires Table(f, listen) && input.Events? && KernelMay(Clients(ClientsOf(f), leaked), listen, input)
    ensures var f1 := Admitted(f, input.accepted);
            && Table(f1, listen)
            && ClientsOf(f1) == (if input.accepted.Some? && |ClientsOf(f)| < |f| - 1
                                 then ClientsOf(f) + {input.accepted.value} else ClientsOf(f))
            && ClientsOf(f1) * input.ready == ClientsOf(f) * input.ready
    ensures FirstFree(f, 0) == |f| <==> |ClientsOf(f)| >= |f| - 1
  {
    RoomIsAFreeSlot(f, listen);
    if input.accepted.Some? {
      StoredRefines(f, listen, input.accepted.value);
    }
  }

  // The read part: every hot slot, as the kernel reported it before the newcomer was stored.

  lemma SweptSet(f: seq<int>, listen: int, hot: seq<bool>, leaked: set<int>, leaks: bool, input: Input)
    requires Table(f, listen) && input.Events? && KernelMay(Clients(ClientsOf(f), leaked), listen, input)
    requires Reports(hot, Admitted(f, input.accepted), input.ready)
    ensures Clients(ClientsOf(Swept(Admitted(f, input.accepted), hot, input.outcome, |f|)),
                    LeakedBy(f, leaks, leaked, input.accepted)) ==
            Round(Clients(ClientsOf(f), leaked), |f| - 1, leaks, input)
  {
    hide Table, Stored, Swept, Admitted, Gone;
    var n, f1 := |f|, Admitted(f, input.accepted);
    AdmittedSet(f, listen, leaked, input);
    SweptClients(f1, listen, hot, input.outcome, n);
    GoneAre(f1, hot, input.ready, input.outcome, n);
    ToCloseIs(f, f1, leaked, input);
  }

  lemma ToCloseIs(f: seq<int>, f1: seq<int>, leaked: set<int>, input: Input)
    requires input.Events? && ClientsOf(f1) * input.ready == ClientsOf(f) * input.ready
    ensures ToClose(Clients(ClientsOf(f), leaked), input) ==
            set fd | fd in Upto(f1, |f1|) && fd in input.ready && Closes(input.outcome(fd))
  {
    forall fd
      ensures fd in ClientsOf(f) && fd in input.ready <==> fd in ClientsOf(f1) && fd in input.ready
    {
      assert fd in ClientsOf(f1) * input.ready <==> fd in ClientsOf(f) * input.ready;
    }
  }

  lemma SweepReads(f: seq<int>, f1: seq<int>, listen: int, admit: seq<Act>, hot: seq<bool>, input: Input)
    requires Table(f1, listen) && input.Events? && Reports(hot, f1, input.ready) && |f1| == |f|
    requires ReadsOf(admit) == [] && ClientsOf(f1) * input.ready == ClientsOf(f) * input.ready
    ensures var got := ReadsOf(admit + SweepLog(f1, hot, input.outcome, |f|));
            Distinct(got) && forall fd :: fd in got <==> fd in ClientsOf(f) && fd in input.ready
  {
    var n := |f|;
    ReadsAppend(admit, SweepLog(f1, hot, input.outcome, n));
    ReadsAreHot(f1, hot, input.outcome, n);
    HotAreReady(f1, listen, hot, input.ready, n);
    hide Table, Reports, HotClients, SweepLog, ReadsOf;
    var got := HotClients(f1, hot, n);
    assert [] + got == got;
    forall fd
      ensures fd in got <==> fd in ClientsOf(f) && fd in input.ready
    {
      assert fd in ClientsOf(f1) * input.ready <==> fd in ClientsOf(f) * input.ready;
    }
  }

  lemma AdmitCallsOn(f: seq<int>, leaks: bool, accepted: Option<int>, fd: int)
    ensures CallsOn(AdmitLog(f, leaks, accepted), fd) ==
            if accepted == Some(fd) then AdmitLog(f, leaks, accepted) else []
  {
    if accepted.Some? {
      CallsOnPair(Accepted(accepted.value), Closed(accepted.value), fd);
    }
  }

  /** What a round does to one descriptor. */
  lemma RoundFate(f: seq<int>, listen: int, hot: seq<bool>, leaked: set<int>, leaks: bool, input: Input, fd: int)
    requires Table(f, listen) && input.Events? && KernelMay(Clients(ClientsOf(f), leaked), listen, input)
    requires Reports(hot, Admitted(f, input.accepted), input.ready)
    ensures var f1 := Admitted(f, input.accepted);
            var calls := AdmitLog(f, leaks, input.accepted) + SweepLog(f1, hot, input.outcome, |f|);
            var stays, mine := fd in ClientsOf(Swept(f1, hot, input.outcome, |f|)), CallsOn(calls, fd);
            if fd in ClientsOf(f) then ClientFate(fd, fd in input.ready, input.outcome(fd), stays, mine)
            else if input.accepted == Some(fd) then
              NewcomerFate(fd, |ClientsOf(f)| < |f| - 1, leaks, stays, mine)
            else !stays && mine == []
  {
    var f1 := Admitted(f, input.accepted);
    AdmittedSet(f, listen, leaked, input);
    AdmitCallsOn(f, leaks, input.accepted, fd);
    CallsAppend(AdmitLog(f, leaks, input.accepted), SweepLog(f1, hot, input.outcome, |f|), fd);
    hide Stored, Admitted;
    if fd in ClientsOf(f1) {
      var i :| 1 <= i < |f1| && f1[i] != FREE && f1[i] == fd;
      assert hot[i] <==> fd in input.ready;
      SweptFate(f1, listen, hot, input.outcome, i);
    } else {
      forall i | 1 <= i < |f1| && f1[i] != FREE
        ensures f1[i] != fd
      {
        assert f1[i] in ClientsOf(f1);
      }
      NoSweepCalls(f1, hot, input.outcome, |f|, fd);
      SweptClients(f1, listen, hot, input.outcome, |f|);
    }
  }

  lemma RoundFates(f: seq<int>, listen: int, hot: seq<bool>, leaked: set<int>, leaks: bool, input: Input)
    requires Table(f, listen) && input.Events? && KernelMay(Clients(ClientsOf(f), leaked), listen, input)
    requires Reports(hot, Admitted(f, input.accepted), input.ready) && |f| > 0
    ensures var f1 := Admitted(f, input.accepted);
            Fates(f, Swept(f1, hot, input.outcome, |f|),
                  AdmitLog(f, leaks, input.accepted) + SweepLog(f1, hot, input.outcome, |f|), leaks, input)
  {
    var f1 := Admitted(f, input.accepted);
    var g := Swept(f1, hot, input.outcome, |f|);
    var calls := AdmitLog(f, leaks, input.accepted) + SweepLog(f1, hot, input.outcome, |f|);
    forall fd
      ensures var stays, mine := fd in ClientsOf(g), CallsOn(calls, fd);
              if fd in ClientsOf(f) then ClientFate(fd, fd in input.ready, input.outcome(fd), stays, mine)
              else if input.accepted == Some(fd) then
                NewcomerFate(fd, |ClientsOf(f)| < |f| - 1, leaks, stays, mine)
              else !stays && mine == []
    {
      RoundFate(f, listen, hot, leaked, leaks, input, fd);
    }
    hide Swept, SweepLog, AdmitLog, Admitted, ClientsOf, CallsOn, ClientFate, NewcomerFate;
  }

  /** A whole round, if the hot slots are as the kernel reported them. */
  lemma EventsDone(f: seq<int>, listen: int, log: seq<Act>, hot: seq<bool>, leaked: set<int>, leaks: bool, input: Input)
    requires Serves(f, listen, log, leaked) && input.Events? && |f| > 0
    requires KernelMay(Clients(ClientsOf(f), leaked), listen, input)
    requires Reports(hot, Admitted(f, input.accepted), input.ready)
    ensures var a := input.accepted;
            var f1 := Admitted(f, a);
            RoundDone(f, Swept(f1, hot, input.outcome, |f|), listen,
                      log, log + AdmitLog(f, leaks, a) + SweepLog(f1, hot, input.outcome, |f|),
                      leaked, LeakedBy(f, leaks, leaked, a), leaks, input)
  {
    hide Table, Round, Swept, SweepLog, ReadsOf, ClientsOf, KernelMay, LegalLog, OpenAfter, Stored, FirstFree;
    hide Admitted, AdmitLog, LeakedBy;
    var n, f1, admit := |f|, Admitted(f, input.accepted), AdmitLog(f, leaks, input.accepted);
    var sweep := SweepLog(f1, hot, input.outcome, n);
    SweptSet(f, listen, hot, leaked, leaks, input);
    AdmittedSet(f, listen, leaked, input);
    AdmitServes(f, listen, log, leaked, leaks, input);
    AdmitReads(f, leaks, input.accepted);
    hide Serves;
    SweepServes(f1, listen, hot, input.outcome, n, log + admit, LeakedBy(f, leaks, leaked, input.accepted));
    assert (log + admit + sweep)[|log|..] == admit + sweep;
    SweepReads(f, f1, listen, admit, hot, input);
    RoundFates(f, listen, hot, leaked, leaks, input);
  }

  // ---------------------------------------------------------------------------------------------------------
  // select

  class SelectServer {
    const listen: int
    const fds: array<int>
    var maxfd: int
    var log: seq<Act>

    ghost predicate Valid()
      reads this, fds
    {
      fds.Length == SELECT_FDS_LEN && Serves(fds[..], listen, log, {})
    }

    ghost function View(): Clients
      reads this, fds
    {
      Clients(ClientsOf(fds[..]), {})
    }

    constructor (listen: int)
      requires listen != FREE
      ensures Valid() && fresh(fds) && View() == Clients({}, {}) && log == [] && this.listen == listen
    {
      this.listen, maxfd, log := listen, -1, [];
      fds := new int[SELECT_FDS_LEN](i => if i == 0 then listen else FREE);
    }

    /** The set handed to select, and the bound handed with it, which covers every slot. */
    method Watch() returns (rfds: set<int>)
      requires Valid()
      modifies this`maxfd
      ensures rfds == {listen} + ClientsOf(fds[..])
      ensures forall i :: 0 <= i < fds.Length && fds[i] != FREE ==> fds[i] <= maxfd
      ensures old(maxfd) <= maxfd && (maxfd == old(maxfd) || maxfd in fds[..])
    {
      rfds := {};
      var i := 0;
      while i < fds.Length
        invariant 0 <= i <= fds.Length
        invariant rfds == (if i == 0 then {} else {listen} + Upto(fds[..], i))
        invariant forall k :: 0 <= k < i && fds[k] != FREE ==> fds[k] <= maxfd
        invariant old(maxfd) <= maxfd && (maxfd == old(maxfd) || maxfd in fds[..])
      {
        if fds[i] != FREE {
          rfds := rfds + {fds[i]};
          maxfd := if fds[i] > maxfd then fds[i] else maxfd;
        }
        assert i > 0 ==> Upto(fds[..], i + 1) == Upto(fds[..], i) + (if fds[i] == FREE then {} else {fds[i]});
        i := i + 1;
      }
    }

    /** A newcomer takes the first free slot, or is closed at once. */
    method Admit(fd: int)
      requires fds.Length == SELECT_FDS_LEN
      modifies fds, this`log
      ensures fds[..] == Stored(old(fds[..]), fd)
      ensures log == old(log) + AdmitLog(old(fds[..]), false, Some(fd))
    {
      log := log + [Accepted(fd)];
      var i := 0;
      while i < fds.Length
        invariant 0 <= i <= fds.Length
        invariant FirstFree(fds[..], 0) == FirstFree(fds[..], i)
        invariant fds[..] == old(fds[..])
      {
        if fds[i] == FREE {
          fds[i] := fd;
          break;
        }
        i := i + 1;
      }
      if i == fds.Length {
        log := log + [Closed(fd)];
      }
    }

    /** Every slot whose descriptor select reported is read, and freed when the read says so. */
    method Sweep(rfds: set<int>, outcome: int -> Outcome)
      requires fds.Length == SELECT_FDS_LEN
      modifies fds, this`log
      ensures var f := old(fds[..]);
              var hot := seq(|f|, i requires 0 <= i < |f| => f[i] in rfds);
              fds[..] == Swept(f, hot, outcome, |f|) && log == old(log) + SweepLog(f, hot, outcome, |f|)
    {
      ghost var f := fds[..];
      ghost var hot := seq(|f|, i requires 0 <= i < |f| => f[i] in rfds);
      SweptStart(f, hot, outcome);
      assert SweepLog(f, hot, outcome, 1) == [];
      hide Swept, SweepLog;
      var i := 1;
      while i < fds.Length
        invariant 1 <= i <= fds.Length
        invariant fds[..] == Swept(f, hot, outcome, i)
        invariant log == old(log) + SweepLog(f, hot, outcome, i)
      {
        SweptStep(f, hot, outcome, i);
        SweepLogStep(f, hot, outcome, i, old(log));
        if fds[i] != FREE && fds[i] in rfds {
          var fd := fds[i];
          log := log + [Read(fd)];
          if Closes(outcome(fd)) {
            log := log + [Closed(fd)];
            ghost var h := fds[..];
            fds[i] := FREE;
            assert fds[..] == h[i := FREE];
          }
        }
        i := i + 1;
      }
    }

    method RunRound(input: Input)
      requires Valid() && KernelMay(View(), listen, input)
      modifies this`maxfd, this`log, fds
      ensures Valid()
      ensures RoundDone(old(fds[..]), fds[..], listen, old(log), log, {}, {}, false, input)
      ensures old(log) <= log && Fates(old(fds[..]), fds[..], log[|old(log)|..], false, input)
      ensures View() == Round(old(View()), SELECT_FDS_LEN - 1, false, input)
    {
      ghost var f := fds[..];
      var watched := Watch();
      match input {
        case Quiet =>
          QuietDone(f, listen, log, {}, false);
        case Events(ready, accepted, outcome) =>
          assert ready <= watched;
          SelectReports(f, listen, log, input);
          if accepted.Some? {
            Admit(accepted.value);
          }
          assert fds[..] == Admitted(f, accepted) && log == old(log) + AdmitLog(f, false, accepted);
          Sweep(ready, outcome);
      }
    }

    /** The `while (true)` of the server, for any finite number of rounds. */
    method Serve(inputs: seq<Input>)
      requires Valid() && Possible(View(), SELECT_FDS_LEN - 1, false, listen, inputs)
      modifies this`maxfd, this`log, fds
      ensures Valid() && View() == Rounds(old(View()), SELECT_FDS_LEN - 1, false, inputs)
      ensures LegalLog(log) && OpenAfter(log) == ClientsOf(fds[..])
    {
      var r := 0;
      while r < |inputs|
        invariant 0 <= r <= |inputs| && Valid()
        invariant Possible(View(), SELECT_FDS_LEN - 1, false, listen, inputs[r..])
        invariant Rounds(View(), SELECT_FDS_LEN - 1, false, inputs[r..]) ==
                  Rounds(old(View()), SELECT_FDS_LEN - 1, false, inputs)
      {
        assert inputs[r..][1..] == inputs[r + 1..];
        RunRound(inputs[r]);
        r := r + 1;
      }
    }
  }

  // ---------------------------------------------------------------------------------------------------------
  // poll

  /** fd and the POLLIN bit of revents. */
  datatype PollFd = PollFd(fd: int, pollIn: bool)

  function Fds(p: seq<PollFd>): (f: seq<int>)
    ensures |f| == |p|
  {
    seq(|p|, i requires 0 <= i < |p| => p[i].fd)
  }

  function PollIns(p: seq<PollFd>): (h: seq<bool>)
    ensures |h| == |p|
  {
    seq(|p|, i requires 0 <= i < |p| => p[i].pollIn)
  }

  class PollServer {
    const listen: int
    const pfds: array<PollFd>
    var log: seq<Act>
    ghost var leaked: set<int>

    ghost predicate Valid()
      reads this, pfds
    {
      pfds.Length == POLL_FDS_LEN && Serves(Fds(pfds[..]), listen, log, leaked)
    }

    ghost function View(): Clients
      reads this, pfds
    {
      Clients(ClientsOf(Fds(pfds[..])), leaked)
    }

    constructor (listen: int)
      requires listen != FREE
      ensures Valid() && fresh(pfds) && View() == Clients({}, {}) && log == [] && this.listen == listen
    {
      this.listen, log, leaked := listen, [], {};
      pfds := new PollFd[POLL_FDS_LEN](i => PollFd(if i == 0 then listen else FREE, false));
    }

    /** poll writes revents of every entry, and zero where fd is negative. */
    method Poll(ready: set<int>, listening: bool)
      requires pfds.Length == POLL_FDS_LEN
      modifies pfds
      ensures Fds(pfds[..]) == old(Fds(pfds[..]))
      ensures pfds[0].pollIn == listening
      ensures forall i :: 1 <= i < pfds.Length ==> (pfds[i].pollIn <==> pfds[i].fd >= 0 && pfds[i].fd in ready)
    {
      pfds[0] := PollFd(pfds[0].fd, listening);
      var i := 1;
      while i < pfds.Length
        invariant 1 <= i <= pfds.Length && pfds[0].pollIn == listening
        invariant Fds(pfds[..]) == old(Fds(pfds[..]))
        invariant forall k :: 1 <= k < i ==> (pfds[k].pollIn <==> pfds[k].fd >= 0 && pfds[k].fd in ready)
      {
        pfds[i] := PollFd(pfds[i].fd, pfds[i].fd >= 0 && pfds[i].fd in ready);
        i := i + 1;
      }
    }

    /** A newcomer takes the first free slot and leaves its revents alone; with a full table it is forgotten. */
    method Admit(fd: int)
      requires pfds.Length == POLL_FDS_LEN
      modifies pfds, this`log
      ensures Fds(pfds[..]) == Stored(old(Fds(pfds[..])), fd)
      ensures PollIns(pfds[..]) == old(PollIns(pfds[..]))
      ensures log == old(log) + AdmitLog(old(Fds(pfds[..])), true, Some(fd))
    {
      log := log + [Accepted(fd)];
      ghost var f := Fds(pfds[..]);
      var i := 0;
      while i < pfds.Length
        invariant 0 <= i <= pfds.Length
        invariant FirstFree(f, 0) == FirstFree(f, i)
        invariant pfds[..] == old(pfds[..])
      {
        if pfds[i].fd == FREE {
          pfds[i] := PollFd(fd, pfds[i].pollIn);
          assert Fds(pfds[..]) == f[i := fd];
          break;
        }
        i := i + 1;
      }
    }

    method Sweep(outcome: int -> Outcome)
      requires pfds.Length == POLL_FDS_LEN
      modifies pfds, this`log
      ensures var f, hot := old(Fds(pfds[..])), old(PollIns(pfds[..]));
              Fds(pfds[..]) == Swept(f, hot, outcome, |f|) && log == old(log) + SweepLog(f, hot, outcome, |f|)
    {
      ghost var f, hot := Fds(pfds[..]), PollIns(pfds[..]);
      SweptStart(f, hot, outcome);
      assert SweepLog(f, hot, outcome, 1) == [];
      hide Swept, SweepLog;
      var i := 1;
      while i < pfds.Length
        invariant 1 <= i <= pfds.Length
        invariant Fds(pfds[..]) == Swept(f, hot, outcome, i) && PollIns(pfds[..]) == hot
        invariant log == old(log) + SweepLog(f, hot, outcome, i)
      {
        SweptStep(f, hot, outcome, i);
        SweepLogStep(f, hot, outcome, i, old(log));
        assert pfds[i].fd == Fds(pfds[..])[i] && pfds[i].pollIn == PollIns(pfds[..])[i];
        if pfds[i].fd != FREE && pfds[i].pollIn {
          var fd := pfds[i].fd;
          log := log + [Read(fd)];
          if Closes(outcome(fd)) {
            log := log + [Closed(fd)];
            ghost var h := Fds(pfds[..]);
            pfds[i] := PollFd(FREE, pfds[i].pollIn);
            assert Fds(pfds[..]) == h[i := FREE];
          }
        }
        i := i + 1;
      }
    }

    method RunRound(input: Input)
      requires Valid() && KernelMay(View(), listen, input)
      modifies this`log, this`leaked, pfds
      ensures Valid()
      ensures RoundDone(old(Fds(pfds[..])), Fds(pfds[..]), listen, old(log), log, old(leaked), leaked, true, input)
      ensures old(log) <= log && Fates(old(Fds(pfds[..])), Fds(pfds[..]), log[|old(log)|..], true, input)
      ensures View() == Round(old(View()), POLL_FDS_LEN - 1, true, input)
    {
      hide Stored, Swept, SweepLog, ClientsOf;
      ghost var f := Fds(pfds[..]);
      match input {
        case Quiet =>
          QuietDone(f, listen, log, leaked, true);
        case Events(ready, accepted, outcome) =>
          Poll(ready, accepted.Some?);
          PollReports(pfds[..], f, listen, log, leaked, input);
          if pfds[0].pollIn {
            leaked := if FirstFree(f, 0) == |f| then leaked + {accepted.value} else leaked;
            Admit(accepted.value);
          }
          assert Fds(pfds[..]) == Admitted(f, accepted) && log == old(log) + AdmitLog(f, true, accepted);
          Sweep(outcome);
      }
    }

    method Serve(inputs: seq<Input>)
      requires Valid() && Possible(View(), POLL_FDS_LEN - 1, true, listen, inputs)
      modifies this`log, this`leaked, pfds
      ensures Valid() && View() == Rounds(old(View()), POLL_FDS_LEN - 1, true, inputs)
      ensures LegalLog(log) && OpenAfter(log) == View().served + View().leaked
      ensures leaked == old(leaked) <==> NoOverflow(old(View()), POLL_FDS_LEN - 1, inputs)
    {
      LeakIff(View(), POLL_FDS_LEN - 1, listen, inputs);
      var r := 0;
      while r < |inputs|
        invariant 0 <= r <= |inputs| && Valid()
        invariant Possible(View(), POLL_FDS_LEN - 1, true, listen, inputs[r..])
        invariant Rounds(View(), POLL_FDS_LEN - 1, true, inputs[r..]) ==
                  Rounds(old(View()), POLL_FDS_LEN - 1, true, inputs)
      {
        assert inputs[r..][1..] == inputs[r + 1..];
        RunRound(inputs[r]);
        r := r + 1;
      }
    }
  }

  /** FD_ISSET after the accept: the newcomer's descriptor differs from every watched one, so it is not set. */
  lemma SelectReports(f: seq<int>, listen: int, log: seq<Act>, input: Input)
    requires Serves(f, listen, log, {}) && |f| > 0
    requires input.Events? && KernelMay(Clients(ClientsOf(f), {}), listen, input)
    ensures var f1 := Admitted(f, input.accepted);
            var hot := seq(|f1|, i requires 0 <= i < |f1| => f1[i] in input.ready);
            RoundDone(f, Swept(f1, hot, input.outcome, |f|), listen,
                      log, log + AdmitLog(f, false, input.accepted) + SweepLog(f1, hot, input.outcome, |f|),
                      {}, {}, false, input)
  {
    var f1 := Admitted(f, input.accepted);
    var hot := seq(|f1|, i requires 0 <= i < |f1| => f1[i] in input.ready);
    assert Reports(hot, f1, input.ready);
    EventsDone(f, listen, log, hot, {}, false, input);
  }

  /** The newcomer's slot was free when poll ran, so its revents were zeroed. */
  lemma PollReports(p: seq<PollFd>, f: seq<int>, listen: int, log: seq<Act>, leaked: set<int>, input: Input)
    requires Serves(f, listen, log, leaked) && input.Events? && KernelMay(Clients(ClientsOf(f), leaked), listen, input)
    requires f == Fds(p) && |f| > 0
    requires forall i :: 1 <= i < |p| ==> (p[i].pollIn <==> p[i].fd >= 0 && p[i].fd in input.ready)
    ensures var f1 := Admitted(f, input.accepted);
            RoundDone(f, Swept(f1, PollIns(p), input.outcome, |f|), listen,
                      log, log + AdmitLog(f, true, input.accepted) + SweepLog(f1, PollIns(p), input.outcome, |f|),
                      leaked, LeakedBy(f, true, leaked, input.accepted), true, input)
  {
    var f1 := Admitted(f, input.accepted);
    assert Reports(PollIns(p), f, input.ready);
    if input.accepted.Some? {
      HotAfterStored(f, PollIns(p), input.ready, input.accepted.value);
    }
    EventsDone(f, listen, log, PollIns(p), leaked, true, input);
  }
}
