/**
 The parent's table of child processes in the process-pool server and the loops that walk it: the round-robin search,
 the bookkeeping after waitpid, the `_stop` scan and the kill loop.  The functions at the top say what the loops do;
 ProcPoolModel runs them concurrently with the kernel and the children.
 */
module ProcTable {
  import opened Common

  const DEAD := -1
  const MAX_PROCESS_NUMBER := 16

  datatype Sig = SigChld | SigTerm | SigInt | SigOther

  predicate Termination(sig: Sig) {
    sig == SigTerm || sig == SigInt
  }

  predicate AllDead(pids: seq<int>) {
    forall k :: 0 <= k < |pids| ==> pids[k] == DEAD
  }

  /** Every entry that names this pid is marked. */
  function MarkDead(pids: seq<int>, pid: int): (r: seq<int>)
    ensures |r| == |pids|
  {
    seq(|pids|, k requires 0 <= k < |pids| => if pids[k] == pid then DEAD else pids[k])
  }

  /** The pipe ends closed for the entries below k that name this pid, in table order. */
  function ClosedFor(pids: seq<int>, fds: seq<int>, pid: int, k: nat): seq<int>
    requires k <= |pids| == |fds|
  {
    if k == 0 then []
    else ClosedFor(pids, fds, pid, k - 1) + (if pids[k - 1] == pid then [fds[k - 1]] else [])
  }

  /** The live pids below k, in table order. */
  function LivePids(pids: seq<int>, k: nat): seq<int>
    requires k <= |pids|
  {
    if k == 0 then [] else LivePids(pids, k - 1) + (if pids[k - 1] != DEAD then [pids[k - 1]] else [])
  }

  /** All entries met when walking the table cyclically from `start` and stopping before j are dead. */
  predicate DeadBetween(pids: seq<int>, start: nat, j: nat) {
    if start <= j then forall k :: start <= k < j && k < |pids| ==> pids[k] == DEAD
    else
      && (forall k :: start <= k < |pids| ==> pids[k] == DEAD)
      && (forall k :: 0 <= k < j && k < |pids| ==> pids[k] == DEAD)
  }

  /** The first live index at or after i, without wrapping; |pids| if there is none. */
  function LiveFrom(pids: seq<int>, i: nat): (j: nat)
    requires i <= |pids|
    ensures i <= j <= |pids|
    ensures j < |pids| ==> pids[j] != DEAD
    ensures forall k :: i <= k < j ==> pids[k] == DEAD
    decreases |pids| - i
  {
    if i == |pids| || pids[i] != DEAD then i else LiveFrom(pids, i + 1)
  }

  /** The child the round robin picks: the first live one in cyclic order, or `start` itself when all are dead. */
  function Pick(pids: seq<int>, start: nat): (j: nat)
    requires start < |pids|
    ensures j < |pids|
    ensures pids[j] == DEAD <==> AllDead(pids)
    ensures pids[j] != DEAD ==> DeadBetween(pids, start, j)
    ensures AllDead(pids) ==> j == start
  {
    var j := LiveFrom(pids, start);
    if j < |pids| then j
    else
      var i := LiveFrom(pids, 0);
      if i < start then i else start
  }

  lemma PickIsUnique(pids: seq<int>, start: nat, j: nat)
    requires start < |pids| && j < |pids| && pids[j] != DEAD && DeadBetween(pids, start, j)
    ensures Pick(pids, start) == j
  {
    var p := Pick(pids, start);
    assert pids[p] != DEAD && DeadBetween(pids, start, p);
  }

  // ---------------------------------------------------------------------------------------------------------
  // Balance: how often each child has been picked.

  /** In round r the children below the counter have had one pick more than the others that are alive. */
  predicate InRound(pids: seq<int>, counter: nat, counts: seq<nat>, r: nat)
    requires |counts| == |pids|
  {
    forall k :: 0 <= k < |pids| && pids[k] != DEAD ==> counts[k] == r + (if k < counter then 1 else 0)
  }

  /** (j + 1) modulo the table size. */
  function NextCounter(j: nat, n: nat): (c: nat)
    requires j < n
    ensures c == if j + 1 == n then 0 else j + 1
  {
    (j + 1) % n
  }

  /** A pick keeps the balance; the round number grows when the counter passes the end of the table. */
  lemma PickKeepsBalance(pids: seq<int>, counter: nat, counts: seq<nat>, r: nat)
    requires |counts| == |pids| && counter < |pids|
    requires InRound(pids, counter, counts, r) && !AllDead(pids)
    ensures var j := Pick(pids, counter);
            var c := NextCounter(j, |pids|);
            InRound(pids, c, counts[j := counts[j] + 1], if c <= counter then r + 1 else r)
  {
    var j := Pick(pids, counter);
    assert pids[j] != DEAD && DeadBetween(pids, counter, j);
  }

  // ---------------------------------------------------------------------------------------------------------
  // What the parent does to its table, event by event.

  datatype Table = Table(
    pids: seq<int>,         // m_pid
    counter: nat,           // sub_process_counter
    stop: bool,             // _stop
    sent: seq<nat>,         // children a connection was announced to
    closed: seq<int>,       // the parent's pipe ends it closed
    killed: seq<int>)       // pids a SIGTERM was sent to

  /** An event of one epoll_wait: the listening socket, or the signal pipe with the bytes read from it. */
  datatype Ready = Listening | Readable(signals: seq<SigByte>)

  /** A byte of the signal pipe; `reaped` is what waitpid returns, until it has no more, if this is a SIGCHLD. */
  datatype SigByte = SigByte(sig: Sig, reaped: seq<int>)

  function Buried(t: Table, fds: seq<int>, pid: int): (r: Table)
    requires |fds| == |t.pids|
    ensures |r.pids| == |t.pids|
  {
    t.(pids := MarkDead(t.pids, pid), closed := t.closed + ClosedFor(t.pids, fds, pid, |fds|))
  }

  function BuriedAll(t: Table, fds: seq<int>, reaped: seq<int>): (r: Table)
    requires |fds| == |t.pids|
    ensures |r.pids| == |t.pids| && r.counter == t.counter && r.stop == t.stop
    decreases |reaped|
  {
    if reaped == [] then t else BuriedAll(Buried(t, fds, reaped[0]), fds, reaped[1..])
  }

  function AfterSignal(t: Table, fds: seq<int>, b: SigByte): (r: Table)
    requires |fds| == |t.pids|
    ensures |r.pids| == |t.pids| && r.counter == t.counter
  {
    match b.sig
    case SigChld =>
      var u := BuriedAll(t, fds, b.reaped);
      u.(stop := AllDead(u.pids))
    case SigOther => t
    case _ => t.(killed := t.killed + LivePids(t.pids, |t.pids|))
  }

  function AfterSignals(t: Table, fds: seq<int>, bytes: seq<SigByte>): (r: Table)
    requires |fds| == |t.pids|
    ensures |r.pids| == |t.pids| && r.counter == t.counter
    decreases |bytes|
  {
    if bytes == [] then t else AfterSignals(AfterSignal(t, fds, bytes[0]), fds, bytes[1..])
  }

  function Announced(t: Table): (r: Table)
    requires t.counter < |t.pids|
    ensures |r.pids| == |t.pids| && r.counter < |r.pids|
  {
    var j := Pick(t.pids, t.counter);
    t.(counter := NextCounter(j, |t.pids|), sent := t.sent + [j])
  }

  /** One round of the event loop: a listener event that finds no live child ends the round. */
  function AfterBatch(t: Table, fds: seq<int>, batch: seq<Ready>): (r: Table)
    requires |fds| == |t.pids| && t.counter < |t.pids|
    ensures |r.pids| == |t.pids| && r.counter < |r.pids|
    decreases |batch|
  {
    if batch == [] then t
    else
      match batch[0]
      case Listening =>
        if AllDead(t.pids) then t.(stop := true) else AfterBatch(Announced(t), fds, batch[1..])
      case Readable(bytes) =>
        AfterBatch(AfterSignals(t, fds, bytes), fds, batch[1..])
  }

  // ---------------------------------------------------------------------------------------------------------
  // What holds at every head of the event loop.

  /** `_stop` is exact. */
  predicate StopExact(t: Table) {
    t.stop <==> AllDead(t.pids)
  }

  /** The pipe end of entry k has been closed once if the entry is dead, and not at all if it is alive. */
  predicate ClosedOnce(t: Table, fds: seq<int>)
    requires |fds| == |t.pids|
  {
    forall k :: 0 <= k < |fds| ==> Times(t.closed, fds[k]) == if t.pids[k] == DEAD then 1 else 0
  }

  lemma {:induction false} ClosedForOnce(pids: seq<int>, fds: seq<int>, pid: int, n: nat, k: nat)
    requires n <= |pids| == |fds| && k < |fds| && Distinct(fds)
    ensures Times(ClosedFor(pids, fds, pid, n), fds[k]) == if k < n && pids[k] == pid then 1 else 0
  {
    if n > 0 {
      ClosedForOnce(pids, fds, pid, n - 1, k);
      TimesOne(ClosedFor(pids, fds, pid, n - 1), fds[n - 1], fds[k]);
      assert ClosedFor(pids, fds, pid, n - 1) + [] == ClosedFor(pids, fds, pid, n - 1);
      assert fds[k] == fds[n - 1] <==> k == n - 1;
    }
  }

  lemma BuriedClosesOnce(t: Table, fds: seq<int>, pid: int)
    requires |fds| == |t.pids| && Distinct(fds) && ClosedOnce(t, fds) && pid != DEAD
    ensures ClosedOnce(Buried(t, fds, pid), fds)
  {
    forall k | 0 <= k < |fds|
      ensures Times(Buried(t, fds, pid).closed, fds[k]) == if Buried(t, fds, pid).pids[k] == DEAD then 1 else 0
    {
      ClosedForOnce(t.pids, fds, pid, |fds|, k);
      TimesAppend(t.closed, ClosedFor(t.pids, fds, pid, |fds|), fds[k]);
    }
  }

  /** Order and repetition of the reaped pids do not matter: an entry is dead iff it was or its pid was reaped. */
  lemma {:induction false} BuriedAllIs(t: Table, fds: seq<int>, reaped: seq<int>)
    requires |fds| == |t.pids| && Distinct(fds) && ClosedOnce(t, fds) && DEAD !in reaped
    ensures ClosedOnce(BuriedAll(t, fds, reaped), fds)
    ensures forall k :: 0 <= k < |fds| ==>
              BuriedAll(t, fds, reaped).pids[k] == if t.pids[k] in reaped then DEAD else t.pids[k]
    decreases |reaped|
  {
    if reaped != [] {
      assert reaped == [reaped[0]] + reaped[1..];
      BuriedClosesOnce(t, fds, reaped[0]);
      BuriedAllIs(Buried(t, fds, reaped[0]), fds, reaped[1..]);
    }
  }

  /** waitpid returns positive pids. */
  predicate RealPids(bytes: seq<SigByte>) {
    forall i :: 0 <= i < |bytes| ==> DEAD !in bytes[i].reaped
  }

  predicate RealBatch(batch: seq<Ready>) {
    forall i :: 0 <= i < |batch| && batch[i].Readable? ==> RealPids(batch[i].signals)
  }

  /** Dead entries stay dead. */
  predicate StillDead(t: Table, u: Table) {
    |t.pids| == |u.pids| && forall k :: 0 <= k < |t.pids| && t.pids[k] == DEAD ==> u.pids[k] == DEAD
  }

  lemma {:induction false} SignalsKeepTable(t: Table, fds: seq<int>, bytes: seq<SigByte>)
    requires |fds| == |t.pids| && Distinct(fds) && ClosedOnce(t, fds) && StopExact(t) && RealPids(bytes)
    ensures var u := AfterSignals(t, fds, bytes);
            ClosedOnce(u, fds) && StopExact(u) && StillDead(t, u) && u.sent == t.sent
    decreases |bytes|
  {
    if bytes != [] {
      if bytes[0].sig == SigChld {
        BuriedAllIs(t, fds, bytes[0].reaped);
        BuriedAllSent(t, fds, bytes[0].reaped);
      }
      SignalsKeepTable(AfterSignal(t, fds, bytes[0]), fds, bytes[1..]);
    }
  }

  lemma {:induction false} BuriedAllSent(t: Table, fds: seq<int>, reaped: seq<int>)
    requires |fds| == |t.pids|
    ensures BuriedAll(t, fds, reaped).sent == t.sent
    decreases |reaped|
  {
    if reaped != [] {
      BuriedAllSent(Buried(t, fds, reaped[0]), fds, reaped[1..]);
    }
  }

  function Counts(sent: seq<nat>, n: nat): seq<nat> {
    seq(n, k requires 0 <= k => Times(sent, k))
  }

  /** Any two children that are still alive have been announced to equally often, or once more below the counter. */
  ghost predicate Balanced(t: Table)
  {
    exists r: nat :: InRound(t.pids, t.counter, Counts(t.sent, |t.pids|), r)
  }

  lemma AnnouncedKeepsBalance(t: Table)
    requires t.counter < |t.pids| && !AllDead(t.pids) && Balanced(t)
    ensures Balanced(Announced(t))
  {
    var n := |t.pids|;
    var r :| InRound(t.pids, t.counter, Counts(t.sent, n), r);
    PickKeepsBalance(t.pids, t.counter, Counts(t.sent, n), r);
    var u := Announced(t);
    var j := Pick(t.pids, t.counter);
    assert u.sent[..|t.sent|] == t.sent;
    assert Counts(u.sent, n) == Counts(t.sent, n)[j := Counts(t.sent, n)[j] + 1];
  }

  /** Right after a pick of a, every live child up to a has as many picks as a, and every one above a has one less. */
  lemma AfterPick(t: Table, b: nat)
    requires t.counter < |t.pids| && Balanced(t) && b < |t.pids| && t.pids[b] != DEAD
    ensures var a := Pick(t.pids, t.counter);
            var u := Announced(t);
            Times(u.sent, b) == Times(u.sent, a) - (if b > a then 1 else 0)
  {
    AnnouncedKeepsBalance(t);
    var u := Announced(t);
    var r: nat :| InRound(u.pids, u.counter, Counts(u.sent, |u.pids|), r);
    var a := Pick(t.pids, t.counter);
    assert Counts(u.sent, |u.pids|)[a] == Times(u.sent, a) && Counts(u.sent, |u.pids|)[b] == Times(u.sent, b);
  }

  /** Between two consecutive picks of the same child, every child alive at the second is picked exactly once. */
  lemma OncePerRound(t: Table, u: Table, b: nat)
    requires |t.pids| == |u.pids| && t.counter < |t.pids| && u.counter < |u.pids| && b < |u.pids|
    requires Balanced(t) && Balanced(u) && StillDead(t, u) && u.pids[b] != DEAD
    requires var a := Pick(t.pids, t.counter);
             a == Pick(u.pids, u.counter) && Times(u.sent, a) == Times(Announced(t).sent, a)
    ensures Times(Announced(u).sent, b) == Times(Announced(t).sent, b) + 1
  {
    AfterPick(t, b);
    AfterPick(u, b);
    var a := Pick(t.pids, t.counter);
    assert Announced(u).sent[..|u.sent|] == u.sent;
  }

  /**
   One round keeps everything: `_stop` exact, dead entries dead, each pipe end closed at most once, dispatch balanced,
   whichever children die, in whatever order and however their signals are merged.
   */
  lemma {:induction false} BatchKeepsTable(t: Table, fds: seq<int>, batch: seq<Ready>)
    requires |fds| == |t.pids| && t.counter < |t.pids| && Distinct(fds) && RealBatch(batch)
    requires ClosedOnce(t, fds) && StopExact(t) && Balanced(t)
    ensures var u := AfterBatch(t, fds, batch);
            ClosedOnce(u, fds) && StopExact(u) && Balanced(u) && StillDead(t, u)
    decreases |batch|
  {
    if batch != [] {
      match batch[0]
      case Listening =>
        if AllDead(t.pids) {
          var r: nat :| InRound(t.pids, t.counter, Counts(t.sent, |t.pids|), r);
          assert InRound(t.pids, t.counter, Counts(t.(stop := true).sent, |t.pids|), r);
        } else {
          AnnouncedKeepsBalance(t);
          BatchKeepsTable(Announced(t), fds, batch[1..]);
        }
      case Readable(bytes) =>
        var u := AfterSignals(t, fds, bytes);
        SignalsKeepTable(t, fds, bytes);
        var r: nat :| InRound(t.pids, t.counter, Counts(t.sent, |t.pids|), r);
        SignalsOnlyKill(t, fds, bytes);
        assert InRound(u.pids, u.counter, Counts(u.sent, |u.pids|), r);
        BatchKeepsTable(u, fds, batch[1..]);
    }
  }

  /** A live entry keeps its pid. */
  lemma {:induction false} SignalsOnlyKill(t: Table, fds: seq<int>, bytes: seq<SigByte>)
    requires |fds| == |t.pids|
    ensures var u := AfterSignals(t, fds, bytes);
            forall k :: 0 <= k < |t.pids| && u.pids[k] != DEAD ==> t.pids[k] == u.pids[k]
    decreases |bytes|
  {
    if bytes != [] {
      if bytes[0].sig == SigChld {
        BuryOnlyKills(t, fds, bytes[0].reaped);
      }
      SignalsOnlyKill(AfterSignal(t, fds, bytes[0]), fds, bytes[1..]);
    }
  }

  lemma {:induction false} BuryOnlyKills(t: Table, fds: seq<int>, reaped: seq<int>)
    requires |fds| == |t.pids|
    ensures var u := BuriedAll(t, fds, reaped);
            forall k :: 0 <= k < |t.pids| && u.pids[k] != DEAD ==> t.pids[k] == u.pids[k]
    decreases |reaped|
  {
    if reaped != [] {
      BuryOnlyKills(Buried(t, fds, reaped[0]), fds, reaped[1..]);
    }
  }

  // ---------------------------------------------------------------------------------------------------------
  // What a run of the loops amounts to, told from the table it starts with and the events it meets, without the loops.

  /** The pids that waitpid returns for the SIGCHLD bytes among these. */
  function ReapedBy(bytes: seq<SigByte>): set<int> {
    set i: nat, pid | i < |bytes| && bytes[i].sig == SigChld && pid in bytes[i].reaped :: pid
  }

  /** Byte i asks the parent to stop, and pid has not been reaped before it. */
  predicate AsksFor(bytes: seq<SigByte>, pid: int, i: nat)
    requires i < |bytes|
  {
    Termination(bytes[i].sig) && pid !in ReapedBy(bytes[..i])
  }

  function KillTimes(bytes: seq<SigByte>, pid: int): set<nat> {
    set i: nat | i < |bytes| && AsksFor(bytes, pid, i)
  }

  function KillsOf(bytes: seq<SigByte>, pid: int): nat {
    |KillTimes(bytes, pid)|
  }

  /** The signal bytes of these events. */
  function BytesOf(events: seq<Ready>): seq<SigByte> {
    if events == [] then []
    else
      var last := events[|events| - 1];
      BytesOf(events[..|events| - 1]) + (if last.Readable? then last.signals else [])
  }

  /** A table that was `pids` before the bytes has this pid after them. */
  function PidAfter(pid: int, bytes: seq<SigByte>): int {
    if pid in ReapedBy(bytes) then DEAD else pid
  }

  function PidsAfter(pids: seq<int>, bytes: seq<SigByte>): (r: seq<int>)
    ensures |r| == |pids|
  {
    seq(|pids|, k requires 0 <= k < |pids| => PidAfter(pids[k], bytes))
  }

  /** Event e is a waiting connection, and some child is alive when its turn comes. */
  predicate Answered(pids: seq<int>, events: seq<Ready>, e: nat)
    requires e < |events|
  {
    events[e].Listening? && !AllDead(PidsAfter(pids, BytesOf(events[..e])))
  }

  function AnsweredTimes(pids: seq<int>, events: seq<Ready>): set<nat> {
    set e: nat | e < |events| && Answered(pids, events, e)
  }

  function AnsweredCount(pids: seq<int>, events: seq<Ready>): nat {
    |AnsweredTimes(pids, events)|
  }

  /** Child j is the first live one in cyclic order from `start`. */
  predicate InTurn(pids: seq<int>, start: nat, j: nat) {
    j < |pids| && pids[j] != DEAD && DeadBetween(pids, start, j)
  }

  /** Where the search for announcement j starts: behind the child announced to before. */
  function TurnOf(counter: nat, sent: seq<nat>, j: nat, n: nat): nat
    requires j <= |sent|
  {
    if j == 0 then counter else if sent[j - 1] + 1 == n then 0 else sent[j - 1] + 1
  }

  /** Every connection that finds a live child is announced once, to the child whose turn it is. */
  predicate Announces(pids: seq<int>, counter: nat, events: seq<Ready>, sent: seq<nat>) {
    && |sent| == AnsweredCount(pids, events)
    && forall e: nat :: e < |events| && Answered(pids, events, e) ==>
         var j := AnsweredCount(pids, events[..e]);
         && j < |sent|
         && InTurn(PidsAfter(pids, BytesOf(events[..e])), TurnOf(counter, sent, j, |pids|), sent[j])
  }

  /** Each pid is sent one SIGTERM for each entry that names it and each byte that asks for it. */
  ghost predicate Kills(pids: seq<int>, bytes: seq<SigByte>, killed: seq<int>) {
    DEAD !in killed && forall pid :: pid != DEAD ==> Times(killed, pid) == Times(pids, pid) * KillsOf(bytes, pid)
  }

  lemma ReapedAppend(bs: seq<SigByte>, b: SigByte)
    ensures ReapedBy(bs + [b]) == ReapedBy(bs) + (if b.sig == SigChld then set pid | pid in b.reaped else {})
  {
    var all := bs + [b];
    forall pid | pid in ReapedBy(bs)
      ensures pid in ReapedBy(all)
    {
      var i: nat :| i < |bs| && bs[i].sig == SigChld && pid in bs[i].reaped;
      assert all[i] == bs[i];
    }
    forall pid | b.sig == SigChld && pid in b.reaped
      ensures pid in ReapedBy(all)
    {
      assert all[|bs|] == b;
    }
  }

  lemma KillsAppend(bs: seq<SigByte>, b: SigByte, pid: int)
    ensures KillsOf(bs + [b], pid) ==
            KillsOf(bs, pid) + (if Termination(b.sig) && pid !in ReapedBy(bs) then 1 else 0)
  {
    var all := bs + [b];
    forall i: nat | i <= |bs|
      ensures AsksFor(all, pid, i) <==>
              if i < |bs| then AsksFor(bs, pid, i) else Termination(b.sig) && pid !in ReapedBy(bs)
    {
      assert all[..i] == bs[..i];
    }
    hide AsksFor, ReapedBy;
    assert KillTimes(all, pid) == KillTimes(bs, pid) + (if AsksFor(all, pid, |bs|) then {|bs|} else {});
  }

  lemma AnsweredAppend(pids: seq<int>, es: seq<Ready>, ev: Ready)
    ensures AnsweredCount(pids, es + [ev]) ==
            AnsweredCount(pids, es) + (if ev.Listening? && !AllDead(PidsAfter(pids, BytesOf(es))) then 1 else 0)
    ensures forall e: nat :: e < |es| ==>
              (es + [ev])[..e] == es[..e] && (Answered(pids, es + [ev], e) <==> Answered(pids, es, e))
    ensures Answered(pids, es + [ev], |es|) <==> ev.Listening? && !AllDead(PidsAfter(pids, BytesOf(es)))
  {
    hide AllDead, PidsAfter, BytesOf;
    var all := es + [ev];
    AnsweredLast(pids, es, ev);
    forall e: nat | e < |es|
      ensures all[..e] == es[..e] && (Answered(pids, all, e) <==> Answered(pids, es, e))
    {
      AnsweredBefore(pids, es, ev, e);
    }
    hide Answered;
    assert AnsweredTimes(pids, all) == AnsweredTimes(pids, es) + (if Answered(pids, all, |es|) then {|es|} else {});
  }

  lemma AnsweredLast(pids: seq<int>, es: seq<Ready>, ev: Ready)
    ensures Answered(pids, es + [ev], |es|) <==> ev.Listening? && !AllDead(PidsAfter(pids, BytesOf(es)))
  {
    assert (es + [ev])[..|es|] == es;
  }

  lemma AnsweredBefore(pids: seq<int>, es: seq<Ready>, ev: Ready, e: nat)
    requires e < |es|
    ensures (es + [ev])[..e] == es[..e] && (Answered(pids, es + [ev], e) <==> Answered(pids, es, e))
  {
    assert (es + [ev])[..e] == es[..e];
  }

  // The loops do so.

  lemma {:induction false} BuriedAllPids(t: Table, fds: seq<int>, reaped: seq<int>)
    requires |fds| == |t.pids| && DEAD !in reaped
    ensures var u := BuriedAll(t, fds, reaped);
            u.pids == seq(|t.pids|, k requires 0 <= k < |t.pids| => if t.pids[k] in reaped then DEAD else t.pids[k])
            && u.killed == t.killed && u.sent == t.sent
    decreases |reaped|
  {
    if reaped != [] {
      assert reaped == [reaped[0]] + reaped[1..];
      BuriedAllPids(Buried(t, fds, reaped[0]), fds, reaped[1..]);
    }
  }

  lemma {:induction false} LivePidsCount(pids: seq<int>, k: nat, pid: int)
    requires k <= |pids|
    ensures Times(LivePids(pids, k), pid) == if pid == DEAD then 0 else Times(pids[..k], pid)
  {
    if k > 0 {
      hide Times;
      LivePidsCount(pids, k - 1, pid);
      var rest, last := LivePids(pids, k - 1), pids[k - 1];
      assert pids[..k] == pids[..k - 1] + [last];
      TimesOne(pids[..k - 1], last, pid);
      TimesOne(rest, last, pid);
      assert LivePids(pids, k) == if last != DEAD then rest + [last] else rest;
    }
  }

  lemma {:induction false} PidsAfterCount(pids: seq<int>, bytes: seq<SigByte>, pid: int)
    requires pid != DEAD
    ensures Times(PidsAfter(pids, bytes), pid) == if pid in ReapedBy(bytes) then 0 else Times(pids, pid)
  {
    hide ReapedBy;
    if pids != [] {
      var last := |pids| - 1;
      PidsAfterCount(pids[..last], bytes, pid);
      assert pids == pids[..last] + [pids[last]];
      assert PidsAfter(pids, bytes) == PidsAfter(pids[..last], bytes) + [PidAfter(pids[last], bytes)];
    }
  }

  /** The parent's table after signal bytes. */
  ghost predicate TookSignals(t: Table, bytes: seq<SigByte>, u: Table) {
    && u.pids == PidsAfter(t.pids, bytes) && u.counter == t.counter && u.sent == t.sent
    && t.killed <= u.killed && Kills(t.pids, bytes, u.killed[|t.killed|..])
  }

  /** One more SIGTERM for each live entry. */
  lemma MoreKills(pids: seq<int>, bs: seq<SigByte>, b: SigByte, killed: seq<int>)
    requires Kills(pids, bs, killed) && Termination(b.sig)
    ensures var now := PidsAfter(pids, bs); Kills(pids, bs + [b], killed + LivePids(now, |now|))
  {
    hide ReapedBy, KillsOf, PidsAfter, LivePids;
    var now := PidsAfter(pids, bs);
    var more := LivePids(now, |now|);
    assert now[..|now|] == now;
    LivePidsCount(now, |now|, DEAD);
    if DEAD in more {
      TimesSome(more, DEAD);
    }
    forall pid | pid != DEAD
      ensures Times(killed + more, pid) == Times(pids, pid) * KillsOf(bs + [b], pid)
    {
      KillsAppend(bs, b, pid);
      LivePidsCount(now, |now|, pid);
      PidsAfterCount(pids, bs, pid);
      TimesAppend(killed, more, pid);
      OneTimeMore(Times(pids, pid), KillsOf(bs, pid));
    }
  }

  lemma OneTimeMore(m: nat, n: nat)
    ensures m * (n + 1) == m * n + m
  {
  }

  /** A byte that sends nothing, because it does not ask for it or because nobody is left. */
  lemma NoMoreKills(pids: seq<int>, bs: seq<SigByte>, b: SigByte, killed: seq<int>)
    requires Kills(pids, bs, killed) && (!Termination(b.sig) || AllDead(PidsAfter(pids, bs)))
    ensures Kills(pids, bs + [b], killed)
  {
    forall pid | pid != DEAD
      ensures Times(killed, pid) == Times(pids, pid) * KillsOf(bs + [b], pid)
    {
      KillsAppend(bs, b, pid);
      if KillsOf(bs + [b], pid) != KillsOf(bs, pid) {
        forall k | 0 <= k < |pids|
          ensures pids[k] != pid
        {
          assert PidsAfter(pids, bs)[k] == DEAD;
        }
        TimesNone(pids, pid);
      }
    }
  }

  lemma SignalStep(t: Table, bs: seq<SigByte>, u: Table, fds: seq<int>, b: SigByte)
    requires |fds| == |t.pids| && TookSignals(t, bs, u) && DEAD !in b.reaped
    ensures TookSignals(t, bs + [b], AfterSignal(u, fds, b))
  {
    hide ReapedBy, Kills;
    var v := AfterSignal(u, fds, b);
    ReapedAppend(bs, b);
    if Termination(b.sig) {
      MoreKills(t.pids, bs, b, u.killed[|t.killed|..]);
      assert v.killed[|t.killed|..] == u.killed[|t.killed|..] + LivePids(u.pids, |u.pids|);
      assert PidsAfter(t.pids, bs + [b]) == PidsAfter(t.pids, bs);
    } else {
      NoMoreKills(t.pids, bs, b, u.killed[|t.killed|..]);
      BuriedAllPids(u, fds, b.reaped);
      assert v.pids == PidsAfter(t.pids, bs + [b]);
    }
  }

  lemma {:induction false} SignalsDo(t: Table, bs: seq<SigByte>, u: Table, fds: seq<int>, bytes: seq<SigByte>)
    requires |fds| == |t.pids| && TookSignals(t, bs, u) && RealPids(bytes)
    ensures TookSignals(t, bs + bytes, AfterSignals(u, fds, bytes))
    decreases |bytes|
  {
    hide TookSignals;
    if bytes == [] {
      assert bs + bytes == bs;
    } else {
      SameSize(t, bs, u);
      SignalStep(t, bs, u, fds, bytes[0]);
      SignalsDo(t, bs + [bytes[0]], AfterSignal(u, fds, bytes[0]), fds, bytes[1..]);
      assert bs + bytes == bs + [bytes[0]] + bytes[1..];
    }
  }

  lemma {:induction false} StopAfter(t: Table, fds: seq<int>, bytes: seq<SigByte>)
    requires |fds| == |t.pids| && RealPids(bytes)
    ensures var u := AfterSignals(t, fds, bytes);
            u.stop == if exists i :: 0 <= i < |bytes| && bytes[i].sig == SigChld then AllDead(u.pids) else t.stop
    decreases |bytes|
  {
    if bytes != [] {
      var rest, t1 := bytes[1..], AfterSignal(t, fds, bytes[0]);
      StopAfter(t1, fds, rest);
      if exists i :: 0 <= i < |rest| && rest[i].sig == SigChld {
        var i :| 0 <= i < |rest| && rest[i].sig == SigChld;
        assert bytes[i + 1].sig == SigChld;
      } else {
        assert forall i :: 0 < i < |bytes| ==> bytes[i] == rest[i - 1];
        PidsStay(t1, fds, rest);
      }
    }
  }

  /** Without a SIGCHLD byte no entry changes. */
  lemma {:induction false} PidsStay(t: Table, fds: seq<int>, bytes: seq<SigByte>)
    requires |fds| == |t.pids| && forall i :: 0 <= i < |bytes| ==> bytes[i].sig != SigChld
    ensures AfterSignals(t, fds, bytes).pids == t.pids
    decreases |bytes|
  {
    if bytes != [] {
      PidsStay(AfterSignal(t, fds, bytes[0]), fds, bytes[1..]);
    }
  }

  lemma SignalsDid(t: Table, fds: seq<int>, bytes: seq<SigByte>)
    requires |fds| == |t.pids| && RealPids(bytes)
    ensures var u := AfterSignals(t, fds, bytes);
            && (forall k :: 0 <= k < |t.pids| ==> u.pids[k] == if t.pids[k] in ReapedBy(bytes) then DEAD else t.pids[k])
            && t.killed <= u.killed && Kills(t.pids, bytes, u.killed[|t.killed|..])
            && u.sent == t.sent && u.counter == t.counter
            && u.stop == if exists i :: 0 <= i < |bytes| && bytes[i].sig == SigChld then AllDead(u.pids) else t.stop
  {
    hide ReapedBy, Kills, AllDead, AfterSignals;
    var u := AfterSignals(t, fds, bytes);
    NoSignals(t);
    SignalsDo(t, [], t, fds, bytes);
    assert [] + bytes == bytes;
    StopAfter(t, fds, bytes);
    forall k | 0 <= k < |t.pids|
      ensures u.pids[k] == PidAfter(t.pids[k], bytes)
    {
    }
  }

  lemma SameSize(t: Table, bs: seq<SigByte>, u: Table)
    requires TookSignals(t, bs, u)
    ensures |u.pids| == |t.pids|
  {
  }

  lemma NoSignals(t: Table)
    ensures TookSignals(t, [], t)
  {
    assert ReapedBy([]) == {};
    assert PidsAfter(t.pids, []) == t.pids;
    assert t.killed[|t.killed|..] == [];
    forall pid
      ensures KillsOf([], pid) == 0
    {
      assert KillTimes([], pid) == {};
    }
  }

  /** Bytes that are not even looked at: when all entries are dead they would change nothing. */
  lemma {:induction false} DeadSignals(t: Table, bs: seq<SigByte>, u: Table, bytes: seq<SigByte>)
    requires TookSignals(t, bs, u) && AllDead(u.pids) && RealPids(bytes)
    ensures TookSignals(t, bs + bytes, u)
    decreases |bytes|
  {
    if bytes == [] {
      assert bs + bytes == bs;
    } else {
      hide ReapedBy, Kills;
      ReapedAppend(bs, bytes[0]);
      NoMoreKills(t.pids, bs, bytes[0], u.killed[|t.killed|..]);
      forall k | 0 <= k < |t.pids|
        ensures PidsAfter(t.pids, bs + [bytes[0]])[k] == PidsAfter(t.pids, bs)[k]
      {
        assert u.pids[k] == DEAD;
      }
      assert PidsAfter(t.pids, bs + [bytes[0]]) == PidsAfter(t.pids, bs);
      DeadSignals(t, bs + [bytes[0]], u, bytes[1..]);
      assert bs + bytes == bs + [bytes[0]] + bytes[1..];
    }
  }

  /** The parent's table after events: marked, killed and announced as the events demand. */
  ghost predicate Did(t: Table, events: seq<Ready>, u: Table) {
    var bytes := BytesOf(events);
    && u.pids == PidsAfter(t.pids, bytes)
    && t.killed <= u.killed && Kills(t.pids, bytes, u.killed[|t.killed|..])
    && t.sent <= u.sent
    && var sent := u.sent[|t.sent|..];
       Announces(t.pids, t.counter, events, sent) && u.counter == TurnOf(t.counter, sent, |sent|, |t.pids|)
  }

  lemma DidSignals(t: Table, es: seq<Ready>, u: Table, v: Table, bytes: seq<SigByte>)
    requires Did(t, es, u) && v.counter == u.counter && v.sent == u.sent
    requires TookSignals(t.(counter := u.counter, sent := u.sent), BytesOf(es) + bytes, v)
    ensures Did(t, es + [Readable(bytes)], v)
  {
    hide PidsAfter, Kills, InTurn, TurnOf;
    var all := es + [Readable(bytes)];
    assert all[..|es|] == es && all[|es|] == Readable(bytes);
    assert BytesOf(all) == BytesOf(es) + bytes;
    AnsweredAppend(t.pids, es, Readable(bytes));
    hide Answered, AnsweredCount, BytesOf;
    assert Announces(t.pids, t.counter, all, v.sent[|t.sent|..]);
  }

  lemma DidReadable(t: Table, es: seq<Ready>, u: Table, fds: seq<int>, bytes: seq<SigByte>)
    requires |fds| == |t.pids| && Did(t, es, u) && RealPids(bytes)
    ensures Did(t, es + [Readable(bytes)], AfterSignals(u, fds, bytes))
    ensures AllDead(u.pids) ==> Did(t, es + [Readable(bytes)], u)
  {
    var t' := t.(counter := u.counter, sent := u.sent);
    var v := AfterSignals(u, fds, bytes);
    assert TookSignals(t', BytesOf(es), u);
    hide Did, Announces, Kills;
    SignalsDo(t', BytesOf(es), u, fds, bytes);
    DidSignals(t, es, u, v, bytes);
    if AllDead(u.pids) {
      DeadSignals(t', BytesOf(es), u, bytes);
      DidSignals(t, es, u, u, bytes);
    }
  }

  /** A connection that finds a live child: one more announcement. */
  lemma OneMoreAnnounced(t: Table, es: seq<Ready>, sent: seq<nat>, j: nat)
    requires Announces(t.pids, t.counter, es, sent)
    requires var now := PidsAfter(t.pids, BytesOf(es));
             !AllDead(now) && InTurn(now, TurnOf(t.counter, sent, |sent|, |t.pids|), j)
    ensures Announces(t.pids, t.counter, es + [Listening], sent + [j])
  {
    hide PidsAfter, InTurn, AllDead, BytesOf;
    var all, after := es + [Listening], sent + [j];
    assert all[..|es|] == es && all[|es|] == Listening;
    AnsweredAppend(t.pids, es, Listening);
    hide Answered, AnsweredCount;
    forall i: nat | i <= |sent|
      ensures TurnOf(t.counter, after, i, |t.pids|) == TurnOf(t.counter, sent, i, |t.pids|)
    {
    }
    hide TurnOf;
    assert after[|sent|] == j;
  }

  /** A connection that finds nobody alive. */
  lemma NoneAnnounced(t: Table, es: seq<Ready>, sent: seq<nat>)
    requires Announces(t.pids, t.counter, es, sent) && AllDead(PidsAfter(t.pids, BytesOf(es)))
    ensures Announces(t.pids, t.counter, es + [Listening], sent)
  {
    hide PidsAfter, InTurn, AllDead, TurnOf, BytesOf;
    var all := es + [Listening];
    assert all[..|es|] == es && all[|es|] == Listening;
    AnsweredAppend(t.pids, es, Listening);
    hide Answered, AnsweredCount;
  }

  lemma DidListening(t: Table, es: seq<Ready>, u: Table, v: Table)
    requires Did(t, es, u) && u.counter < |u.pids|
    requires if AllDead(u.pids) then v == u.(stop := v.stop) else v == Announced(u)
    ensures Did(t, es + [Listening], v)
  {
    hide PidsAfter, Kills, InTurn, Pick, AllDead, Announces;
    var all := es + [Listening];
    assert all[..|es|] == es && all[|es|] == Listening;
    assert BytesOf(all) == BytesOf(es) + [] == BytesOf(es);
    var before := u.sent[|t.sent|..];
    if AllDead(u.pids) {
      NoneAnnounced(t, es, before);
    } else {
      var j := Pick(u.pids, u.counter);
      PickInTurn(u.pids, u.counter);
      OneMoreAnnounced(t, es, before, j);
      assert v.sent[|t.sent|..] == before + [j];
    }
  }

  lemma PickInTurn(pids: seq<int>, start: nat)
    requires start < |pids| && !AllDead(pids)
    ensures InTurn(pids, start, Pick(pids, start))
  {
  }

  lemma NothingDone(t: Table)
    ensures Did(t, [], t)
  {
    NoSignals(t);
    assert AnsweredTimes(t.pids, []) == {};
  }

  /** A round that was broken off because nobody is alive: the events it did not look at would have changed nothing. */
  lemma {:induction false} DidDead(t: Table, es: seq<Ready>, u: Table, fds: seq<int>, batch: seq<Ready>)
    requires |fds| == |t.pids| && Did(t, es, u) && u.counter < |u.pids| && AllDead(u.pids) && RealBatch(batch)
    ensures Did(t, es + batch, u)
    decreases |batch|
  {
    hide Did;
    if batch == [] {
      assert es + batch == es;
    } else {
      match batch[0] {
        case Listening => DidListening(t, es, u, u);
        case Readable(bytes) => DidReadable(t, es, u, fds, bytes);
      }
      DidDead(t, es + [batch[0]], u, fds, batch[1..]);
      assert es + batch == es + [batch[0]] + batch[1..];
    }
  }

  lemma {:induction false} BatchDoes(t: Table, es: seq<Ready>, u: Table, fds: seq<int>, batch: seq<Ready>)
    requires |fds| == |t.pids| == |u.pids| && Did(t, es, u) && u.counter < |u.pids| && RealBatch(batch)
    ensures Did(t, es + batch, AfterBatch(u, fds, batch))
    decreases |batch|
  {
    hide Did;
    if batch == [] {
      assert es + batch == es;
    } else {
      assert es + batch == es + [batch[0]] + batch[1..];
      match batch[0]
      case Listening =>
        if AllDead(u.pids) {
          var v := u.(stop := true);
          DidListening(t, es, u, v);
          DidDead(t, es + [Listening], v, fds, batch[1..]);
        } else {
          DidListening(t, es, u, Announced(u));
          BatchDoes(t, es + [Listening], Announced(u), fds, batch[1..]);
        }
      case Readable(bytes) =>
        DidReadable(t, es, u, fds, bytes);
        BatchDoes(t, es + [Readable(bytes)], AfterSignals(u, fds, bytes), fds, batch[1..]);
    }
  }

  lemma BatchDid(t: Table, fds: seq<int>, batch: seq<Ready>)
    requires |fds| == |t.pids| && t.counter < |t.pids| && RealBatch(batch)
    ensures Did(t, batch, AfterBatch(t, fds, batch))
  {
    NothingDone(t);
    BatchDoes(t, [], t, fds, batch);
    assert [] + batch == batch;
  }

  /** The events of several rounds. */
  function Flat(batches: seq<seq<Ready>>): seq<Ready> {
    if batches == [] then [] else Flat(batches[..|batches| - 1]) + batches[|batches| - 1]
  }

  lemma FlatStep(batches: seq<seq<Ready>>, r: nat)
    requires r < |batches|
    ensures Flat(batches[..r + 1]) == Flat(batches[..r]) + batches[r]
  {
    assert batches[..r + 1][..r] == batches[..r];
  }

  /** Some child of this table is alive after the first r rounds. */
  predicate AliveAfter(pids: seq<int>, batches: seq<seq<Ready>>, r: nat)
    requires r <= |batches|
  {
    !AllDead(PidsAfter(pids, BytesOf(Flat(batches[..r]))))
  }

  // ---------------------------------------------------------------------------------------------------------
  // The loops, on the table the parent updates in place.

  class Pool {
    const pids: array<int>
    const fds: array<int>
    var counter: nat
    var stop: bool
    var sent: seq<nat>
    var closed: seq<int>
    var killed: seq<int>

    ghost predicate Valid()
      reads this
    {
      pids != fds && pids.Length == fds.Length && 0 < pids.Length <= MAX_PROCESS_NUMBER && counter < pids.Length
    }

    ghost function View(): Table
      reads this, pids
    {
      Table(pids[..], counter, stop, sent, closed, killed)
    }

    constructor (pids: array<int>, fds: array<int>)
      requires pids != fds && pids.Length == fds.Length && 0 < pids.Length <= MAX_PROCESS_NUMBER
      ensures Valid() && this.pids == pids && this.fds == fds
      ensures View() == Table(pids[..], 0, false, [], [], [])
    {
      this.pids, this.fds := pids, fds;
      counter, stop, sent, closed, killed := 0, false, [], [], [];
    }

    /** The do-while search; it looks at each entry at most once. */
    method Search() returns (j: nat)
      requires Valid()
      ensures j == Pick(pids[..], counter)
    {
      j := counter;
      ghost var looked := 0;
      while true
        invariant j < pids.Length && looked < pids.Length
        invariant j == if counter + looked < pids.Length then counter + looked else counter + looked - pids.Length
        invariant DeadBetween(pids[..], counter, j)
        decreases pids.Length - looked
      {
        if pids[j] != DEAD {
          PickIsUnique(pids[..], counter, j);
          break;
        }
        looked := looked + 1;
        j := NextCounter(j, pids.Length);
        if j == counter {
          assert AllDead(pids[..]);
          break;
        }
      }
    }

    /** A connection is waiting: announce it to the next child, or stop when there is none. */
    method Dispatch() returns (broke: bool)
      requires Valid()
      modifies this`counter, this`stop, this`sent
      ensures Valid() && (broke <==> AllDead(pids[..]))
      ensures View() == if broke then old(View()).(stop := true) else Announced(old(View()))
      ensures if broke then stop && sent == old(sent) && counter == old(counter)
              else
                && stop == old(stop)
                && |sent| == |old(sent)| + 1 && old(sent) <= sent && InTurn(pids[..], old(counter), sent[|old(sent)|])
                && counter == TurnOf(old(counter), sent, |sent|, pids.Length)
    {
      var j := Search();
      if pids[j] == DEAD {
        stop := true;
        return true;
      }
      counter := NextCounter(j, pids.Length);
      sent := sent + [j];
      broke := false;
    }

    /** waitpid returned `pid`: close its pipe and mark its entry. */
    method Bury(pid: int)
      requires Valid() && pid != DEAD
      modifies pids, this`closed
      ensures View() == Buried(old(View()), fds[..], pid)
    {
      var k := 0;
      while k < pids.Length
        invariant 0 <= k <= pids.Length
        invariant forall i :: 0 <= i < k ==> pids[i] == MarkDead(old(pids[..]), pid)[i]
        invariant forall i :: k <= i < pids.Length ==> pids[i] == old(pids[i])
        invariant closed == old(closed) + ClosedFor(old(pids[..]), fds[..], pid, k)
      {
        if pids[k] == pid {
          closed := closed + [fds[k]];
          pids[k] := DEAD;
        }
        k := k + 1;
      }
      assert pids[..] == MarkDead(old(pids[..]), pid);
    }

    /** The scan that sets `_stop` and takes it back as soon as a live child is found. */
    method ScanStop()
      requires Valid()
      modifies this`stop
      ensures View() == old(View()).(stop := AllDead(pids[..]))
    {
      stop := true;
      var k := 0;
      while k < pids.Length
        invariant 0 <= k <= pids.Length
        invariant stop <==> forall i :: 0 <= i < k ==> pids[i] == DEAD
      {
        if pids[k] != DEAD {
          stop := false;
        }
        k := k + 1;
      }
    }

    /** One SIGCHLD byte: waitpid returns the pids `reaped` one after the other, then reports no further zombie. */
    method HandleSigchld(reaped: seq<int>)
      requires Valid() && DEAD !in reaped
      modifies pids, this`closed, this`stop
      ensures View() == AfterSignal(old(View()), fds[..], SigByte(SigChld, reaped))
      ensures forall k :: 0 <= k < pids.Length ==> pids[k] == if old(pids[k]) in reaped then DEAD else old(pids[k])
      ensures stop <==> forall k :: 0 <= k < pids.Length ==> pids[k] == DEAD
    {
      BuriedAllPids(View(), fds[..], reaped);
      var i := 0;
      while i < |reaped|
        invariant 0 <= i <= |reaped|
        invariant BuriedAll(View(), fds[..], reaped[i..]) == BuriedAll(old(View()), fds[..], reaped)
      {
        assert reaped[i..][1..] == reaped[i + 1..];
        Bury(reaped[i]);
        i := i + 1;
      }
      ScanStop();
    }

    /** One SIGTERM or SIGINT byte: every live child gets a SIGTERM. */
    method HandleTerm()
      requires Valid()
      modifies this`killed
      ensures View() == AfterSignal(old(View()), fds[..], SigByte(SigTerm, []))
      ensures old(killed) <= killed && DEAD !in killed[|old(killed)|..]
      ensures forall pid :: pid != DEAD ==> Times(killed[|old(killed)|..], pid) == Times(pids[..], pid)
    {
      var k := 0;
      while k < pids.Length
        invariant 0 <= k <= pids.Length
        invariant killed == old(killed) + LivePids(pids[..], k)
      {
        var pid := pids[k];
        if pid != DEAD {
          killed := killed + [pid];
        }
        k := k + 1;
      }
      assert killed[|old(killed)|..] == LivePids(pids[..], pids.Length) && pids[..][..pids.Length] == pids[..];
      LivePidsCount(pids[..], pids.Length, DEAD);
      if DEAD in killed[|old(killed)|..] {
        TimesSome(killed[|old(killed)|..], DEAD);
      }
      forall pid | pid != DEAD
        ensures Times(killed[|old(killed)|..], pid) == Times(pids[..], pid)
      {
        LivePidsCount(pids[..], pids.Length, pid);
      }
    }

    /** The bytes of one recv on the signal pipe. */
    method HandleSignals(bytes: seq<SigByte>)
      requires Valid() && RealPids(bytes)
      modifies pids, this`closed, this`stop, this`killed
      ensures View() == AfterSignals(old(View()), fds[..], bytes)
      ensures forall k :: 0 <= k < pids.Length ==>
                pids[k] == if old(pids[k]) in ReapedBy(bytes) then DEAD else old(pids[k])
      ensures stop == if exists i :: 0 <= i < |bytes| && bytes[i].sig == SigChld then AllDead(pids[..]) else old(stop)
      ensures old(killed) <= killed && Kills(old(pids[..]), bytes, killed[|old(killed)|..])
      ensures sent == old(sent) && counter == old(counter)
    {
      SignalsDid(View(), fds[..], bytes);
      hide ReapedBy, Kills, AfterSignal, AllDead;
      var i := 0;
      while i < |bytes|
        invariant 0 <= i <= |bytes|
        invariant AfterSignals(View(), fds[..], bytes[i..]) == AfterSignals(old(View()), fds[..], bytes)
      {
        assert bytes[i..][1..] == bytes[i + 1..];
        match bytes[i].sig {
          case SigChld => HandleSigchld(bytes[i].reaped);
          case SigTerm => HandleTerm();
          case SigInt => HandleTerm();
          case SigOther =>
        }
        i := i + 1;
      }
    }

    /** One round of the event loop; a listener event that finds no live child ends it early. */
    method RunBatch(batch: seq<Ready>)
      requires Valid() && RealBatch(batch)
      modifies this`counter, this`stop, this`sent, this`closed, this`killed, pids
      ensures Valid() && View() == AfterBatch(old(View()), fds[..], batch)
      ensures Did(old(View()), batch, View())
    {
      BatchDid(View(), fds[..], batch);
      hide Did, AfterSignals, ReapedBy, InTurn, TurnOf, Kills, Announced;
      var i := 0;
      while i < |batch|
        invariant 0 <= i <= |batch| && Valid()
        invariant AfterBatch(View(), fds[..], batch[i..]) == AfterBatch(old(View()), fds[..], batch)
      {
        assert batch[i..][1..] == batch[i + 1..];
        match batch[i] {
          case Listening =>
            var broke := Dispatch();
            if broke {
              return;
            }
          case Readable(bytes) =>
            HandleSignals(bytes);
        }
        i := i + 1;
      }
    }

    /**
     `while (!_stop)`, for any finite supply of rounds.  At every loop head: the entries of exactly the reaped pids are
     marked and their pipe ends closed once, every connection that found a live child was announced once to the child
     whose turn it was, every pid was sent a SIGTERM for each byte that asked for it, and the loop goes on until nobody
     is alive.
     */
    method RunParent(batches: seq<seq<Ready>>) returns (rounds: nat)
      requires Valid() && !stop && sent == [] && closed == []
      requires Distinct(fds[..]) && DEAD !in pids[..] && forall b :: b in batches ==> RealBatch(b)
      modifies this`counter, this`stop, this`sent, this`closed, this`killed, pids
      ensures Valid() && rounds <= |batches|
      ensures StopExact(View()) && Balanced(View()) && ClosedOnce(View(), fds[..])
      ensures forall k :: 0 <= k < pids.Length ==>
                pids[k] == if old(pids[k]) in ReapedBy(BytesOf(Flat(batches[..rounds]))) then DEAD else old(pids[k])
      ensures Announces(old(pids[..]), 0, Flat(batches[..rounds]), sent)
      ensures old(killed) <= killed
      ensures Kills(old(pids[..]), BytesOf(Flat(batches[..rounds])), killed[|old(killed)|..])
      ensures rounds < |batches| ==> AllDead(pids[..])
      ensures forall r :: 0 <= r < rounds ==> AliveAfter(old(pids[..]), batches, r)
    {
      rounds, counter := 0, 0;
      ghost var t := View();
      KeepsAtFirst(t, fds[..], batches);
      hide Keeps, AfterBatch, Kills, Announces, ReapedBy, ClosedOnce, Balanced, AliveAfter;
      while !stop && rounds < |batches|
        invariant Valid() && rounds <= |batches| && Keeps(t, fds[..], batches, rounds, View())
      {
        assert batches[rounds] in batches;
        KeepsOn(t, fds[..], batches, rounds, View());
        RunBatch(batches[rounds]);
        rounds := rounds + 1;
      }
      WhatIsKept(t, fds[..], batches, rounds, View());
    }
  }

  /** What holds at a loop head after r rounds that began with table t. */
  ghost predicate Keeps(t: Table, fds: seq<int>, batches: seq<seq<Ready>>, r: nat, u: Table) {
    && r <= |batches| && |fds| == |u.pids| == |t.pids|
    && StopExact(u) && Balanced(u) && ClosedOnce(u, fds) && Did(t, Flat(batches[..r]), u)
    && forall i :: 0 <= i < r ==> AliveAfter(t.pids, batches, i)
  }

  lemma KeepsAtFirst(t: Table, fds: seq<int>, batches: seq<seq<Ready>>)
    requires t.counter == 0 && !t.stop && t.sent == [] && t.closed == [] && 0 < |t.pids| == |fds| && DEAD !in t.pids
    ensures Keeps(t, fds, batches, 0, t)
  {
    assert t.pids[0] in t.pids;
    assert InRound(t.pids, t.counter, Counts(t.sent, |t.pids|), 0);
    NothingDone(t);
    assert Flat(batches[..0]) == [];
  }

  lemma KeepsOn(t: Table, fds: seq<int>, batches: seq<seq<Ready>>, r: nat, u: Table)
    requires Keeps(t, fds, batches, r, u) && r < |batches| && !u.stop && u.counter < |u.pids|
    requires Distinct(fds) && RealBatch(batches[r])
    ensures Keeps(t, fds, batches, r + 1, AfterBatch(u, fds, batches[r]))
  {
    assert AliveAfter(t.pids, batches, r) by {
      assert u.pids == PidsAfter(t.pids, BytesOf(Flat(batches[..r])));
    }
    hide Did, AfterBatch, ClosedOnce, Balanced, StopExact, AliveAfter, Flat;
    FlatStep(batches, r);
    BatchKeepsTable(u, fds, batches[r]);
    BatchDoes(t, Flat(batches[..r]), u, fds, batches[r]);
  }

  lemma WhatIsKept(t: Table, fds: seq<int>, batches: seq<seq<Ready>>, r: nat, u: Table)
    requires Keeps(t, fds, batches, r, u) && t.sent == []
    ensures StopExact(u) && Balanced(u) && ClosedOnce(u, fds)
    ensures var bytes := BytesOf(Flat(batches[..r]));
            && (forall k :: 0 <= k < |u.pids| ==> u.pids[k] == if t.pids[k] in ReapedBy(bytes) then DEAD else t.pids[k])
            && t.killed <= u.killed && Kills(t.pids, bytes, u.killed[|t.killed|..])
    ensures Announces(t.pids, t.counter, Flat(batches[..r]), u.sent)
    ensures forall i :: 0 <= i < r ==> AliveAfter(t.pids, batches, i)
  {
    hide ReapedBy, Kills, Announces, Balanced, ClosedOnce, AliveAfter;
    assert u.sent[|t.sent|..] == u.sent;
    forall k | 0 <= k < |u.pids|
      ensures u.pids[k] == PidAfter(t.pids[k], BytesOf(Flat(batches[..r])))
    {
    }
  }
}
