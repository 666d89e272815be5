/**
 One descriptor number in the edge-triggered epoll server: the kernel's edges, the main thread's batch, the tasks it
 queues and any number of workers that drain the same number at once.  A worker that sees the end closes the number
 first and takes it out of epoll later, under the lock; in between the kernel may hand the number to a new client.
 */
module EdgeTriggered {
  import opened Common

  datatype State = State(
    open: bool,           // a connection is behind the number
    unread: nat,          // bytes the kernel holds for it
    eof: bool,            // the peer has closed
    adding: bool,         // main: accepted, epoll_ctl ADD is next
    registered: bool,     // in epoll's interest list
    edge: bool,           // an edge epoll_wait has not reported yet
    inBatch: bool,        // an event epoll_wait has reported and main has not dispatched yet
    tasks: nat,           // queued in the thread pool
    draining: nat,        // workers about to call recv
    failing: nat,         // workers whose recv returned 0 or an error; close is next
    closing: nat,         // workers that have closed; epoll_ctl DEL is next
    doomed: bool)         // history: a recv on this very connection returned 0 or an error

  datatype Event =
    | Accept              // main: accept returns this number
    | Add                 // main: epoll_ctl ADD
    | Refuse              // main: too many clients, the new one is closed
    | Arrive(n: nat)      // the peer sends
    | PeerCloses
    | Wait                // main: epoll_wait reports the edge
    | Dispatch            // main: the event becomes a task
    | Start               // a worker takes a task
    | Recv(n: nat)        // a worker: recv returns n bytes, or what else the connection has to say
    | RecvError           // a worker: recv fails for good
    | Close               // a worker: close
    | Del                 // a worker: epoll_ctl DEL and the erase

  const START := State(false, 0, false, false, false, false, false, 0, 0, 0, 0, false)

  predicate Enabled(s: State, e: Event) {
    match e
    case Accept => !s.open && !s.adding
    case Add => s.adding
    case Refuse => s.adding
    case Arrive(n) => s.open && !s.eof && n > 0
    case PeerCloses => s.open && !s.eof
    case Wait => s.edge && !s.inBatch && !s.adding
    case Dispatch => s.inBatch && !s.adding
    case Start => s.tasks > 0
    case Recv(n) => s.draining > 0 && (s.open && s.unread > 0 ==> 0 < n <= s.unread)
    case RecvError => s.draining > 0
    case Close => s.failing > 0
    case Del => s.closing > 0
  }

  /** The kernel forgets the connection behind the number, and its place in epoll with it. */
  function Gone(s: State): State {
    s.(open := false, unread := 0, eof := false, registered := false, edge := false)
  }

  function Apply(s: State, e: Event): State
    requires Enabled(s, e)
  {
    match e
    case Accept => s.(open := true, unread := 0, eof := false, adding := true, doomed := false)
    case Add =>
      if s.open then s.(adding := false, registered := true, edge := s.unread > 0 || s.eof) else s.(adding := false)
    case Refuse => Gone(s).(adding := false)
    case Arrive(n) => s.(unread := s.unread + n, edge := s.edge || s.registered)
    case PeerCloses => s.(eof := true, edge := s.edge || s.registered)
    case Wait => s.(edge := false, inBatch := true)
    case Dispatch => s.(inBatch := false, tasks := s.tasks + 1)
    case Start => s.(tasks := s.tasks - 1, draining := s.draining + 1)
    case Recv(n) =>
      if s.open && s.unread > 0 then s.(unread := s.unread - n)
      else if s.open && !s.eof then s.(draining := s.draining - 1)
      else s.(draining := s.draining - 1, failing := s.failing + 1, doomed := s.doomed || s.open)
    case RecvError => s.(draining := s.draining - 1, failing := s.failing + 1, doomed := s.doomed || s.open)
    case Close => Gone(s).(failing := s.failing - 1, closing := s.closing + 1)
    case Del => s.(closing := s.closing - 1, registered := false, edge := false)
  }

  predicate Legal(s: State, tr: seq<Event>)
    decreases |tr|
  {
    tr == [] || (Enabled(s, tr[0]) && Legal(Apply(s, tr[0]), tr[1..]))
  }

  function Exec(s: State, tr: seq<Event>): State
    requires Legal(s, tr)
    decreases |tr|
  {
    if tr == [] then s else Exec(Apply(s, tr[0]), tr[1..])
  }

  /**
   Whoever has something to read has somebody on the way to read it, or somebody who has read its end and will close it.
   A worker that is about to close the number because of an earlier connection does not count.
   */
  predicate Attended(s: State) {
    s.open && (s.unread > 0 || s.eof) ==>
      s.adding || s.edge || s.inBatch || s.tasks > 0 || s.draining > 0 || (s.failing > 0 && s.doomed)
  }

  /** No outstanding DEL when the number is handed out again. */
  predicate CleanAccept(s: State, e: Event) {
    e == Accept ==> s.closing == 0
  }

  predicate CleanRun(s: State, tr: seq<Event>)
    requires Legal(s, tr)
    decreases |tr|
  {
    tr == [] || (CleanAccept(s, tr[0]) && CleanRun(Apply(s, tr[0]), tr[1..]))
  }

  predicate Inv(s: State) {
    && Attended(s)
    && (s.open && !s.adding ==> s.registered)
    && (s.open ==> s.closing == 0)
  }

  lemma StepInv(s: State, e: Event)
    requires Inv(s) && Enabled(s, e) && CleanAccept(s, e)
    ensures Inv(Apply(s, e))
  {
  }

  /**
   In every run that hands the number out only when no DEL for it is outstanding, unread bytes and an unseen end always
   have an edge, an undispatched event, a queued task or a worker on the way, however many workers drain at once.
   */
  lemma {:induction false} NoStaleReadiness(s: State, tr: seq<Event>)
    requires Inv(s) && Legal(s, tr) && CleanRun(s, tr)
    ensures Inv(Exec(s, tr)) && Attended(Exec(s, tr))
    decreases |tr|
  {
    if tr != [] {
      StepInv(s, tr[0]);
      NoStaleReadiness(Apply(s, tr[0]), tr[1..]);
    }
  }

  // The condition is needed: whenever the number can be handed out with a DEL outstanding, some run strands a client.

  function Busy(s: State): nat {
    (if s.inBatch then 4 else 0) + 3 * s.tasks + 2 * s.draining + s.failing
  }

  lemma Then(s: State, e: Event, tr: seq<Event>)
    requires Enabled(s, e) && Legal(Apply(s, e), tr)
    ensures Legal(s, [e] + tr) && Exec(s, [e] + tr) == Exec(Apply(s, e), tr)
  {
    assert ([e] + tr)[1..] == tr;
  }

  /** The rest of a run that strands a client, once everybody who might still look at the number has done so. */
  lemma Strands(s: State)
    requires !s.open && !s.adding && s.closing > 0 && Busy(s) == 0
    ensures exists tr :: Legal(s, tr) && !Attended(Exec(s, tr))
  {
    var s1 := Apply(s, Accept);
    var s2 := Apply(s1, Add);
    var s3 := Apply(s2, Del);
    var s4 := Apply(s3, Arrive(1));
    assert !Attended(s4);
    assert Legal(s4, []) && Exec(s4, []) == s4;
    Then(s3, Arrive(1), []);
    Then(s2, Del, [Arrive(1)] + []);
    Then(s1, Add, [Del] + ([Arrive(1)] + []));
    Then(s, Accept, [Add] + ([Del] + ([Arrive(1)] + [])));
  }

  lemma {:induction false} DirtyAcceptStrands(s: State)
    requires Enabled(s, Accept) && !CleanAccept(s, Accept)
    ensures exists tr :: Legal(s, tr) && !Attended(Exec(s, tr))
    decreases Busy(s)
  {
    if Busy(s) == 0 {
      Strands(s);
    } else {
      var e := if s.inBatch then Dispatch else if s.tasks > 0 then Start else if s.draining > 0 then Recv(0) else Close;
      var t := Apply(s, e);
      DirtyAcceptStrands(t);
      var rest :| Legal(t, rest) && !Attended(Exec(t, rest));
      Then(s, e, rest);
    }
  }

  /** Some clean run from here leads to a state in which the number can be handed out with a DEL outstanding. */
  ghost predicate MayGetDirty(s: State) {
    exists tr ::
      Legal(s, tr) && CleanRun(s, tr) && Enabled(Exec(s, tr), Accept) && !CleanAccept(Exec(s, tr), Accept)
  }

  lemma DirtyEarlier(s: State, e: Event)
    requires Enabled(s, e) && CleanAccept(s, e) && MayGetDirty(Apply(s, e))
    ensures MayGetDirty(s)
  {
    var t := Apply(s, e);
    var tr :| Legal(t, tr) && CleanRun(t, tr) && Enabled(Exec(t, tr), Accept) && !CleanAccept(Exec(t, tr), Accept);
    assert ([e] + tr)[1..] == tr;
    assert Legal(s, [e] + tr) && CleanRun(s, [e] + tr) && Exec(s, [e] + tr) == Exec(t, tr);
  }

  /** A client comes and closes, and a worker has closed the number but not yet taken it out of epoll. */
  lemma DirtyAcceptOccurs()
    ensures MayGetDirty(START)
  {
    hide MayGetDirty;
    var s1 := Apply(START, Accept);
    var s2 := Apply(s1, Add);
    var s3 := Apply(s2, PeerCloses);
    var s4 := Apply(s3, Wait);
    var s5 := Apply(s4, Dispatch);
    EndIsRead(Apply(s5, Start));
    DirtyEarlier(s5, Start);
    DirtyEarlier(s4, Dispatch);
    DirtyEarlier(s3, Wait);
    DirtyEarlier(s2, PeerCloses);
    DirtyEarlier(s1, Add);
    DirtyEarlier(START, Accept);
  }

  lemma EndIsRead(s: State)
    requires s.open && s.unread == 0 && s.eof && !s.adding && s.draining == 1
    ensures MayGetDirty(s)
  {
    hide MayGetDirty;
    var t := Apply(s, Recv(0));
    DirtyNow(Apply(t, Close));
    DirtyEarlier(t, Close);
    DirtyEarlier(s, Recv(0));
  }

  lemma DirtyNow(s: State)
    requires Enabled(s, Accept) && !CleanAccept(s, Accept)
    ensures MayGetDirty(s)
  {
    assert Legal(s, []) && CleanRun(s, []) && Exec(s, []) == s;
  }

  lemma {:induction false} Append(s: State, a: seq<Event>, b: seq<Event>)
    requires Legal(s, a) && Legal(Exec(s, a), b)
    ensures Legal(s, a + b) && Exec(s, a + b) == Exec(Exec(s, a), b)
    decreases |a|
  {
    if a == [] {
      assert a + b == b;
    } else {
      Append(Apply(s, a[0]), a[1..], b);
      assert (a + b)[1..] == a[1..] + b;
    }
  }

  /** So the server does strand clients: some run from the start leaves one with unread bytes and nobody on the way. */
  lemma ClientsAreStranded()
    ensures exists tr :: Legal(START, tr) && !Attended(Exec(START, tr))
  {
    DirtyAcceptOccurs();
    var a :| Legal(START, a) && Enabled(Exec(START, a), Accept) && !CleanAccept(Exec(START, a), Accept);
    DirtyAcceptStrands(Exec(START, a));
    var b :| Legal(Exec(START, a), b) && !Attended(Exec(Exec(START, a), b));
    Append(START, a, b);
  }

  // A second hazard of the same window: a worker that has yet to close may close the wrong client.

  /** A worker about to close has seen the end of the very connection that is open. */
  predicate Honest(s: State) {
    s.open && s.failing > 0 ==> s.doomed
  }

  lemma StepHonest(s: State, e: Event)
    requires Honest(s) && Enabled(s, e)
    ensures Honest(Apply(s, e)) <==> !(e == Accept && s.failing > 0)
  {
  }

  /** Never is the number handed out while some worker is still about to close it. */
  predicate PatientRun(s: State, tr: seq<Event>)
    requires Legal(s, tr)
    decreases |tr|
  {
    tr == [] || (!(tr[0] == Accept && s.failing > 0) && PatientRun(Apply(s, tr[0]), tr[1..]))
  }

  /** Every close along the run hits a connection whose end was seen, or a number that is closed already. */
  predicate ClosesTheRightOne(s: State, tr: seq<Event>)
    requires Legal(s, tr)
    decreases |tr|
  {
    tr == [] || ((tr[0] == Close && s.open ==> s.doomed) && ClosesTheRightOne(Apply(s, tr[0]), tr[1..]))
  }

  /** In runs that never do so no worker closes a client whose end nobody has seen. */
  lemma {:induction false} PatientRunsAreHonest(s: State, tr: seq<Event>)
    requires Honest(s) && Legal(s, tr) && PatientRun(s, tr)
    ensures Honest(Exec(s, tr)) && ClosesTheRightOne(s, tr)
    decreases |tr|
  {
    if tr != [] {
      StepHonest(s, tr[0]);
      PatientRunsAreHonest(Apply(s, tr[0]), tr[1..]);
    }
  }

  /** And only in those: a run that is not patient has a continuation in which a worker closes the wrong client. */
  lemma {:induction false} ImpatientRunsCloseTheWrongOne(s: State, tr: seq<Event>)
    requires Honest(s) && Legal(s, tr) && !PatientRun(s, tr)
    ensures exists k :: 0 < k <= |tr| && Legal(s, tr[..k] + [Close]) && !ClosesTheRightOne(s, tr[..k] + [Close])
    decreases |tr|
  {
    var t := Apply(s, tr[0]);
    if tr[0] == Accept && s.failing > 0 {
      WrongClose(t);
      CloseLater(s, tr[0], [Close]);
      assert tr[..1] == [tr[0]];
    } else {
      StepHonest(s, tr[0]);
      ImpatientRunsCloseTheWrongOne(t, tr[1..]);
      var k :| 0 < k <= |tr[1..]| && Legal(t, tr[1..][..k] + [Close]) && !ClosesTheRightOne(t, tr[1..][..k] + [Close]);
      CloseLater(s, tr[0], tr[1..][..k] + [Close]);
      assert tr[..k + 1] + [Close] == [tr[0]] + (tr[1..][..k] + [Close]);
    }
  }

  lemma WrongClose(s: State)
    requires s.open && !s.doomed && s.failing > 0
    ensures Legal(s, [Close]) && !ClosesTheRightOne(s, [Close])
  {
    assert [Close][1..] == [] && Legal(Apply(s, Close), []);
  }

  lemma CloseLater(s: State, e: Event, tr: seq<Event>)
    requires Enabled(s, e) && Legal(Apply(s, e), tr) && !ClosesTheRightOne(Apply(s, e), tr)
    ensures Legal(s, [e] + tr) && !ClosesTheRightOne(s, [e] + tr)
  {
    assert ([e] + tr)[1..] == tr;
  }

  /** Some run from here that hands the number out cleanly closes the wrong client. */
  ghost predicate MayGoWrong(s: State) {
    exists tr :: Legal(s, tr) && CleanRun(s, tr) && !ClosesTheRightOne(s, tr)
  }

  lemma WrongEarlier(s: State, e: Event)
    requires Enabled(s, e) && CleanAccept(s, e) && MayGoWrong(Apply(s, e))
    ensures MayGoWrong(s)
  {
    var t := Apply(s, e);
    var tr :| Legal(t, tr) && CleanRun(t, tr) && !ClosesTheRightOne(t, tr);
    assert ([e] + tr)[1..] == tr;
    assert Legal(s, [e] + tr) && CleanRun(s, [e] + tr) && !ClosesTheRightOne(s, [e] + tr);
  }

  /**
   Such a run exists from the start, and it is even clean: two workers see the end of one client, the first closes the
   number and takes it out of epoll, a new client gets it, and the second worker closes that one.
   */
  lemma WrongClientIsClosed()
    ensures MayGoWrong(START)
  {
    hide MayGoWrong;
    var s1 := Apply(START, Accept);
    var s2 := Apply(s1, Add);
    var s3 := Apply(s2, Arrive(1));
    var s4 := Apply(s3, Wait);
    var s5 := Apply(s4, Dispatch);
    var s6 := Apply(s5, PeerCloses);
    var s7 := Apply(s6, Wait);
    var s8 := Apply(s7, Dispatch);
    TwoWorkers(Apply(s8, Start));
    WrongEarlier(s8, Start);
    WrongEarlier(s7, Dispatch);
    WrongEarlier(s6, Wait);
    WrongEarlier(s5, PeerCloses);
    WrongEarlier(s4, Dispatch);
    WrongEarlier(s3, Wait);
    WrongEarlier(s2, Arrive(1));
    WrongEarlier(s1, Add);
    WrongEarlier(START, Accept);
  }

  /** One worker drains, a task for another is queued, and the client has sent a byte and closed. */
  lemma TwoWorkers(s: State)
    requires s.open && s.unread == 1 && s.eof && !s.adding && s.draining == 1 && s.tasks == 1
    requires s.failing == 0 && s.closing == 0
    ensures MayGoWrong(s)
  {
    hide MayGoWrong;
    var t := Apply(s, Start);
    TwoReads(Apply(t, Recv(1)));
    WrongEarlier(t, Recv(1));
    WrongEarlier(s, Start);
  }

  lemma TwoReads(s: State)
    requires s.open && s.unread == 0 && s.eof && !s.adding && s.draining == 2 && s.failing == 0 && s.closing == 0
    ensures MayGoWrong(s)
  {
    hide MayGoWrong;
    var t := Apply(s, Recv(0));
    OneCloses(Apply(t, Recv(0)));
    WrongEarlier(t, Recv(0));
    WrongEarlier(s, Recv(0));
  }

  /** Both workers have seen the end; one of them closes the number and takes it out of epoll. */
  lemma OneCloses(s: State)
    requires !s.adding && s.failing == 2 && s.closing == 0
    ensures MayGoWrong(s)
  {
    hide MayGoWrong;
    var t := Apply(s, Close);
    HandedOut(Apply(t, Del));
    WrongEarlier(t, Del);
    WrongEarlier(s, Close);
  }

  lemma HandedOut(s: State)
    requires !s.open && !s.adding && s.failing > 0 && s.closing == 0
    ensures MayGoWrong(s)
  {
    WrongNow(Apply(s, Accept));
    WrongEarlier(s, Accept);
  }

  lemma WrongNow(s: State)
    requires s.open && !s.doomed && s.failing > 0
    ensures MayGoWrong(s)
  {
    WrongClose(s);
    assert [Close][1..] == [] && CleanRun(Apply(s, Close), []);
    assert CleanRun(s, [Close]);
  }

  // ---------------------------------------------------------------------------------------------------------
  // The worker's drain loop, with everybody else running in between.

  datatype Outcome = SawAgain | ClosedIt

  /** A run from `start` to s that hands the number out cleanly. */
  predicate Reaches(start: State, tr: seq<Event>, s: State) {
    Legal(start, tr) && CleanRun(start, tr) && Exec(start, tr) == s
  }

  lemma {:induction false} ReachesMore(start: State, tr: seq<Event>, s: State, e: Event)
    requires Reaches(start, tr, s) && Enabled(s, e) && CleanAccept(s, e)
    ensures Reaches(start, tr + [e], Apply(s, e))
    decreases |tr|
  {
    if tr == [] {
      assert [] + [e] == [e] && [e][1..] == [];
    } else {
      ReachesMore(Apply(start, tr[0]), tr[1..], s, e);
      assert (tr + [e])[1..] == tr[1..] + [e];
    }
  }

  /** What this worker has yet to do is counted by one of the counters. */
  datatype Place = AmDraining | AmFailing | AmClosing

  predicate At(s: State, p: Place) {
    match p
    case AmDraining => s.draining > 0
    case AmFailing => s.failing > 0
    case AmClosing => s.closing > 0
  }

  datatype Received = Bytes(n: nat) | Again | End

  function Answer(s: State, call: Event): Received {
    if !call.Recv? then End
    else if s.open && s.unread > 0 then Bytes(call.n)
    else if s.open && !s.eof then Again
    else End
  }

  /** What a recv says of the connection c, and what it makes of it. */
  predicate RecvSays(c: State, fails: bool, r: Received, d: State)
    requires c.draining > 0
  {
    match r
    case Bytes(n) => !fails && c.open && 0 < n <= c.unread && d == c.(unread := c.unread - n)
    case Again => !fails && c.open && c.unread == 0 && !c.eof && d == c.(draining := c.draining - 1)
    case End =>
      && (fails || !c.open || (c.unread == 0 && c.eof))
      && d == c.(draining := c.draining - 1, failing := c.failing + 1, doomed := c.doomed || c.open)
  }

  /** What a loop has made of the connection when nobody else moved and it has only read bytes. */
  predicate ReadingOn(first: State, c: State) {
    c == first.(unread := c.unread)
  }

  lemma ReadOn(first: State, c: State, fails: bool, r: Received, d: State)
    requires ReadingOn(first, c) && c.draining > 0 && RecvSays(c, fails, r, d)
    ensures r.Bytes? ==> ReadingOn(first, d)
    ensures r.Again? ==> d == first.(unread := 0, draining := first.draining - 1) && first.open && !first.eof
    ensures r.End? && !fails ==> !first.open || first.eof
  {
  }

  lemma RecvAnswers(s: State, call: Event)
    requires s.draining > 0 && (call == RecvError || (call.Recv? && (s.unread > 0 ==> 0 < call.n <= s.unread)))
    ensures Enabled(s, call)
    ensures RecvSays(s, call == RecvError, Answer(s, call), Apply(s, call))
  {
  }

  /** After the run `tr` a recv finds that the peer has closed and everything is read, or that the number is closed. */
  predicate SawTheEnd(start: State, tr: seq<Event>, e: Event) {
    e.Recv? && Legal(start, tr) && var s := Exec(start, tr); !s.open || (s.unread == 0 && s.eof)
  }

  ghost predicate EndSeenIn(start: State, tr: seq<Event>, from: nat) {
    exists k :: from <= k < |tr| && SawTheEnd(start, tr[..k], tr[k])
  }

  lemma SeenBefore(start: State, a: seq<Event>, b: seq<Event>, from: nat)
    requires EndSeenIn(start, a, from) && a <= b
    ensures EndSeenIn(start, b, from)
  {
    hide SawTheEnd;
    var k :| from <= k < |a| && SawTheEnd(start, a[..k], a[k]);
    assert b[..k] == a[..k] && b[k] == a[k];
  }

  lemma EndSeen(start: State, tr: seq<Event>, s: State, e: Event)
    requires Reaches(start, tr, s) && e.Recv? && (!s.open || (s.unread == 0 && s.eof))
    ensures SawTheEnd(start, tr, e)
  {
  }

  class Worker {
    var conn: State
    ghost const start: State
    ghost var trace: seq<Event>

    ghost predicate Valid()
      reads this
    {
      Inv(conn) && Reaches(start, trace, conn)
    }

    /** A worker enters in any state that clean runs lead to. */
    constructor (ghost start: State, conn: State, ghost tr: seq<Event>)
      requires Inv(conn) && Reaches(start, tr, conn)
      ensures Valid() && this.conn == conn && this.start == start && trace == tr
    {
      this.start, this.conn, trace := start, conn, tr;
    }

    /** The statement just executed was the atomic action e, which took `before` to the present state. */
    ghost method Record(before: State, e: Event)
      requires Inv(before) && Reaches(start, trace, before)
      requires Enabled(before, e) && CleanAccept(before, e) && conn == Apply(before, e)
      modifies this`trace
      ensures Valid() && trace == old(trace) + [e]
    {
      hide Reaches;
      StepInv(before, e);
      ReachesMore(start, trace, before, e);
      trace := trace + [e];
    }

    /** Everybody else takes any number of clean steps; this worker keeps its place. */
    method Others(budget: nat, place: Place) returns (left: nat)
      requires Valid() && At(conn, place)
      modifies this
      ensures Valid() && At(conn, place) && left <= budget && old(trace) <= trace
      ensures left == budget ==> conn == old(conn)
    {
      hide Reaches, Inv;
      left := budget;
      while left > 0
        invariant Valid() && At(conn, place) && left <= budget && old(trace) <= trace
        invariant left == budget ==> conn == old(conn)
      {
        var enough: bool := *;
        if enough { break; }
        var e: Event := *;
        left := left - 1;
        if Enabled(conn, e) && CleanAccept(conn, e) && At(Apply(conn, e), place) {
          ghost var theirs := SystemCall(e);
        }
      }
    }

    /** One step, as the kernel and the scheduler carry it out. */
    method SystemCall(call: Event) returns (ghost e: Event)
      requires Valid() && Enabled(conn, call) && CleanAccept(conn, call)
      modifies this
      ensures Valid() && e == call && trace == old(trace) + [call] && conn == Apply(old(conn), call)
    {
      hide Reaches, Inv;
      ghost var before := conn;
      conn := Apply(conn, call);
      Record(before, call);
      e := call;
    }

    /** recv: a number of bytes, 0 at the end, EAGAIN, or another error if `fails`. */
    method Recv(fails: bool) returns (r: Received, ghost e: Event)
      requires Valid() && conn.draining > 0
      modifies this
      ensures Valid() && trace == old(trace) + [e] && (if fails then e == RecvError else e.Recv?)
      ensures RecvSays(old(conn), fails, r, conn)
    {
      hide Reaches, Inv;
      var n: int := *;
      if n <= 0 || n > conn.unread {
        n := conn.unread;
      }
      var call := if fails then RecvError else Event.Recv(n);
      RecvAnswers(conn, call);
      hide Apply, Enabled, Reaches, Inv, RecvSays;
      r := Answer(conn, call);
      e := SystemCall(call);
    }

    /**
     recv until EAGAIN, or close and take the number out of epoll.  The loop ends whenever the others take finitely
     many steps; it ends on EAGAIN only when there is nothing left to read, and nothing is ever left unattended.  It
     closes only when a recv failed, or saw the end of the connection or a number that is closed already.  `failing`
     says which of its recvs fails, if any.
     */
    method EpMsgWorker(failing: Option<nat>, budget: nat) returns (outcome: Outcome, left: nat, recvs: nat)
      requires Valid() && conn.draining > 0
      modifies this
      ensures Valid() && left <= budget && old(trace) < trace
      ensures recvs > 0 && (failing.Some? ==> recvs <= failing.value + 1)
      ensures match outcome
              case SawAgain => conn.open && conn.unread == 0 && !conn.eof && failing != Some(recvs - 1)
              case ClosedIt =>
                && trace[|trace| - 1] == Del && Close in trace[|old(trace)|..]
                && (failing == Some(recvs - 1) || EndSeenIn(start, trace, |old(trace)|))
      ensures left == budget && failing == None ==> (outcome == SawAgain <==> old(conn).open && !old(conn).eof)
      ensures left == budget && outcome == SawAgain ==>
                conn == old(conn).(unread := 0, draining := old(conn).draining - 1)
    {
      ghost var first, from := conn, |trace|;
      assert ReadingOn(first, conn);
      left, recvs := budget, 0;
      hide Reaches, Inv, EndSeenIn, Apply, Enabled, RecvSays, ReadingOn;
      while true
        invariant Valid() && conn.draining > 0 && left <= budget && old(trace) <= trace
        invariant failing.Some? ==> recvs <= failing.value
        invariant left == budget ==> ReadingOn(first, conn)
        decreases left, conn.unread
      {
        ghost var was := conn;
        var r;
        r, left := OthersThenRecv(failing == Some(recvs), left, from);
        if left == budget {
          ReadOn(first, was, failing == Some(recvs), r, conn);
        }
        recvs := recvs + 1;
        if r == Again {
          return SawAgain, left, recvs;
        } else if r == End {
          break;
        }
      }
      ghost var reached := trace;
      left := CloseAndForget(left, from);
      if failing != Some(recvs - 1) {
        SeenBefore(start, reached, trace, from);
      }
      outcome := ClosedIt;
    }

    /** One pass of that loop; `from` is where the loop began. */
    method OthersThenRecv(fails: bool, budget: nat, ghost from: nat) returns (r: Received, left: nat)
      requires Valid() && conn.draining > 0 && from <= |trace|
      modifies this
      ensures Valid() && left <= budget && old(trace) < trace
      ensures (fails ==> r.End?) && (r.Bytes? ==> conn.draining > 0)
      ensures r.Again? ==> conn.open && conn.unread == 0 && !conn.eof && !fails
      ensures r.End? ==> conn.failing > 0 && (fails || EndSeenIn(start, trace, from))
      ensures left == budget ==> RecvSays(old(conn), fails, r, conn)
      ensures left == budget && r.Bytes? ==> conn.unread < old(conn).unread
    {
      hide Reaches, Inv, SawTheEnd;
      left := Others(budget, AmDraining);
      ghost var before, was := trace, conn;
      ghost var e;
      r, e := Recv(fails);
      if r == End && !fails {
        EndSeen(start, before, was, e);
        assert trace[..|before|] == before && trace[|before|] == e;
      }
    }

    /** close, and then epoll_ctl DEL under the lock. */
    method CloseAndForget(budget: nat, ghost from: nat) returns (left: nat)
      requires Valid() && conn.failing > 0 && from <= |trace|
      modifies this
      ensures Valid() && left <= budget && old(trace) < trace
      ensures trace[|trace| - 1] == Del && Close in trace[from..]
    {
      hide Reaches, Inv;
      left := Others(budget, AmFailing);
      ghost var k, e := |trace|, Close;
      e := SystemCall(Close);
      left := Others(left, AmClosing);
      e := SystemCall(Del);
      assert trace[from..][k - from] == Close;
    }
  }
}
