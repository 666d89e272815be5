/**
 The load generator: how it splits its clients over the threads, and the counter by which the threads find out that the
 last reply has come.
 */
module MultiClient {

  // ---------------------------------------------------------------------------------------------------------
  // The split.

  /** Division that truncates toward zero, as in C++. */
  function Quot(a: int, n: nat): int
    requires n > 0
  {
    if a >= 0 then a / n else -(-a / n)
  }

  function Rem(a: int, n: nat): (r: int)
    requires n > 0
    ensures a == Quot(a, n) * n + r
    ensures if a >= 0 then 0 <= r < n else -r < n && r <= 0
  {
    a - Quot(a, n) * n
  }

  function Sum(s: seq<int>): int {
    if s == [] then 0 else Sum(s[..|s| - 1]) + s[|s| - 1]
  }

  /** What each thread gets: the first `Rem` threads one client more. */
  function Count(clients: int, threads: nat, i: nat): int
    requires threads > 0
  {
    Quot(clients, threads) + (if i < Rem(clients, threads) then 1 else 0)
  }

  method Split(clients: int, threads: nat) returns (counts: seq<int>)
    requires threads > 0
    ensures |counts| == threads && forall i :: 0 <= i < threads ==> counts[i] == Count(clients, threads, i)
    ensures clients >= 0 ==> Sum(counts) == clients
    ensures forall i, j :: 0 <= i <= j < threads ==> 0 <= counts[i] - counts[j] <= 1
  {
    counts := [];
    var sub, res := Quot(clients, threads), Rem(clients, threads);
    var i := 0;
    while i < threads
      invariant 0 <= i <= threads && |counts| == i
      invariant res == if Rem(clients, threads) <= 0 then Rem(clients, threads)
                       else if i < Rem(clients, threads) then Rem(clients, threads) - i else 0
      invariant forall k :: 0 <= k < i ==> counts[k] == Count(clients, threads, k)
    {
      var count := sub;
      if res > 0 {
        count := count + 1;
        res := res - 1;
      }
      counts := counts + [count];
      i := i + 1;
    }
    SplitSum(Quot(clients, threads), Rem(clients, threads), counts, threads);
    assert counts[..threads] == counts;
  }

  lemma {:induction false} SplitSum(q: int, r: int, counts: seq<int>, n: nat)
    requires n <= |counts| && forall i :: 0 <= i < n ==> counts[i] == q + (if i < r then 1 else 0)
    ensures Sum(counts[..n]) == q * n + (if r <= 0 then 0 else if n < r then n else r)
  {
    if n > 0 {
      SplitSum(q, r, counts, n - 1);
      assert counts[..n][..n - 1] == counts[..n - 1];
      assert q * n == q * (n - 1) + q;
    }
  }

  /** For a negative number of clients the remainder is negative too and goes to nobody. */
  lemma SplitIsExactIff(clients: int, threads: nat, counts: seq<int>)
    requires threads > 0 && |counts| == threads
    requires forall i :: 0 <= i < threads ==> counts[i] == Count(clients, threads, i)
    ensures Sum(counts) == clients <==> clients >= 0 || Rem(clients, threads) == 0
  {
    SplitSum(Quot(clients, threads), Rem(clients, threads), counts, threads);
    assert counts[..threads] == counts;
  }

  // ---------------------------------------------------------------------------------------------------------
  // The completion counter.

  /** A thread with `todo` replies to come; Counted is the window between its increment and its load. */
  datatype Thread = Thread(todo: nat, counted: bool, seen: nat)

  datatype State = State(threads: seq<Thread>, comp: nat, total: nat)

  datatype Event =
    | Increment(t: nat)     // a reply arrives and the atomic counter goes up
    | Load(t: nat)          // the counter is compared with the total

  predicate Enabled(s: State, e: Event) {
    && e.t < |s.threads|
    && var th := s.threads[e.t];
       match e
       case Increment(_) => !th.counted && th.todo > 0
       case Load(_) => th.counted
  }

  function Apply(s: State, e: Event): (u: State)
    requires Enabled(s, e)
    ensures |u.threads| == |s.threads| && u.total == s.total
  {
    var th := s.threads[e.t];
    match e
    case Increment(t) => s.(threads := s.threads[t := th.(todo := th.todo - 1, counted := true)], comp := s.comp + 1)
    case Load(t) =>
      s.(threads := s.threads[t := th.(counted := false, seen := if s.comp == s.total then th.seen + 1 else th.seen)])
  }

  predicate Legal(s: State, tr: seq<Event>)
    decreases |tr|
  {
    tr == [] || (Enabled(s, tr[0]) && Legal(Apply(s, tr[0]), tr[1..]))
  }

  function Exec(s: State, tr: seq<Event>): (u: State)
    requires Legal(s, tr)
    ensures |u.threads| == |s.threads|
    decreases |tr|
  {
    if tr == [] then s else Exec(Apply(s, tr[0]), tr[1..])
  }

  function Todo(threads: seq<Thread>): nat {
    if threads == [] then 0 else Todo(threads[..|threads| - 1]) + threads[|threads| - 1].todo
  }

  function Seen(threads: seq<Thread>): nat {
    if threads == [] then 0 else Seen(threads[..|threads| - 1]) + threads[|threads| - 1].seen
  }

  /** Exactly `total` replies are to come, spread over the threads in any way. */
  predicate Starts(s: State) {
    && s.comp == 0 && s.total > 0 && Todo(s.threads) == s.total
    && forall i :: 0 <= i < |s.threads| ==> !s.threads[i].counted && s.threads[i].seen == 0
  }

  predicate Observer(th: Thread) {
    th.counted || th.seen > 0
  }

  ghost predicate Inv(s: State) {
    && s.total > 0 && s.comp + Todo(s.threads) == s.total
    && (forall i :: 0 <= i < |s.threads| ==>
          s.threads[i].seen <= 1 &&
          (s.threads[i].seen == 1 ==> s.comp == s.total && !s.threads[i].counted))
    && (s.comp == s.total ==> exists i :: 0 <= i < |s.threads| && Observer(s.threads[i]))
  }

  lemma {:induction false} TodoAt(threads: seq<Thread>, t: nat, th: Thread)
    requires t < |threads|
    ensures Todo(threads[t := th]) == Todo(threads) - threads[t].todo + th.todo
    ensures Todo(threads) >= threads[t].todo
  {
    var last := |threads| - 1;
    if t == last {
      assert threads[t := th][..last] == threads[..last];
    } else {
      TodoAt(threads[..last], t, th);
      assert threads[t := th][..last] == threads[..last][t := th];
    }
  }

  lemma StepInv(s: State, e: Event)
    requires Inv(s) && Enabled(s, e)
    ensures Inv(Apply(s, e))
  {
    var u := Apply(s, e);
    TodoAt(s.threads, e.t, u.threads[e.t]);
    assert Observer(u.threads[e.t]) || (e.Load? && s.comp != s.total);
  }

  lemma {:induction false} RunInv(s: State, tr: seq<Event>)
    requires Inv(s) && Legal(s, tr)
    ensures Inv(Exec(s, tr))
    decreases |tr|
  {
    if tr != [] {
      StepInv(s, tr[0]);
      RunInv(Apply(s, tr[0]), tr[1..]);
    }
  }

  lemma {:induction false} SeenBound(threads: seq<Thread>)
    requires forall i :: 0 <= i < |threads| ==> threads[i].seen <= 1
    ensures Seen(threads) <= |threads|
    ensures (exists i :: 0 <= i < |threads| && threads[i].seen > 0) ==> Seen(threads) > 0
  {
    if threads != [] {
      var last := |threads| - 1;
      SeenBound(threads[..last]);
      forall i | 0 <= i < last && threads[i].seen > 0
        ensures Seen(threads) > 0
      {
        assert threads[..last][i].seen > 0;
      }
    }
  }

  /**
   However the callbacks interleave: nobody announces completion before the last increment, no thread does so twice,
   and when all callbacks are done at least one and at most every thread has.
   */
  lemma CompletionIsSeen(s: State, tr: seq<Event>)
    requires Starts(s) && Legal(s, tr)
    ensures var u := Exec(s, tr);
            && (Seen(u.threads) > 0 ==> u.comp == u.total && Todo(u.threads) == 0)
            && Seen(u.threads) <= |u.threads|
            && (forall i :: 0 <= i < |u.threads| ==> u.threads[i].seen <= 1)
            && ((forall e :: !Enabled(u, e)) ==> Seen(u.threads) >= 1)
  {
    RunInv(s, tr);
    var u := Exec(s, tr);
    SeenBound(u.threads);
    NobodySeen(u.threads);
    if forall e :: !Enabled(u, e) {
      NothingToDo(u);
      var i :| 0 <= i < |u.threads| && Observer(u.threads[i]);
      assert !Enabled(u, Load(i));
      assert u.threads[i].seen > 0;
    }
  }

  lemma {:induction false} NobodySeen(threads: seq<Thread>)
    ensures Seen(threads) > 0 ==> exists i :: 0 <= i < |threads| && threads[i].seen > 0
  {
    if threads != [] {
      var last := |threads| - 1;
      NobodySeen(threads[..last]);
      if Seen(threads[..last]) > 0 {
        var i :| 0 <= i < last && threads[..last][i].seen > 0;
        assert threads[i].seen > 0;
      }
    }
  }

  lemma NothingToDo(s: State)
    requires Inv(s) && forall e :: !Enabled(s, e)
    ensures s.comp == s.total
  {
    forall i | 0 <= i < |s.threads|
      ensures s.threads[i].todo == 0
    {
      assert !Enabled(s, Increment(i)) && !Enabled(s, Load(i));
    }
    NoTodo(s.threads);
  }

  lemma {:induction false} NoTodo(threads: seq<Thread>)
    requires forall i :: 0 <= i < |threads| ==> threads[i].todo == 0
    ensures Todo(threads) == 0
  {
    if threads != [] {
      NoTodo(threads[..|threads| - 1]);
    }
  }

  // ---------------------------------------------------------------------------------------------------------
  // How many threads may announce completion: as many as have had a reply to come.

  /** The thread has a reply to come, or is between its increment and its load, or has announced completion. */
  predicate Racer(th: Thread) {
    th.todo > 0 || th.counted || th.seen > 0
  }

  function Racers(threads: seq<Thread>): nat {
    if threads == [] then 0
    else Racers(threads[..|threads| - 1]) + (if Racer(threads[|threads| - 1]) then 1 else 0)
  }

  lemma {:induction false} CountsAt(threads: seq<Thread>, t: nat, th: Thread)
    requires t < |threads|
    ensures Racers(threads[t := th]) ==
            Racers(threads) - (if Racer(threads[t]) then 1 else 0) + (if Racer(th) then 1 else 0)
    ensures Seen(threads[t := th]) == Seen(threads) - threads[t].seen + th.seen
  {
    var last := |threads| - 1;
    if t == last {
      assert threads[t := th][..last] == threads[..last];
    } else {
      CountsAt(threads[..last], t, th);
      assert threads[t := th][..last] == threads[..last][t := th];
    }
  }

  lemma {:induction false} SeenAreRacers(threads: seq<Thread>)
    requires forall i :: 0 <= i < |threads| ==> threads[i].seen <= 1
    ensures Seen(threads) <= Racers(threads)
    ensures (forall i :: 0 <= i < |threads| ==> threads[i].todo == 0 && !threads[i].counted) ==>
              Seen(threads) == Racers(threads)
  {
    if threads != [] {
      SeenAreRacers(threads[..|threads| - 1]);
    }
  }

  /** Nobody joins the race. */
  lemma {:induction false} RacersDrop(s: State, tr: seq<Event>)
    requires Legal(s, tr)
    ensures Racers(Exec(s, tr).threads) <= Racers(s.threads)
    decreases |tr|
  {
    if tr != [] {
      var u := Apply(s, tr[0]);
      CountsAt(s.threads, tr[0].t, u.threads[tr[0].t]);
      RacersDrop(u, tr[1..]);
    }
  }

  /** A thread looks at the counter before its last reply has come, or after all replies have. */
  ghost predicate NobodyMissed(s: State) {
    && Inv(s)
    && forall i :: 0 <= i < |s.threads| && (s.threads[i].counted || s.threads[i].seen > 0) ==> s.threads[i].todo == 0
  }

  lemma Prepend(s: State, e: Event, tr: seq<Event>)
    requires Enabled(s, e) && Legal(Apply(s, e), tr)
    ensures Legal(s, [e] + tr) && Exec(s, [e] + tr) == Exec(Apply(s, e), tr)
  {
    assert ([e] + tr)[1..] == tr;
  }

  /** A reply that is not its thread's last, with the look at the counter right after it. */
  lemma EarlyReply(s: State, i: nat) returns (u: State)
    requires NobodyMissed(s) && i < |s.threads| && s.threads[i].todo > 1
    ensures Enabled(s, Increment(i)) && Enabled(Apply(s, Increment(i)), Load(i))
    ensures u == Apply(Apply(s, Increment(i)), Load(i))
    ensures NobodyMissed(u) && Racers(u.threads) == Racers(s.threads) && Todo(u.threads) < Todo(s.threads)
  {
    var th := s.threads[i];
    var t := Apply(s, Increment(i));
    u := Apply(t, Load(i));
    StepInv(s, Increment(i));
    StepInv(t, Load(i));
    TodoAt(s.threads, i, t.threads[i]);
    TodoAt(t.threads, i, u.threads[i]);
    TodoAt(u.threads, i, u.threads[i]);
    CountsAt(s.threads, i, t.threads[i]);
    CountsAt(t.threads, i, u.threads[i]);
    assert u.threads[i].todo == th.todo - 1;
  }

  lemma LastReply(s: State, i: nat) returns (u: State)
    requires NobodyMissed(s) && i < |s.threads| && s.threads[i].todo == 1
    ensures Enabled(s, Increment(i)) && u == Apply(s, Increment(i))
    ensures NobodyMissed(u) && Racers(u.threads) == Racers(s.threads) && Todo(u.threads) < Todo(s.threads)
  {
    u := Apply(s, Increment(i));
    StepInv(s, Increment(i));
    TodoAt(s.threads, i, u.threads[i]);
    CountsAt(s.threads, i, u.threads[i]);
  }

  /** All replies have come, so the thread that looks announces completion. */
  lemma LastLook(s: State, i: nat) returns (u: State)
    requires NobodyMissed(s) && i < |s.threads| && s.threads[i].counted && Todo(s.threads) == 0
    ensures Enabled(s, Load(i)) && u == Apply(s, Load(i))
    ensures NobodyMissed(u) && Racers(u.threads) == Racers(s.threads) && Todo(u.threads) == 0
    ensures Seen(u.threads) > Seen(s.threads)
  {
    u := Apply(s, Load(i));
    StepInv(s, Load(i));
    TodoAt(s.threads, i, u.threads[i]);
    CountsAt(s.threads, i, u.threads[i]);
  }

  /** Everybody gets rid of all replies but the last, then all last replies come, and then everybody looks. */
  lemma {:induction false} EverybodySees(s: State) returns (tr: seq<Event>)
    requires NobodyMissed(s)
    ensures Legal(s, tr) && Seen(Exec(s, tr).threads) == Racers(s.threads)
    decreases Todo(s.threads), Racers(s.threads) - Seen(s.threads)
  {
    SeenAreRacers(s.threads);
    if i :| 0 <= i < |s.threads| && s.threads[i].todo > 1 {
      var u := EarlyReply(s, i);
      var rest := EverybodySees(u);
      Prepend(Apply(s, Increment(i)), Load(i), rest);
      Prepend(s, Increment(i), [Load(i)] + rest);
      tr := [Increment(i)] + ([Load(i)] + rest);
    } else if i :| 0 <= i < |s.threads| && s.threads[i].todo == 1 {
      var u := LastReply(s, i);
      var rest := EverybodySees(u);
      Prepend(s, Increment(i), rest);
      tr := [Increment(i)] + rest;
    } else if i :| 0 <= i < |s.threads| && s.threads[i].counted {
      NoTodo(s.threads);
      var u := LastLook(s, i);
      SeenAreRacers(u.threads);
      var rest := EverybodySees(u);
      Prepend(s, Load(i), rest);
      tr := [Load(i)] + rest;
    } else {
      tr := [];
    }
  }

  lemma StartsInv(s: State)
    requires Starts(s)
    ensures NobodyMissed(s)
  {
  }

  /**
   However the replies are spread over the threads, the number of threads with a reply to come is the exact maximum of
   the number that announce completion: no run has more, and some run has that many.
   */
  lemma UpperBoundIsReached(s: State)
    requires Starts(s)
    ensures forall tr | Legal(s, tr) :: Seen(Exec(s, tr).threads) <= WithReplies(s.threads)
    ensures exists tr :: Legal(s, tr) && Seen(Exec(s, tr).threads) == WithReplies(s.threads)
  {
    StartsInv(s);
    RacersAtStart(s.threads);
    forall tr | Legal(s, tr)
      ensures Seen(Exec(s, tr).threads) <= WithReplies(s.threads)
    {
      RunInv(s, tr);
      SeenAreRacers(Exec(s, tr).threads);
      RacersDrop(s, tr);
    }
    var tr := EverybodySees(s);
  }

  function WithReplies(threads: seq<Thread>): nat {
    if threads == [] then 0
    else WithReplies(threads[..|threads| - 1]) + (if threads[|threads| - 1].todo > 0 then 1 else 0)
  }

  lemma {:induction false} RacersAtStart(threads: seq<Thread>)
    requires forall i :: 0 <= i < |threads| ==> !threads[i].counted && threads[i].seen == 0
    ensures Racers(threads) == WithReplies(threads)
  {
    if threads != [] {
      RacersAtStart(threads[..|threads| - 1]);
    }
  }
}
