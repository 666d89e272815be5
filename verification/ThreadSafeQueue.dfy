/**
 The queue class itself.  Its operations are the critical sections of QueueMonitor, which are shown there to be
 atomic; what other threads do to this object while pop waits is a finite list of such operations.
 */
module ThreadSafeQueue {
  import opened Common
  import opened QueueMonitor

  /** The effect of one operation on the queue itself; None when pop has to wait. */
  function Critical(data: seq<Value>, op: Op): (r: Option<(seq<Value>, Result)>)
    ensures r == None <==> op == Op.Pop && data == []
    ensures r.Some? ==> QueueOp(data, op, r.value.1, r.value.0)
  {
    match op
    case Push(v) => Some((data + [v], Unit))
    case Pop => if data == [] then None else Some((data[1..], Taken(data[0])))
    case TryPop => if data == [] then Some((data, NoValue)) else Some((data[1..], Taken(data[0])))
    case Empty => Some((data, Result.IsEmpty(data == [])))
  }

  /** The contents after the operations `ops` of other threads; one that would have to wait has not happened yet. */
  function After(data: seq<Value>, ops: seq<Op>): seq<Value>
    decreases |ops|
  {
    if ops == [] then data
    else
      var r := Critical(data, ops[0]);
      After(if r.Some? then r.value.0 else data, ops[1..])
  }

  lemma {:induction false} AfterAppend(data: seq<Value>, ops: seq<Op>, op: Op)
    ensures After(data, ops + [op]) ==
            var d := After(data, ops);
            if Critical(d, op).Some? then Critical(d, op).value.0 else d
    decreases |ops|
  {
    if ops == [] {
      assert [op][1..] == [];
    } else {
      var r := Critical(data, ops[0]);
      AfterAppend(if r.Some? then r.value.0 else data, ops[1..], op);
      assert (ops + [op])[1..] == ops[1..] + [op];
    }
  }

  class Queue {
    var data: seq<Value>

    constructor ()
      ensures data == []
    {
      data := [];
    }

    /** The copy has its own mutex and the same contents; the original keeps its own. */
    constructor Copy(other: Queue)
      ensures data == other.data
    {
      data := other.data;
    }

    method IsEmpty() returns (empty: bool)
      ensures QueueOp(data, Op.Empty, Result.IsEmpty(empty), data)
    {
      empty := data == [];
    }

    method Push(v: Value)
      modifies this
      ensures QueueOp(old(data), Op.Push(v), Unit, data)
    {
      data := data + [v];
    }

    method TryPop() returns (r: Option<Value>)
      modifies this
      ensures QueueOp(old(data), Op.TryPop, if r.Some? then Taken(r.value) else NoValue, data)
    {
      if data == [] {
        return None;
      }
      r := Some(data[0]);
      data := data[1..];
    }

    /** One operation of another thread on this queue. */
    method Other(op: Op)
      modifies this
      ensures data == After(old(data), [op])
    {
      assert [op][1..] == [];
      match op {
        case Push(v) => this.Push(v);
        case Pop =>
          if data != [] {
            var v := TryPop();
          }
        case TryPop =>
          var v := this.TryPop();
        case Empty =>
      }
    }

    /**
     Blocking pop: wait until the queue is not empty, while other threads perform `others` on it.  It takes the oldest
     value at the first moment there is one, or is still blocked when `others` is over without such a moment.
     */
    method Pop(others: seq<Op>) returns (r: Option<Value>, used: nat)
      modifies this
      ensures used <= |others|
      ensures forall k :: 0 <= k < used ==> After(old(data), others[..k]) == []
      ensures if r.Some? then QueueOp(After(old(data), others[..used]), Op.Pop, Taken(r.value), data)
              else used == |others| && data == After(old(data), others) == []
    {
      used := 0;
      assert others[..0] == [];
      while data == []
        invariant used <= |others|
        invariant data == After(old(data), others[..used])
        invariant forall k :: 0 <= k < used ==> After(old(data), others[..k]) == []
        decreases |others| - used
      {
        if used == |others| {
          assert others[..used] == others;
          return None, used;
        }
        AfterAppend(old(data), others[..used], others[used]);
        assert others[..used] + [others[used]] == others[..used + 1];
        Other(others[used]);
        AfterAppend([], [], others[used]);
        used := used + 1;
      }
      r := Some(data[0]);
      data := data[1..];
    }
  }
}
