/** The bounded message queue of source/system/util/queue.c, which every worker
    thread of the player and of the FTP daemon waits on. */
module Queue {
  import opened Options

  datatype Message<+D> = Message(event: nat, data: Option<D>)

  datatype Status = Success | OutOfMemory | TryAgain

  predicate HasEvent<D>(q: seq<Message<D>>, event: nat) {
    exists i | 0 <= i < |q| :: q[i].event == event
  }

  // A queue of at most max items after an attempt to add one
  function Put<T>(q: seq<T>, max: nat, x: T, front: bool): seq<T> {
    if |q| >= max then q else if front then [x] + q else q + [x]
  }

  function Pair<D>(events: seq<nat>, data: seq<Option<D>>): (q: seq<Message<D>>)
    requires |events| == |data|
    ensures |q| == |events| && forall i | 0 <= i < |q| :: q[i] == Message(events[i], data[i])
  {
    if events == [] then [] else [Message(events[0], data[0])] + Pair(events[1..], data[1..])
  }

  lemma PairFront<D>(events: seq<nat>, data: seq<Option<D>>, event: nat, item: Option<D>)
    requires |events| == |data|
    ensures Pair([event] + events, [item] + data) == [Message(event, item)] + Pair(events, data)
  {
    assert ([event] + events)[1..] == events;
    assert ([item] + data)[1..] == data;
  }

  lemma {:induction false} PairBack<D>(events: seq<nat>, data: seq<Option<D>>, event: nat, item: Option<D>)
    requires |events| == |data|
    ensures Pair(events + [event], data + [item]) == Pair(events, data) + [Message(event, item)]
  {
    hide Pair;
    var q := Pair(events + [event], data + [item]);
    assert q == Pair(events, data) + [Message(event, item)];
  }

  lemma PairTail<D>(events: seq<nat>, data: seq<Option<D>>)
    requires |events| == |data| && events != []
    ensures Pair(events, data) == [Message(events[0], data[0])] + Pair(events[1..], data[1..])
  {
  }

  lemma ItemsBack<T>(was: seq<T>, now: seq<T>, n: nat)
    requires n < |was| == |now|
    requires forall k | 0 <= k < n :: now[k + 1] == was[k]
    ensures now[..n + 1] == [now[0]] + was[..n]
  {
    forall k | 1 <= k <= n
      ensures now[k] == was[k - 1]
    {
      var j := k - 1;
      assert now[j + 1] == was[j];
    }
  }

  lemma ItemsForward<T>(was: seq<T>, now: seq<T>, n: nat)
    requires n < |was| == |now|
    requires forall k | 0 <= k < n :: now[k] == was[k + 1]
    ensures now[..n] == was[..n + 1][1..]
  {
  }

  class Queue<D> {
    const maxItems: nat
    const eventId: array<nat>
    const data: array<Option<D>>
    var nextIndex: nat

    ghost predicate Valid()
      reads this, eventId, data
    {
      && eventId as object != data
      && eventId.Length == data.Length == maxItems
      && 0 < maxItems && nextIndex <= maxItems
      && (forall k | nextIndex <= k < maxItems :: eventId[k] == 0)
      && (forall k | nextIndex <= k < maxItems :: data[k] == None)
    }

    ghost function Contents(): (q: seq<Message<D>>)
      requires Valid()
      reads this, eventId, data
      ensures |q| == nextIndex
    {
      Pair(eventId[..nextIndex], data[..nextIndex])
    }

    lemma Bounded()
      requires Valid()
      ensures |Contents()| <= maxItems && 0 < maxItems
    {
    }

    constructor (max: nat)
      requires 0 < max
      ensures Valid() && fresh(eventId) && fresh(data) && maxItems == max && Contents() == []
    {
      maxItems, nextIndex := max, 0;
      eventId := new nat[max](_ => 0);
      data := new Option<D>[max](_ => None);
    }

    // Util_queue_add once a full queue has been waited for; an event that is
    // already queued counts as added when it must be unique
    method Add(event: nat, item: Option<D>, unique: bool, front: bool) returns (status: Status)
      requires Valid()
      modifies this, eventId, data
      ensures Valid()
      ensures status == if |old(Contents())| >= maxItems then OutOfMemory else Success
      ensures Contents() == if unique && HasEvent(old(Contents()), event)
                            then old(Contents()) else Put(old(Contents()), maxItems, Message(event, item), front)
    {
      hide Queue.Valid, Queue.Contents;
      if IsFull() {
        return OutOfMemory;
      }
      if unique {
        var found := CheckEventExist(event);
        if found {
          return Success;
        }
      }
      if front {
        PushFront(event, item);
      } else {
        PushBack(event, item);
      }
      return Success;
    }

    predicate IsFull()
      requires Valid()
      reads this, eventId, data
      ensures IsFull() == (|Contents()| >= maxItems)
    {
      nextIndex >= maxItems
    }

    method PushBack(event: nat, item: Option<D>)
      requires Valid() && !IsFull()
      modifies this, eventId, data
      ensures Valid() && Contents() == old(Contents()) + [Message(event, item)]
    {
      hide Pair;
      ghost var ids, items := eventId[..nextIndex], data[..nextIndex];
      eventId[nextIndex], data[nextIndex] := event, item;
      nextIndex := nextIndex + 1;
      PairBack(ids, items, event, item);
      assert eventId[..nextIndex] == ids + [event];
      assert data[..nextIndex] == items + [item];
    }

    // Makes room at the front by copying from the last item down
    method PushFront(event: nat, item: Option<D>)
      requires Valid() && !IsFull()
      modifies this, eventId, data
      ensures Valid() && Contents() == [Message(event, item)] + old(Contents())
    {
      hide Pair;
      PairFront(eventId[..nextIndex], data[..nextIndex], event, item);
      MoveBack(nextIndex);
      eventId[0], data[0] := event, item;
      ItemsBack(old(eventId[..]), eventId[..], nextIndex);
      ItemsBack(old(data[..]), data[..], nextIndex);
      nextIndex := nextIndex + 1;
    }

    method MoveBack(n: nat)
      requires eventId as object != data && n < eventId.Length == data.Length
      modifies eventId, data
      ensures forall k | 0 <= k < n :: eventId[k + 1] == old(eventId[..])[k] && data[k + 1] == old(data[..])[k]
      ensures forall k | n < k < eventId.Length :: eventId[k] == old(eventId[..])[k] && data[k] == old(data[..])[k]
    {
      ghost var ids, items := eventId[..], data[..];
      var i := n;
      while i > 0
        invariant 0 <= i <= n
        invariant forall k | 0 <= k <= i :: eventId[k] == ids[k] && data[k] == items[k]
        invariant forall k | i <= k < n :: eventId[k + 1] == ids[k] && data[k + 1] == items[k]
        invariant forall k | n < k < eventId.Length :: eventId[k] == ids[k] && data[k] == items[k]
      {
        i := i - 1;
        eventId[i + 1], data[i + 1] := eventId[i], data[i];
      }
    }

    // Util_queue_get once an empty queue has been waited for
    method Get() returns (status: Status, event: nat, item: Option<D>)
      requires Valid()
      modifies this, eventId, data
      ensures Valid()
      ensures status == if old(Contents()) == [] then TryAgain else Success
      ensures status == Success ==> old(Contents()) == [Message(event, item)] + Contents()
      ensures status == TryAgain ==> Contents() == []
    {
      hide Pair;
      if nextIndex == 0 {
        return TryAgain, 0, None;
      }
      PairTail(eventId[..nextIndex], data[..nextIndex]);
      var last := nextIndex - 1;
      event, item := eventId[0], data[0];
      MoveForward(last);
      eventId[last], data[last] := 0, None;
      ItemsForward(old(eventId[..]), eventId[..], last);
      ItemsForward(old(data[..]), data[..], last);
      nextIndex := last;
      return Success, event, item;
    }

    method MoveForward(n: nat)
      requires eventId as object != data && n < eventId.Length == data.Length
      modifies eventId, data
      ensures forall k | 0 <= k < n :: eventId[k] == old(eventId[..])[k + 1] && data[k] == old(data[..])[k + 1]
      ensures forall k | n <= k < eventId.Length :: eventId[k] == old(eventId[..])[k] && data[k] == old(data[..])[k]
    {
      ghost var ids, items := eventId[..], data[..];
      var i := 0;
      while i < n
        invariant 0 <= i <= n
        invariant forall k | 0 <= k < i :: eventId[k] == ids[k + 1] && data[k] == items[k + 1]
        invariant forall k | i <= k < eventId.Length :: eventId[k] == ids[k] && data[k] == items[k]
      {
        eventId[i], data[i] := eventId[i + 1], data[i + 1];
        i := i + 1;
      }
    }

    method CheckEventExist(event: nat) returns (exist: bool)
      requires Valid()
      ensures exist == HasEvent(Contents(), event)
    {
      var i := 0;
      while i < nextIndex
        invariant 0 <= i <= nextIndex
        invariant forall k | 0 <= k < i :: eventId[k] != event
      {
        if eventId[i] == event {
          assert Contents()[i].event == event;
          return true;
        }
        i := i + 1;
      }
      return false;
    }
  }

  // ------------------------------------------------------------ runs of a queue

  datatype Operation<+T> = Send(x: T, front: bool) | Take

  // A queue with everything it accepted and everything it gave out
  datatype History<+T> = History(accepted: seq<T>, taken: seq<T>, items: seq<T>)

  function Operate<T>(h: History<T>, max: nat, op: Operation<T>): History<T> {
    match op
    case Send(x, front) =>
      if |h.items| >= max then h
      else History(h.accepted + [x], h.taken, Put(h.items, max, x, front))
    case Take =>
      if h.items == [] then h
      else History(h.accepted, h.taken + [h.items[0]], h.items[1..])
  }

  function OperateAll<T>(h: History<T>, max: nat, ops: seq<Operation<T>>): History<T>
    decreases |ops|
  {
    if ops == [] then h else OperateAll(Operate(h, max, ops[0]), max, ops[1..])
  }

  ghost predicate Conserved<T>(h: History<T>, max: nat) {
    multiset(h.taken) + multiset(h.items) == multiset(h.accepted) && |h.items| <= max
  }

  lemma OperateConserves<T>(h: History<T>, max: nat, op: Operation<T>)
    requires Conserved(h, max)
    ensures Conserved(Operate(h, max, op), max)
  {
    if op.Take? && h.items != [] {
      assert h.items == [h.items[0]] + h.items[1..];
    }
  }

  // Over any run no accepted item is lost or handed out twice, and the queue
  // never outgrows its capacity
  lemma {:induction false} RunConserves<T>(h: History<T>, max: nat, ops: seq<Operation<T>>)
    requires Conserved(h, max)
    ensures Conserved(OperateAll(h, max, ops), max)
    decreases |ops|
  {
    if ops != [] {
      OperateConserves(h, max, ops[0]);
      RunConserves(Operate(h, max, ops[0]), max, ops[1..]);
    }
  }

  // Without sending to the front, items come out in the order they went in
  lemma {:induction false} RunInOrder<T>(h: History<T>, max: nat, ops: seq<Operation<T>>)
    requires h.taken + h.items == h.accepted
    requires forall i | 0 <= i < |ops| :: ops[i].Send? ==> !ops[i].front
    ensures var r := OperateAll(h, max, ops); r.taken + r.items == r.accepted
    decreases |ops|
  {
    if ops != [] {
      var g := Operate(h, max, ops[0]);
      assert g.taken + g.items == g.accepted by {
        if ops[0].Send? {
          assert h.taken + (h.items + [ops[0].x]) == (h.taken + h.items) + [ops[0].x];
        } else if h.items != [] {
          assert h.taken + h.items == (h.taken + [h.items[0]]) + h.items[1..];
        }
      }
      RunInOrder(g, max, ops[1..]);
    }
  }
}
