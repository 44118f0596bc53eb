/** The message bus: every subscriber has a bounded buffer, and a message that finds it full is dropped
    for that subscriber. */
module Bus {
  import opened Common

  /** A subscriber's channel; `offered` and `taken` are its history. */
  class Channel<T> {
    const capacity: nat
    var buffer: seq<T>
    ghost var offered: seq<T>
    ghost var taken: seq<T>

    constructor (capacity: nat)
      ensures this.capacity == capacity && buffer == [] && offered == [] && taken == []
    {
      this.capacity, buffer, offered, taken := capacity, [], [], [];
    }

    ghost function View(): ChannelView<T>
      reads this
    {
      ChannelView(capacity, buffer, offered, taken)
    }

    method Send(m: T)
      modifies this
      ensures View() == Step(old(View()), Publish(m))
    {
      offered := offered + [m];
      if |buffer| < capacity {
        buffer := buffer + [m];
      }
    }

    method Receive() returns (m: Option<T>)
      modifies this
      ensures View() == Step(old(View()), Take)
      ensures m == if old(buffer) == [] then None else Some(old(buffer)[0])
    {
      if buffer == [] { return None; }
      m := Some(buffer[0]);
      taken := taken + [buffer[0]];
      buffer := buffer[1..];
    }
  }

  class Hub<T> {
    var subs: set<Channel<T>>

    constructor ()
      ensures subs == {}
    {
      subs := {};
    }

    method Subscribe(buffer: nat) returns (ch: Channel<T>)
      modifies this
      ensures fresh(ch) && subs == old(subs) + {ch} && ch.View() == ChannelView(buffer, [], [], [])
    {
      ch := new Channel(buffer);
      subs := subs + {ch};
    }

    method Cancel(ch: Channel<T>)
      modifies this
      ensures subs == old(subs) - {ch}
    {
      subs := subs - {ch};
    }

    /** Each subscriber's channel takes its own step; the others' fullness does not matter. */
    method PublishAll(m: T)
      modifies subs
      ensures forall ch | ch in subs :: ch.View() == Step(old(ch.View()), Publish(m))
    {
      var todo := subs;
      while todo != {}
        invariant todo <= subs
        invariant forall ch | ch in subs ::
          ch.View() == if ch in todo then old(ch.View()) else Step(old(ch.View()), Publish(m))
      {
        var ch :| ch in todo;
        ch.Send(m);
        todo := todo - {ch};
      }
    }
  }

  datatype ChannelView<T> = ChannelView(capacity: nat, buffer: seq<T>, offered: seq<T>, taken: seq<T>)

  datatype ChannelEvent<T> = Publish(m: T) | Take

  function Step<T>(c: ChannelView<T>, e: ChannelEvent<T>): ChannelView<T> {
    match e
    case Publish(m) =>
      var buffer := if |c.buffer| < c.capacity then c.buffer + [m] else c.buffer;
      c.(buffer := buffer, offered := c.offered + [m])
    case Take =>
      if c.buffer == [] then c else c.(buffer := c.buffer[1..], taken := c.taken + [c.buffer[0]])
  }

  function Run<T>(capacity: nat, events: seq<ChannelEvent<T>>): ChannelView<T> {
    if events == [] then ChannelView(capacity, [], [], []) else
      Step(Run(capacity, events[..|events| - 1]), events[|events| - 1])
  }

  /** The messages that found the buffer full. */
  function Dropped<T>(capacity: nat, events: seq<ChannelEvent<T>>): nat {
    if events == [] then 0 else
      var front := events[..|events| - 1];
      Dropped(capacity, front)
      + if events[|events| - 1].Publish? && |Run(capacity, front).buffer| >= capacity then 1 else 0
  }

  ghost predicate InOrder<T>(c: ChannelView<T>, dropped: nat) {
    && |c.buffer| <= c.capacity
    && Subsequence(c.taken + c.buffer, c.offered)
    && |c.taken + c.buffer| + dropped == |c.offered|
    && (dropped == 0 ==> c.taken + c.buffer == c.offered)
  }

  lemma PublishKeepsOrder<T>(c: ChannelView<T>, dropped: nat, m: T)
    requires InOrder(c, dropped)
    ensures InOrder(Step(c, Publish(m)), if |c.buffer| >= c.capacity then dropped + 1 else dropped)
  {
    var next := Step(c, Publish(m));
    var was, got := c.taken + c.buffer, next.taken + next.buffer;
    assert next.offered[..|next.offered| - 1] == c.offered;
    if |c.buffer| < c.capacity {
      assert got == was + [m] && got[..|got| - 1] == was;
    } else {
      assert got == was;
    }
  }

  lemma TakeKeepsOrder<T>(c: ChannelView<T>, dropped: nat)
    requires InOrder(c, dropped)
    ensures InOrder(Step(c, Take), dropped)
  {
    assert Step(c, Take).taken + Step(c, Take).buffer == c.taken + c.buffer;
  }

  /** What a subscriber has received and still has buffered are the published messages in order, less
      the dropped ones: it is gap-free exactly when no message met a full buffer. */
  lemma {:induction false} DeliveredInOrder<T>(capacity: nat, events: seq<ChannelEvent<T>>)
    ensures var c := Run(capacity, events);
      && c.capacity == capacity
      && InOrder(c, Dropped(capacity, events))
      && (c.taken + c.buffer == c.offered <==> Dropped(capacity, events) == 0)
  {
    if events != [] {
      var front, last := events[..|events| - 1], events[|events| - 1];
      DeliveredInOrder(capacity, front);
      match last
      case Publish(m) => PublishKeepsOrder(Run(capacity, front), Dropped(capacity, front), m);
      case Take => TakeKeepsOrder(Run(capacity, front), Dropped(capacity, front));
    }
  }
}
