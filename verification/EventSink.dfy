/**
  The lossy event sink that reports its own losses.

  Events that the bounded queue refuses are counted, and the count goes out as
  a marker before the next event that gets through.  The queue is any queue:
  each attempt to send carries the verdict it met.
 */
module EventSink {
  import opened Machine

  datatype SendOutcome = Accepted | Full | Disconnected

  /** What travels to the editor: an event, or the report that `count` were lost in this place. */
  datatype Item<Event> = Delivered(event: Event) | EventsDropped(count: nat)

  /** How many emit calls an item accounts for. */
  function Weight<Event>(item: Item<Event>): nat {
    match item
    case Delivered(_) => 1
    case EventsDropped(count) => count
  }

  function Total<Event>(stream: seq<Item<Event>>): nat {
    if stream == [] then 0 else Total(stream[..|stream| - 1]) + Weight(stream[|stream| - 1])
  }

  function Markers<Event>(stream: seq<Item<Event>>): nat {
    if stream == [] then 0
    else Markers(stream[..|stream| - 1])
         + (if stream[|stream| - 1].EventsDropped? then stream[|stream| - 1].count else 0)
  }

  function Events<Event>(stream: seq<Item<Event>>): nat {
    if stream == [] then 0
    else Events(stream[..|stream| - 1]) + (if stream[|stream| - 1].Delivered? then 1 else 0)
  }

  /**
    Read in order, the stream spells out the emit calls: each event is the next call,
    each marker skips the lost ones.
   */
  predicate Explains<Event(==)>(stream: seq<Item<Event>>, calls: seq<Event>) {
    if stream == [] then calls == []
    else
      var last := stream[|stream| - 1];
      && 1 <= Weight(last) <= |calls|
      && (last.Delivered? ==> calls[|calls| - 1] == last.event)
      && Explains(stream[..|stream| - 1], calls[..|calls| - Weight(last)])
  }

  /** The stream explains all calls but the last `dropped`, which are the ones lost and not yet reported. */
  ghost predicate Accounts<Event>(stream: seq<Item<Event>>, calls: seq<Event>, dropped: nat) {
    dropped <= |calls| && Explains(stream, calls[..|calls| - dropped])
  }

  lemma Lost<Event>(stream: seq<Item<Event>>, calls: seq<Event>, dropped: nat, event: Event)
    requires Accounts(stream, calls, dropped)
    ensures Accounts(stream, calls + [event], dropped + 1)
  {
    assert (calls + [event])[..|calls| - dropped] == calls[..|calls| - dropped];
  }

  lemma Taken<Event>(stream: seq<Item<Event>>, calls: seq<Event>, event: Event)
    requires Accounts(stream, calls, 0)
    ensures Accounts(stream + [Delivered(event)], calls + [event], 0)
  {
    assert (stream + [Delivered(event)])[..|stream|] == stream;
    assert (calls + [event])[..|calls|] == calls == calls[..|calls|];
    assert (calls + [event])[..|calls| + 1] == calls + [event];
  }

  lemma Reported<Event>(stream: seq<Item<Event>>, calls: seq<Event>, dropped: nat)
    requires Accounts(stream, calls, dropped) && dropped > 0
    ensures Accounts(stream + [EventsDropped(dropped)], calls, 0)
  {
    assert (stream + [EventsDropped(dropped)])[..|stream|] == stream;
    assert calls[..|calls|] == calls;
  }

  lemma Balanced<Event>(stream: seq<Item<Event>>, calls: seq<Event>, dropped: nat)
    requires Accounts(stream, calls, dropped)
    ensures dropped <= |calls| && Events(stream) + Markers(stream) + dropped == |calls|
  {
    ExplainedTotals(stream, calls[..|calls| - dropped]);
  }

  function SaturatingIncrement(n: nat): nat {
    if n < USIZE_MAX then n + 1 else n
  }

  class Sink<Event(==)> {
    var dropped: nat
    ghost var connected: bool
    ghost var calls: seq<Event>          // every event emitted so far
    ghost var stream: seq<Item<Event>>   // everything the queue has taken

    /** The receiver is alive, and the count of losses cannot have saturated. */
    ghost predicate Counting()
      reads this
    {
      connected && |calls| <= USIZE_MAX
    }

    ghost predicate Valid()
      reads this
    {
      Counting() ==> Accounts(stream, calls, dropped)
    }

    constructor ()
      ensures Valid() && connected && calls == [] && stream == [] && dropped == 0
    {
      dropped, connected, calls, stream := 0, true, [], [];
    }

    /** Sends the pending marker, if there is one; true when none is pending any more. */
    method FlushDropped(send: SendOutcome) returns (flushed: bool)
      requires Valid()
      modifies this`dropped, this`stream, this`connected
      ensures Valid()
      ensures flushed == (old(dropped) == 0 || send.Accepted?)
      ensures dropped == if flushed then 0 else old(dropped)
      ensures stream == old(stream)
                        + (if old(dropped) > 0 && send.Accepted? then [EventsDropped(old(dropped))] else [])
      ensures connected == (old(connected) && (old(dropped) == 0 || !send.Disconnected?))
    {
      if dropped == 0 {
        return true;
      }
      match send {
        case Accepted =>
          if Counting() {
            Reported(stream, calls, dropped);
          }
          stream := stream + [EventsDropped(dropped)];
          dropped := 0;
          flushed := true;
        case Full => flushed := false;
        case Disconnected =>
          connected := false;
          flushed := false;
      }
    }

    /**
      One emit call, with the verdicts its at most three sends meet: the marker
      before the event, the event, and the marker after a refused event.
     */
    method Emit(event: Event, first: SendOutcome, second: SendOutcome, third: SendOutcome)
      requires Valid()
      modifies this
      ensures Valid()
      ensures calls == old(calls) + [event]
      ensures Counting() ==> dropped <= |calls| && Events(stream) + Markers(stream) + dropped == |calls|
      ensures var marker := if old(dropped) > 0 && first.Accepted? then [EventsDropped(old(dropped))] else [];
              var through := old(dropped) == 0 || first.Accepted?;
              && stream == old(stream) + marker
                           + (if !through then []
                              else if second.Accepted? then [Delivered(event)]
                              else if second.Full? && third.Accepted? then [EventsDropped(1)]
                              else [])
              && (Counting() ==>
                    dropped == if !through then old(dropped) + 1 else if second.Full? && third.Full? then 1 else 0)
    {
      hide Accounts;
      if Counting() {
        Balanced(stream, calls, dropped);
      }
      var flushed := FlushDropped(first);
      if Counting() {
        Lost(stream, calls, dropped, event);
        if dropped == 0 {
          Taken(stream, calls, event);
        }
      }
      calls := calls + [event];
      if !flushed {
        dropped := SaturatingIncrement(dropped);
      } else {
        match second {
          case Accepted => stream := stream + [Delivered(event)];
          case Full =>
            dropped := SaturatingIncrement(dropped);
            var _ := FlushDropped(third);
          case Disconnected => connected := false;
        }
      }
      if Counting() {
        Balanced(stream, calls, dropped);
      }
    }
  }

  /** Delivered plus reported is everything the stream explains. */
  lemma {:induction false} ExplainedTotals<Event>(stream: seq<Item<Event>>, calls: seq<Event>)
    requires Explains(stream, calls)
    ensures Total(stream) == |calls| && Events(stream) + Markers(stream) == |calls|
    decreases |stream|
  {
    if stream != [] {
      ExplainedTotals(stream[..|stream| - 1], calls[..|calls| - Weight(stream[|stream| - 1])]);
    }
  }

  /** The event at place `i` of the stream is the emit call whose number is the total of what stands before it. */
  lemma {:induction false} PlaceOf<Event>(stream: seq<Item<Event>>, calls: seq<Event>, i: nat)
    requires Explains(stream, calls) && i < |stream| && stream[i].Delivered?
    ensures Total(stream[..i]) < |calls| && calls[Total(stream[..i])] == stream[i].event
    decreases |stream|
  {
    var n := |stream| - 1;
    ExplainedTotals(stream[..n], calls[..|calls| - Weight(stream[n])]);
    if i < n {
      PlaceOf(stream[..n], calls[..|calls| - Weight(stream[n])], i);
      assert stream[..n][..i] == stream[..i];
    }
  }

  lemma {:induction false} TotalAppend<Event>(a: seq<Item<Event>>, b: seq<Item<Event>>)
    ensures Total(a + b) == Total(a) + Total(b)
    decreases |b|
  {
    if b == [] {
      assert a + b == a;
    } else {
      TotalAppend(a, b[..|b| - 1]);
      assert (a + b)[..|a + b| - 1] == a + b[..|b| - 1];
    }
  }

  /**
    Losses are reported exactly in place: between two events delivered one
    after the other, the markers add up to the number of emit calls that were
    made between those two.
   */
  lemma LossReportedInPlace<Event>(stream: seq<Item<Event>>, calls: seq<Event>, i: nat, j: nat)
    requires Explains(stream, calls) && i < j < |stream| && stream[i].Delivered? && stream[j].Delivered?
    requires forall k | i < k < j :: stream[k].EventsDropped?
    ensures var a, b := Total(stream[..i]), Total(stream[..j]);
            && a < b < |calls| && calls[a] == stream[i].event && calls[b] == stream[j].event
            && Total(stream[i + 1..j]) == b - a - 1
  {
    PlaceOf(stream, calls, i);
    PlaceOf(stream, calls, j);
    assert stream[..j] == stream[..i] + [stream[i]] + stream[i + 1..j];
    TotalAppend(stream[..i] + [stream[i]], stream[i + 1..j]);
    TotalAppend(stream[..i], [stream[i]]);
    assert [stream[i]][..0] == [];
  }
}
