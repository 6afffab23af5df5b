/** The SSE broadcaster: a bounded replay ring and one lossy bounded queue per client. */
module Sse {
  import opened Options

  datatype Event = Event(id: string, body: string)

  /** Appending to a ring of `size` slots forgets the oldest events. */
  function Append(ring: seq<Event>, size: nat, e: Event): seq<Event> {
    var grown := ring + [e];
    if |grown| > size then grown[|grown| - size..] else grown
  }

  /** A queue of no positive size is unbounded. */
  predicate Full(queue: seq<Event>, maxSize: int) { 0 < maxSize <= |queue| }

  /** A full queue discards its oldest event to make room. */
  function Offer(queue: seq<Event>, maxSize: int, e: Event): seq<Event> {
    if Full(queue, maxSize) then queue[1..] + [e] else queue + [e]
  }

  predicate Knows(ring: seq<Event>, id: string) { exists i :: 0 <= i < |ring| && ring[i].id == id }

  class SSEBroadcaster {
    const maxBuffer: int
    const ringSize: nat
    var clients: map<string, seq<Event>>
    var replayBuffer: seq<Event>

    constructor (maxBuffer: int, ringSize: nat)
      ensures this.maxBuffer == maxBuffer && this.ringSize == ringSize
      ensures clients == map[] && replayBuffer == []
    {
      this.maxBuffer, this.ringSize := maxBuffer, ringSize;
      clients, replayBuffer := map[], [];
    }

    method HandleEvent(e: Event)
      modifies this`clients, this`replayBuffer
      ensures replayBuffer == Append(old(replayBuffer), ringSize, e)
      ensures clients == map c | c in old(clients) :: Offer(old(clients)[c], maxBuffer, e)
    {
      replayBuffer := replayBuffer + [e];
      if |replayBuffer| > ringSize {
        replayBuffer := replayBuffer[|replayBuffer| - ringSize..];
      }
      var ids := clients.Keys;
      while ids != {}
        invariant ids <= old(clients).Keys == clients.Keys
        invariant replayBuffer == Append(old(replayBuffer), ringSize, e)
        invariant forall c :: c in clients ==>
          clients[c] == if c in ids then old(clients)[c] else Offer(old(clients)[c], maxBuffer, e)
        decreases ids
      {
        var c :| c in ids;
        var q := clients[c];
        if Full(q, maxBuffer) {
          q := q[1..];
        }
        clients := clients[c := q + [e]];
        ids := ids - {c};
      }
    }

    method RegisterClient(id: string)
      requires id !in clients
      modifies this`clients
      ensures clients == old(clients)[id := []]
    {
      clients := clients[id := []];
    }

    method UnregisterClient(id: string)
      modifies this`clients
      ensures clients == old(clients) - {id}
    {
      clients := clients - {id};
    }

    /** The events after the first one called `last`; none when the ring does not know it. */
    method GetReplayEvents(last: string) returns (missed: seq<Event>)
      ensures missed == After(replayBuffer, last)
    {
      var items := replayBuffer;
      for i := 0 to |items|
        invariant forall j :: 0 <= j < i ==> items[j].id != last
      {
        if items[i].id == last {
          AfterFirst(items, last, i);
          return items[i + 1..];
        }
      }
      AfterUnknown(items, last);
      return [];
    }
  }

  /** The events strictly after the first one called `last`. */
  function After(ring: seq<Event>, last: string): seq<Event> {
    if ring == [] then [] else if ring[0].id == last then ring[1..] else After(ring[1..], last)
  }

  lemma {:induction false} AfterFirst(ring: seq<Event>, last: string, i: nat)
    requires i < |ring| && ring[i].id == last
    requires forall j :: 0 <= j < i ==> ring[j].id != last
    ensures After(ring, last) == ring[i + 1..]
  {
    if i > 0 {
      AfterFirst(ring[1..], last, i - 1);
    }
  }

  lemma {:induction false} AfterUnknown(ring: seq<Event>, last: string)
    requires !Knows(ring, last)
    ensures After(ring, last) == []
  {
    if ring != [] {
      assert ring[0].id != last;
      assert forall i :: 0 <= i < |ring| - 1 ==> ring[1..][i] == ring[i + 1];
      AfterUnknown(ring[1..], last);
    }
  }
}
