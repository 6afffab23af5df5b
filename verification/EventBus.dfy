/** Event fan-out: local dispatch, a broadcast, and a listener that dispatches what others broadcast. */
module EventBus {
  import opened Options

  // ----- one process -----

  datatype Event = Event(kind: string, payload: string)

  datatype Envelope = Envelope(sender: string, event: Event)

  /** One invocation of a registered handler. */
  datatype Call = Call(handler: string, event: Event)

  /** Every handler is invoked once for each time it was registered, those of the type first. */
  function CallsFor(handlers: seq<string>, event: Event): (calls: seq<Call>)
    ensures |calls| == |handlers|
    ensures forall i :: 0 <= i < |handlers| ==> calls[i].handler == handlers[i] && calls[i].event == event
  {
    seq(|handlers|, i requires 0 <= i < |handlers| => Call(handlers[i], event))
  }

  /** Whether the listener of process `id` dispatches what it read: not its own reflection, and only what can
      be rebuilt. */
  predicate Dispatches(envelope: Envelope, id: string, rebuilt: bool) { envelope.sender != id && rebuilt }

  class EventBus {
    const id: string
    var subscribers: map<string, seq<string>>
    var allSubscribers: seq<string>
    var published: nat
    var received: nat
    /** The handler invocations so far, in order. */
    var calls: seq<Call>

    function Handlers(kind: string): seq<string>
      reads this
    {
      (if kind in subscribers then subscribers[kind] else []) + allSubscribers
    }

    constructor (id: string)
      ensures this.id == id && calls == [] && published == received == 0
      ensures forall kind :: Handlers(kind) == []
    {
      this.id := id;
      subscribers, allSubscribers, calls, published, received := map[], [], [], 0, 0;
    }

    method Subscribe(kind: string, handler: string)
      modifies this`subscribers
      ensures multiset(Handlers(kind)) == multiset(old(Handlers(kind))) + multiset{handler}
      ensures forall other :: other != kind ==> Handlers(other) == old(Handlers(other))
    {
      var typed := if kind in subscribers then subscribers[kind] else [];
      subscribers := subscribers[kind := typed + [handler]];
    }

    method SubscribeAll(handler: string)
      modifies this`allSubscribers
      ensures forall kind :: Handlers(kind) == old(Handlers(kind)) + [handler]
    {
      allSubscribers := allSubscribers + [handler];
    }

    method DispatchLocal(event: Event)
      modifies this`calls
      ensures calls == old(calls) + CallsFor(Handlers(event.kind), event)
      ensures |calls| == |old(calls)| + |Handlers(event.kind)|
      ensures forall i :: 0 <= i < |Handlers(event.kind)| ==>
                calls[|old(calls)| + i] == Call(Handlers(event.kind)[i], event)
    {
      var handlers := Handlers(event.kind);
      for i := 0 to |handlers|
        invariant Handlers(event.kind) == handlers
        invariant calls == old(calls) + CallsFor(handlers, event)[..i]
      {
        assert CallsFor(handlers, event)[..i + 1] == CallsFor(handlers, event)[..i] + [Call(handlers[i], event)];
        calls := calls + [Call(handlers[i], event)];
      }
    }

    /** What is handed to the transport is returned. */
    method Publish(event: Event, broadcast: bool, transport: bool) returns (sent: Option<Envelope>)
      modifies this`calls, this`published
      ensures calls == old(calls) + CallsFor(Handlers(event.kind), event) && published == old(published) + 1
      ensures sent == if broadcast && transport then Some(Envelope(id, event)) else None
    {
      published := published + 1;
      DispatchLocal(event);
      sent := if broadcast && transport then Some(Envelope(id, event)) else None;
    }

    /** A message read by the listener; it sends nothing, and counts an event even if it cannot be rebuilt. */
    method Receive(envelope: Envelope, rebuilt: bool)
      modifies this`calls, this`received
      ensures received == old(received) + if envelope.sender == id then 0 else 1
      ensures envelope.sender == id || !rebuilt ==> calls == old(calls)
      ensures envelope.sender != id && rebuilt ==>
                calls == old(calls) + CallsFor(Handlers(envelope.event.kind), envelope.event)
      ensures calls == if Dispatches(envelope, id, rebuilt)
                       then old(calls) + CallsFor(Handlers(envelope.event.kind), envelope.event) else old(calls)
    {
      if envelope.sender == id {
        return;
      }
      received := received + 1;
      if rebuilt {
        DispatchLocal(envelope.event);
      }
    }
  }

  // ----- any number of processes -----

  /** A dispatch, or a copy on its way: the event with that number at that process. */
  datatype At = At(process: string, event: nat)

  /** The envelope of each event published so far, which names its publisher; the events whose broadcast is
      still to come; the dispatches; and the copies ever handed to a listener's queue, still queued, and gone
      without a dispatch. */
  datatype World = World(
    published: seq<Envelope>, toSend: set<nat>, dispatched: multiset<At>,
    copied: multiset<At>, queued: multiset<At>, dropped: multiset<At>)

  const START := World([], {}, multiset{}, multiset{}, multiset{}, multiset{})

  /** A publish is its local dispatch and then its broadcast, which reaches each listener at most once, and
      perhaps none; the queue of a listener may be lost. */
  datatype Step =
    | Dispatch(process: string, content: Event, broadcast: bool)
    | Broadcast(event: nat, reached: set<string>)
    | Listen(copy: At, rebuilt: bool)
    | Lose(copy: At)

  predicate Enabled(w: World, step: Step) {
    match step
    case Dispatch(_, _, _) => true
    case Broadcast(event, _) => event in w.toSend
    case Listen(copy, _) => copy in w.queued
    case Lose(copy) => copy in w.queued
  }

  predicate Own(published: seq<Envelope>, at: At) {
    at.event < |published| && published[at.event].sender == at.process
  }

  ghost function Copies(event: nat, reached: set<string>): multiset<At> {
    multiset(set process | process in reached :: At(process, event))
  }

  ghost function Next(w: World, step: Step): World {
    match step
    case Dispatch(process, content, broadcast) =>
      var n := |w.published|;
      w.(published := w.published + [Envelope(process, content)],
         toSend := if broadcast then w.toSend + {n} else w.toSend,
         dispatched := w.dispatched + multiset{At(process, n)})
    case Broadcast(event, reached) =>
      w.(toSend := w.toSend - {event},
         copied := w.copied + Copies(event, reached),
         queued := w.queued + Copies(event, reached))
    case Listen(copy, rebuilt) =>
      var rest := w.(queued := w.queued - multiset{copy});
      if copy.event < |w.published| && Dispatches(w.published[copy.event], copy.process, rebuilt)
      then rest.(dispatched := w.dispatched + multiset{copy})
      else rest.(dropped := w.dropped + multiset{copy})
    case Lose(copy) => w.(queued := w.queued - multiset{copy}, dropped := w.dropped + multiset{copy})
  }

  ghost function Run(steps: seq<Step>): World {
    if steps == [] then START else Next(Run(steps[..|steps| - 1]), steps[|steps| - 1])
  }

  ghost predicate ValidRun(steps: seq<Step>) {
    steps == [] ||
    var before, last := steps[..|steps| - 1], steps[|steps| - 1];
    ValidRun(before) && Enabled(Run(before), last)
  }

  /** What holds of one event at one process: no copy before the broadcast and one at most, every copy
      queued, dropped or dispatched; at the publisher one dispatch, and never one of a copy. */
  predicate Accounted(w: World, at: At) {
    && w.copied[at] <= 1
    && (at.event >= |w.published| || at.event in w.toSend ==> w.copied[at] == 0)
    && w.queued[at] + w.dropped[at] + w.dispatched[at] == w.copied[at] + (if Own(w.published, at) then 1 else 0)
    && (Own(w.published, at) ==> w.dispatched[at] == 1)
  }

  predicate KnownToSend(w: World) { forall event :: event in w.toSend ==> event < |w.published| }

  lemma StepKeepsAccounts(w: World, step: Step, at: At)
    requires Accounted(w, at) && KnownToSend(w) && Enabled(w, step)
    ensures Accounted(Next(w, step), at) && KnownToSend(Next(w, step))
  {
  }

  lemma {:induction false} EveryRunIsAccounted(steps: seq<Step>, at: At)
    requires ValidRun(steps)
    ensures Accounted(Run(steps), at) && KnownToSend(Run(steps))
  {
    if steps != [] {
      var before := steps[..|steps| - 1];
      EveryRunIsAccounted(before, at);
      StepKeepsAccounts(Run(before), steps[|steps| - 1], at);
    }
  }

  /** Main result: on every run each published event is dispatched exactly once at its publisher; at any
      other process at most once, and exactly when a copy reached it that is neither queued nor dropped. */
  lemma DispatchedOnce(steps: seq<Step>, event: nat, process: string)
    requires ValidRun(steps) && event < |Run(steps).published|
    ensures var w, at := Run(steps), At(process, event);
            && (process == w.published[event].sender ==> w.dispatched[at] == 1)
            && (process != w.published[event].sender ==>
                  && w.dispatched[at] <= 1
                  && (w.dispatched[at] == 1 <==> at in w.copied && at !in w.queued && at !in w.dropped))
  {
    EveryRunIsAccounted(steps, At(process, event));
  }

  /** A broadcast puts a copy into the queue of every process it reaches, and a copy that is read at another process
      and can be rebuilt is dispatched there. */
  lemma CopiesAreDispatched(steps: seq<Step>, event: nat, reached: set<string>, process: string)
    requires ValidRun(steps) && event in Run(steps).toSend && process in reached
    ensures event < |Run(steps).published|
    ensures var w, at := Run(steps), At(process, event);
            var sent := Next(w, Broadcast(event, reached));
            && at in sent.queued && at in sent.copied
            && (process != w.published[event].sender ==>
                  Next(sent, Listen(at, true)).dispatched[at] == w.dispatched[at] + 1)
            && (process == w.published[event].sender ==> Next(sent, Listen(at, true)).dispatched == w.dispatched)
  {
    EveryRunIsAccounted(steps, At(process, event));
    assert At(process, event) in Copies(event, reached);
  }

  function Broadcasts(steps: seq<Step>, event: nat): nat {
    if steps == [] then 0
    else
      var last := steps[|steps| - 1];
      Broadcasts(steps[..|steps| - 1], event) + if last.Broadcast? && last.event == event then 1 else 0
  }

  function BroadcastRequests(steps: seq<Step>): nat {
    if steps == [] then 0
    else
      var last := steps[|steps| - 1];
      BroadcastRequests(steps[..|steps| - 1]) + if last.Dispatch? && last.broadcast then 1 else 0
  }

  function AllBroadcasts(steps: seq<Step>): nat {
    if steps == [] then 0
    else AllBroadcasts(steps[..|steps| - 1]) + if steps[|steps| - 1].Broadcast? then 1 else 0
  }

  lemma StepCountsBroadcasts(w: World, step: Step)
    requires Enabled(w, step) && KnownToSend(w)
    ensures var after := Next(w, step);
            && KnownToSend(after)
            && |after.toSend| + (if step.Broadcast? then 1 else 0)
               == |w.toSend| + (if step.Dispatch? && step.broadcast then 1 else 0)
            && |w.published| <= |after.published|
            && (forall event: nat :: event in after.toSend ==> event in w.toSend || event == |w.published|)
            && (step.Broadcast? ==> step.event in w.toSend && step.event !in after.toSend)
  {
  }

  /** Main result: listening never causes a broadcast. However many processes listen, each event is broadcast
      at most once, and the broadcasts done and to come are exactly the publishes that asked for one. */
  lemma {:induction false} NoRebroadcast(steps: seq<Step>, event: nat)
    requires ValidRun(steps)
    ensures var w := Run(steps);
            && Broadcasts(steps, event) + (if event in w.toSend then 1 else 0)
               <= (if event < |w.published| then 1 else 0)
            && AllBroadcasts(steps) + |w.toSend| == BroadcastRequests(steps)
            && KnownToSend(w)
  {
    if steps != [] {
      var before, last := steps[..|steps| - 1], steps[|steps| - 1];
      NoRebroadcast(before, event);
      StepCountsBroadcasts(Run(before), last);
    }
  }
}
