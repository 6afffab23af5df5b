/** What the replay ring and the client queues hold at any moment, and whom the ring can resume. */
module SseBuffers {
  import opened Options
  import opened Sequences
  import opened Sse
  import opened SseDelivery

  /** The last `n` elements, or all if there are fewer. */
  function Newest(p: seq<Event>, n: nat): seq<Event> { if |p| <= n then p else p[|p| - n..] }

  lemma NewestOfMore(p: seq<Event>, n: nat, e: Event)
    ensures Newest(Newest(p, n) + [e], n) == Newest(p + [e], n)
  {
  }

  lemma AppendKeepsNewest(ring: seq<Event>, n: nat, e: Event)
    ensures Append(ring, n, e) == Newest(ring + [e], n)
  {
  }

  lemma {:induction false} SameRingSize(w: World, steps: seq<Step>)
    ensures Run(w, steps).ringSize == w.ringSize
    decreases |steps|
  {
    if steps != [] {
      SameRingSize(w, steps[..|steps| - 1]);
    }
  }

  lemma StepKeepsRing(w: World, step: Step)
    requires w.ring == Newest(w.published, w.ringSize)
    ensures Next(w, step).ring == Newest(Next(w, step).published, w.ringSize)
  {
    if step.Publish? && !Knows(w.published, step.e.id) {
      AppendKeepsNewest(w.ring, w.ringSize, step.e);
      NewestOfMore(w.published, w.ringSize, step.e);
    }
  }

  /** Main result: on every run the ring holds exactly the events published last, as many as it has slots. */
  lemma {:induction false} RingHoldsNewest(maxBuffer: int, ringSize: nat, steps: seq<Step>)
    ensures var w := Run(Start(maxBuffer, ringSize), steps); w.ring == Newest(w.published, ringSize)
    decreases |steps|
  {
    if steps != [] {
      RingHoldsNewest(maxBuffer, ringSize, steps[..|steps| - 1]);
      SameRingSize(Start(maxBuffer, ringSize), steps[..|steps| - 1]);
      StepKeepsRing(Run(Start(maxBuffer, ringSize), steps[..|steps| - 1]), steps[|steps| - 1]);
    }
  }

  // ----- resuming -----

  lemma NewestKnows(p: seq<Event>, n: nat, i: nat)
    requires UniqueIds(p) && i < |p|
    ensures Knows(Newest(p, n), p[i].id) <==> |p| - n <= i
  {
    var shift := if |p| <= n then 0 else |p| - n;
    assert Newest(p, n) == p[shift..];
    if shift <= i {
      assert p[shift..][i - shift] == p[i];
    }
  }

  lemma AfterNewest(p: seq<Event>, n: nat, i: nat)
    requires UniqueIds(p) && i < |p| && |p| - n <= i
    ensures After(Newest(p, n), p[i].id) == p[i + 1..]
  {
    var shift := if |p| <= n then 0 else |p| - n;
    assert Newest(p, n) == p[shift..];
    assert forall j :: 0 <= j < i - shift ==> p[shift..][j] == p[shift + j];
    AfterFirst(p[shift..], p[i].id, i - shift);
    assert p[shift..][i - shift + 1..] == p[i + 1..];
  }

  lemma SnapshotIsOneStep(w: World, c: string)
    requires c in w.sessions && w.sessions[c].phase.Greeting?
    ensures c in Next(w, Snapshot(c)).sessions
    ensures Next(w, Snapshot(c)).sessions[c] == TakeSnapshot(w.published, w.ring, w.sessions[c])
  {
  }

  lemma SnapshotOfNewest(p: seq<Event>, n: nat, s: Session, i: nat)
    requires UniqueIds(p) && i < |p| && s.lastEventId == Some(p[i].id) && GreetingOk(s)
    ensures var t := TakeSnapshot(p, Newest(p, n), s);
            if |p| - n <= i then t.resumed && t.from == i + 1 && t.cut == |p| && t.phase == Replaying(p[i + 1..])
            else t == s.(phase := Replaying([]))
  {
    NewestKnows(p, n, i);
    if |p| - n <= i {
      AfterNewest(p, n, i);
    } else {
      AfterUnknown(Newest(p, n), p[i].id);
    }
  }

  /** Main result: a client that names a published event is resumed right behind it, with everything after it still
      to be replayed, if and only if the event is among the last `ringSize` published when the snapshot is taken;
      otherwise nothing is replayed. */
  lemma ResumedIffRecent(maxBuffer: int, ringSize: nat, steps: seq<Step>, c: string, i: nat)
    requires var w := Run(Start(maxBuffer, ringSize), steps);
             && c in w.sessions && w.sessions[c].phase.Greeting? && c in w.queues
             && i < |w.published| && w.sessions[c].lastEventId == Some(w.published[i].id)
    ensures var w := Run(Start(maxBuffer, ringSize), steps);
            var after := Next(w, Snapshot(c));
            && c in after.sessions
            && (after.sessions[c].resumed <==> |w.published| - ringSize <= i)
            && (after.sessions[c].resumed ==>
                  && after.sessions[c].from == i + 1
                  && after.sessions[c].phase == Replaying(w.published[i + 1..]))
            && (!after.sessions[c].resumed ==> after.sessions[c].phase == Replaying([]))
  {
    var w := Run(Start(maxBuffer, ringSize), steps);
    EveryRunIsOk(maxBuffer, ringSize, steps);
    RingHoldsNewest(maxBuffer, ringSize, steps);
    assert ClientOk(w, c);
    SnapshotOfNewest(w.published, ringSize, w.sessions[c], i);
    SnapshotIsOneStep(w, c);
  }

  // ----- the queues -----

  /** A bounded queue never holds more than its size. */
  predicate HasRoom(q: seq<Event>, max: int) { max > 0 ==> |q| <= max }

  /** An offered event is queued; a bounded queue keeps the newest that fit, an unbounded one keeps all. */
  lemma OfferKeepsNewest(q: seq<Event>, max: int, e: Event)
    requires HasRoom(q, max)
    ensures Offer(q, max, e) == if max > 0 then Newest(q + [e], max) else q + [e]
    ensures HasRoom(Offer(q, max, e), max)
  {
  }

  ghost predicate QueuesHaveRoom(w: World) { forall c :: c in w.queues ==> HasRoom(w.queues[c], w.maxBuffer) }

  lemma {:induction false} EveryQueueHasRoom(maxBuffer: int, ringSize: nat, steps: seq<Step>)
    ensures QueuesHaveRoom(Run(Start(maxBuffer, ringSize), steps))
    decreases |steps|
  {
    if steps != [] {
      EveryQueueHasRoom(maxBuffer, ringSize, steps[..|steps| - 1]);
      StepKeepsRoom(Run(Start(maxBuffer, ringSize), steps[..|steps| - 1]), steps[|steps| - 1]);
    }
  }

  lemma StepKeepsRoom(w: World, step: Step)
    requires QueuesHaveRoom(w)
    ensures QueuesHaveRoom(Next(w, step))
  {
    var after := Next(w, step);
    forall c | c in after.queues ensures HasRoom(after.queues[c], after.maxBuffer) {
      if c in w.queues && step.Publish? {
        OfferKeepsNewest(w.queues[c], w.maxBuffer, step.e);
      }
    }
  }

  /** Main result: on every run, publishing a new event puts it into every registered queue, at the cost of at most
      the oldest event queued there, and of that one only when the queue is full. */
  lemma PublishReachesAll(maxBuffer: int, ringSize: nat, steps: seq<Step>, e: Event, c: string)
    requires var w := Run(Start(maxBuffer, ringSize), steps); c in w.queues && !Knows(w.published, e.id)
    ensures var w := Run(Start(maxBuffer, ringSize), steps);
            var after := Next(w, Publish(e));
            && after.published == w.published + [e] && c in after.queues
            && after.queues[c] == if maxBuffer > 0 then Newest(w.queues[c] + [e], maxBuffer) else w.queues[c] + [e]
  {
    EveryQueueHasRoom(maxBuffer, ringSize, steps);
    SameMaxBuffer(Start(maxBuffer, ringSize), steps);
    OfferKeepsNewest(Run(Start(maxBuffer, ringSize), steps).queues[c], maxBuffer, e);
  }

  // ----- which queues are registered -----

  /** The step takes a client away that was still being greeted or replayed to. */
  predicate LeavesEarly(w: World, step: Step, c: string) {
    step == Disconnect(c) && c in w.sessions && (w.sessions[c].phase.Greeting? || w.sessions[c].phase.Replaying?)
  }

  ghost predicate LeftEarly(w: World, steps: seq<Step>, c: string)
    decreases |steps|
  {
    steps != [] && (var before := steps[..|steps| - 1];
                    LeftEarly(w, before, c) || LeavesEarly(Run(w, before), steps[|steps| - 1], c))
  }

  /** The queue is there exactly if the client is connected or has left early. */
  predicate Registered(w: World, c: string, early: bool) {
    && (c in w.queues <==> c in w.sessions && (!w.sessions[c].phase.Gone? || early))
    && (early ==> c in w.sessions && w.sessions[c].phase.Gone?)
  }

  lemma StepRegisters(w: World, step: Step, c: string, early: bool)
    requires Registered(w, c, early)
    ensures Registered(Next(w, step), c, early || LeavesEarly(w, step, c))
  {
  }

  /** Main result: on every run a queue is registered exactly while its client is connected, except that the queue of
      a client that left before it went live is never given back. */
  lemma {:induction false} RegisteredWhileConnected(maxBuffer: int, ringSize: nat, steps: seq<Step>, c: string)
    ensures var start := Start(maxBuffer, ringSize);
            Registered(Run(start, steps), c, LeftEarly(start, steps, c))
    decreases |steps|
  {
    if steps != [] {
      var start, before := Start(maxBuffer, ringSize), steps[..|steps| - 1];
      RegisteredWhileConnected(maxBuffer, ringSize, before, c);
      StepRegisters(Run(start, before), steps[|steps| - 1], c, LeftEarly(start, before, c));
    }
  }

  // ----- catching up -----

  function Times(step: Step, n: nat): seq<Step> { seq(n, _ => step) }

  lemma {:induction false} RunIsFold(w: World, steps: seq<Step>)
    ensures Run(w, steps) == Fold(Next, w, steps)
    decreases |steps|
  {
    if steps != [] {
      RunIsFold(w, steps[..|steps| - 1]);
    }
  }

  lemma RunSplit(w: World, first: seq<Step>, second: seq<Step>)
    ensures Run(w, first + second) == Run(Run(w, first), second)
  {
    RunIsFold(w, first + second);
    RunIsFold(w, first);
    RunIsFold(Run(w, first), second);
    FoldSplit(Next, w, first, second);
  }

  lemma RunOne(w: World, step: Step)
    ensures Run(w, [step]) == Next(w, step)
  {
    assert [step][..0] == [];
    assert Run(w, [step][..0]) == w;
  }

  lemma RunFirst(w: World, step: Step, rest: seq<Step>)
    ensures Run(w, [step] + rest) == Run(Next(w, step), rest)
  {
    RunSplit(w, [step], rest);
    RunOne(w, step);
  }

  lemma ReplayIsOneStep(w: World, c: string)
    requires c in w.sessions && w.sessions[c].phase.Replaying?
    ensures var after, todo := Next(w, Replay(c)), w.sessions[c].phase.todo;
            && after.published == w.published && after.queues == w.queues && c in after.sessions
            && after.sessions[c].delivered == w.sessions[c].delivered + (if todo == [] then [] else [todo[0]])
            && after.sessions[c].phase == if todo == [] then Live else Replaying(todo[1..])
  {
  }

  /** A replay comes to its end: after one step for each event and one more the client is live and has been sent
      them all. */
  lemma {:induction false} ReplayEnds(w: World, c: string, n: nat)
    requires c in w.sessions && w.sessions[c].phase.Replaying? && |w.sessions[c].phase.todo| == n
    ensures var after := Run(w, Times(Replay(c), n + 1));
            && after.published == w.published && after.queues == w.queues
            && c in after.sessions && after.sessions[c].phase.Live?
            && after.sessions[c].delivered == w.sessions[c].delivered + w.sessions[c].phase.todo
    decreases n
  {
    ReplayIsOneStep(w, c);
    RunFirst(w, Replay(c), Times(Replay(c), n));
    assert Times(Replay(c), n + 1) == [Replay(c)] + Times(Replay(c), n);
    if n == 0 {
      assert Times(Replay(c), 0) == [];
    } else {
      ReplayEnds(Next(w, Replay(c)), c, n - 1);
    }
  }

  /** The client is live, and everything that was published has left its queue. */
  ghost predicate Drained(w: World, c: string, published: seq<Event>) {
    && w.published == published && c in w.sessions && w.sessions[c].phase.Live?
    && c in w.queues && w.queues[c] == []
  }

  /** A live client's queue empties: after one read for each event in it nothing is left. */
  lemma {:induction false} ReadsDrain(w: World, c: string, n: nat)
    requires c in w.sessions && w.sessions[c].phase.Live? && c in w.queues && |w.queues[c]| == n
    ensures Drained(Run(w, Times(Read(c), n)), c, w.published)
    decreases n
  {
    if n == 0 {
      assert Times(Read(c), 0) == [];
    } else {
      ReadIsOneStep(w, c);
      RunFirst(w, Read(c), Times(Read(c), n - 1));
      assert Times(Read(c), n) == [Read(c)] + Times(Read(c), n - 1);
      ReadsDrain(Next(w, Read(c)), c, n - 1);
    }
  }

  /** The client has been served all that was ever published: if it named the past, all of it from behind the named
      event, less what its full queue dropped. */
  ghost predicate CaughtUp(w: World, c: string)
    requires c in w.sessions
  {
    var s := w.sessions[c];
    s.from <= |w.published|
    && (NamedThePast(s) ==> s.delivered == Kept(w.published, s.from, |w.published|, Missed(s.dropped, s.cut)))
  }

  lemma DrainedIsCaughtUp(w: World, c: string, published: seq<Event>)
    requires WorldOk(w) && Drained(w, c, published)
    ensures CaughtUp(w, c)
  {
    assert ClientOk(w, c);
    SessionIsExactIff(w.published, w.maxBuffer, w.queues[c], w.sessions[c]);
  }

  lemma DrainsAfter(w: World, steps: seq<Step>, c: string, n: nat)
    requires var v := Run(w, steps);
             c in v.sessions && v.sessions[c].phase.Live? && c in v.queues && |v.queues[c]| == n
    ensures Drained(Run(w, steps + Times(Read(c), n)), c, Run(w, steps).published)
  {
    ReadsDrain(Run(w, steps), c, n);
    RunSplit(w, steps, Times(Read(c), n));
  }

  /** Main result: from any run, a live client that reads on while nothing is published catches up. */
  lemma QuietClientCatchesUp(maxBuffer: int, ringSize: nat, steps: seq<Step>, c: string)
    requires var w := Run(Start(maxBuffer, ringSize), steps);
             c in w.sessions && w.sessions[c].phase.Live? && c in w.queues
    ensures var w := Run(Start(maxBuffer, ringSize), steps);
            var after := Run(Start(maxBuffer, ringSize), steps + Times(Read(c), |w.queues[c]|));
            Drained(after, c, w.published) && CaughtUp(after, c)
  {
    var start := Start(maxBuffer, ringSize);
    var n := |Run(start, steps).queues[c]|;
    DrainsAfter(start, steps, c, n);
    EveryRunIsOk(maxBuffer, ringSize, steps + Times(Read(c), n));
    DrainedIsCaughtUp(Run(start, steps + Times(Read(c), n)), c, Run(start, steps).published);
  }
}
