/** What a resuming client receives, under every interleaving of publishing, replay and reading. */
module SseDelivery {
  import opened Options
  import opened Sse

  datatype Phase = Greeting | Replaying(todo: seq<Event>) | Live | Gone

  /** One client generator. The last five fields are history: how much was published when it
      registered, where the events owed to it start, what was published when it took its replay
      snapshot, whether the ring knew its Last-Event-ID, and which events fell out of its queue. */
  datatype Session = Session(
    phase: Phase, lastEventId: Option<string>, replayed: set<string>, delivered: seq<Event>,
    joined: nat, from: nat, cut: nat, resumed: bool, dropped: set<nat>)

  datatype World = World(
    maxBuffer: int, ringSize: nat, published: seq<Event>, ring: seq<Event>,
    queues: map<string, seq<Event>>, sessions: map<string, Session>)

  /** The atomic steps of the broadcaster and of the generators. */
  datatype Step =
    | Publish(e: Event)
    | Connect(c: string, last: Option<string>)
    | Snapshot(c: string)
    | Replay(c: string)
    | Read(c: string)
    | Disconnect(c: string)

  function Start(maxBuffer: int, ringSize: nat): World {
    World(maxBuffer, ringSize, [], [], map[], map[])
  }

  /** The position, in publication order, of the oldest event still queued. */
  function Head(p: seq<Event>, q: seq<Event>): int { |p| - |q| }

  /** The history of a session whose queue `q` is offered one more event. */
  function Overflow(p: seq<Event>, max: int, q: seq<Event>, s: Session): Session {
    if Full(q, max) && |q| <= |p| then s.(dropped := s.dropped + {Head(p, q)}) else s
  }

  /** One step; a step that cannot happen leaves the world as it is. Event and client ids are never
      reused. */
  function Next(w: World, step: Step): World {
    match step
    case Publish(e) =>
      if Knows(w.published, e.id) then w else
        w.(published := w.published + [e],
           ring := Append(w.ring, w.ringSize, e),
           queues := map c | c in w.queues :: Offer(w.queues[c], w.maxBuffer, e),
           sessions := map c | c in w.sessions ::
             if c in w.queues then Overflow(w.published, w.maxBuffer, w.queues[c], w.sessions[c]) else w.sessions[c])
    case Connect(c, last) =>
      if c in w.sessions || c in w.queues then w else
        var n := |w.published|;
        w.(queues := w.queues[c := []],
           sessions := w.sessions[c := Session(Greeting, last, {}, [], n, n, n, false, {})])
    case Snapshot(c) =>
      if c !in w.sessions || !w.sessions[c].phase.Greeting? then w else
        w.(sessions := w.sessions[c := TakeSnapshot(w.published, w.ring, w.sessions[c])])
    case Replay(c) =>
      if c !in w.sessions || !w.sessions[c].phase.Replaying? then w else
        w.(sessions := w.sessions[c := ReplayOne(w.sessions[c], w.sessions[c].phase.todo)])
    case Read(c) =>
      if c !in w.sessions || !w.sessions[c].phase.Live? || c !in w.queues || w.queues[c] == [] then w else
        w.(queues := w.queues[c := w.queues[c][1..]],
           sessions := w.sessions[c := Receive(w.sessions[c], w.queues[c][0])])
    case Disconnect(c) =>
      if c !in w.sessions then w else
        w.(queues := if w.sessions[c].phase.Live? then w.queues - {c} else w.queues,
           sessions := w.sessions[c := w.sessions[c].(phase := Gone)])
  }

  function TakeSnapshot(p: seq<Event>, ring: seq<Event>, s: Session): Session {
    var todo := if s.lastEventId.Some? then After(ring, s.lastEventId.value) else [];
    if s.lastEventId.Some? && Knows(ring, s.lastEventId.value) && |todo| <= |p|
    then s.(phase := Replaying(todo), resumed := true, cut := |p|, from := |p| - |todo|)
    else s.(phase := Replaying(todo))
  }

  function ReplayOne(s: Session, todo: seq<Event>): Session {
    if todo == [] then s.(phase := Live)
    else s.(phase := Replaying(todo[1..]), replayed := s.replayed + {todo[0].id}, delivered := s.delivered + [todo[0]])
  }

  /** A queued event that was already replayed is skipped once. */
  function Receive(s: Session, e: Event): Session {
    if e.id in s.replayed then s.(replayed := s.replayed - {e.id}) else s.(delivered := s.delivered + [e])
  }

  function Run(w: World, steps: seq<Step>): World
    decreases |steps|
  {
    if steps == [] then w else Next(Run(w, steps[..|steps| - 1]), steps[|steps| - 1])
  }

  // ----- selections of the publication order -----

  function Max(a: int, b: int): int { if a < b then b else a }

  /** The events published at positions lo..hi, without the positions in `missed`. */
  function Kept(p: seq<Event>, lo: nat, hi: nat, missed: set<nat>): seq<Event>
    requires hi <= |p|
  {
    if hi <= lo then []
    else if hi - 1 in missed then Kept(p, lo, hi - 1, missed)
    else Kept(p, lo, hi - 1, missed) + [p[hi - 1]]
  }

  /** How many of the positions lo..hi are kept. */
  function Rank(lo: nat, hi: nat, missed: set<nat>): nat {
    if hi <= lo then 0 else Rank(lo, hi - 1, missed) + if hi - 1 in missed then 0 else 1
  }

  /** A selection holds every position that is not missed, in order and once: the event published at
      position i stands exactly at its rank, ranks grow, and nothing else is in it. */
  lemma {:induction false} KeptInOrder(p: seq<Event>, lo: nat, hi: nat, missed: set<nat>)
    requires hi <= |p|
    ensures |Kept(p, lo, hi, missed)| == Rank(lo, hi, missed)
    ensures forall i {:trigger Rank(lo, i, missed)} :: lo <= i < hi && i !in missed ==>
              Rank(lo, i, missed) < Rank(lo, hi, missed) && Kept(p, lo, hi, missed)[Rank(lo, i, missed)] == p[i]
    ensures forall e :: e in Kept(p, lo, hi, missed) ==> exists i :: lo <= i < hi && i !in missed && p[i] == e
  {
    if lo < hi {
      KeptInOrder(p, lo, hi - 1, missed);
    }
  }

  lemma {:induction false} KeptOfPrefix(p: seq<Event>, e: Event, lo: nat, hi: nat, missed: set<nat>, more: set<nat>)
    requires hi <= |p|
    requires forall i :: lo <= i < hi ==> (i in missed <==> i in more)
    ensures Kept(p + [e], lo, hi, more) == Kept(p, lo, hi, missed)
  {
    if lo < hi {
      KeptOfPrefix(p, e, lo, hi - 1, missed, more);
    }
  }

  lemma {:induction false} KeptAll(p: seq<Event>, lo: nat, hi: nat, missed: set<nat>)
    requires lo <= hi <= |p|
    ensures (forall i :: lo <= i < hi ==> i !in missed) ==> Kept(p, lo, hi, missed) == p[lo..hi]
    ensures (forall i :: lo <= i < hi ==> i in missed) ==> Kept(p, lo, hi, missed) == []
  {
    if lo < hi {
      KeptAll(p, lo, hi - 1, missed);
      assert p[lo..hi] == p[lo..hi - 1] + [p[hi - 1]];
    }
  }

  lemma {:induction false} KeptSplit(p: seq<Event>, lo: nat, mid: nat, hi: nat, missed: set<nat>)
    requires lo <= mid <= hi <= |p|
    ensures Kept(p, lo, hi, missed) == Kept(p, lo, mid, missed) + Kept(p, mid, hi, missed)
  {
    if mid < hi {
      KeptSplit(p, lo, mid, hi - 1, missed);
    }
  }

  // ----- the invariant -----

  ghost predicate UniqueIds(p: seq<Event>) {
    forall i, j :: 0 <= i < j < |p| ==> p[i].id != p[j].id
  }

  ghost predicate IsSuffix(q: seq<Event>, p: seq<Event>) {
    |q| <= |p| && q == p[|p| - |q|..]
  }

  /** `ids` are exactly the ids of the events published at positions lo..hi. */
  ghost predicate Names(p: seq<Event>, lo: nat, hi: int, ids: set<string>)
    requires hi <= |p|
  {
    && (forall i :: lo <= i < hi ==> p[i].id in ids)
    && (forall id :: id in ids ==> exists i :: lo <= i < hi && p[i].id == id)
  }

  /** The queue holds the newest events; those before it were read or dropped. */
  ghost predicate QueueOk(p: seq<Event>, max: int, q: seq<Event>, s: Session) {
    && IsSuffix(q, p) && s.joined <= Head(p, q)
    && (forall i :: i in s.dropped ==> s.joined <= i < Head(p, q))
    && (s.dropped != {} ==> 0 < max < |p| - s.joined)
  }

  ghost predicate NothingRead(p: seq<Event>, q: seq<Event>, s: Session) {
    forall i :: s.joined <= i < Head(p, q) ==> i in s.dropped
  }

  /** The events owed start behind the one the client named, or where it registered. */
  ghost predicate BoundsOk(p: seq<Event>, s: Session) {
    && s.from <= s.cut <= |p| && s.joined <= s.cut
    && (s.resumed ==> s.from >= 1 && s.lastEventId == Some(p[s.from - 1].id))
    && (!s.resumed ==> s.from == s.cut == s.joined)
  }

  ghost predicate GreetingOk(s: Session) {
    s.from == s.cut == s.joined && !s.resumed && s.delivered == [] && s.replayed == {}
  }

  ghost predicate ReplayingOk(p: seq<Event>, s: Session, todo: seq<Event>) {
    && BoundsOk(p, s)
    && s.delivered + todo == p[s.from..s.cut]
    && Names(p, s.from, s.cut - |todo|, s.replayed)
  }

  /** Up to which position a live client has been served. */
  function Served(p: seq<Event>, q: seq<Event>, s: Session): int { Max(Head(p, q), s.cut) }

  /** The positions that were dropped and not covered by the replay. */
  function Missed(dropped: set<nat>, cut: nat): set<nat> { set i | i in dropped && cut <= i }

  ghost predicate LiveOk(p: seq<Event>, q: seq<Event>, s: Session)
    requires IsSuffix(q, p)
  {
    && BoundsOk(p, s)
    && s.delivered == Kept(p, s.from, Served(p, q, s), Missed(s.dropped, s.cut))
    && SkipsAll(p, Max(Head(p, q), s.from), s.cut, s.replayed)
  }

  /** All events from position `lo` to `cut` are still to be skipped. */
  ghost predicate SkipsAll(p: seq<Event>, lo: nat, cut: nat, ids: set<string>)
    requires cut <= |p|
  {
    forall i :: lo <= i < cut ==> p[i].id in ids
  }

  /** Only replayed events are skipped. */
  ghost predicate SkipsReplayed(p: seq<Event>, s: Session)
    requires s.cut <= |p|
  {
    forall id :: id in s.replayed ==> exists i :: s.from <= i < s.cut && p[i].id == id
  }

  /** The named event, if the ring knew it, was published before the client registered. */
  predicate NamedThePast(s: Session) { s.from <= s.joined }

  /** Position `i` was published while the client was registered, not after the event it named, and has
      been read from its queue. */
  predicate ReadEarly(p: seq<Event>, q: seq<Event>, s: Session, i: nat) {
    s.joined <= i < s.from && i < Head(p, q) && i !in s.dropped
  }

  /** Whatever was published between registering and the named event, and has left the queue, was dropped. */
  ghost predicate NothingReadEarly(p: seq<Event>, q: seq<Event>, s: Session) {
    forall i: nat :: !ReadEarly(p, q, s, i)
  }

  ghost predicate EarlyDelivered(p: seq<Event>, q: seq<Event>, s: Session)
    requires s.from <= |p|
  {
    forall i: nat :: ReadEarly(p, q, s, i) ==> p[i] in s.delivered
  }

  ghost predicate SessionOk(p: seq<Event>, max: int, q: seq<Event>, s: Session) {
    && QueueOk(p, max, q, s)
    && match s.phase
       case Greeting => NothingRead(p, q, s) && GreetingOk(s)
       case Replaying(todo) => NothingRead(p, q, s) && ReplayingOk(p, s, todo)
       case Live => LiveSessionOk(p, q, s)
       case Gone => true
  }

  ghost predicate LiveSessionOk(p: seq<Event>, q: seq<Event>, s: Session)
    requires IsSuffix(q, p)
  {
    && BoundsOk(p, s) && SkipsReplayed(p, s) && EarlyDelivered(p, q, s)
    && (NothingReadEarly(p, q, s) ==> LiveOk(p, q, s))
  }

  ghost predicate ClientOk(w: World, c: string)
    requires c in w.sessions
  {
    if c in w.queues then SessionOk(w.published, w.maxBuffer, w.queues[c], w.sessions[c])
    else w.sessions[c].phase.Gone?
  }

  ghost predicate WorldOk(w: World) {
    && UniqueIds(w.published) && IsSuffix(w.ring, w.published)
    && forall c :: c in w.sessions ==> ClientOk(w, c)
  }

  // ----- every step of one session keeps the invariant -----

  lemma OfferKeepsQueue(p: seq<Event>, max: int, q: seq<Event>, s: Session, e: Event)
    requires QueueOk(p, max, q, s)
    ensures QueueOk(p + [e], max, Offer(q, max, e), Overflow(p, max, q, s))
    ensures NothingRead(p, q, s) ==> NothingRead(p + [e], Offer(q, max, e), Overflow(p, max, q, s))
  {
  }

  /** What is selected up to the served position does not change when the event at position `h` is
      dropped: if the served position moves at all, it moves over that event. */
  lemma DropKeepsSelection(p: seq<Event>, e: Event, from: nat, cut: nat, h: nat, dropped: set<nat>)
    requires h <= |p| && cut <= |p|
    ensures Kept(p + [e], from, Max(h + 1, cut), Missed(dropped + {h}, cut))
            == Kept(p, from, Max(h, cut), Missed(dropped, cut))
  {
    KeptOfPrefix(p, e, from, Max(h, cut), Missed(dropped, cut), Missed(dropped + {h}, cut));
    if cut <= h {
      assert h in Missed(dropped + {h}, cut);
    }
  }

  lemma OfferIsSuffix(p: seq<Event>, max: int, q: seq<Event>, e: Event)
    requires IsSuffix(q, p)
    ensures IsSuffix(Offer(q, max, e), p + [e])
    ensures Head(p + [e], Offer(q, max, e)) == Head(p, q) + (if Full(q, max) then 1 else 0)
  {
    var after := Offer(q, max, e);
    assert after == (p + [e])[|p| + 1 - |after|..];
  }

  lemma OfferKeepsDelivered(p: seq<Event>, max: int, q: seq<Event>, s: Session, e: Event)
    requires |q| <= |p| && s.cut <= |p|
    requires s.delivered == Kept(p, s.from, Served(p, q, s), Missed(s.dropped, s.cut))
    ensures var after, t := Offer(q, max, e), Overflow(p, max, q, s);
            Served(p + [e], after, t) <= |p| + 1
            && s.delivered == Kept(p + [e], s.from, Served(p + [e], after, t), Missed(t.dropped, s.cut))
  {
    var h, after, t := Head(p, q), Offer(q, max, e), Overflow(p, max, q, s);
    if Full(q, max) {
      assert t.dropped == s.dropped + {h} && Served(p + [e], after, t) == Max(h + 1, s.cut);
      DropKeepsSelection(p, e, s.from, s.cut, h, s.dropped);
    } else {
      assert t == s && Served(p + [e], after, t) == Max(h, s.cut);
      KeptOfPrefix(p, e, s.from, Max(h, s.cut), Missed(s.dropped, s.cut), Missed(s.dropped, s.cut));
    }
  }

  lemma OfferKeepsLive(p: seq<Event>, max: int, q: seq<Event>, s: Session, e: Event)
    requires IsSuffix(q, p) && LiveOk(p, q, s)
    ensures IsSuffix(Offer(q, max, e), p + [e])
    ensures LiveOk(p + [e], Offer(q, max, e), Overflow(p, max, q, s))
  {
    OfferIsSuffix(p, max, q, e);
    OfferKeepsDelivered(p, max, q, s, e);
  }

  /** Neither an event queued nor the one dropped for it is read early. */
  lemma OfferReadsNothing(p: seq<Event>, max: int, q: seq<Event>, s: Session, e: Event)
    requires QueueOk(p, max, q, s) && s.from <= |p|
    ensures forall i: nat :: ReadEarly(p + [e], Offer(q, max, e), Overflow(p, max, q, s), i) <==> ReadEarly(p, q, s, i)
  {
    OfferIsSuffix(p, max, q, e);
  }

  lemma StillReplaying(p: seq<Event>, e: Event, s: Session, todo: seq<Event>)
    requires ReplayingOk(p, s, todo)
    ensures ReplayingOk(p + [e], s, todo)
  {
    assert (p + [e])[s.from..s.cut] == p[s.from..s.cut];
    forall id | id in s.replayed ensures exists i :: s.from <= i < s.cut - |todo| && (p + [e])[i].id == id {
      var i :| s.from <= i < s.cut - |todo| && p[i].id == id;
      assert (p + [e])[i] == p[i];
    }
  }

  lemma StillSkipsReplayed(p: seq<Event>, max: int, q: seq<Event>, s: Session, e: Event)
    requires BoundsOk(p, s) && SkipsReplayed(p, s)
    ensures BoundsOk(p + [e], Overflow(p, max, q, s)) && SkipsReplayed(p + [e], Overflow(p, max, q, s))
  {
    forall id | id in s.replayed ensures exists i :: s.from <= i < s.cut && (p + [e])[i].id == id {
      var i :| s.from <= i < s.cut && p[i].id == id;
      assert (p + [e])[i] == p[i];
    }
  }

  lemma OfferKeepsLiveSession(p: seq<Event>, max: int, q: seq<Event>, s: Session, e: Event)
    requires QueueOk(p, max, q, s) && LiveSessionOk(p, q, s)
    ensures var after, t := Offer(q, max, e), Overflow(p, max, q, s);
            IsSuffix(after, p + [e]) && LiveSessionOk(p + [e], after, t)
  {
    StillSkipsReplayed(p, max, q, s, e);
    OfferReadsNothing(p, max, q, s, e);
    OfferIsSuffix(p, max, q, e);
    if NothingReadEarly(p, q, s) {
      OfferKeepsLive(p, max, q, s, e);
    } else {
      var i: nat :| ReadEarly(p, q, s, i);
      assert ReadEarly(p + [e], Offer(q, max, e), Overflow(p, max, q, s), i);
    }
  }

  lemma OfferKeepsReplaying(p: seq<Event>, max: int, q: seq<Event>, s: Session, e: Event, todo: seq<Event>)
    requires ReplayingOk(p, s, todo)
    ensures ReplayingOk(p + [e], Overflow(p, max, q, s), todo)
  {
    StillReplaying(p, e, s, todo);
  }

  lemma OfferKeepsSession(p: seq<Event>, max: int, q: seq<Event>, s: Session, e: Event)
    requires SessionOk(p, max, q, s)
    ensures SessionOk(p + [e], max, Offer(q, max, e), Overflow(p, max, q, s))
  {
    OfferKeepsQueue(p, max, q, s, e);
    assert Overflow(p, max, q, s).phase == s.phase;
    if s.phase.Replaying? {
      OfferKeepsReplaying(p, max, q, s, e, s.phase.todo);
    } else if s.phase.Live? {
      OfferKeepsLiveSession(p, max, q, s, e);
    }
  }

  /** A snapshot taken from the ring is the publication order from behind the named event on. */
  lemma SnapshotIsTail(p: seq<Event>, shift: nat, last: string)
    requires UniqueIds(p) && shift <= |p| && Knows(p[shift..], last)
    ensures var todo := After(p[shift..], last);
            |todo| < |p| && todo == p[|p| - |todo|..] && p[|p| - |todo| - 1].id == last
  {
    var ring := p[shift..];
    var k :| 0 <= k < |ring| && ring[k].id == last;
    assert p[shift + k].id == last;
    assert forall j :: 0 <= j < k ==> ring[j] == p[shift + j];
    AfterFirst(ring, last, k);
    assert ring[k + 1..] == p[shift + k + 1..];
  }

  /** A snapshot of a known id: all that follows the named event is still to be replayed. */
  lemma KnownSnapshot(p: seq<Event>, s: Session, ring: seq<Event>, last: string)
    requires UniqueIds(p) && IsSuffix(ring, p) && Knows(ring, last) && s.lastEventId == Some(last)
    requires GreetingOk(s) && s.joined <= |p|
    ensures var t := TakeSnapshot(p, ring, s); t.phase.Replaying? && ReplayingOk(p, t, t.phase.todo)
  {
    SnapshotIsTail(p, |p| - |ring|, last);
    var todo, t := After(ring, last), TakeSnapshot(p, ring, s);
    assert t == s.(phase := Replaying(todo), resumed := true, cut := |p|, from := |p| - |todo|);
    assert s.delivered + todo == todo;
    assert p[t.from..t.cut] == p[|p| - |todo|..];
  }

  /** Without an id, or with one the ring does not know, there is nothing to replay. */
  lemma UnknownSnapshot(p: seq<Event>, s: Session, ring: seq<Event>)
    requires GreetingOk(s) && s.joined <= |p| && (s.lastEventId.Some? ==> !Knows(ring, s.lastEventId.value))
    ensures var t := TakeSnapshot(p, ring, s); t.phase == Replaying([]) && ReplayingOk(p, t, [])
  {
    if s.lastEventId.Some? {
      AfterUnknown(ring, s.lastEventId.value);
    }
    var t := TakeSnapshot(p, ring, s);
    assert t == s.(phase := Replaying([]));
    assert p[t.from..t.cut] == [] == s.delivered + [];
  }

  lemma SnapshotKeepsSession(p: seq<Event>, max: int, q: seq<Event>, s: Session, ring: seq<Event>)
    requires UniqueIds(p) && IsSuffix(ring, p) && SessionOk(p, max, q, s) && s.phase.Greeting?
    ensures SessionOk(p, max, q, TakeSnapshot(p, ring, s))
  {
    if s.lastEventId.Some? && Knows(ring, s.lastEventId.value) {
      KnownSnapshot(p, s, ring, s.lastEventId.value);
    } else {
      UnknownSnapshot(p, s, ring);
    }
    assert QueueOk(p, max, q, TakeSnapshot(p, ring, s));
  }

  lemma ReplayOneKeeps(p: seq<Event>, s: Session, todo: seq<Event>)
    requires ReplayingOk(p, s, todo) && todo != []
    ensures ReplayingOk(p, ReplayOne(s, todo), todo[1..])
  {
    var t := ReplayOne(s, todo);
    var k := s.cut - |todo|;
    assert t.delivered + todo[1..] == s.delivered + todo;
    assert p[k] == (s.delivered + todo)[k - s.from] == todo[0];
    forall id | id in t.replayed ensures exists i :: s.from <= i < k + 1 && p[i].id == id {
      if id in s.replayed {
        var i :| s.from <= i < k && p[i].id == id;
      } else {
        assert p[k].id == id;
      }
    }
  }

  /** When the replay is finished nothing was read yet, so every event that already left the queue
      was dropped from it. */
  lemma ReplayEndsLive(p: seq<Event>, max: int, q: seq<Event>, s: Session)
    requires QueueOk(p, max, q, s) && NothingRead(p, q, s) && ReplayingOk(p, s, [])
    ensures LiveOk(p, q, s)
  {
    var served := Served(p, q, s);
    assert s.delivered == p[s.from..s.cut];
    KeptSplit(p, s.from, s.cut, served, Missed(s.dropped, s.cut));
    KeptAll(p, s.from, s.cut, Missed(s.dropped, s.cut));
    KeptAll(p, s.cut, served, Missed(s.dropped, s.cut));
  }

  lemma ReplayKeepsSession(p: seq<Event>, max: int, q: seq<Event>, s: Session)
    requires SessionOk(p, max, q, s) && s.phase.Replaying?
    ensures SessionOk(p, max, q, ReplayOne(s, s.phase.todo))
  {
    if s.phase.todo != [] {
      ReplayOneKeeps(p, s, s.phase.todo);
    } else {
      ReplayEndsLive(p, max, q, s);
      assert LiveOk(p, q, s.(phase := Live));
    }
    assert QueueOk(p, max, q, ReplayOne(s, s.phase.todo));
  }

  /** The head of the queue is skipped exactly when it lies before the snapshot. */
  lemma SkipsAfterRead(p: seq<Event>, s: Session, h: nat)
    requires UniqueIds(p) && s.from <= h < |p| && s.cut <= |p|
    requires SkipsAll(p, h, s.cut, s.replayed) && SkipsReplayed(p, s)
    ensures p[h].id in s.replayed <==> h < s.cut
    ensures SkipsAll(p, h + 1, s.cut, s.replayed - {p[h].id})
  {
  }

  lemma DeliveredAfterRead(p: seq<Event>, s: Session, h: nat)
    requires h < |p| && s.from <= h && s.cut <= h && h !in s.dropped
    ensures Kept(p, s.from, h + 1, Missed(s.dropped, s.cut)) == Kept(p, s.from, h, Missed(s.dropped, s.cut)) + [p[h]]
  {
  }

  lemma ReadKeepsLive(p: seq<Event>, q: seq<Event>, s: Session)
    requires UniqueIds(p) && IsSuffix(q, p) && q != [] && LiveOk(p, q, s) && SkipsReplayed(p, s)
    requires (forall i :: i in s.dropped ==> i < Head(p, q)) && s.from <= Head(p, q)
    ensures IsSuffix(q[1..], p) && LiveOk(p, q[1..], Receive(s, q[0]))
  {
    var h, t := Head(p, q), Receive(s, q[0]);
    assert q[0] == p[h] && q[1..] == p[h + 1..] && Head(p, q[1..]) == h + 1;
    SkipsAfterRead(p, s, h);
    if h < s.cut {
      assert t == s.(replayed := s.replayed - {p[h].id});
    } else {
      DeliveredAfterRead(p, s, h);
      assert t == s.(delivered := s.delivered + [p[h]]);
    }
  }

  /** An early event is not among those to be skipped, so reading it delivers it. */
  lemma EarlyEventIsDelivered(p: seq<Event>, q: seq<Event>, s: Session)
    requires UniqueIds(p) && IsSuffix(q, p) && q != [] && BoundsOk(p, s) && SkipsReplayed(p, s)
    requires Head(p, q) < s.from
    ensures q[0] == p[Head(p, q)] && Receive(s, q[0]) == s.(delivered := s.delivered + [q[0]])
  {
  }

  lemma ReadKeepsQueue(p: seq<Event>, max: int, q: seq<Event>, s: Session)
    requires QueueOk(p, max, q, s) && q != []
    ensures QueueOk(p, max, q[1..], Receive(s, q[0])) && Head(p, q[1..]) == Head(p, q) + 1
  {
    assert q[1..] == p[Head(p, q) + 1..];
  }

  lemma ReadKeepsLiveSession(p: seq<Event>, max: int, q: seq<Event>, s: Session)
    requires UniqueIds(p) && QueueOk(p, max, q, s) && LiveSessionOk(p, q, s) && q != []
    ensures IsSuffix(q[1..], p) && LiveSessionOk(p, q[1..], Receive(s, q[0]))
  {
    var h, after, t := Head(p, q), q[1..], Receive(s, q[0]);
    ReadKeepsQueue(p, max, q, s);
    if h < s.from {
      EarlyEventIsDelivered(p, q, s);
      assert ReadEarly(p, after, t, h);
    } else {
      assert forall i: nat :: ReadEarly(p, after, t, i) <==> ReadEarly(p, q, s, i);
      if NothingReadEarly(p, q, s) {
        ReadKeepsLive(p, q, s);
      } else {
        var i: nat :| ReadEarly(p, q, s, i);
        assert ReadEarly(p, after, t, i);
      }
    }
  }

  lemma ReadKeepsSession(p: seq<Event>, max: int, q: seq<Event>, s: Session)
    requires UniqueIds(p) && SessionOk(p, max, q, s) && s.phase.Live? && q != []
    ensures SessionOk(p, max, q[1..], Receive(s, q[0]))
  {
    ReadKeepsQueue(p, max, q, s);
    ReadKeepsLiveSession(p, max, q, s);
  }

  // ----- every step of the world keeps the invariant -----

  lemma PublishKeeps(w: World, e: Event)
    requires WorldOk(w) && !Knows(w.published, e.id)
    ensures WorldOk(Next(w, Publish(e)))
  {
    var after := Next(w, Publish(e));
    forall c | c in after.sessions ensures ClientOk(after, c) {
      assert ClientOk(w, c);
      if c in w.queues {
        OfferKeepsSession(w.published, w.maxBuffer, w.queues[c], w.sessions[c], e);
      }
    }
  }

  /** The client a step belongs to keeps its invariant; the other clients are not touched. */
  lemma OwnKeeps(w: World, step: Step)
    requires WorldOk(w) && !step.Publish? && step.c in Next(w, step).sessions
    ensures ClientOk(Next(w, step), step.c)
  {
    var c, p, max := step.c, w.published, w.maxBuffer;
    if c in w.sessions && c in w.queues {
      assert ClientOk(w, c);
      match step {
        case Snapshot(_) =>
          if w.sessions[c].phase.Greeting? { SnapshotKeepsSession(p, max, w.queues[c], w.sessions[c], w.ring); }
        case Replay(_) =>
          if w.sessions[c].phase.Replaying? { ReplayKeepsSession(p, max, w.queues[c], w.sessions[c]); }
        case Read(_) =>
          if w.sessions[c].phase.Live? && w.queues[c] != [] { ReadKeepsSession(p, max, w.queues[c], w.sessions[c]); }
        case Connect(_, _) =>
        case Disconnect(_) => assert QueueOk(p, max, w.queues[c], w.sessions[c].(phase := Gone));
      }
    }
  }

  lemma StepKeeps(w: World, step: Step)
    requires WorldOk(w)
    ensures WorldOk(Next(w, step))
  {
    if step.Publish? {
      if !Knows(w.published, step.e.id) {
        PublishKeeps(w, step.e);
      }
    } else {
      var after := Next(w, step);
      forall d | d in after.sessions ensures ClientOk(after, d) {
        if d == step.c {
          OwnKeeps(w, step);
        } else {
          assert ClientOk(w, d);
        }
      }
    }
  }

  lemma {:induction false} EveryRunIsOk(maxBuffer: int, ringSize: nat, steps: seq<Step>)
    ensures WorldOk(Run(Start(maxBuffer, ringSize), steps))
    decreases |steps|
  {
    if steps != [] {
      EveryRunIsOk(maxBuffer, ringSize, steps[..|steps| - 1]);
      StepKeeps(Run(Start(maxBuffer, ringSize), steps[..|steps| - 1]), steps[|steps| - 1]);
    }
  }

  // ----- what a client is promised -----

  /** What a live client is owed: the events from behind the named one (or, if the ring did not know it,
      from its registration on) up to the served position, without those its full queue dropped after the
      snapshot. */
  ghost predicate Exact(p: seq<Event>, q: seq<Event>, s: Session)
    requires IsSuffix(q, p) && s.cut <= |p|
  {
    s.delivered == Kept(p, s.from, Served(p, q, s), Missed(s.dropped, s.cut))
  }

  lemma EarlyIsNotOwed(p: seq<Event>, from: nat, hi: nat, missed: set<nat>, i: nat)
    requires UniqueIds(p) && i < from <= |p| && hi <= |p|
    ensures p[i] !in Kept(p, from, hi, missed)
  {
    KeptInOrder(p, from, hi, missed);
  }

  lemma SessionIsExactIff(p: seq<Event>, max: int, q: seq<Event>, s: Session)
    requires UniqueIds(p) && SessionOk(p, max, q, s) && s.phase.Live?
    ensures Exact(p, q, s) <==> NothingReadEarly(p, q, s)
  {
    if !NothingReadEarly(p, q, s) {
      var i: nat :| ReadEarly(p, q, s, i);
      EarlyIsNotOwed(p, s.from, Served(p, q, s), Missed(s.dropped, s.cut), i);
    }
  }

  /** Main result: on every run, a live client has been delivered exactly what it is owed if and only if it
      has read no event that was published after it registered and is not behind the one it named. */
  lemma DeliveryIsExact(maxBuffer: int, ringSize: nat, steps: seq<Step>, c: string)
    requires var w := Run(Start(maxBuffer, ringSize), steps); c in w.sessions && w.sessions[c].phase.Live?
    ensures var w := Run(Start(maxBuffer, ringSize), steps);
            var s := w.sessions[c];
            && c in w.queues && IsSuffix(w.queues[c], w.published) && BoundsOk(w.published, s)
            && (Exact(w.published, w.queues[c], s) <==> NothingReadEarly(w.published, w.queues[c], s))
            && (NamedThePast(s) ==> Exact(w.published, w.queues[c], s))
  {
    var w := Run(Start(maxBuffer, ringSize), steps);
    EveryRunIsOk(maxBuffer, ringSize, steps);
    assert ClientOk(w, c);
    SessionIsExactIff(w.published, w.maxBuffer, w.queues[c], w.sessions[c]);
  }

  /** `delivered` holds every event of positions from..served that is not in `missed`, once and in
      publication order, and nothing else. */
  ghost predicate Faithful(p: seq<Event>, from: nat, served: int, missed: set<nat>, delivered: seq<Event>) {
    && from <= served <= |p|
    && |delivered| == Rank(from, served, missed)
    && (forall i {:trigger Rank(from, i, missed)} :: from <= i < served && i !in missed ==>
          Rank(from, i, missed) < |delivered| && delivered[Rank(from, i, missed)] == p[i])
    && (forall i, j {:trigger Rank(from, i, missed), Rank(from, j, missed)} ::
          from <= i < j < served && i !in missed ==> Rank(from, i, missed) < Rank(from, j, missed))
    && (forall i :: from <= i < served ==> (p[i] in delivered <==> i !in missed))
    && (forall e :: e in delivered ==> exists i :: from <= i < served && p[i] == e)
  }

  lemma KeptIsFaithful(p: seq<Event>, from: nat, served: nat, missed: set<nat>)
    requires UniqueIds(p) && from <= served <= |p|
    ensures Faithful(p, from, served, missed, Kept(p, from, served, missed))
  {
    var delivered := Kept(p, from, served, missed);
    KeptInOrder(p, from, served, missed);
    forall i | from <= i < served ensures p[i] in delivered <==> i !in missed {
      if i !in missed {
        assert delivered[Rank(from, i, missed)] == p[i];
      }
    }
    forall i, j | from <= i < j < served && i !in missed
      ensures Rank(from, i, missed) < Rank(from, j, missed)
    {
      KeptInOrder(p, from, j, missed);
    }
  }

  /** Nothing before position `from` can stand in a faithful delivery. */
  lemma FaithfulHasNothingEarly(p: seq<Event>, from: nat, served: int, missed: set<nat>, delivered: seq<Event>, i: nat)
    requires UniqueIds(p) && i < from <= |p|
    ensures Faithful(p, from, served, missed, delivered) ==> p[i] !in delivered
  {
  }

  lemma SessionIsFaithfulIff(p: seq<Event>, max: int, q: seq<Event>, s: Session)
    requires UniqueIds(p) && SessionOk(p, max, q, s) && s.phase.Live?
    ensures Faithful(p, s.from, Served(p, q, s), Missed(s.dropped, s.cut), s.delivered) <==> NothingReadEarly(p, q, s)
  {
    var served, missed := Served(p, q, s), Missed(s.dropped, s.cut);
    if NothingReadEarly(p, q, s) {
      KeptIsFaithful(p, s.from, served, missed);
    } else {
      var i: nat :| ReadEarly(p, q, s, i);
      FaithfulHasNothingEarly(p, s.from, served, missed, s.delivered, i);
    }
  }

  lemma RoomDropsNothing(p: seq<Event>, max: int, q: seq<Event>, s: Session)
    requires UniqueIds(p) && SessionOk(p, max, q, s) && s.phase.Live? && (max <= 0 || |p| - s.joined <= max)
    ensures s.dropped == {} && (s.delivered == p[s.from..Served(p, q, s)] <==> NothingReadEarly(p, q, s))
  {
    KeptAll(p, s.from, Served(p, q, s), Missed(s.dropped, s.cut));
    SessionIsExactIff(p, max, q, s);
  }

  /** The same in terms of single events; moreover an empty queue means that all was served, and a
      queue with room for everything published since the client registered drops nothing. */
  lemma ResumedClientMissesOnlyDrops(maxBuffer: int, ringSize: nat, steps: seq<Step>, c: string)
    requires var w := Run(Start(maxBuffer, ringSize), steps); c in w.sessions && w.sessions[c].phase.Live?
    ensures var w := Run(Start(maxBuffer, ringSize), steps);
            var p, s := w.published, w.sessions[c];
            c in w.queues &&
            var served, exact := Served(p, w.queues[c], s), NothingReadEarly(p, w.queues[c], s);
            && s.from <= served <= |p|
            && (Faithful(p, s.from, served, Missed(s.dropped, s.cut), s.delivered) <==> exact)
            && (w.queues[c] == [] ==> served == |p|)
            && (maxBuffer <= 0 || |p| - s.joined <= maxBuffer ==>
                  s.dropped == {} && (s.delivered == p[s.from..served] <==> exact))
  {
    var w := Run(Start(maxBuffer, ringSize), steps);
    EveryRunIsOk(maxBuffer, ringSize, steps);
    SameMaxBuffer(Start(maxBuffer, ringSize), steps);
    assert ClientOk(w, c);
    var p, q, s := w.published, w.queues[c], w.sessions[c];
    SessionIsFaithfulIff(p, maxBuffer, q, s);
    if maxBuffer <= 0 || |p| - s.joined <= maxBuffer {
      RoomDropsNothing(p, maxBuffer, q, s);
    }
  }

  lemma {:induction false} SameMaxBuffer(w: World, steps: seq<Step>)
    ensures Run(w, steps).maxBuffer == w.maxBuffer
    decreases |steps|
  {
    if steps != [] {
      SameMaxBuffer(w, steps[..|steps| - 1]);
    }
  }

  lemma ReadIsEarlyIff(p: seq<Event>, max: int, q: seq<Event>, s: Session)
    requires UniqueIds(p) && QueueOk(p, max, q, s) && LiveSessionOk(p, q, s) && q != []
    ensures var h, t := Head(p, q), Receive(s, q[0]);
            && (NothingReadEarly(p, q[1..], t) <==> NothingReadEarly(p, q, s) && s.from <= h)
            && (h < s.from ==>
                  && s.lastEventId == Some(p[s.from - 1].id)
                  && t.delivered == s.delivered + [p[h]])
  {
    var h, t := Head(p, q), Receive(s, q[0]);
    ReadKeepsQueue(p, max, q, s);
    if h < s.from {
      EarlyEventIsDelivered(p, q, s);
      assert ReadEarly(p, q[1..], t, h);
    } else {
      assert forall i: nat :: ReadEarly(p, q[1..], t, i) <==> ReadEarly(p, q, s, i);
    }
  }

  /** A read of this client ends the exactness of its delivery exactly when the event at the head of its queue is
      not behind the named one; that event is then sent, though the client named a later or the same one. */
  ghost predicate ReadBreaksIffEarly(w: World, c: string)
    requires c in w.sessions && c in w.queues
  {
    var p, q, s := w.published, w.queues[c], w.sessions[c];
    var after, h := Next(w, Read(c)), Head(p, q);
    && c in after.queues && c in after.sessions && after.published == p
    && (NothingReadEarly(p, after.queues[c], after.sessions[c]) <==> NothingReadEarly(p, q, s) && s.from <= h)
    && (h < s.from ==>
          && 0 <= h < s.from <= |p| && s.lastEventId == Some(p[s.from - 1].id)
          && after.sessions[c].delivered == s.delivered + [p[h]])
  }

  lemma ReadBreaksOrder(w: World, c: string)
    requires WorldOk(w) && c in w.sessions && w.sessions[c].phase.Live? && c in w.queues && w.queues[c] != []
    ensures ReadBreaksIffEarly(w, c)
  {
    assert ClientOk(w, c);
    ReadIsEarlyIff(w.published, w.maxBuffer, w.queues[c], w.sessions[c]);
    ReadIsOneStep(w, c);
  }

  /** The guard of the failure, on every run. */
  lemma FutureNameBreaksOrder(maxBuffer: int, ringSize: nat, steps: seq<Step>, c: string)
    requires var w := Run(Start(maxBuffer, ringSize), steps);
             && c in w.sessions && w.sessions[c].phase.Live? && c in w.queues && w.queues[c] != []
    ensures ReadBreaksIffEarly(Run(Start(maxBuffer, ringSize), steps), c)
  {
    EveryRunIsOk(maxBuffer, ringSize, steps);
    ReadBreaksOrder(Run(Start(maxBuffer, ringSize), steps), c);
  }

  lemma ReadIsOneStep(w: World, c: string)
    requires c in w.sessions && w.sessions[c].phase.Live? && c in w.queues && w.queues[c] != []
    ensures var after := Next(w, Read(c));
            && after.published == w.published && c in after.queues && c in after.sessions
            && after.queues[c] == w.queues[c][1..] && after.sessions[c] == Receive(w.sessions[c], w.queues[c][0])
  {
  }

  /** The client has read the event at position `i` early, or is gone since. */
  ghost predicate StaysEarly(w: World, c: string, i: nat) {
    && c in w.sessions
    && (w.sessions[c].phase.Gone?
        || (w.sessions[c].phase.Live? && c in w.queues && ReadEarly(w.published, w.queues[c], w.sessions[c], i)))
  }

  lemma EarlyReadStays(w: World, step: Step, c: string, i: nat)
    requires WorldOk(w) && StaysEarly(w, c, i)
    ensures StaysEarly(Next(w, step), c, i)
  {
    assert ClientOk(w, c);
    if step.Publish? {
      if !Knows(w.published, step.e.id) {
        PublishStaysEarly(w, step.e, c, i);
      }
    } else if step.c == c {
      OwnStaysEarly(w, step, i);
    } else {
      assert Next(w, step).published == w.published;
      assert c in Next(w, step).sessions && Next(w, step).sessions[c] == w.sessions[c];
      assert c in w.queues ==> c in Next(w, step).queues && Next(w, step).queues[c] == w.queues[c];
    }
  }

  lemma PublishStaysEarly(w: World, e: Event, c: string, i: nat)
    requires WorldOk(w) && StaysEarly(w, c, i) && !Knows(w.published, e.id)
    ensures StaysEarly(Next(w, Publish(e)), c, i)
  {
    assert ClientOk(w, c);
    if c in w.queues && w.sessions[c].phase.Live? {
      OfferReadsNothing(w.published, w.maxBuffer, w.queues[c], w.sessions[c], e);
    }
  }

  lemma OwnStaysEarly(w: World, step: Step, i: nat)
    requires !step.Publish? && StaysEarly(w, step.c, i)
    ensures StaysEarly(Next(w, step), step.c, i)
  {
  }

  lemma {:induction false} EarlyReadLasts(
      maxBuffer: int, ringSize: nat, steps: seq<Step>, more: seq<Step>, c: string, i: nat)
    requires StaysEarly(Run(Start(maxBuffer, ringSize), steps), c, i)
    ensures StaysEarly(Run(Start(maxBuffer, ringSize), steps + more), c, i)
    decreases |more|
  {
    if more == [] {
      assert steps + more == steps;
    } else {
      var start, fewer, last := Start(maxBuffer, ringSize), more[..|more| - 1], more[|more| - 1];
      EarlyReadLasts(maxBuffer, ringSize, steps, fewer, c, i);
      EveryRunIsOk(maxBuffer, ringSize, steps + fewer);
      EarlyReadStays(Run(start, steps + fewer), last, c, i);
      RunExtend(start, steps + fewer, last);
      assert steps + more == (steps + fewer) + [last];
    }
  }

  /** An early read is never mended: as long as the client stays, the event it should not have got stays
      among those delivered, and the delivery is not exact. */
  lemma EarlyReadIsNeverMended(maxBuffer: int, ringSize: nat, steps: seq<Step>, more: seq<Step>, c: string, i: nat)
    requires StaysEarly(Run(Start(maxBuffer, ringSize), steps), c, i)
    ensures var w := Run(Start(maxBuffer, ringSize), steps + more);
            StaysEarly(w, c, i)
            && (w.sessions[c].phase.Live? ==>
                  var s := w.sessions[c];
                  && IsSuffix(w.queues[c], w.published) && i < s.from <= s.cut <= |w.published|
                  && w.published[i] in s.delivered && !Exact(w.published, w.queues[c], s))
  {
    EarlyReadLasts(maxBuffer, ringSize, steps, more, c, i);
    EveryRunIsOk(maxBuffer, ringSize, steps + more);
    if Run(Start(maxBuffer, ringSize), steps + more).sessions[c].phase.Live? {
      EarlyIsNotExact(Run(Start(maxBuffer, ringSize), steps + more), c, i);
    }
  }

  lemma EarlyIsNotExact(w: World, c: string, i: nat)
    requires WorldOk(w) && StaysEarly(w, c, i) && w.sessions[c].phase.Live?
    ensures var s := w.sessions[c];
            && IsSuffix(w.queues[c], w.published) && i < s.from <= s.cut <= |w.published|
            && w.published[i] in s.delivered && !Exact(w.published, w.queues[c], s)
  {
    assert ClientOk(w, c);
    SessionIsExactIff(w.published, w.maxBuffer, w.queues[c], w.sessions[c]);
  }

  /** A client that registered before two events and takes its snapshot after them. */
  function LateSnapshot(a: Event, b: Event, last: string): World {
    var q := [a, b];
    World(100, 500, q, q, map["c" := q], map["c" := Session(Greeting, Some(last), {}, [], 0, 0, 0, false, {})])
  }

  lemma ReachLateSnapshot(a: Event, b: Event, last: string)
    requires a.id != b.id
    ensures Run(Start(100, 500), [Connect("c", Some(last)), Publish(a), Publish(b)]) == LateSnapshot(a, b, last)
  {
    assert Offer([], 100, a) == Append([], 500, a) == [a] && Offer([a], 100, b) == Append([a], 500, b) == [a, b];
    var w1 := Next(Start(100, 500), Connect("c", Some(last)));
    var w2 := Next(w1, Publish(a));
    assert w2.queues == map["c" := [a]];
    assert w2.sessions == w1.sessions;
    var w3 := Next(w2, Publish(b));
    assert w3.queues == map["c" := [a, b]];
    assert w3.sessions == w1.sessions;
    var steps := [Connect("c", Some(last)), Publish(a), Publish(b)];
    assert steps[..2][..1] == steps[..1] == [steps[0]] && steps[..1][..0] == [];
    assert Run(Start(100, 500), steps[..1]) == w1;
    assert Run(Start(100, 500), steps[..2]) == w2;
    assert w3.published == [a, b] && w3.ring == [a, b];
  }

  lemma AfterLateSnapshot(a: Event, b: Event)
    requires a.id != b.id
    ensures var w := Next(Next(Next(LateSnapshot(a, b, b.id), Snapshot("c")), Replay("c")), Read("c"));
            && w.published == [a, b] && "c" in w.sessions
            && w.sessions["c"].lastEventId == Some(b.id) && w.sessions["c"].delivered == [a]
  {
    assert [a, b][1..] == [b] && [b][1..] == [];
    assert After([a, b], b.id) == [];
    assert [a, b][1] == b;
  }

  /** A run that gets there: the client names the second of two events published after it registered, and
      is sent the first. */
  lemma GuessedIdBreaksOrder(a: Event, b: Event)
    requires a.id != b.id
    ensures var steps := [Connect("c", Some(b.id)), Publish(a), Publish(b)] + [Snapshot("c"), Replay("c"), Read("c")];
            var w := Run(Start(100, 500), steps);
            && w.published == [a, b] && "c" in w.sessions
            && w.sessions["c"].lastEventId == Some(b.id) && w.sessions["c"].delivered == [a]
  {
    var steps := [Connect("c", Some(b.id)), Publish(a), Publish(b)];
    ReachLateSnapshot(a, b, b.id);
    AfterLateSnapshot(a, b);
    RunExtend(Start(100, 500), steps, Snapshot("c"));
    RunExtend(Start(100, 500), steps + [Snapshot("c")], Replay("c"));
    RunExtend(Start(100, 500), steps + [Snapshot("c"), Replay("c")], Read("c"));
    assert steps + [Snapshot("c")] + [Replay("c")] == steps + [Snapshot("c"), Replay("c")];
    assert steps + [Snapshot("c"), Replay("c")] + [Read("c")] == steps + [Snapshot("c"), Replay("c"), Read("c")];
  }

  lemma RunExtend(w: World, steps: seq<Step>, step: Step)
    ensures Run(w, steps + [step]) == Next(Run(w, steps), step)
  {
  }
}
