/** A worker that was started again beside a loop that is still active: the earlier loops go on, and a stop
    waits for the latest one only. */
module WorkerLoops {
  import opened Worker

  /** The worker with its latest loop, and the places of the other loops, which share its other fields. */
  datatype Team = Team(worker: Worker, others: seq<Place>)

  const ALONE := Team(FRESH, [])

  datatype TeamStep = Own(step: Step) | Other(k: nat, step: Step)

  /** Seen from another loop, the worker is at that loop's place. */
  function SeenFrom(t: Team, k: nat): Worker
    requires k < |t.others|
  {
    t.worker.(place := t.others[k])
  }

  /** A start needs nothing but the lock; only the latest loop is cancelled by a stop. */
  predicate CanTake(t: Team, s: TeamStep) {
    match s
    case Own(step) => if step.Start? then t.worker.stop.NoStop? else Enabled(t.worker, step)
    case Other(k, step) => k < |t.others| && OfLoop(step) && !step.Cancel? && Enabled(SeenFrom(t, k), step)
  }

  function Take(threshold: int, t: Team, s: TeamStep): Team {
    match s
    case Own(step) =>
      Team(Next(threshold, t.worker, step),
           if step.Start? && !StartRefused(t.worker.state) && Active(t.worker.place)
           then t.others + [t.worker.place] else t.others)
    case Other(k, step) =>
      if k >= |t.others| then t else
        var after := Next(threshold, SeenFrom(t, k), step);
        Team(after.(place := t.worker.place), t.others[k := after.place])
  }

  function TakeAll(threshold: int, t: Team, steps: seq<TeamStep>): Team {
    if steps == [] then t else Take(threshold, TakeAll(threshold, t, steps[..|steps| - 1]), steps[|steps| - 1])
  }

  predicate CanTakeAll(threshold: int, t: Team, steps: seq<TeamStep>) {
    steps == [] ||
    var before, last := steps[..|steps| - 1], steps[|steps| - 1];
    CanTakeAll(threshold, t, before) && CanTake(TakeAll(threshold, t, before), last)
  }

  lemma TakeMore(threshold: int, t: Team, steps: seq<TeamStep>, next: TeamStep)
    ensures TakeAll(threshold, t, steps + [next]) == Take(threshold, TakeAll(threshold, t, steps), next)
    ensures CanTakeAll(threshold, t, steps + [next])
            <==> CanTakeAll(threshold, t, steps) && CanTake(TakeAll(threshold, t, steps), next)
  {
    assert (steps + [next])[..|steps|] == steps;
  }

  // ----- one loop at a time -----

  function Owns(steps: seq<Step>): seq<TeamStep> { seq(|steps|, i requires 0 <= i < |steps| => Own(steps[i])) }

  lemma AloneStaysAlone(threshold: int, w: Worker, step: Step)
    requires Enabled(w, step)
    ensures CanTake(Team(w, []), Own(step))
    ensures Take(threshold, Team(w, []), Own(step)) == Team(Next(threshold, w, step), [])
  {
  }

  /** A run of the worker alone is a run in which no start comes beside an active loop. */
  lemma {:induction false} OneLoopIsTheWorker(threshold: int, steps: seq<Step>)
    requires ValidRun(threshold, steps)
    ensures CanTakeAll(threshold, ALONE, Owns(steps))
    ensures TakeAll(threshold, ALONE, Owns(steps)) == Team(Run(threshold, steps), [])
  {
    if steps != [] {
      var before, last := steps[..|steps| - 1], steps[|steps| - 1];
      OneLoopIsTheWorker(threshold, before);
      TakeMore(threshold, ALONE, Owns(before), Own(last));
      AloneStaysAlone(threshold, Run(threshold, before), last);
      assert Owns(steps) == Owns(before) + [Own(last)];
    }
  }

  // ----- what a returned stop is worth -----

  predicate AtRest(s: WorkerState) { s.Stopped? || s.Ended? }

  /** No stop is under way, and the worker says that it is stopped or ended: so it is when a stop on a started
      worker returns. */
  predicate Returned(t: Team) { t.worker.stop.NoStop? && AtRest(t.worker.state) }

  lemma StopReturnsReturned(threshold: int, t: Team, s: TeamStep)
    requires CanTake(t, s) && s.Own? && StopReturns(t.worker, s.step)
    ensures Returned(Take(threshold, t, s))
  {
  }

  /** A loop that can only leave: at its head if the stop event is set, reporting its own end, or over. */
  predicate Harmless(p: Place, stopSet: bool) {
    p.ReportingFatal? || p.Leaving? || p.Done? || p.NoLoop? || (p.AtHead? && stopSet)
  }

  predicate AllHarmless(t: Team) {
    && Harmless(t.worker.place, t.worker.stopSet)
    && forall k :: 0 <= k < |t.others| ==> Harmless(t.others[k], t.worker.stopSet)
  }

  predicate NoStarts(steps: seq<TeamStep>) {
    forall i :: 0 <= i < |steps| ==> !(steps[i].Own? && steps[i].step.Start?)
  }

  lemma HarmlessStays(threshold: int, t: Team, s: TeamStep)
    requires Returned(t) && AllHarmless(t) && CanTake(t, s) && !(s.Own? && s.step.Start?)
    ensures var after := Take(threshold, t, s);
            Returned(after) && AllHarmless(after) && after.worker.state == t.worker.state
  {
  }

  lemma {:induction false} AllHarmlessStays(threshold: int, t: Team, steps: seq<TeamStep>)
    requires Returned(t) && AllHarmless(t) && CanTakeAll(threshold, t, steps) && NoStarts(steps)
    ensures var after := TakeAll(threshold, t, steps);
            Returned(after) && AllHarmless(after) && after.worker.state == t.worker.state
  {
    if steps != [] {
      var n := |steps| - 1;
      AllHarmlessStays(threshold, t, steps[..n]);
      HarmlessStays(threshold, TakeAll(threshold, t, steps[..n]), steps[n]);
    }
  }

  /** What another loop can do to a worker whose stop has returned. */
  function Mischief(p: Place): seq<Step> {
    match p
    case Created => [Begin(false)]
    case ResolvingChat => [Resolved(false)]
    case Connecting => [Connected(true)]
    case SettingUp => [SetUp(false)]
    case Processing => [Failure]
    case Receiving => [Failure]
    case Reporting => [Reported(false)]
    case BackingOff => [TimedOut, Reconnected(true)]
    case Rejoining => [Reconnected(true)]
    case AtHead => [Look, Failure]
    case _ => []
  }

  /** The steps of one loop: the latest or an earlier one. */
  datatype Loop = Latest | Earlier(k: nat)

  predicate Has(t: Team, loop: Loop) { loop.Earlier? ==> loop.k < |t.others| }

  function PlaceOf(t: Team, loop: Loop): Place
    requires Has(t, loop)
  {
    if loop.Latest? then t.worker.place else t.others[loop.k]
  }

  function By(loop: Loop, step: Step): TeamStep { if loop.Latest? then Own(step) else Other(loop.k, step) }

  function AllBy(loop: Loop, steps: seq<Step>): seq<TeamStep> {
    seq(|steps|, i requires 0 <= i < |steps| => By(loop, steps[i]))
  }

  lemma TakeOne(threshold: int, t: Team, a: TeamStep)
    ensures TakeAll(threshold, t, [a]) == Take(threshold, t, a)
    ensures CanTakeAll(threshold, t, [a]) <==> CanTake(t, a)
  {
    TakeMore(threshold, t, [], a);
    assert [] + [a] == [a];
  }

  lemma TakeTwo(threshold: int, t: Team, a: TeamStep, b: TeamStep)
    ensures TakeAll(threshold, t, [a, b]) == Take(threshold, Take(threshold, t, a), b)
    ensures CanTakeAll(threshold, t, [a, b]) <==> CanTake(t, a) && CanTake(Take(threshold, t, a), b)
  {
    TakeOne(threshold, t, a);
    TakeMore(threshold, t, [a], b);
    assert [a] + [b] == [a, b];
  }

  lemma OneStepStirs(threshold: int, t: Team, loop: Loop)
    requires Returned(t) && Has(t, loop) && |Mischief(PlaceOf(t, loop))| == 1
    ensures var s := By(loop, Mischief(PlaceOf(t, loop))[0]);
            CanTake(t, s) && !AtRest(Take(threshold, t, s).worker.state)
  {
  }

  lemma TwoStepsStir(threshold: int, t: Team, loop: Loop)
    requires Returned(t) && Has(t, loop) && !Harmless(PlaceOf(t, loop), t.worker.stopSet)
    requires PlaceOf(t, loop).BackingOff? || PlaceOf(t, loop).AtHead?
    ensures var a, b := By(loop, Mischief(PlaceOf(t, loop))[0]), By(loop, Mischief(PlaceOf(t, loop))[1]);
            && CanTake(t, a) && CanTake(Take(threshold, t, a), b)
            && !AtRest(Take(threshold, Take(threshold, t, a), b).worker.state)
  {
  }

  lemma HarmfulStirs(threshold: int, t: Team, loop: Loop)
    requires Returned(t) && Has(t, loop) && !Harmless(PlaceOf(t, loop), t.worker.stopSet)
    ensures var steps := AllBy(loop, Mischief(PlaceOf(t, loop)));
            && CanTakeAll(threshold, t, steps) && NoStarts(steps)
            && !AtRest(TakeAll(threshold, t, steps).worker.state)
  {
    var plan := Mischief(PlaceOf(t, loop));
    if |plan| == 1 {
      OneStepStirs(threshold, t, loop);
      TakeOne(threshold, t, By(loop, plan[0]));
      assert AllBy(loop, plan) == [By(loop, plan[0])];
    } else {
      TwoStepsStir(threshold, t, loop);
      TakeTwo(threshold, t, By(loop, plan[0]), By(loop, plan[1]));
      assert AllBy(loop, plan) == [By(loop, plan[0]), By(loop, plan[1])];
    }
  }

  /** In every continuation without a start the worker stays stopped or ended. */
  ghost predicate StaysAtRest(threshold: int, t: Team) {
    forall steps :: CanTakeAll(threshold, t, steps) && NoStarts(steps) ==>
      AtRest(TakeAll(threshold, t, steps).worker.state)
  }

  /** Main result: a stop that returned keeps its promise until the next start exactly when every loop is
      harmless: reporting its own end, leaving or over, or at its head with the stop event set. */
  lemma StopHoldsIffLoopsHarmless(threshold: int, t: Team)
    requires Returned(t)
    ensures StaysAtRest(threshold, t) <==> AllHarmless(t)
  {
    if AllHarmless(t) {
      forall steps | CanTakeAll(threshold, t, steps) && NoStarts(steps)
        ensures AtRest(TakeAll(threshold, t, steps).worker.state)
      {
        AllHarmlessStays(threshold, t, steps);
      }
    } else if !Harmless(t.worker.place, t.worker.stopSet) {
      HarmfulStirs(threshold, t, Latest);
    } else {
      var k :| 0 <= k < |t.others| && !Harmless(t.others[k], t.worker.stopSet);
      HarmfulStirs(threshold, t, Earlier(k));
    }
  }

  /** So of every step with which a stop on a started worker returns. */
  lemma ReturnedStopHoldsIff(threshold: int, t: Team, s: TeamStep)
    requires CanTake(t, s) && s.Own? && StopReturns(t.worker, s.step)
    ensures StaysAtRest(threshold, Take(threshold, t, s)) <==> AllHarmless(Take(threshold, t, s))
  {
    StopReturnsReturned(threshold, t, s);
    StopHoldsIffLoopsHarmless(threshold, Take(threshold, t, s));
  }

  /** With one loop at a time this is no restriction: a stop that returns finds the loop leaving or over. */
  lemma AloneIsHarmless(threshold: int, steps: seq<Step>, stop: Step)
    requires ValidRun(threshold, steps + [stop]) && StopReturns(Run(threshold, steps), stop)
    ensures var t := Team(Run(threshold, steps + [stop]), []);
            Returned(t) && AllHarmless(t) && StaysAtRest(threshold, t)
  {
    RunExtends(threshold, steps, stop);
    EveryRunIsSound(threshold, steps);
    StopHoldsIffLoopsHarmless(threshold, Team(Run(threshold, steps + [stop]), []));
  }

  // ----- a run that breaks it -----

  lemma {:induction false} TakeAllSplit(threshold: int, t: Team, first: seq<TeamStep>, second: seq<TeamStep>)
    ensures TakeAll(threshold, t, first + second) == TakeAll(threshold, TakeAll(threshold, t, first), second)
    ensures CanTakeAll(threshold, t, first + second)
            <==> CanTakeAll(threshold, t, first) && CanTakeAll(threshold, TakeAll(threshold, t, first), second)
    decreases |second|
  {
    if second == [] {
      assert first + second == first;
    } else {
      var n := |second| - 1;
      TakeAllSplit(threshold, t, first, second[..n]);
      TakeMore(threshold, t, first + second[..n], second[n]);
      TakeMore(threshold, TakeAll(threshold, t, first), second[..n], second[n]);
      assert second == second[..n] + [second[n]];
      assert first + second == (first + second[..n]) + [second[n]];
    }
  }

  function StartTwice(): seq<TeamStep> { [Own(Start), Own(Begin(false)), Own(Start)] }

  /** The second start finds the first loop resolving its chat. */
  lemma StartsBeside(threshold: int)
    ensures CanTakeAll(threshold, ALONE, StartTwice())
    ensures TakeAll(threshold, ALONE, StartTwice())
            == Team(Worker(Starting, 0, false, Created, NoStop), [ResolvingChat])
  {
    GuardMissesActiveLoop(threshold);
    OneLoopIsTheWorker(threshold, [Start, Begin(false)]);
    assert Owns([Start, Begin(false)]) == [Own(Start), Own(Begin(false))];
    TakeMore(threshold, ALONE, [Own(Start), Own(Begin(false))], Own(Start));
    assert [Own(Start), Own(Begin(false))] + [Own(Start)] == StartTwice();
  }

  function CallStop(): seq<TeamStep> { [Own(StopBegin), Own(Closed(true))] }

  function LoseChat(): seq<TeamStep> { [Own(Begin(false)), Own(Resolved(false))] }

  function ReturnFromStop(): seq<TeamStep> { [Own(Finish), Own(StopEnd)] }

  /** The second loop does not find its chat, and stop returns. */
  lemma StopsTheSecond(threshold: int)
    ensures var t := Team(Worker(Starting, 0, false, Created, NoStop), [ResolvingChat]);
            var steps := CallStop() + LoseChat() + ReturnFromStop();
            && CanTakeAll(threshold, t, steps)
            && TakeAll(threshold, t, steps) == Team(Worker(Stopped, 0, true, Done, NoStop), [ResolvingChat])
  {
    var t := Team(Worker(Starting, 0, false, Created, NoStop), [ResolvingChat]);
    var t1 := Team(Worker(Stopping, 0, true, Created, Waiting), [ResolvingChat]);
    var t2 := Team(Worker(Error, 0, true, Leaving, Waiting), [ResolvingChat]);
    TakeTwo(threshold, t, Own(StopBegin), Own(Closed(true)));
    assert TakeAll(threshold, t, CallStop()) == t1;
    TakeTwo(threshold, t1, Own(Begin(false)), Own(Resolved(false)));
    assert TakeAll(threshold, t1, LoseChat()) == t2;
    TakeTwo(threshold, t2, Own(Finish), Own(StopEnd));
    TakeAllSplit(threshold, t, CallStop(), LoseChat());
    TakeAllSplit(threshold, t, CallStop() + LoseChat(), ReturnFromStop());
  }

  const STOPPED := Team(Worker(Stopped, 0, true, Done, NoStop), [ResolvingChat])

  function UntilStopped(): seq<TeamStep> { StartTwice() + (CallStop() + LoseChat() + ReturnFromStop()) }

  function FindChat(): seq<TeamStep> { [Other(0, Resolved(true)), Other(0, Connected(true))] }

  lemma ReachesStopped(threshold: int)
    ensures CanTakeAll(threshold, ALONE, UntilStopped()) && TakeAll(threshold, ALONE, UntilStopped()) == STOPPED
  {
    StartsBeside(threshold);
    StopsTheSecond(threshold);
    TakeAllSplit(threshold, ALONE, StartTwice(), CallStop() + LoseChat() + ReturnFromStop());
  }

  lemma ThenRuns(threshold: int)
    ensures CanTakeAll(threshold, STOPPED, FindChat())
    ensures TakeAll(threshold, STOPPED, FindChat()).worker.state.Running?
  {
    TakeTwo(threshold, STOPPED, Other(0, Resolved(true)), Other(0, Connected(true)));
  }

  /** The first loop finds it after all: with the stop returned, the worker is running again. */
  lemma RunningAfterStop(threshold: int)
    ensures Returned(TakeAll(threshold, ALONE, UntilStopped()))
    ensures CanTakeAll(threshold, ALONE, UntilStopped() + FindChat())
    ensures TakeAll(threshold, ALONE, UntilStopped() + FindChat()).worker.state.Running?
  {
    ReachesStopped(threshold);
    ThenRuns(threshold);
    TakeAllSplit(threshold, ALONE, UntilStopped(), FindChat());
  }
}
