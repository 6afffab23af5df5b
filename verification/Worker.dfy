/** The worker of one live stream: a loop with an error threshold, racing with a stop. */
module Worker {

  datatype WorkerState = Idle | Starting | Resolving | Running | Reconnecting | Stopping | Stopped | Ended | Error

  /** Where the loop is suspended, in the order in which a stopping loop passes these places. */
  datatype Place =
    | NoLoop | Created | ResolvingChat | Connecting | SettingUp | Processing | Receiving | Reporting
    | BackingOff | Rejoining | AtHead | ReportingFatal | Leaving | Done

  /** Where the call of stop is: it holds the lock of the worker until it returns. */
  datatype StopPlace = NoStop | Closing | Waiting

  datatype Worker = Worker(state: WorkerState, errors: int, stopSet: bool, place: Place, stop: StopPlace)

  const FRESH := Worker(Idle, 0, false, NoLoop, NoStop)

  /** What happens between two suspension points; a flag says how the awaited call ended. */
  datatype Step =
    | Start | StopBegin | Closed(ok: bool) | StopEnd | Cancel
    | Begin(known: bool) | Resolved(found: bool) | Connected(ok: bool) | SetUp(ok: bool) | Look
    | Batch(offline: bool) | Processed(offline: bool) | Exhausted(offline: bool) | Failure
    | Reported(ok: bool) | StopSeen | TimedOut | Reconnected(ok: bool) | FatalReported | Finish

  predicate Active(p: Place) { !p.NoLoop? && !p.Done? }

  predicate Terminal(s: WorkerState) { s.Error? || s.Stopped? || s.Ended? }

  predicate StartRefused(s: WorkerState) { s.Running? || s.Starting? }

  /** Start and stop exclude each other; a forced cancel comes from a stop that timed out, at a place where
      the loop is suspended. This is the worker with one loop at a time; module WorkerLoops follows the loops
      of starts that come beside an active one. */
  predicate Enabled(w: Worker, step: Step) {
    match step
    case Start => w.stop.NoStop? && (StartRefused(w.state) || !Active(w.place))
    case StopBegin => w.stop.NoStop?
    case Closed(_) => w.stop.Closing?
    case StopEnd => w.stop.Waiting? && !Active(w.place)
    case Cancel => w.stop.Waiting? && Active(w.place) && !w.place.AtHead? && !w.place.Leaving?
    case Begin(_) => w.place.Created?
    case Resolved(_) => w.place.ResolvingChat?
    case Connected(_) => w.place.Connecting?
    case SetUp(_) => w.place.SettingUp?
    case Look => w.place.AtHead?
    case Batch(_) => w.place.Receiving?
    case Processed(_) => w.place.Processing?
    case Exhausted(_) => w.place.Receiving?
    case Failure => w.place.Receiving? || w.place.Processing?
    case Reported(_) => w.place.Reporting?
    case StopSeen => w.place.BackingOff? && w.stopSet
    case TimedOut => w.place.BackingOff?
    case Reconnected(_) => w.place.Rejoining?
    case FatalReported => w.place.ReportingFatal?
    case Finish => w.place.Leaving?
  }

  function Fatal(w: Worker): Worker { w.(state := Error, place := ReportingFatal) }

  function Quit(w: Worker, state: WorkerState): Worker { w.(state := state, place := Leaving) }

  function Next(threshold: int, w: Worker, step: Step): Worker {
    match step
    case Start => if StartRefused(w.state) then w else w.(state := Starting, stopSet := false, place := Created)
    case StopBegin =>
      if w.state.Stopped? || w.state.Ended? || w.state.Idle? then w
      else w.(state := Stopping, stopSet := true, stop := Closing)
    case Closed(ok) => w.(stop := if ok then Waiting else NoStop)
    case StopEnd => w.(state := if w.state.Ended? then Ended else Stopped, stop := NoStop)
    case Cancel =>
      if w.place.Created? then w.(place := Done)
      else if w.place.ReportingFatal? then w.(place := Leaving)
      else Quit(w, if w.state.Ended? then Ended else Stopped)
    case Begin(known) => if known then w.(place := Connecting) else w.(state := Resolving, place := ResolvingChat)
    case Resolved(found) => if found then w.(place := Connecting) else Quit(w, Error)
    case Connected(ok) => if ok then w.(state := Running, place := SettingUp) else Fatal(w)
    case SetUp(ok) => if ok then w.(place := AtHead) else Fatal(w)
    case Look => w.(place := if w.stopSet then Leaving else Receiving)
    case Batch(offline) =>
      if !w.stopSet then w.(place := Processing) else if offline then Quit(w, Ended) else w.(place := AtHead)
    case Processed(offline) =>
      var counted := w.(errors := 0);
      if offline then Quit(counted, Ended) else counted.(place := Receiving)
    case Exhausted(offline) => if offline then Quit(w, Ended) else w.(place := AtHead)
    case Failure => w.(errors := w.errors + 1, state := Reconnecting, place := Reporting)
    case Reported(ok) =>
      if !ok then Fatal(w) else if w.errors >= threshold then Quit(w, Error) else w.(place := BackingOff)
    case StopSeen => w.(place := Leaving)
    case TimedOut => w.(place := Rejoining)
    case Reconnected(ok) => if ok then w.(state := Running, place := AtHead) else Fatal(w)
    case FatalReported => w.(place := Leaving)
    case Finish => w.(state := if Terminal(w.state) then w.state else Stopped, place := Done)
  }

  function Run(threshold: int, steps: seq<Step>): Worker {
    if steps == [] then FRESH else Next(threshold, Run(threshold, steps[..|steps| - 1]), steps[|steps| - 1])
  }

  predicate ValidRun(threshold: int, steps: seq<Step>) {
    steps == [] ||
    var before, last := steps[..|steps| - 1], steps[|steps| - 1];
    ValidRun(threshold, before) && Enabled(Run(threshold, before), last)
  }

  lemma RunExtends(threshold: int, steps: seq<Step>, next: Step)
    ensures Run(threshold, steps + [next]) == Next(threshold, Run(threshold, steps), next)
    ensures ValidRun(threshold, steps + [next])
            <==> ValidRun(threshold, steps) && Enabled(Run(threshold, steps), next)
  {
  }

  // ----- the object -----

  class StreamWorkerSession {
    const threshold: int
    var state: WorkerState
    var errors: int
    var stopSet: bool
    var place: Place
    var stop: StopPlace
    /** Where loops of earlier starts are that had not ended when a later start took their place. */
    var others: seq<Place>

    function Value(): Worker
      reads this
    {
      Worker(state, errors, stopSet, place, stop)
    }

    constructor (threshold: int)
      ensures this.threshold == threshold && Value() == FRESH && others == []
    {
      this.threshold, others := threshold, [];
      state, errors, stopSet, place, stop := Idle, 0, false, NoLoop, NoStop;
    }

    /** Refused by the state alone: a loop that is still active goes on beside the new one. */
    method Start()
      requires stop.NoStop?
      modifies this
      ensures Value() == Next(threshold, old(Value()), Step.Start)
      ensures others
              == if !StartRefused(old(state)) && Active(old(place)) then old(others) + [old(place)] else old(others)
    {
      if state == Running || state == Starting {
        return;
      }
      if Active(place) {
        others := others + [place];
      }
      state := Starting;
      stopSet := false;
      place := Created;
    }

    /** Stop up to closing the transport. */
    method BeginStop()
      requires Enabled(Value(), StopBegin)
      modifies this
      ensures Value() == Next(threshold, old(Value()), StopBegin) && others == old(others)
    {
      if state == Stopped || state == Ended || state == Idle {
        return;
      }
      state := Stopping;
      stopSet := true;
      stop := Closing;
    }

    /** Stop once the loop is gone. */
    method EndStop()
      requires Enabled(Value(), StopEnd)
      modifies this
      ensures Value() == Next(threshold, old(Value()), StopEnd) && others == old(others)
    {
      if state != Ended {
        state := Stopped;
      }
      stop := NoStop;
    }

    /** A batch has been handed on completely. */
    method BatchProcessed(offline: bool)
      requires Enabled(Value(), Processed(offline))
      modifies this
      ensures Value() == Next(threshold, old(Value()), Processed(offline)) && others == old(others)
    {
      errors := 0;
      place := Receiving;
      if offline {
        state := Ended;
        place := Leaving;
      }
    }

    /** The handler of an exception in the loop, before its event is published. */
    method Failed()
      requires Enabled(Value(), Failure)
      modifies this
      ensures Value() == Next(threshold, old(Value()), Failure) && others == old(others)
    {
      errors := errors + 1;
      state := Reconnecting;
      place := Reporting;
    }

    /** The handler once the event is published: give up or back off. */
    method FailureReported()
      requires Enabled(Value(), Reported(true))
      modifies this
      ensures Value() == Next(threshold, old(Value()), Reported(true)) && others == old(others)
    {
      if errors >= threshold {
        state := Error;
        place := Leaving;
      } else {
        place := BackingOff;
      }
    }

    /** The last block of the loop. */
    method FinishLoop()
      requires Enabled(Value(), Finish)
      modifies this
      ensures Value() == Next(threshold, old(Value()), Finish) && others == old(others)
    {
      if state != Error && state != Stopped && state != Ended {
        state := Stopped;
      }
      place := Done;
    }
  }

  // ----- what every run keeps -----

  predicate Sound(w: Worker) {
    && (w.state.Idle? <==> w.place.NoLoop?)
    && (w.state.Stopped? || w.state.Ended? ==> w.place.Leaving? || w.place.Done?)
    && (w.stop.Closing? || w.stop.Waiting? ==> w.stopSet && !w.place.NoLoop?)
    && (w.state.Stopping? ==> w.stopSet)
  }

  lemma StepKeepsSound(threshold: int, w: Worker, step: Step)
    requires Sound(w) && Enabled(w, step)
    ensures Sound(Next(threshold, w, step))
  {
  }

  lemma {:induction false} EveryRunIsSound(threshold: int, steps: seq<Step>)
    requires ValidRun(threshold, steps)
    ensures Sound(Run(threshold, steps))
  {
    if steps != [] {
      var before := steps[..|steps| - 1];
      EveryRunIsSound(threshold, before);
      StepKeepsSound(threshold, Run(threshold, before), steps[|steps| - 1]);
    }
  }

  predicate NoStart(steps: seq<Step>) { forall i :: 0 <= i < |steps| ==> !steps[i].Start? }

  predicate Quiet(w: Worker) {
    w.stop.NoStop? && (w.state.Stopped? || w.state.Ended?) && (w.place.Leaving? || w.place.Done?)
  }

  /** The step with which a call of stop on a started worker returns. */
  predicate StopReturns(w: Worker, step: Step) {
    step.StopEnd? || (step.StopBegin? && (w.state.Stopped? || w.state.Ended?))
  }

  lemma QuietStepStaysQuiet(threshold: int, w: Worker, step: Step)
    requires Quiet(w) && Enabled(w, step) && !step.Start?
    ensures Quiet(Next(threshold, w, step))
  {
  }

  lemma {:induction false} QuietStaysQuiet(threshold: int, steps: seq<Step>, more: seq<Step>)
    requires ValidRun(threshold, steps + more) && Quiet(Run(threshold, steps)) && NoStart(more)
    ensures Quiet(Run(threshold, steps + more))
    decreases |more|
  {
    if more == [] {
      assert steps + more == steps;
    } else {
      var fewer, last := more[..|more| - 1], more[|more| - 1];
      assert steps + more == (steps + fewer) + [last];
      RunExtends(threshold, steps + fewer, last);
      QuietStaysQuiet(threshold, steps, fewer);
      QuietStepStaysQuiet(threshold, Run(threshold, steps + fewer), last);
    }
  }

  /** Main result: a stop on a started worker that returns leaves it stopped or ended, and so it stays until
      the next start: no loop takes another batch. */
  lemma StoppedStaysStopped(threshold: int, steps: seq<Step>, stop: Step, more: seq<Step>)
    requires ValidRun(threshold, steps + [stop]) && ValidRun(threshold, steps + [stop] + more)
    requires StopReturns(Run(threshold, steps), stop) && NoStart(more)
    ensures Quiet(Run(threshold, steps + [stop] + more))
  {
    RunExtends(threshold, steps, stop);
    EveryRunIsSound(threshold, steps);
    QuietStaysQuiet(threshold, steps + [stop], more);
  }

  // ----- stop is bounded -----

  predicate OfLoop(step: Step) { !step.Start? && !step.StopBegin? && !step.Closed? && !step.StopEnd? }

  /** Steps a loop can still take once its stop event is set. */
  function Rank(p: Place): nat {
    match p
    case NoLoop => 0
    case Created => 12
    case ResolvingChat => 11
    case Connecting => 10
    case SettingUp => 9
    case Processing => 8
    case Receiving => 7
    case Reporting => 6
    case BackingOff => 5
    case Rejoining => 4
    case AtHead => 3
    case ReportingFatal => 2
    case Leaving => 1
    case Done => 0
  }

  lemma StoppingLoopDescends(threshold: int, w: Worker, step: Step)
    requires w.stopSet && Enabled(w, step) && !step.Start?
    ensures var after := Next(threshold, w, step);
            after.stopSet && (if OfLoop(step) then Rank(after.place) < Rank(w.place) else after.place == w.place)
  {
  }

  function LoopSteps(steps: seq<Step>): nat {
    if steps == [] then 0 else LoopSteps(steps[..|steps| - 1]) + if OfLoop(steps[|steps| - 1]) then 1 else 0
  }

  /** Main result: once a stop has begun, the loop takes at most twelve more steps, however its calls end
      and even if nothing is cancelled. */
  lemma {:induction false} StopIsBounded(threshold: int, steps: seq<Step>, more: seq<Step>)
    requires ValidRun(threshold, steps + more) && Run(threshold, steps).stopSet && NoStart(more)
    ensures var w := Run(threshold, steps + more);
            w.stopSet && LoopSteps(more) + Rank(w.place) <= Rank(Run(threshold, steps).place) <= 12
    decreases |more|
  {
    if more == [] {
      assert steps + more == steps;
    } else {
      var fewer, last := more[..|more| - 1], more[|more| - 1];
      assert steps + more == (steps + fewer) + [last];
      RunExtends(threshold, steps + fewer, last);
      StopIsBounded(threshold, steps, fewer);
      StoppingLoopDescends(threshold, Run(threshold, steps + fewer), last);
    }
  }

  /** While stop waits, either it can return or the loop can go on without being cancelled. */
  lemma StopIsNeverStuck(w: Worker)
    requires w.stop.Waiting?
    ensures Enabled(w, StopEnd) || exists step :: OfLoop(step) && !step.Cancel? && Enabled(w, step)
  {
    var step := match w.place
      case Created => Begin(true)
      case ResolvingChat => Resolved(true)
      case Connecting => Connected(true)
      case SettingUp => SetUp(true)
      case Processing => Processed(true)
      case Receiving => Batch(true)
      case Reporting => Reported(true)
      case BackingOff => TimedOut
      case Rejoining => Reconnected(true)
      case AtHead => Look
      case ReportingFatal => FatalReported
      case _ => Finish;
    assert Active(w.place) ==> OfLoop(step) && Enabled(w, step);
  }

  // ----- the error threshold -----

  /** Failures with no completed batch between them, over all starts. */
  function FailuresInARow(steps: seq<Step>): nat {
    if steps == [] then 0 else
      var before := FailuresInARow(steps[..|steps| - 1]);
      match steps[|steps| - 1]
      case Failure => before + 1
      case Processed(_) => 0
      case _ => before
  }

  lemma {:induction false} ErrorsCountFailures(threshold: int, steps: seq<Step>)
    ensures Run(threshold, steps).errors == FailuresInARow(steps)
  {
    if steps != [] {
      ErrorsCountFailures(threshold, steps[..|steps| - 1]);
    }
  }

  predicate OneStart(steps: seq<Step>) {
    forall i, j :: 0 <= i < j < |steps| ==> !(steps[i].Start? && steps[j].Start?)
  }

  /** The chat is found, and connecting, setting up, publishing and reconnecting succeed. */
  predicate Smooth(step: Step) {
    match step
    case Resolved(found) => found
    case Connected(ok) => ok
    case SetUp(ok) => ok
    case Reported(ok) => ok
    case Reconnected(ok) => ok
    case _ => true
  }

  predicate AllSmooth(steps: seq<Step>) { forall i :: 0 <= i < |steps| ==> Smooth(steps[i]) }

  predicate NeverStopped(steps: seq<Step>) { forall i :: 0 <= i < |steps| ==> !steps[i].StopBegin? }

  predicate Counting(threshold: int, w: Worker, undisturbed: bool) {
    && 0 <= w.errors <= threshold
    && (w.errors == threshold ==> w.place.Reporting? || w.place.Leaving? || w.place.Done?)
    && (w.state.Error? ==> w.errors == threshold && (w.place.Leaving? || w.place.Done?))
    && (w.stop.NoStop? ==> !w.place.ReportingFatal?)
    && (undisturbed ==> !w.stopSet && w.stop.NoStop?)
    && (undisturbed && (w.place.Leaving? || w.place.Done?) ==>
          w.state == if w.errors == threshold then Error else Ended)
  }

  lemma StepKeepsCounting(threshold: int, w: Worker, step: Step, undisturbed: bool)
    requires threshold >= 1 && Counting(threshold, w, undisturbed) && Enabled(w, step) && Smooth(step)
    requires !w.place.ReportingFatal?
    requires step.Start? ==> !w.place.Done?
    requires undisturbed ==> !step.StopBegin?
    ensures Counting(threshold, Next(threshold, w, step), undisturbed)
    ensures !Next(threshold, w, step).place.ReportingFatal?
  {
  }

  lemma {:induction false} NotStartedYet(threshold: int, steps: seq<Step>)
    requires ValidRun(threshold, steps) && NoStart(steps)
    ensures Run(threshold, steps) == FRESH
  {
    if steps != [] {
      NotStartedYet(threshold, steps[..|steps| - 1]);
    }
  }

  lemma {:induction false} RunKeepsCounting(threshold: int, steps: seq<Step>)
    requires threshold >= 1 && ValidRun(threshold, steps) && OneStart(steps) && AllSmooth(steps)
    ensures Counting(threshold, Run(threshold, steps), NeverStopped(steps))
    ensures !Run(threshold, steps).place.ReportingFatal?
  {
    if steps != [] {
      var before, last := steps[..|steps| - 1], steps[|steps| - 1];
      RunKeepsCounting(threshold, before);
      if last.Start? {
        assert forall i :: 0 <= i < |before| ==> before[i] == steps[i];
        NotStartedYet(threshold, before);
      }
      assert NeverStopped(steps) ==> NeverStopped(before) && !last.StopBegin?;
      StepKeepsCounting(threshold, Run(threshold, before), last, NeverStopped(steps));
    }
  }

  /** Main result: started once, with reconnects succeeding, the worker sees at most `threshold` failures in
      a row, turns to the error state only at the last of them, and is on its way out by then; if nobody
      stops it, it leaves in error exactly when that many came in a row, and ended otherwise. */
  lemma ErrorExactlyAtThreshold(threshold: int, steps: seq<Step>)
    requires threshold >= 1 && ValidRun(threshold, steps) && OneStart(steps) && AllSmooth(steps)
    ensures var w, failures := Run(threshold, steps), FailuresInARow(steps);
            && failures <= threshold
            && (w.state.Error? ==> failures == threshold)
            && (failures == threshold ==> w.place.Reporting? || w.place.Leaving? || w.place.Done?)
            && (NeverStopped(steps) && (w.place.Leaving? || w.place.Done?) ==>
                  w.state == if failures == threshold then Error else Ended)
  {
    RunKeepsCounting(threshold, steps);
    ErrorsCountFailures(threshold, steps);
  }

  /** With any number of starts and any outcome, a reported failure is the last one exactly when the failures in
      a row, counted across starts, have reached the threshold. */
  lemma TripsByHistory(threshold: int, steps: seq<Step>)
    requires ValidRun(threshold, steps + [Reported(true)])
    ensures Run(threshold, steps + [Reported(true)]).state.Error? <==> FailuresInARow(steps) >= threshold
  {
    RunExtends(threshold, steps, Reported(true));
    ErrorsCountFailures(threshold, steps);
    ReportingIsNoError(threshold, steps);
  }

  lemma {:induction false} ReportingIsNoError(threshold: int, steps: seq<Step>)
    requires ValidRun(threshold, steps)
    ensures Run(threshold, steps).state.Error? ==>
              var p := Run(threshold, steps).place; p.ReportingFatal? || p.Leaving? || p.Done?
  {
    if steps != [] {
      ReportingIsNoError(threshold, steps[..|steps| - 1]);
    }
  }

  /** A start does not reset the count: a worker restarted after its error gives up at the first failure. */
  lemma RestartGivesUpAtOnce(threshold: int, w: Worker)
    requires w.state.Error? && w.place.Done? && w.stop.NoStop? && w.errors >= threshold
    ensures var started := Next(threshold, w, Start);
            var running := Next(threshold, Next(threshold, Next(threshold, Next(threshold, started, Begin(true)),
                                Connected(true)), SetUp(true)), Look);
            && Enabled(w, Start) && running.state.Running? && running.place.Receiving?
            && Next(threshold, Next(threshold, running, Failure), Reported(true)).state.Error?
  {
  }

  /** Whether the latest loop knew its chat when it began. */
  function KnewChat(steps: seq<Step>): bool {
    if steps == [] then false
    else if steps[|steps| - 1].Begin? then steps[|steps| - 1].known
    else KnewChat(steps[..|steps| - 1])
  }

  /** While the stop event is not set, the place of the loop determines the state. */
  predicate StateOfPlace(w: Worker, known: bool) {
    w.stopSet ||
    match w.place
    case NoLoop => w.state.Idle?
    case Created => w.state.Starting?
    case ResolvingChat => w.state.Resolving? && !known
    case Connecting => w.state == if known then Starting else Resolving
    case SettingUp => w.state.Running?
    case Processing => w.state.Running?
    case Receiving => w.state.Running?
    case AtHead => w.state.Running?
    case Reporting => w.state.Reconnecting?
    case BackingOff => w.state.Reconnecting?
    case Rejoining => w.state.Reconnecting?
    case ReportingFatal => w.state.Error?
    case Leaving => Terminal(w.state)
    case Done => Terminal(w.state)
  }

  lemma StepKeepsStateOfPlace(threshold: int, w: Worker, step: Step, known: bool)
    requires Sound(w) && StateOfPlace(w, known) && Enabled(w, step)
    ensures StateOfPlace(Next(threshold, w, step), if step.Begin? then step.known else known)
  {
  }

  lemma {:induction false} PlaceDeterminesState(threshold: int, steps: seq<Step>)
    requires ValidRun(threshold, steps)
    ensures StateOfPlace(Run(threshold, steps), KnewChat(steps))
  {
    if steps != [] {
      var before := steps[..|steps| - 1];
      PlaceDeterminesState(threshold, before);
      EveryRunIsSound(threshold, before);
      StepKeepsStateOfPlace(threshold, Run(threshold, before), steps[|steps| - 1], KnewChat(before));
    }
  }

  /** The places at which the guard of start overlooks a loop. */
  predicate Overlooked(p: Place, known: bool) {
    || p.ResolvingChat? || p.Reporting? || p.BackingOff? || p.Rejoining? || p.ReportingFatal? || p.Leaving?
    || (p.Connecting? && !known)
  }

  /** Whether, since the last stop, the loop has set the state to running and not to anything else. */
  function BackSince(steps: seq<Step>): bool {
    if steps == [] then false else
      var before := BackSince(steps[..|steps| - 1]);
      match steps[|steps| - 1]
      case Connected(ok) => ok
      case Reconnected(ok) => ok
      case Start => before
      case Closed(_) => before
      case SetUp(ok) => before && ok
      case Look => before
      case Batch(offline) => before && !offline
      case Exhausted(offline) => before && !offline
      case Processed(offline) => before && !offline
      case _ => false
  }

  /** With the stop event set, the state is running exactly if the loop set it since, and never starting. */
  predicate StateSinceStop(w: Worker, back: bool) {
    w.stopSet ==>
      && !w.state.Starting? && (w.state.Running? <==> back)
      && (back ==> w.place.SettingUp? || w.place.AtHead? || w.place.Leaving?)
  }

  lemma StepKeepsStateSinceStop(threshold: int, w: Worker, step: Step, steps: seq<Step>)
    requires Sound(w) && StateOfPlace(w, KnewChat(steps)) && StateSinceStop(w, BackSince(steps)) && Enabled(w, step)
    ensures StateSinceStop(Next(threshold, w, step), BackSince(steps + [step]))
  {
    assert (steps + [step])[..|steps|] == steps;
  }

  lemma {:induction false} StopDeterminesState(threshold: int, steps: seq<Step>)
    requires ValidRun(threshold, steps)
    ensures StateSinceStop(Run(threshold, steps), BackSince(steps))
  {
    if steps != [] {
      var before, last := steps[..|steps| - 1], steps[|steps| - 1];
      StopDeterminesState(threshold, before);
      EveryRunIsSound(threshold, before);
      PlaceDeterminesState(threshold, before);
      StepKeepsStateSinceStop(threshold, Run(threshold, before), last, before);
      assert steps == before + [last];
    }
  }

  /** Main result: while a loop is active, a start is let through exactly when, with no stop event set, the loop is
      resolving its chat or connecting after it, dealing with a failure, or leaving; and, with the event left set by
      a stop that failed, unless the loop has come to run again since. */
  lemma StartBesideActiveLoop(threshold: int, steps: seq<Step>)
    requires ValidRun(threshold, steps) && Active(Run(threshold, steps).place)
    ensures var w := Run(threshold, steps);
            !StartRefused(w.state) <==> if w.stopSet then !BackSince(steps) else Overlooked(w.place, KnewChat(steps))
  {
    PlaceDeterminesState(threshold, steps);
    StopDeterminesState(threshold, steps);
  }

  /** In particular a second start gets through while the loop of the first is resolving the chat. */
  lemma GuardMissesActiveLoop(threshold: int)
    ensures ValidRun(threshold, [Start, Begin(false)])
    ensures Run(threshold, [Start, Begin(false)]) == Worker(Resolving, 0, false, ResolvingChat, NoStop)
    ensures var w := Run(threshold, [Start, Begin(false)]);
            Active(w.place) && w.stop.NoStop? && !StartRefused(w.state)
  {
    RunExtends(threshold, [], Start);
    RunExtends(threshold, [Start], Begin(false));
    assert [] + [Start] == [Start] && [Start] + [Begin(false)] == [Start, Begin(false)];
  }
}
