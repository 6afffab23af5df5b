/** Why the loop of a worker ends, and in which state. */
module WorkerExits {
  import opened Worker

  /** Ways a loop that nobody stops comes to its end. */
  datatype Exit = Going | StreamEnded | ChatNotFound | CallFailed | GaveUp

  /** The latest step that decides about the end, read off the run: the stream was offline after a batch or at the
      end of the messages, the chat was not found, an awaited call failed, or a failure in a row of `threshold` was
      reported. */
  function ExitOf(threshold: int, steps: seq<Step>): Exit {
    if steps == [] then Going else
      var before := steps[..|steps| - 1];
      match steps[|steps| - 1]
      case Start => Going
      case Processed(offline) => if offline then StreamEnded else Going
      case Exhausted(offline) => if offline then StreamEnded else Going
      case Resolved(found) => if found then Going else ChatNotFound
      case Connected(ok) => if ok then Going else CallFailed
      case SetUp(ok) => if ok then Going else CallFailed
      case Reconnected(ok) => if ok then Going else CallFailed
      case Reported(ok) =>
        if !ok then CallFailed else if FailuresInARow(before) >= threshold then GaveUp else Going
      case _ => ExitOf(threshold, before)
  }

  /** The state a worker ends in. */
  function EndState(exit: Exit): WorkerState { if exit.StreamEnded? then Ended else Error }

  /** The place agrees with the exit: a loop is on its way out exactly when there is a reason to end. */
  predicate Follows(w: Worker, exit: Exit) {
    && !w.stopSet && w.stop.NoStop?
    && (w.place.ReportingFatal? ==> exit.CallFailed? && w.state.Error?)
    && (w.place.Leaving? || w.place.Done? ==> !exit.Going? && w.state == EndState(exit))
    && (!(w.place.ReportingFatal? || w.place.Leaving? || w.place.Done?) ==> exit.Going?)
  }

  lemma StepFollows(threshold: int, w: Worker, step: Step, steps: seq<Step>)
    requires Follows(w, ExitOf(threshold, steps)) && Enabled(w, step) && !step.StopBegin?
    requires w.errors == FailuresInARow(steps) && StateOfPlace(w, KnewChat(steps))
    ensures Follows(Next(threshold, w, step), ExitOf(threshold, steps + [step]))
  {
    assert (steps + [step])[..|steps|] == steps;
  }

  lemma {:induction false} EveryRunFollows(threshold: int, steps: seq<Step>)
    requires ValidRun(threshold, steps) && NeverStopped(steps)
    ensures Follows(Run(threshold, steps), ExitOf(threshold, steps))
  {
    if steps != [] {
      var before, last := steps[..|steps| - 1], steps[|steps| - 1];
      EveryRunFollows(threshold, before);
      ErrorsCountFailures(threshold, before);
      PlaceDeterminesState(threshold, before);
      StepFollows(threshold, Run(threshold, before), last, before);
      assert steps == before + [last];
    }
  }

  /** Main result: on every run that nobody stops, with any outcome of any awaited call and any number of starts, the
      loop is on its way out if and only if there is a reason for it; the worker ends in state ended exactly when the
      stream was offline, and in error when the chat was not found, a call failed, or it gave up. */
  lemma EndsForAReason(threshold: int, steps: seq<Step>)
    requires ValidRun(threshold, steps) && NeverStopped(steps)
    ensures var w, exit := Run(threshold, steps), ExitOf(threshold, steps);
            && (!exit.Going? <==> w.place.ReportingFatal? || w.place.Leaving? || w.place.Done?)
            && (w.place.Leaving? || w.place.Done? ==>
                  && (w.state.Ended? <==> exit.StreamEnded?)
                  && (w.state.Error? <==> exit.ChatNotFound? || exit.CallFailed? || exit.GaveUp?))
  {
    EveryRunFollows(threshold, steps);
  }

  /** An offline stream ends the loop at once, stopped or not: no further batch is taken. */
  lemma OfflineLeaves(threshold: int, steps: seq<Step>, step: Step)
    requires ValidRun(threshold, steps + [step])
    requires step == Processed(true) || step == Exhausted(true)
    ensures var w := Run(threshold, steps + [step]); w.state.Ended? && w.place.Leaving?
    ensures var w := Run(threshold, steps + [step] + [Finish]); w.state.Ended? && w.place.Done?
  {
    RunExtends(threshold, steps, step);
    RunExtends(threshold, steps + [step], Finish);
  }

  /** The way a stream that is found takes from the start to its first batch, and on to the next. */
  lemma TakesBatches(threshold: int, w: Worker)
    requires (w.state.Idle? || Terminal(w.state)) && !Active(w.place) && w.stop.NoStop?
    ensures var created := Next(threshold, w, Start);
            var found := Next(threshold, Next(threshold, created, Begin(false)), Resolved(true));
            var up := Next(threshold, Next(threshold, found, Connected(true)), SetUp(true));
            var receiving := Next(threshold, up, Look);
            var done := Next(threshold, Next(threshold, receiving, Batch(false)), Processed(false));
            && Enabled(w, Start) && created.state.Starting? && created.place.Created?
            && found.place.Connecting? && up.state.Running? && up.place.AtHead?
            && receiving.state.Running? && receiving.place.Receiving?
            && done.state.Running? && done.place.Receiving? && done.errors == 0
  {
  }

  /** A failure below the threshold is followed by a pause and a reconnection, after which the worker runs again. */
  lemma FailureIsRetried(threshold: int, w: Worker)
    requires (w.place.Receiving? || w.place.Processing?) && !w.stopSet && w.errors + 1 < threshold
    ensures var paused := Next(threshold, Next(threshold, w, Failure), Reported(true));
            var back := Next(threshold, Next(threshold, paused, TimedOut), Reconnected(true));
            && Enabled(w, Failure) && paused.state.Reconnecting? && paused.place.BackingOff?
            && back.state.Running? && back.place.AtHead? && back.errors == w.errors + 1
  {
  }
}
