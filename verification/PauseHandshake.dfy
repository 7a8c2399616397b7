/**
 The two atomics with which an updater holds back the deployment worker. One atomic access is one
 step, so a run interleaves the worker with any number of other threads.
 */
module PauseHandshake {

  type Thread = nat

  /** Where the worker's loop stands; the name says what it does next. */
  datatype Location =
    | ReceiveJob | StoreRunning | LoadPaused | RetractRunning | Sleep
    | ProcessJob | ClearRunning | MarkFailure

  datatype State = State(paused: bool, running: bool, worker: Location)

  datatype Step =
    | Receive                         // a job arrives
    | Announce                        // begin_deployment: RUNNING := true
    | Check                           // begin_deployment: read PAUSED
    | Retract                         // begin_deployment: RUNNING := false
    | Wake                            // the pause poll ends
    | Process(last: bool)             // one step of process_job
    | Clear                           // run: RUNNING := false
    | Report(failed: bool)            // run: the failure mark, or nothing after a success
    | Pause(thread: Thread)
    | Resume(thread: Thread)
    | ReadRunning(thread: Thread, seen: bool)

  const INITIAL := State(false, false, ReceiveJob)

  predicate Enabled(s: State, step: Step) {
    match step
    case Receive => s.worker == ReceiveJob
    case Announce => s.worker == StoreRunning
    case Check => s.worker == LoadPaused
    case Retract => s.worker == RetractRunning
    case Wake => s.worker == Sleep
    case Process(_) => s.worker == ProcessJob
    case Clear => s.worker == ClearRunning
    case Report(_) => s.worker == MarkFailure
    case Pause(_) => true
    case Resume(_) => true
    case ReadRunning(_, seen) => seen == s.running
  }

  function Apply(s: State, step: Step): State {
    match step
    case Receive => s.(worker := StoreRunning)
    case Announce => s.(running := true, worker := LoadPaused)
    case Check => s.(worker := if s.paused then RetractRunning else ProcessJob)
    case Retract => s.(running := false, worker := Sleep)
    case Wake => s.(worker := StoreRunning)
    case Process(last) => if last then s.(worker := ClearRunning) else s
    case Clear => s.(running := false, worker := MarkFailure)
    case Report(_) => s.(worker := ReceiveJob)
    case Pause(_) => s.(paused := true)
    case Resume(_) => s.(paused := false)
    case ReadRunning(_, _) => s
  }

  ghost predicate IsRun(s: State, steps: seq<Step>)
    decreases |steps|
  {
    steps == [] || (Enabled(s, steps[0]) && IsRun(Apply(s, steps[0]), steps[1..]))
  }

  ghost predicate NoResume(steps: seq<Step>) {
    forall step <- steps :: !step.Resume?
  }

  ghost predicate NoProcess(steps: seq<Step>) {
    forall step <- steps :: !step.Process?
  }

  ghost function After(s: State, steps: seq<Step>): State
    decreases |steps|
  {
    if steps == [] then s else After(Apply(s, steps[0]), steps[1..])
  }

  /** RUNNING tells from just before the pause check until the job is done or held back. */
  ghost predicate Consistent(s: State) {
    s.running <==> s.worker in {LoadPaused, RetractRunning, ProcessJob, ClearRunning}
  }

  /** PAUSED is up and the worker is outside `process_job`. */
  ghost predicate Held(s: State) {
    s.paused && s.worker != ProcessJob
  }

  lemma {:induction false} ConsistentAlongRuns(s: State, steps: seq<Step>)
    requires Consistent(s) && IsRun(s, steps)
    ensures Consistent(After(s, steps))
    decreases |steps|
  {
    if steps != [] {
      ConsistentAlongRuns(Apply(s, steps[0]), steps[1..]);
    }
  }

  lemma {:induction false} HeldUntilResume(s: State, steps: seq<Step>)
    requires Held(s) && IsRun(s, steps)
    requires NoResume(steps)
    ensures Held(After(s, steps)) && NoProcess(steps)
    decreases |steps|
  {
    if steps != [] {
      HeldUntilResume(Apply(s, steps[0]), steps[1..]);
    }
  }

  lemma {:induction false} PausedUntilResume(s: State, steps: seq<Step>)
    requires s.paused && IsRun(s, steps)
    requires NoResume(steps)
    ensures After(s, steps).paused
    decreases |steps|
  {
    if steps != [] {
      PausedUntilResume(Apply(s, steps[0]), steps[1..]);
    }
  }

  lemma {:induction false} RunsSplit(s: State, first: seq<Step>, second: seq<Step>)
    ensures IsRun(s, first + second) <==> IsRun(s, first) && IsRun(After(s, first), second)
    ensures After(s, first + second) == After(After(s, first), second)
    decreases |first|
  {
    if first == [] {
      assert first + second == second;
    } else {
      assert (first + second)[0] == first[0] && (first + second)[1..] == first[1..] + second;
      RunsSplit(Apply(s, first[0]), first[1..], second);
    }
  }

  /**
   In every interleaving: once a thread has stored PAUSED and then read RUNNING as false, no step of
   `process_job` runs until some thread resumes.
   */
  lemma Handshake(before: seq<Step>, thread: Thread, between: seq<Step>, after: seq<Step>)
    requires IsRun(INITIAL, before + [Pause(thread)] + between + [ReadRunning(thread, false)] + after)
    requires NoResume(between + after)
    ensures NoProcess(after)
  {
    var read := [ReadRunning(thread, false)];
    var upToPause := before + [Pause(thread)];
    RunsSplit(INITIAL, upToPause + between + read, after);
    RunsSplit(INITIAL, upToPause + between, read);
    RunsSplit(INITIAL, upToPause, between);
    RunsSplit(INITIAL, before, [Pause(thread)]);
    var atPause, atRead := After(INITIAL, upToPause), After(INITIAL, upToPause + between);
    assert Apply(After(INITIAL, before), Pause(thread)).paused;
    PausedUntilResume(atPause, between);
    ConsistentAlongRuns(INITIAL, upToPause + between);
    assert Enabled(atRead, ReadRunning(thread, false));
    assert After(atRead, read) == atRead;
    HeldUntilResume(atRead, after);
  }

  /** No continuation without a resume reaches `process_job`. */
  ghost predicate QuietUntilResume(s: State) {
    forall steps: seq<Step> :: IsRun(s, steps) && NoResume(steps) ==> NoProcess(steps)
  }

  function PathToProcess(worker: Location): seq<Step>
    requires worker !in {RetractRunning, ProcessJob, ClearRunning}
  {
    match worker
    case ReceiveJob => [Receive, Announce, Check, Process(false)]
    case StoreRunning => [Announce, Check, Process(false)]
    case LoadPaused => [Check, Process(false)]
    case Sleep => [Wake, Announce, Check, Process(false)]
    case _ => [Report(false), Receive, Announce, Check, Process(false)]
  }

  /** What a reader of RUNNING == false may conclude: exactly when PAUSED is up, nothing starts before a resume. */
  lemma QuietExactlyWhenPaused(s: State)
    requires Consistent(s) && !s.running
    ensures QuietUntilResume(s) <==> s.paused
  {
    if s.paused {
      forall steps | IsRun(s, steps) && NoResume(steps)
        ensures NoProcess(steps)
      {
        HeldUntilResume(s, steps);
      }
    } else {
      var steps := PathToProcess(s.worker);
      PathReachesProcess(s);
      assert Process(false) in steps;
    }
  }

  lemma PathReachesProcess(s: State)
    requires Consistent(s) && !s.running && !s.paused
    ensures
      var steps := PathToProcess(s.worker);
      IsRun(s, steps) && steps[|steps| - 1] == Process(false) && NoResume(steps)
  {
    var steps := PathToProcess(s.worker);
    var next := Apply(s, steps[0]);
    assert next.worker in {ReceiveJob, StoreRunning, LoadPaused};
    assert steps[1..] == PathToProcess(next.worker);
    StartPathRuns(next);
  }

  lemma StartPathRuns(s: State)
    requires s.worker in {ReceiveJob, StoreRunning, LoadPaused} && !s.paused
    ensures IsRun(s, PathToProcess(s.worker))
    decreases match s.worker case ReceiveJob => 2 case StoreRunning => 1 case _ => 0
  {
    var steps := PathToProcess(s.worker);
    if s.worker == LoadPaused {
      assert steps[1..] == [Process(false)];
      assert IsRun(Apply(s, Check), steps[1..]);
    } else {
      assert steps[1..] == PathToProcess(Apply(s, steps[0]).worker);
      StartPathRuns(Apply(s, steps[0]));
    }
  }

  // ----- the job that is held back

  /** A job has been received and is not reported yet; `processed` once `process_job` has ended. */
  lemma {:induction false} JobStaysWithWorker(s: State, steps: seq<Step>, processed: bool)
    requires IsRun(s, steps) && s.worker != ReceiveJob
    requires !processed ==> s.worker !in {ClearRunning, MarkFailure}
    requires forall step <- steps :: !step.Report?
    ensures After(s, steps).worker != ReceiveJob && Receive !in steps
    ensures !processed && Process(true) !in steps ==> After(s, steps).worker !in {ClearRunning, MarkFailure}
    decreases |steps|
  {
    if steps != [] {
      assert steps[0] in steps && forall step <- steps[1..] :: step in steps;
      JobStaysWithWorker(Apply(s, steps[0]), steps[1..], processed || steps[0] == Process(true));
      assert steps == [steps[0]] + steps[1..];
    }
  }

  /**
   No job is lost, however often the worker is held back: before it receives the next one or reports on this one, it
   has processed it to its end.
   */
  lemma ReceivedJobIsProcessed(before: seq<Step>, between: seq<Step>, next: Step)
    requires IsRun(INITIAL, before + [Receive] + between + [next])
    requires next.Receive? || next.Report?
    requires forall step <- between :: !step.Report?
    ensures next.Report? && Process(true) in between
  {
    RunsSplit(INITIAL, before + [Receive] + between, [next]);
    RunsSplit(INITIAL, before + [Receive], between);
    RunsSplit(INITIAL, before, [Receive]);
    var s := After(INITIAL, before);
    assert Enabled(s, [Receive][0]);
    var received := Apply(s, Receive);
    assert After(s, [Receive]) == received by {
      assert [Receive][1..] == [];
    }
    JobStaysWithWorker(received, between, false);
    assert Enabled(After(received, between), [next][0]);
  }

  // ----- the failure mark

  ghost predicate NoMark(steps: seq<Step>) {
    forall step <- steps :: step != Report(true)
  }

  /** No continuation without a resume writes a failure mark. */
  ghost predicate UnmarkedUntilResume(s: State) {
    forall steps: seq<Step> :: IsRun(s, steps) && NoResume(steps) ==> NoMark(steps)
  }

  lemma {:induction false} ParkedUntilResume(s: State, steps: seq<Step>)
    requires s.paused && IsRun(s, steps) && NoResume(steps)
    requires s.worker !in {ProcessJob, ClearRunning, MarkFailure}
    ensures NoMark(steps)
    decreases |steps|
  {
    if steps != [] {
      ParkedUntilResume(Apply(s, steps[0]), steps[1..]);
      assert steps == [steps[0]] + steps[1..];
    }
  }

  /**
   The failure mark lies outside the handshake: for a thread that paused and read RUNNING as false, no mark is
   written before a resume exactly unless the worker has just cleared RUNNING and stands before its mark.
   */
  lemma FailureMarkEscapesExactly(s: State)
    requires Consistent(s) && s.paused && !s.running
    ensures UnmarkedUntilResume(s) <==> s.worker != MarkFailure
  {
    if s.worker == MarkFailure {
      var steps := [Report(true)];
      assert steps[1..] == [] && IsRun(s, steps) && NoResume(steps);
      assert Report(true) in steps && !NoMark(steps);
    } else {
      forall steps | IsRun(s, steps) && NoResume(steps) ensures NoMark(steps) {
        ParkedUntilResume(s, steps);
      }
    }
  }

  /** A run from the start in which the mark is written after PAUSED was stored and RUNNING read as false. */
  lemma FailureMarkEscapes(thread: Thread)
    ensures IsRun(INITIAL, [Receive, Announce, Check, Pause(thread), Process(true), Clear,
                            ReadRunning(thread, false), Report(true)])
  {
    var end := [ReadRunning(thread, false), Report(true)];
    var middle := [Pause(thread), Process(true), Clear];
    var start := [Receive, Announce, Check];
    assert start[1..] == [Announce, Check] && [Announce, Check][1..] == [Check] && [Check][1..] == [];
    assert middle[1..] == [Process(true), Clear] && [Process(true), Clear][1..] == [Clear] && [Clear][1..] == [];
    assert end[1..] == [Report(true)] && [Report(true)][1..] == [];
    RunsSplit(INITIAL, start, middle + end);
    RunsSplit(After(INITIAL, start), middle, end);
    assert start + (middle + end) == [Receive, Announce, Check, Pause(thread), Process(true), Clear,
                                      ReadRunning(thread, false), Report(true)];
  }
}
