/**
 * The guard that starts the background reminder worker at most once per
 * process, even when the development server's autoreloader runs the
 * application's start-up code again.
 */
module Startup {
  import opened Options

  /** Whether the environment marks this process as the autoreloader's serving child. */
  predicate IsRunMain(runMain: Option<string>) {
    runMain == Some("true")
  }

  /** The module-level started flag and the number of worker threads started so far. */
  datatype GuardState = GuardState(started: bool, workers: nat)

  /**
   * The effect of one call of the guard: nothing happens if the worker was
   * already started, or if debug mode is on outside the serving child;
   * otherwise one worker is started and the flag is set.
   */
  function AfterStart(s: GuardState, debug: bool, runMain: Option<string>): GuardState {
    if s.started || (!IsRunMain(runMain) && debug) then s
    else GuardState(true, s.workers + 1)
  }

  /** The process-wide guard, holding the state that the source keeps in a module global. */
  class NotifierProcess {
    var started: bool
    var workers: nat

    /** One worker has been started exactly when the flag is set. */
    ghost predicate Valid()
      reads this
    {
      workers == if started then 1 else 0
    }

    constructor ()
      ensures Valid()
      ensures !started && workers == 0
    {
      started := false;
      workers := 0;
    }

    function State(): GuardState
      reads this
    {
      GuardState(started, workers)
    }

    /** Starts the reminder worker unless the guard says not to. */
    method StartOnce(debug: bool, runMain: Option<string>)
      requires Valid()
      modifies this
      ensures Valid()
      ensures State() == AfterStart(old(State()), debug, runMain)
    {
      if started || (!IsRunMain(runMain) && debug) {
        return;
      }
      workers := workers + 1;
      started := true;
    }
  }

  /** The arguments of one call of the guard: the debug setting and the RUN_MAIN variable, if set. */
  datatype StartCall = StartCall(debug: bool, runMain: Option<string>)

  /** The guard's state after `calls`, made one after another from `s`. */
  function Replay(s: GuardState, calls: seq<StartCall>): GuardState
    decreases |calls|
  {
    if calls == [] then s
    else Replay(AfterStart(s, calls[0].debug, calls[0].runMain), calls[1..])
  }

  /** Once the flag is set, every later call returns without starting anything. */
  lemma {:induction false} StartedGuardIgnoresCalls(s: GuardState, calls: seq<StartCall>)
    requires s.started
    ensures Replay(s, calls) == s
    decreases |calls|
  {
    if calls != [] {
      StartedGuardIgnoresCalls(s, calls[1..]);
    }
  }

  /**
   * Calls made in debug mode outside the serving child never start a worker
   * and leave the flag false.
   */
  lemma {:induction false} DebugReloaderParentNeverStarts(s: GuardState, calls: seq<StartCall>)
    requires forall k :: 0 <= k < |calls| ==> calls[k].debug && !IsRunMain(calls[k].runMain)
    ensures Replay(s, calls) == s
    decreases |calls|
  {
    if calls != [] {
      DebugReloaderParentNeverStarts(s, calls[1..]);
    }
  }

  /**
   * However many times, and with whatever settings, the guard is called,
   * a process starts at most one worker, and it has started one exactly when
   * the flag is set.
   */
  lemma {:induction false} AtMostOneWorker(s: GuardState, calls: seq<StartCall>)
    requires s.workers == if s.started then 1 else 0
    ensures Replay(s, calls).workers == if Replay(s, calls).started then 1 else 0
    ensures Replay(s, calls).workers <= 1
    decreases |calls|
  {
    if calls != [] {
      AtMostOneWorker(AfterStart(s, calls[0].debug, calls[0].runMain), calls[1..]);
    }
  }

  /** A call outside debug mode, or in the serving child, starts the worker of an unstarted process. */
  lemma FirstEligibleCallStarts(s: GuardState, debug: bool, runMain: Option<string>)
    requires !s.started && (!debug || IsRunMain(runMain))
    ensures AfterStart(s, debug, runMain) == GuardState(true, s.workers + 1)
  {
  }
}
