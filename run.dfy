/**
 * tracer_run of tracer.c: attach, install the signal handlers, optionally
 * start the liveness-probe thread, poll the perf buffer until `end` is set,
 * then finalise the output and the script.
 *
 * The signal handler is not modelled: `end` is an input, the value it holds
 * when the loop first tests it and after every poll.
 */
module Run {

  /** What perf_buffer__poll returns, and whether `end` is set once it has. */
  datatype PollStep = PollStep(rc: int, endAfter: bool)

  /**
   * How the poll loop ends, with the number of polls made: `end` observed,
   * a poll failed while `end` was clear, or the input ran out while the loop
   * was still polling.
   */
  datatype LoopExit = Stopped(polls: nat) | PollFailed(polls: nat) | Exhausted(polls: nat)

  /** The `while (!end)` loop of tracer_run. */
  function PollLoop(ended: bool, polls: seq<PollStep>): LoopExit
    decreases |polls|
  {
    if ended then Stopped(0)
    else if polls == [] then Exhausted(0)
    else if polls[0].rc < 0 && !polls[0].endAfter then PollFailed(1)
    else
      var rest := PollLoop(polls[0].endAfter, polls[1..]);
      rest.(polls := rest.polls + 1)
  }

  /**
   * The inputs of tracer_run: what attach_all returns, whether the probe
   * server is enabled and what pthread_create and pthread_detach return,
   * `end` before the first poll, the polls, what output_post_trace returns,
   * and whether a script is configured.
   */
  datatype RunEnv = RunEnv(
    attachRc: int,
    probeServer: bool,
    createRc: int,
    detachRc: int,
    endInitially: bool,
    polls: seq<PollStep>,
    postTraceRc: int,
    hasScript: bool)

  /** The calls of tracer_run after attach_all, in order. */
  datatype RunEvent =
    | InstallHandlers     // signal(SIGINT / SIGTERM, handle_signal)
    | SpawnProbeServer    // pthread_create(handle_tcp_probe)
    | DetachProbeServer   // pthread_detach
    | Poll                // perf_buffer__poll(t->pb, 1000)
    | PostTrace           // output_post_trace
    | ScriptFini          // script_exec_fini

  /** Returned(rc): tracer_run returned rc; StillPolling: the input ended inside the loop. */
  datatype RunOutcome = Returned(rc: int) | StillPolling

  function Polls(k: nat): (r: seq<RunEvent>)
    ensures |r| == k && forall x :: x in r ==> x == Poll
  {
    seq(k, _ => Poll)
  }

  /** The calls before the poll loop, and what tracer_run returns if one of them fails. */
  function Setup(e: RunEnv): seq<RunEvent>
  {
    [InstallHandlers]
    + (if e.probeServer then [SpawnProbeServer] else [])
    + (if e.probeServer && e.createRc != -1 then [DetachProbeServer] else [])
  }

  /** What tracer_run returns and the calls it has made once the poll loop has ended as x. */
  function AfterLoop(e: RunEnv, x: LoopExit): (RunOutcome, seq<RunEvent>)
  {
    match x
    case Exhausted(k) => (StillPolling, Setup(e) + Polls(k))
    case PollFailed(k) => (Returned(-1), Setup(e) + Polls(k))
    case Stopped(k) =>
      var fin := Setup(e) + Polls(k) + [PostTrace];
      if e.postTraceRc == -1 then (Returned(-1), fin)
      else (Returned(0), fin + (if e.hasScript then [ScriptFini] else []))
  }

  /** The attach and the probe-server start-up succeed, so the poll loop runs. */
  predicate LoopRuns(e: RunEnv)
  {
    e.attachRc == 0 && !(e.probeServer && (e.createRc == -1 || e.detachRc == -1))
  }

  /** tracer_run, as an outcome and the calls it makes. */
  function RunSpec(e: RunEnv): (RunOutcome, seq<RunEvent>)
  {
    if e.attachRc != 0 then (Returned(-1), [])
    else if !LoopRuns(e) then (Returned(-1), Setup(e))
    else AfterLoop(e, PollLoop(e.endInitially, e.polls))
  }

  method TracerRun(e: RunEnv) returns (outcome: RunOutcome, log: seq<RunEvent>)
    ensures (outcome, log) == RunSpec(e)
  {
    log := [];
    if e.attachRc != 0 {
      return Returned(-1), log;
    }
    log := log + [InstallHandlers];
    if e.probeServer {
      log := log + [SpawnProbeServer];
      if e.createRc == -1 {
        assert log == Setup(e);
        return Returned(-1), log;
      }
      log := log + [DetachProbeServer];
      if e.detachRc == -1 {
        assert log == Setup(e);
        return Returned(-1), log;
      }
    }
    assert LoopRuns(e) && log == Setup(e) + Polls(0);
    var ended := e.endInitially;
    var k := 0;
    while !ended
      invariant 0 <= k <= |e.polls|
      invariant PollLoop(e.endInitially, e.polls) == (var r := PollLoop(ended, e.polls[k..]); r.(polls := r.polls + k))
      invariant log == Setup(e) + Polls(k)
      decreases |e.polls| - k
    {
      if k == |e.polls| {
        assert PollLoop(e.endInitially, e.polls) == Exhausted(k);
        return StillPolling, log;
      }
      var step := e.polls[k];
      assert e.polls[k..][1..] == e.polls[k + 1..];
      k := k + 1;
      log := log + [Poll];
      assert log == Setup(e) + Polls(k) by {
        assert Polls(k) == Polls(k - 1) + [Poll];
      }
      ended := step.endAfter;
      // a negative result with `end` set is a poll cancelled by the signal:
      // the loop condition then ends the loop
      if step.rc < 0 && !ended {
        assert PollLoop(e.endInitially, e.polls) == PollFailed(k);
        return Returned(-1), log;
      }
    }
    assert PollLoop(e.endInitially, e.polls) == Stopped(k);
    log := log + [PostTrace];
    if e.postTraceRc == -1 {
      return Returned(-1), log;
    }
    if e.hasScript {
      log := log + [ScriptFini];
    } else {
      // no script: the log is already RunSpec's, whose tail is `+ []`
      assert log == log + [];
    }
    return Returned(0), log;
  }

  // ---------------------------------------------------------------------
  // Properties

  /**
   * The poll loop leaves normally only after `end` is observed, and a
   * negative poll result leaves it normally only when `end` is set; a
   * negative result with `end` clear ends it with an error at once. Every
   * earlier poll returned a non-negative result with `end` clear.
   */
  lemma {:induction false} PollLoopExits(ended: bool, polls: seq<PollStep>)
    ensures var x := PollLoop(ended, polls);
      x.polls <= |polls| &&
      (x.Stopped? ==> (x.polls == 0 <==> ended) && (x.polls > 0 ==> polls[x.polls - 1].endAfter)) &&
      (x.PollFailed? ==> x.polls > 0 && polls[x.polls - 1].rc < 0 && !polls[x.polls - 1].endAfter) &&
      (x.Exhausted? ==> x.polls == |polls|) &&
      (forall j :: 0 <= j < x.polls - 1 ==> polls[j].rc >= 0 && !polls[j].endAfter)
    decreases |polls|
  {
    if !ended && polls != [] && !(polls[0].rc < 0 && !polls[0].endAfter) {
      PollLoopExits(polls[0].endAfter, polls[1..]);
    }
  }

  /** A failed attach_all returns -1 before any handler is installed. */
  lemma AttachFailureInstallsNothing(e: RunEnv)
    requires e.attachRc != 0
    ensures RunSpec(e) == (Returned(-1), [])
  {
  }

  /** The calls before and during the loop include no finalisation. */
  lemma SetupAndPollsDoNotFinalise(e: RunEnv, k: nat)
    ensures var pre := Setup(e) + Polls(k);
      multiset(pre)[PostTrace] == 0 && ScriptFini !in pre
  {
    var pre := Setup(e) + Polls(k);
    assert PostTrace !in pre;
    assert multiset(pre)[PostTrace] == 0;
  }

  /**
   * tracer_run ends in one of three ways: still polling when the input runs
   * out inside the loop, 0, or -1. It returns -1 exactly when attach_all or
   * the probe-server start-up fails, when a poll fails with `end` clear, or
   * when output_post_trace returns -1.
   */
  lemma RunOutcomes(e: RunEnv)
    ensures var x := PollLoop(e.endInitially, e.polls);
      var outcome := RunSpec(e).0;
      (outcome == StillPolling || outcome == Returned(0) || outcome == Returned(-1)) &&
      (outcome == StillPolling <==> LoopRuns(e) && x.Exhausted?) &&
      (outcome == Returned(-1) <==>
        !LoopRuns(e) || x.PollFailed? || (x.Stopped? && e.postTraceRc == -1))
  {
  }

  /**
   * Once the loop runs, the log starts with the set-up calls and the polls
   * made, and output_post_trace, when it runs, comes right after the last
   * poll.
   */
  lemma {:induction false} RunLogStartsWithLoop(e: RunEnv)
    requires LoopRuns(e)
    ensures var x := PollLoop(e.endInitially, e.polls);
      var log := RunSpec(e).1;
      var n := |Setup(e)| + x.polls;
      |log| >= n && log[..n] == Setup(e) + Polls(x.polls) &&
      forall k :: 0 <= k < |log| && log[k] == PostTrace ==> k == n
  {
    var x := PollLoop(e.endInitially, e.polls);
    var log := RunSpec(e).1;
    var pre := Setup(e) + Polls(x.polls);
    var n := |pre|;
    SetupAndPollsDoNotFinalise(e, x.polls);
    assert log[..n] == pre;
  }

  /** script_exec_fini runs at most once: exactly when tracer_run returns 0 with a script. */
  lemma ScriptFiniOnce(e: RunEnv)
    ensures multiset(RunSpec(e).1)[ScriptFini] ==
      if RunSpec(e).0 == Returned(0) && e.hasScript then 1 else 0
  {
    var x := PollLoop(e.endInitially, e.polls);
    var pre := Setup(e) + Polls(x.polls);
    SetupAndPollsDoNotFinalise(e, x.polls);
    assert ScriptFini !in pre;
    assert multiset(pre)[ScriptFini] == 0;
    if LoopRuns(e) && x.Stopped? {
      var fin := pre + [PostTrace];
      assert multiset(fin) == multiset(pre) + multiset{PostTrace};
      if e.postTraceRc != -1 && e.hasScript {
        assert multiset(fin + [ScriptFini]) == multiset(fin) + multiset{ScriptFini};
      } else {
        assert fin + [] == fin;
      }
    }
  }

  /**
   * Finalisation: output_post_trace runs exactly once when the loop ends on
   * `end`, and not at all otherwise; script_exec_fini runs, after it and
   * last, exactly when a script is configured and output_post_trace did not
   * return -1; tracer_run returns 0 exactly then too.
   */
  lemma Finalisation(e: RunEnv)
    ensures var x := PollLoop(e.endInitially, e.polls);
      var outcome := RunSpec(e).0;
      var log := RunSpec(e).1;
      (multiset(log)[PostTrace] == if LoopRuns(e) && x.Stopped? then 1 else 0) &&
      (outcome == Returned(0) <==> LoopRuns(e) && x.Stopped? && e.postTraceRc != -1) &&
      (ScriptFini in log <==> outcome == Returned(0) && e.hasScript) &&
      (ScriptFini in log ==> |log| >= 2 && log[|log| - 2] == PostTrace && log[|log| - 1] == ScriptFini)
  {
    var x := PollLoop(e.endInitially, e.polls);
    SetupAndPollsDoNotFinalise(e, x.polls);
    var pre := Setup(e) + Polls(x.polls);
    if LoopRuns(e) && x.Stopped? {
      var fin := pre + [PostTrace];
      assert multiset(fin) == multiset(pre) + multiset{PostTrace};
      if e.postTraceRc != -1 && e.hasScript {
        assert multiset(fin + [ScriptFini]) == multiset(fin) + multiset{ScriptFini};
      } else {
        // the log ends at PostTrace: RunSpec's tail is `+ []` here
        assert fin + [] == fin;
      }
    }
  }
}
