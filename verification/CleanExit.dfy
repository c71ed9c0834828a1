/** The drain after a clean-exit command, iteration by iteration. */
module CleanExit {
  import opened Wrappers
  import opened Messages
  import opened Fsm
  import opened FsmInvariant

  /** The worker's loop with no client activity in between. */
  function Loop(s: Sys, envs: seq<Env>): Sys
    decreases |envs|
  {
    if envs == [] then s else Loop(Iteration(s, envs[0]), envs[1..])
  }

  lemma {:induction false} LoopTwo(s: Sys, envs: seq<Env>)
    requires |envs| >= 2
    ensures Loop(s, envs) == Loop(Iteration(Iteration(s, envs[0]), envs[1]), envs[2..])
  {
    assert envs[1..][1..] == envs[2..] && envs[1..][0] == envs[1];
  }

  lemma {:induction false} QuitStays(s: Sys, envs: seq<Env>)
    requires s.st == Quit
    ensures Loop(s, envs) == s
    decreases |envs|
  {
    if envs != [] {
      QuitStays(s, envs[1..]);
    }
  }

  /** The loop reaches Quit in its last iteration, and not before. */
  predicate QuitsExactlyAfter(s: Sys, envs: seq<Env>)
    decreases |envs|
  {
    if envs == [] then s.st == Quit
    else s.st != Quit && QuitsExactlyAfter(Iteration(s, envs[0]), envs[1..])
  }

  /** No client: the try-locks of the worker succeed. */
  predicate NobodyElse(envs: seq<Env>) {
    forall i :: 0 <= i < |envs| ==> EnvPossible(envs[i], false)
  }

  predicate CleanedUp(before: Sys, after: Sys, flushes: nat) {
    && after.st == Quit && after.freed && after.inq == [] && after.outq == []
    && after.hist.flushes == before.hist.flushes + flushes
    && after.hist.cleanups == before.hist.cleanups + 1
  }

  /** What the pump takes and reports when the client does not call. */
  lemma PumpTakes(s: Sys, env: Env)
    requires env.between == []
    ensures var (s1, ev) := EventPump(s, env);
            && s1.conn == s.conn && s1.outq == s.outq + (if s.conn then env.signals else [])
            && (if s.conn && !env.dispatchOk then s1.inq == s.inq && ev == DbusDisconnect
                else if env.inBusy || s.inq == [] then s1.inq == s.inq && ev == Null
                else s1.inq == s.inq[1..] && ev == MessageEvent(Some(s.inq[0])))
  {
    assert s.outq + [] == s.outq;
  }

  /** What a row does to the queues. */
  lemma RowEffect(s: Sys, ev: FsmEvent, c: Choice, env: Env)
    requires c.action == ActConnect || c.action == ActServe || c.action == ActWait || c.action == ActExit
    ensures var s' := TakeRow(s, ev, c, env);
            && s'.st == c.next
            && (c.action == ActConnect ==> s'.inq == s.inq && |s'.outq| <= |s.outq| + 1)
            && (c.action == ActServe || c.action == ActWait ==> s'.inq == s.inq && s'.outq == s.outq && s'.re == Null)
            && (c.action == ActExit ==>
                  && |s'.outq| == |s.outq| + (if ev == CmdExitClean then 2 else 1)
                  && s'.re == if ev == CmdExitClean then PushedMarkers else Quitting)
  {
    if c.action == ActConnect {
      ConnectEffect(s, env.connect);
    }
  }

  lemma ConnectEffect(s: Sys, r: ConnectResult)
    ensures ActionConnect(s, r).inq == s.inq && |ActionConnect(s, r).outq| <= |s.outq| + 1
  {
  }

  /** The last two iterations. */
  lemma {:induction false} Finale(s: Sys, envs: seq<Env>)
    requires s.st == WMark2 && s.re == Marker && Shape(s) && |envs| == 2
    ensures QuitsExactlyAfter(s, envs) && CleanedUp(s, Loop(s, envs), 0)
  {
    var s1 := Iteration(s, envs[0]);
    assert s1.st == FClean && s1.freed;
    assert Iteration(s1, envs[1]).st == Quit;
    assert envs[1..][1..] == [];
    assert envs[1..][0] == envs[1];
    assert Loop(s, envs) == Loop(s1, envs[1..]);
    assert Loop(s1, envs[1..]) == Iteration(s1, envs[1]);
  }

  lemma {:induction false} Drain(s: Sys, envs: seq<Env>)
    requires s.st == WMark2 && s.re == Null && Shape(s) && NobodyElse(envs) && |envs| == |s.outq| + 2
    ensures QuitsExactlyAfter(s, envs) && CleanedUp(s, Loop(s, envs), |s.outq|)
    decreases |s.outq|
  {
    WMark2Iteration(s, envs[0]);
    DrainOne(s, envs[0]);
    IterationRecord(s, envs[0]);
    var s1 := Iteration(s, envs[0]);
    if |s.outq| == 1 {
      Finale(s1, envs[1..]);
    } else {
      Drain(s1, envs[1..]);
    }
  }

  /** From the two markers pushed to the end. */
  lemma {:induction false} FromPushedMarkers(s: Sys, envs: seq<Env>)
    requires s.st == Exiting && s.re == PushedMarkers && Shape(s) && NobodyElse(envs) && |envs| == |s.outq| + 2
    ensures QuitsExactlyAfter(s, envs) && CleanedUp(s, Loop(s, envs), |s.outq|)
  {
    ExitingIteration(s, envs[0]);
    DrainOne(s, envs[0]);
    IterationRecord(s, envs[0]);
    var s1 := Iteration(s, envs[0]);
    assert s1.st == WMark1 && |s1.outq| == |s.outq| - 1;
    FromFirstFlush(s1, envs[1..]);
  }

  lemma {:induction false} FromFirstFlush(s: Sys, envs: seq<Env>)
    requires s.st == WMark1 && Shape(s) && NobodyElse(envs) && |envs| == |s.outq| + 2
    ensures QuitsExactlyAfter(s, envs) && CleanedUp(s, Loop(s, envs), |s.outq|)
  {
    WMark1Iteration(s, envs[0]);
    DrainOne(s, envs[0]);
    IterationRecord(s, envs[0]);
    var s1 := Iteration(s, envs[0]);
    assert s1.st == WMark2 && |s1.outq| == |s.outq| - 1;
    if |s.outq| == 1 {
      Finale(s1, envs[1..]);
    } else {
      Drain(s1, envs[1..]);
    }
  }

  /** The iteration that takes the clean-exit command. */
  lemma TakeCommand(s: Sys, env: Env)
    requires (s.st == Serve || s.st == Wait) && s.re == Null
    requires (s.conn ==> env.dispatchOk) && !env.inBusy && env.between == []
    requires s.inq != [] && s.inq[0].typ == ExitClean
    ensures var s' := Iteration(s, env);
            && s'.st == Exiting && s'.re == PushedMarkers
            && |s'.outq| == |s.outq| + (if s.conn then |env.signals| else 0) + 2
  {
    PumpTakes(s, env);
    var (s1, ev) := EventPump(s, env);
    RowEffect(s1, ev, Choose(s.st, ev), env);
  }

  lemma CommandStep(s: Sys, env: Env, k: nat)
    requires (s.st == Serve || s.st == Wait) && Shape(s) && !s.clientUp && EnvPossible(env, false)
    requires s.inq != [] && s.inq[0].typ == ExitClean && (s.conn ==> env.dispatchOk)
    requires k == |s.outq| + if s.conn then |env.signals| else 0
    ensures var s' := Iteration(s, env);
            && s'.st == Exiting && s'.re == PushedMarkers && Shape(s') && |s'.outq| == k + 2
            && s'.hist.flushes == s.hist.flushes && s'.hist.cleanups == s.hist.cleanups
  {
    EarlyIteration(s, env);
    IterationRecord(s, env);
    TakeCommand(s, env);
  }

  /**
   A clean exit with `k` messages that the client never read takes exactly k + 5
   iterations, k + 2 flushes and one clean-up, whatever the foreign calls answer,
   and both queues are empty when they are destroyed.
   */
  lemma {:induction false} CleanExitTakes(s: Sys, envs: seq<Env>, k: nat)
    requires (s.st == Serve || s.st == Wait) && Shape(s) && !s.clientUp
    requires s.inq != [] && s.inq[0].typ == ExitClean
    requires NobodyElse(envs) && |envs| == k + 5
    requires s.conn ==> envs[0].dispatchOk
    requires k == |s.outq| + if s.conn then |envs[0].signals| else 0
    ensures QuitsExactlyAfter(s, envs)
    ensures CleanedUp(s, Loop(s, envs), k + 2)
  {
    CommandStep(s, envs[0], k);
    FromPushedMarkers(Iteration(s, envs[0]), envs[1..]);
  }

  // ---------------------------------------------------------------------
  // The first turns of a run

  /** An iteration in which nothing special happens. */
  const PLAIN: Env := Env(true, [], [], false, ConnError, false, false)

  lemma {:induction false} RunOne(s: Sys, step: Step, rest: seq<Step>)
    ensures Run(s, [step] + rest) == Run(Do(s, step), rest)
  {
    assert ([step] + rest)[1..] == rest;
  }

  /** The worker is in Wait without a connection, `inq` is sent and nothing is to be read. */
  predicate WaitsFor(s: Sys, inq: seq<BMsg>) {
    s.st == Wait && s.re == Null && !s.conn && !s.freed && s.clientUp && s.inq == inq && s.outq == []
  }

  lemma {:induction false} RunToWait(rest: seq<Step>) returns (s: Sys)
    ensures Run(INITIAL, [Worker(PLAIN)] + ([Worker(PLAIN)] + rest)) == Run(s, rest)
    ensures WaitsFor(s, [])
  {
    RunOne(INITIAL, Worker(PLAIN), [Worker(PLAIN)] + rest);
    var s1 := Iteration(INITIAL, PLAIN);
    assert s1.st == Connect && s1.re == ConnectError;
    RunOne(s1, Worker(PLAIN), rest);
    s := Iteration(s1, PLAIN);
  }

  lemma TwoTurns(s: Sys)
    ensures Run(s, [Worker(PLAIN)] + [Worker(PLAIN)]) == Iteration(Iteration(s, PLAIN), PLAIN)
  {
    RunOne(s, Worker(PLAIN), [Worker(PLAIN)]);
    RunOne(Iteration(s, PLAIN), Worker(PLAIN), []);
    assert [Worker(PLAIN)] + [] == [Worker(PLAIN)];
  }
}
