/** When the browser thread ends, how soon, and whether the queues are destroyed then. */
module Liveness {
  import opened Wrappers
  import opened Messages
  import opened Fsm
  import opened FsmInvariant
  import opened CleanExit

  predicate IsExit(m: BMsg) {
    m.typ == Exit || m.typ == ExitClean
  }

  /** The first exit command of a queue. */
  function FirstExit(q: seq<BMsg>): Option<MsgType> {
    if q == [] then None
    else if IsExit(q[0]) then Some(q[0].typ)
    else FirstExit(q[1..])
  }

  /** The dispatch never reports a disconnection. */
  predicate StaysConnected(envs: seq<Env>) {
    forall i :: 0 <= i < |envs| ==> envs[i].dispatchOk
  }

  /** The messages that the worker will look at: Start throws away the one it takes. */
  function Pending(s: Sys): seq<BMsg> {
    if s.st == Start && s.inq != [] then s.inq[1..] else s.inq
  }

  /** Whether the worker is bound to end. */
  predicate WillQuit(s: Sys) {
    Early(s.st) ==> FirstExit(Pending(s)).Some?
  }

  /** Whether it will destroy the queues. */
  predicate WillCleanUp(s: Sys) {
    if Early(s.st) then FirstExit(Pending(s)) == Some(ExitClean)
    else if s.st == Exiting then s.re == PushedMarkers
    else s.st == Quit ==> s.freed
  }

  /** A bound on the iterations that are left, if nothing more arrives. */
  function Potential(s: Sys): nat {
    match s.st
    case Start => 4 * |s.inq| + |s.outq| + 4
    case Connect => 4 * |s.inq| + |s.outq| + 2
    case Serve => 4 * |s.inq| + |s.outq| + 1
    case Wait => 4 * |s.inq| + |s.outq| + 1
    case Exiting => if s.re == Quitting then 1 else |s.outq| + 2
    case WMark1 => |s.outq| + 2
    case WMark2 => if s.re == Marker then 2 else |s.outq| + 2
    case FClean => 1
    case Quit => 0
    case Trap => 0
  }

  /** A bound on the iterations that are left until the worker has dropped its connection. */
  function EarlyBound(s: Sys): (b: nat)
    ensures b <= Potential(s)
  {
    match s.st
    case Start => 4 * |s.inq| + 4
    case Connect => 4 * |s.inq| + 2
    case Serve => 4 * |s.inq| + 1
    case Wait => 4 * |s.inq| + 1
    case _ => 0
  }

  function SignalCount(envs: seq<Env>): nat {
    if envs == [] then 0 else |envs[0].signals| + SignalCount(envs[1..])
  }

  /** A quiet iteration: no client, no disconnection. */
  predicate Quiet(s: Sys, env: Env) {
    !s.clientUp && EnvPossible(env, false) && env.dispatchOk
  }

  lemma StartProgress(s: Sys, env: Env)
    requires s.st == Start && Shape(s) && Quiet(s, env)
    ensures var s' := Iteration(s, env);
            && s'.st == Connect && s'.inq == Pending(s)
            && Potential(s') + 1 <= Potential(s)
  {
  }

  lemma ConnectProgress(s: Sys, env: Env)
    requires s.st == Connect && Shape(s) && Quiet(s, env)
    ensures var s' := Iteration(s, env);
            && (s'.st == Serve || s'.st == Wait) && s'.inq == s.inq
            && Potential(s') + 1 <= Potential(s)
  {
  }

  /** What becomes of the message taken in Serve or Wait. */
  predicate Consumed(s: Sys, s': Sys)
    requires s.inq != []
  {
    if IsExit(s.inq[0]) then s'.st == Exiting && (s'.re == PushedMarkers <==> s.inq[0].typ == ExitClean)
    else (s'.st == Serve || s'.st == Wait || s'.st == Connect) && s'.inq == s.inq[1..]
  }

  lemma ServeProgress(s: Sys, env: Env)
    requires s.st == Serve && s.re == Null && Quiet(s, env) && s.inq != []
    ensures var s' := Iteration(s, env);
            Consumed(s, s') && Potential(s') + 1 <= Potential(s) + |env.signals|
  {
    PumpTakes(s, env);
    var (s1, ev) := EventPump(s, env);
    RowEffect(s1, ev, Choose(s.st, ev), env);
  }

  lemma WaitProgress(s: Sys, env: Env)
    requires s.st == Wait && s.re == Null && Quiet(s, env) && s.inq != []
    ensures var s' := Iteration(s, env);
            Consumed(s, s') && Potential(s') + 1 <= Potential(s) + |env.signals|
  {
    PumpTakes(s, env);
    var (s1, ev) := EventPump(s, env);
    RowEffect(s1, ev, Choose(s.st, ev), env);
  }

  lemma ExitingProgress(s: Sys, env: Env)
    requires s.st == Exiting && Quiet(s, env)
    requires s.re == Quitting || (s.re == PushedMarkers && s.inq == [MARKER] && MarkerIsLast(s.outq))
    ensures var s' := Iteration(s, env);
            && (s'.st == if s.re == PushedMarkers then WMark1 else Quit)
            && s'.freed == s.freed && Potential(s') + 1 <= Potential(s)
  {
    if s.re == PushedMarkers {
      DrainOne(s, env);
      assert Iteration(s, env).outq == s.outq[1..];
    }
  }

  lemma WMark1Progress(s: Sys, env: Env)
    requires s.st == WMark1 && Shape(s) && Quiet(s, env)
    ensures var s' := Iteration(s, env);
            s'.st == WMark2 && Potential(s') + 1 <= Potential(s)
  {
    DrainOne(s, env);
  }

  lemma WMark2Progress(s: Sys, env: Env)
    requires s.st == WMark2 && Shape(s) && Quiet(s, env)
    ensures var s' := Iteration(s, env);
            (s'.st == WMark2 || s'.st == FClean) && Potential(s') + 1 <= Potential(s)
  {
    WMark2Iteration(s, env);
    if s.re == Null { DrainOne(s, env); }
  }

  lemma LateProgress(s: Sys, env: Env)
    requires !Early(s.st) && s.st != Quit && Shape(s) && Quiet(s, env)
    ensures var s' := Iteration(s, env);
            && !Early(s'.st) && Potential(s') + 1 <= Potential(s)
            && (WillCleanUp(s') <==> WillCleanUp(s))
  {
    match s.st
    case Exiting => ExitingProgress(s, env);
    case WMark1 => WMark1Progress(s, env);
    case WMark2 => WMark2Progress(s, env);
    case FClean =>
  }

  lemma Progress(s: Sys, env: Env)
    requires s.st != Quit && Shape(s) && Quiet(s, env) && WillQuit(s)
    ensures var s' := Iteration(s, env);
            && Shape(s') && !s'.clientUp && WillQuit(s')
            && (WillCleanUp(s') <==> WillCleanUp(s))
            && Potential(s') + 1 <= Potential(s) + (if Early(s.st) then |env.signals| else 0)
            && (Early(s'.st) ==> EarlyBound(s') + 1 <= EarlyBound(s))
  {
    IterationShape(s, env);
    IterationRecord(s, env);
    match s.st {
      case Start => StartProgress(s, env);
      case Connect => ConnectProgress(s, env);
      case Serve => ServeProgress(s, env);
      case Wait => WaitProgress(s, env);
      case _ => LateProgress(s, env);
    }
  }

  /** The signals that can still matter are those of the first `n` iterations. */
  lemma {:induction false} EndsWithin(s: Sys, envs: seq<Env>, n: nat)
    requires Shape(s) && !s.clientUp && NobodyElse(envs) && StaysConnected(envs) && WillQuit(s)
    requires n <= |envs| && (Early(s.st) ==> EarlyBound(s) <= n)
    requires |envs| >= Potential(s) + SignalCount(envs[..n])
    ensures Loop(s, envs).st == Quit
    ensures Loop(s, envs).freed <==> WillCleanUp(s)
    decreases |envs|
  {
    if s.st == Quit {
      QuitStays(s, envs);
    } else {
      assert envs != [];
      Progress(s, envs[0]);
      if n > 0 {
        assert envs[..n][1..] == envs[1..][..n - 1];
      }
      EndsWithin(Iteration(s, envs[0]), envs[1..], if n > 0 then n - 1 else 0);
    }
  }

  /**
   After `release` the worker ends if an exit command is among the messages it will look
   at and D-Bus stays up, within a bound that grows only with what is queued and with what
   D-Bus signals while the worker still has its connection; it destroys the queues exactly
   when the first such command is the clean one.
   */
  lemma {:induction false} ExitIsReached(s: Sys, envs: seq<Env>)
    requires Shape(s) && !s.clientUp && NobodyElse(envs) && StaysConnected(envs)
    requires WillQuit(s) && |envs| >= Potential(s)
    requires |envs| >= Potential(s) + SignalCount(envs[..EarlyBound(s)])
    ensures Loop(s, envs).st == Quit
    ensures Loop(s, envs).freed <==> WillCleanUp(s)
  {
    EndsWithin(s, envs, EarlyBound(s));
  }

  /** In Serve and Wait nothing but an exit command leads out. */
  lemma NoExitServe(s: Sys, env: Env)
    requires (s.st == Serve || s.st == Wait) && s.re == Null && (s.inq == [] || !IsExit(s.inq[0])) && env.between == []
    ensures var s' := Iteration(s, env);
            && (s'.st == Serve || s'.st == Wait || s'.st == Connect)
            && (s'.inq == s.inq || (s.inq != [] && s'.inq == s.inq[1..]))
  {
    PumpTakes(s, env);
    var (s1, ev) := EventPump(s, env);
    RowEffect(s1, ev, Choose(s.st, ev), env);
  }

  lemma NoExitStart(s: Sys, env: Env)
    requires Shape(s) && (s.st == Start || s.st == Connect) && EnvPossible(env, false)
    ensures var s' := Iteration(s, env);
            && (s'.st == Serve || s'.st == Wait || s'.st == Connect)
            && s'.inq == Pending(s)
  {
  }

  lemma NoExitStep(s: Sys, env: Env)
    requires Early(s.st) && Shape(s) && !s.clientUp && EnvPossible(env, false)
    requires FirstExit(Pending(s)).None?
    ensures var s' := Iteration(s, env);
            Early(s'.st) && Shape(s') && !s'.clientUp && FirstExit(Pending(s')).None?
  {
    IterationShape(s, env);
    IterationRecord(s, env);
    if s.st == Start || s.st == Connect {
      NoExitStart(s, env);
    } else {
      NoExitServe(s, env);
    }
  }

  /** Without such a command it never ends, whatever the foreign calls answer. */
  lemma {:induction false} NeverEnds(s: Sys, envs: seq<Env>)
    requires Early(s.st) && Shape(s) && !s.clientUp && NobodyElse(envs)
    requires FirstExit(Pending(s)).None?
    ensures Early(Loop(s, envs).st)
    decreases |envs|
  {
    if envs != [] {
      NoExitStep(s, envs[0]);
      NeverEnds(Iteration(s, envs[0]), envs[1..]);
    }
  }

  /**
   Together: after `release`, in a long enough run with D-Bus up, however much it signals,
   the worker ends if and only if one of the messages it will look at is an exit command.
   */
  lemma {:induction false} EndsExactlyWhen(s: Sys, envs: seq<Env>)
    requires Early(s.st) && Shape(s) && !s.clientUp && NobodyElse(envs) && StaysConnected(envs)
    requires |envs| >= Potential(s) && |envs| >= Potential(s) + SignalCount(envs[..EarlyBound(s)])
    ensures Loop(s, envs).st == Quit <==> exists i :: 0 <= i < |Pending(s)| && IsExit(Pending(s)[i])
  {
    FirstExitExists(Pending(s));
    if FirstExit(Pending(s)).Some? {
      ExitIsReached(s, envs);
    } else {
      NeverEnds(s, envs);
    }
  }

  lemma {:induction false} FirstExitExists(q: seq<BMsg>)
    ensures FirstExit(q).Some? <==> exists i :: 0 <= i < |q| && IsExit(q[i])
  {
    if q != [] && !IsExit(q[0]) {
      FirstExitExists(q[1..]);
      if exists i :: 0 <= i < |q| && IsExit(q[i]) {
        var i :| 0 <= i < |q| && IsExit(q[i]);
        assert q[1..][i - 1] == q[i];
      }
      if exists i :: 0 <= i < |q[1..]| && IsExit(q[1..][i]) {
        var i :| 0 <= i < |q[1..]| && IsExit(q[1..][i]);
        assert q[i + 1] == q[1..][i];
      }
    }
  }

  /** A client that releases before the worker's first look at the queue is never noticed. */
  lemma {:induction false} ReleaseTooEarly(envs: seq<Env>)
    requires NobodyElse(envs)
    ensures var s := Run(INITIAL, [Client(ReleaseIt)]);
            Early(Loop(s, envs).st) && !Loop(s, envs).freed
  {
    var s := Run(INITIAL, [Client(ReleaseIt)]);
    assert [Client(ReleaseIt)][1..] == [];
    assert s == ClientStep(INITIAL, ReleaseIt);
    assert FirstExit([]).None?;
    NeverEnds(s, envs);
    NeverFreed(s, envs);
  }

  lemma {:induction false} NeverFreed(s: Sys, envs: seq<Env>)
    requires Early(s.st) && Shape(s) && !s.clientUp && NobodyElse(envs)
    requires FirstExit(Pending(s)).None?
    ensures !Loop(s, envs).freed
    decreases |envs|
  {
    if envs != [] {
      NoExitStep(s, envs[0]);
      NeverFreed(Iteration(s, envs[0]), envs[1..]);
    }
  }

  /**
   While the dispatch keeps reporting a disconnection, a worker that has a connection
   does not look at its queue: the exit command stays unread and the worker stays in Wait.
   */
  lemma {:induction false} DisconnectedIsDeaf(s: Sys, envs: seq<Env>)
    requires (s.st == Serve || s.st == Wait) && s.re == Null && s.conn
    requires envs != [] && forall i :: 0 <= i < |envs| ==> !envs[i].dispatchOk
    ensures var s' := Loop(s, envs); s'.st == Wait && s'.inq == s.inq && s'.conn
    decreases |envs|
  {
    var s' := Iteration(s, envs[0]);
    assert s'.st == Wait && s'.re == Null && s'.conn && s'.inq == s.inq;
    if |envs| > 1 {
      DisconnectedIsDeaf(s', envs[1..]);
    } else {
      assert envs[1..] == [];
    }
  }

  const SEND_PLAIN_EXIT: Step := Client(PushMsg(Simple(Exit)))

  lemma PlainExitSent(s: Sys)
    requires WaitsFor(s, [])
    ensures var s' := Do(Do(s, SEND_PLAIN_EXIT), Client(ReleaseIt));
            && s'.st == Wait && s'.re == Null && !s'.conn && !s'.freed && !s'.clientUp
            && s'.inq == [Simple(Exit), Simple(ExitClean)]
  {
  }

  lemma PlainExitTaken(s: Sys, env: Env)
    requires s.st == Wait && s.re == Null && !s.conn && !s.freed && EnvPossible(env, false)
    requires s.inq == [Simple(Exit), Simple(ExitClean)]
    ensures var s' := Iteration(s, env); s'.st == Exiting && s'.re == Quitting && !s'.freed
  {
    PumpTakes(s, env);
    var (s1, ev) := EventPump(s, env);
    RowEffect(s1, ev, Choose(s.st, ev), env);
  }

  /** A client that sends the plain exit command and then releases: the worker ends, and nobody destroys the queues. */
  lemma {:induction false} PlainExitLeaks(envs: seq<Env>)
    requires NobodyElse(envs) && |envs| >= 2
    ensures var w := Worker(PLAIN);
            var s := Run(INITIAL, [w] + ([w] + ([SEND_PLAIN_EXIT] + [Client(ReleaseIt)])));
            Loop(s, envs).st == Quit && !Loop(s, envs).freed
  {
    var s := RunToWait([SEND_PLAIN_EXIT] + [Client(ReleaseIt)]);
    RunOne(s, SEND_PLAIN_EXIT, [Client(ReleaseIt)]);
    RunOne(Do(s, SEND_PLAIN_EXIT), Client(ReleaseIt), []);
    assert [Client(ReleaseIt)] + [] == [Client(ReleaseIt)];
    PlainExitSent(s);
    var s1 := Do(Do(s, SEND_PLAIN_EXIT), Client(ReleaseIt));
    PlainExitTaken(s1, envs[0]);
    var s2 := Iteration(s1, envs[0]);
    LoopTwo(s1, envs);
    assert Iteration(s2, envs[1]).st == Quit && !Iteration(s2, envs[1]).freed;
    QuitStays(Iteration(s2, envs[1]), envs[2..]);
  }

  // ---------------------------------------------------------------------
  // When the command is read

  /** `p` messages are before the first exit command. */
  predicate ExitAt(q: seq<BMsg>, p: nat) {
    p < |q| && IsExit(q[p]) && forall i :: 0 <= i < p ==> !IsExit(q[i])
  }

  /** The iteration looks at the in-queue: there is no connection, or its dispatch went well. */
  predicate Looks(s: Sys, env: Env) {
    (s.st == Serve || s.st == Wait) && (s.conn ==> env.dispatchOk)
  }

  /** How many iterations of a run do. */
  function LookCount(s: Sys, envs: seq<Env>): nat
    decreases |envs|
  {
    if envs == [] then 0 else (if Looks(s, envs[0]) then 1 else 0) + LookCount(Iteration(s, envs[0]), envs[1..])
  }

  lemma Looked(s: Sys, env: Env)
    requires s.re == Null && Looks(s, env) && EnvPossible(env, false) && s.inq != []
    ensures Consumed(s, Iteration(s, env))
  {
    PumpTakes(s, env);
    var (s1, ev) := EventPump(s, env);
    RowEffect(s1, ev, Choose(s.st, ev), env);
  }

  lemma NotLooked(s: Sys, env: Env)
    requires (s.st == Serve || s.st == Wait) && s.re == Null && !Looks(s, env)
    ensures var s' := Iteration(s, env);
            s'.st == Wait && s'.re == Null && s'.conn && s'.inq == s.inq
  {
  }

  lemma {:induction false} LateNeverLooks(s: Sys, envs: seq<Env>)
    requires Shape(s) && Late(s.st) && !s.clientUp && NobodyElse(envs)
    ensures Late(Loop(s, envs).st) && LookCount(s, envs) == 0
    decreases |envs|
  {
    if envs != [] {
      IterationShape(s, envs[0]);
      LateIterationStaysLate(s, envs[0]);
      if s.st != Quit {
        IterationRecord(s, envs[0]);
      }
      LateNeverLooks(Iteration(s, envs[0]), envs[1..]);
    }
  }

  /** One iteration on the way to an exit command behind `p` messages. */
  lemma LookStep(s: Sys, env: Env, p: nat)
    requires Early(s.st) && Shape(s) && !s.clientUp && EnvPossible(env, false) && ExitAt(Pending(s), p)
    ensures var s' := Iteration(s, env);
            && Shape(s') && !s'.clientUp
            && (if !Looks(s, env) then Early(s'.st) && ExitAt(Pending(s'), p)
                else if p == 0 then Late(s'.st)
                else Early(s'.st) && ExitAt(Pending(s'), p - 1))
  {
    IterationShape(s, env);
    IterationRecord(s, env);
    if s.st == Start || s.st == Connect {
      NoExitStart(s, env);
    } else if Looks(s, env) {
      Looked(s, env);
    } else {
      NotLooked(s, env);
    }
  }

  /**
   After `release`, an exit command behind `p` messages is obeyed exactly when the worker
   has looked at its queue more than `p` times, whatever the dispatches and the connection
   attempts come to.
   */
  lemma {:induction false} ReadExactlyWhen(s: Sys, envs: seq<Env>, p: nat)
    requires Early(s.st) && Shape(s) && !s.clientUp && NobodyElse(envs) && ExitAt(Pending(s), p)
    ensures Late(Loop(s, envs).st) <==> LookCount(s, envs) > p
    decreases |envs|
  {
    if envs != [] {
      var s' := Iteration(s, envs[0]);
      LookStep(s, envs[0], p);
      if !Looks(s, envs[0]) {
        ReadExactlyWhen(s', envs[1..], p);
      } else if p == 0 {
        LateNeverLooks(s', envs[1..]);
      } else {
        ReadExactlyWhen(s', envs[1..], p - 1);
      }
    }
  }

  /** So a command at the front, with a connection, is obeyed exactly when some dispatch goes well. */
  lemma {:induction false} ObeyedExactlyWhen(s: Sys, envs: seq<Env>)
    requires (s.st == Serve || s.st == Wait) && Shape(s) && s.conn && !s.clientUp && NobodyElse(envs)
    requires s.inq != [] && IsExit(s.inq[0])
    ensures Late(Loop(s, envs).st) <==> exists i :: 0 <= i < |envs| && envs[i].dispatchOk
    decreases |envs|
  {
    if envs != [] {
      var s' := Iteration(s, envs[0]);
      LookStep(s, envs[0], 0);
      if envs[0].dispatchOk {
        LateNeverLooks(s', envs[1..]);
      } else {
        NotLooked(s, envs[0]);
        ObeyedExactlyWhen(s', envs[1..]);
        assert forall i :: 0 < i < |envs| ==> envs[i] == envs[1..][i - 1];
        assert forall i :: 0 <= i < |envs[1..]| ==> envs[1..][i] == envs[i + 1];
      }
    }
  }

  // ---------------------------------------------------------------------
  // Bounded response while the client is still active

  function WorkerSteps(steps: seq<Step>): nat {
    if steps == [] then 0 else (if steps[0].Worker? then 1 else 0) + WorkerSteps(steps[1..])
  }

  /** The try-lock of the pump succeeds and D-Bus stays up. */
  predicate Attentive(steps: seq<Step>) {
    forall i :: 0 <= i < |steps| && steps[i].Worker? ==> steps[i].env.dispatchOk && !steps[i].env.inBusy
  }

  function ResponseBound(st: FsmState, p: nat): nat {
    if st == Connect then 2 * p + 2 else 2 * p + 1
  }

  /** The next state of an attentive iteration that takes a message. */
  predicate Obeys(s: Sys, s': Sys, p: nat) {
    if p == 0 then s'.st == Exiting
    else (s'.st == Connect || s'.st == Serve || s'.st == Wait) && ExitAt(s'.inq, p - 1)
  }

  lemma AttentiveConnect(s: Sys, env: Env, p: nat)
    requires s.st == Connect && Shape(s) && ExitAt(s.inq, p)
    ensures var s' := Iteration(s, env); (s'.st == Serve || s'.st == Wait) && ExitAt(s'.inq, p)
  {
  }

  lemma ClientKeepsExit(s: Sys, op: ClientOp, p: nat)
    requires ExitAt(s.inq, p)
    ensures var s' := ClientStep(s, op);
            s'.st == s.st && ExitAt(s'.inq, p)
  {
  }

  lemma {:induction false} CallsKeepExit(s: Sys, ops: seq<ClientOp>, p: nat)
    requires ExitAt(s.inq, p)
    ensures ExitAt(ClientSteps(s, ops).inq, p)
    decreases |ops|
  {
    if ops != [] {
      ClientKeepsExit(s, ops[0], p);
      CallsKeepExit(ClientStep(s, ops[0]), ops[1..], p);
    }
  }

  /** The pump takes the exit command, or one of the messages before it, whatever the client calls meanwhile. */
  lemma PumpApproachesExit(s: Sys, env: Env, p: nat)
    requires ExitAt(s.inq, p) && env.dispatchOk && !env.inBusy
    ensures var (s1, ev) := EventPump(s, env);
            if p == 0 then ev == CmdExit || ev == CmdExitClean
            else ev in {Null, CmdReconnect, EvFlushMarker} && ExitAt(s1.inq, p - 1)
  {
    CallsKeepExit(if s.conn then PushOut(s, env.signals) else s, env.between, p);
  }

  lemma AttentiveServe(s: Sys, env: Env, p: nat)
    requires s.st == Serve && Shape(s) && ExitAt(s.inq, p) && env.dispatchOk && !env.inBusy
    ensures Obeys(s, Iteration(s, env), p)
  {
    PumpApproachesExit(s, env, p);
    var (s1, ev) := EventPump(s, env);
    RowEffect(s1, ev, Choose(s.st, ev), env);
  }

  lemma AttentiveWait(s: Sys, env: Env, p: nat)
    requires s.st == Wait && Shape(s) && ExitAt(s.inq, p) && env.dispatchOk && !env.inBusy
    ensures Obeys(s, Iteration(s, env), p)
  {
    PumpApproachesExit(s, env, p);
    var (s1, ev) := EventPump(s, env);
    RowEffect(s1, ev, Choose(s.st, ev), env);
  }

  /** One step of either side on the way to the exit command. */
  lemma ExitStep(s: Sys, p: nat, step: Step)
    requires Inv(s) && StepPossible(s, step) && (step.Worker? ==> step.env.dispatchOk && !step.env.inBusy)
    requires (s.st == Connect || s.st == Serve || s.st == Wait) && ExitAt(s.inq, p)
    ensures var s' := Do(s, step);
            && Inv(s')
            && (if step.Client? then s'.st == s.st && ExitAt(s'.inq, p)
                else if s.st == Connect then (s'.st == Serve || s'.st == Wait) && ExitAt(s'.inq, p)
                else Obeys(s, s', p))
  {
    match step
    case Client(op) =>
      ClientStepInv(s, op);
      ClientKeepsExit(s, op, p);
    case Worker(env) =>
      IterationInv(s, env);
      match s.st {
        case Connect => AttentiveConnect(s, env, p);
        case Serve => AttentiveServe(s, env, p);
        case Wait => AttentiveWait(s, env, p);
      }
  }

  /**
   An exit command behind `p` messages is obeyed within 2p + 1 iterations (one more if a
   connection attempt is pending), whatever reconnects are among the `p`, however the
   attempts end, and whatever the client does in the meantime.
   */
  lemma {:induction false} ExitIsObeyed(s: Sys, p: nat, steps: seq<Step>) returns (j: nat)
    requires Inv(s) && RunPossible(s, steps) && Attentive(steps)
    requires (s.st == Connect || s.st == Serve || s.st == Wait) && ExitAt(s.inq, p)
    requires WorkerSteps(steps) >= ResponseBound(s.st, p)
    ensures j <= |steps|
    ensures Run(s, steps[..j]).st == Exiting
    ensures WorkerSteps(steps[..j]) <= ResponseBound(s.st, p)
    decreases |steps|
  {
    var s' := Do(s, steps[0]);
    ExitStep(s, p, steps[0]);
    if s'.st == Exiting {
      j := 0;
      assert Run(s', steps[1..][..0]) == s';
    } else if steps[0].Client? {
      j := ExitIsObeyed(s', p, steps[1..]);
    } else {
      j := ExitIsObeyed(s', if s.st == Connect then p else p - 1, steps[1..]);
    }
    PrefixRun(s, steps, j);
    j := j + 1;
  }

  lemma {:induction false} PrefixRun(s: Sys, steps: seq<Step>, j: nat)
    requires steps != [] && j <= |steps| - 1
    ensures Run(s, steps[..j + 1]) == Run(Do(s, steps[0]), steps[1..][..j])
    ensures WorkerSteps(steps[..j + 1]) == (if steps[0].Worker? then 1 else 0) + WorkerSteps(steps[1..][..j])
  {
    assert steps[..j + 1][1..] == steps[1..][..j];
  }

  /** The bounds above, in numbers. */
  lemma BoundsAre(s: Sys, p: nat)
    ensures Potential(s) <= 4 * |s.inq| + |s.outq| + 4
    ensures s.st in {Serve, Wait} ==> ResponseBound(s.st, p) == 2 * p + 1
    ensures s.st == Connect ==> ResponseBound(s.st, p) == 2 * p + 2
  {
  }
}
