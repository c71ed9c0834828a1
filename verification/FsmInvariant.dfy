/** What holds in every state of every run of the browser thread and its client. */
module FsmInvariant {
  import opened Wrappers
  import opened Messages
  import opened Fsm

  predicate NoMarker(q: seq<BMsg>) {
    forall i :: 0 <= i < |q| ==> q[i].typ != FlushMarker
  }

  /** A clean-exit command is the last message of the in-queue, and its sender is gone. */
  predicate ExitCleanIsLast(s: Sys) {
    forall i :: 0 <= i < |s.inq| && s.inq[i].typ == ExitClean ==> i == |s.inq| - 1 && !s.clientUp
  }

  /** `q` is a marker behind messages that are not markers. */
  predicate MarkerIsLast(q: seq<BMsg>) {
    && |q| >= 1 && q[|q| - 1] == MARKER
    && forall i :: 0 <= i < |q| - 1 ==> q[i].typ != FlushMarker
  }

  predicate ExitedThenMarker(q: seq<BMsg>) {
    |q| >= 2 && q[|q| - 2] == EXITED && MarkerIsLast(q)
  }

  predicate Draining(s: Sys) {
    !s.clientUp && s.inq == []
  }

  /** The state, the carried event, the connection and both queues together. */
  predicate Shape(s: Sys) {
    match s.st
    case Start => s.re == Null && !s.conn && !s.freed && ExitCleanIsLast(s) && NoMarker(s.outq)
    case Connect =>
      && (s.re == if s.conn then ConnectOk else ConnectError)
      && !s.freed && ExitCleanIsLast(s) && NoMarker(s.outq)
    case Serve => s.re == Null && s.conn && !s.freed && ExitCleanIsLast(s) && NoMarker(s.outq)
    case Wait => s.re == Null && !s.freed && ExitCleanIsLast(s) && NoMarker(s.outq)
    case Exiting =>
      && !s.conn && !s.freed
      && (s.re == Quitting || (s.re == PushedMarkers && !s.clientUp && s.inq == [MARKER] && ExitedThenMarker(s.outq)))
    case WMark1 => !s.conn && !s.freed && s.re == Marker && Draining(s) && MarkerIsLast(s.outq)
    case WMark2 =>
      && !s.conn && !s.freed && Draining(s)
      && ((s.re == Null && MarkerIsLast(s.outq)) || (s.re == Marker && s.outq == []))
    case FClean => !s.conn && s.freed && s.re == Quitting && Draining(s) && s.outq == []
    case Quit => !s.conn && s.re == Null && (s.freed ==> Draining(s) && s.outq == [])
    case Trap => false
  }

  /** The rows that a run can take. */
  const LIVE_ROWS: set<nat> := {0, 2, 3, 5, 6, 7, 8, 9, 10, 11, 12, 13, 14, 17, 19, 22, 23}

  /** Every message is accounted for, in order, on both queues. */
  predicate Conserved(s: Sys) {
    && s.hist.pushedIn == s.hist.takenIn + s.inq
    && s.hist.pushedOut == s.hist.popped + s.hist.flushed + s.outq
    && (s.hist.flushed != [] ==> !s.clientUp)
  }

  predicate RowsLive(s: Sys) {
    forall i :: 0 <= i < |s.hist.rows| ==> s.hist.rows[i] in LIVE_ROWS
  }

  predicate CleanupCounted(s: Sys) {
    s.hist.cleanups == if s.freed then 1 else 0
  }

  /** What went through the out-queue: no marker before a clean exit, EXITED and the one marker last after it. */
  predicate MarkedOnce(s: Sys) {
    if s.st in {WMark1, WMark2, FClean} || s.freed || (s.st == Exiting && s.re == PushedMarkers)
    then ExitedThenMarker(s.hist.pushedOut)
    else NoMarker(s.hist.pushedOut)
  }

  predicate Inv(s: Sys) {
    Shape(s) && Conserved(s) && RowsLive(s) && CleanupCounted(s) && MarkedOnce(s)
  }

  // ---------------------------------------------------------------------
  // One iteration, piece by piece

  /** What the client's calls never touch. */
  predicate SameWorker(s: Sys, s': Sys) {
    && s'.st == s.st && s'.re == s.re && s'.conn == s.conn && s'.freed == s.freed
    && s'.hist.rows == s.hist.rows && s'.hist.cleanups == s.hist.cleanups
    && s'.hist.flushes == s.hist.flushes && s'.hist.flushed == s.hist.flushed
    && s'.hist.pushedOut == s.hist.pushedOut && (s'.clientUp ==> s.clientUp)
  }

  lemma CallKeeps(s: Sys, op: ClientOp)
    ensures SameWorker(s, ClientStep(s, op))
    ensures Disciplined(op) && ExitCleanIsLast(s) ==> ExitCleanIsLast(ClientStep(s, op))
    ensures NoMarker(s.outq) ==> NoMarker(ClientStep(s, op).outq)
  {
  }

  lemma CallConserves(s: Sys, op: ClientOp)
    requires Conserved(s)
    ensures Conserved(ClientStep(s, op))
  {
    if s.clientUp {
      match op
      case PushMsg(m) => PushConserves(s, m);
      case PopMsg(busy) =>
      case ReleaseIt => PushConserves(s, Simple(ExitClean));
    }
  }

  lemma PushConserves(s: Sys, m: BMsg)
    requires Conserved(s)
    ensures Conserved(PushIn(s, m)) && Conserved(PushIn(s, m).(clientUp := false))
  {
  }

  lemma {:induction false} CallsKeep(s: Sys, ops: seq<ClientOp>)
    ensures SameWorker(s, ClientSteps(s, ops))
    ensures AllDisciplined(ops) && ExitCleanIsLast(s) ==> ExitCleanIsLast(ClientSteps(s, ops))
    ensures NoMarker(s.outq) ==> NoMarker(ClientSteps(s, ops).outq)
    ensures Conserved(s) ==> Conserved(ClientSteps(s, ops))
    decreases |ops|
  {
    if ops != [] {
      CallKeeps(s, ops[0]);
      if Conserved(s) {
        CallConserves(s, ops[0]);
      }
      CallsKeep(ClientStep(s, ops[0]), ops[1..]);
    }
  }

  lemma TakeConserves(s: Sys, busy: bool)
    requires Conserved(s)
    ensures Conserved(TakeIn(s, busy).0)
  {
  }

  lemma PumpConserves(s: Sys, env: Env)
    requires Conserved(s) && EnvPossible(env, s.clientUp)
    ensures Conserved(EventPump(s, env).0)
  {
    PushOutConserves(s, env.signals);
    var s1 := if s.conn then PushOut(s, env.signals) else s;
    CallsKeep(s1, env.between);
    TakeConserves(ClientSteps(s1, env.between), env.inBusy);
  }

  lemma FlushConserves(s: Sys, env: Env)
    requires Conserved(s) && !s.clientUp
    ensures Conserved(FlushQueues(s, env))
  {
  }

  lemma {:induction false} PushOutConserves(s: Sys, ms: seq<BMsg>)
    requires Conserved(s)
    ensures Conserved(PushOut(s, ms))
  {
  }

  lemma ExitConserves(s: Sys, ev: FsmEvent)
    requires Conserved(s)
    ensures Conserved(ActionExit(s, ev))
  {
    var s1 := PushOut(s.(conn := false), [EXITED]);
    PushOutConserves(s.(conn := false), [EXITED]);
    PushOutConserves(s1, [MARKER]);
  }

  lemma ActionConserves(s: Sys, a: Action, ev: FsmEvent, env: Env)
    requires Conserved(s) && (a in {ActMarkers1, ActMarkers2} ==> !s.clientUp)
    ensures Conserved(RunAction(s, a, ev, env))
  {
    match a
    case ActConnect =>
      PushOutConserves(s, [Simple(DbusAddFilterError)]);
      PushOutConserves(s, [Simple(DbusAddMatchError)]);
      PushOutConserves(s, [Simple(DbusServiceBrowserError)]);
    case ActExit => ExitConserves(s, ev);
    case ActMarkers1 => FlushConserves(s, env);
    case ActMarkers2 => FlushConserves(s, env);
    case _ =>
  }

  lemma IterationConserves(s: Sys, env: Env)
    requires Shape(s) && Conserved(s) && EnvPossible(env, s.clientUp)
    ensures Conserved(Iteration(s, env))
  {
    if s.st != Quit {
      PumpConserves(s, env);
      PumpRecord(s, env);
      var (s1, ev) := NextEvent(s, env);
      ActionConserves(s1, Choose(s.st, ev).action, ev, env);
    }
  }

  /** What is known between the pump and the action, while no exit command was taken. */
  predicate Pumped(s: Sys, s1: Sys, ev: FsmEvent) {
    && s1.st == s.st && s1.re == s.re && s1.conn == s.conn && (s1.clientUp ==> s.clientUp) && s1.freed == s.freed
    && s1.hist.rows == s.hist.rows && s1.hist.cleanups == s.hist.cleanups
    && ExitCleanIsLast(s1)
    && (ev == CmdExitClean ==> s1.inq == [] && !s1.clientUp)
    && ev in {Null, DbusDisconnect, CmdReconnect, CmdExit, CmdExitClean, EvFlushMarker}
  }

  lemma TakeShape(s: Sys, busy: bool)
    requires ExitCleanIsLast(s)
    ensures var (s1, m) := TakeIn(s, busy);
            && ExitCleanIsLast(s1)
            && (MessageEvent(m) == CmdExitClean ==> s1.inq == [] && !s1.clientUp)
  {
    var s1 := TakeIn(s, busy).0;
    if s1.inq != s.inq {
      forall i | 0 <= i < |s1.inq| && s1.inq[i].typ == ExitClean
        ensures i == |s1.inq| - 1 && !s1.clientUp
      {
        assert s.inq[i + 1] == s1.inq[i];
      }
    }
  }

  lemma PumpShape(s: Sys, env: Env)
    requires ExitCleanIsLast(s) && EnvPossible(env, s.clientUp)
    ensures var (s1, ev) := EventPump(s, env); Pumped(s, s1, ev)
  {
    var s1 := if s.conn then PushOut(s, env.signals) else s;
    CallsKeep(s1, env.between);
    TakeShape(ClientSteps(s1, env.between), env.inBusy);
  }

  lemma PumpMarks(s: Sys, env: Env)
    requires EnvPossible(env, s.clientUp)
    ensures NoMarker(s.outq) ==> NoMarker(EventPump(s, env).0.outq)
    ensures NoMarker(s.hist.pushedOut) ==> NoMarker(EventPump(s, env).0.hist.pushedOut)
  {
    var s1 := if s.conn then PushOut(s, env.signals) else s;
    SignalsAreNoMarkers(s, env.signals);
    CallsKeep(s1, env.between);
  }

  lemma {:induction false} SignalsAreNoMarkers(s: Sys, signals: seq<BMsg>)
    requires forall i :: 0 <= i < |signals| ==> IsSignal(signals[i])
    ensures NoMarker(s.outq) ==> NoMarker(PushOut(s, signals).outq)
    ensures NoMarker(s.hist.pushedOut) ==> NoMarker(PushOut(s, signals).hist.pushedOut)
  {
  }

  predicate Early(st: FsmState) {
    st in {Start, Connect, Serve, Wait}
  }

  lemma ExitShape(s: Sys, ev: FsmEvent)
    requires ev == CmdExitClean ==> s.inq == [] && !s.clientUp
    requires !s.freed && NoMarker(s.outq)
    ensures Shape(ActionExit(s, ev).(st := Exiting))
  {
  }

  lemma ExitMarks(s: Sys, ev: FsmEvent)
    requires !s.freed && NoMarker(s.hist.pushedOut)
    ensures MarkedOnce(ActionExit(s, ev).(st := Exiting))
  {
  }

  lemma ConnectShape(s: Sys, r: ConnectResult)
    requires !s.freed && NoMarker(s.outq) && ExitCleanIsLast(s)
    ensures Shape(ActionConnect(s, r).(st := Connect))
  {
  }

  /** What an early iteration starts from after the pump. */
  predicate Ready(s: Sys, s1: Sys) {
    s1.st == s.st && !s1.freed && NoMarker(s1.outq) && ExitCleanIsLast(s1) && s1.conn == s.conn
  }

  lemma StartShape(s: Sys, ev: FsmEvent, env: Env)
    requires s.st == Start && Ready(s, s)
    ensures Shape(TakeRow(s, ev, Choose(Start, ev), env)) && Choose(Start, ev).row in LIVE_ROWS
  {
    ConnectShape(s, env.connect);
  }

  lemma ConnectedShape(s: Sys, env: Env)
    requires s.st == Connect && Shape(s)
    ensures Shape(TakeRow(s, s.re, Choose(Connect, s.re), env)) && Choose(Connect, s.re).row in LIVE_ROWS
  {
  }

  lemma ServeShape(s: Sys, ev: FsmEvent, env: Env)
    requires s.st == Serve && s.conn && Ready(s, s)
    requires ev == CmdExitClean ==> s.inq == [] && !s.clientUp
    ensures Shape(TakeRow(s, ev, Choose(Serve, ev), env)) && Choose(Serve, ev).row in LIVE_ROWS
  {
    if Choose(Serve, ev).action == ActExit {
      ExitShape(s, ev);
    }
  }

  lemma WaitShape(s: Sys, ev: FsmEvent, env: Env)
    requires s.st == Wait && Ready(s, s)
    requires ev == CmdExitClean ==> s.inq == [] && !s.clientUp
    ensures Shape(TakeRow(s, ev, Choose(Wait, ev), env)) && Choose(Wait, ev).row in LIVE_ROWS
  {
    if Choose(Wait, ev).action == ActExit {
      ExitShape(s, ev);
    } else if Choose(Wait, ev).action == ActConnect {
      ConnectShape(s, env.connect);
    }
  }

  lemma EarlyIteration(s: Sys, env: Env)
    requires Early(s.st) && Shape(s) && EnvPossible(env, s.clientUp)
    ensures Shape(Iteration(s, env)) && Choose(s.st, NextEvent(s, env).1).row in LIVE_ROWS
  {
    PumpShape(s, env);
    PumpMarks(s, env);
    var (s1, ev) := NextEvent(s, env);
    match s.st
    case Start => StartShape(s1, ev, env);
    case Connect => ConnectedShape(s, env);
    case Serve => ServeShape(s1, ev, env);
    case Wait => WaitShape(s1, ev, env);
  }

  /** Removing one message from each queue while they drain. */
  lemma DrainOne(s: Sys, env: Env)
    requires !s.clientUp && EnvPossible(env, s.clientUp) && MarkerIsLast(s.outq)
    requires s.inq == [] || s.inq == [MARKER]
    ensures var s' := FlushQueues(s, env);
            && s'.inq == [] && s'.outq == s.outq[1..]
            && (|s.outq| == 1 ==> s'.re == if s.inq == [] then Marker else Markers)
            && (|s.outq| > 1 ==> MarkerIsLast(s'.outq) && s'.re == if s.inq == [] then Null else Marker)
  {
  }

  lemma ExitingIteration(s: Sys, env: Env)
    requires s.st == Exiting && Shape(s) && EnvPossible(env, s.clientUp)
    ensures Shape(Iteration(s, env))
  {
    if s.re == PushedMarkers {
      DrainOne(s, env);
    }
  }

  lemma WMark1Iteration(s: Sys, env: Env)
    requires s.st == WMark1 && Shape(s) && EnvPossible(env, s.clientUp)
    ensures Shape(Iteration(s, env))
  {
    DrainOne(s, env);
  }

  lemma WMark2Iteration(s: Sys, env: Env)
    requires s.st == WMark2 && Shape(s) && EnvPossible(env, s.clientUp)
    ensures Shape(Iteration(s, env))
    ensures s.re == Null ==> NextEvent(s, env) == (s, Null)
  {
    if s.re == Null {
      DrainOne(s, env);
    }
  }

  lemma LateIteration(s: Sys, env: Env)
    requires !Early(s.st) && s.st != Quit && Shape(s) && EnvPossible(env, s.clientUp)
    ensures Shape(Iteration(s, env)) && Choose(s.st, NextEvent(s, env).1).row in LIVE_ROWS
  {
    match s.st
    case Exiting => ExitingIteration(s, env);
    case WMark1 => WMark1Iteration(s, env);
    case WMark2 => WMark2Iteration(s, env);
    case FClean =>
  }

  lemma IterationShape(s: Sys, env: Env)
    requires Shape(s) && EnvPossible(env, s.clientUp)
    ensures Shape(Iteration(s, env))
    ensures s.st != Quit ==> Choose(s.st, NextEvent(s, env).1).row in LIVE_ROWS
  {
    if Early(s.st) {
      EarlyIteration(s, env);
    } else if s.st != Quit {
      LateIteration(s, env);
    }
  }

  lemma PumpRecord(s: Sys, env: Env)
    requires EnvPossible(env, s.clientUp)
    ensures SameCounts(s, NextEvent(s, env).0)
  {
    CallsKeep(if s.conn then PushOut(s, env.signals) else s, env.between);
  }

  predicate SameCounts(s: Sys, s': Sys) {
    && s'.hist.rows == s.hist.rows && s'.hist.cleanups == s.hist.cleanups
    && s'.hist.flushes == s.hist.flushes && s'.freed == s.freed && (s'.clientUp ==> s.clientUp)
  }

  lemma ConnectRecord(s: Sys, r: ConnectResult)
    ensures SameCounts(s, ActionConnect(s, r))
  {
  }

  lemma ExitRecord(s: Sys, ev: FsmEvent)
    ensures SameCounts(s, ActionExit(s, ev))
  {
  }

  lemma FlushRecord(s: Sys, env: Env)
    ensures var s' := FlushQueues(s, env);
            && s'.hist.rows == s.hist.rows && s'.hist.cleanups == s.hist.cleanups
            && s'.hist.flushes == s.hist.flushes + 1 && s'.freed == s.freed && s'.clientUp == s.clientUp
  {
  }

  lemma ActionRecord(s: Sys, a: Action, ev: FsmEvent, env: Env)
    ensures var s' := RunAction(s, a, ev, env);
            && s'.hist.rows == s.hist.rows
            && s'.hist.cleanups == s.hist.cleanups + (if a == ActCleanup then 1 else 0)
            && s'.hist.flushes == s.hist.flushes + (if a in {ActMarkers1, ActMarkers2} then 1 else 0)
            && s'.freed == (s.freed || a == ActCleanup) && s'.clientUp == s.clientUp
  {
    match a
    case ActConnect => ConnectRecord(s, env.connect);
    case ActExit => ExitRecord(s, ev);
    case ActMarkers1 => FlushRecord(s, env);
    case ActMarkers2 => FlushRecord(s, env);
    case _ =>
  }

  lemma PumpKeeps(s: Sys, env: Env)
    requires EnvPossible(env, s.clientUp)
    ensures var (s1, ev) := NextEvent(s, env);
            s1.st == s.st && s1.conn == s.conn && (ev == Any ==> s.re == Any)
  {
    CallsKeep(if s.conn then PushOut(s, env.signals) else s, env.between);
  }

  /** The parts of the record that only the loop itself, FlushQueues and the last clean-up touch. */
  lemma IterationRecord(s: Sys, env: Env)
    requires s.st != Quit && EnvPossible(env, s.clientUp)
    ensures var s', c := Iteration(s, env), Choose(s.st, NextEvent(s, env).1);
            && s'.hist.rows == s.hist.rows + [c.row]
            && s'.st == c.next
            && s'.hist.cleanups == s.hist.cleanups + (if c.action == ActCleanup then 1 else 0)
            && s'.hist.flushes == s.hist.flushes + (if c.action in {ActMarkers1, ActMarkers2} then 1 else 0)
            && s'.freed == (s.freed || c.action == ActCleanup) && (s'.clientUp ==> s.clientUp)
  {
    PumpRecord(s, env);
    var (s1, ev) := NextEvent(s, env);
    ActionRecord(s1, Choose(s.st, ev).action, ev, env);
  }

  lemma EarlyStepMarks(s: Sys, ev: FsmEvent, c: Choice, env: Env)
    requires !s.freed && NoMarker(s.hist.pushedOut)
    requires c.action in {ActConnect, ActServe, ActWait, ActExit}
    requires c.next == Exiting <==> c.action == ActExit
    requires Early(c.next) || c.next == Exiting
    ensures MarkedOnce(TakeRow(s, ev, c, env))
  {
    if c.action == ActExit {
      ExitMarks(s, ev);
    } else if c.action == ActConnect {
      ConnectMarks(s, env.connect);
    }
  }

  lemma ConnectMarks(s: Sys, r: ConnectResult)
    requires NoMarker(s.hist.pushedOut)
    ensures NoMarker(ActionConnect(s, r).hist.pushedOut) && ActionConnect(s, r).freed == s.freed
  {
  }

  lemma EarlyMarks(s: Sys, env: Env)
    requires Early(s.st) && Shape(s) && NoMarker(s.hist.pushedOut) && EnvPossible(env, s.clientUp)
    ensures MarkedOnce(Iteration(s, env))
  {
    PumpMarks(s, env);
    PumpRecord(s, env);
    var (s1, ev) := NextEvent(s, env);
    EarlyStepMarks(s1, ev, Choose(s.st, ev), env);
  }

  lemma LateMarks(s: Sys, env: Env)
    requires !Early(s.st) && s.st != Quit && Shape(s) && MarkedOnce(s) && EnvPossible(env, s.clientUp)
    ensures MarkedOnce(Iteration(s, env))
  {
    if s.st == WMark2 {
      WMark2Iteration(s, env);
    }
  }

  lemma RowsExtend(s: Sys, s': Sys, r: nat)
    requires RowsLive(s) && s'.hist.rows == s.hist.rows + [r] && r in LIVE_ROWS
    ensures RowsLive(s')
  {
  }

  lemma IterationInv(s: Sys, env: Env)
    requires Inv(s) && EnvPossible(env, s.clientUp)
    ensures Inv(Iteration(s, env))
  {
    IterationShape(s, env);
    IterationConserves(s, env);
    if s.st != Quit {
      IterationRecord(s, env);
      RowsExtend(s, Iteration(s, env), Choose(s.st, NextEvent(s, env).1).row);
      if Early(s.st) {
        EarlyMarks(s, env);
      } else {
        LateMarks(s, env);
      }
    }
  }

  lemma PushShape(s: Sys, m: BMsg)
    requires Shape(s) && s.clientUp
    ensures m.typ != ExitClean ==> Shape(PushIn(s, m))
    ensures Shape(PushIn(s, m).(clientUp := false))
  {
  }

  lemma PopInv(s: Sys, busy: bool)
    requires Shape(s) && Conserved(s)
    ensures Shape(ClientStep(s, PopMsg(busy))) && Conserved(ClientStep(s, PopMsg(busy)))
  {
  }

  lemma ClientStepInv(s: Sys, op: ClientOp)
    requires Inv(s) && StepPossible(s, Client(op))
    ensures Inv(ClientStep(s, op))
  {
    if s.clientUp {
      match op
      case PushMsg(m) =>
        PushShape(s, m);
        PushConserves(s, m);
      case PopMsg(busy) =>
        PopInv(s, busy);
      case ReleaseIt =>
        PushShape(s, Simple(ExitClean));
        PushConserves(s, Simple(ExitClean));
    }
  }

  // ---------------------------------------------------------------------
  // Whole runs

  lemma {:induction false} RunInv(s: Sys, steps: seq<Step>)
    requires Inv(s) && RunPossible(s, steps)
    ensures Inv(Run(s, steps))
    decreases |steps|
  {
    if steps != [] {
      match steps[0] {
        case Client(op) => ClientStepInv(s, op);
        case Worker(env) => IterationInv(s, env);
      }
      RunInv(Do(s, steps[0]), steps[1..]);
    }
  }

  /**
   Runs put the client's calls between iterations, or between the dispatch and the look at
   the in-queue.  A call at any other moment falls among pushes of the worker to the
   out-queue, and moves behind them: a push, a release, and a pop that finds a message have
   the same effect there, and a pop that finds none changes nothing, like a busy one.
   Module FineRuns does this for whole runs.
   */
  lemma {:induction false} CallsMoveBehind(s: Sys, ms: seq<BMsg>, op: ClientOp)
    ensures !op.PopMsg? || s.outq != [] ==> PushOut(ClientStep(s, op), ms) == ClientStep(PushOut(s, ms), op)
    ensures op.PopMsg? && s.outq == [] ==> PushOut(ClientStep(s, op), ms) == ClientStep(PushOut(s, ms), PopMsg(true))
  {
    if s.clientUp && op.PopMsg? && s.outq != [] {
      assert (s.outq + ms)[1..] == s.outq[1..] + ms;
    }
  }

  /** The states from which the worker does not serve any more. */
  predicate Late(st: FsmState) {
    st in {Exiting, WMark1, WMark2, FClean, Quit}
  }

  /**
   In every run from the start: the catch-all row is never taken, nor is any other
   row outside LIVE_ROWS; the carried event tells the truth about the connection in
   Connect, Serve has a connection, and there is none from Exiting on.
   */
  lemma {:induction false} ReachableStates(steps: seq<Step>)
    requires RunPossible(INITIAL, steps)
    ensures var s := Run(INITIAL, steps);
            && (forall i :: 0 <= i < |s.hist.rows| ==> s.hist.rows[i] in LIVE_ROWS && s.hist.rows[i] != TRAP_ROW)
            && s.st != Trap
            && (s.st == Connect ==> s.re == if s.conn then ConnectOk else ConnectError)
            && (s.st == Serve ==> s.conn)
            && (Late(s.st) ==> !s.conn)
  {
    RunInv(INITIAL, steps);
  }

  /**
   In every run the queues are destroyed at most once, when the client is gone and
   both are empty.  By then every message was read exactly once and in order: what the
   client popped and then what was flushed is all that was pushed to it, with EXITED
   and one marker at the end.
   */
  lemma {:induction false} CleanupConserves(steps: seq<Step>)
    requires RunPossible(INITIAL, steps)
    ensures var s := Run(INITIAL, steps);
            && s.hist.cleanups == (if s.freed then 1 else 0)
            && (s.freed ==>
                  && !s.clientUp && s.inq == [] && s.outq == []
                  && s.hist.takenIn == s.hist.pushedIn
                  && s.hist.popped + s.hist.flushed == s.hist.pushedOut
                  && ExitedThenMarker(s.hist.pushedOut)
                  && var n := |s.hist.pushedOut|;
                     s.hist.pushedOut[n - 2].typ == Exited && s.hist.pushedOut[n - 1].typ == FlushMarker)
  {
    RunInv(INITIAL, steps);
    var s := Run(INITIAL, steps);
    if s.freed {
      assert s.hist.takenIn + [] == s.hist.takenIn;
      assert s.hist.popped + s.hist.flushed + [] == s.hist.popped + s.hist.flushed;
    }
  }

  lemma LateIterationStaysLate(s: Sys, env: Env)
    requires Shape(s) && Late(s.st) && EnvPossible(env, s.clientUp)
    ensures Late(Iteration(s, env).st)
  {
    if s.st == WMark2 {
      WMark2Iteration(s, env);
    }
  }

  /** There is no way back from Exiting. */
  lemma {:induction false} NoReturn(s: Sys, steps: seq<Step>)
    requires Inv(s) && Late(s.st) && RunPossible(s, steps)
    ensures Late(Run(s, steps).st)
    decreases |steps|
  {
    if steps != [] {
      match steps[0] {
        case Client(op) =>
          ClientStepInv(s, op);
        case Worker(env) =>
          IterationInv(s, env);
          LateIterationStaysLate(s, env);
      }
      NoReturn(Do(s, steps[0]), steps[1..]);
    }
  }
}
