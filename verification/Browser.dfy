/**
 The browser thread and its client as the source has them: objects and loops that
 change heap queues in place.  Each method is proved against the functions of
 module Fsm; that no queue is touched after it was destroyed, and that both are
 empty when they are, follows from the invariant of module FsmInvariant.
 */
module Browser {
  import opened Wrappers
  import opened Messages
  import opened Queues
  import F = Fsm
  import I = FsmInvariant

  class CommChannel {
    const inq: Queue<BMsg>
    const outq: Queue<BMsg>

    constructor ()
      ensures fresh(Footprint()) && Valid() && Live()
      ensures inq.contents == [] && outq.contents == []
    {
      inq := new Queue<BMsg>();
      outq := new Queue<BMsg>();
    }

    ghost function Footprint(): set<object>
      reads inq, outq
    {
      inq.Footprint() + outq.Footprint()
    }

    ghost predicate Valid()
      reads inq, inq.spine, outq, outq.spine
    {
      inq.Valid() && outq.Valid() && inq != outq
    }

    ghost predicate Live()
      reads inq, outq
    {
      inq.live && outq.live
    }

    /** The queues hold what `s` says, and exist as long as `s` says. */
    ghost predicate Holds(s: F.Sys)
      reads inq, inq.spine, outq, outq.spine
    {
      && Valid()
      && inq.contents == s.inq && outq.contents == s.outq
      && inq.live == !s.freed && outq.live == !s.freed
    }
  }

  class BrowserParams {
    var conn: bool
    const cc: CommChannel

    constructor (cc: CommChannel)
      ensures !conn && this.cc == cc
    {
      conn := false;
      this.cc := cc;
    }
  }

  /** mdnsbrowser.cc */
  class MDNSBrowser {
    var cc: CommChannel?
    var initState: bool

    constructor ()
      ensures cc == null && !initState
    {
      cc := null;
      initState := false;
    }

    /** init, when all allocations succeed */
    method Init()
      modifies this
      ensures initState && cc != null && fresh(cc) && fresh(cc.Footprint())
      ensures cc.Valid() && cc.Live() && cc.inq.contents == [] && cc.outq.contents == []
    {
      cc := new CommChannel();
      initState := true;
    }

    method PushMsg(m: BMsg)
      requires cc != null ==> cc.Valid() && cc.Live()
      modifies if cc != null then cc.inq.Footprint() else {}
      ensures cc != null ==> cc.Valid() && cc.Live() && fresh(cc.Footprint() - old(cc.Footprint()))
      ensures cc != null ==> cc.inq.contents == old(cc.inq.contents) + [m] && cc.outq.contents == old(cc.outq.contents)
    {
      if cc == null {
        return;
      }
      var code := QueuePut(cc.inq, Some(m), true);
    }

    method PopMsg(busy: bool) returns (m: Option<BMsg>)
      requires cc != null ==> cc.Valid() && cc.Live()
      modifies if cc != null then {cc.outq} else {}
      ensures cc != null ==> cc.Valid() && cc.Live() && cc.Footprint() <= old(cc.Footprint())
      ensures cc != null ==> cc.inq.contents == old(cc.inq.contents)
      ensures !initState ==> m == Some(Simple(InitError))
      ensures initState && cc == null ==> m == None
      ensures initState && cc != null ==> m == F.GetNb(old(cc.outq.contents), busy)
      ensures cc != null ==>
                cc.outq.contents == if initState && m.Some? then old(cc.outq.contents)[1..] else old(cc.outq.contents)
    {
      if !initState {
        return Some(Simple(InitError));
      }
      if cc == null {
        return None;
      }
      m := QueueGetNb(cc.outq, busy);
    }

    /** From here on the channel belongs to the worker alone. */
    method Release()
      requires cc != null ==> cc.Valid() && cc.Live()
      modifies this, if cc != null then cc.inq.Footprint() else {}
      ensures cc == null && initState == old(initState)
      ensures var ch := old(cc);
              ch != null ==>
                && ch.Valid() && ch.Live() && fresh(ch.Footprint() - old(ch.Footprint()))
                && ch.inq.contents == old(ch.inq.contents) + [Simple(ExitClean)]
                && ch.outq.contents == old(ch.outq.contents)
    {
      if cc == null {
        return;
      }
      PushMsg(Simple(ExitClean));
      cc := null;
    }
  }

  /** browser_push_simple_msg and browser_push_msg on the out-queue */
  method PushOut(ch: CommChannel, m: BMsg)
    requires ch.Valid() && ch.Live()
    modifies ch.outq.Footprint()
    ensures ch.Valid() && ch.Live() && fresh(ch.Footprint() - old(ch.Footprint()))
    ensures ch.outq.contents == old(ch.outq.contents) + [m] && ch.inq.contents == old(ch.inq.contents)
  {
    var code := QueuePut(ch.outq, Some(m), true);
  }

  /** The exit message for the client; for a clean exit the flush markers go down both queues. */
  method PushExit(ch: CommChannel, clean: bool)
    requires ch.Valid() && ch.Live()
    modifies ch.Footprint()
    ensures ch.Valid() && ch.Live() && fresh(ch.Footprint() - old(ch.Footprint()))
    ensures ch.outq.contents == old(ch.outq.contents) + [F.EXITED] + if clean then [F.MARKER] else []
    ensures ch.inq.contents == old(ch.inq.contents) + if clean then [F.MARKER] else []
  {
    PushOut(ch, F.EXITED);
    if clean {
      PushOut(ch, F.MARKER);
      var code := QueuePut(ch.inq, Some(F.MARKER), true);
    }
  }

  /** The D-Bus callbacks queueing what they received. */
  method Dispatch(ch: CommChannel, signals: seq<BMsg>)
    requires ch.Valid() && ch.Live()
    modifies ch.outq.Footprint()
    ensures ch.Valid() && ch.Live() && fresh(ch.Footprint() - old(ch.Footprint()))
    ensures ch.outq.contents == old(ch.outq.contents) + signals && ch.inq.contents == old(ch.inq.contents)
  {
    var i := 0;
    while i < |signals|
      invariant 0 <= i <= |signals|
      invariant ch.Valid() && ch.Live() && fresh(ch.Footprint() - old(ch.Footprint()))
      invariant ch.outq.contents == old(ch.outq.contents) + signals[..i] && ch.inq.contents == old(ch.inq.contents)
    {
      PushOut(ch, signals[i]);
      i := i + 1;
    }
  }

  /** One call of the client. */
  method ClientCall(client: MDNSBrowser, ch: CommChannel, op: F.ClientOp, ghost s: F.Sys)
    requires ch.Holds(s) && client.initState && client.cc == (if s.clientUp then ch else null)
    requires s.clientUp ==> !s.freed
    modifies client, ch.Footprint()
    ensures var s' := F.ClientStep(s, op);
            ch.Holds(s') && client.cc == (if s'.clientUp then ch else null)
    ensures client.initState && fresh(ch.Footprint() - old(ch.Footprint()))
  {
    match op
    case PushMsg(m) => client.PushMsg(m);
    case PopMsg(busy) => var m := client.PopMsg(busy);
    case ReleaseIt => client.Release();
  }

  lemma CallFreesNothing(s: F.Sys, op: F.ClientOp)
    ensures F.ClientStep(s, op).freed == s.freed
  {
  }

  /** The client's calls between the dispatch and the look at the queue. */
  method ClientCalls(client: MDNSBrowser, ch: CommChannel, ops: seq<F.ClientOp>, ghost s: F.Sys)
    requires ch.Holds(s) && client.initState && client.cc == (if s.clientUp then ch else null)
    requires !s.freed
    modifies client, ch.Footprint()
    ensures var s' := F.ClientSteps(s, ops);
            ch.Holds(s') && !s'.freed && client.cc == (if s'.clientUp then ch else null)
    ensures client.initState && fresh(ch.Footprint() - old(ch.Footprint()))
    decreases |ops|
  {
    if ops != [] {
      CallFreesNothing(s, ops[0]);
      ClientCall(client, ch, ops[0], s);
      ClientCalls(client, ch, ops[1..], F.ClientStep(s, ops[0]));
    }
  }

  method EventPump(bp: BrowserParams, client: MDNSBrowser, env: F.Env, ghost s: F.Sys) returns (ret: F.FsmEvent)
    requires bp.cc.Holds(s) && !s.freed && bp.conn == s.conn
    requires client.initState && client.cc == (if s.clientUp then bp.cc else null)
    modifies client, bp.cc.Footprint()
    ensures var (s', ev) := F.EventPump(s, env);
            && bp.cc.Holds(s') && ret == ev
            && client.initState && client.cc == if s'.clientUp then bp.cc else null
    ensures fresh(bp.cc.Footprint() - old(bp.cc.Footprint()))
  {
    ghost var s1 := if s.conn then F.PushOut(s, env.signals) else s;
    if bp.conn {
      Dispatch(bp.cc, env.signals);
      if !env.dispatchOk {
        return F.DbusDisconnect;
      }
    }
    ClientCalls(client, bp.cc, env.between, s1);
    ret := TakeEvent(bp.cc, env.inBusy, F.ClientSteps(s1, env.between));
  }

  /** One message off the in-queue, and the event it stands for. */
  method TakeEvent(ch: CommChannel, busy: bool, ghost s: F.Sys) returns (ret: F.FsmEvent)
    requires ch.Holds(s) && !s.freed
    modifies ch.inq
    ensures var (s', m) := F.TakeIn(s, busy);
            ch.Holds(s') && ret == F.MessageEvent(m) && s'.clientUp == s.clientUp
    ensures ch.Footprint() <= old(ch.Footprint())
  {
    var msg := QueueGetNb(ch.inq, busy);
    ret := F.Null;
    if msg.Some? {
      match msg.value.typ
      case Reconnect => ret := F.CmdReconnect;
      case Exit => ret := F.CmdExit;
      case ExitClean => ret := F.CmdExitClean;
      case FlushMarker => ret := F.EvFlushMarker;
      case _ => ret := F.Null;
    }
  }

  /** ActionConnect; `r` is how the D-Bus set-up ends */
  method ActionConnect(bp: BrowserParams, r: F.ConnectResult, ghost s: F.Sys) returns (event: F.FsmEvent)
    requires bp.cc.Holds(s) && !s.freed
    modifies bp, bp.cc.outq.Footprint()
    ensures var s' := F.ActionConnect(s, r);
            bp.cc.Holds(s') && event == s'.re && bp.conn == s'.conn
    ensures fresh(bp.cc.Footprint() - old(bp.cc.Footprint()))
  {
    match r
    case Connected =>
      bp.conn := true;
      event := F.ConnectOk;
    case ConnError =>
      bp.conn := false;
      event := F.ConnectError;
    case FilterError =>
      PushOut(bp.cc, Simple(DbusAddFilterError));
      bp.conn := false;
      event := F.ConnectError;
    case MatchError =>
      PushOut(bp.cc, Simple(DbusAddMatchError));
      bp.conn := false;
      event := F.ConnectError;
    case ServiceError =>
      PushOut(bp.cc, Simple(DbusServiceBrowserError));
      bp.conn := false;
      event := F.ConnectError;
  }

  lemma ExitQueues(s: F.Sys, ev: F.FsmEvent)
    ensures var s' := F.ActionExit(s, ev);
            var clean := ev == F.CmdExitClean;
            && s'.outq == s.outq + [F.EXITED] + (if clean then [F.MARKER] else [])
            && s'.inq == s.inq + (if clean then [F.MARKER] else [])
            && s'.re == (if clean then F.PushedMarkers else F.Quitting)
            && !s'.conn && s'.freed == s.freed
  {
  }

  method ActionExit(bp: BrowserParams, ev: F.FsmEvent, ghost s: F.Sys) returns (event: F.FsmEvent)
    requires bp.cc.Holds(s) && !s.freed
    modifies bp, bp.cc.Footprint()
    ensures var s' := F.ActionExit(s, ev);
            bp.cc.Holds(s') && event == s'.re && bp.conn == s'.conn
    ensures fresh(bp.cc.Footprint() - old(bp.cc.Footprint()))
  {
    if bp.conn {
      bp.conn := false;
    }
    ExitQueues(s, ev);
    PushExit(bp.cc, ev == F.CmdExitClean);
    event := if ev == F.CmdExitClean then F.PushedMarkers else F.Quitting;
  }

  lemma FlushedQueues(s: F.Sys, env: F.Env)
    ensures var s' := F.FlushQueues(s, env);
            var m1, m2 := F.GetNb(s.inq, env.flushInBusy), F.GetNb(s.outq, env.flushOutBusy);
            && s'.inq == (if m1.Some? then s.inq[1..] else s.inq)
            && s'.outq == (if m2.Some? then s.outq[1..] else s.outq)
            && (s'.re == match F.IsMarker(m1) + F.IsMarker(m2) case 1 => F.Marker case 2 => F.Markers case _ => F.Null)
            && s'.conn == s.conn && s'.freed == s.freed
  {
  }

  method FlushQueues(bp: BrowserParams, env: F.Env, ghost s: F.Sys) returns (ret: F.FsmEvent)
    requires bp.cc.Holds(s) && !s.freed
    modifies bp.cc.inq, bp.cc.outq
    ensures var s' := F.FlushQueues(s, env);
            bp.cc.Holds(s') && ret == s'.re
    ensures bp.cc.Footprint() <= old(bp.cc.Footprint())
  {
    FlushedQueues(s, env);
    var markerCount := 0;
    var msg1 := QueueGetNb(bp.cc.inq, env.flushInBusy);
    var msg2 := QueueGetNb(bp.cc.outq, env.flushOutBusy);
    if msg1.Some? && msg1.value.typ == FlushMarker {
      markerCount := markerCount + 1;
    }
    if msg2.Some? && msg2.value.typ == FlushMarker {
      markerCount := markerCount + 1;
    }
    ret := if markerCount == 1 then F.Marker else if markerCount == 2 then F.Markers else F.Null;
  }

  /** ActionFinalCleanup: the queues are empty at this point */
  method ActionFinalCleanup(bp: BrowserParams, ghost s: F.Sys) returns (event: F.FsmEvent)
    requires bp.cc.Holds(s) && !s.freed && s.inq == [] && s.outq == []
    modifies bp.cc.inq, bp.cc.outq
    ensures bp.cc.Holds(s.(freed := true)) && event == F.Quitting
    ensures bp.cc.Footprint() == old(bp.cc.Footprint())
  {
    QueueDestroy(bp.cc.inq);
    QueueDestroy(bp.cc.outq);
    event := F.Quitting;
  }

  method RunAction(bp: BrowserParams, a: F.Action, ev: F.FsmEvent, env: F.Env, ghost s: F.Sys) returns (re: F.FsmEvent)
    requires bp.cc.Holds(s) && bp.conn == s.conn
    requires s.freed ==> a == F.NoAction
    requires a == F.ActCleanup ==> s.inq == [] && s.outq == []
    modifies bp, bp.cc.Footprint()
    ensures var s' := F.RunAction(s, a, ev, env);
            bp.cc.Holds(s') && re == s'.re && bp.conn == s'.conn
    ensures fresh(bp.cc.Footprint() - old(bp.cc.Footprint()))
  {
    match a
    case NoAction => re := F.Null;
    case ActConnect => re := ActionConnect(bp, env.connect, s);
    case ActServe => re := F.Null;
    case ActWait => re := F.Null;
    case ActExit => re := ActionExit(bp, ev, s);
    case ActMarkers1 => re := FlushQueues(bp, env, s);
    case ActMarkers2 => re := FlushQueues(bp, env, s);
    case ActCleanup => re := ActionFinalCleanup(bp, s);
  }

  /** The search of the table, and the action of the row at which it stops. */
  method Transition(bp: BrowserParams, state: F.FsmState, currentEvent: F.FsmEvent, lastRe: F.FsmEvent, env: F.Env,
                    ghost s: F.Sys)
    returns (currentState: F.FsmState, re: F.FsmEvent)
    requires bp.cc.Holds(s) && bp.conn == s.conn && currentEvent != F.Any
    requires s.freed ==> F.Choose(state, currentEvent).action == F.NoAction
    requires F.Choose(state, currentEvent).action == F.ActCleanup ==> s.inq == [] && s.outq == []
    modifies bp, bp.cc.Footprint()
    ensures var s' := F.TakeRow(s, currentEvent, F.Choose(state, currentEvent), env);
            bp.cc.Holds(s') && bp.conn == s'.conn && currentState == s'.st && re == s'.re
    ensures fresh(bp.cc.Footprint() - old(bp.cc.Footprint()))
  {
    currentState, re := state, lastRe;
    F.SearchIsChoice(state, currentEvent);
    var i := 0;
    while i <= F.TRAP_ROW
      invariant 0 <= i <= F.FirstMatch(state, currentEvent, 0)
      decreases F.TRAP_ROW - i
    {
      var row := F.TransitionTable(i);
      if F.Matches(row, currentState, currentEvent) {
        assert i == F.FirstMatch(state, currentEvent, 0);
        re := RunAction(bp, row.action, currentEvent, env, s);
        currentState := row.next;
        break;
      }
      i := i + 1;
    }
  }

  /** The queues exist where the next iteration needs them, and are empty if it destroys them. */
  ghost predicate Allowed(s: F.Sys, env: F.Env) {
    var (s1, ev) := F.NextEvent(s, env);
    var a := F.Choose(s.st, ev).action;
    && ev != F.Any && s1.st == s.st && s1.conn == s.conn
    && (s.re == F.Null ==> !s.freed)
    && (s1.freed ==> a == F.NoAction)
    && (a == F.ActCleanup ==> s1.inq == [] && s1.outq == [])
  }

  lemma ActionAllowed(s: F.Sys, env: F.Env)
    requires I.Inv(s) && F.EnvPossible(env, s.clientUp) && s.st != F.Quit
    ensures Allowed(s, env)
  {
    I.PumpRecord(s, env);
    I.PumpKeeps(s, env);
    if s.st == F.WMark2 {
      I.WMark2Iteration(s, env);
    }
  }

  /** The event carried over from the last action, or else what the pump reports. */
  method NextEvent(bp: BrowserParams, client: MDNSBrowser, lastRe: F.FsmEvent, env: F.Env, ghost s: F.Sys)
    returns (currentEvent: F.FsmEvent)
    requires bp.cc.Holds(s) && bp.conn == s.conn && lastRe == s.re && (s.re == F.Null ==> !s.freed)
    requires client.initState && client.cc == (if s.clientUp then bp.cc else null)
    modifies client, bp.cc.Footprint()
    ensures var (s1, ev) := F.NextEvent(s, env);
            && bp.cc.Holds(s1) && currentEvent == ev
            && client.initState && client.cc == if s1.clientUp then bp.cc else null
    ensures fresh(bp.cc.Footprint() - old(bp.cc.Footprint()))
  {
    currentEvent := lastRe;
    if lastRe == F.Null {
      currentEvent := EventPump(bp, client, env, s);
    }
  }

  /** An iteration is the row that is taken after the event is known. */
  lemma IterationIsRow(s: F.Sys, env: F.Env)
    requires s.st != F.Quit && Allowed(s, env)
    ensures var (s1, ev) := F.NextEvent(s, env);
            var c := F.Choose(s.st, ev);
            && F.Iteration(s, env) == F.TakeRow(s1, ev, c, env) && F.Iteration(s, env).clientUp == s1.clientUp
            && ev != F.Any && s1.st == s.st && s1.conn == s.conn && (s1.freed ==> c.action == F.NoAction)
            && (c.action == F.ActCleanup ==> s1.inq == [] && s1.outq == [])
  {
    var (s1, ev) := F.NextEvent(s, env);
    RowKeepsClient(s1, ev, F.Choose(s.st, ev), env);
  }

  /** The body of the loop of run_fsm. */
  method Iterate(bp: BrowserParams, client: MDNSBrowser, state: F.FsmState, lastRe: F.FsmEvent, env: F.Env,
                 ghost s: F.Sys)
    returns (currentState: F.FsmState, re: F.FsmEvent)
    requires Agree(bp, client, state, lastRe, s)
    requires s.st != F.Quit && Allowed(s, env)
    modifies bp, client, bp.cc.Footprint()
    ensures Agree(bp, client, currentState, re, F.Iteration(s, env))
    ensures fresh(bp.cc.Footprint() - old(bp.cc.Footprint()))
  {
    IterationIsRow(s, env);
    ghost var s1, s' := F.NextEvent(s, env).0, F.Iteration(s, env);
    var currentEvent := NextEvent(bp, client, lastRe, env, s);
    currentState, re := Transition(bp, state, currentEvent, lastRe, env, s1);
    assert Agree(bp, client, currentState, re, s');
  }

  lemma RowKeepsClient(s: F.Sys, ev: F.FsmEvent, c: F.Choice, env: F.Env)
    ensures F.TakeRow(s, ev, c, env).clientUp == s.clientUp
  {
    I.ActionRecord(s, c.action, ev, env);
  }

  /** The variables of both sides are those of `s`. */
  ghost predicate Agree(bp: BrowserParams, client: MDNSBrowser, st: F.FsmState, re: F.FsmEvent, s: F.Sys)
    reads bp, client, bp.cc.inq, bp.cc.inq.spine, bp.cc.outq, bp.cc.outq.spine
  {
    && bp.cc.Holds(s) && bp.conn == s.conn && st == s.st && re == s.re
    && client.initState && client.cc == if s.clientUp then bp.cc else null
  }

  method ClientTurn(bp: BrowserParams, client: MDNSBrowser, op: F.ClientOp, ghost st: F.FsmState, ghost re: F.FsmEvent,
                    ghost s: F.Sys)
    requires Agree(bp, client, st, re, s) && (s.clientUp ==> !s.freed)
    modifies client, bp.cc.Footprint()
    ensures Agree(bp, client, st, re, F.ClientStep(s, op))
    ensures fresh(bp.cc.Footprint() - old(bp.cc.Footprint()))
  {
    ClientCall(client, bp.cc, op, s);
  }

  /** One pass of the worker's loop; after Quit the loop is over. */
  method WorkerTurn(bp: BrowserParams, client: MDNSBrowser, st: F.FsmState, lastRe: F.FsmEvent, env: F.Env,
                    ghost s: F.Sys)
    returns (currentState: F.FsmState, re: F.FsmEvent)
    requires Agree(bp, client, st, lastRe, s) && (s.st != F.Quit ==> Allowed(s, env))
    modifies bp, client, bp.cc.Footprint()
    ensures Agree(bp, client, currentState, re, F.Iteration(s, env))
    ensures fresh(bp.cc.Footprint() - old(bp.cc.Footprint()))
  {
    currentState, re := st, lastRe;
    if currentState != F.Quit {
      currentState, re := Iterate(bp, client, currentState, re, env, s);
    }
  }

  method Turn(bp: BrowserParams, client: MDNSBrowser, st: F.FsmState, lastRe: F.FsmEvent, step: F.Step,
              ghost s: F.Sys, ghost steps: seq<F.Step>, ghost end: F.Sys)
    returns (currentState: F.FsmState, re: F.FsmEvent, ghost s': F.Sys)
    requires Agree(bp, client, st, lastRe, s)
    requires steps != [] && step == steps[0] && OnTrack(s, steps, end)
    modifies bp, client, bp.cc.Footprint()
    ensures Agree(bp, client, currentState, re, s') && OnTrack(s', steps[1..], end)
    ensures fresh(bp.cc.Footprint() - old(bp.cc.Footprint()))
  {
    StepHolds(s, steps, end);
    s' := F.Do(s, step);
    currentState, re := st, lastRe;
    match step
    case Client(op) => ClientTurn(bp, client, op, st, lastRe, s);
    case Worker(env) => currentState, re := WorkerTurn(bp, client, st, lastRe, env, s);
  }

  /**
   run_fsm, with the calls of the client in between: `steps` says when which of the
   two runs and what the foreign calls answer.  The two of them change the heap queues
   as the run on values says.
   */
  method RunFsm(bp: BrowserParams, client: MDNSBrowser, steps: seq<F.Step>)
    returns (currentState: F.FsmState, re: F.FsmEvent, ghost s: F.Sys)
    requires Agree(bp, client, F.Start, F.Null, F.INITIAL)
    requires F.RunPossible(F.INITIAL, steps)
    modifies bp, client, bp.cc.Footprint()
    ensures s == F.Run(F.INITIAL, steps)
    ensures Agree(bp, client, currentState, re, s)
  {
    currentState, re, s := F.Start, F.Null, F.INITIAL;
    var i := 0;
    assert steps[0..] == steps;
    ghost var end := F.Run(F.INITIAL, steps);
    InitOnTrack(steps);
    while i < |steps|
      invariant 0 <= i <= |steps|
      invariant OnTrack(s, steps[i..], end)
      invariant Agree(bp, client, currentState, re, s)
      invariant fresh(bp.cc.Footprint() - old(bp.cc.Footprint()))
    {
      assert steps[i..][1..] == steps[i + 1..];
      currentState, re, s := Turn(bp, client, currentState, re, steps[i], s, steps[i..], end);
      i := i + 1;
    }
  }

  /** The steps that are left lead from `s` to `end`. */
  ghost predicate OnTrack(s: F.Sys, steps: seq<F.Step>, end: F.Sys) {
    I.Inv(s) && F.RunPossible(s, steps) && F.Run(s, steps) == end
  }

  lemma {:induction false} InitOnTrack(steps: seq<F.Step>)
    requires F.RunPossible(F.INITIAL, steps)
    ensures OnTrack(F.INITIAL, steps, F.Run(F.INITIAL, steps))
  {
  }

  lemma {:induction false} StepHolds(s: F.Sys, steps: seq<F.Step>, end: F.Sys)
    requires OnTrack(s, steps, end) && steps != []
    ensures s.clientUp ==> !s.freed
    ensures steps[0].Worker? && s.st != F.Quit ==> Allowed(s, steps[0].env)
    ensures OnTrack(F.Do(s, steps[0]), steps[1..], end)
  {
    match steps[0]
    case Client(op) => I.ClientStepInv(s, op);
    case Worker(env) =>
      I.IterationInv(s, env);
      if s.st != F.Quit {
        ActionAllowed(s, env);
      }
  }
}
