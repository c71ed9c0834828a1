/**
 The browser thread at the grain of single queue operations: the client may call between
 any two of them.  Every such run ends where a run of module Fsm ends, so what holds for
 all of those holds here too.
 */
module FineRuns {
  import opened Wrappers
  import opened Messages
  import opened Fsm
  import opened FsmInvariant

  /**
   One iteration: the foreign answers, the client's calls before each signal is queued, and
   those before each queue operation of the action.
   */
  datatype Fine = Fine(env: Env, during: seq<seq<ClientOp>>, acting: seq<seq<ClientOp>>)

  /** The calls of one gap; there are none where no gap is given. */
  function Gap(gaps: seq<seq<ClientOp>>, i: nat): seq<ClientOp> {
    if i < |gaps| then gaps[i] else []
  }

  function Later(gaps: seq<seq<ClientOp>>): seq<seq<ClientOp>> {
    if gaps == [] then [] else gaps[1..]
  }

  predicate AllGaps(gaps: seq<seq<ClientOp>>) {
    forall i :: 0 <= i < |gaps| ==> AllDisciplined(gaps[i])
  }

  predicate NoCalls(gaps: seq<seq<ClientOp>>) {
    forall i :: 0 <= i < |gaps| ==> gaps[i] == []
  }

  predicate FinePossible(f: Fine, clientUp: bool) {
    && EnvPossible(f.env, clientUp)
    && AllGaps(f.during) && AllGaps(f.acting)
    && (!clientUp ==> NoCalls(f.during) && NoCalls(f.acting))
  }

  /** The messages are pushed one by one. */
  function FinePushes(s: Sys, ms: seq<BMsg>, gaps: seq<seq<ClientOp>>): Sys
    decreases |ms|
  {
    if ms == [] then s else FinePushes(PushOut(ClientSteps(s, Gap(gaps, 0)), [ms[0]]), ms[1..], Later(gaps))
  }

  function FinePump(s: Sys, f: Fine): (Sys, FsmEvent) {
    var s1 := if s.conn then FinePushes(s, f.env.signals, f.during) else s;
    if s.conn && !f.env.dispatchOk then (s1, DbusDisconnect)
    else
      var (s2, m) := TakeIn(ClientSteps(s1, f.env.between), f.env.inBusy);
      (s2, MessageEvent(m))
  }

  function FineExitClean(s: Sys, acting: seq<seq<ClientOp>>): Sys {
    var s1 := PushOut(ClientSteps(s, Gap(acting, 0)).(conn := false), [EXITED]);
    var s2 := PushOut(ClientSteps(s1, Gap(acting, 1)), [MARKER]);
    PushIn(ClientSteps(s2, Gap(acting, 2)), MARKER).(re := PushedMarkers)
  }

  function FineFlush(s: Sys, env: Env, acting: seq<seq<ClientOp>>): Sys {
    var (s1, m1) := TakeIn(ClientSteps(s, Gap(acting, 0)), env.flushInBusy);
    var (s2, m2) := TakeOut(ClientSteps(s1, Gap(acting, 1)), env.flushOutBusy);
    var count := IsMarker(m1) + IsMarker(m2);
    s2.(re := if count == 1 then Marker else if count == 2 then Markers else Null,
        hist := s2.hist.(flushes := s2.hist.flushes + 1))
  }

  /** All other actions do at most one queue operation. */
  function FineAction(s: Sys, a: Action, ev: FsmEvent, f: Fine): Sys {
    if a == ActExit && ev == CmdExitClean then FineExitClean(s, f.acting)
    else if a == ActMarkers1 || a == ActMarkers2 then FineFlush(s, f.env, f.acting)
    else RunAction(ClientSteps(s, Gap(f.acting, 0)), a, ev, f.env)
  }

  function FineIteration(s: Sys, f: Fine): Sys {
    if s.st == Quit then s
    else
      var (s1, ev) := if s.re != Null then (s, s.re) else FinePump(s, f);
      var c := Choose(s.st, ev);
      Filed(FineAction(s1, c.action, ev, f), c)
  }

  /** The row that was taken is noted. */
  function Filed(s: Sys, c: Choice): Sys {
    s.(st := c.next, hist := s.hist.(rows := s.hist.rows + [c.row]))
  }

  datatype FineStep = FineClient(op: ClientOp) | FineWorker(f: Fine)

  predicate FineStepPossible(s: Sys, step: FineStep) {
    match step
    case FineClient(op) => Disciplined(op)
    case FineWorker(f) => FinePossible(f, s.clientUp)
  }

  function FineDo(s: Sys, step: FineStep): Sys {
    match step
    case FineClient(op) => ClientStep(s, op)
    case FineWorker(f) => FineIteration(s, f)
  }

  predicate FineRunPossible(s: Sys, steps: seq<FineStep>)
    decreases |steps|
  {
    steps == [] || (FineStepPossible(s, steps[0]) && FineRunPossible(FineDo(s, steps[0]), steps[1..]))
  }

  function FineRun(s: Sys, steps: seq<FineStep>): Sys
    decreases |steps|
  {
    if steps == [] then s else FineRun(FineDo(s, steps[0]), steps[1..])
  }

  // ---------------------------------------------------------------------
  // The client's calls

  lemma {:induction false} CallsInTwo(s: Sys, a: seq<ClientOp>, b: seq<ClientOp>)
    ensures ClientSteps(s, a + b) == ClientSteps(ClientSteps(s, a), b)
    decreases |a|
  {
    if a == [] {
      assert a + b == b;
    } else {
      assert (a + b)[1..] == a[1..] + b;
      CallsInTwo(ClientStep(s, a[0]), a[1..], b);
    }
  }

  lemma {:induction false} GoneMakesNoCalls(s: Sys, ops: seq<ClientOp>)
    requires !s.clientUp
    ensures ClientSteps(s, ops) == s
    decreases |ops|
  {
    if ops != [] {
      GoneMakesNoCalls(s, ops[1..]);
    }
  }

  /** One call moves behind the worker's pushes; a pop that found nothing becomes one that finds the queue busy. */
  function Moved(s: Sys, op: ClientOp): (r: ClientOp)
    ensures Disciplined(op) ==> Disciplined(r)
  {
    if op.PopMsg? && s.outq == [] then PopMsg(true) else op
  }

  /** All of them do. */
  lemma {:induction false} CallsMove(s: Sys, ms: seq<BMsg>, ops: seq<ClientOp>) returns (moved: seq<ClientOp>)
    requires AllDisciplined(ops)
    ensures PushOut(ClientSteps(s, ops), ms) == ClientSteps(PushOut(s, ms), moved) && AllDisciplined(moved)
    decreases |ops|
  {
    if ops == [] {
      moved := [];
    } else {
      var rest := CallsMove(ClientStep(s, ops[0]), ms, ops[1..]);
      moved := [Moved(s, ops[0])] + rest;
      CallsMoveBehind(s, ms, ops[0]);
      assert moved[1..] == rest;
    }
  }

  lemma {:induction false} PushInTwo(s: Sys, a: seq<BMsg>, b: seq<BMsg>)
    ensures PushOut(PushOut(s, a), b) == PushOut(s, a + b)
  {
    assert s.outq + a + b == s.outq + (a + b);
    assert s.hist.pushedOut + a + b == s.hist.pushedOut + (a + b);
  }

  lemma PushNothing(s: Sys)
    ensures PushOut(s, []) == s
  {
    assert s.outq + [] == s.outq && s.hist.pushedOut + [] == s.hist.pushedOut;
  }

  /** Pushed one by one with calls in between is pushed at once with the calls behind. */
  lemma {:induction false} PushesAtOnce(s: Sys, ms: seq<BMsg>, gaps: seq<seq<ClientOp>>) returns (moved: seq<ClientOp>)
    requires AllGaps(gaps)
    ensures FinePushes(s, ms, gaps) == ClientSteps(PushOut(s, ms), moved) && AllDisciplined(moved)
    decreases |ms|
  {
    if ms == [] {
      moved := [];
      PushNothing(s);
    } else {
      var first, rest := [ms[0]], ms[1..];
      var a := CallsMove(s, first, Gap(gaps, 0));
      var s1 := PushOut(s, first);
      var c := PushesAtOnce(ClientSteps(s1, a), rest, Later(gaps));
      var b := CallsMove(s1, rest, a);
      PushInTwo(s, first, rest);
      assert first + rest == ms;
      CallsInTwo(PushOut(s, ms), b, c);
      moved := b + c;
    }
  }

  // ---------------------------------------------------------------------
  // The pump

  /** The pump of the coarse run, and the calls that are still to be made behind it. */
  lemma {:induction false} PumpAtOnce(s: Sys, f: Fine) returns (env: Env, carry: seq<ClientOp>)
    requires FinePossible(f, s.clientUp) && s.clientUp
    ensures EnvPossible(env, s.clientUp) && AllDisciplined(carry)
    ensures env == f.env.(between := env.between)
    ensures var (s1, ev) := EventPump(s, env);
            FinePump(s, f) == (ClientSteps(s1, carry), ev) && (ev != DbusDisconnect ==> carry == [])
  {
    var moved: seq<ClientOp> := [];
    if s.conn {
      moved := PushesAtOnce(s, f.env.signals, f.during);
    }
    var s1 := if s.conn then PushOut(s, f.env.signals) else s;
    if s.conn && !f.env.dispatchOk {
      env, carry := f.env, moved;
    } else {
      env, carry := f.env.(between := moved + f.env.between), [];
      CallsInTwo(s1, moved, f.env.between);
    }
  }

  lemma {:induction false} PumpAlone(s: Sys, f: Fine)
    requires FinePossible(f, false) && !s.clientUp
    ensures FinePump(s, f) == EventPump(s, f.env)
  {
    if s.conn {
      PushesAlone(s, f.env.signals, f.during);
    }
  }

  lemma {:induction false} PushesAlone(s: Sys, ms: seq<BMsg>, gaps: seq<seq<ClientOp>>)
    requires !s.clientUp
    ensures FinePushes(s, ms, gaps) == PushOut(s, ms)
    decreases |ms|
  {
    if ms == [] {
      PushNothing(s);
    } else {
      GoneMakesNoCalls(s, Gap(gaps, 0));
      PushesAlone(PushOut(s, [ms[0]]), ms[1..], Later(gaps));
      PushInTwo(s, [ms[0]], ms[1..]);
      assert [ms[0]] + ms[1..] == ms;
    }
  }

  // ---------------------------------------------------------------------
  // The action

  /** The worker's own variables are set. */
  function Set(s: Sys, st: FsmState, re: FsmEvent, conn: bool, row: nat): Sys {
    s.(st := st, re := re, conn := conn, hist := s.hist.(rows := s.hist.rows + [row]))
  }

  lemma SetCommutes(s: Sys, op: ClientOp, st: FsmState, re: FsmEvent, conn: bool, row: nat)
    ensures ClientStep(Set(s, st, re, conn, row), op) == Set(ClientStep(s, op), st, re, conn, row)
  {
  }

  lemma {:induction false} SetMoves(s: Sys, ops: seq<ClientOp>, st: FsmState, re: FsmEvent, conn: bool, row: nat)
    ensures ClientSteps(Set(s, st, re, conn, row), ops) == Set(ClientSteps(s, ops), st, re, conn, row)
    decreases |ops|
  {
    if ops != [] {
      SetCommutes(s, ops[0], st, re, conn, row);
      SetMoves(ClientStep(s, ops[0]), ops[1..], st, re, conn, row);
    }
  }

  /** An action that does no more than one push. */
  predicate IsShort(a: Action, ev: FsmEvent) {
    a in {NoAction, ActConnect, ActServe, ActWait} || (a == ActExit && ev != CmdExitClean)
  }

  /** What it pushes. */
  function Said(a: Action, env: Env): seq<BMsg> {
    match a
    case ActConnect =>
      (match env.connect
       case FilterError => [Simple(DbusAddFilterError)]
       case MatchError => [Simple(DbusAddMatchError)]
       case ServiceError => [Simple(DbusServiceBrowserError)]
       case _ => [])
    case ActExit => [EXITED]
    case _ => []
  }

  /** The event and the connection that it leaves. */
  function Carried(a: Action, env: Env): FsmEvent {
    match a
    case ActConnect => if env.connect == Connected then ConnectOk else ConnectError
    case ActExit => Quitting
    case _ => Null
  }

  function Linked(conn: bool, a: Action, env: Env): bool {
    match a
    case ActConnect => env.connect == Connected
    case ActExit => false
    case _ => conn
  }

  lemma ShortAction(s: Sys, a: Action, ev: FsmEvent, env: Env)
    requires IsShort(a, ev)
    ensures RunAction(s, a, ev, env) == PushOut(s, Said(a, env)).(re := Carried(a, env), conn := Linked(s.conn, a, env))
  {
    PushNothing(s);
    if a == ActConnect {
      ShortConnect(s, env.connect);
    }
  }

  lemma ShortConnect(s: Sys, r: ConnectResult)
    ensures r.Connected? ==> ActionConnect(s, r) == s.(conn := true, re := ConnectOk)
    ensures r.ConnError? ==> ActionConnect(s, r) == s.(conn := false, re := ConnectError)
  {
  }

  /** A row with such an action. */
  lemma ShortRow(s: Sys, c: Choice, ev: FsmEvent, env: Env)
    requires IsShort(c.action, ev)
    ensures Filed(RunAction(s, c.action, ev, env), c)
            == Set(PushOut(s, Said(c.action, env)), c.next, Carried(c.action, env), Linked(s.conn, c.action, env),
                   c.row)
  {
    ShortAction(s, c.action, ev, env);
  }

  /** The calls before its push move behind the row. */
  lemma {:induction false} ShortRowMoves(s: Sys, ops: seq<ClientOp>, c: Choice, ev: FsmEvent, env: Env)
    returns (moved: seq<ClientOp>)
    requires IsShort(c.action, ev) && AllDisciplined(ops)
    ensures Filed(RunAction(ClientSteps(s, ops), c.action, ev, env), c) == ClientSteps(TakeRow(s, ev, c, env), moved)
    ensures AllDisciplined(moved)
  {
    var ms := Said(c.action, env);
    moved := CallsMove(s, ms, ops);
    ShortRow(s, c, ev, env);
    ShortRow(ClientSteps(s, ops), c, ev, env);
    CallsKeep(s, ops);
    SetMoves(PushOut(s, ms), moved, c.next, Carried(c.action, env), Linked(s.conn, c.action, env), c.row);
    assert TakeRow(s, ev, c, env) == Filed(RunAction(s, c.action, ev, env), c);
  }

  lemma {:induction false} LongActionAlone(s: Sys, a: Action, ev: FsmEvent, f: Fine)
    requires !s.clientUp
    ensures FineAction(s, a, ev, f) == RunAction(s, a, ev, f.env)
  {
    GoneMakesNoCalls(s, Gap(f.acting, 0));
    if a == ActExit && ev == CmdExitClean {
      ExitAlone(s, f.acting);
    } else if a == ActMarkers1 || a == ActMarkers2 {
      FlushAlone(s, f.env, f.acting);
    }
  }

  lemma {:induction false} ExitAlone(s: Sys, acting: seq<seq<ClientOp>>)
    requires !s.clientUp
    ensures FineExitClean(s, acting) == ActionExit(s, CmdExitClean)
  {
    GoneMakesNoCalls(s, Gap(acting, 0));
    var s1 := PushOut(s.(conn := false), [EXITED]);
    GoneMakesNoCalls(s1, Gap(acting, 1));
    GoneMakesNoCalls(PushOut(s1, [MARKER]), Gap(acting, 2));
  }

  lemma {:induction false} FlushAlone(s: Sys, env: Env, acting: seq<seq<ClientOp>>)
    requires !s.clientUp
    ensures FineFlush(s, env, acting) == FlushQueues(s, env)
  {
    GoneMakesNoCalls(s, Gap(acting, 0));
    GoneMakesNoCalls(TakeIn(s, env.flushInBusy).0, Gap(acting, 1));
  }

  // ---------------------------------------------------------------------
  // One iteration and whole runs

  lemma {:induction false} IterationAlone(s: Sys, f: Fine)
    requires FinePossible(f, false) && !s.clientUp
    ensures FineIteration(s, f) == Iteration(s, f.env)
  {
    if s.st != Quit {
      if s.re == Null {
        PumpAlone(s, f);
      }
      var (s1, ev) := NextEvent(s, f.env);
      PumpRecord(s, f.env);
      LongActionAlone(s1, Choose(s.st, ev).action, ev, f);
    }
  }

  /** While the client is up, only the clean-exit command leads to an action of several queue operations. */
  lemma LongMeansGone(s: Sys, env: Env)
    requires Shape(s) && s.st != Quit && EnvPossible(env, s.clientUp)
    ensures var (s1, ev) := NextEvent(s, env);
            IsShort(Choose(s.st, ev).action, ev) || !s1.clientUp
  {
    if Early(s.st) {
      PumpShape(s, env);
    }
  }

  lemma BetweenIsForThePump(s: Sys, a: Action, ev: FsmEvent, env: Env, env': Env)
    requires env' == env.(between := env'.between)
    ensures RunAction(s, a, ev, env) == RunAction(s, a, ev, env')
  {
  }

  /** The row, from what the pump left, with `carry` still to be called. */
  lemma {:induction false} RowAtOnce(s: Sys, carry: seq<ClientOp>, c: Choice, ev: FsmEvent, f: Fine)
    returns (ops: seq<ClientOp>)
    requires FinePossible(f, true) && AllDisciplined(carry) && (IsShort(c.action, ev) || !s.clientUp)
    ensures Filed(FineAction(ClientSteps(s, carry), c.action, ev, f), c) == ClientSteps(TakeRow(s, ev, c, f.env), ops)
    ensures AllDisciplined(ops)
  {
    if IsShort(c.action, ev) {
      CallsInTwo(s, carry, Gap(f.acting, 0));
      ops := ShortRowMoves(s, carry + Gap(f.acting, 0), c, ev, f.env);
    } else {
      ops := [];
      GoneMakesNoCalls(s, carry);
      LongActionAlone(s, c.action, ev, f);
    }
  }

  /** An iteration with calls anywhere is one of the coarse run, with calls behind it. */
  lemma {:induction false} IterationAtOnce(s: Sys, f: Fine) returns (env: Env, ops: seq<ClientOp>)
    requires Shape(s) && FinePossible(f, s.clientUp)
    ensures FineIteration(s, f) == ClientSteps(Iteration(s, env), ops)
    ensures EnvPossible(env, s.clientUp) && AllDisciplined(ops)
  {
    env, ops := f.env, [];
    if !s.clientUp {
      IterationAlone(s, f);
    } else if s.st != Quit {
      var carry: seq<ClientOp> := [];
      if s.re == Null {
        env, carry := PumpAtOnce(s, f);
      }
      LongMeansGone(s, env);
      var (s1, ev) := NextEvent(s, env);
      var c := Choose(s.st, ev);
      ops := RowAtOnce(s1, carry, c, ev, f);
      BetweenIsForThePump(s1, c.action, ev, f.env, env);
    }
  }

  function Calls(ops: seq<ClientOp>): seq<Step> {
    seq(|ops|, i requires 0 <= i < |ops| => Client(ops[i]))
  }

  lemma {:induction false} CallsRun(s: Sys, ops: seq<ClientOp>, rest: seq<Step>)
    requires AllDisciplined(ops)
    ensures Run(s, Calls(ops) + rest) == Run(ClientSteps(s, ops), rest)
    ensures RunPossible(ClientSteps(s, ops), rest) ==> RunPossible(s, Calls(ops) + rest)
    decreases |ops|
  {
    var steps := Calls(ops) + rest;
    if ops == [] {
      assert steps == rest;
    } else {
      assert steps[0] == Client(ops[0]) && steps[1..] == Calls(ops[1..]) + rest;
      CallsRun(ClientStep(s, ops[0]), ops[1..], rest);
    }
  }

  lemma {:induction false} CallsInv(s: Sys, ops: seq<ClientOp>)
    requires Inv(s) && AllDisciplined(ops)
    ensures Inv(ClientSteps(s, ops))
    decreases |ops|
  {
    if ops != [] {
      ClientStepInv(s, ops[0]);
      CallsInv(ClientStep(s, ops[0]), ops[1..]);
    }
  }

  lemma {:induction false} RunFirst(s: Sys, step: Step, rest: seq<Step>)
    ensures Run(s, [step] + rest) == Run(Do(s, step), rest)
    ensures StepPossible(s, step) && RunPossible(Do(s, step), rest) ==> RunPossible(s, [step] + rest)
  {
    assert ([step] + rest)[1..] == rest;
  }

  /**
   A run in which the client calls between any two queue operations of the worker ends
   where some run ends in which it calls only between iterations and between the dispatch
   and the look at the in-queue.
   */
  lemma {:induction false} FineRunIsRun(s: Sys, fine: seq<FineStep>) returns (steps: seq<Step>)
    requires Inv(s) && FineRunPossible(s, fine)
    ensures RunPossible(s, steps) && Run(s, steps) == FineRun(s, fine)
    decreases |fine|
  {
    if fine == [] {
      steps := [];
    } else {
      match fine[0]
      case FineClient(op) =>
        ClientStepInv(s, op);
        var rest := FineRunIsRun(ClientStep(s, op), fine[1..]);
        RunFirst(s, Client(op), rest);
        steps := [Client(op)] + rest;
      case FineWorker(f) =>
        var env, ops := IterationAtOnce(s, f);
        IterationInv(s, env);
        CallsInv(Iteration(s, env), ops);
        var rest := FineRunIsRun(FineIteration(s, f), fine[1..]);
        CallsRun(Iteration(s, env), ops, rest);
        RunFirst(s, Worker(env), Calls(ops) + rest);
        steps := [Worker(env)] + (Calls(ops) + rest);
    }
  }

  /** So the catch-all row is never taken, and the queues are destroyed once, empty and after the client has gone. */
  lemma {:induction false} FineRunIsSafe(fine: seq<FineStep>)
    requires FineRunPossible(INITIAL, fine)
    ensures var s := FineRun(INITIAL, fine);
            && TRAP_ROW !in s.hist.rows && s.st != Trap
            && s.hist.cleanups == (if s.freed then 1 else 0)
            && (s.freed ==>
                  && !s.clientUp && s.inq == [] && s.outq == []
                  && s.hist.takenIn == s.hist.pushedIn
                  && s.hist.popped + s.hist.flushed == s.hist.pushedOut)
  {
    var steps := FineRunIsRun(INITIAL, fine);
    ReachableStates(steps);
    CleanupConserves(steps);
  }

  /** While the client is there, its calls may fall into any gap. */
  lemma AnyGap(f: Fine)
    requires EnvPossible(f.env, true)
    requires forall j, i :: 0 <= j < |f.during| && 0 <= i < |f.during[j]| ==> Disciplined(f.during[j][i])
    requires forall j, i :: 0 <= j < |f.acting| && 0 <= i < |f.acting[j]| ==> Disciplined(f.acting[j][i])
    ensures FinePossible(f, true)
  {
  }
}
