/**
 A client that goes on after the clean-exit command, as `release` does not let it: what
 becomes of the drain, with calls between any two queue operations of the worker.
 */
module GoingOn {
  import opened Wrappers
  import opened Messages
  import opened Fsm
  import opened FsmInvariant
  import opened CleanExit
  import opened FineRuns

  // ---------------------------------------------------------------------
  // The first flush

  /** The state when a flush looks at the out-queue. */
  function SecondLook(s: Sys, f: Fine): Sys {
    ClientSteps(TakeIn(ClientSteps(s, Gap(f.acting, 0)), f.env.flushInBusy).0, Gap(f.acting, 1))
  }

  /** The markers that a flush finds. */
  function MarkersFound(s: Sys, f: Fine): nat {
    IsMarker(GetNb(ClientSteps(s, Gap(f.acting, 0)).inq, f.env.flushInBusy))
    + IsMarker(GetNb(SecondLook(s, f).outq, f.env.flushOutBusy))
  }

  predicate MarkerInFront(q: seq<BMsg>) {
    q != [] && q[0].typ == FlushMarker
  }

  function Report(c: nat): FsmEvent {
    if c == 1 then Marker else if c == 2 then Markers else Null
  }

  lemma FlushReports(s: Sys, f: Fine)
    ensures var s' := FineFlush(s, f.env, f.acting);
            && s'.re == Report(MarkersFound(s, f))
            && s'.st == s.st && s'.conn == s.conn && s'.freed == s.freed
  {
    var s1 := ClientSteps(s, Gap(f.acting, 0));
    CallsKeep(s, Gap(f.acting, 0));
    CallsKeep(TakeIn(s1, f.env.flushInBusy).0, Gap(f.acting, 1));
  }

  lemma FirstFlush(s: Sys, f: Fine)
    requires s.st == Exiting && s.re == PushedMarkers
    ensures var s' := FineIteration(s, f);
            && s'.st == WMark1 && s'.conn == s.conn && s'.freed == s.freed
            && s'.re == Report(MarkersFound(s, f))
  {
    FlushReports(s, f);
  }

  /** What the pump reports when there is no connection. */
  lemma PumpReports(s: Sys, f: Fine)
    requires !s.conn
    ensures var (s1, ev) := FinePump(s, f);
            && s1 == TakeIn(ClientSteps(s, f.env.between), f.env.inBusy).0
            && s1.st == s.st && s1.conn == s.conn && s1.freed == s.freed && s1.re == s.re
            && ev in {Null, CmdReconnect, CmdExit, CmdExitClean, EvFlushMarker}
  {
    CallsKeep(s, f.env.between);
  }

  lemma AfterFirstFlush(s: Sys, f: Fine)
    requires s.st == WMark1 && !s.conn && !s.freed && s.re in {Null, Marker, Markers}
    ensures var s' := FineIteration(s, f);
            && s'.hist.rows != []
            && s'.hist.rows[|s'.hist.rows| - 1]
               == (if s.re == Null then TRAP_ROW else if s.re == Marker then 17 else 18)
            && s'.st == (if s.re == Null then Connect else if s.re == Marker then WMark2 else Quit)
            && (s.re == Markers ==> !s'.freed)
  {
    if s.re == Null {
      PumpReports(s, f);
    } else if s.re == Markers {
      CallsKeep(s, Gap(f.acting, 0));
    }
  }

  /**
   The first flush decides where the worker goes next, whatever the client calls and
   whichever try-locks fail: without a marker it takes the catch-all row and starts over,
   with one it waits for another marker, and with both it quits and destroys nothing.
   */
  lemma {:induction false} TrapExactlyWhen(s: Sys, f1: Fine, ops: seq<ClientOp>, f2: Fine)
    requires s.st == Exiting && s.re == PushedMarkers && !s.conn && !s.freed
    ensures var s', c := FineIteration(ClientSteps(FineIteration(s, f1), ops), f2), MarkersFound(s, f1);
            && s'.hist.rows != []
            && (s'.hist.rows[|s'.hist.rows| - 1] == TRAP_ROW <==> c == 0) && (s'.st == Connect <==> c == 0)
            && (s'.st == WMark2 <==> c == 1)
            && (s'.st == Quit && !s'.freed <==> c == 2)
  {
    FirstFlush(s, f1);
    CallsKeep(FineIteration(s, f1), ops);
    AfterFirstFlush(ClientSteps(FineIteration(s, f1), ops), f2);
  }

  // ---------------------------------------------------------------------
  // What the first flush finds

  /** `b` is what is left of `a` after some messages were taken off. */
  predicate IsTail(a: seq<BMsg>, b: seq<BMsg>) {
    |b| <= |a| && b == a[|a| - |b|..]
  }

  lemma {:induction false} TailOfTail(a: seq<BMsg>, b: seq<BMsg>, c: seq<BMsg>)
    requires IsTail(a, b) && IsTail(b, c)
    ensures IsTail(a, c)
  {
  }

  lemma {:induction false} TailGrows(a: seq<BMsg>, b: seq<BMsg>, ms: seq<BMsg>)
    requires IsTail(a, b)
    ensures IsTail(a + ms, b + ms)
  {
  }

  lemma CallExtends(s: Sys, op: ClientOp)
    ensures s.inq <= ClientStep(s, op).inq && IsTail(s.outq, ClientStep(s, op).outq)
  {
  }

  /** The client's calls add to the in-queue and take from the out-queue. */
  lemma {:induction false} CallsExtend(s: Sys, ops: seq<ClientOp>)
    ensures s.inq <= ClientSteps(s, ops).inq && IsTail(s.outq, ClientSteps(s, ops).outq)
    decreases |ops|
  {
    if ops != [] {
      var s1 := ClientStep(s, ops[0]);
      CallExtends(s, ops[0]);
      CallsExtend(s1, ops[1..]);
      TailOfTail(s.outq, s1.outq, ClientSteps(s, ops).outq);
    }
  }

  /** What they add does not depend on the rest. */
  lemma {:induction false} CallsAdd(s: Sys, t: Sys, ops: seq<ClientOp>)
    requires s.inq == t.inq && s.clientUp == t.clientUp
    ensures ClientSteps(s, ops).inq == ClientSteps(t, ops).inq
    ensures ClientSteps(s, ops).clientUp == ClientSteps(t, ops).clientUp
    decreases |ops|
  {
    if ops != [] {
      CallsAdd(ClientStep(s, ops[0]), ClientStep(t, ops[0]), ops[1..]);
    }
  }

  /** The in-queue right before the worker pushes its marker, in an iteration that took the command and left `s0`. */
  function Behind(s0: Sys, f: Fine): seq<BMsg> {
    ClientSteps(ClientSteps(ClientSteps(s0, Gap(f.acting, 0)), Gap(f.acting, 1)), Gap(f.acting, 2)).inq
  }

  lemma ExitPushes(s0: Sys, f: Fine)
    ensures var s' := FineExitClean(s0, f.acting);
            && s'.re == PushedMarkers && !s'.conn && s'.freed == s0.freed
            && s'.inq == Behind(s0, f) + [MARKER] && IsTail(s0.outq + [EXITED, MARKER], s'.outq)
  {
    var g0, g1, g2 := Gap(f.acting, 0), Gap(f.acting, 1), Gap(f.acting, 2);
    var a := ClientSteps(s0, g0);
    var s1 := PushOut(a.(conn := false), [EXITED]);
    var b := ClientSteps(s1, g1);
    var s2 := PushOut(b, [MARKER]);
    CallsKeep(s0, g0);
    CallsKeep(s1, g1);
    CallsKeep(s2, g2);
    CallsAdd(a, s1, g1);
    CallsAdd(ClientSteps(a, g1), s2, g2);
    CallsExtend(s0, g0);
    ExitTail(s0.outq, a, s1, b, s2, g1, g2);
  }

  lemma {:induction false} ExitTail(q: seq<BMsg>, a: Sys, s1: Sys, b: Sys, s2: Sys,
                                    g1: seq<ClientOp>, g2: seq<ClientOp>)
    requires IsTail(q, a.outq)
    requires s1.outq == a.outq + [EXITED] && b == ClientSteps(s1, g1) && s2.outq == b.outq + [MARKER]
    ensures IsTail(q + [EXITED, MARKER], ClientSteps(s2, g2).outq)
  {
    CallsExtend(s1, g1);
    CallsExtend(s2, g2);
    TailGrows(q, a.outq, [EXITED]);
    TailOfTail(q + [EXITED], s1.outq, b.outq);
    TailGrows(q + [EXITED], b.outq, [MARKER]);
    assert q + [EXITED] + [MARKER] == q + [EXITED, MARKER];
    TailOfTail(q + [EXITED, MARKER], s2.outq, ClientSteps(s2, g2).outq);
  }

  /** The worker has taken the command and left `s0` behind. */
  lemma CommandTaken(s: Sys, f: Fine, s0: Sys)
    requires (s.st == Serve || s.st == Wait) && s.re == Null && FinePump(s, f) == (s0, CmdExitClean) && !s0.freed
    ensures var s' := FineIteration(s, f);
            && s'.st == Exiting && s'.re == PushedMarkers && !s'.conn && !s'.freed
            && s'.inq == Behind(s0, f) + [MARKER] && IsTail(s0.outq + [EXITED, MARKER], s'.outq)
  {
    ExitPushes(s0, f);
  }

  /** The marker of the out-queue is in front when nothing else is left. */
  lemma {:induction false} LastIsMarker(q: seq<BMsg>, left: seq<BMsg>)
    requires NoMarker(q) && IsTail(q + [EXITED, MARKER], left)
    ensures MarkerInFront(left) <==> |left| == 1
  {
    var all := q + [EXITED, MARKER];
    if left != [] {
      assert left[0] == all[|all| - |left|];
    }
  }

  lemma FirstLooks(s1: Sys, f: Fine, behind: seq<BMsg>, q: seq<BMsg>)
    requires NoMarker(q) && IsTail(q + [EXITED, MARKER], s1.outq) && behind + [MARKER] <= s1.inq
    ensures var inMarker := !f.env.flushInBusy && (behind == [] || MarkerInFront(behind));
            var outMarker := !f.env.flushOutBusy && |SecondLook(s1, f).outq| == 1;
            MarkersFound(s1, f) == (if inMarker then 1 else 0) + (if outMarker then 1 else 0)
  {
    var g0, g1 := Gap(f.acting, 0), Gap(f.acting, 1);
    var s2 := ClientSteps(s1, g0);
    CallsExtend(s1, g0);
    assert s2.inq[0] == (behind + [MARKER])[0];
    var s3 := TakeIn(s2, f.env.flushInBusy).0;
    CallsExtend(s3, g1);
    TailOfTail(q + [EXITED, MARKER], s1.outq, s2.outq);
    TailOfTail(q + [EXITED, MARKER], s2.outq, SecondLook(s1, f).outq);
    LastIsMarker(q, SecondLook(s1, f).outq);
  }

  /**
   In terms of the client: it makes the worker start over exactly when neither marker is in
   front at the first flush, on the in-queue because the client holds the mutex or sent
   something else in time, on the out-queue because it holds that mutex or has not taken
   everything down to the marker.
   */
  lemma {:induction false} StartsOverExactlyWhen(s: Sys, f0: Fine, s0: Sys, ops0: seq<ClientOp>,
                                                 f1: Fine, ops1: seq<ClientOp>, f2: Fine)
    requires (s.st == Serve || s.st == Wait) && s.re == Null && FinePump(s, f0) == (s0, CmdExitClean)
    requires !s0.freed && NoMarker(s0.outq)
    ensures var s1 := ClientSteps(FineIteration(s, f0), ops0);
            var s' := FineIteration(ClientSteps(FineIteration(s1, f1), ops1), f2);
            var inMarker := !f1.env.flushInBusy && (Behind(s0, f0) == [] || MarkerInFront(Behind(s0, f0)));
            var outMarker := !f1.env.flushOutBusy && |SecondLook(s1, f1).outq| == 1;
            && (s'.st == Connect <==> !inMarker && !outMarker)
            && (s'.st == WMark2 <==> inMarker != outMarker)
            && (s'.st == Quit && !s'.freed <==> inMarker && outMarker)
  {
    CommandTaken(s, f0, s0);
    var a := FineIteration(s, f0);
    CallsKeep(a, ops0);
    CallsExtend(a, ops0);
    var s1 := ClientSteps(a, ops0);
    TailOfTail(s0.outq + [EXITED, MARKER], a.outq, s1.outq);
    FirstLooks(s1, f1, Behind(s0, f0), s0.outq);
    TrapExactlyWhen(s1, f1, ops1, f2);
  }

  // ---------------------------------------------------------------------
  // The drain after the first flush

  /** The worker waits for the second marker. */
  predicate Waiting(s: Sys) {
    s.st == WMark2 && s.re == Null && !s.conn && !s.freed
  }

  /** A flush has found it: whatever happens, the worker destroys the queues and ends. */
  predicate BoundToEnd(s: Sys) {
    && !s.conn
    && match s.st
       case WMark2 => s.re in {Marker, Markers} && !s.freed
       case FClean => s.re == Quitting && s.freed
       case Quit => s.freed
       case _ => false
  }

  function WorkerTurns(steps: seq<FineStep>): nat {
    if steps == [] then 0 else (if steps[0].FineWorker? then 1 else 0) + WorkerTurns(steps[1..])
  }

  lemma CallKeepsWorker(s: Sys, op: ClientOp)
    ensures SameWorker(s, ClientStep(s, op))
  {
    CallKeeps(s, op);
  }

  /** The queues, and what was taken off the out-queue, are the same. */
  predicate SameQueues(s: Sys, s': Sys) {
    && s'.inq == s.inq && s'.outq == s.outq
    && s'.hist.popped == s.hist.popped && s'.hist.flushed == s.hist.flushed
  }

  /** What is left to do is no more than a client's calls and a row that does not look at the queues. */
  lemma BoundTurn(s: Sys, f: Fine)
    requires BoundToEnd(s)
    ensures var s' := FineIteration(s, f);
            && BoundToEnd(s')
            && (s.st == WMark2 ==> s'.st == FClean) && (s.st != WMark2 ==> s'.st == Quit)
            && SameQueues(if s.st == Quit then s else ClientSteps(s, Gap(f.acting, 0)), s')
  {
    CallsKeep(s, Gap(f.acting, 0));
    if s.st != Quit {
      BoundRow(ClientSteps(s, Gap(f.acting, 0)), f.env);
    }
  }

  lemma BoundRow(s: Sys, env: Env)
    requires BoundToEnd(s) && s.st != Quit
    ensures var c := Choose(s.st, s.re);
            var s' := Filed(RunAction(s, c.action, s.re, env), c);
            && BoundToEnd(s') && SameQueues(s, s') && s'.st == (if s.st == WMark2 then FClean else Quit)
            && c.action in {NoAction, ActCleanup}
  {
  }

  /** Two turns of the worker are enough. */
  lemma {:induction false} EndsIfBound(s: Sys, steps: seq<FineStep>)
    requires BoundToEnd(s)
    ensures BoundToEnd(FineRun(s, steps))
    ensures WorkerTurns(steps) >= (if s.st == WMark2 then 2 else 1) ==> FineRun(s, steps).st == Quit
    ensures s.st == Quit ==> FineRun(s, steps).st == Quit
    decreases |steps|
  {
    if steps != [] {
      match steps[0]
      case FineClient(op) =>
        CallKeepsWorker(s, op);
        EndsIfBound(ClientStep(s, op), steps[1..]);
      case FineWorker(f) =>
        BoundTurn(s, f);
        EndsIfBound(FineIteration(s, f), steps[1..]);
    }
  }

  /** One turn of a waiting worker: the pump looks at the in-queue, and then the flush at both. */
  function Pumped(s: Sys, f: Fine): Sys {
    TakeIn(ClientSteps(s, f.env.between), f.env.inBusy).0
  }

  lemma WaitingTurn(s: Sys, f: Fine)
    requires Waiting(s)
    ensures var s1, s' := Pumped(s, f), FineIteration(s, f);
            && s' == Filed(FineFlush(s1, f.env, f.acting), Choice(22, WMark2, ActMarkers2))
            && Waiting(s1) && s'.st == WMark2 && !s'.conn && !s'.freed
            && s'.re == Report(MarkersFound(s1, f))
  {
    PumpReports(s, f);
    FlushReports(Pumped(s, f), f);
  }

  // ---------------------------------------------------------------------
  // A client that sends no markers itself

  predicate SendsNone(ops: seq<ClientOp>) {
    forall i :: 0 <= i < |ops| ==> SendsNoMarker(ops[i])
  }

  predicate SendsNoMarker(op: ClientOp) {
    op.PushMsg? ==> op.m.typ != FlushMarker
  }

  predicate StepSendsNone(step: FineStep) {
    match step
    case FineClient(op) => SendsNoMarker(op)
    case FineWorker(f) => SendsNone(f.env.between) && SendsNone(Gap(f.acting, 0)) && SendsNone(Gap(f.acting, 1))
  }

  predicate RunSendsNone(steps: seq<FineStep>) {
    forall i :: 0 <= i < |steps| ==> StepSendsNone(steps[i])
  }

  // ---------------------------------------------------------------------
  // The marker that is left on the out-queue: who takes it

  function MarkerCount(q: seq<BMsg>): nat {
    if q == [] then 0 else MarkerCount(q[..|q| - 1]) + if q[|q| - 1].typ == FlushMarker then 1 else 0
  }

  lemma {:induction false} CountOneMore(q: seq<BMsg>, m: BMsg)
    ensures MarkerCount(q + [m]) == MarkerCount(q) + if m.typ == FlushMarker then 1 else 0
  {
    assert (q + [m])[..|q|] == q;
  }

  /**
   There were `p` markers among what the client popped, and `w` among what was flushed;
   since then one of them took the one on the out-queue, or nobody did.
   */
  predicate Race(s: Sys, p: nat, w: nat) {
    && NoMarker(s.inq)
    && var popped, flushed := MarkerCount(s.hist.popped), MarkerCount(s.hist.flushed);
       if popped == p && flushed == w then MarkerIsLast(s.outq)
       else s.outq == [] && ((popped == p + 1 && flushed == w) || (popped == p && flushed == w + 1))
  }

  /** What is left of the out-queue when a message is taken. */
  lemma {:induction false} TakeFromOut(q: seq<BMsg>)
    requires MarkerIsLast(q)
    ensures if q[0].typ == FlushMarker then q[1..] == [] else MarkerIsLast(q[1..])
  {
  }

  lemma RaceCall(s: Sys, op: ClientOp, p: nat, w: nat)
    requires Race(s, p, w) && SendsNoMarker(op)
    ensures Race(ClientStep(s, op), p, w)
  {
    if s.clientUp && op.PopMsg? && !op.busy && s.outq != [] {
      CountOneMore(s.hist.popped, s.outq[0]);
      TakeFromOut(s.outq);
    }
  }

  lemma {:induction false} RaceCalls(s: Sys, ops: seq<ClientOp>, p: nat, w: nat)
    requires Race(s, p, w) && SendsNone(ops)
    ensures Race(ClientSteps(s, ops), p, w)
    decreases |ops|
  {
    if ops != [] {
      RaceCall(s, ops[0], p, w);
      RaceCalls(ClientStep(s, ops[0]), ops[1..], p, w);
    }
  }

  lemma RaceTakeIn(s: Sys, busy: bool, p: nat, w: nat)
    requires Race(s, p, w)
    ensures Race(TakeIn(s, busy).0, p, w) && IsMarker(GetNb(s.inq, busy)) == 0
  {
  }

  lemma RaceTakeOut(s: Sys, busy: bool, p: nat, w: nat)
    requires Race(s, p, w) && MarkerCount(s.hist.flushed) == w
    ensures var s' := TakeOut(s, busy).0;
            Race(s', p, w) && MarkerCount(s'.hist.flushed) == w + IsMarker(GetNb(s.outq, busy))
  {
    if !busy && s.outq != [] {
      CountOneMore(s.hist.flushed, s.outq[0]);
      TakeFromOut(s.outq);
    }
  }

  lemma RaceTurn(s: Sys, f: Fine, p: nat, w: nat)
    requires Waiting(s) && Race(s, p, w) && MarkerCount(s.hist.flushed) == w && StepSendsNone(FineWorker(f))
    ensures var s' := FineIteration(s, f);
            Race(s', p, w) && if MarkerCount(s'.hist.flushed) == w then Waiting(s') else BoundToEnd(s')
  {
    WaitingTurn(s, f);
    RaceCalls(s, f.env.between, p, w);
    CallsKeep(s, f.env.between);
    RaceTakeIn(ClientSteps(s, f.env.between), f.env.inBusy, p, w);
    RaceFlush(Pumped(s, f), f, p, w);
  }

  lemma RaceFlush(s: Sys, f: Fine, p: nat, w: nat)
    requires Race(s, p, w) && MarkerCount(s.hist.flushed) == w && StepSendsNone(FineWorker(f))
    ensures var s' := FineFlush(s, f.env, f.acting);
            Race(s', p, w) && MarkerCount(s'.hist.flushed) == w + MarkersFound(s, f)
  {
    RaceLooks(s, f, p, w);
    RaceTakeOut(SecondLook(s, f), f.env.flushOutBusy, p, w);
    SameRace(TakeOut(SecondLook(s, f), f.env.flushOutBusy).0, FineFlush(s, f.env, f.acting), p, w);
  }

  lemma RaceLooks(s: Sys, f: Fine, p: nat, w: nat)
    requires Race(s, p, w) && MarkerCount(s.hist.flushed) == w && StepSendsNone(FineWorker(f))
    ensures Race(SecondLook(s, f), p, w) && MarkerCount(SecondLook(s, f).hist.flushed) == w
    ensures IsMarker(GetNb(ClientSteps(s, Gap(f.acting, 0)).inq, f.env.flushInBusy)) == 0
  {
    var g0, g1 := Gap(f.acting, 0), Gap(f.acting, 1);
    RaceCalls(s, g0, p, w);
    CallsKeep(s, g0);
    var s1 := ClientSteps(s, g0);
    RaceTakeIn(s1, f.env.flushInBusy, p, w);
    var s2 := TakeIn(s1, f.env.flushInBusy).0;
    RaceCalls(s2, g1, p, w);
    CallsKeep(s2, g1);
  }

  predicate RaceInv(s: Sys, p: nat, w: nat) {
    Race(s, p, w) && if MarkerCount(s.hist.flushed) == w then Waiting(s) else BoundToEnd(s)
  }

  lemma RaceWon(s: Sys, f: Fine, p: nat, w: nat)
    requires Race(s, p, w) && MarkerCount(s.hist.flushed) != w && BoundToEnd(s) && StepSendsNone(FineWorker(f))
    ensures Race(FineIteration(s, f), p, w) && MarkerCount(FineIteration(s, f).hist.flushed) != w
  {
    BoundTurn(s, f);
    CallsKeep(s, Gap(f.acting, 0));
    RaceCalls(s, Gap(f.acting, 0), p, w);
    SameRace(if s.st == Quit then s else ClientSteps(s, Gap(f.acting, 0)), FineIteration(s, f), p, w);
  }

  lemma SameRace(s: Sys, s': Sys, p: nat, w: nat)
    requires Race(s, p, w) && SameQueues(s, s')
    ensures Race(s', p, w)
  {
  }

  lemma RaceStep(s: Sys, step: FineStep, p: nat, w: nat)
    requires RaceInv(s, p, w) && StepSendsNone(step)
    ensures RaceInv(FineDo(s, step), p, w)
  {
    match step
    case FineClient(op) =>
      RaceCall(s, op, p, w);
      CallKeepsWorker(s, op);
    case FineWorker(f) =>
      if MarkerCount(s.hist.flushed) == w {
        RaceTurn(s, f, p, w);
      } else {
        RaceWon(s, f, p, w);
        BoundTurn(s, f);
      }
  }

  lemma {:induction false} RaceRun(s: Sys, steps: seq<FineStep>, p: nat, w: nat)
    requires RaceInv(s, p, w) && RunSendsNone(steps)
    ensures RaceInv(FineRun(s, steps), p, w)
    decreases |steps|
  {
    if steps != [] {
      assert StepSendsNone(steps[0]);
      RaceStep(s, steps[0], p, w);
      RaceRun(FineDo(s, steps[0]), steps[1..], p, w);
    }
  }

  /**
   With the marker on the out-queue, whatever the client calls apart from sending markers:
   the worker is bound to end exactly when one of its flushes took the marker.  Otherwise it
   waits; and once the client has popped the marker it waits for ever.
   */
  lemma {:induction false} OutMarkerDecides(s: Sys, steps: seq<FineStep>)
    requires Waiting(s) && MarkerIsLast(s.outq) && NoMarker(s.inq) && RunSendsNone(steps)
    ensures var s' := FineRun(s, steps);
            var byClient := MarkerCount(s'.hist.popped) > MarkerCount(s.hist.popped);
            var byFlush := MarkerCount(s'.hist.flushed) > MarkerCount(s.hist.flushed);
            && (if byFlush then BoundToEnd(s') else Waiting(s'))
            && !(byClient && byFlush) && (byClient || byFlush <==> !MarkerIsLast(s'.outq))
  {
    RaceRun(s, steps, MarkerCount(s.hist.popped), MarkerCount(s.hist.flushed));
  }

  // ---------------------------------------------------------------------
  // The marker that is left on the in-queue: who takes it

  /** The only marker of `q` is behind `p` messages. */
  predicate MarkerAt(q: seq<BMsg>, p: nat) {
    p < |q| && q[p].typ == FlushMarker && forall i :: 0 <= i < |q| && i != p ==> q[i].typ != FlushMarker
  }

  /** How many messages are before the marker, or who took it. */
  datatype Fate = Before(p: nat) | Eaten | Found

  /** One look at the in-queue, by the pump or by the flush. */
  function Look(fate: Fate, byFlush: bool, busy: bool): Fate {
    if busy || !fate.Before? then fate
    else if fate.p > 0 then Before(fate.p - 1)
    else if byFlush then Found
    else Eaten
  }

  /** What becomes of it is up to the try-locks of the worker alone. */
  function FateOf(fate: Fate, steps: seq<FineStep>): Fate
    decreases |steps|
  {
    if steps == [] then fate
    else
      match steps[0]
      case FineClient(_) => FateOf(fate, steps[1..])
      case FineWorker(f) => FateOf(Look(Look(fate, false, f.env.inBusy), true, f.env.flushInBusy), steps[1..])
  }

  predicate InQueueAt(s: Sys, fate: Fate) {
    && NoMarker(s.outq)
    && match fate
       case Before(p) => MarkerAt(s.inq, p)
       case _ => NoMarker(s.inq)
  }

  predicate FateInv(s: Sys, fate: Fate) {
    InQueueAt(s, fate) && if fate.Found? then BoundToEnd(s) else Waiting(s)
  }

  lemma FateCall(s: Sys, op: ClientOp, fate: Fate)
    requires InQueueAt(s, fate) && SendsNoMarker(op)
    ensures InQueueAt(ClientStep(s, op), fate)
  {
  }

  lemma {:induction false} FateCalls(s: Sys, ops: seq<ClientOp>, fate: Fate)
    requires InQueueAt(s, fate) && SendsNone(ops)
    ensures InQueueAt(ClientSteps(s, ops), fate)
    decreases |ops|
  {
    if ops != [] {
      FateCall(s, ops[0], fate);
      FateCalls(ClientStep(s, ops[0]), ops[1..], fate);
    }
  }

  lemma FateTakeIn(s: Sys, fate: Fate, byFlush: bool, busy: bool)
    requires InQueueAt(s, fate)
    ensures InQueueAt(TakeIn(s, busy).0, Look(fate, byFlush, busy))
    ensures IsMarker(GetNb(s.inq, busy)) == 1 <==> fate == Before(0) && !busy
  {
    if !busy && s.inq != [] {
      var q := TakeIn(s, busy).0.inq;
      assert forall i :: 0 <= i < |q| ==> q[i] == s.inq[i + 1];
    }
  }

  lemma FateTakeOut(s: Sys, fate: Fate, busy: bool)
    requires InQueueAt(s, fate)
    ensures InQueueAt(TakeOut(s, busy).0, fate) && IsMarker(GetNb(s.outq, busy)) == 0
  {
  }

  lemma FateFlush(s: Sys, f: Fine, fate: Fate)
    requires InQueueAt(s, fate) && StepSendsNone(FineWorker(f))
    ensures InQueueAt(FineFlush(s, f.env, f.acting), Look(fate, true, f.env.flushInBusy))
    ensures MarkersFound(s, f) == if fate == Before(0) && !f.env.flushInBusy then 1 else 0
  {
    var g0, g1 := Gap(f.acting, 0), Gap(f.acting, 1);
    FateCalls(s, g0, fate);
    var s1 := ClientSteps(s, g0);
    FateTakeIn(s1, fate, true, f.env.flushInBusy);
    var s2, fate' := TakeIn(s1, f.env.flushInBusy).0, Look(fate, true, f.env.flushInBusy);
    FateCalls(s2, g1, fate');
    FateTakeOut(ClientSteps(s2, g1), fate', f.env.flushOutBusy);
  }

  lemma FateTurn(s: Sys, f: Fine, fate: Fate)
    requires FateInv(s, fate) && StepSendsNone(FineWorker(f))
    ensures FateInv(FineIteration(s, f), Look(Look(fate, false, f.env.inBusy), true, f.env.flushInBusy))
  {
    if fate.Found? {
      BoundTurn(s, f);
      FateCalls(s, Gap(f.acting, 0), fate);
      SameFate(if s.st == Quit then s else ClientSteps(s, Gap(f.acting, 0)), FineIteration(s, f), fate);
    } else {
      FateWaits(s, f, fate);
    }
  }

  lemma SameFate(s: Sys, s': Sys, fate: Fate)
    requires InQueueAt(s, fate) && SameQueues(s, s')
    ensures InQueueAt(s', fate)
  {
  }

  lemma FateWaits(s: Sys, f: Fine, fate: Fate)
    requires Waiting(s) && InQueueAt(s, fate) && !fate.Found? && StepSendsNone(FineWorker(f))
    ensures FateInv(FineIteration(s, f), Look(Look(fate, false, f.env.inBusy), true, f.env.flushInBusy))
  {
    var fate1 := Look(fate, false, f.env.inBusy);
    WaitingTurn(s, f);
    FateCalls(s, f.env.between, fate);
    FateTakeIn(ClientSteps(s, f.env.between), fate, false, f.env.inBusy);
    FateFlush(Pumped(s, f), f, fate1);
    SameFate(FineFlush(Pumped(s, f), f.env, f.acting), FineIteration(s, f), Look(fate1, true, f.env.flushInBusy));
  }

  lemma {:induction false} FateRun(s: Sys, steps: seq<FineStep>, fate: Fate)
    requires FateInv(s, fate) && RunSendsNone(steps)
    ensures FateInv(FineRun(s, steps), FateOf(fate, steps))
    decreases |steps|
  {
    if steps != [] {
      assert StepSendsNone(steps[0]);
      match steps[0]
      case FineClient(op) =>
        FateCall(s, op, fate);
        CallKeepsWorker(s, op);
        FateRun(ClientStep(s, op), steps[1..], fate);
      case FineWorker(f) =>
        FateTurn(s, f, fate);
        FateRun(FineIteration(s, f), steps[1..], Look(Look(fate, false, f.env.inBusy), true, f.env.flushInBusy));
    }
  }

  /**
   With the marker on the in-queue behind `p` messages, whatever the client calls apart from
   sending markers: the worker is bound to end exactly when a flush takes the marker and not
   the pump, and which of them does depends on `p` and on the try-locks that fail.
   */
  lemma {:induction false} InMarkerDecides(s: Sys, p: nat, steps: seq<FineStep>)
    requires Waiting(s) && MarkerAt(s.inq, p) && NoMarker(s.outq) && RunSendsNone(steps)
    ensures var s' := FineRun(s, steps);
            if FateOf(Before(p), steps) == Found then BoundToEnd(s') else Waiting(s')
  {
    FateRun(s, steps, Before(p));
  }

  predicate NoneBusy(steps: seq<FineStep>) {
    forall i :: 0 <= i < |steps| && steps[i].FineWorker? ==> !steps[i].f.env.inBusy && !steps[i].f.env.flushInBusy
  }

  lemma {:induction false} FateStays(fate: Fate, steps: seq<FineStep>)
    requires !fate.Before?
    ensures FateOf(fate, steps) == fate
    decreases |steps|
  {
    if steps != [] {
      FateStays(fate, steps[1..]);
    }
  }

  /** Where no try-lock fails, the pump takes the messages at even places and the flush those at odd ones. */
  lemma {:induction false} FateByParity(p: nat, steps: seq<FineStep>)
    requires NoneBusy(steps) && 2 * WorkerTurns(steps) > p
    ensures FateOf(Before(p), steps) == if p % 2 == 1 then Found else Eaten
    decreases |steps|
  {
    if steps[0].FineClient? {
      FateByParity(p, steps[1..]);
    } else if p >= 2 {
      FateByParity(p - 2, steps[1..]);
    } else {
      FateStays(if p == 1 then Found else Eaten, steps[1..]);
    }
  }

  /** With no marker anywhere the worker waits for ever. */
  lemma {:induction false} WaitsForEver(s: Sys, steps: seq<FineStep>)
    requires Waiting(s) && NoMarker(s.inq) && NoMarker(s.outq) && RunSendsNone(steps)
    ensures Waiting(FineRun(s, steps))
  {
    FateRun(s, steps, Eaten);
    FateStays(Eaten, steps);
  }

  // ---------------------------------------------------------------------
  // After the client's last call, whatever it has sent and read

  /** An iteration without calls inside. */
  lemma {:induction false} PlainIsFine(s: Sys, env: Env)
    ensures FineIteration(s, Fine(env, [], [])) == Iteration(s, env)
  {
    if s.st != Quit {
      PumpPlain(s, env);
      var (s1, ev) := NextEvent(s, env);
      ActionPlain(s1, Choose(s.st, ev).action, ev, env);
    }
  }

  lemma {:induction false} PumpPlain(s: Sys, env: Env)
    ensures FinePump(s, Fine(env, [], [])) == EventPump(s, env)
  {
    PushesPlain(s, env.signals);
  }

  lemma ActionPlain(s: Sys, a: Action, ev: FsmEvent, env: Env)
    ensures FineAction(s, a, ev, Fine(env, [], [])) == RunAction(s, a, ev, env)
  {
    ExitPlain(s);
    FlushPlain(s, env);
    NoCallsNoChange(s);
  }

  lemma NoCallsNoChange(s: Sys)
    ensures ClientSteps(s, []) == s
  {
  }

  lemma ExitPlain(s: Sys)
    ensures FineExitClean(s, []) == ActionExit(s, CmdExitClean)
  {
  }

  lemma FlushPlain(s: Sys, env: Env)
    ensures FineFlush(s, env, []) == FlushQueues(s, env)
  {
  }

  lemma {:induction false} PushesPlain(s: Sys, ms: seq<BMsg>)
    ensures FinePushes(s, ms, []) == PushOut(s, ms)
    decreases |ms|
  {
    if ms == [] {
      PushNothing(s);
    } else {
      PushesPlain(PushOut(s, [ms[0]]), ms[1..]);
      PushInTwo(s, [ms[0]], ms[1..]);
      assert [ms[0]] + ms[1..] == ms;
    }
  }

  function Drop(q: seq<BMsg>, n: nat): seq<BMsg> {
    if n <= |q| then q[n..] else []
  }

  predicate IsMarkerAt(q: seq<BMsg>, i: int) {
    0 <= i < |q| && q[i].typ == FlushMarker
  }

  /**
   The flushes of a waiting worker see the odd places of the in-queue, since its pump takes
   the even ones, and every place of the out-queue.
   */
  ghost predicate WillBeSeen(inq: seq<BMsg>, outq: seq<BMsg>) {
    (exists i :: IsMarkerAt(inq, i) && i % 2 == 1) || (exists i :: IsMarkerAt(outq, i))
  }

  /** What the flush of this turn sees. */
  predicate SeenNow(inq: seq<BMsg>, outq: seq<BMsg>) {
    IsMarkerAt(inq, 1) || IsMarkerAt(outq, 0)
  }

  lemma {:induction false} SeenNowOrLater(inq: seq<BMsg>, outq: seq<BMsg>)
    ensures WillBeSeen(inq, outq) <==> SeenNow(inq, outq) || WillBeSeen(Drop(inq, 2), Drop(outq, 1))
  {
    var inq', outq' := Drop(inq, 2), Drop(outq, 1);
    forall i | IsMarkerAt(inq, i) && i % 2 == 1 ensures i == 1 || (IsMarkerAt(inq', i - 2) && (i - 2) % 2 == 1) {
    }
    forall i | IsMarkerAt(inq', i) && i % 2 == 1 ensures IsMarkerAt(inq, i + 2) && (i + 2) % 2 == 1 {
    }
    forall i | IsMarkerAt(outq, i) ensures i == 0 || IsMarkerAt(outq', i - 1) {
    }
    forall i | IsMarkerAt(outq', i) ensures IsMarkerAt(outq, i + 1) {
    }
  }

  lemma QuietFlush(s: Sys, env: Env)
    requires EnvPossible(env, false)
    ensures var s' := FlushQueues(s, env);
            && s'.inq == Drop(s.inq, 1) && s'.outq == Drop(s.outq, 1)
            && s'.st == s.st && s'.conn == s.conn && s'.freed == s.freed && s'.clientUp == s.clientUp
            && (s'.re == Null <==> !MarkerInFront(s.inq) && !MarkerInFront(s.outq))
            && s'.re in {Null, Marker, Markers} && (s'.re == Markers <==> MarkerInFront(s.inq) && MarkerInFront(s.outq))
  {
  }

  lemma QuietTurn(s: Sys, env: Env)
    requires Waiting(s) && EnvPossible(env, false)
    ensures var s' := Iteration(s, env);
            && s'.inq == Drop(s.inq, 2) && s'.outq == Drop(s.outq, 1)
            && if SeenNow(s.inq, s.outq) then BoundToEnd(s') && s'.st == WMark2 else Waiting(s')
  {
    PumpTakes(s, env);
    PumpQuiet(s, env);
    QuietFlush(EventPump(s, env).0, env);
  }

  lemma PumpQuiet(s: Sys, env: Env)
    requires Waiting(s) && EnvPossible(env, false)
    ensures var (s1, ev) := EventPump(s, env);
            && Waiting(s1) && s1.inq == Drop(s.inq, 1) && s1.outq == s.outq
            && Choose(s.st, ev) == Choice(22, WMark2, ActMarkers2)
  {
  }

  lemma {:induction false} BoundEndsQuietly(s: Sys, envs: seq<Env>)
    requires BoundToEnd(s) && |envs| >= if s.st == WMark2 then 2 else if s.st == FClean then 1 else 0
    ensures Loop(s, envs).st == Quit && Loop(s, envs).freed
    decreases |envs|
  {
    if envs != [] {
      PlainIsFine(s, envs[0]);
      BoundTurn(s, Fine(envs[0], [], []));
      BoundEndsQuietly(Iteration(s, envs[0]), envs[1..]);
    }
  }

  lemma {:induction false} UnseenWaits(s: Sys, envs: seq<Env>)
    requires Waiting(s) && NobodyElse(envs) && !WillBeSeen(s.inq, s.outq)
    ensures Waiting(Loop(s, envs))
    decreases |envs|
  {
    if envs != [] {
      QuietTurn(s, envs[0]);
      SeenNowOrLater(s.inq, s.outq);
      UnseenWaits(Iteration(s, envs[0]), envs[1..]);
    }
  }

  lemma {:induction false} SeenEnds(s: Sys, envs: seq<Env>)
    requires Waiting(s) && NobodyElse(envs) && WillBeSeen(s.inq, s.outq)
    requires |envs| >= |s.inq| + |s.outq| + 2
    ensures Loop(s, envs).st == Quit && Loop(s, envs).freed
    decreases |envs|
  {
    var s' := Iteration(s, envs[0]);
    QuietTurn(s, envs[0]);
    SeenNowOrLater(s.inq, s.outq);
    if SeenNow(s.inq, s.outq) {
      BoundEndsQuietly(s', envs[1..]);
    } else {
      SeenEnds(s', envs[1..]);
    }
  }

  /**
   The whole promise for a waiting worker that is left alone, whatever the queues hold: it
   ends, and destroys the queues, exactly when one of its flushes will see a marker; else it
   waits for ever.
   */
  lemma {:induction false} DrainEndsExactlyWhen(s: Sys, envs: seq<Env>)
    requires Waiting(s) && NobodyElse(envs)
    ensures !WillBeSeen(s.inq, s.outq) ==> Waiting(Loop(s, envs))
    ensures |envs| >= |s.inq| + |s.outq| + 2 ==>
              (Loop(s, envs).st == Quit && Loop(s, envs).freed <==> WillBeSeen(s.inq, s.outq))
  {
    if !WillBeSeen(s.inq, s.outq) {
      UnseenWaits(s, envs);
    } else if |envs| >= |s.inq| + |s.outq| + 2 {
      SeenEnds(s, envs);
    }
  }

  lemma QuietFirstTurn(s: Sys, env: Env)
    requires s.st == Exiting && s.re == PushedMarkers && !s.conn && !s.freed && EnvPossible(env, false)
    ensures var s' := Iteration(s, env);
            && s'.st == WMark1 && !s'.conn && !s'.freed && s'.clientUp == s.clientUp
            && s'.inq == Drop(s.inq, 1) && s'.outq == Drop(s.outq, 1)
            && (s'.re == if MarkerInFront(s.inq) && MarkerInFront(s.outq) then Markers
                         else if MarkerInFront(s.inq) || MarkerInFront(s.outq) then Marker else Null)
  {
    QuietFlush(s, env);
  }

  lemma QuietFirstTurns(s: Sys, e1: Env, e2: Env)
    requires s.st == Exiting && s.re == PushedMarkers && !s.conn && !s.freed
    requires EnvPossible(e1, false) && EnvPossible(e2, false) && MarkerInFront(s.inq) != MarkerInFront(s.outq)
    ensures var s' := Iteration(Iteration(s, e1), e2);
            && s'.inq == Drop(s.inq, 2) && s'.outq == Drop(s.outq, 2)
            && if SeenNow(s.inq, Drop(s.outq, 1)) then BoundToEnd(s') && s'.st == WMark2 else Waiting(s')
  {
    QuietFirstTurn(s, e1);
    QuietSecondTurn(Iteration(s, e1), e2);
  }

  lemma QuietSecondTurn(s: Sys, env: Env)
    requires s.st == WMark1 && s.re == Marker && !s.conn && !s.freed && EnvPossible(env, false)
    ensures var s' := Iteration(s, env);
            && s'.inq == Drop(s.inq, 1) && s'.outq == Drop(s.outq, 1) && s'.clientUp == s.clientUp
            && if MarkerInFront(s.inq) || MarkerInFront(s.outq) then BoundToEnd(s') && s'.st == WMark2
               else Waiting(s')
  {
    QuietFlush(s, env);
  }

  /**
   The same from the moment when the markers are pushed, for a client that makes no more
   calls: with one marker in front, the worker ends and destroys the queues exactly when the
   other one will be seen; with two it ends and does not.
   */
  lemma {:induction false} QuietEndsExactlyWhen(s: Sys, envs: seq<Env>)
    requires s.st == Exiting && s.re == PushedMarkers && !s.conn && !s.freed && NobodyElse(envs)
    requires |envs| >= |s.inq| + |s.outq| + 4
    ensures MarkerInFront(s.inq) != MarkerInFront(s.outq) ==>
              (Loop(s, envs).st == Quit && Loop(s, envs).freed <==> WillBeSeen(s.inq, Drop(s.outq, 1)))
    ensures MarkerInFront(s.inq) && MarkerInFront(s.outq) ==> Loop(s, envs).st == Quit && !Loop(s, envs).freed
  {
    if MarkerInFront(s.inq) != MarkerInFront(s.outq) {
      OneInFront(s, envs);
    } else if MarkerInFront(s.inq) {
      BothInFront(s, envs);
    }
  }

  lemma {:induction false} OneInFront(s: Sys, envs: seq<Env>)
    requires s.st == Exiting && s.re == PushedMarkers && !s.conn && !s.freed && NobodyElse(envs)
    requires |envs| >= |s.inq| + |s.outq| + 4 && MarkerInFront(s.inq) != MarkerInFront(s.outq)
    ensures Loop(s, envs).st == Quit && Loop(s, envs).freed <==> WillBeSeen(s.inq, Drop(s.outq, 1))
  {
    LoopTwo(s, envs);
    var s' := Iteration(Iteration(s, envs[0]), envs[1]);
    QuietFirstTurns(s, envs[0], envs[1]);
    SeenNowOrLater(s.inq, Drop(s.outq, 1));
    assert Drop(Drop(s.outq, 1), 1) == Drop(s.outq, 2);
    if SeenNow(s.inq, Drop(s.outq, 1)) {
      BoundEndsQuietly(s', envs[2..]);
    } else {
      DrainEndsExactlyWhen(s', envs[2..]);
    }
  }

  lemma {:induction false} BothInFront(s: Sys, envs: seq<Env>)
    requires s.st == Exiting && s.re == PushedMarkers && !s.conn && !s.freed && NobodyElse(envs)
    requires |envs| >= 2 && MarkerInFront(s.inq) && MarkerInFront(s.outq)
    ensures Loop(s, envs).st == Quit && !Loop(s, envs).freed
  {
    LoopTwo(s, envs);
    var s1 := Iteration(s, envs[0]);
    QuietFirstTurn(s, envs[0]);
    QuitStays(Iteration(s1, envs[1]), envs[2..]);
  }

  // ---------------------------------------------------------------------
  // Whole runs, one of each kind

  const W: Step := Worker(PLAIN)
  const SEND_EXIT: Step := Client(PushMsg(Simple(ExitClean)))
  const SEND_MORE: Step := Client(PushMsg(Simple(Reconnect)))
  const READ_ONE: Step := Client(PopMsg(false))
  const MORE: BMsg := Simple(Reconnect)

  /** The worker has just pushed its markers, and the client is still there. */
  predicate ExitsWith(s: Sys, inq: seq<BMsg>, outq: seq<BMsg>) {
    s.st == Exiting && s.re == PushedMarkers && !s.conn && !s.freed && s.clientUp && s.inq == inq && s.outq == outq
  }

  lemma {:induction false} Sent(s: Sys, inq: seq<BMsg>, m: BMsg)
    requires WaitsFor(s, inq)
    ensures WaitsFor(Do(s, Client(PushMsg(m))), inq + [m])
  {
  }

  lemma {:induction false} ReadOne(s: Sys, inq: seq<BMsg>, outq: seq<BMsg>)
    requires ExitsWith(s, inq, outq) && outq != []
    ensures ExitsWith(Do(s, READ_ONE), inq, outq[1..])
  {
  }

  lemma {:induction false} ExitTaken(s: Sys, behind: seq<BMsg>)
    requires WaitsFor(s, [Simple(ExitClean)] + behind)
    ensures ExitsWith(Iteration(s, PLAIN), behind + [MARKER], [EXITED, MARKER])
  {
    ExitTakenPump(s, behind);
    assert [] + [EXITED] + [MARKER] == [EXITED, MARKER];
  }

  lemma {:induction false} ExitTakenPump(s: Sys, behind: seq<BMsg>)
    requires WaitsFor(s, [Simple(ExitClean)] + behind)
    ensures var (s0, ev) := NextEvent(s, PLAIN);
            && ev == CmdExitClean && s0.inq == behind && s0.outq == [] && !s0.freed && s0.clientUp && s0.st == Wait
  {
  }

  /** The client sends the clean-exit command itself, and then `more`. */
  lemma {:induction false} RunToExit(more: seq<BMsg>, rest: seq<Step>) returns (s: Sys)
    ensures Run(INITIAL, [W] + ([W] + ([SEND_EXIT] + (Sends(more) + ([W] + rest))))) == Run(s, rest)
    ensures ExitsWith(s, more + [MARKER], [EXITED, MARKER])
  {
    var last := Sends(more) + ([W] + rest);
    var s0 := RunToWait([SEND_EXIT] + last);
    RunOne(s0, SEND_EXIT, last);
    Sent(s0, [], Simple(ExitClean));
    assert [] + [Simple(ExitClean)] == [Simple(ExitClean)];
    var s1 := RunSends(Do(s0, SEND_EXIT), [Simple(ExitClean)], more, [W] + rest);
    RunOne(s1, W, rest);
    ExitTaken(s1, more);
    s := Iteration(s1, PLAIN);
  }

  function Sends(ms: seq<BMsg>): seq<Step> {
    seq(|ms|, i requires 0 <= i < |ms| => Client(PushMsg(ms[i])))
  }

  lemma {:induction false} RunSends(s: Sys, inq: seq<BMsg>, ms: seq<BMsg>, rest: seq<Step>) returns (s': Sys)
    requires WaitsFor(s, inq)
    ensures Run(s, Sends(ms) + rest) == Run(s', rest) && WaitsFor(s', inq + ms)
    decreases |ms|
  {
    if ms == [] {
      s' := s;
      assert Sends(ms) + rest == rest && inq + ms == inq;
    } else {
      Sent(s, inq, ms[0]);
      assert Sends(ms) + rest == [Client(PushMsg(ms[0]))] + (Sends(ms[1..]) + rest);
      RunOne(s, Client(PushMsg(ms[0])), Sends(ms[1..]) + rest);
      s' := RunSends(Do(s, Client(PushMsg(ms[0]))), inq + [ms[0]], ms[1..], rest);
      assert inq + [ms[0]] + ms[1..] == inq + ms;
    }
  }

  /** It sends one more message, and then nothing: the worker starts over. */
  lemma GoingOnStartsOver()
    ensures var s := Run(INITIAL, [W] + ([W] + ([SEND_EXIT] + (Sends([MORE]) + ([W] + ([W] + [W]))))));
            s.st == Connect && s.hist.rows != [] && s.hist.rows[|s.hist.rows| - 1] == TRAP_ROW
  {
    var s := RunToExit([MORE], [W] + [W]);
    TwoTurns(s);
    StartsOverFrom(s);
  }

  lemma StartsOverFrom(s: Sys)
    requires ExitsWith(s, [MORE] + [MARKER], [EXITED, MARKER])
    ensures var s' := Iteration(Iteration(s, PLAIN), PLAIN);
            s'.st == Connect && s'.hist.rows != [] && s'.hist.rows[|s'.hist.rows| - 1] == TRAP_ROW
  {
    QuietFirstTurn(s, PLAIN);
    AfterFirstFlush(Iteration(s, PLAIN), Fine(PLAIN, [], []));
    PlainIsFine(Iteration(s, PLAIN), PLAIN);
  }

  /** It reads one message at the right moment: the worker ends, and nobody destroys the queues. */
  lemma {:induction false} GoingOnLeaks(envs: seq<Env>)
    requires NobodyElse(envs) && |envs| >= 2
    ensures var s := Run(INITIAL, [W] + ([W] + ([SEND_EXIT] + (Sends([]) + ([W] + [READ_ONE])))));
            Loop(s, envs).st == Quit && !Loop(s, envs).freed
  {
    var s := RunToExit([], [READ_ONE]);
    RunOne(s, READ_ONE, []);
    assert [READ_ONE] + [] == [READ_ONE] && [] + [MARKER] == [MARKER];
    ReadOne(s, [MARKER], [EXITED, MARKER]);
    BothInFront(Do(s, READ_ONE), envs);
  }

  /** It sends two messages and reads one: the pump eats the marker, and the worker waits for ever. */
  lemma {:induction false} GoingOnIsEaten(envs: seq<Env>)
    requires NobodyElse(envs) && |envs| >= 2
    ensures var s := Run(INITIAL, [W] + ([W] + ([SEND_EXIT] + (Sends([MORE, MORE]) + ([W] + [READ_ONE])))));
            Waiting(Loop(s, envs))
  {
    var s := RunToExit([MORE, MORE], [READ_ONE]);
    RunOne(s, READ_ONE, []);
    assert [READ_ONE] + [] == [READ_ONE];
    ReadOne(s, [MORE, MORE] + [MARKER], [EXITED, MARKER]);
    assert [MORE, MORE] + [MARKER] == [MORE, MORE, MARKER];
    EatenFrom(Do(s, READ_ONE), envs);
  }

  lemma {:induction false} EatenFrom(s: Sys, envs: seq<Env>)
    requires ExitsWith(s, [MORE, MORE, MARKER], [MARKER]) && NobodyElse(envs) && |envs| >= 2
    ensures Waiting(Loop(s, envs))
  {
    QuietFirstTurns(s, envs[0], envs[1]);
    LoopTwo(s, envs);
    var s' := Iteration(Iteration(s, envs[0]), envs[1]);
    assert Waiting(s') && s'.inq == [MARKER] && s'.outq == [];
    NothingSeen();
    UnseenWaits(s', envs[2..]);
  }

  lemma NothingSeen()
    ensures !WillBeSeen([MARKER], []) && !WillBeSeen([], [])
  {
  }

  /** The first flush of a drain that nobody disturbs. */
  lemma FirstQuietFlush(s: Sys)
    requires ExitsWith(s, [MARKER], [EXITED, MARKER])
    ensures AfterOne(Iteration(s, PLAIN), [MARKER])
  {
    QuietFirstTurn(s, PLAIN);
  }

  predicate AfterOne(s: Sys, outq: seq<BMsg>) {
    s.st == WMark1 && s.re == Marker && !s.conn && !s.freed && s.clientUp && s.inq == [] && s.outq == outq
  }

  lemma MarkerRead(s: Sys)
    requires AfterOne(s, [MARKER])
    ensures AfterOne(Do(s, READ_ONE), [])
  {
  }

  lemma NothingLeft(s: Sys, env: Env)
    requires AfterOne(s, []) && EnvPossible(env, false)
    ensures var s' := Iteration(s, env); Waiting(s') && s'.inq == [] && s'.outq == []
  {
    QuietSecondTurn(s, env);
  }

  /** It reads the marker off the out-queue: the worker waits for ever. */
  lemma {:induction false} GoingOnTakesTheMarker(envs: seq<Env>)
    requires NobodyElse(envs) && |envs| >= 1
    ensures var s := Run(INITIAL, [W] + ([W] + ([SEND_EXIT] + (Sends([]) + ([W] + ([W] + [READ_ONE]))))));
            Waiting(Loop(s, envs))
  {
    var s := RunToExit([], [W] + [READ_ONE]);
    assert [] + [MARKER] == [MARKER];
    RunOne(s, W, [READ_ONE]);
    RunOne(Iteration(s, PLAIN), READ_ONE, []);
    assert [READ_ONE] + [] == [READ_ONE];
    FirstQuietFlush(s);
    MarkerRead(Iteration(s, PLAIN));
    var s1 := Do(Iteration(s, PLAIN), READ_ONE);
    NothingLeft(s1, envs[0]);
    NothingSeen();
    UnseenWaits(Iteration(s1, envs[0]), envs[1..]);
  }

  /** It does nothing at all: the worker destroys the queues under a client that holds the channel. */
  lemma GoingOnIsCutOff()
    ensures var s := Run(INITIAL, [W] + ([W] + ([SEND_EXIT] + (Sends([]) + ([W] + ([W] + ([W] + [W])))))));
            s.freed && s.clientUp
  {
    var s := RunToExit([], [W] + ([W] + [W]));
    assert [] + [MARKER] == [MARKER];
    RunOne(s, W, [W] + [W]);
    FirstQuietFlush(s);
    TwoTurns(Iteration(s, PLAIN));
    CutOff(Iteration(s, PLAIN));
  }

  lemma CutOff(s: Sys)
    requires AfterOne(s, [MARKER])
    ensures var s' := Iteration(Iteration(s, PLAIN), PLAIN); s'.freed && s'.clientUp
  {
    QuietSecondTurn(s, PLAIN);
  }

  /** The calls of a client that sends no markers: any others, at any time. */
  lemma AnyOtherCalls(f: Fine)
    ensures SendsNoMarker(ReleaseIt) && SendsNoMarker(PopMsg(true)) && SendsNoMarker(PopMsg(false))
    ensures forall m: BMsg :: m.typ != FlushMarker ==> SendsNoMarker(PushMsg(m))
    ensures (forall i :: 0 <= i < |f.env.between| ==> SendsNoMarker(f.env.between[i]))
            && (forall j, i :: 0 <= j < |f.acting| && 0 <= i < |f.acting[j]| ==> SendsNoMarker(f.acting[j][i])) ==>
              StepSendsNone(FineWorker(f))
  {
  }
}
