/** The thread at work: it connects, serves, and connects again when it is told to. */
module Serving {
  import opened Wrappers
  import opened Messages
  import opened Fsm
  import opened FsmInvariant
  import opened CleanExit
  import G = GoingOn

  /** What is known to the client of an attempt to connect. */
  lemma ConnectSays(s: Sys, r: ConnectResult)
    ensures var s' := ActionConnect(s, r);
            && (s'.conn <==> r == Connected)
            && (r in {Connected, ConnError} ==> s'.outq == s.outq)
            && (r !in {Connected, ConnError} ==>
                  && |s'.outq| == |s.outq| + 1 && s.outq <= s'.outq
                  && var typ := s'.outq[|s.outq|].typ;
                     && (typ == DbusAddFilterError <==> r == FilterError)
                     && (typ == DbusAddMatchError <==> r == MatchError)
                     && (typ == DbusServiceBrowserError <==> r == ServiceError))
  {
  }

  /** An iteration in Start or Connect: the first attempt, and what follows an attempt. */
  lemma AttemptIteration(s: Sys, env: Env)
    requires Shape(s) && EnvPossible(env, s.clientUp)
    ensures s.st == Start ==> Iteration(s, env).st == Connect && (Iteration(s, env).conn <==> env.connect == Connected)
    ensures s.st == Connect ==>
              && Iteration(s, env).st == (if s.conn then Serve else Wait)
              && Iteration(s, env).conn == s.conn && Iteration(s, env).inq == s.inq
  {
    if s.st == Start {
      ConnectSays(NextEvent(s, env).0, env.connect);
    }
  }

  /** The in-queue when the pump looks at it, if it does. */
  function Seen(s: Sys, env: Env): seq<BMsg> {
    ClientSteps(if s.conn then PushOut(s, env.signals) else s, env.between).inq
  }

  predicate Looks(s: Sys, env: Env) {
    (s.conn ==> env.dispatchOk) && !env.inBusy
  }

  lemma PumpSees(s: Sys, env: Env)
    ensures var (s1, ev) := EventPump(s, env);
            && s1.st == s.st && s1.conn == s.conn
            && (s.conn && !env.dispatchOk ==> ev == DbusDisconnect && s1.inq == s.inq)
            && (!(s.conn && !env.dispatchOk) && (env.inBusy || Seen(s, env) == []) ==> ev == Null)
            && (Looks(s, env) && Seen(s, env) != [] ==>
                  ev == MessageEvent(Some(Seen(s, env)[0])) && s1.inq == Seen(s, env)[1..])
  {
    CallsKeep(if s.conn then PushOut(s, env.signals) else s, env.between);
  }

  /**
   A waiting worker tries to connect exactly when it looks at its queue and finds a reconnect
   in front; the attempt ends with a connection exactly when D-Bus gives one.
   */
  lemma WaitConnectsExactlyWhen(s: Sys, env: Env)
    requires s.st == Wait && s.re == Null
    ensures var s' := Iteration(s, env);
            && (s'.st == Connect <==> Looks(s, env) && Seen(s, env) != [] && Seen(s, env)[0].typ == Reconnect)
            && (s'.st == Connect ==> (s'.conn <==> env.connect == Connected) && s'.inq == Seen(s, env)[1..])
            && (s'.st == Wait ==> s'.conn == s.conn)
  {
    PumpSees(s, env);
    var (s1, ev) := EventPump(s, env);
    ConnectSays(s1, env.connect);
    if Looks(s, env) && Seen(s, env) != [] {
      MessagesMean(Seen(s, env)[0]);
    }
  }

  /** A worker that serves takes a reconnect and goes on serving with the same connection. */
  lemma ServeIgnoresReconnect(s: Sys, env: Env)
    requires s.st == Serve && s.re == Null && s.conn
    requires Looks(s, env) && Seen(s, env) != [] && Seen(s, env)[0].typ == Reconnect
    ensures var s' := Iteration(s, env); s'.st == Serve && s'.conn && s'.inq == Seen(s, env)[1..]
  {
    PumpSees(s, env);
  }

  /** It stops serving exactly when the dispatch reports a disconnection or it takes an exit command. */
  lemma ServeEndsExactlyWhen(s: Sys, env: Env)
    requires s.st == Serve && s.re == Null && s.conn
    ensures var s' := Iteration(s, env);
            && (s'.st == Wait <==> !env.dispatchOk) && (s'.st == Wait ==> s'.conn)
            && (s'.st == Exiting <==>
                  Looks(s, env) && Seen(s, env) != [] && Seen(s, env)[0].typ in {Exit, ExitClean})
            && s'.st in {Serve, Wait, Exiting} && (s'.st == Serve ==> s'.conn)
  {
    PumpSees(s, env);
    if Looks(s, env) && Seen(s, env) != [] {
      MessagesMean(Seen(s, env)[0]);
    }
  }

  /** What D-Bus signals reaches the out-queue, in order, as long as there is a connection. */
  lemma SignalsArrive(s: Sys, env: Env)
    requires s.st in {Serve, Wait} && s.re == Null
    ensures s.hist.pushedOut + (if s.conn then env.signals else []) <= Iteration(s, env).hist.pushedOut
    ensures Iteration(s, env).st in {Serve, Wait} ==>
              Iteration(s, env).hist.pushedOut == s.hist.pushedOut + if s.conn then env.signals else []
  {
    var s0 := if s.conn then PushOut(s, env.signals) else s;
    CallsKeep(s0, env.between);
    assert s.hist.pushedOut + [] == s.hist.pushedOut;
    var (s1, ev) := EventPump(s, env);
    assert s1.hist.pushedOut == s0.hist.pushedOut;
    RowSays(s1, ev, Choose(s.st, ev), env);
  }

  lemma RowSays(s: Sys, ev: FsmEvent, c: Choice, env: Env)
    requires c.action in {ActConnect, ActServe, ActWait, ActExit}
    ensures s.hist.pushedOut <= TakeRow(s, ev, c, env).hist.pushedOut
    ensures c.action in {ActServe, ActWait} ==> TakeRow(s, ev, c, env).hist.pushedOut == s.hist.pushedOut
  {
    if c.action == ActExit {
      ExitSays(s, ev);
    }
  }

  lemma ExitSays(s: Sys, ev: FsmEvent)
    ensures s.hist.pushedOut <= ActionExit(s, ev).hist.pushedOut
  {
  }

  lemma SignalsAre(m: BMsg)
    ensures IsSignal(m) <==> m.typ in {DbusDisconnected, CacheExhausted, AllForNow, Json}
  {
  }

  /**
   A reconnect in front of the queue of a waiting worker: with the look at the queue in one
   iteration, the next one ends in Serve with a connection if D-Bus gives one, and in Wait
   without one if not, whatever the client calls meanwhile.
   */
  lemma ReconnectIsObeyed(s: Sys, env: Env, ops: seq<ClientOp>, env2: Env)
    requires Shape(s) && s.st == Wait && s.inq != [] && s.inq[0].typ == Reconnect
    requires EnvPossible(env, s.clientUp) && Looks(s, env) && AllDisciplined(ops)
    requires EnvPossible(env2, ClientSteps(Iteration(s, env), ops).clientUp)
    ensures var s1 := Iteration(s, env);
            var s2 := Iteration(ClientSteps(s1, ops), env2);
            && s1.st == Connect && (s1.conn <==> env.connect == Connected)
            && s2.st == (if env.connect == Connected then Serve else Wait)
            && (s2.conn <==> env.connect == Connected)
  {
    G.CallsExtend(if s.conn then PushOut(s, env.signals) else s, env.between);
    WaitConnectsExactlyWhen(s, env);
    EarlyIteration(s, env);
    var s1 := Iteration(s, env);
    CallsKeep(s1, ops);
    CallsKeepConnect(s1, ops);
    AttemptIteration(ClientSteps(s1, ops), env2);
  }

  lemma {:induction false} CallsKeepConnect(s: Sys, ops: seq<ClientOp>)
    requires s.st == Connect && Shape(s) && AllDisciplined(ops)
    ensures Shape(ClientSteps(s, ops))
  {
    CallsKeep(s, ops);
  }

  // ---------------------------------------------------------------------
  // A whole run

  const CONNECTS: Env := Env(true, [], [], false, Connected, false, false)
  const NEWS: BMsg := BMsg(Json, "a service")
  const SPEAKS: Env := Env(true, [NEWS], [], false, ConnError, false, false)
  const ASK: Step := Client(PushMsg(Simple(Reconnect)))
  const READ: Step := Client(PopMsg(false))

  predicate At(s: Sys, st: FsmState, re: FsmEvent, conn: bool, inq: seq<BMsg>, outq: seq<BMsg>) {
    s.st == st && s.re == re && s.conn == conn && s.clientUp && s.inq == inq && s.outq == outq && s.hist.popped == []
  }

  lemma StepFirst(s: Sys, step: Step, rest: seq<Step>)
    ensures Run(s, [step] + rest) == Run(Do(s, step), rest)
    ensures RunPossible(s, [step] + rest) <==> StepPossible(s, step) && RunPossible(Do(s, step), rest)
  {
    assert ([step] + rest)[1..] == rest;
  }

  lemma FirstAttempt(s: Sys)
    requires s == INITIAL
    ensures At(Iteration(s, PLAIN), Connect, ConnectError, false, [], [])
  {
  }

  lemma AttemptOver(s: Sys, env: Env, conn: bool)
    requires At(s, Connect, if conn then ConnectOk else ConnectError, conn, [], [])
    ensures At(Iteration(s, env), if conn then Serve else Wait, Null, conn, [], [])
  {
  }

  lemma AskedAgain(s: Sys)
    requires At(s, Wait, Null, false, [], [])
    ensures At(Do(s, ASK), Wait, Null, false, [Simple(Reconnect)], [])
  {
  }

  lemma SecondAttempt(s: Sys)
    requires At(s, Wait, Null, false, [Simple(Reconnect)], [])
    ensures At(Iteration(s, CONNECTS), Connect, ConnectOk, true, [], [])
  {
  }

  lemma Spoken(s: Sys)
    requires At(s, Serve, Null, true, [], [])
    ensures At(Iteration(s, SPEAKS), Serve, Null, true, [], [NEWS])
  {
  }

  lemma NewsRead(s: Sys)
    requires At(s, Serve, Null, true, [], [NEWS])
    ensures var s' := Do(s, READ);
            s'.st == Serve && s'.conn && s'.hist.popped == [NEWS] && s'.outq == []
  {
  }

  /** The first steps lead from `s` to `s'`. */
  predicate Reaches(s: Sys, steps: seq<Step>, s': Sys, rest: seq<Step>) {
    Run(s, steps) == Run(s', rest) && (RunPossible(s', rest) ==> RunPossible(s, steps))
  }

  lemma {:induction false} Onward(s: Sys, step: Step, rest: seq<Step>)
    requires StepPossible(s, step)
    ensures Reaches(s, [step] + rest, Do(s, step), rest)
  {
    StepFirst(s, step, rest);
  }

  lemma {:induction false} RunToAsked(rest: seq<Step>) returns (s: Sys)
    ensures Reaches(INITIAL, [Worker(PLAIN)] + ([Worker(PLAIN)] + ([ASK] + rest)), s, rest)
    ensures At(s, Wait, Null, false, [Simple(Reconnect)], [])
  {
    var w := Worker(PLAIN);
    Onward(INITIAL, w, [w] + ([ASK] + rest));
    FirstAttempt(INITIAL);
    var s1 := Iteration(INITIAL, PLAIN);
    Onward(s1, w, [ASK] + rest);
    AttemptOver(s1, PLAIN, false);
    var s2 := Iteration(s1, PLAIN);
    Onward(s2, ASK, rest);
    AskedAgain(s2);
    s := Do(s2, ASK);
  }

  lemma {:induction false} RunFromAsked(s: Sys, rest: seq<Step>) returns (s': Sys)
    requires At(s, Wait, Null, false, [Simple(Reconnect)], [])
    ensures Reaches(s, [Worker(CONNECTS)] + ([Worker(PLAIN)] + rest), s', rest)
    ensures At(s', Serve, Null, true, [], [])
  {
    Onward(s, Worker(CONNECTS), [Worker(PLAIN)] + rest);
    SecondAttempt(s);
    var s1 := Iteration(s, CONNECTS);
    Onward(s1, Worker(PLAIN), rest);
    AttemptOver(s1, PLAIN, true);
    s' := Iteration(s1, PLAIN);
  }

  lemma RunFromServe(s: Sys)
    requires At(s, Serve, Null, true, [], [])
    ensures RunPossible(s, [Worker(SPEAKS)] + [READ])
    ensures var s' := Run(s, [Worker(SPEAKS)] + [READ]);
            s'.st == Serve && s'.conn && s'.hist.popped == [NEWS] && s'.outq == []
  {
    assert [READ] == [READ] + [];
    Onward(s, Worker(SPEAKS), [READ]);
    Spoken(s);
    var s1 := Iteration(s, SPEAKS);
    Onward(s1, READ, []);
    NewsRead(s1);
  }

  /**
   After a first attempt that fails the client asks for another one, which does not, and
   then reads what D-Bus signals.
   */
  lemma RunToServe()
    ensures var w := Worker(PLAIN);
            var steps := [w] + ([w] + ([ASK] + ([Worker(CONNECTS)] + ([w] + ([Worker(SPEAKS)] + [READ])))));
            var s := Run(INITIAL, steps);
            && RunPossible(INITIAL, steps)
            && s.st == Serve && s.conn && s.hist.popped == [NEWS] && s.outq == []
  {
    var last := [Worker(SPEAKS)] + [READ];
    var s := RunToAsked([Worker(CONNECTS)] + ([Worker(PLAIN)] + last));
    var s' := RunFromAsked(s, last);
    RunFromServe(s');
  }
}
