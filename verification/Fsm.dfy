/**
 The state machine of the browser thread (browser.cc), the two message queues it
 shares with its client, and the client's side of them (mdnsbrowser.cc), on values.
 Module Browser runs the same machine on heap queues.
 */
module Fsm {
  import opened Wrappers
  import opened Messages

  datatype FsmEvent =
    | Null
    | Any
    | DbusDisconnect
    | ConnectOk
    | ConnectError
    | CmdReconnect
    | CmdExit
    | CmdExitClean
    | PushedMarkers
    | EvFlushMarker
    | Marker
    | Markers
    | Quitting

  datatype FsmState = Start | Connect | Serve | Wait | Exiting | WMark1 | WMark2 | FClean | Quit | Trap

  datatype Action = NoAction | ActConnect | ActServe | ActWait | ActExit | ActMarkers1 | ActMarkers2 | ActCleanup

  datatype Row = Row(state: FsmState, event: FsmEvent, next: FsmState, action: Action)

  const TRAP_ROW: nat := 24

  /** TransitionTable, one row per number, in the order of the source. */
  function TransitionTable(i: nat): Row
    requires i <= TRAP_ROW
  {
    match i
    case 0 => Row(Start, Any, Connect, ActConnect)
    case 1 => Row(Connect, Null, Connect, ActConnect)
    case 2 => Row(Connect, ConnectOk, Serve, ActServe)
    case 3 => Row(Connect, ConnectError, Wait, ActWait)
    case 4 => Row(Connect, Any, Wait, ActWait)
    case 5 => Row(Serve, DbusDisconnect, Wait, ActWait)
    case 6 => Row(Serve, CmdExit, Exiting, ActExit)
    case 7 => Row(Serve, CmdExitClean, Exiting, ActExit)
    case 8 => Row(Serve, Any, Serve, ActServe)
    case 9 => Row(Wait, CmdReconnect, Connect, ActConnect)
    case 10 => Row(Wait, CmdExit, Exiting, ActExit)
    case 11 => Row(Wait, CmdExitClean, Exiting, ActExit)
    case 12 => Row(Wait, Any, Wait, ActWait)
    case 13 => Row(Exiting, Quitting, Quit, NoAction)
    case 14 => Row(Exiting, PushedMarkers, WMark1, ActMarkers1)
    case 15 => Row(Exiting, Any, Quit, NoAction)
    case 16 => Row(WMark1, Quitting, Quit, NoAction)
    case 17 => Row(WMark1, Marker, WMark2, ActMarkers2)
    case 18 => Row(WMark1, Markers, Quit, NoAction)
    case 19 => Row(WMark2, Marker, FClean, ActCleanup)
    case 20 => Row(WMark2, Markers, FClean, ActCleanup)
    case 21 => Row(WMark2, Quitting, FClean, ActCleanup)
    case 22 => Row(WMark2, Any, WMark2, ActMarkers2)
    case 23 => Row(FClean, Any, Quit, NoAction)
    case _ => Row(Trap, Any, Connect, ActConnect)
  }

  /** Whether a row applies; a Trap row applies in every state, an Any row to every event. */
  predicate Matches(row: Row, st: FsmState, ev: FsmEvent) {
    && (st == row.state || row.state == Trap)
    && (ev == row.event || row.event == Any)
  }

  /** The first row at or after `i` that applies. */
  function FirstMatch(st: FsmState, ev: FsmEvent, i: nat): (r: nat)
    requires i <= TRAP_ROW
    ensures i <= r <= TRAP_ROW && Matches(TransitionTable(r), st, ev)
    ensures forall j :: i <= j < r ==> !Matches(TransitionTable(j), st, ev)
    decreases TRAP_ROW - i
  {
    if i == TRAP_ROW || Matches(TransitionTable(i), st, ev) then i else FirstMatch(st, ev, i + 1)
  }

  lemma FirstMatchIs(st: FsmState, ev: FsmEvent, r: nat)
    requires r <= TRAP_ROW && Matches(TransitionTable(r), st, ev)
    requires forall j :: 0 <= j < r ==> !Matches(TransitionTable(j), st, ev)
    ensures FirstMatch(st, ev, 0) == r
  {
  }

  /** A row number and what that row leads to. */
  datatype Choice = Choice(row: nat, next: FsmState, action: Action)

  /** The choice for each state and event, read off the table by hand. */
  function Choose(st: FsmState, ev: FsmEvent): Choice {
    match st
    case Start => Choice(0, Connect, ActConnect)
    case Connect =>
      if ev == Null then Choice(1, Connect, ActConnect)
      else if ev == ConnectOk then Choice(2, Serve, ActServe)
      else if ev == ConnectError then Choice(3, Wait, ActWait)
      else Choice(4, Wait, ActWait)
    case Serve =>
      if ev == DbusDisconnect then Choice(5, Wait, ActWait)
      else if ev == CmdExit then Choice(6, Exiting, ActExit)
      else if ev == CmdExitClean then Choice(7, Exiting, ActExit)
      else Choice(8, Serve, ActServe)
    case Wait =>
      if ev == CmdReconnect then Choice(9, Connect, ActConnect)
      else if ev == CmdExit then Choice(10, Exiting, ActExit)
      else if ev == CmdExitClean then Choice(11, Exiting, ActExit)
      else Choice(12, Wait, ActWait)
    case Exiting =>
      if ev == Quitting then Choice(13, Quit, NoAction)
      else if ev == PushedMarkers then Choice(14, WMark1, ActMarkers1)
      else Choice(15, Quit, NoAction)
    case WMark1 =>
      if ev == Quitting then Choice(16, Quit, NoAction)
      else if ev == Marker then Choice(17, WMark2, ActMarkers2)
      else if ev == Markers then Choice(18, Quit, NoAction)
      else Choice(24, Connect, ActConnect)
    case WMark2 =>
      if ev == Marker then Choice(19, FClean, ActCleanup)
      else if ev == Markers then Choice(20, FClean, ActCleanup)
      else if ev == Quitting then Choice(21, FClean, ActCleanup)
      else Choice(22, WMark2, ActMarkers2)
    case FClean => Choice(23, Quit, NoAction)
    case Quit => Choice(24, Connect, ActConnect)
    case Trap => Choice(24, Connect, ActConnect)
  }

  lemma ChoiceIsRow(st: FsmState, ev: FsmEvent)
    ensures var c := Choose(st, ev);
            && c.row <= TRAP_ROW
            && TransitionTable(c.row).next == c.next
            && TransitionTable(c.row).action == c.action
  {
  }

  /** No event carries the wildcard, so the first-match search of the table agrees with the reading. */
  lemma SearchIsChoice(st: FsmState, ev: FsmEvent)
    requires ev != Any
    ensures FirstMatch(st, ev, 0) == Choose(st, ev).row
    ensures TransitionTable(FirstMatch(st, ev, 0)).next == Choose(st, ev).next
    ensures TransitionTable(FirstMatch(st, ev, 0)).action == Choose(st, ev).action
  {
    ChoiceIsRow(st, ev);
    ChoiceIsFirst(st, ev);
    FirstMatchIs(st, ev, Choose(st, ev).row);
  }

  lemma ChoiceIsFirst(st: FsmState, ev: FsmEvent)
    requires ev != Any
    ensures Choose(st, ev).row <= TRAP_ROW
    ensures Matches(TransitionTable(Choose(st, ev).row), st, ev)
    ensures forall j :: 0 <= j < Choose(st, ev).row ==> !Matches(TransitionTable(j), st, ev)
  {
  }

  /** The table read backwards: what leads into each state. */
  lemma LeadsTo(st: FsmState, ev: FsmEvent)
    ensures var next := Choose(st, ev).next;
            && (next == Serve <==>
                  (st == Connect && ev == ConnectOk) || (st == Serve && ev !in {DbusDisconnect, CmdExit, CmdExitClean}))
            && (next == Wait <==>
                  || (st == Connect && ev !in {Null, ConnectOk})
                  || (st == Serve && ev == DbusDisconnect)
                  || (st == Wait && ev !in {CmdReconnect, CmdExit, CmdExitClean}))
            && (next == Exiting <==> st in {Serve, Wait} && ev in {CmdExit, CmdExitClean})
            && (next == WMark1 <==> st == Exiting && ev == PushedMarkers)
            && (next == WMark2 <==>
                  (st == WMark1 && ev == Marker) || (st == WMark2 && ev !in {Marker, Markers, Quitting}))
            && (next == FClean <==> st == WMark2 && ev in {Marker, Markers, Quitting})
            && (next == Quit <==>
                  || (st == Exiting && ev != PushedMarkers)
                  || (st == WMark1 && ev in {Quitting, Markers})
                  || st == FClean)
            && next !in {Start, Trap}
  {
  }

  /** Every state is entered with its own action. */
  lemma EnteredWith(st: FsmState, ev: FsmEvent)
    ensures var row := Choose(st, ev);
            && (row.action == ActConnect <==> row.next == Connect)
            && (row.action == ActServe <==> row.next == Serve)
            && (row.action == ActWait <==> row.next == Wait)
            && (row.action == ActExit <==> row.next == Exiting)
            && (row.action == ActMarkers1 <==> row.next == WMark1)
            && (row.action == ActMarkers2 <==> row.next == WMark2)
            && (row.action == ActCleanup <==> row.next == FClean)
            && (row.action == NoAction <==> row.next == Quit)
  {
  }

  // ---------------------------------------------------------------------
  // The whole system

  /** What `__browser_setup_dbus_conn` ends in. */
  datatype ConnectResult = Connected | ConnError | FilterError | MatchError | ServiceError

  /** The outcomes of the foreign calls that one loop iteration may make. */
  datatype Env = Env(
    dispatchOk: bool,      // false: dbus_connection_read_write_dispatch saw the disconnection
    signals: seq<BMsg>,    // what the D-Bus callbacks queue during the dispatch
    between: seq<ClientOp>, // what the client calls between the dispatch and the look at the queue
    inBusy: bool,          // the try-lock of the pump fails
    connect: ConnectResult,
    flushInBusy: bool,     // the try-locks of FlushQueues fail
    flushOutBusy: bool)

  /**
   A record of what happened: every message pushed to and removed from the queues,
   the table rows taken, the calls of FlushQueues and of ActionFinalCleanup.
   */
  datatype Hist = Hist(
    pushedIn: seq<BMsg>,
    takenIn: seq<BMsg>,
    pushedOut: seq<BMsg>,
    popped: seq<BMsg>,
    flushed: seq<BMsg>,
    rows: seq<nat>,
    flushes: nat,
    cleanups: nat)

  /** The worker's variables, both queues, the client's hold on them, and the record. */
  datatype Sys = Sys(
    st: FsmState,
    re: FsmEvent,
    conn: bool,
    inq: seq<BMsg>,
    outq: seq<BMsg>,
    clientUp: bool,
    freed: bool,
    hist: Hist)

  /** After a successful `MDNSBrowser::init`. */
  const INITIAL: Sys := Sys(Start, Null, false, [], [], true, false, Hist([], [], [], [], [], [], 0, 0))

  function PushOut(s: Sys, ms: seq<BMsg>): Sys {
    s.(outq := s.outq + ms, hist := s.hist.(pushedOut := s.hist.pushedOut + ms))
  }

  function PushIn(s: Sys, m: BMsg): Sys {
    s.(inq := s.inq + [m], hist := s.hist.(pushedIn := s.hist.pushedIn + [m]))
  }

  /** queue_get_nb on a queue that holds `q` */
  function GetNb(q: seq<BMsg>, busy: bool): Option<BMsg> {
    if busy || q == [] then None else Some(q[0])
  }

  function TakeIn(s: Sys, busy: bool): (Sys, Option<BMsg>) {
    match GetNb(s.inq, busy)
    case None => (s, None)
    case Some(m) => (s.(inq := s.inq[1..], hist := s.hist.(takenIn := s.hist.takenIn + [m])), Some(m))
  }

  function TakeOut(s: Sys, busy: bool): (Sys, Option<BMsg>) {
    match GetNb(s.outq, busy)
    case None => (s, None)
    case Some(m) => (s.(outq := s.outq[1..], hist := s.hist.(flushed := s.hist.flushed + [m])), Some(m))
  }

  function MessageEvent(m: Option<BMsg>): FsmEvent {
    if m.None? then Null
    else
      match m.value.typ
      case Reconnect => CmdReconnect
      case Exit => CmdExit
      case ExitClean => CmdExitClean
      case FlushMarker => EvFlushMarker
      case _ => Null
  }

  /** The four messages that mean something to the worker; all others are dropped without effect. */
  lemma MessagesMean(m: BMsg)
    ensures var ev := MessageEvent(Some(m));
            && (ev == CmdReconnect <==> m.typ == Reconnect)
            && (ev == CmdExit <==> m.typ == Exit)
            && (ev == CmdExitClean <==> m.typ == ExitClean)
            && (ev == EvFlushMarker <==> m.typ == FlushMarker)
            && (ev == Null <==> m.typ !in {Reconnect, Exit, ExitClean, FlushMarker})
            && MessageEvent(None) == Null
  {
  }

  /** event_pump */
  function EventPump(s: Sys, env: Env): (Sys, FsmEvent) {
    var s1 := if s.conn then PushOut(s, env.signals) else s;
    if s.conn && !env.dispatchOk then (s1, DbusDisconnect)
    else
      var (s2, m) := TakeIn(ClientSteps(s1, env.between), env.inBusy);
      (s2, MessageEvent(m))
  }

  /** ActionConnect with __browser_setup_dbus_conn */
  function ActionConnect(s: Sys, r: ConnectResult): Sys {
    match r
    case Connected => s.(conn := true, re := ConnectOk)
    case ConnError => s.(conn := false, re := ConnectError)
    case FilterError => PushOut(s, [Simple(DbusAddFilterError)]).(conn := false, re := ConnectError)
    case MatchError => PushOut(s, [Simple(DbusAddMatchError)]).(conn := false, re := ConnectError)
    case ServiceError => PushOut(s, [Simple(DbusServiceBrowserError)]).(conn := false, re := ConnectError)
  }

  const EXITED: BMsg := Simple(Exited)
  const MARKER: BMsg := Simple(FlushMarker)

  /** ActionExit */
  function ActionExit(s: Sys, ev: FsmEvent): Sys {
    var s1 := PushOut(s.(conn := false), [EXITED]);
    if ev == CmdExitClean then PushIn(PushOut(s1, [MARKER]), MARKER).(re := PushedMarkers)
    else s1.(re := Quitting)
  }

  function IsMarker(m: Option<BMsg>): nat {
    if m.Some? && m.value.typ == FlushMarker then 1 else 0
  }

  /** FlushQueues: one message is removed from each queue */
  function FlushQueues(s: Sys, env: Env): Sys {
    var (s1, m1) := TakeIn(s, env.flushInBusy);
    var (s2, m2) := TakeOut(s1, env.flushOutBusy);
    var count := IsMarker(m1) + IsMarker(m2);
    s2.(re := if count == 1 then Marker else if count == 2 then Markers else Null,
        hist := s2.hist.(flushes := s2.hist.flushes + 1))
  }

  function RunAction(s: Sys, a: Action, ev: FsmEvent, env: Env): Sys {
    match a
    case NoAction => s.(re := Null)
    case ActConnect => ActionConnect(s, env.connect)
    case ActServe => s.(re := Null)
    case ActWait => s.(re := Null)
    case ActExit => ActionExit(s, ev)
    case ActMarkers1 => FlushQueues(s, env)
    case ActMarkers2 => FlushQueues(s, env)
    case ActCleanup => s.(re := Quitting, freed := true, hist := s.hist.(cleanups := s.hist.cleanups + 1))
  }

  /** Where the event of an iteration comes from: the last action, or else the pump. */
  function NextEvent(s: Sys, env: Env): (Sys, FsmEvent) {
    if s.re != Null then (s, s.re) else EventPump(s, env)
  }

  function TakeRow(s: Sys, ev: FsmEvent, c: Choice, env: Env): Sys {
    var s' := RunAction(s, c.action, ev, env);
    s'.(st := c.next, hist := s'.hist.(rows := s'.hist.rows + [c.row]))
  }

  /**
   One iteration of the loop of run_fsm; the loop is over in Quit.  The choice is
   the row at which the search of the table stops (SearchIsChoice).
   */
  function Iteration(s: Sys, env: Env): Sys {
    if s.st == Quit then s
    else
      var (s1, ev) := NextEvent(s, env);
      TakeRow(s1, ev, Choose(s.st, ev), env)
  }

  // ---------------------------------------------------------------------
  // The client

  datatype ClientOp = PushMsg(m: BMsg) | PopMsg(busy: bool) | ReleaseIt

  /** MDNSBrowser::pushMsg, popMsg and release; without a channel they do nothing. */
  function ClientStep(s: Sys, op: ClientOp): Sys {
    if !s.clientUp then s
    else
      match op
      case PushMsg(m) => PushIn(s, m)
      case PopMsg(busy) =>
        (match GetNb(s.outq, busy)
         case None => s
         case Some(m) => s.(outq := s.outq[1..], hist := s.hist.(popped := s.hist.popped + [m])))
      case ReleaseIt => PushIn(s, Simple(ExitClean)).(clientUp := false)
  }

  function ClientSteps(s: Sys, ops: seq<ClientOp>): Sys
    decreases |ops|
  {
    if ops == [] then s else ClientSteps(ClientStep(s, ops[0]), ops[1..])
  }

  datatype Step = Client(op: ClientOp) | Worker(env: Env)

  function Do(s: Sys, step: Step): Sys {
    match step
    case Client(op) => ClientStep(s, op)
    case Worker(env) => Iteration(s, env)
  }

  function Run(s: Sys, steps: seq<Step>): Sys
    decreases |steps|
  {
    if steps == [] then s else Run(Do(s, steps[0]), steps[1..])
  }

  /** What the D-Bus callbacks can queue. */
  predicate IsSignal(m: BMsg) {
    m.typ == DbusDisconnected || m.typ == CacheExhausted || m.typ == AllForNow || m.typ == Json
  }

  /**
   The client sends the clean-exit command only by `release`, which also takes the
   channel away from it.
   */
  predicate Disciplined(op: ClientOp) {
    op.PushMsg? ==> op.m.typ != ExitClean
  }

  predicate AllDisciplined(ops: seq<ClientOp>) {
    forall i :: 0 <= i < |ops| ==> Disciplined(ops[i])
  }

  /**
   A client without the channel makes no calls, and a try-lock of the worker can fail
   only while somebody else may hold the mutex.
   */
  predicate EnvPossible(env: Env, clientUp: bool) {
    && (forall i :: 0 <= i < |env.signals| ==> IsSignal(env.signals[i]))
    && AllDisciplined(env.between)
    && (!clientUp ==> env.between == [] && !env.inBusy && !env.flushInBusy && !env.flushOutBusy)
  }

  predicate StepPossible(s: Sys, step: Step) {
    match step
    case Client(op) => Disciplined(op)
    case Worker(env) => EnvPossible(env, s.clientUp)
  }

  predicate RunPossible(s: Sys, steps: seq<Step>)
    decreases |steps|
  {
    steps == [] || (StepPossible(s, steps[0]) && RunPossible(Do(s, steps[0]), steps[1..]))
  }

  /**
   What may happen: while the client is there, it may call anything but push the clean-exit
   command, and any foreign call may end in any way; without it only the try-locks succeed.
   */
  lemma AnythingGoes(ok: bool, signals: seq<BMsg>, ops: seq<ClientOp>, busy: (bool, bool, bool), r: ConnectResult)
    requires forall i :: 0 <= i < |signals| ==> signals[i].typ in {DbusDisconnected, CacheExhausted, AllForNow, Json}
    requires forall i :: 0 <= i < |ops| ==> !(ops[i].PushMsg? && ops[i].m.typ == ExitClean)
    ensures EnvPossible(Env(ok, signals, ops, busy.0, r, busy.1, busy.2), true)
    ensures EnvPossible(Env(ok, signals, [], false, r, false, false), false)
    ensures forall s, i :: 0 <= i < |ops| ==> StepPossible(s, Client(ops[i]))
  {
  }
}
