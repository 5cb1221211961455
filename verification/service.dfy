/**
 Serve, its connections, their channel handlers and the leases these take, as one interleaved machine
 (internal/server/server.go, session.go, sshproxy.go, portfwd.go). A handler is the caller of its own lease.
 */
module Service {
  import opened Base
  import L = LeaseMachine
  import LeaseRuns

  type Key = string
  type Id = L.CallerId

  datatype ConnId = ConnId(number: nat)

  datatype Kind = Session | ProxySession | Forwarding

  datatype Stage =
    | Reading    // before acquireWorkspace
    | Acquiring  // in acquireWorkspace
    | Working    // the lease is held
    | Draining   // the proxy's backend has ended its requests; waits for both output streams
    | Releasing  // in release
    | Reporting  // about to send the exit message
    | Deferred   // about to run the deferred second release
    | Finished

  /** acquired, normal and exits are the model's own: a lease was obtained, the proxy reached its normal end, exit messages sent. */
  datatype Handler = Handler(conn: ConnId, kind: Kind, key: Key, stage: Stage, outputs: nat, acquired: bool, normal: bool, exits: nat)

  /** channels is the connection's WaitGroup; accepting is its loop over new channels. */
  datatype Conn = Conn(accepting: bool, channels: int, done: bool)

  /** connections is Serve's WaitGroup; serving is its accept loop. */
  datatype State = State(serving: bool, returned: bool, connections: int, conns: map<ConnId, Conn>,
                         handlers: map<Id, Handler>, leases: map<Key, L.State>)

  const INIT := State(true, false, 0, map[], map[], map[])

  datatype FrameStep =
    | Accept(id: ConnId) | StopServing | ReturnFromServe | StopChannels(id: ConnId) | EndConnection(id: ConnId)

  /** Statements of a handler, outside acquireWorkspace and release. */
  datatype Act =
    | BeginAcquire | LeaveUnstarted | AcquireReturns | OutputEnds | EndWork(normal: bool) | Drained
    | ReleaseReturns | Report(send: bool) | ReleaseAgain

  datatype Step =
    | Frame(f: FrameStep)
    | OpenChannel(id: ConnId, h: Id, kind: Kind, key: Key)
    | Handle(h: Id, act: Act)
    | LeaseStep(h: Id, a: L.Action)

  function KeyOf(s: State, k: Key): L.State {
    if k in s.leases then s.leases[k] else L.INIT
  }

  /** h as a caller of its key's lease. */
  function CallerOf(s: State, h: Id): Option<L.Caller>
    requires h in s.handlers
  {
    var callers := KeyOf(s, s.handlers[h].key).callers;
    if h in callers then Some(callers[h]) else None
  }

  predicate FrameReady(s: State, f: FrameStep) {
    match f
    case Accept(id) => s.serving && id !in s.conns
    case StopServing => s.serving
    case ReturnFromServe => !s.serving && s.connections == 0
    case StopChannels(id) => id in s.conns && s.conns[id].accepting
    case EndConnection(id) => id in s.conns && !s.conns[id].accepting && !s.conns[id].done && s.conns[id].channels == 0
  }

  /** When the statement can run, given where the handler's acquireWorkspace or release is. */
  predicate ActReady(v: Handler, caller: Option<L.Caller>, act: Act) {
    match act
    case BeginAcquire => v.stage.Reading?
    case LeaveUnstarted => v.stage.Reading?
    case AcquireReturns => v.stage.Acquiring? && caller.Some? && (caller.value.pc.Holding? || caller.value.pc.Gone?)
    case OutputEnds => v.kind.ProxySession? && (v.stage.Working? || v.stage.Draining?) && v.outputs < 2
    case EndWork(_) => v.stage.Working?
    case Drained => v.stage.Draining? && v.outputs == 2
    case ReleaseReturns => v.stage.Releasing? && caller.Some? && caller.value.pc.Gone?
    case Report(send) => v.stage.Reporting? && (send || v.normal)
    case ReleaseAgain => v.stage.Deferred?
  }

  /** The step of the lease that the statement makes. */
  function LeaseAction(v: Handler, act: Act): Option<L.Action> {
    match act
    case BeginAcquire => Some(L.Start)
    case EndWork(normal) => if v.kind.ProxySession? && normal then None else Some(L.CallRelease)
    case Drained => Some(L.CallRelease)
    case ReleaseAgain => Some(L.CallRelease)
    case _ => None
  }

  function HandlerAfter(v: Handler, caller: Option<L.Caller>, act: Act): Handler {
    match act
    case BeginAcquire => v.(stage := Acquiring)
    case LeaveUnstarted => v.(stage := Finished)
    case AcquireReturns =>
      if caller.Some? && caller.value.pc.Holding? then v.(stage := Working, acquired := true)
      else v.(stage := if v.kind.Forwarding? then Finished else Reporting)
    case OutputEnds => v.(outputs := v.outputs + 1)
    case EndWork(normal) => v.(stage := if v.kind.ProxySession? && normal then Draining else Releasing)
    case Drained => v.(stage := Releasing, normal := true)
    case ReleaseReturns => v.(stage := if v.kind.Forwarding? then Finished else Reporting)
    case Report(send) =>
      v.(exits := v.exits + (if send then 1 else 0), stage := if v.kind.ProxySession? && v.acquired then Deferred else Finished)
    case ReleaseAgain => v.(stage := Finished)
  }

  predicate LeaseEnabled(s: State, h: Id, a: L.Action)
    requires h in s.handlers
  {
    L.WellFormed(KeyOf(s, s.handlers[h].key)) && L.Enabled(KeyOf(s, s.handlers[h].key), h, a)
  }

  predicate HandleReady(s: State, h: Id, act: Act) {
    && h in s.handlers
    && ActReady(s.handlers[h], CallerOf(s, h), act)
    && var a := LeaseAction(s.handlers[h], act);
       a.Some? ==> LeaseEnabled(s, h, a.value)
  }

  predicate Enabled(s: State, x: Step) {
    match x
    case Frame(f) => FrameReady(s, f)
    case OpenChannel(id, h, _, _) => id in s.conns && s.conns[id].accepting && h !in s.handlers
    case Handle(h, act) => HandleReady(s, h, act)
    case LeaseStep(h, a) => h in s.handlers && LeaseEnabled(s, h, a) && !a.Start? && !a.CallRelease?
  }

  function SetConn(s: State, id: ConnId, c: Conn): State {
    s.(conns := s.conns[id := c])
  }

  function FrameAfter(s: State, f: FrameStep): State
    requires FrameReady(s, f)
  {
    match f
    case Accept(id) => SetConn(s, id, Conn(true, 0, false)).(connections := s.connections + 1)
    case StopServing => s.(serving := false)
    case ReturnFromServe => s.(returned := true)
    case StopChannels(id) => SetConn(s, id, s.conns[id].(accepting := false))
    case EndConnection(id) => SetConn(s, id, s.conns[id].(done := true)).(connections := s.connections - 1)
  }

  function WithLease(s: State, h: Id, a: L.Action): State
    requires h in s.handlers && LeaseEnabled(s, h, a)
  {
    var k := s.handlers[h].key;
    s.(leases := s.leases[k := L.Apply(KeyOf(s, k), h, a)])
  }

  /** Handler h becomes v; channels counts it in when it is new and, by its deferred Done, out when it finishes. */
  function SetHandler(s: State, h: Id, v: Handler): State
    requires v.conn in s.conns
  {
    var c := s.conns[v.conn];
    var delta := L.Bit(!v.stage.Finished?) - L.Bit(h in s.handlers && !s.handlers[h].stage.Finished?);
    SetConn(s, v.conn, c.(channels := c.channels + delta)).(handlers := s.handlers[h := v])
  }

  predicate WellFormed(s: State) {
    forall h <- s.handlers :: s.handlers[h].conn in s.conns
  }

  function Apply(s: State, x: Step): State
    requires WellFormed(s) && Enabled(s, x)
  {
    match x
    case Frame(f) => FrameAfter(s, f)
    case OpenChannel(id, h, kind, key) => SetHandler(s, h, Handler(id, kind, key, Reading, 0, false, false, 0))
    case Handle(h, act) =>
      var v := s.handlers[h];
      var a := LeaseAction(v, act);
      SetHandler(if a.Some? then WithLease(s, h, a.value) else s, h, HandlerAfter(v, CallerOf(s, h), act))
    case LeaseStep(h, a) => WithLease(s, h, a)
  }

  // ----- Invariant -----

  function LiveConns(s: State): set<ConnId> {
    set id | id in s.conns && !s.conns[id].done
  }

  function LiveHandlers(handlers: map<Id, Handler>, id: ConnId): set<Id> {
    set h | h in handlers && handlers[h].conn == id && !handlers[h].stage.Finished?
  }

  ghost predicate Counted(s: State) {
    && s.connections == |LiveConns(s)|
    && (forall id <- s.conns :: s.conns[id].channels == |LiveHandlers(s.handlers, id)|)
    && (forall id <- s.conns :: s.conns[id].done ==> !s.conns[id].accepting && s.conns[id].channels == 0)
    && (s.returned ==> !s.serving && s.connections == 0)
  }

  /** Where the handler's caller can be while the handler is at its stage. */
  predicate CallerFits(v: Handler, caller: Option<L.Caller>) {
    match v.stage
    case Reading => caller == None && !v.acquired
    case Acquiring => caller.Some? && !caller.value.fired && !v.acquired
    case Working => caller.Some? && caller.value.pc.Holding? && v.acquired
    case Draining => caller.Some? && caller.value.pc.Holding? && v.acquired
    case Releasing => caller.Some? && caller.value.fired && v.acquired
    case _ =>
      if v.acquired then caller.Some? && caller.value.pc.Gone? && caller.value.fired
      else caller == None || (caller.value.pc.Gone? && !caller.value.fired)
  }

  predicate HandlerFits(v: Handler, caller: Option<L.Caller>) {
    && CallerFits(v, caller)
    && v.exits <= (if v.stage.Deferred? || v.stage.Finished? then 1 else 0)
    && (v.normal ==> v.outputs == 2 && v.acquired && v.kind.ProxySession?)
    && (v.exits == 1 ==> !v.kind.Forwarding? && caller.Some?)
    && ((v.stage.Deferred? || v.stage.Finished?) && !v.kind.Forwarding? && caller.Some? ==> v.exits == 1 || v.normal)
    && (v.stage.Draining? ==> v.kind.ProxySession?) && v.outputs <= 2
    && (v.stage.Reporting? || v.stage.Deferred? ==> !v.kind.Forwarding? && caller.Some?)
    && (v.stage.Deferred? ==> v.acquired)
  }

  ghost predicate LeasesSound(leases: map<Key, L.State>) {
    forall k <- leases :: L.Invariant(leases[k])
  }

  /** A caller of a key is a handler with that key. */
  predicate CallersOwned(s: State) {
    forall k <- s.leases :: forall c <- s.leases[k].callers :: c in s.handlers && s.handlers[c].key == k
  }

  predicate HandlersFit(s: State) {
    forall h <- s.handlers :: HandlerFits(s.handlers[h], CallerOf(s, h))
  }

  ghost predicate Invariant(s: State) {
    WellFormed(s) && Counted(s) && LeasesSound(s.leases) && CallersOwned(s) && HandlersFit(s)
  }

  // ----- Preservation -----

  lemma LiveHandlersAfter(handlers: map<Id, Handler>, h: Id, v: Handler, id: ConnId)
    requires h in handlers ==> handlers[h].conn == v.conn
    ensures |LiveHandlers(handlers[h := v], id)| == |LiveHandlers(handlers, id)| +
      (if id == v.conn then
         L.Bit(!v.stage.Finished?) - L.Bit(h in handlers && !handlers[h].stage.Finished?)
       else 0)
  {
    var before, after := LiveHandlers(handlers, id), LiveHandlers(handlers[h := v], id);
    if id == v.conn && !v.stage.Finished? {
      assert after == before + {h};
    } else {
      assert after == before - {h};
    }
  }

  lemma SetHandlerKeepsCounted(s: State, h: Id, v: Handler)
    requires WellFormed(s) && Counted(s) && v.conn in s.conns
    requires h in s.handlers ==> s.handlers[h].conn == v.conn && !s.handlers[h].stage.Finished?
    requires h !in s.handlers ==> !s.conns[v.conn].done && !v.stage.Finished?
    ensures WellFormed(SetHandler(s, h, v)) && Counted(SetHandler(s, h, v))
  {
    var t := SetHandler(s, h, v);
    assert LiveConns(t) == LiveConns(s);
    forall id <- t.conns ensures t.conns[id].channels == |LiveHandlers(t.handlers, id)| {
      LiveHandlersAfter(s.handlers, h, v, id);
      assert s.conns[id].channels == |LiveHandlers(s.handlers, id)|;
    }
    if h in s.handlers {
      assert h in LiveHandlers(s.handlers, v.conn);
      assert s.conns[v.conn].channels > 0;
    }
  }

  /** What a step of the caller at its handler's stage may do to it. */
  lemma CallerStaysFit(v: Handler, me: L.Caller, l: L.Lease, a: L.Action)
    requires HandlerFits(v, Some(me)) && L.Ready(me, l, a) && !a.CallRelease?
    requires me.fired ==> L.AfterRelease(me.pc)
    ensures HandlerFits(v, Some(L.CallerAfter(me, l, a)))
  {
  }

  /** A handler's move, with its lease step if it has one. */
  predicate OneMoves(s: State, h: Id, s': State) {
    && h in s.handlers && h in s'.handlers && s'.handlers == s.handlers[h := s'.handlers[h]]
    && s'.handlers[h].key == s.handlers[h].key
    && var k := s.handlers[h].key;
       s'.leases == s.leases
       || (k in s'.leases && s'.leases == s.leases[k := s'.leases[k]] && h in s'.leases[k].callers
           && s'.leases[k].callers == KeyOf(s, k).callers[h := s'.leases[k].callers[h]])
  }

  lemma OtherCallerStays(s: State, h: Id, s': State, g: Id)
    requires OneMoves(s, h, s') && g in s.handlers && g != h
    ensures g in s'.handlers && s'.handlers[g] == s.handlers[g] && CallerOf(s', g) == CallerOf(s, g)
  {
  }

  lemma OneMovesKeepsOwned(s: State, h: Id, s': State)
    requires CallersOwned(s) && OneMoves(s, h, s')
    ensures CallersOwned(s')
  {
    forall k <- s'.leases, c <- s'.leases[k].callers ensures c in s'.handlers && s'.handlers[c].key == k {
      if c != h && k in s.leases {
        assert c in s.leases[k].callers;
      }
    }
  }

  /** It leaves the other handlers and their callers be. */
  lemma HandlerMoveFits(s: State, h: Id, s': State)
    requires CallersOwned(s) && HandlersFit(s) && OneMoves(s, h, s')
    requires HandlerFits(s'.handlers[h], CallerOf(s', h))
    ensures CallersOwned(s') && HandlersFit(s')
  {
    OneMovesKeepsOwned(s, h, s');
    forall g <- s'.handlers ensures HandlerFits(s'.handlers[g], CallerOf(s', g)) {
      if g != h {
        OtherCallerStays(s, h, s', g);
      }
    }
  }

  /** The lease step of a handler: the key stays sound, and h's caller is the only one that moves. */
  lemma LeaseStepFits(s: State, h: Id, a: L.Action)
    requires LeasesSound(s.leases) && h in s.handlers && LeaseEnabled(s, h, a)
    ensures LeasesSound(WithLease(s, h, a).leases)
    ensures var k, t := s.handlers[h].key, WithLease(s, h, a);
      && k in t.leases && t.leases == s.leases[k := t.leases[k]] && h in t.leases[k].callers
      && t.leases[k].callers == KeyOf(s, k).callers[h := t.leases[k].callers[h]]
    ensures var k, t := s.handlers[h].key, WithLease(s, h, a);
      if a.Start? then t.leases[k].callers[h].pc.Waiting? && !t.leases[k].callers[h].fired
      else
        && h in KeyOf(s, k).callers && KeyOf(s, k).callers[h].lease < |KeyOf(s, k).leases|
        && L.Ready(KeyOf(s, k).callers[h], KeyOf(s, k).leases[KeyOf(s, k).callers[h].lease], a)
        && t.leases[k].callers[h] == L.CallerAfter(KeyOf(s, k).callers[h], KeyOf(s, k).leases[KeyOf(s, k).callers[h].lease], a)
        && (KeyOf(s, k).callers[h].fired ==> L.AfterRelease(KeyOf(s, k).callers[h].pc))
  {
    var key := KeyOf(s, s.handlers[h].key);
    assert L.Invariant(key) by {
      L.InitIsInvariant();
    }
    L.StepKeepsInvariant(key, h, a);
    L.ApplyMovesOneCaller(key, h, a);
  }

  lemma LeaseMoveFits(s: State, h: Id, a: L.Action)
    requires LeasesSound(s.leases) && CallersOwned(s) && HandlersFit(s)
    requires h in s.handlers && LeaseEnabled(s, h, a) && !a.Start? && !a.CallRelease?
    ensures var t := WithLease(s, h, a); LeasesSound(t.leases) && CallersOwned(t) && HandlersFit(t)
  {
    var t := WithLease(s, h, a);
    var key := KeyOf(s, s.handlers[h].key);
    LeaseStepFits(s, h, a);
    var me := key.callers[h];
    assert HandlerFits(s.handlers[h], Some(me)) by { assert CallerOf(s, h) == Some(me); }
    CallerStaysFit(s.handlers[h], me, key.leases[me.lease], a);
    assert t.handlers == s.handlers[h := s.handlers[h]];
    HandlerMoveFits(s, h, t);
  }

  /** A statement of the handler keeps it in step with its caller, whom its lease step may have moved to after. */
  lemma ActFits(v: Handler, caller: Option<L.Caller>, act: Act, after: Option<L.Caller>)
    requires HandlerFits(v, caller) && ActReady(v, caller, act)
    requires match LeaseAction(v, act)
      case None => after == caller
      case Some(a) =>
        after.Some? &&
        if a.Start? then !after.value.fired && after.value.pc.Waiting?
        else caller.Some? && after.value == caller.value.(pc := after.value.pc, fired := true)
             && (caller.value.fired ==> after == caller)
    ensures HandlerFits(HandlerAfter(v, caller, act), after)
  {
  }

  /** How a statement of the handler, with its lease step if it has one, changes handlers and leases. */
  lemma HandleMoves(s: State, h: Id, act: Act)
    requires LeasesSound(s.leases) && WellFormed(s) && HandleReady(s, h, act)
    ensures var t, v, a := Apply(s, Handle(h, act)), s.handlers[h], LeaseAction(s.handlers[h], act);
      && t.handlers == s.handlers[h := HandlerAfter(v, CallerOf(s, h), act)]
      && t.leases == (if a.Some? then WithLease(s, h, a.value).leases else s.leases)
      && t.handlers[h].key == v.key
  {
  }

  lemma HandleFits(s: State, h: Id, act: Act)
    requires LeasesSound(s.leases) && CallersOwned(s) && HandlersFit(s) && WellFormed(s) && HandleReady(s, h, act)
    ensures var t := Apply(s, Handle(h, act)); LeasesSound(t.leases) && CallersOwned(t) && HandlersFit(t)
  {
    var v := s.handlers[h];
    var a := LeaseAction(v, act);
    var t := Apply(s, Handle(h, act));
    HandleMoves(s, h, act);
    if a.Some? {
      LeaseStepFits(s, h, a.value);
    }
    assert HandlerFits(v, CallerOf(s, h));
    ActFits(v, CallerOf(s, h), act, CallerOf(t, h));
    HandlerMoveFits(s, h, t);
  }

  lemma ActOfUnfinished(v: Handler, caller: Option<L.Caller>, act: Act)
    requires ActReady(v, caller, act)
    ensures !v.stage.Finished? && HandlerAfter(v, caller, act).conn == v.conn
  {
  }

  lemma CountedIgnoresLeases(s: State, leases: map<Key, L.State>)
    requires WellFormed(s) && Counted(s)
    ensures WellFormed(s.(leases := leases)) && Counted(s.(leases := leases))
  {
    assert LiveConns(s.(leases := leases)) == LiveConns(s);
  }

  lemma HandleKeepsCounted(s: State, h: Id, act: Act)
    requires WellFormed(s) && Counted(s) && HandleReady(s, h, act)
    ensures WellFormed(Apply(s, Handle(h, act))) && Counted(Apply(s, Handle(h, act)))
  {
    var v' := HandlerAfter(s.handlers[h], CallerOf(s, h), act);
    ActOfUnfinished(s.handlers[h], CallerOf(s, h), act);
    SetHandlerKeepsCounted(s, h, v');
    var t := Apply(s, Handle(h, act));
    CountedIgnoresLeases(SetHandler(s, h, v'), t.leases);
    assert t == SetHandler(s, h, v').(leases := t.leases);
  }

  lemma AcceptKeepsCounted(s: State, id: ConnId)
    requires WellFormed(s) && Counted(s) && FrameReady(s, Accept(id))
    ensures WellFormed(FrameAfter(s, Accept(id))) && Counted(FrameAfter(s, Accept(id)))
  {
    var t := FrameAfter(s, Accept(id));
    assert LiveConns(t) == LiveConns(s) + {id};
    assert LiveHandlers(s.handlers, id) == {};
    forall i <- t.conns ensures t.conns[i].channels == |LiveHandlers(t.handlers, i)| { }
  }

  lemma EndKeepsCounted(s: State, id: ConnId)
    requires WellFormed(s) && Counted(s) && FrameReady(s, EndConnection(id))
    ensures WellFormed(FrameAfter(s, EndConnection(id))) && Counted(FrameAfter(s, EndConnection(id)))
  {
    assert LiveConns(FrameAfter(s, EndConnection(id))) == LiveConns(s) - {id};
  }

  lemma FrameKeepsCounted(s: State, f: FrameStep)
    requires WellFormed(s) && Counted(s) && FrameReady(s, f)
    ensures WellFormed(FrameAfter(s, f)) && Counted(FrameAfter(s, f))
  {
    if f.Accept? {
      AcceptKeepsCounted(s, f.id);
    } else if f.EndConnection? {
      EndKeepsCounted(s, f.id);
    } else {
      assert LiveConns(FrameAfter(s, f)) == LiveConns(s);
    }
  }

  lemma FrameKeepsFits(s: State, f: FrameStep)
    requires CallersOwned(s) && HandlersFit(s) && FrameReady(s, f)
    ensures CallersOwned(FrameAfter(s, f)) && HandlersFit(FrameAfter(s, f))
  {
    var t := FrameAfter(s, f);
    assert t.handlers == s.handlers && t.leases == s.leases;
    forall h <- t.handlers ensures HandlerFits(t.handlers[h], CallerOf(t, h)) {
      assert CallerOf(t, h) == CallerOf(s, h);
    }
  }

  /** A handler that is new, and no caller yet. */
  lemma NewHandlerFits(s: State, h: Id, v: Handler, s': State)
    requires CallersOwned(s) && HandlersFit(s) && h !in s.handlers && v.stage.Reading? && HandlerFits(v, None)
    requires s'.handlers == s.handlers[h := v] && s'.leases == s.leases
    ensures CallersOwned(s') && HandlersFit(s')
  {
    forall g <- s'.handlers ensures HandlerFits(s'.handlers[g], CallerOf(s', g)) {
      if g != h {
        assert CallerOf(s', g) == CallerOf(s, g);
      }
    }
  }

  lemma OpenChannelKeeps(s: State, id: ConnId, h: Id, kind: Kind, key: Key)
    requires Invariant(s) && Enabled(s, OpenChannel(id, h, kind, key))
    ensures Invariant(Apply(s, OpenChannel(id, h, kind, key)))
  {
    var v := Handler(id, kind, key, Reading, 0, false, false, 0);
    SetHandlerKeepsCounted(s, h, v);
    NewHandlerFits(s, h, v, SetHandler(s, h, v));
  }

  lemma StepKeepsInvariant(s: State, x: Step)
    requires Invariant(s) && Enabled(s, x)
    ensures Invariant(Apply(s, x))
  {
    match x {
      case Frame(f) =>
        FrameKeepsCounted(s, f);
        FrameKeepsFits(s, f);
      case OpenChannel(id, h, kind, key) => OpenChannelKeeps(s, id, h, kind, key);
      case Handle(h, act) =>
        HandleKeepsCounted(s, h, act);
        HandleFits(s, h, act);
      case LeaseStep(h, a) =>
        CountedIgnoresLeases(s, WithLease(s, h, a).leases);
        LeaseMoveFits(s, h, a);
    }
  }

  /** Any schedule of steps; a step that is not enabled when its turn comes is skipped. */
  ghost function Run(xs: seq<Step>): (s: State)
    ensures WellFormed(s)
  {
    if xs == [] then INIT else
      var s := Run(xs[..|xs| - 1]);
      if Enabled(s, Last(xs)) then Apply(s, Last(xs)) else s
  }

  lemma {:induction false} RunKeepsInvariant(xs: seq<Step>)
    ensures Invariant(Run(xs))
  {
    if xs != [] {
      RunKeepsInvariant(xs[..|xs| - 1]);
      var s := Run(xs[..|xs| - 1]);
      if Enabled(s, Last(xs)) {
        StepKeepsInvariant(s, Last(xs));
      }
    }
  }

  // ----- Shutdown -----

  /**
   When Serve has returned: every handler has finished, no caller is waiting for, in the gate of or holding any
   lease, the map has no entry, and the last lifecycle call for every key ever provisioned was a DeletePod
   that had returned.
   */
  lemma ServeReturnsClean(xs: seq<Step>)
    requires Run(xs).returned
    ensures var s := Run(xs);
      && (forall h <- s.handlers :: s.handlers[h].stage.Finished?)
      && forall k <- s.leases ::
           && (forall c <- s.leases[k].callers :: s.leases[k].callers[c].pc.Gone?)
           && s.leases[k].entry == None
           && (s.leases[k].log != [] ==> Last(s.leases[k].log).DeleteEnd?)
  {
    RunKeepsInvariant(xs);
    ReturnedMeansClean(Run(xs));
  }

  lemma ReturnedMeansClean(s: State)
    requires Invariant(s) && s.returned
    ensures forall h <- s.handlers :: s.handlers[h].stage.Finished?
    ensures forall k <- s.leases ::
      && (forall c <- s.leases[k].callers :: s.leases[k].callers[c].pc.Gone?)
      && s.leases[k].entry == None
      && (s.leases[k].log != [] ==> Last(s.leases[k].log).DeleteEnd?)
  {
    forall h <- s.handlers ensures s.handlers[h].stage.Finished? {
      NobodyIsLeft(s, h);
    }
    forall k <- s.leases
      ensures forall c <- s.leases[k].callers :: s.leases[k].callers[c].pc.Gone?
      ensures s.leases[k].entry == None
      ensures s.leases[k].log != [] ==> Last(s.leases[k].log).DeleteEnd?
    {
      FinishedMeansGone(s, k);
      EveryoneGoneMeansClean(s.leases[k]);
    }
  }

  lemma FinishedMeansGone(s: State, k: Key)
    requires CallersOwned(s) && HandlersFit(s) && k in s.leases
    requires forall h <- s.handlers :: s.handlers[h].stage.Finished?
    ensures forall c <- s.leases[k].callers :: s.leases[k].callers[c].pc.Gone?
  {
    forall c <- s.leases[k].callers ensures s.leases[k].callers[c].pc.Gone? {
      assert s.handlers[c].key == k && s.handlers[c].stage.Finished?;
      assert HandlerFits(s.handlers[c], CallerOf(s, c));
    }
  }

  lemma NobodyIsLeft(s: State, h: Id)
    requires WellFormed(s) && Counted(s) && s.returned && h in s.handlers
    ensures s.handlers[h].stage.Finished?
  {
    var id := s.handlers[h].conn;
    assert LiveConns(s) == {};
    assert id !in LiveConns(s);
    assert s.conns[id].done && LiveHandlers(s.handlers, id) == {};
    assert h !in LiveHandlers(s.handlers, id);
  }

  lemma EveryoneGoneMeansClean(key: L.State)
    requires L.Invariant(key) && forall c <- key.callers :: key.callers[c].pc.Gone?
    ensures key.entry == None && (key.log != [] ==> Last(key.log).DeleteEnd?)
  {
    LeaseRuns.IdleMeansDown(key);
    assert forall g: nat :: L.Players(key.callers, g, L.User) == {};
    assert key.entry.Some? ==> L.Counts(key, key.entry.value);
  }

  /** How far a handler has come. */
  function Rank(stage: Stage): nat {
    match stage
    case Reading => 0
    case Acquiring => 1
    case Working => 2
    case Draining => 3
    case Releasing => 4
    case Reporting => 5
    case Deferred => 6
    case Finished => 7
  }

  /** A step by which Serve comes nearer its return: it or a connection stops accepting or ends, a handler or a caller gets on. */
  predicate GetsOn(s: State, x: Step)
    requires WellFormed(s) && Enabled(s, x)
  {
    match x
    case Frame(f) => !f.Accept?
    case OpenChannel(_, _, _, _) => false
    case Handle(h, _) =>
      Further(s.handlers[h], Apply(s, x).handlers[h])
    case LeaseStep(h, _) =>
      var k := s.handlers[h].key;
      && h in KeyOf(s, k).callers && h in KeyOf(Apply(s, x), k).callers
      && LeaseRuns.Distance(KeyOf(Apply(s, x), k).callers[h].pc) < LeaseRuns.Distance(KeyOf(s, k).callers[h].pc)
  }

  /** What a handler does next when nothing else holds it up; outside acquireWorkspace and release it always can. */
  function NextAct(v: Handler): Act {
    match v.stage
    case Reading => LeaveUnstarted
    case Acquiring => AcquireReturns
    case Working => EndWork(false)
    case Draining => if v.outputs < 2 then OutputEnds else Drained
    case Releasing => ReleaseReturns
    case Reporting => Report(true)
    case Deferred => ReleaseAgain
    case Finished => LeaveUnstarted
  }

  /** The handler waits inside acquireWorkspace or release. */
  predicate InLease(v: Handler, caller: Option<L.Caller>) {
    (v.stage.Acquiring? || v.stage.Releasing?) && caller.Some? && !caller.value.pc.Holding? && !caller.value.pc.Gone?
  }

  predicate Further(v: Handler, v': Handler) {
    Rank(v.stage) < Rank(v'.stage) || (v.stage == v'.stage && v.outputs < v'.outputs <= 2)
  }

  lemma ActsGoFurther(v: Handler, caller: Option<L.Caller>, act: Act)
    requires ActReady(v, caller, act)
    ensures Further(v, HandlerAfter(v, caller, act))
  {
  }

  lemma HandlerGetsOn(s: State, h: Id)
    requires Invariant(s) && h in s.handlers && !s.handlers[h].stage.Finished? && !InLease(s.handlers[h], CallerOf(s, h))
    ensures Enabled(s, Handle(h, NextAct(s.handlers[h]))) && GetsOn(s, Handle(h, NextAct(s.handlers[h])))
  {
    var act := NextAct(s.handlers[h]);
    NextActIsReady(s, h);
    ActsGoFurther(s.handlers[h], CallerOf(s, h), act);
    HandleMoves(s, h, act);
  }

  /** What a handler's caller must be, given the lease's own invariant. */
  lemma CallerIsSound(s: State, h: Id)
    requires Invariant(s) && h in s.handlers && CallerOf(s, h).Some?
    ensures var k, v := s.handlers[h].key, CallerOf(s, h).value;
      && k in s.leases && L.Invariant(s.leases[k]) && h in s.leases[k].callers && v == s.leases[k].callers[h]
      && v.lease < |s.leases[k].leases| && (v.fired ==> L.AfterRelease(v.pc))
  {
    assert L.Invariant(s.leases[s.handlers[h].key]);
  }

  lemma NextActFits(v: Handler, caller: Option<L.Caller>)
    requires HandlerFits(v, caller) && !v.stage.Finished? && !InLease(v, caller)
    requires caller.Some? && caller.value.fired ==> L.AfterRelease(caller.value.pc)
    ensures ActReady(v, caller, NextAct(v))
    ensures LeaseAction(v, NextAct(v)).Some? ==>
      LeaseAction(v, NextAct(v)) == Some(L.CallRelease) && (v.stage.Deferred? || (caller.Some? && caller.value.pc.Holding?))
  {
  }

  lemma HolderCanRelease(s: State, h: Id)
    requires Invariant(s) && h in s.handlers && CallerOf(s, h).Some? && CallerOf(s, h).value.pc.Holding?
    ensures LeaseEnabled(s, h, L.CallRelease)
  {
    CallerIsSound(s, h);
    HoldingCanRelease(s.leases[s.handlers[h].key], h);
  }

  lemma HoldingCanRelease(key: L.State, h: Id)
    requires L.Invariant(key) && h in key.callers && key.callers[h].pc.Holding?
    ensures L.WellFormed(key) && L.Enabled(key, h, L.CallRelease)
  {
    assert !key.callers[h].fired;
  }

  lemma NextActIsReady(s: State, h: Id)
    requires Invariant(s) && h in s.handlers && !s.handlers[h].stage.Finished? && !InLease(s.handlers[h], CallerOf(s, h))
    ensures HandleReady(s, h, NextAct(s.handlers[h]))
  {
    var v, caller := s.handlers[h], CallerOf(s, h);
    assert HandlerFits(v, caller);
    if caller.Some? {
      CallerIsSound(s, h);
    }
    NextActFits(v, caller);
    if v.stage.Deferred? {
      SpentReleaseIsReady(s, h);
    } else if LeaseAction(v, NextAct(v)).Some? {
      HolderCanRelease(s, h);
    }
  }

  lemma CallerGetsOn(s: State, h: Id) returns (x: Step)
    requires Invariant(s) && h in s.handlers && InLease(s.handlers[h], CallerOf(s, h))
    ensures Enabled(s, x) && GetsOn(s, x)
  {
    var k := s.handlers[h].key;
    var key := s.leases[k];
    assert L.Invariant(key);
    var d, a := LeaseRuns.SomebodyCanMove(key, h);
    assert d in key.callers && s.handlers[d].key == k;
    L.ApplyMovesOneCaller(key, d, a);
    x := LeaseStep(d, a);
  }

  /**
   Until Serve has returned some step always gets on towards its return: it stops accepting, and a connection does; with
   neither accepting any more, a connection, a handler or a caller of a lease gets on.
   */
  lemma ShutdownIsNeverStuck(xs: seq<Step>) returns (x: Step)
    requires !Run(xs).returned
    ensures Enabled(Run(xs), x) && GetsOn(Run(xs), x)
  {
    RunKeepsInvariant(xs);
    var s := Run(xs);
    if s.serving {
      x := Frame(StopServing);
    } else if id :| id in s.conns && s.conns[id].accepting {
      x := Frame(StopChannels(id));
    } else {
      x := SomethingGetsOn(s);
    }
  }

  lemma SomethingGetsOn(s: State) returns (x: Step)
    requires Invariant(s) && !s.serving && forall id <- s.conns :: !s.conns[id].accepting
    ensures Enabled(s, x) && GetsOn(s, x)
  {
    if s.connections == 0 {
      x := Frame(ReturnFromServe);
    } else {
      var id :| id in LiveConns(s);
      if s.conns[id].channels == 0 {
        x := Frame(EndConnection(id));
      } else {
        assert |LiveHandlers(s.handlers, id)| == s.conns[id].channels;
        var h :| h in LiveHandlers(s.handlers, id);
        if InLease(s.handlers[h], CallerOf(s, h)) {
          x := CallerGetsOn(s, h);
        } else {
          x := Handle(h, NextAct(s.handlers[h]));
          HandlerGetsOn(s, h);
        }
      }
    }
  }

  // ----- Exit messages -----

  /**
   On every path of every backend at most one exit message is sent, and only when this session's own release has run
   to its end, or acquireWorkspace had given up without a lease; on the proxy's normal path both output streams
   had ended. Forwarding channels send none.
   */
  lemma ExitFollowsRelease(xs: seq<Step>, h: Id)
    requires h in Run(xs).handlers
    ensures var s := Run(xs);
      var v, caller := s.handlers[h], CallerOf(s, h);
      && v.exits <= 1
      && (v.kind.Forwarding? ==> v.exits == 0)
      && (v.exits == 1 ==> caller.Some? && caller.value.pc.Gone? && caller.value.fired == v.acquired)
      && (v.exits == 1 && v.normal ==> v.outputs == 2)
  {
    RunKeepsInvariant(xs);
    ExitFits(Run(xs), h);
  }

  lemma ExitFits(s: State, h: Id)
    requires HandlersFit(s) && h in s.handlers
    ensures var v, caller := s.handlers[h], CallerOf(s, h);
      && v.exits <= 1
      && (v.kind.Forwarding? ==> v.exits == 0)
      && (v.exits == 1 ==> caller.Some? && caller.value.pc.Gone? && caller.value.fired == v.acquired)
      && (v.exits == 1 && v.normal ==> v.outputs == 2)
  {
    assert HandlerFits(s.handlers[h], CallerOf(s, h));
  }

  /**
   A session that has finished after it asked for a lease has sent exactly one exit message; only a proxied session that
   came to its normal end can have sent none.
   */
  lemma FinishedSessionHasReported(xs: seq<Step>, h: Id)
    requires h in Run(xs).handlers && Run(xs).handlers[h].stage.Finished? && !Run(xs).handlers[h].kind.Forwarding?
    ensures var v := Run(xs).handlers[h]; CallerOf(Run(xs), h).Some? ==> v.exits == 1 || (v.kind.ProxySession? && v.normal && v.exits == 0)
  {
    RunKeepsInvariant(xs);
    ReportedFits(Run(xs), h);
  }

  lemma ReportedFits(s: State, h: Id)
    requires HandlersFit(s) && h in s.handlers && s.handlers[h].stage.Finished? && !s.handlers[h].kind.Forwarding?
    ensures var v := s.handlers[h]; CallerOf(s, h).Some? ==> v.exits == 1 || (v.kind.ProxySession? && v.normal && v.exits == 0)
  {
    assert HandlerFits(s.handlers[h], CallerOf(s, h));
  }

  /** The proxy's deferred second release changes no lease. */
  lemma DeferredReleaseHasNoEffect(xs: seq<Step>, h: Id)
    requires h in Run(xs).handlers && Run(xs).handlers[h].stage.Deferred?
    ensures Enabled(Run(xs), Handle(h, ReleaseAgain))
    ensures var s := Run(xs); Apply(s, Handle(h, ReleaseAgain)).leases == s.leases
  {
    RunKeepsInvariant(xs);
    DeferredHasNoEffect(Run(xs), h);
  }

  lemma DeferredHasNoEffect(s: State, h: Id)
    requires Invariant(s) && h in s.handlers && s.handlers[h].stage.Deferred?
    ensures Enabled(s, Handle(h, ReleaseAgain)) && Apply(s, Handle(h, ReleaseAgain)).leases == s.leases
  {
    SpentReleaseIsReady(s, h);
    DeferredStep(s, h);
  }

  lemma DeferredStep(s: State, h: Id)
    requires WellFormed(s) && h in s.handlers && s.handlers[h].stage.Deferred? && LeaseEnabled(s, h, L.CallRelease)
    ensures Enabled(s, Handle(h, ReleaseAgain))
    ensures Apply(s, Handle(h, ReleaseAgain)).leases == WithLease(s, h, L.CallRelease).leases
  {
  }

  lemma SpentReleaseIsReady(s: State, h: Id)
    requires Invariant(s) && h in s.handlers && s.handlers[h].stage.Deferred?
    ensures LeaseEnabled(s, h, L.CallRelease) && WithLease(s, h, L.CallRelease).leases == s.leases
  {
    var k := s.handlers[h].key;
    DeferredIsSpent(s, h);
    SpentReleaseChangesNothing(s.leases[k], h);
    assert s.leases[k := s.leases[k]] == s.leases;
  }

  lemma DeferredIsSpent(s: State, h: Id)
    requires Invariant(s) && h in s.handlers && s.handlers[h].stage.Deferred?
    ensures var k := s.handlers[h].key;
      && k in s.leases && L.Invariant(s.leases[k]) && L.WellFormed(s.leases[k])
      && h in s.leases[k].callers && s.leases[k].callers[h].pc.Gone? && s.leases[k].callers[h].fired
  {
    assert HandlerFits(s.handlers[h], CallerOf(s, h));
  }

  lemma SpentReleaseChangesNothing(key: L.State, c: Id)
    requires L.Invariant(key) && c in key.callers && key.callers[c].pc.Gone? && key.callers[c].fired
    ensures L.Enabled(key, c, L.CallRelease) && L.Apply(key, c, L.CallRelease) == key
  {
    L.GoneMovesKeepInvariant(key, c, L.CallRelease);
  }

  // ----- What a client gets -----

  lemma RunOneMore(xs: seq<Step>, x: Step)
    requires Enabled(Run(xs), x)
    ensures Run(xs + [x]) == Apply(Run(xs), x)
  {
    assert (xs + [x])[..|xs|] == xs;
  }

  /** While Serve accepts connections any new one is counted and can open channels. */
  lemma ConnectionIsAccepted(xs: seq<Step>, id: ConnId)
    requires var s := Run(xs); s.serving && id !in s.conns
    ensures var s, t := Run(xs), Run(xs + [Frame(Accept(id))]);
      && id in t.conns && t.conns[id].accepting && !t.conns[id].done && t.connections == s.connections + 1
      && t.handlers == s.handlers && t.leases == s.leases
  {
    RunOneMore(xs, Frame(Accept(id)));
  }

  /** A channel opened on an accepting connection is counted, and its handler can always ask for its key's lease. */
  lemma ChannelIsServed(xs: seq<Step>, id: ConnId, h: Id, kind: Kind, key: Key)
    requires var s := Run(xs); id in s.conns && s.conns[id].accepting && h !in s.handlers
    ensures var s, t := Run(xs), Run(xs + [OpenChannel(id, h, kind, key)] + [Handle(h, BeginAcquire)]);
      && h in t.handlers && t.handlers[h] == Handler(id, kind, key, Acquiring, 0, false, false, 0)
      && id in t.conns && t.conns[id].channels == s.conns[id].channels + 1
      && CallerOf(t, h).Some? && CallerOf(t, h).value.pc.Waiting?
  {
    RunKeepsInvariant(xs);
    RunOneMore(xs, OpenChannel(id, h, kind, key));
    var ys := xs + [OpenChannel(id, h, kind, key)];
    KeyIsReady(Run(xs), h, key);
    BeginStep(Run(ys), h);
    RunOneMore(ys, Handle(h, BeginAcquire));
  }

  lemma KeyIsReady(s: State, h: Id, key: Key)
    requires LeasesSound(s.leases) && CallersOwned(s) && h !in s.handlers
    ensures L.WellFormed(KeyOf(s, key)) && h !in KeyOf(s, key).callers
  {
    if key in s.leases {
      assert L.Invariant(s.leases[key]);
    }
  }

  lemma BeginStep(s: State, h: Id)
    requires WellFormed(s) && h in s.handlers && s.handlers[h].stage.Reading?
    requires L.WellFormed(KeyOf(s, s.handlers[h].key)) && h !in KeyOf(s, s.handlers[h].key).callers
    ensures Enabled(s, Handle(h, BeginAcquire))
    ensures var v, t := s.handlers[h], Apply(s, Handle(h, BeginAcquire));
      && h in t.handlers && t.handlers[h] == v.(stage := Acquiring)
      && v.conn in t.conns && t.conns[v.conn].channels == s.conns[v.conn].channels
      && CallerOf(t, h).Some? && CallerOf(t, h).value.pc.Waiting?
  {
    L.ApplyMovesOneCaller(KeyOf(s, s.handlers[h].key), h, L.Start);
  }

  /** acquireWorkspace returns to its handler: with the lease it works, and without it a session reports that. */
  lemma AcquireReturnsToHandler(xs: seq<Step>, h: Id)
    requires h in Run(xs).handlers && Run(xs).handlers[h].stage.Acquiring?
    requires var caller := CallerOf(Run(xs), h); caller.Some? && (caller.value.pc.Holding? || caller.value.pc.Gone?)
    ensures var s, t := Run(xs), Run(xs + [Handle(h, AcquireReturns)]);
      && t.leases == s.leases && h in t.handlers
      && if CallerOf(s, h).value.pc.Holding? then t.handlers[h].stage.Working?
         else t.handlers[h].stage == if t.handlers[h].kind.Forwarding? then Finished else Reporting
  {
    RunOneMore(xs, Handle(h, AcquireReturns));
  }

  /** A handler that works can end at any time; unless it is a proxy whose output is to be drained it begins its release. */
  lemma WorkEndsInRelease(xs: seq<Step>, h: Id, normal: bool)
    requires h in Run(xs).handlers && Run(xs).handlers[h].stage.Working?
    ensures var s, t := Run(xs), Run(xs + [Handle(h, EndWork(normal))]);
      && h in t.handlers && CallerOf(t, h).Some?
      && if s.handlers[h].kind.ProxySession? && normal then t.handlers[h].stage.Draining? && CallerOf(t, h).value.pc.Holding?
         else t.handlers[h].stage.Releasing? && CallerOf(t, h).value.pc.ReleaseWaiting?
  {
    RunKeepsInvariant(xs);
    WorkerHolds(Run(xs), h);
    EndWorkStep(Run(xs), h, normal);
    RunOneMore(xs, Handle(h, EndWork(normal)));
  }

  lemma WorkerHolds(s: State, h: Id)
    requires Invariant(s) && h in s.handlers && s.handlers[h].stage.Working?
    ensures LeaseEnabled(s, h, L.CallRelease)
    ensures CallerOf(s, h).Some? && CallerOf(s, h).value.pc.Holding? && !CallerOf(s, h).value.fired
  {
    assert HandlerFits(s.handlers[h], CallerOf(s, h));
    HolderCanRelease(s, h);
    CallerIsSound(s, h);
  }

  lemma EndWorkStep(s: State, h: Id, normal: bool)
    requires WellFormed(s) && h in s.handlers && s.handlers[h].stage.Working? && LeaseEnabled(s, h, L.CallRelease)
    requires CallerOf(s, h).Some? && CallerOf(s, h).value.pc.Holding? && !CallerOf(s, h).value.fired
    ensures Enabled(s, Handle(h, EndWork(normal)))
    ensures var t := Apply(s, Handle(h, EndWork(normal)));
      && h in t.handlers && CallerOf(t, h).Some?
      && if s.handlers[h].kind.ProxySession? && normal then t.handlers[h].stage.Draining? && CallerOf(t, h).value.pc.Holding?
         else t.handlers[h].stage.Releasing? && CallerOf(t, h).value.pc.ReleaseWaiting?
  {
    L.ApplyMovesOneCaller(KeyOf(s, s.handlers[h].key), h, L.CallRelease);
  }
}
